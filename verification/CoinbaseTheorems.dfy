/** What holds of every coinbase the assembler writes: it reads back, it pays exactly the coinbase value, it stays
    within its budget. */
module CoinbaseTheorems {
  import opened Bytes
  import opened Transaction
  import opened Coinbase
  import opened CoinbaseTypes
  import opened Budget

  // ---- the selection, independently of the loop that makes it ----

  function Costs(outs: seq<TxOut>, ks: seq<nat>): nat
    requires Indices(ks, |outs|)
  {
    if ks == [] then 0 else |outs[ks[0]].script| + 9 + Costs(outs, ks[1..])
  }

  function Values(outs: seq<TxOut>, ks: seq<nat>): nat
    requires Indices(ks, |outs|)
  {
    if ks == [] then 0 else outs[ks[0]].value + Values(outs, ks[1..])
  }

  /** The selected indices below `t`. */
  function Before(ks: seq<nat>, t: nat): seq<nat> { ks[..LeadBelow(ks, t)] }

  /** The payout at `t` fits what the selected ones before it leave, and they have not ended the selection: 30 bytes and
      a satoshi were left. Amounts are added as unsigned 64-bit numbers. */
  predicate Takes(outs: seq<TxOut>, sofar: seq<nat>, room: int, paid: nat, value: nat, t: nat)
    requires t < |outs| && Indices(sofar, |outs|)
  {
    var room', paid' := room - Costs(outs, sofar), (paid + Values(outs, sofar)) % 0x1_0000_0000_0000_0000;
    && (sofar == [] || (room' >= 30 && paid' < value))
    && |outs[t].script| + 9 <= room'
    && (paid' + outs[t].value) % 0x1_0000_0000_0000_0000 <= value
  }

  lemma BeforeCons(k: nat, ks: seq<nat>, t: nat)
    requires k < t
    ensures Before([k] + ks, t) == [k] + Before(ks, t)
  {
    assert ([k] + ks)[1..] == ks;
  }

  lemma TakesFirst(outs: seq<TxOut>, room: int, paid: nat, value: nat, t: nat)
    requires t < |outs| && paid < U64
    ensures Takes(outs, [], room, paid, value, t) <==> Fits(outs[t], room, paid, value)
  {
  }

  lemma TakesCons(outs: seq<TxOut>, k: nat, sofar: seq<nat>, room: int, paid: nat, value: nat, t: nat)
    requires k < |outs| && t < |outs| && Indices(sofar, |outs|)
    ensures var room', paid' := room - Cost(outs[k]), Add64(paid, outs[k].value);
            Indices([k] + sofar, |outs|) &&
            (Takes(outs, [k] + sofar, room, paid, value, t) <==>
               !(sofar == [] && Full(room', paid', value)) && Takes(outs, sofar, room', paid', value, t))
  {
    assert ([k] + sofar)[1..] == sofar;
    ModShift(paid, outs[k].value, Values(outs, sofar));
    ModShift(0, paid + outs[k].value, 0);
  }

  lemma ModShift(a: nat, b: nat, c: nat)
    ensures ((a + b) % U64 + c) % U64 == (a + b + c) % U64
  {
  }

  /** Payout `t` is in the selection `ks` exactly when it is to be taken after those before it. */
  ghost predicate PickedRight(outs: seq<TxOut>, ks: seq<nat>, room: int, paid: nat, value: nat, t: nat)
    requires t < |outs|
  {
    Indices(Before(ks, t), |outs|) && (t in ks <==> Takes(outs, Before(ks, t), room, paid, value, t))
  }

  lemma PickedHere(outs: seq<TxOut>, room: int, paid: nat, value: nat, t: nat)
    requires t < |outs| && paid < U64
    ensures PickedRight(outs, Picks(outs, t, room, paid, value), room, paid, value, t)
  {
    hide Takes, Picks, Fits, Full, Before;
    var ks := Picks(outs, t, room, paid, value);
    PickStep(outs, t, room, paid, value);
    NoneBefore(ks, t);
    TakesFirst(outs, room, paid, value, t);
    NotLater(outs, t + 1, room, paid, value, t);
  }

  /** With `k` taken first, the rest is selected with what `k` leaves. */
  lemma PickedBehind(outs: seq<TxOut>, k: nat, rest: seq<nat>, room: int, paid: nat, value: nat, t: nat)
    requires k < t < |outs| && forall i :: 0 <= i < |rest| ==> k < rest[i] < |outs|
    requires var room', paid' := room - Cost(outs[k]), Add64(paid, outs[k].value);
             if Full(room', paid', value) then rest == [] else PickedRight(outs, rest, room', paid', value, t)
    ensures PickedRight(outs, [k] + rest, room, paid, value, t)
  {
    hide Takes, Fits, Full, Add64, Cost, Before;
    BeforeCons(k, rest, t);
    var room', paid' := room - Cost(outs[k]), Add64(paid, outs[k].value);
    NoneBefore([], t);
    TakesCons(outs, k, Before(rest, t), room, paid, value, t);
    assert t in [k] + rest <==> t in rest;
    if !Full(room', paid', value) {
      assert PickedRight(outs, rest, room', paid', value, t);
    }
  }

  /** A payout is selected exactly when it fits what the selected ones before it leave of the room and of the value,
      and they have not ended the selection. */
  lemma {:induction false} PickedIff(outs: seq<TxOut>, k: nat, room: int, paid: nat, value: nat, t: nat)
    requires k <= t < |outs| && paid < U64
    ensures var ks := Picks(outs, k, room, paid, value);
            Indices(Before(ks, t), |outs|) && (t in ks <==> Takes(outs, Before(ks, t), room, paid, value, t))
    decreases t - k
  {
    hide Cost, Picks, Add64, Fits, Full, Takes, Before;
    var ks := Picks(outs, k, room, paid, value);
    var room', paid' := room - Cost(outs[k]), Add64(paid, outs[k].value);
    PickStep(outs, k, room, paid, value);
    if k == t {
      PickedHere(outs, room, paid, value, t);
    } else if Fits(outs[k], room, paid, value) {
      Add64Small(paid, outs[k].value);
      assert ks == [k] + ks[1..];
      if !Full(room', paid', value) {
        PickedIff(outs, k + 1, room', paid', value, t);
      }
      PickedBehind(outs, k, ks[1..], room, paid, value, t);
    } else {
      PickedIff(outs, k + 1, room, paid, value, t);
    }
  }

  lemma Add64Small(a: nat, b: nat)
    ensures Add64(a, b) < U64
  {
  }

  lemma NoneBefore(ks: seq<nat>, t: nat)
    requires ks == [] || ks[0] >= t
    ensures Before(ks, t) == []
  {
  }

  lemma NotLater(outs: seq<TxOut>, k: nat, room: int, paid: nat, value: nat, t: nat)
    requires t < k
    ensures t !in Picks(outs, k, room, paid, value)
  {
  }

  // ---- value ----

  predicate SumWithin(paid: nat, more: nat, value: nat) { (paid + more) % U64 <= value }

  lemma {:induction false} PicksWithin(j: Job, k: nat, room: int, paid: nat)
    requires WfJob(j) && paid <= j.value
    ensures SumWithin(paid, Paid(j.outs, Picks(j.outs, k, room, paid, j.value)), j.value)
    decreases |j.outs| - k
  {
    PicksPast(j.outs, k, room, paid, j.value);
    hide Paid, Picks, Fits, Full, Add64, Cost, SumWithin, WfJob;
    if k < |j.outs| {
      var o := j.outs[k];
      var ks := Picks(j.outs, k, room, paid, j.value);
      PickStep(j.outs, k, room, paid, j.value);
      if Fits(o, room, paid, j.value) {
        var room', paid' := room - Cost(o), Add64(paid, o.value);
        FitsWithin(o, room, paid, j.value);
        assert ks == [k] + ks[1..];
        PaidCons(j.outs, k, ks[1..]);
        if Full(room', paid', j.value) {
          PicksPast(j.outs, |j.outs|, room', paid', j.value);
        } else {
          PicksWithin(j, k + 1, room', paid');
        }
        PaidShift(paid, o.value, paid', Paid(j.outs, ks[1..]), j.value);
      } else {
        PicksWithin(j, k + 1, room, paid);
      }
    }
  }

  lemma PaidWithin(j: Job, k: nat, room: int, paid: nat)
    requires WfJob(j) && paid <= j.value
    ensures (paid + Paid(j.outs, Picks(j.outs, k, room, paid, j.value))) % U64 <= j.value
  {
    hide Paid, Picks;
    PicksWithin(j, k, room, paid);
  }

  lemma PaidShift(paid: nat, v: nat, paid': nat, rest: nat, value: nat)
    requires paid' == (paid + v) % U64 <= value && SumWithin(paid', rest, value)
    ensures SumWithin(paid, v + rest, value)
  {
    ModShift(paid, v, rest);
  }

  lemma FitsWithin(o: TxOut, room: int, paid: nat, value: nat)
    requires Fits(o, room, paid, value)
    ensures Add64(paid, o.value) == (paid + o.value) % U64 <= value
  {
  }

  lemma PicksPast(outs: seq<TxOut>, k: nat, room: int, paid: nat, value: nat)
    ensures Paid(outs, []) == 0
    ensures k >= |outs| ==> Picks(outs, k, room, paid, value) == []
    ensures paid <= value ==> SumWithin(paid, 0, value)
  {
    NothingEmitted(outs);
  }

  lemma PaidCons(outs: seq<TxOut>, k: nat, ks: seq<nat>)
    requires k < |outs| && Indices(ks, |outs|)
    ensures Indices([k] + ks, |outs|)
    ensures Paid(outs, [k] + ks) == outs[k].value + Paid(outs, ks)
  {
    assert OutsOf(outs, [k] + ks)[1..] == OutsOf(outs, ks);
  }

  /** Amounts that are non-negative as signed 64-bit numbers cannot make the running total wrap. */
  lemma {:induction false} NoWrap(j: Job, k: nat, room: int, paid: nat)
    requires WfJob(j) && paid <= j.value < U64 / 2
    requires forall o :: o in j.outs ==> o.value < U64 / 2
    ensures paid + Paid(j.outs, Picks(j.outs, k, room, paid, j.value)) <= j.value
    decreases |j.outs| - k
  {
    hide Paid;
    NothingEmitted(j.outs);
    if k < |j.outs| {
      var o := j.outs[k];
      if Fits(o, room, paid, j.value) {
        var room', paid' := room - Cost(o), Add64(paid, o.value);
        var rest := if Full(room', paid', j.value) then [] else Picks(j.outs, k + 1, room', paid', j.value);
        PaidCons(j.outs, k, rest);
        NoWrap(j, k + 1, room', paid');
      } else {
        NoWrap(j, k + 1, room, paid);
      }
    }
  }

  /** All outputs of a type, in order: payouts (split around the extranonce output where there is one), pool or
      dummy, witness commitment, signet commitment. */
  function AllOuts(t: nat, j: Job, input: seq<byte>, tpl: Template, emptyOnly: bool, extranonce: seq<byte>): seq<TxOut>
    requires WfJob(j)
  {
    var ret := [ReturnOut(j.enprefix, extranonce)];
    if emptyOnly then (if Roomy(input) then [] else ret) + [TxOut(j.value, j.pool), TxOut(0, j.commitment), SIGNET_OUT]
    else
      var room := Room(t, j, input, tpl);
      var ks := Selected(j, room);
      var n := Leading(j, room, t == 2, |Start(t, j, input)|);
      var tail := TailOuts(j, Paid(j.outs, ks) % U64);
      if InScript(t, input) then OutsOf(j.outs, ks) + tail
      else OutsOf(j.outs, ks[..n]) + ret + (OutsOf(j.outs, ks[n..]) + tail)
  }

  function FullScript(t: nat, j: Job, input: seq<byte>, emptyOnly: bool, extranonce: seq<byte>): seq<byte> {
    if InScript(if emptyOnly then 0 else t, input) then input + ([0x0E] + Prefix(j.enprefix) + extranonce) else input
  }

  /** Sum of all outputs: what the selected payouts get, and what the pool gets. */
  lemma TotalAll(t: nat, j: Job, input: seq<byte>, tpl: Template, emptyOnly: bool, extranonce: seq<byte>)
    requires WfJob(j)
    ensures var paid := Paid(j.outs, Selected(j, Room(t, j, input, tpl)));
            Total(AllOuts(t, j, input, tpl, emptyOnly, extranonce))
            == if emptyOnly then j.value else paid + PoolOut(j, paid % U64).value
  {
    hide Leading, Start, Fitted, Selected, ReturnOut, PoolOut;
    var ret := [ReturnOut(j.enprefix, extranonce)];
    ReturnIsFree(j.enprefix, extranonce);
    if emptyOnly {
      var three := [TxOut(j.value, j.pool), TxOut(0, j.commitment), SIGNET_OUT];
      TotalThree(three);
      TotalConcat(if Roomy(input) then [] else ret, three);
    } else {
      var ks := Selected(j, Room(t, j, input, tpl));
      var n := Leading(j, Room(t, j, input, tpl), t == 2, |Start(t, j, input)|);
      var tail := TailOuts(j, Paid(j.outs, ks) % U64);
      TotalThree(tail);
      var first, second := OutsOf(j.outs, ks[..n]), OutsOf(j.outs, ks[n..]);
      TotalSplit(first, ret, second, tail);
      assert OutsOf(j.outs, ks) == first + second;
      TotalConcat(first + second, tail);
    }
  }

  lemma ReturnIsFree(e: nat, extranonce: seq<byte>)
    ensures Total([ReturnOut(e, extranonce)]) == 0
  {
  }

  lemma TotalSplit(a: seq<TxOut>, b: seq<TxOut>, c: seq<TxOut>, d: seq<TxOut>)
    ensures Total(a + b + (c + d)) == Total(a) + Total(b) + Total(c) + Total(d)
    ensures Total(a + c) == Total(a) + Total(c)
  {
    TotalConcat(a + b, c + d);
    TotalConcat(a, b);
    TotalConcat(c, d);
    TotalConcat(a, c);
  }

  /** Whatever is left of the coinbase value after the selected payouts goes to the pool, so the outputs of every
      type add up to exactly that value - if and only if the selected amounts do not wrap at 2^64. */
  lemma Conservation(t: nat, j: Job, input: seq<byte>, tpl: Template, emptyOnly: bool, extranonce: seq<byte>)
    requires WfJob(j)
    ensures Total(AllOuts(t, j, input, tpl, emptyOnly, extranonce)) == j.value
       <==> (emptyOnly || Paid(j.outs, Selected(j, Room(t, j, input, tpl))) < U64)
  {
    hide AllOuts, Paid;
    TotalAll(t, j, input, tpl, emptyOnly, extranonce);
    PaidWithin(j, 0, Room(t, j, input, tpl), 0);
  }

  /** Amounts that are non-negative as signed 64-bit numbers never wrap. */
  lemma ConservationOfPayouts(t: nat, j: Job, input: seq<byte>, tpl: Template, extranonce: seq<byte>)
    requires WfJob(j) && j.value < U64 / 2 && forall o :: o in j.outs ==> o.value < U64 / 2
    ensures Total(AllOuts(t, j, input, tpl, false, extranonce)) == j.value
  {
    hide AllOuts, Paid;
    Conservation(t, j, input, tpl, false, extranonce);
    NoWrap(j, 0, Room(t, j, input, tpl), 0);
  }

  /** The service's fallback amount of -1, read as unsigned, does wrap: after a first payout of one satoshi it is
      selected, and the outputs claim more than the coinbase value. */
  lemma WrapExample(extranonce: seq<byte>)
    ensures var script: seq<byte> := seq(22, _ => 0x51);
            var j := Job([TxOut(1, script), TxOut(U64 - 1, script)], 5, script, [], 0);
            var tpl := Template(0, 0, 4_000_000, 4_000_000);
            && WfJob(j)
            && Paid(j.outs, Selected(j, Room(1, j, script, tpl))) == U64
            && Total(AllOuts(1, j, script, tpl, false, extranonce)) != j.value
  {
    var script: seq<byte> := seq(22, _ => 0x51);
    var j := Job([TxOut(1, script), TxOut(U64 - 1, script)], 5, script, [], 0);
    var tpl := Template(0, 0, 4_000_000, 4_000_000);
    assert Room(1, j, script, tpl) == 337;
    hide Picks, Room, AllOuts, Total;
    BothPicked(j.outs, 337);
    BothPaid(j.outs);
    Conservation(1, j, script, tpl, false, extranonce);
  }

  lemma BothPicked(outs: seq<TxOut>, room: int)
    requires |outs| == 2 && Cost(outs[0]) == Cost(outs[1]) == 31 && room >= 62
    requires outs[0].value == 1 && outs[1].value == U64 - 1
    ensures Picks(outs, 0, room, 0, 5) == [0, 1]
  {
    PickStep(outs, 0, room, 0, 5);
    PickStep(outs, 1, room - 31, 1, 5);
    var ks := Picks(outs, 0, room, 0, 5);
    assert ks[1..] == Picks(outs, 1, room - 31, 1, 5) && ks[1..][1..] == [];
    assert ks == [0] + [1];
  }

  lemma BothPaid(outs: seq<TxOut>)
    requires |outs| == 2
    ensures Paid(outs, [0, 1]) == outs[0].value + outs[1].value
  {
    assert OutsOf(outs, [0, 1]) == outs;
    assert Total(outs) == outs[0].value + Total(outs[1..]);
    assert Total(outs[1..]) == outs[1].value + Total(outs[1..][1..]);
  }

  lemma TotalThree(outs: seq<TxOut>)
    requires |outs| == 3
    ensures Total(outs) == outs[0].value + outs[1].value + outs[2].value
  {
    assert Total(outs[1..]) == outs[1].value + Total(outs[2..]);
    assert Total(outs[2..]) == outs[2].value + Total(outs[3..]);
  }

  // ---- reading back ----

  predicate AllFine(outs: seq<TxOut>) { forall o :: o in outs ==> WfOut(o) }

  lemma AllOutsFine(t: nat, j: Job, input: seq<byte>, tpl: Template, emptyOnly: bool, extranonce: seq<byte>)
    requires WfJob(j) && |extranonce| == 12
    ensures AllFine(AllOuts(t, j, input, tpl, emptyOnly, extranonce))
  {
    hide Leading, Start, Fitted, Picks, WfOut, WfJob, OutsOf, ReturnOut, TailOuts, Paid;
    FixedFine(j, extranonce);
    if !emptyOnly {
      var ks := Selected(j, Room(t, j, input, tpl));
      var n := Leading(j, Room(t, j, input, tpl), t == 2, |Start(t, j, input)|);
      TailFine(j, Paid(j.outs, ks) % U64);
      PayoutsFine(j, ks);
      PayoutsFine(j, ks[..n]);
      PayoutsFine(j, ks[n..]);
    }
  }

  lemma FixedFine(j: Job, extranonce: seq<byte>)
    requires WfJob(j) && |extranonce| == 12
    ensures WfOut(ReturnOut(j.enprefix, extranonce))
    ensures AllFine([TxOut(j.value, j.pool), TxOut(0, j.commitment), SIGNET_OUT])
  {
  }

  lemma TailFine(j: Job, paid: nat)
    requires WfJob(j)
    ensures AllFine(TailOuts(j, paid))
  {
  }

  lemma PayoutsFine(j: Job, ks: seq<nat>)
    requires WfJob(j) && Indices(ks, |j.outs|)
    ensures AllFine(OutsOf(j.outs, ks))
  {
    forall o | o in OutsOf(j.outs, ks) ensures WfOut(o) {
      var i :| 0 <= i < |ks| && OutsOf(j.outs, ks)[i] == o;
      assert WfPayout(j.outs[ks[i]]);
    }
  }

  /** The halves of a type that is generated on its own, around 12 bytes, are the serialized transaction. */
  lemma EmptyEncodes(j: Job, input: seq<byte>, extranonce: seq<byte>)
    requires WfJob(j) && |extranonce| == 12
    ensures var outs := (if Roomy(input) then [] else [ReturnOut(j.enprefix, extranonce)])
                        + [TxOut(j.value, j.pool), TxOut(0, j.commitment), SIGNET_OUT];
            Empty1(j, Roomy(input), Start(0, j, input)) + extranonce + Empty2(j, Roomy(input))
            == EncTx(CoinbaseTx(FullScript(0, j, input, true, extranonce), outs))
  {
    hide EncTx, EncOut, EncOuts, Varint, ReturnHead, ReturnOut, Prefix;
    var three := [TxOut(j.value, j.pool), TxOut(0, j.commitment), SIGNET_OUT];
    if Roomy(input) {
      ScriptLayout(j.enprefix, input, extranonce, three);
      assert [] + three == three;
    } else {
      EmptyReturn(j.enprefix, input, extranonce, three);
    }
  }

  lemma EmptyReturn(e: nat, input: seq<byte>, extranonce: seq<byte>, three: seq<TxOut>)
    requires |extranonce| == 12 && |three| == 3
    ensures CB_START + (Varint(|input|) + input + SEQUENCE) + (Varint(4) + ReturnHead(e))
            + extranonce + (EncOuts(three) + LOCKTIME)
            == EncTx(CoinbaseTx(input, [ReturnOut(e, extranonce)] + three))
  {
    hide EncTx, EncOuts, Varint, ReturnHead, ReturnOut;
    ReturnLayout(e, input, extranonce, [], three);
    NoOuts();
    assert [] + [ReturnOut(e, extranonce)] + three == [ReturnOut(e, extranonce)] + three;
    assert [] + ReturnHead(e) == ReturnHead(e);
  }

  lemma NoOuts()
    ensures EncOuts([]) == []
  {
  }

  lemma ScriptSubtypeEncodes(t: nat, j: Job, input: seq<byte>, room: int, extranonce: seq<byte>, b2: seq<byte>)
    requires WfJob(j) && |extranonce| == 12 && InScript(t, input)
    ensures var b1, ks := Start(t, j, input), Selected(j, room);
            Subtype1(j, room, true, false, b1) + extranonce + Subtype2(j, room, true, false, b1, b2)
            == EncTx(CoinbaseTx(input + ([0x0E] + Prefix(j.enprefix) + extranonce),
                                OutsOf(j.outs, ks) + TailOuts(j, Paid(j.outs, ks) % U64)))
  {
    hide EncTx, EncOut, EncOuts, Varint, Leading, Selected, Total, TailOuts, Picks, Prefix, OutsOf;
    var ks := Selected(j, room);
    var tail := TailOuts(j, Paid(j.outs, ks) % U64);
    LeadingNone(j, room, |Start(t, j, input)|);
    assert ks[0..] == ks;
    OutsConcat(OutsOf(j.outs, ks), tail);
    TailCount(j, Paid(j.outs, ks) % U64);
    ScriptLayout(j.enprefix, input, extranonce, OutsOf(j.outs, ks) + tail);
  }

  /** The halves of a layout with the extranonce in an output, told by the outputs on either side of it. */
  lemma ReturnSubtypes(j: Job, room: int, special: bool, b1: seq<byte>, extranonce: seq<byte>)
    requires |extranonce| == 12
    ensures var ks := Selected(j, room);
            var n := Leading(j, room, special, |b1|);
            var before := OutsOf(j.outs, ks[..n]);
            var after := OutsOf(j.outs, ks[n..]) + TailOuts(j, Paid(j.outs, ks) % U64);
            && Subtype1(j, room, false, special, b1)
               == b1 + (Varint(|before + [ReturnOut(j.enprefix, extranonce)] + after|)
                        + (EncOuts(before) + ReturnHead(j.enprefix)))
            && Subtype2(j, room, false, special, b1, []) == EncOuts(after) + LOCKTIME
  {
    hide EncTx, EncOut, EncOuts, Varint, Leading, Selected, Total, TailOuts, Picks, Prefix, OutsOf, ReturnHead;
    hide ReturnOut, WfJob;
    var ks := Selected(j, room);
    var n := Leading(j, room, special, |b1|);
    var tail := TailOuts(j, Paid(j.outs, ks) % U64);
    OutsConcat(OutsOf(j.outs, ks[n..]), tail);
    TailCount(j, Paid(j.outs, ks) % U64);
    assert |OutsOf(j.outs, ks[..n])| == n && |OutsOf(j.outs, ks[n..])| == |ks| - n;
    AppendThree(EncOuts(OutsOf(j.outs, ks[n..])), EncOuts(tail), LOCKTIME);
  }

  lemma AppendThree(a: seq<byte>, b: seq<byte>, c: seq<byte>)
    ensures [] + (a + (b + c)) == (a + b) + c
  {
  }

  lemma ReturnSubtypeEncodes(t: nat, j: Job, input: seq<byte>, room: int, extranonce: seq<byte>)
    requires WfJob(j) && |extranonce| == 12 && !InScript(t, input)
    ensures var b1, ks := Start(t, j, input), Selected(j, room);
            var n := Leading(j, room, t == 2, |b1|);
            Subtype1(j, room, false, t == 2, b1) + extranonce + Subtype2(j, room, false, t == 2, b1, [])
            == EncTx(CoinbaseTx(input,
                                OutsOf(j.outs, ks[..n]) + [ReturnOut(j.enprefix, extranonce)]
                                + (OutsOf(j.outs, ks[n..]) + TailOuts(j, Paid(j.outs, ks) % U64))))
  {
    hide EncTx, EncOut, EncOuts, Varint, Leading, Selected, Total, TailOuts, Picks, Prefix, OutsOf, ReturnHead;
    hide ReturnOut, WfJob, Subtype1, Subtype2;
    var b1, ks := Start(t, j, input), Selected(j, room);
    var n := Leading(j, room, t == 2, |b1|);
    var tail := TailOuts(j, Paid(j.outs, ks) % U64);
    ReturnSubtypes(j, room, t == 2, b1, extranonce);
    ReturnLayout(j.enprefix, input, extranonce, OutsOf(j.outs, ks[..n]), OutsOf(j.outs, ks[n..]) + tail);
  }

  lemma SubtypeEncodes(t: nat, j: Job, input: seq<byte>, tpl: Template, extranonce: seq<byte>, b2: seq<byte>)
    requires WfJob(j) && |extranonce| == 12
    requires InScript(t, input) || b2 == []
    ensures var room, special, b1 := Room(t, j, input, tpl), t == 2, Start(t, j, input);
            Subtype1(j, room, InScript(t, input), special, b1) + extranonce
            + Subtype2(j, room, InScript(t, input), special, b1, b2)
            == EncTx(CoinbaseTx(FullScript(t, j, input, false, extranonce),
                                AllOuts(t, j, input, tpl, false, extranonce)))
  {
    hide EncTx, EncOuts, Varint, ReturnHead, Leading, Selected, Room, Total, ReturnOut, TailOuts, Subtype1, Subtype2;
    hide Start, OutsOf, Picks, Prefix;
    if InScript(t, input) {
      ScriptSubtypeEncodes(t, j, input, Room(t, j, input, tpl), extranonce, b2);
    } else {
      ReturnSubtypeEncodes(t, j, input, Room(t, j, input, tpl), extranonce);
    }
  }

  lemma LeadingNone(j: Job, room: int, before: nat)
    ensures Leading(j, room, false, before) == 0
  {
  }

  lemma TailCount(j: Job, paid: nat)
    ensures |TailOuts(j, paid)| == 3
  {
  }

  /** Parse-back: for every payout list, budget and layout the halves with any 12 bytes between them read back as a
      one-input legacy transaction whose output list is exactly the expected one; its count is therefore right, its
      values add up as `Conservation` says, and nothing is left over. Type 0 needs a scriptSig of at most 85 bytes. */
  lemma GeneratedReads(t: nat, j: Job, input: seq<byte>, tpl: Template, emptyOnly: bool, extranonce: seq<byte>)
    requires t < TYPES && WfJob(j) && |input| <= 100 && |extranonce| == 12
    requires t == 0 && !emptyOnly ==> Roomy(input)
    ensures var (c1, c2) := Generated(t, j, input, tpl, emptyOnly);
            Reads(c1, extranonce, c2, CoinbaseTx(FullScript(t, j, input, emptyOnly, extranonce),
                                                 AllOuts(t, j, input, tpl, emptyOnly, extranonce)))
  {
    hide EncTx, Subtype1, Subtype2, Start, Empty1, Empty2, Reads, Room, Leading, Selected;
    AllOutsFine(t, j, input, tpl, emptyOnly, extranonce);
    var (c1, c2) := Generated(t, j, input, tpl, emptyOnly);
    if emptyOnly {
      EmptyEncodes(j, input, extranonce);
    } else {
      var b2 := if t == 0 then Empty2(j, Roomy(input)) else [];
      if t == 0 {
        EmptyRoomy(j, Start(t, j, input));
      }
      SubtypeEncodes(t, j, input, tpl, extranonce, b2);
    }
    OutCount(t, j, input, tpl, emptyOnly, extranonce);
    ReadsEncoding(c1, extranonce, c2, FullScript(t, j, input, emptyOnly, extranonce),
                  AllOuts(t, j, input, tpl, emptyOnly, extranonce));
  }

  lemma EmptyRoomy(j: Job, b1: seq<byte>)
    ensures Empty1(j, true, b1) == b1
  {
  }

  lemma OutCount(t: nat, j: Job, input: seq<byte>, tpl: Template, emptyOnly: bool, extranonce: seq<byte>)
    requires WfJob(j) && t < TYPES
    ensures |AllOuts(t, j, input, tpl, emptyOnly, extranonce)| < U64
  {
    hide Leading, Start, Picks, EncOuts;
    if !emptyOnly {
      var room := Room(t, j, input, tpl);
      PicksFit(j, 0, room, 0);
      EachTakesTen(j, Selected(j, room));
      assert room <= 16000;
    }
  }

  lemma {:induction false} EachTakesTen(j: Job, ks: seq<nat>)
    requires WfJob(j) && Indices(ks, |j.outs|)
    ensures 10 * |ks| <= |Emitted(j.outs, ks)|
  {
    hide Emitted;
    if ks != [] {
      EachTakesTen(j, ks[1..]);
      assert WfPayout(j.outs[ks[0]]) && ks == [ks[0]] + ks[1..];
      EmittedCons(j.outs, ks[0], ks[1..]);
    }
  }

  // ---- type 0 with a long scriptSig ----

  /** The reassembled bytes are some whole transaction. */
  ghost predicate ReadsAny(c1: seq<byte>, extranonce: seq<byte>, c2: seq<byte>) {
    var bytes := c1 + extranonce + c2;
    DecTx(bytes, 0).Some? && DecTx(bytes, 0).value.1 == |bytes|
  }

  /** Decoding the part of a coinbase before its output count. */
  lemma FrontReads(bytes: seq<byte>, input: seq<byte>)
    requires |input| <= 100
    requires At(bytes, 0, CB_START + (Varint(|input|) + input + SEQUENCE))
    ensures var p := |CB_START| + 1 + |input| + 4;
            DecTx(bytes, 0).Some? ==>
              && ReadVarint(bytes, p).Some?
              && var (n, q) := ReadVarint(bytes, p).value;
              && DecList(bytes, q, n, DecOut).Some?
              && var (outs, end) := DecList(bytes, q, n, DecOut).value;
              && DecTx(bytes, 0).value.0.outs == outs
              && DecTx(bytes, 0).value.1 == end + 4
  {
    NoneDecoded(bytes);
    hide EncTx, EncList, DecList, Le, At, ReadVarint;
    var t := CoinbaseTx(input, []);
    EncSingle(t.ins[0]);
    OneIsOne();
    assert EncInputs(t) == [0x01] + (PREVOUT + (Varint(|input|) + input + SEQUENCE));
    assert EncHead(t) == VERSION;
    assert CB_START + (Varint(|input|) + input + SEQUENCE) == EncHead(t) + EncInputs(t);
    AtConcat(bytes, 0, EncHead(t), EncInputs(t));
    HeadRoundTrip(bytes, 0, t);
    AtConcat(bytes, 4, Varint(1), EncList(t.ins, EncIn));
    InsRoundTrip(bytes, 5, t.ins);
    StartLength();
    assert 4 + |EncInputs(t)| == |CB_START| + 1 + |input| + 4;
  }

  lemma NoneDecoded(bytes: seq<byte>)
    ensures forall p: nat :: DecList(bytes, p, 0, DecStack) == Some(([], p))
  {
  }

  lemma StartLength()
    ensures |CB_START| == 41
  {
  }

  /** A script length announced by 0xff and five more 0xff bytes reaches past any buffer under 2^40 bytes. */
  lemma HugeScript(bytes: seq<byte>, off: nat)
    requires At(bytes, off, [0xff, 0xff, 0xff, 0xff, 0xff, 0xff]) && |bytes| < 0xff_ffff_ffff
    ensures ReadPrefixed(bytes, off) == None
  {
    assert bytes[off] == bytes[off..off + 6][0] == 0xff;
    if off + 9 <= |bytes| {
      var w := bytes[off + 1..off + 9];
      assert forall i :: 0 <= i < 5 ==> w[i] == bytes[off..off + 6][i + 1] == 0xff;
      assert FromLe(w) == 255 + 256 * FromLe(w[1..]);
      assert FromLe(w[1..]) == 255 + 256 * FromLe(w[2..]) by { assert w[1..][1..] == w[2..]; }
      assert FromLe(w[2..]) == 255 + 256 * FromLe(w[3..]) by { assert w[2..][1..] == w[3..]; }
      assert FromLe(w[3..]) == 255 + 256 * FromLe(w[4..]) by { assert w[3..][1..] == w[4..]; }
      assert FromLe(w[4..]) == 255 + 256 * FromLe(w[5..]) by { assert w[4..][1..] == w[5..]; }
    }
  }

  /** What lies between the first output count and coinb2 when the opening of the outputs is written twice: a whole
      first output whose script swallows the second count, then a value and a script length made of 0xff bytes. */
  lemma DoubledBytes(e: nat, m: byte) returns (script: seq<byte>, value: seq<byte>)
    ensures |value| == 8 && WfOut(TxOut(0, script))
    ensures [0x04] + ReturnHead(e) + ([m] + ReturnHead(e)) + seq(12, _ => 0xff)
         == [0x04] + (EncOut(TxOut(0, script)) + (value + [0xff, 0xff, 0xff, 0xff, 0xff, 0xff]))
  {
    hide Le;
    var r := ReturnHead(e);
    var ff: seq<byte> := seq(12, _ => 0xff);
    script := [0x6a, 0x0e] + Prefix(e) + [m] + r[..11];
    value := r[11..] + ff[..6];
    assert Varint(|script|) == [0x10];
    assert r == Le(0, 8) + ([0x10] + ([0x6a, 0x0e] + Prefix(e)));
    assert EncOut(TxOut(0, script)) == r + [m] + r[..11];
    assert r == r[..11] + r[11..];
    assert ff == ff[..6] + [0xff, 0xff, 0xff, 0xff, 0xff, 0xff];
  }

  lemma DoubledCountFails(input: seq<byte>, e: nat, m: byte, c2: seq<byte>)
    requires |input| <= 100 && |c2| < U32
    ensures var c1 := CB_START + (Varint(|input|) + input + SEQUENCE)
                      + ([0x04] + ReturnHead(e)) + ([m] + ReturnHead(e));
            !ReadsAny(c1, seq(12, _ => 0xff), c2)
  {
    hide DecTx, DecOut, ReturnHead, EncOut, ReadPrefixed, At, ReadVarint, DecList, Le;
    var ff: seq<byte> := seq(12, _ => 0xff);
    var front := CB_START + (Varint(|input|) + input + SEQUENCE);
    var c1 := front + ([0x04] + ReturnHead(e)) + ([m] + ReturnHead(e));
    var bytes := c1 + ff + c2;
    var script, value := DoubledBytes(e, m);
    var six: seq<byte> := [0xff, 0xff, 0xff, 0xff, 0xff, 0xff];
    var o := EncOut(TxOut(0, script));
    Regroup(front, [0x04] + ReturnHead(e), [m] + ReturnHead(e), ff, c2);
    Regroup5([0x04], o, value, six, c2);
    StartLength();
    var p := DoubledPositions(bytes, front, o, value, six, c2);
    FrontReads(bytes, input);
    OutRoundTrip(bytes, p + 1, TxOut(0, script));
    HugeScript(bytes, p + 1 + |o| + 8);
    NoScript(bytes, p + 1 + |o|);
    SecondFails(bytes, p + 1, p + 1 + |o|);
  }

  lemma DoubledPositions(bytes: seq<byte>, front: seq<byte>, o: seq<byte>, value: seq<byte>, six: seq<byte>,
                         c2: seq<byte>) returns (p: nat)
    requires bytes == front + ([0x04] + (o + (value + (six + c2)))) && |value| == 8
    ensures p == |front| && At(bytes, 0, front) && At(bytes, p + 1, o) && At(bytes, p + 1 + |o| + 8, six)
    ensures ReadVarint(bytes, p) == Some((4, p + 1))
  {
    hide At;
    p := |front|;
    AtSelf(bytes);
    AtConcat(bytes, 0, front, [0x04] + (o + (value + (six + c2))));
    AtHead(bytes, p, 0x04, o + (value + (six + c2)));
    AtConcat(bytes, p + 1, o, value + (six + c2));
    AtConcat(bytes, p + 1 + |o|, value, six + c2);
    AtConcat(bytes, p + 1 + |o| + 8, six, c2);
  }

  lemma Regroup(a: seq<byte>, b: seq<byte>, c: seq<byte>, d: seq<byte>, e: seq<byte>)
    ensures a + b + c + d + e == a + ((b + c + d) + e)
  {
  }

  lemma Regroup5(a: seq<byte>, b: seq<byte>, c: seq<byte>, d: seq<byte>, e: seq<byte>)
    ensures (a + (b + (c + d))) + e == a + (b + (c + (d + e)))
  {
  }

  lemma NoScript(bytes: seq<byte>, off: nat)
    requires ReadPrefixed(bytes, off + 8) == None
    ensures DecOut(bytes, off) == None
  {
  }

  lemma SecondFails(bytes: seq<byte>, p: nat, q: nat)
    requires DecOut(bytes, p).Some? && DecOut(bytes, p).value.1 == q && DecOut(bytes, q) == None
    ensures DecList(bytes, p, 4, DecOut) == None
  {
    hide DecOut;
    assert DecList(bytes, q, 3, DecOut) == None;
  }

  /** Type 0 is generated on top of the already written empty coinbase. Every extranonce gives a readable transaction
      exactly when the scriptSig leaves room for the extranonce push; otherwise one of all 0xff bytes does not. */
  lemma TypeZeroIff(j: Job, input: seq<byte>, tpl: Template)
    requires WfJob(j) && |input| <= 100
    ensures var (c1, c2) := Generated(0, j, input, tpl, false);
            (forall extranonce: seq<byte> :: |extranonce| == 12 ==> ReadsAny(c1, extranonce, c2)) <==> Roomy(input)
  {
    hide *;
    var (c1, c2) := Generated(0, j, input, tpl, false);
    if Roomy(input) {
      forall extranonce: seq<byte> | |extranonce| == 12 ensures ReadsAny(c1, extranonce, c2) {
        TypeZeroReads(j, input, tpl, extranonce);
      }
    } else {
      TypeZeroFails(j, input, tpl);
    }
  }

  lemma TypeZeroReads(j: Job, input: seq<byte>, tpl: Template, extranonce: seq<byte>)
    requires WfJob(j) && Roomy(input) && |extranonce| == 12
    ensures var (c1, c2) := Generated(0, j, input, tpl, false); ReadsAny(c1, extranonce, c2)
  {
    hide DecTx, Generated, FullScript, AllOuts;
    GeneratedReads(0, j, input, tpl, false, extranonce);
  }

  lemma TypeZeroFails(j: Job, input: seq<byte>, tpl: Template)
    requires WfJob(j) && |input| <= 100 && !Roomy(input)
    ensures var (c1, c2) := Generated(0, j, input, tpl, false); !ReadsAny(c1, seq(12, _ => 0xff), c2)
  {
    hide *;
    var m := TypeZeroHalves(j, input, tpl);
    DoubledCountFails(input, j.enprefix, m, Generated(0, j, input, tpl, false).1);
  }

  lemma TypeZeroHalves(j: Job, input: seq<byte>, tpl: Template) returns (m: byte)
    requires WfJob(j) && |input| <= 100 && !Roomy(input)
    ensures var (c1, c2) := Generated(0, j, input, tpl, false);
            && c1 == CB_START + (Varint(|input|) + input + SEQUENCE)
                     + ([0x04] + ReturnHead(j.enprefix)) + ([m] + ReturnHead(j.enprefix))
            && |c2| < U32
  {
    hide Picks, ReturnHead, Paid, Tail, Emitted, Fitted, Empty2, Leading, EncOuts, Le;
    var room := Room(0, j, input, tpl);
    var ks := Selected(j, room);
    RoomWithin(0, j, input, tpl);
    SecondHalfSmall(j, room);
    m := |ks| + 4;
    TypeZeroFirst(j, room, Empty1(j, false, Start(0, j, input)));
    assert Varint(4) == [0x04];
    assert Start(0, j, input) == CB_START + (Varint(|input|) + input + SEQUENCE);
  }

  lemma TypeZeroFirst(j: Job, room: int, b1: seq<byte>)
    requires WfJob(j) && |Selected(j, room)| <= 50
    ensures Subtype1(j, room, false, false, b1) == b1 + ([|Selected(j, room)| + 4] + ReturnHead(j.enprefix))
    ensures Selected(j, room)[Leading(j, room, false, |b1|)..] == Selected(j, room)
  {
    hide ReturnHead, Selected, Emitted;
    LeadingNone(j, room, |b1|);
    FirstCases(j, []);
    assert Selected(j, room)[..0] == [];
  }

  lemma RoomWithin(t: nat, j: Job, input: seq<byte>, tpl: Template)
    ensures Room(t, j, input, tpl) <= MaxSize(t)
  {
  }

  lemma SecondHalfSmall(j: Job, room: int)
    requires WfJob(j) && room <= 500
    ensures |Empty2(j, false)| + |Emitted(j.outs, Selected(j, room))|
            + |Tail(j, Paid(j.outs, Selected(j, room)) % U64)| < 1000
    ensures |Selected(j, room)| <= 50
  {
    EachTakesTen(j, Selected(j, room));
    hide Picks, Paid, EncOuts, EncOut;
    PicksFit(j, 0, room, 0);
    var paid := Paid(j.outs, Selected(j, room)) % U64;
    EncSizes(j, paid);
    TailParts(j, paid);
    ThreeOuts(TxOut(j.value, j.pool), TxOut(0, j.commitment), SIGNET_OUT);
    CostIsSize(TxOut(0, j.pool));
    PoolSize(j);
  }

  lemma PoolSize(j: Job)
    requires WfJob(j)
    ensures |EncOut(TxOut(j.value, j.pool))| == |j.pool| + 9
  {
  }

  // ---- the special layout ----

  lemma {:induction false} LeadBelowAtMost(ks: seq<nat>, c: nat, start: nat)
    requires forall i :: 0 <= i < |ks| ==> ks[i] >= start + i
    ensures start + LeadBelow(ks, c) <= (if c >= start then c else start)
  {
    if ks != [] && ks[0] < c {
      LeadBelowAtMost(ks[1..], c, start + 1);
    }
  }

  lemma {:induction false} LeadFitBytes(outs: seq<TxOut>, room: int, n: nat)
    requires n <= LeadFit(outs, room) && forall o :: o in outs ==> WfPayout(o)
    ensures |EncOuts(outs[..n])| <= Positive(room)
  {
    hide EncOut;
    if n > 0 {
      assert outs[0] in outs;
      CostIsSize(outs[0]);
      assert outs[..n][0] == outs[0] && outs[..n][1..] == outs[1..][..n - 1];
      LeadFitBytes(outs[1..], room - Cost(outs[0]), n - 1);
    }
  }

  /** The payouts the special layout puts into coinb1 are a prefix of the selection with which coinb1 stays within 150
      bytes, although the emission compares raw indices with a number of selected payouts. */
  lemma LeadingWithin(j: Job, room: int, before: nat)
    requires WfJob(j)
    ensures var ks := Selected(j, room);
            var n := Leading(j, room, true, before);
            && n <= |ks|
            && (n > 0 ==> before + |Emitted(j.outs, ks[..n])| <= 150)
  {
    var ks := Selected(j, room);
    hide Picks, Emitted;
    var c := LeadingIff(j, room, before);
    var n := Leading(j, room, true, before);
    IncreasingFromZero(ks);
    if n > 0 {
      assert ks[n - 1] < c && n <= c;
      EmittedGrows(j, ks, n, c);
    }
  }

  /** And exactly which: let `c` be how many selected payouts coinb1 can take, one after the other, within 150 bytes;
      those with a raw index below `c` go there. So the next payout is left out only when it no longer fits or because
      of its raw index. */
  lemma LeadingIff(j: Job, room: int, before: nat) returns (c: nat)
    requires WfJob(j)
    ensures var ks := Selected(j, room);
            && c <= |ks|
            && (c > 0 ==> before + |Emitted(j.outs, ks[..c])| <= 150)
            && (c < |ks| ==> before + |Emitted(j.outs, ks[..c + 1])| > 150)
            && forall i :: 0 <= i < |ks| ==> (i < Leading(j, room, true, before) <==> ks[i] < c)
  {
    hide Picks;
    var ks := Selected(j, room);
    var outs := OutsOf(j.outs, ks);
    c := LeadFit(outs, FirstRoom(before));
    LeadFitExact(outs, FirstRoom(before)) by {
      forall o | o in outs ensures WfPayout(o) {}
    }
    BelowExact(ks, c);
    assert outs[..c] == OutsOf(j.outs, ks[..c]);
    if c < |ks| {
      assert outs[..c + 1] == OutsOf(j.outs, ks[..c + 1]);
    }
    hide LeadFit, LeadBelow;
    NothingEmitted(j.outs);
    if c > 0 {
      assert outs[..c] == [outs[0]] + outs[1..c];
      NotEmpty(outs[..c]);
    }
  }

  lemma NotEmpty(outs: seq<TxOut>)
    requires outs != []
    ensures |EncOuts(outs)| > 0
  {
  }

  lemma {:induction false} LeadFitExact(outs: seq<TxOut>, room: int)
    requires forall o :: o in outs ==> WfPayout(o)
    ensures var c := LeadFit(outs, room);
            && |EncOuts(outs[..c])| <= Positive(room)
            && (c < |outs| ==> |EncOuts(outs[..c + 1])| > room)
  {
    hide EncOut;
    LeadFitBytes(outs, room, LeadFit(outs, room));
    if outs != [] {
      assert outs[0] in outs;
      CostIsSize(outs[0]);
      if Cost(outs[0]) > room {
        SingleOutput(outs[..1]);
      } else {
        LeadFitExact(outs[1..], room - Cost(outs[0]));
        var c := LeadFit(outs, room);
        if c < |outs| {
          assert outs[..c + 1][0] == outs[0] && outs[..c + 1][1..] == outs[1..][..c];
        }
      }
    }
  }

  lemma SingleOutput(outs: seq<TxOut>)
    requires |outs| == 1
    ensures EncOuts(outs) == EncOut(outs[0])
  {
    hide EncOut;
    assert EncList(outs[1..], EncOut) == [];
  }

  lemma {:induction false} BelowExact(ks: seq<nat>, c: nat)
    requires forall i, k :: 0 <= i < k < |ks| ==> ks[i] < ks[k]
    ensures forall i :: 0 <= i < |ks| ==> (i < LeadBelow(ks, c) <==> ks[i] < c)
  {
    if ks != [] && ks[0] < c {
      BelowExact(ks[1..], c);
      forall i | 0 <= i < |ks| ensures i < LeadBelow(ks, c) <==> ks[i] < c {
        if i > 0 {
          assert ks[1..][i - 1] == ks[i];
        }
      }
    }
  }

  lemma EmittedGrows(j: Job, ks: seq<nat>, n: nat, c: nat)
    requires n <= c <= |ks| && Indices(ks, |j.outs|)
    ensures |Emitted(j.outs, ks[..n])| <= |Emitted(j.outs, ks[..c])|
  {
    hide EncOuts;
    assert OutsOf(j.outs, ks[..c]) == OutsOf(j.outs, ks[..n]) + OutsOf(j.outs, ks[n..c]);
    OutsConcat(OutsOf(j.outs, ks[..n]), OutsOf(j.outs, ks[n..c]));
  }

  lemma {:induction false} IncreasingFromZero(ks: seq<nat>)
    requires forall i, k :: 0 <= i < k < |ks| ==> ks[i] < ks[k]
    ensures forall i :: 0 <= i < |ks| ==> ks[i] >= i
  {
    if ks != [] {
      IncreasingFromZero(ks[..|ks| - 1]);
      forall i | 0 <= i < |ks| ensures ks[i] >= i {
        if i == |ks| - 1 && i > 0 {
          assert ks[..|ks| - 1][i - 1] == ks[i - 1] < ks[i];
        } else if i < |ks| - 1 {
          assert ks[i] == ks[..|ks| - 1][i];
        }
      }
    }
  }

  /** Reserved and payout bytes together never exceed the type's maximum. */
  lemma SelectedSize(t: nat, j: Job, input: seq<byte>, tpl: Template)
    requires t < TYPES && WfJob(j) && |input| <= 100
    ensures var ks := Selected(j, Room(t, j, input, tpl));
            && Reserved(t, j, input) + |Emitted(j.outs, ks)| <= MaxSize(t)
            && |ks| + 4 <= 0xffff
  {
    hide Picks, Emitted, Fitted;
    var room := Room(t, j, input, tpl);
    FittedWithinLimits(MaxSize(t), Reserved(t, j, input), tpl);
    PicksFit(j, 0, room, 0);
    EachTakesTen(j, Selected(j, room));
  }

  /** How many payout bytes a type may use, in figures: what its maximum, 500, 755, 6500, 16000 or 2250 bytes, and the
      two limits of the template leave beside the reserved bytes, and nothing that fits is given away. */
  lemma RoomIs(t: nat, j: Job, input: seq<byte>, tpl: Template, more: int)
    requires t < TYPES && WfJob(j) && |input| <= 100
    requires tpl.weight >= tpl.size && tpl.weightLimit <= tpl.sizeLimit
    ensures var most := [500, 500, 755, 6500, 16000, 2250][t];
            var reserved := 119 + |j.pool| + |input| + (if |input| > 85 || t == 2 then 10 else 0);
            var room := Room(t, j, input, tpl);
            && 0 <= room <= most - reserved
            && (room > 0 ==> && reserved + room + tpl.size + 121 <= tpl.sizeLimit
                             && 4 * (reserved + room) + tpl.weight + 376 <= tpl.weightLimit)
            && (more > room ==> || more > most - reserved
                                || reserved + more + tpl.size + 121 > tpl.sizeLimit
                                || 4 * (reserved + more) + tpl.weight + 376 > tpl.weightLimit)
  {
    hide Fitted;
    FittedWithinLimits(MaxSize(t), Reserved(t, j, input), tpl);
    if more > Room(t, j, input, tpl) {
      FittedIsLargest(MaxSize(t), Reserved(t, j, input), tpl, more);
    }
  }

  lemma {:induction false} ZeroBytes(w: nat)
    ensures Le(0, w) == seq(w, _ => 0)
  {
    if w > 0 {
      ZeroBytes(w - 1);
    }
  }

  /** A coinbase field by field: version 1, one input without a previous output, lock time 0; the scriptSig with the
      extranonce behind it, or an output of its own for the extranonce; the payouts in order; what is left for the pool;
      the two commitments. */
  predicate Spells(tx: Tx, j: Job, input: seq<byte>, own: bool, extranonce: seq<byte>,
                   before: seq<TxOut>, after: seq<TxOut>, rest: TxOut)
    requires WfJob(j)
  {
    var en := [j.enprefix / 256, j.enprefix % 256] + extranonce;
    && !tx.segwit && tx.version == [1, 0, 0, 0] && tx.locktime == [0, 0, 0, 0] && |tx.ins| == 1
    && tx.ins[0].prevout == seq(32, _ => 0) + [255, 255, 255, 255]
    && tx.ins[0].script == (if own then input else input + ([14] + en))
    && tx.ins[0].sequence == [255, 255, 255, 255]
    && tx.outs == before + (if own then [TxOut(0, [0x6a, 14] + en)] else [])
                  + (after + [rest, TxOut(0, j.commitment), TxOut(0, [0x6a, 0x04, 0xec, 0xc7, 0xda, 0xa2])])
  }

  /** What any miner's bytes decode to: such a coinbase, with the selected payouts split around the extranonce's output
      in the special layout only. */
  lemma DecodesTo(t: nat, j: Job, input: seq<byte>, tpl: Template, extranonce: seq<byte>)
    returns (tx: Tx, before: seq<TxOut>, after: seq<TxOut>)
    requires t < TYPES && WfJob(j) && |input| <= 100 && |extranonce| == 12
    requires t == 0 ==> |input| <= 85
    ensures var (c1, c2) := Generated(t, j, input, tpl, false); Reads(c1, extranonce, c2, tx)
    ensures Spells(tx, j, input, |input| > 85 || t == 2, extranonce, before, after, RestOut(j, before + after))
    ensures before + after == OutsOf(j.outs, Selected(j, Room(t, j, input, tpl)))
    ensures t != 2 ==> before == []
  {
    hide Selected, Room, Leading, Start, Generated, Reads, OutsOf, Total;
    GeneratedReads(t, j, input, tpl, false, extranonce);
    var ks := Selected(j, Room(t, j, input, tpl));
    var n := Leading(j, Room(t, j, input, tpl), t == 2, |Start(t, j, input)|);
    LeadingNone(j, Room(t, j, input, tpl), |Start(t, j, input)|);
    SplitAt(j.outs, ks, n);
    before, after := OutsOf(j.outs, ks[..n]), OutsOf(j.outs, ks[n..]);
    tx := CoinbaseTx(FullScript(t, j, input, false, extranonce), AllOuts(t, j, input, tpl, false, extranonce));
    hide WfJob, Spells, CoinbaseTx, AllOuts, FullScript, RestOut;
    Spelled(t, j, input, tpl, extranonce, before, after);
  }

  lemma SplitAt(outs: seq<TxOut>, ks: seq<nat>, n: nat)
    requires n <= |ks| && Indices(ks, |outs|)
    ensures OutsOf(outs, ks[..n]) + OutsOf(outs, ks[n..]) == OutsOf(outs, ks)
    ensures n == 0 ==> OutsOf(outs, ks[..n]) == []
  {
  }

  lemma Spelled(t: nat, j: Job, input: seq<byte>, tpl: Template, extranonce: seq<byte>,
                before: seq<TxOut>, after: seq<TxOut>)
    requires WfJob(j)
    requires var ks := Selected(j, Room(t, j, input, tpl));
             var n := Leading(j, Room(t, j, input, tpl), t == 2, |Start(t, j, input)|);
             && before == OutsOf(j.outs, ks[..n]) && after == OutsOf(j.outs, ks[n..])
             && before + after == OutsOf(j.outs, ks) && (t != 2 ==> before == [])
    ensures Spells(CoinbaseTx(FullScript(t, j, input, false, extranonce),
                              AllOuts(t, j, input, tpl, false, extranonce)),
                   j, input, |input| > 85 || t == 2, extranonce, before, after, RestOut(j, before + after))
  {
    hide Selected, Room, Leading, Start, Le, OutsOf, ReturnOut, Total, Prefix;
    ZeroBytes(32);
    ReturnScript(j.enprefix, extranonce);
    var ks := Selected(j, Room(t, j, input, tpl));
    assert TailOuts(j, Paid(j.outs, ks) % U64)
        == [RestOut(j, before + after), TxOut(0, j.commitment), TxOut(0, [0x6a, 0x04, 0xec, 0xc7, 0xda, 0xa2])];
    hide TailOuts, RestOut, Paid, WfJob;
  }

  /** The empty coinbase, in every type: the pool is paid the whole value. */
  lemma EmptyDecodesTo(t: nat, j: Job, input: seq<byte>, tpl: Template, extranonce: seq<byte>) returns (tx: Tx)
    requires t < TYPES && WfJob(j) && |input| <= 100 && |extranonce| == 12
    ensures var (c1, c2) := Generated(t, j, input, tpl, true); Reads(c1, extranonce, c2, tx)
    ensures Spells(tx, j, input, |input| > 85, extranonce, [], [], TxOut(j.value, j.pool))
  {
    GeneratedReads(t, j, input, tpl, true, extranonce);
    tx := CoinbaseTx(FullScript(t, j, input, true, extranonce), AllOuts(t, j, input, tpl, true, extranonce));
    hide Le, ReturnOut, Prefix, Generated, Reads;
    ZeroBytes(32);
    ReturnScript(j.enprefix, extranonce);
    hide WfJob;
  }

  lemma ReturnScript(e: nat, extranonce: seq<byte>)
    requires e < U16
    ensures Prefix(e) == [e / 256, e % 256]
    ensures ReturnOut(e, extranonce) == TxOut(0, [0x6a, 14] + ([e / 256, e % 256] + extranonce))
    ensures [14] + Prefix(e) + extranonce == [14] + ([e / 256, e % 256] + extranonce)
  {
    assert [0x6a, 0x0e] + Prefix(e) + extranonce == [0x6a, 14] + ([e / 256, e % 256] + extranonce);
  }

  /** The last payment: to the pool what the payouts, added as unsigned 64-bit numbers, leave of the coinbase value. */
  function RestOut(j: Job, payouts: seq<TxOut>): TxOut {
    var paid := Total(payouts) % 0x1_0000_0000_0000_0000;
    if paid < j.value then TxOut(j.value - paid, j.pool) else TxOut(0, [0x6a, 0x01, 0x00])
  }
}
