/** Filling a job's payouts from the service's answer for the shared coinbase (datum_coinbaser.c), and what becomes of
    the service's fallback answer. */
module SharedPayouts {
  import opened Bytes
  import opened Transaction
  import opened Coinbase
  import opened CoinbaseTypes
  import opened CoinbaseTheorems
  import opened Budget
  import opened Wire
  import opened PersonalHalves

  /** Conversion of a signed 64-bit amount to unsigned. */
  function Unsigned(a: int): nat { a % U64 }

  /** The payouts of the job: outputs with a decodable address, whatever their amount. */
  function Available(outs: seq<Output>, scripts: Scripts): seq<TxOut> {
    if outs == [] then []
    else
      (if outs[0].address in scripts then [TxOut(Unsigned(outs[0].amount), scripts[outs[0].address])] else [])
      + Available(outs[1..], scripts)
  }

  lemma {:induction false} AvailableSnoc(outs: seq<Output>, o: Output, scripts: Scripts)
    ensures Available(outs + [o], scripts) == Available(outs, scripts) + Available([o], scripts)
  {
    hide Unsigned;
    if outs == [] {
      assert [] + [o] == [o];
    } else {
      var head := if outs[0].address in scripts
                  then [TxOut(Unsigned(outs[0].amount), scripts[outs[0].address])] else [];
      assert (outs + [o])[0] == outs[0] && (outs + [o])[1..] == outs[1..] + [o];
      assert Available(outs + [o], scripts) == head + Available(outs[1..] + [o], scripts);
      assert Available(outs, scripts) == head + Available(outs[1..], scripts);
      AvailableSnoc(outs[1..], o, scripts);
      hide Available;
      assert head + (Available(outs[1..], scripts) + Available([o], scripts))
          == (head + Available(outs[1..], scripts)) + Available([o], scripts);
    }
  }

  lemma AvailableOne(o: Output, scripts: Scripts)
    ensures Available([o], scripts)
         == if o.address in scripts then [TxOut(Unsigned(o.amount), scripts[o.address])] else []
  {
    assert [o][1..] == [];
  }

  /** `answered` is false when the service cannot be reached or its answer cannot be scanned. */
  method LoadOutputs(answered: bool, outs: seq<Output>, scripts: Scripts) returns (available: seq<TxOut>)
    ensures available == if answered then Available(outs, scripts) else []
  {
    available := [];
    if !answered {
      return;
    }
    for k := 0 to |outs|
      invariant available == Available(outs[..k], scripts)
    {
      assert outs[..k + 1] == outs[..k] + [outs[k]];
      AvailableSnoc(outs[..k], outs[k], scripts);
      AvailableOne(outs[k], scripts);
      if outs[k].address in scripts {
        available := available + [TxOut(Unsigned(outs[k].amount), scripts[outs[k].address])];
      }
    }
    assert outs[..|outs|] == outs;
  }

  /** The script of a decodable output and its amount, two's complement where it is negative. */
  predicate PaysOne(p: TxOut, o: Output, scripts: Scripts) {
    && o.address in scripts && p.script == scripts[o.address]
    && p.value == if o.amount >= 0 then o.amount else o.amount + 0x1_0000_0000_0000_0000
  }

  /** `from` lists the decodable outputs in order, and each payout pays its own. */
  ghost predicate Traces(payouts: seq<TxOut>, outs: seq<Output>, scripts: Scripts, from: seq<nat>) {
    && |from| == |payouts|
    && (forall x, y :: 0 <= x < y < |from| ==> from[x] < from[y])
    && (forall i :: i in from <==> 0 <= i < |outs| && outs[i].address in scripts)
    && (forall x :: 0 <= x < |from| ==> from[x] < |outs| && PaysOne(payouts[x], outs[from[x]], scripts))
  }

  /** Who is paid what: the payouts are the decodable outputs and no others, in the order answered, each with its own
      script and the amount answered. */
  lemma {:induction false} AvailableAre(outs: seq<Output>, scripts: Scripts) returns (from: seq<nat>)
    requires forall i :: 0 <= i < |outs| ==> IsInt64(outs[i].amount)
    ensures Traces(Available(outs, scripts), outs, scripts, from)
  {
    if outs == [] {
      from := [];
    } else {
      var n := |outs| - 1;
      var o := outs[n];
      assert outs == outs[..n] + [o];
      assert IsInt64(o.amount);
      forall i | 0 <= i < n ensures IsInt64(outs[..n][i].amount) { assert outs[..n][i] == outs[i]; }
      hide Available, Traces, IsInt64, PaysOne;
      from := AvailableAre(outs[..n], scripts);
      AvailableSnoc(outs[..n], o, scripts);
      AvailableLast(o, scripts);
      var payouts := Available(outs[..n], scripts);
      if o.address in scripts {
        TracesOne(payouts, Available([o], scripts)[0], outs[..n], o, scripts, from);
        assert Available([o], scripts) == [Available([o], scripts)[0]];
        from := from + [n];
      } else {
        assert payouts + [] == payouts;
        TracesNone(payouts, outs[..n], o, scripts, from);
      }
    }
  }

  lemma TracesOne(payouts: seq<TxOut>, p: TxOut, outs: seq<Output>, o: Output, scripts: Scripts, from: seq<nat>)
    requires Traces(payouts, outs, scripts, from) && PaysOne(p, o, scripts)
    ensures Traces(payouts + [p], outs + [o], scripts, from + [|outs|])
  {
    assert o.address in scripts;
    hide PaysOne;
    assert forall x :: 0 <= x < |from| ==> from[x] in from;
  }

  lemma TracesNone(payouts: seq<TxOut>, outs: seq<Output>, o: Output, scripts: Scripts, from: seq<nat>)
    requires Traces(payouts, outs, scripts, from) && o.address !in scripts
    ensures Traces(payouts, outs + [o], scripts, from)
  {
    hide PaysOne;
  }

  lemma AvailableLast(o: Output, scripts: Scripts)
    requires IsInt64(o.amount)
    ensures o.address !in scripts ==> Available([o], scripts) == []
    ensures o.address in scripts ==>
              |Available([o], scripts)| == 1 && PaysOne(Available([o], scripts)[0], o, scripts)
  {
    AvailableOne(o, scripts);
    TwosComplement(o.amount);
    hide Available, Unsigned;
  }

  lemma TwosComplement(a: int)
    requires IsInt64(a)
    ensures Unsigned(a) == if a >= 0 then a else a + 0x1_0000_0000_0000_0000
  {
  }

  /** A payout of the job is an output of the answer: its amount, to its script. */
  predicate Answered(o: TxOut, outs: seq<Output>, scripts: Scripts) {
    exists i :: 0 <= i < |outs| && outs[i].address in scripts
                && o.value == outs[i].amount && o.script == scripts[outs[i].address]
  }

  lemma AvailableAnswered(outs: seq<Output>, scripts: Scripts)
    requires forall i :: 0 <= i < |outs| ==> 0 <= outs[i].amount < U64 / 2
    ensures forall o :: o in Available(outs, scripts) ==> Answered(o, outs, scripts)
  {
    var from := AvailableAre(outs, scripts);
    hide Available;
    forall o | o in Available(outs, scripts) ensures Answered(o, outs, scripts) {
      var x :| 0 <= x < |Available(outs, scripts)| && Available(outs, scripts)[x] == o;
      assert outs[from[x]].amount >= 0;
    }
  }

  lemma {:induction false} AvailableFine(outs: seq<Output>, scripts: Scripts)
    requires WfScripts(scripts)
    requires forall i :: 0 <= i < |outs| ==> 0 <= outs[i].amount < U64 / 2
    ensures forall o :: o in Available(outs, scripts) ==> WfPayout(o) && o.value < U64 / 2
  {
    if outs != [] {
      AvailableFine(outs[1..], scripts);
    }
  }

  /** Whatever the service answers, as long as no amount is negative: every output of the shared coinbase of every type
      is free, or pays an answered amount to the answered script, or pays the pool what those leave; and together they
      are exactly the coinbase value, so what undecodable and unselected payees miss goes to the pool. */
  lemma SharedConserves(t: nat, j: Job, outs: seq<Output>, scripts: Scripts, input: seq<byte>, tpl: Template,
                        extranonce: seq<byte>)
    requires WfJob(j) && j.value < U64 / 2 && WfScripts(scripts) && j.outs == Available(outs, scripts)
    requires forall i :: 0 <= i < |outs| ==> 0 <= outs[i].amount < U64 / 2
    ensures var all, ks := AllOuts(t, j, input, tpl, false, extranonce), Selected(j, Room(t, j, input, tpl));
            && Total(all) == j.value
            && (forall x :: 0 <= x < |ks| ==> j.outs[ks[x]] in all && Answered(j.outs[ks[x]], outs, scripts))
            && (forall o :: o in all ==>
                  || o.value == 0
                  || (exists x :: 0 <= x < |ks| && j.outs[ks[x]] == o)
                  || (o.script == j.pool && o.value + Paid(j.outs, ks) == j.value))
  {
    hide Total, WfJob, Available, Answered;
    AvailableFine(outs, scripts);
    AvailableAnswered(outs, scripts);
    ConservationOfPayouts(t, j, input, tpl, extranonce);
    NoWrap(j, 0, Room(t, j, input, tpl), 0) by { assert WfJob(j); }
    OutputsAre(t, j, input, tpl, extranonce);
  }

  /** The outputs of a type, one by one, when nothing wraps. */
  lemma OutputsAre(t: nat, j: Job, input: seq<byte>, tpl: Template, extranonce: seq<byte>)
    requires WfJob(j) && Paid(j.outs, Selected(j, Room(t, j, input, tpl))) <= j.value
    ensures var all, ks := AllOuts(t, j, input, tpl, false, extranonce), Selected(j, Room(t, j, input, tpl));
            && (forall x :: 0 <= x < |ks| ==> j.outs[ks[x]] in all)
            && (forall o :: o in all ==>
                  || o.value == 0
                  || (exists x :: 0 <= x < |ks| && j.outs[ks[x]] == o)
                  || (o.script == j.pool && o.value + Paid(j.outs, ks) == j.value))
  {
    hide Picks, Paid, Room, Leading, Start, Selected, OutsOf, ReturnOut, TailOuts, WfJob;
    var all, ks := AllOuts(t, j, input, tpl, false, extranonce), Selected(j, Room(t, j, input, tpl));
    var n := Leading(j, Room(t, j, input, tpl), t == 2, |Start(t, j, input)|);
    var ret := ReturnOut(j.enprefix, extranonce);
    var a, b, tail := OutsOf(j.outs, ks[..n]), OutsOf(j.outs, ks[n..]), TailOuts(j, Paid(j.outs, ks) % U64);
    assert OutsOf(j.outs, ks) == a + b;
    assert all == (if InScript(t, input) then a + b + tail else a + [ret] + (b + tail));
    hide AllOuts;
    FreeReturn(j.enprefix, extranonce);
    PoolGetsRest(j, Paid(j.outs, ks));
    Sits(j.outs, ks, n);
    Members(a, ret, b, tail);
  }

  lemma Members(a: seq<TxOut>, ret: TxOut, b: seq<TxOut>, tail: seq<TxOut>)
    ensures forall o :: o in a + [ret] + (b + tail) <==> o in a || o == ret || o in b || o in tail
    ensures forall o :: o in a + b + tail <==> o in a || o in b || o in tail
  {
  }

  lemma FreeReturn(e: nat, extranonce: seq<byte>)
    ensures ReturnOut(e, extranonce).value == 0
  {
  }

  lemma PoolGetsRest(j: Job, paid: nat)
    requires WfJob(j) && paid <= j.value
    ensures forall o :: o in TailOuts(j, paid % U64) ==>
              o.value == 0 || (o.script == j.pool && o.value + paid == j.value)
  {
  }

  /** The selected payouts are those before and those from `n` on. */
  lemma Sits(outs: seq<TxOut>, ks: seq<nat>, n: nat)
    requires Indices(ks, |outs|) && n <= |ks|
    ensures forall x :: 0 <= x < |ks| ==>
              ks[x] < |outs| && (outs[ks[x]] in OutsOf(outs, ks[..n]) || outs[ks[x]] in OutsOf(outs, ks[n..]))
    ensures forall o :: o in OutsOf(outs, ks[..n]) || o in OutsOf(outs, ks[n..]) ==>
              exists x :: 0 <= x < |ks| && ks[x] < |outs| && outs[ks[x]] == o
  {
    var a, b := OutsOf(outs, ks[..n]), OutsOf(outs, ks[n..]);
    forall x | 0 <= x < |ks| ensures ks[x] < |outs| && (outs[ks[x]] in a || outs[ks[x]] in b) {
      if x < n {
        assert a[x] == outs[ks[x]];
      } else {
        assert b[x - n] == outs[ks[x]];
      }
    }
    forall o | o in a || o in b ensures exists x :: 0 <= x < |ks| && ks[x] < |outs| && outs[ks[x]] == o {
      if o in a {
        var x :| 0 <= x < |a| && a[x] == o;
        assert outs[ks[x]] == o;
      } else {
        var x :| 0 <= x < |b| && b[x] == o;
        assert ks[n..][x] == ks[n + x];
      }
    }
  }

  /** The service's fallback for a miner, one output of -1. */
  function Fallback(miner: string): seq<Output> { [Output(miner, -1)] }

  /** The fallback is meant to give the miner the full reward. Read as unsigned it exceeds every coinbase value, so no
      shared coinbase selects it, and the personal path skips it: the pool is paid everything. */
  lemma FallbackPaysPool(t: nat, j: Job, miner: string, scripts: Scripts, shared: seq<byte>, input: seq<byte>,
                         tpl: Template, extranonce: seq<byte>)
    requires WfJob(j) && 0 < j.value < U64 - 1 && j.outs == Available(Fallback(miner), scripts)
    ensures PersonalFor(j, Fallback(miner), scripts, shared) == None
    ensures AllOuts(t, j, input, tpl, false, extranonce)
         == (if InScript(t, input) then [] else [ReturnOut(j.enprefix, extranonce)])
            + [TxOut(j.value, j.pool), TxOut(0, j.commitment), SIGNET_OUT]
  {
    hide ReturnOut, PersonalFor, Room, Start, Leading, WfJob, Selected, Paid, OutsOf, TailOuts, AllOuts;
    AvailableOne(Fallback(miner)[0], scripts);
    FallbackSkipped(j, miner, scripts, shared);
    NothingSelected(j, Room(t, j, input, tpl));
    NothingPaid(t, j, input, tpl, extranonce);
    AllToPool(j);
  }

  lemma NothingPaid(t: nat, j: Job, input: seq<byte>, tpl: Template, extranonce: seq<byte>)
    requires WfJob(j) && Selected(j, Room(t, j, input, tpl)) == []
    ensures AllOuts(t, j, input, tpl, false, extranonce)
         == (if InScript(t, input) then [] else [ReturnOut(j.enprefix, extranonce)]) + TailOuts(j, 0)
  {
    hide ReturnOut, Room, Start, WfJob, Selected, TailOuts, Total;
    NothingEmitted(j.outs);
    var none := OutsOf(j.outs, []);
    assert none == [];
    hide OutsOf, Leading;
    assert Leading(j, Room(t, j, input, tpl), t == 2, |Start(t, j, input)|) == 0;
    var ret, tail := [ReturnOut(j.enprefix, extranonce)], TailOuts(j, 0);
    assert [] + tail == tail && [] + ret == ret;
  }

  lemma FallbackSkipped(j: Job, miner: string, scripts: Scripts, shared: seq<byte>)
    ensures PersonalFor(j, Fallback(miner), scripts, shared) == None
  {
    PayableOne(Fallback(miner)[0], scripts);
  }

  lemma AllToPool(j: Job)
    requires j.value > 0
    ensures TailOuts(j, 0) == [TxOut(j.value, j.pool), TxOut(0, j.commitment), SIGNET_OUT]
  {
  }

  lemma NothingSelected(j: Job, room: int)
    requires |j.outs| == 0 || (|j.outs| == 1 && j.outs[0].value == U64 - 1)
    requires j.value < U64 - 1
    ensures Selected(j, room) == []
  {
    if |j.outs| == 1 {
      PickStep(j.outs, 0, room, 0, j.value);
    }
  }
}
