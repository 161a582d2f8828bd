/** Assembling the coinbase transaction in two halves around the 12-byte extranonce (datum_coinbaser.c). */
module Coinbase {
  import opened Bytes
  import opened Transaction

  // ---- fixed parts ----

  const VERSION: seq<byte> := [0x01, 0x00, 0x00, 0x00]
  const PREVOUT: seq<byte> := Le(0, 32) + [0xff, 0xff, 0xff, 0xff]
  const SEQUENCE: seq<byte> := [0xff, 0xff, 0xff, 0xff]
  const LOCKTIME: seq<byte> := [0x00, 0x00, 0x00, 0x00]
  const CB_START: seq<byte> := VERSION + ([0x01] + PREVOUT)

  const SIGNET_OUT := TxOut(0, [0x6a, 0x04, 0xec, 0xc7, 0xda, 0xa2])
  const DUMMY_OUT := TxOut(0, [0x6a, 0x01, 0x00])

  /** What one stratum job contributes: the decodable payouts in order, the value to distribute, the pool's script,
      the witness commitment script, and the gateway's two-byte extranonce prefix. */
  datatype Job = Job(outs: seq<TxOut>, value: nat, pool: seq<byte>, commitment: seq<byte>, enprefix: nat)

  predicate WfPayout(o: TxOut) { 1 <= |o.script| <= 64 && o.value < U64 }

  predicate WfJob(j: Job) {
    && j.value < U64 && 1 <= |j.pool| <= 64 && |j.commitment| <= 47 && j.enprefix < U16
    && forall o :: o in j.outs ==> WfPayout(o)
  }

  // ---- selection: which payouts fit ----

  function Cost(o: TxOut): nat { |o.script| + 9 }

  /** Unsigned 64-bit addition. */
  function Add64(a: nat, b: nat): nat { (a + b) % U64 }

  predicate Fits(o: TxOut, room: int, paid: nat, value: nat) {
    Cost(o) <= room && Add64(paid, o.value) <= value
  }

  /** Too little room for a further output, or nothing left to pay. */
  predicate Full(room: int, paid: nat, value: nat) { room < 30 || paid >= value }

  /** Indices of the payouts taken greedily from position `k` on. */
  function Picks(outs: seq<TxOut>, k: nat, room: int, paid: nat, value: nat): (ks: seq<nat>)
    ensures forall i :: 0 <= i < |ks| ==> k <= ks[i] < |outs|
    ensures forall i, j :: 0 <= i < j < |ks| ==> ks[i] < ks[j]
    decreases |outs| - k
  {
    if k >= |outs| then []
    else if !Fits(outs[k], room, paid, value) then Picks(outs, k + 1, room, paid, value)
    else
      var room', paid' := room - Cost(outs[k]), Add64(paid, outs[k].value);
      [k] + (if Full(room', paid', value) then [] else Picks(outs, k + 1, room', paid', value))
  }

  predicate Indices(ks: seq<nat>, n: nat) { forall i :: 0 <= i < |ks| ==> ks[i] < n }

  function OutsOf(outs: seq<TxOut>, ks: seq<nat>): (r: seq<TxOut>)
    requires Indices(ks, |outs|)
    ensures |r| == |ks|
    ensures forall i :: 0 <= i < |ks| ==> r[i] == outs[ks[i]]
  {
    seq(|ks|, i requires 0 <= i < |ks| && ks[i] < |outs| => outs[ks[i]])
  }

  /** Number of leading outputs that fit `room` together. */
  function LeadFit(outs: seq<TxOut>, room: int): (n: nat)
    ensures n <= |outs|
  {
    if outs == [] || Cost(outs[0]) > room then 0 else 1 + LeadFit(outs[1..], room - Cost(outs[0]))
  }

  /** Number of leading indices below `c`. */
  function LeadBelow(ks: seq<nat>, c: nat): (n: nat)
    ensures n <= |ks|
    ensures forall i :: 0 <= i < n ==> ks[i] < c
  {
    if ks == [] || ks[0] >= c then 0 else 1 + LeadBelow(ks[1..], c)
  }

  function Total(outs: seq<TxOut>): nat {
    if outs == [] then 0 else outs[0].value + Total(outs[1..])
  }

  lemma {:induction false} TotalConcat(a: seq<TxOut>, b: seq<TxOut>)
    ensures Total(a + b) == Total(a) + Total(b)
  {
    if a == [] {
      assert a + b == b;
    } else {
      assert (a + b)[1..] == a[1..] + b;
      TotalConcat(a[1..], b);
    }
  }

  lemma EncOutsSnoc(outs: seq<TxOut>, o: TxOut)
    ensures EncOuts(outs + [o]) == EncOuts(outs) + EncOut(o)
  {
    EncListConcat(outs, [o], EncOut);
    assert EncList([o][1..], EncOut) == [];
  }

  lemma OutsOfSnoc(outs: seq<TxOut>, ks: seq<nat>, k: nat)
    requires k < |outs| && Indices(ks, |outs|)
    ensures OutsOf(outs, ks + [k]) == OutsOf(outs, ks) + [outs[k]]
  {
  }

  /** One step of the greedy selection. */
  lemma PickStep(outs: seq<TxOut>, k: nat, room: int, paid: nat, value: nat)
    requires k < |outs|
    ensures var ks := Picks(outs, k, room, paid, value);
            if Fits(outs[k], room, paid, value) then
              var room', paid' := room - Cost(outs[k]), Add64(paid, outs[k].value);
              && ks != [] && ks[0] == k
              && ks[1..] == if Full(room', paid', value) then [] else Picks(outs, k + 1, room', paid', value)
            else ks == Picks(outs, k + 1, room, paid, value)
  {
  }

  lemma LeadFitStep(outs: seq<TxOut>, ks: seq<nat>, room: int)
    requires ks != [] && Indices(ks, |outs|)
    ensures LeadFit(OutsOf(outs, ks), room)
         == if Cost(outs[ks[0]]) > room then 0 else 1 + LeadFit(OutsOf(outs, ks[1..]), room - Cost(outs[ks[0]]))
  {
    assert OutsOf(outs, ks)[1..] == OutsOf(outs, ks[1..]);
  }

  /** First pass: how many payouts will be emitted, and how many of the first of them fit into coinb1. */
  method CountOutputs(j: Job, room: int, special: bool, firstRoom: int) returns (m: nat, c1cnt: nat)
    ensures var ks := Picks(j.outs, 0, room, 0, j.value);
            && m == |ks|
            && c1cnt == if special then LeadFit(OutsOf(j.outs, ks), firstRoom) else 0
  {
    hide Picks, OutsOf, LeadFit, Add64;
    var i, i2 := room, firstRoom;
    var mval: nat, k: nat := 0, 0;
    var c1full := false;
    m, c1cnt := 0, 0;
    ghost var all := Picks(j.outs, 0, room, 0, j.value);
    ghost var rest := all;
    while k < |j.outs|
      invariant k <= |j.outs|
      invariant rest == Picks(j.outs, k, i, mval, j.value) && m + |rest| == |all|
      invariant c1cnt + (if special && !c1full then LeadFit(OutsOf(j.outs, rest), i2) else 0)
             == (if special then LeadFit(OutsOf(j.outs, all), firstRoom) else 0)
    {
      PickStep(j.outs, k, i, mval, j.value);
      if |j.outs[k].script| + 9 <= i && Add64(mval, j.outs[k].value) <= j.value {
        LeadFitStep(j.outs, rest, i2);
        if special && !c1full && |j.outs[k].script| + 9 <= i2 {
          i2 := i2 - (|j.outs[k].script| + 9);
          c1cnt := c1cnt + 1;
        } else {
          c1full := true;
        }
        i := i - (|j.outs[k].script| + 9);
        m := m + 1;
        mval := Add64(mval, j.outs[k].value);
        rest := rest[1..];
        if i < 30 {
          assert Full(i, mval, j.value);
          break;
        }
        if mval >= j.value {
          assert Full(i, mval, j.value);
          break;
        }
      }
      k := k + 1;
    }
    NoPicks(j, k, i, mval);
    LeadFitNone(i2);
  }

  lemma NoPicks(j: Job, k: nat, room: int, paid: nat)
    ensures k >= |j.outs| ==> Picks(j.outs, k, room, paid, j.value) == []
  {
  }

  lemma LeadFitNone(room: int)
    ensures LeadFit(OutsOf([], []), room) == 0
  {
  }

  // ---- the outputs around the payouts ----

  /** The enprefix as the four hex digits of a 16-bit number: most significant byte first. */
  function Prefix(enprefix: nat): (s: seq<byte>)
    ensures |s| == 2
  {
    [enprefix / 256 % 256, enprefix % 256]
  }

  /** The extranonce output up to where the 12 extranonce bytes go. */
  function ReturnHead(enprefix: nat): (s: seq<byte>)
    ensures |s| == 13
  {
    Le(0, 8) + [0x10, 0x6a, 0x0e] + Prefix(enprefix)
  }

  function ReturnOut(enprefix: nat, extranonce: seq<byte>): TxOut {
    TxOut(0, [0x6a, 0x0e] + Prefix(enprefix) + extranonce)
  }

  /** The pool takes what is left; when nothing is, a prunable output keeps the count right. */
  function PoolOut(j: Job, paid: nat): TxOut {
    if j.value > paid then TxOut(j.value - paid, j.pool) else DUMMY_OUT
  }

  function TailOuts(j: Job, paid: nat): seq<TxOut> {
    [PoolOut(j, paid), TxOut(0, j.commitment), SIGNET_OUT]
  }

  function Tail(j: Job, paid: nat): seq<byte> { EncOuts(TailOuts(j, paid)) + LOCKTIME }

  lemma TailParts(j: Job, paid: nat)
    ensures Tail(j, paid)
         == EncOut(PoolOut(j, paid)) + EncOut(TxOut(0, j.commitment)) + EncOut(SIGNET_OUT) + LOCKTIME
  {
    hide EncOut;
    var outs := TailOuts(j, paid);
    EncOutsSnoc(outs[..2], outs[2]);
    EncOutsSnoc(outs[..1], outs[1]);
    EncOutsSnoc([], outs[0]);
    assert outs[..2] + [outs[2]] == outs && outs[..1] + [outs[1]] == outs[..2] && [] + [outs[0]] == outs[..1];
  }

  lemma EncSizes(j: Job, paid: nat)
    requires WfJob(j)
    ensures |EncOut(PoolOut(j, paid))| == |PoolOut(j, paid).script| + 9 <= 73
    ensures |EncOut(TxOut(0, j.commitment))| == |j.commitment| + 9 <= 56
    ensures |EncOut(SIGNET_OUT)| == 15
  {
  }

  // ---- second pass ----

  /** Bytes and value of a selection. */
  function Emitted(outs: seq<TxOut>, ks: seq<nat>): seq<byte>
    requires Indices(ks, |outs|)
  {
    EncOuts(OutsOf(outs, ks))
  }

  function Paid(outs: seq<TxOut>, ks: seq<nat>): nat
    requires Indices(ks, |outs|)
  {
    Total(OutsOf(outs, ks))
  }

  lemma EmittedSnoc(outs: seq<TxOut>, ks: seq<nat>, k: nat)
    requires k < |outs| && Indices(ks, |outs|) && WfPayout(outs[k])
    ensures Indices(ks + [k], |outs|)
    ensures Emitted(outs, ks + [k]) == Emitted(outs, ks) + EncOut(outs[k])
    ensures |EncOut(outs[k])| == Cost(outs[k])
    ensures Paid(outs, ks + [k]) == Paid(outs, ks) + outs[k].value
    ensures Add64(Paid(outs, ks) % U64, outs[k].value) == Paid(outs, ks + [k]) % U64
  {
    hide EncOut, EncOuts, Total, OutsOf, WfPayout, Cost;
    OutsOfSnoc(outs, ks, k);
    EncOutsSnoc(OutsOf(outs, ks), outs[k]);
    TotalConcat(OutsOf(outs, ks), [outs[k]]);
    TotalOfOne(outs[k]);
    CostIsSize(outs[k]);
    hide Paid;
    WrapsOnce(Paid(outs, ks), outs[k].value);
  }

  lemma TotalOfOne(o: TxOut)
    ensures Total([o]) == o.value
  {
    assert Total([o]) == o.value + Total([o][1..]);
  }

  lemma WrapsOnce(a: nat, b: nat)
    ensures Add64(a % U64, b) == (a + b) % U64
  {
  }

  lemma CostIsSize(o: TxOut)
    requires WfPayout(o)
    ensures |EncOut(o)| == Cost(o)
  {
  }

  lemma {:induction false} LeadBelowSplit(a: seq<nat>, b: seq<nat>, c: nat)
    requires (forall i :: 0 <= i < |a| ==> a[i] < c) && (forall i :: 0 <= i < |b| ==> b[i] >= c)
    ensures LeadBelow(a + b, c) == |a|
  {
    if a == [] {
      assert a + b == b;
    } else {
      assert (a + b)[1..] == a[1..] + b;
      LeadBelowSplit(a[1..], b, c);
    }
  }

  /** What coinb1 has received. */
  function First(j: Job, in1: seq<nat>, done: bool): seq<byte>
    requires Indices(in1, |j.outs|)
  {
    Emitted(j.outs, in1) + (if done then ReturnHead(j.enprefix) else [])
  }

  /** How the payouts emitted before index `k` are spread over the halves, and the value they took. */
  ghost predicate Spread(j: Job, special: bool, c1cnt: nat, k: nat, mval: nat, done: bool,
                         in1: seq<nat>, in2: seq<nat>, ks: seq<nat>)
    requires WfJob(j)
  {
    && Indices(in1, |j.outs|) && Indices(in2, |j.outs|) && Indices(ks, |j.outs|) && ks == in1 + in2
    && (special || in1 == []) && (forall x :: 0 <= x < |in1| ==> in1[x] < c1cnt)
    && (special ==> forall x :: 0 <= x < |in2| ==> in2[x] >= c1cnt)
    && (special && (in2 != [] || done) ==> k > c1cnt)
    && (done ==> special)
    && mval == Paid(j.outs, ks) % U64 && mval <= j.value
  }

  lemma SpreadStart(j: Job, special: bool, c1cnt: nat)
    requires WfJob(j)
    ensures Spread(j, special, c1cnt, 0, 0, false, [], [], [])
    ensures First(j, [], false) == [] && Emitted(j.outs, []) == []
  {
  }

  function ToFirst(j: Job, k: nat, special: bool, c1cnt: nat): seq<byte>
    requires k < |j.outs|
  {
    if special && k < c1cnt then EncOut(j.outs[k])
    else if special && k == c1cnt then ReturnHead(j.enprefix)
    else []
  }

  function ToSecond(j: Job, k: nat, special: bool, c1cnt: nat): seq<byte>
    requires k < |j.outs|
  {
    if special && k < c1cnt then [] else EncOut(j.outs[k])
  }

  lemma SpreadStep(j: Job, special: bool, c1cnt: nat, k: nat, i: int, mval: nat, done: bool,
                   in1: seq<nat>, in2: seq<nat>, ks: seq<nat>) returns (in1': seq<nat>, in2': seq<nat>)
    requires WfJob(j) && k < |j.outs| && Fits(j.outs[k], i, mval, j.value)
    requires Spread(j, special, c1cnt, k, mval, done, in1, in2, ks)
    ensures Indices(in1', |j.outs|) && Indices(in2', |j.outs|)
    ensures var done' := done || (special && k == c1cnt);
            && Spread(j, special, c1cnt, k + 1, Add64(mval, j.outs[k].value), done', in1', in2', ks + [k])
            && First(j, in1', done') == First(j, in1, done) + ToFirst(j, k, special, c1cnt)
            && Emitted(j.outs, in2') == Emitted(j.outs, in2) + ToSecond(j, k, special, c1cnt)
  {
    hide Emitted, Paid, EncOut, ReturnHead, Add64, Fits;
    SpreadSum(j, k, i, mval, ks);
    if special && k < c1cnt {
      in1', in2' := in1 + [k], in2;
      EmittedSnoc(j.outs, in1, k);
      assert ks + [k] == in1' + in2';
    } else {
      in1', in2' := in1, in2 + [k];
      EmittedSnoc(j.outs, in2, k);
      assert ks + [k] == in1' + in2';
    }
  }

  lemma SpreadSum(j: Job, k: nat, i: int, mval: nat, ks: seq<nat>)
    requires WfJob(j) && k < |j.outs| && Fits(j.outs[k], i, mval, j.value)
    requires Indices(ks, |j.outs|) && mval == Paid(j.outs, ks) % U64
    ensures Indices(ks + [k], |j.outs|) && WfPayout(j.outs[k])
    ensures Add64(mval, j.outs[k].value) == Paid(j.outs, ks + [k]) % U64 <= j.value
  {
    assert WfPayout(j.outs[k]);
    EmittedSnoc(j.outs, ks, k);
  }

  lemma SpreadSkip(j: Job, special: bool, c1cnt: nat, k: nat, mval: nat, done: bool,
                   in1: seq<nat>, in2: seq<nat>, ks: seq<nat>)
    requires WfJob(j) && Spread(j, special, c1cnt, k, mval, done, in1, in2, ks)
    ensures Spread(j, special, c1cnt, k + 1, mval, done, in1, in2, ks)
  {
  }

  /** The two halves of one coinbase type as they grow: the gateway's character arrays and running indices. */
  class Halves {
    var coinb1: seq<byte>
    var coinb2: seq<byte>

    constructor ()
      ensures coinb1 == [] && coinb2 == []
    {
      coinb1, coinb2 := [], [];
    }

    method PutFirst(o: TxOut)
      modifies this
      ensures coinb1 == old(coinb1) + EncOut(o) && coinb2 == old(coinb2)
    {
      hide Le, Varint;
      coinb1 := coinb1 + Le(o.value, 8);
      coinb1 := coinb1 + Varint(|o.script|);
      coinb1 := coinb1 + o.script;
      assert coinb1 == old(coinb1) + (Le(o.value, 8) + (Varint(|o.script|) + o.script));
    }

    method PutSecond(o: TxOut)
      modifies this
      ensures coinb2 == old(coinb2) + EncOut(o) && coinb1 == old(coinb1)
    {
      hide Le, Varint;
      coinb2 := coinb2 + Le(o.value, 8);
      coinb2 := coinb2 + Varint(|o.script|);
      coinb2 := coinb2 + o.script;
      assert coinb2 == old(coinb2) + (Le(o.value, 8) + (Varint(|o.script|) + o.script));
    }

    /** Pool output or dummy, witness commitment, signet commitment, lock time. */
    method PutTail(j: Job, paid: nat)
      modifies this
      ensures coinb2 == old(coinb2) + Tail(j, paid) && coinb1 == old(coinb1)
    {
      hide EncOut;
      if j.value > paid {
        PutSecond(TxOut(j.value - paid, j.pool));
      } else {
        PutSecond(DUMMY_OUT);
      }
      PutSecond(TxOut(0, j.commitment));
      PutSecond(SIGNET_OUT);
      coinb2 := coinb2 + LOCKTIME;
      TailParts(j, paid);
    }

    /** Puts the payout with raw index `k` where the layout wants it; true when it closed coinb1 first. */
    method EmitOne(j: Job, k: nat, special: bool, c1cnt: nat) returns (closes: bool)
      requires WfJob(j) && k < |j.outs|
      modifies this
      ensures closes == (special && k == c1cnt)
      ensures coinb1 == old(coinb1) + ToFirst(j, k, special, c1cnt)
      ensures coinb2 == old(coinb2) + ToSecond(j, k, special, c1cnt)
    {
      hide EncOut, ReturnHead;
      closes := false;
      if special && k < c1cnt {
        PutFirst(j.outs[k]);
      } else {
        if special && k == c1cnt {
          coinb1 := coinb1 + ReturnHead(j.enprefix);
          closes := true;
        }
        PutSecond(j.outs[k]);
      }
    }

    /** Emits a payout that fits and adds it to the total; `pre1` and `pre2` are what the halves held before the first
        payout. */
    method EmitFitting(j: Job, k: nat, special: bool, c1cnt: nat, i: int, paid: nat, closed: bool,
                       ghost pre1: seq<byte>, ghost pre2: seq<byte>,
                       ghost in1: seq<nat>, ghost in2: seq<nat>, ghost ks: seq<nat>)
      returns (mval: nat, done: bool, ghost in1': seq<nat>, ghost in2': seq<nat>)
      requires WfJob(j) && k < |j.outs| && Fits(j.outs[k], i, paid, j.value)
      requires Spread(j, special, c1cnt, k, paid, closed, in1, in2, ks)
      requires Indices(in1, |j.outs|) && Indices(in2, |j.outs|)
      requires coinb1 == pre1 + First(j, in1, closed) && coinb2 == pre2 + Emitted(j.outs, in2)
      modifies this
      ensures mval == Add64(paid, j.outs[k].value)
      ensures Spread(j, special, c1cnt, k + 1, mval, done, in1', in2', ks + [k])
      ensures Indices(in1', |j.outs|) && Indices(in2', |j.outs|)
      ensures coinb1 == pre1 + First(j, in1', done) && coinb2 == pre2 + Emitted(j.outs, in2')
    {
      hide Fits, Emitted, ToFirst, ToSecond, Add64, Spread, First, WfJob, Indices;
      in1', in2' := SpreadStep(j, special, c1cnt, k, i, paid, closed, in1, in2, ks);
      mval := Add64(paid, j.outs[k].value);
      var closes := EmitOne(j, k, special, c1cnt);
      done := closed || closes;
    }

    /** Emits the payouts, those with a raw index below `c1cnt` to coinb1 in the special layout, the others to coinb2;
        in the special layout the extranonce output closes coinb1 when the payout with index `c1cnt` is reached. */
    method EmitOutputs(j: Job, room: int, special: bool, c1cnt: nat, count: nat) returns (mval: nat, done: bool)
      requires WfJob(j) && count > |Picks(j.outs, 0, room, 0, j.value)|
      modifies this
      ensures var ks := Picks(j.outs, 0, room, 0, j.value);
              var n := if special then LeadBelow(ks, c1cnt) else 0;
              && coinb1 == old(coinb1) + First(j, ks[..n], done)
              && coinb2 == old(coinb2) + Emitted(j.outs, ks[n..])
              && mval == Paid(j.outs, ks) % U64
              && mval <= j.value
              && (done ==> special)
    {
      hide Picks, Emitted, Paid, LeadBelow, ToFirst, ToSecond, Add64, Spread, First, WfJob, EncOut, ReturnHead, Indices;
      hide Selecting;
      var i, k, m := room, 0, count;
      mval, done := 0, false;
      ghost var all := Picks(j.outs, 0, room, 0, j.value);
      ghost var in1: seq<nat>, in2: seq<nat>, ks: seq<nat>, seen := [], [], [], 0;
      SpreadStart(j, special, c1cnt);
      SelectingStart(j, room);
      while k < |j.outs|
        invariant seen == k <= |j.outs| && m == count - |ks|
        invariant Selecting(j, all, ks, k, i, mval)
        invariant Indices(in1, |j.outs|) && Indices(in2, |j.outs|)
        invariant Spread(j, special, c1cnt, seen, mval, done, in1, in2, ks)
        invariant coinb1 == old(coinb1) + First(j, in1, done)
        invariant coinb2 == old(coinb2) + Emitted(j.outs, in2)
      {
        SelectingStep(j, all, ks, k, i, mval);
        seen := k + 1;
        if |j.outs[k].script| + 9 <= i && Add64(mval, j.outs[k].value) <= j.value {
          mval, done, in1, in2 :=
            EmitFitting(j, k, special, c1cnt, i, mval, done, old(coinb1), old(coinb2), in1, in2, ks);
          ks := ks + [k];
          i := i - (|j.outs[k].script| + 9);
          m := m - 1;
          if m == 0 {
            break;
          }
          if i < 30 {
            break;
          }
          if mval >= j.value {
            break;
          }
        } else {
          SpreadSkip(j, special, c1cnt, k, mval, done, in1, in2, ks);
        }
        k := k + 1;
      }
      assert all == ks by {
        if k >= |j.outs| {
          SelectingEnd(j, all, ks, k, i, mval);
        }
      }
      SpreadEnd(j, special, c1cnt, seen, mval, done, in1, in2, ks);
    }
  }

  /** Of the whole selection, the payouts before index `k` are taken and the rest are still to come. */
  ghost predicate Selecting(j: Job, all: seq<nat>, ks: seq<nat>, k: nat, room: int, paid: nat) {
    all == ks + Picks(j.outs, k, room, paid, j.value)
  }

  lemma SelectingStart(j: Job, room: int)
    ensures Selecting(j, Picks(j.outs, 0, room, 0, j.value), [], 0, room, 0)
  {
  }

  lemma SelectingStep(j: Job, all: seq<nat>, ks: seq<nat>, k: nat, room: int, paid: nat)
    requires k < |j.outs| && Selecting(j, all, ks, k, room, paid)
    ensures var o := j.outs[k];
            if Cost(o) <= room && Add64(paid, o.value) <= j.value then
              var room', paid' := room - Cost(o), Add64(paid, o.value);
              && |ks| < |all|
              && (Full(room', paid', j.value) ==> all == ks + [k])
              && (!Full(room', paid', j.value) ==> Selecting(j, all, ks + [k], k + 1, room', paid'))
            else Selecting(j, all, ks, k + 1, room, paid)
  {
    PickStep(j.outs, k, room, paid, j.value);
    var rest := Picks(j.outs, k, room, paid, j.value);
    if Fits(j.outs[k], room, paid, j.value) {
      assert rest == [k] + rest[1..];
      hide Picks;
      assert ks + ([k] + rest[1..]) == (ks + [k]) + rest[1..];
    }
  }

  lemma SelectingEnd(j: Job, all: seq<nat>, ks: seq<nat>, k: nat, room: int, paid: nat)
    requires k >= |j.outs| && Selecting(j, all, ks, k, room, paid)
    ensures all == ks
  {
  }

  lemma SpreadEnd(j: Job, special: bool, c1cnt: nat, k: nat, mval: nat, done: bool,
                  in1: seq<nat>, in2: seq<nat>, ks: seq<nat>)
    requires WfJob(j) && Spread(j, special, c1cnt, k, mval, done, in1, in2, ks)
    ensures var n := if special then LeadBelow(ks, c1cnt) else 0; in1 == ks[..n] && in2 == ks[n..]
    ensures mval == Paid(j.outs, ks) % U64 && mval <= j.value && (done ==> special)
  {
    hide Emitted, Paid;
    NothingEmitted(j.outs);
    if special {
      LeadBelowSplit(in1, in2, c1cnt);
    }
  }

  function Positive(n: int): nat { if n > 0 then n else 0 }

  /** The selection stays within the room it was given. */
  lemma {:induction false} PicksFit(j: Job, k: nat, room: int, paid: nat)
    requires WfJob(j)
    ensures |Emitted(j.outs, Picks(j.outs, k, room, paid, j.value))| <= Positive(room)
    decreases |j.outs| - k
  {
    hide Emitted, EncOut;
    NothingEmitted(j.outs);
    if k < |j.outs| {
      var o := j.outs[k];
      if Fits(o, room, paid, j.value) {
        var room', paid' := room - Cost(o), Add64(paid, o.value);
        var rest := if Full(room', paid', j.value) then [] else Picks(j.outs, k + 1, room', paid', j.value);
        EmittedCons(j.outs, k, rest);
        assert WfPayout(o);
        PicksFit(j, k + 1, room', paid');
      } else {
        PicksFit(j, k + 1, room, paid);
      }
    }
  }

  lemma EmittedCons(outs: seq<TxOut>, k: nat, ks: seq<nat>)
    requires k < |outs| && Indices(ks, |outs|) && WfPayout(outs[k])
    ensures Indices([k] + ks, |outs|)
    ensures |Emitted(outs, [k] + ks)| == Cost(outs[k]) + |Emitted(outs, ks)|
  {
    hide EncOut;
    CostIsSize(outs[k]);
    assert OutsOf(outs, [k] + ks)[1..] == OutsOf(outs, ks);
  }

  lemma NothingEmitted(outs: seq<TxOut>)
    ensures Emitted(outs, []) == [] && Paid(outs, []) == 0
  {
  }

  // ---- one coinbase type from the selection to the lock time ----

  function Selected(j: Job, room: int): (ks: seq<nat>)
    ensures Indices(ks, |j.outs|)
  {
    Picks(j.outs, 0, room, 0, j.value)
  }

  /** Bytes the special layout may still put into coinb1 before it reaches 150 (300 hex digits). */
  function FirstRoom(before: nat): nat { Positive(150 - before) }

  /** How many of the selected payouts the special layout puts into coinb1. */
  function Leading(j: Job, room: int, special: bool, before: nat): (n: nat)
    ensures n <= |Selected(j, room)|
  {
    var ks := Selected(j, room);
    if special then LeadBelow(ks, LeadFit(OutsOf(j.outs, ks), FirstRoom(before))) else 0
  }

  function Subtype1(j: Job, room: int, inScript: bool, special: bool, b1: seq<byte>): seq<byte> {
    var ks := Selected(j, room);
    if inScript && !special then b1
    else
      b1 + (Varint(|ks| + 4) + (Emitted(j.outs, ks[..Leading(j, room, special, |b1|)]) + ReturnHead(j.enprefix)))
  }

  function Subtype2(j: Job, room: int, inScript: bool, special: bool, b1: seq<byte>, b2: seq<byte>): seq<byte> {
    var ks := Selected(j, room);
    (if inScript && !special then SEQUENCE + Varint(|ks| + 3) else b2)
    + (Emitted(j.outs, ks[Leading(j, room, special, |b1|)..]) + Tail(j, Paid(j.outs, ks) % U64))
  }

  method GenerateSubtype(h: Halves, j: Job, room: int, inScript: bool, special: bool)
    requires WfJob(j)
    modifies h
    ensures h.coinb1 == Subtype1(j, room, inScript, special, old(h.coinb1))
    ensures h.coinb2 == Subtype2(j, room, inScript, special, old(h.coinb1), old(h.coinb2))
  {
    hide Picks, Emitted, Tail, ReturnHead, LeadBelow, LeadFit, Paid, WfJob, Varint, OutsOf, First, Indices;
    var i2, space, done := 0, inScript, false;
    if special {
      i2 := (300 - 2 * |h.coinb1|) / 2;
      if i2 < 0 {
        i2 := 0;
      }
      space := false;
    }
    var m, c1cnt := CountOutputs(j, room, special, i2);
    if space {
      m := m + 3;
      h.coinb2 := SEQUENCE;
      h.coinb2 := h.coinb2 + Varint(m);
    } else {
      m := m + 4;
      h.coinb1 := h.coinb1 + Varint(m);
      if !special {
        h.coinb1 := h.coinb1 + ReturnHead(j.enprefix);
        done := true;
      }
    }
    var mval, closed := h.EmitOutputs(j, room, special, c1cnt, m);
    done := done || closed;
    if !space && !done {
      h.coinb1 := h.coinb1 + ReturnHead(j.enprefix);
    }
    h.PutTail(j, mval);
    ghost var ks := Selected(j, room);
    ghost var n := Leading(j, room, special, |old(h.coinb1)|);
    FirstCases(j, ks[..n]);
    assert inScript && !special ==> n == 0 && ks[..n] == [] && h.coinb1 == old(h.coinb1);
  }

  lemma FirstCases(j: Job, ks: seq<nat>)
    requires Indices(ks, |j.outs|)
    ensures First(j, ks, false) == Emitted(j.outs, ks)
    ensures First(j, ks, true) == Emitted(j.outs, ks) + ReturnHead(j.enprefix)
    ensures Emitted(j.outs, []) == []
  {
  }
}
