/** Which block templates keep every block within their limits, whatever the payouts. */
module CoinbaseLimits {
  import opened Bytes
  import opened Transaction
  import opened Coinbase
  import opened CoinbaseTypes
  import opened CoinbaseTheorems
  import opened CoinbaseSize
  import opened Budget

  /** The assembled coinbase of type `t` keeps the block within both limits of the template. */
  ghost predicate Within(t: nat, j: Job, input: seq<byte>, tpl: Template, extranonce: seq<byte>, txns: nat)
    requires WfJob(j)
  {
    var (c1, c2) := Generated(t, j, input, tpl, false);
    var size := |c1 + extranonce + c2|;
    BlockSize(size, txns, tpl) <= tpl.sizeLimit && BlockWeight(size, txns, tpl) <= tpl.weightLimit
  }

  /** A type and the parts of a job that its payouts do not change; a block is never lighter than its size, and the
      weight limit is not above the size limit. */
  predicate Setting(t: nat, j: Job, input: seq<byte>, tpl: Template, extranonce: seq<byte>) {
    && t < TYPES && WfJob(j) && |input| <= 100 && |extranonce| == 12 && (t == 0 ==> Roomy(input))
    && |j.commitment| == 38 && |j.pool| >= 3
    && tpl.weight >= tpl.size && tpl.weightLimit <= tpl.sizeLimit
  }

  /** What the block can take beyond the type's maximum: the count, the commitment, and the bytes of the transaction
      count that the budget does not allow for. */
  function Margin(t: nat, txns: nat): int { (if t == 3 || t == 4 then 15 else 13) + |Varint(txns + 1)| }

  lemma ReservedSmall(t: nat, j: Job, input: seq<byte>)
    requires t < TYPES && WfJob(j) && |input| <= 100
    ensures 120 <= Reserved(t, j, input) <= 293 && MaxSize(t) >= 500
  {
  }

  lemma ExcessWithin(t: nat, j: Job, input: seq<byte>, tpl: Template, txns: nat)
    requires t < TYPES && WfJob(j) && |input| <= 100 && |j.commitment| == 38 && |j.pool| >= 3
    ensures Excess(t, j, input, tpl, txns) <= Margin(t, txns)
    ensures Reserved(t, j, input) + PayoutBytes(t, j, input, tpl) <= MaxSize(t)
  {
    SelectedSize(t, j, input, tpl);
    ReservedSmall(t, j, input);
    EachTakesTen(j, Selected(j, Room(t, j, input, tpl)));
    hide Selected, Emitted, Room, Le, Reserved;
  }

  lemma OverGrows(tpl: Template, a: int, b: int)
    requires a <= b
    ensures OverSize(tpl, a) ==> OverSize(tpl, b)
    ensures OverWeight(tpl, a) ==> OverWeight(tpl, b)
    ensures a >= 0 && tpl.weight >= tpl.size && tpl.weightLimit <= tpl.sizeLimit && OverSize(tpl, a)
            ==> OverWeight(tpl, a)
  {
  }

  /** A template that could take a coinbase of the type's maximum and the margin is safe for every payout list. */
  lemma RoomForAll(t: nat, j: Job, input: seq<byte>, tpl: Template, extranonce: seq<byte>, txns: nat)
    requires Setting(t, j, input, tpl, extranonce)
    requires !OverWeight(tpl, MaxSize(t) + Margin(t, txns))
    ensures Within(t, j, input, tpl, extranonce, txns)
  {
    ExcessWithin(t, j, input, tpl, txns);
    hide Generated, Varint, Excess, PayoutBytes, Reserved, BlockSize, BlockWeight, OverSize, OverWeight;
    BlockWithinIff(t, j, input, tpl, extranonce, txns);
    var used := Reserved(t, j, input) + PayoutBytes(t, j, input, tpl) + Excess(t, j, input, tpl, txns);
    var most := MaxSize(t) + Margin(t, txns);
    OverGrows(tpl, used, most);
    OverGrows(tpl, most, most);
  }

  // ---- a payout list that uses up any room ----

  /** Payouts of one satoshi whose serialized outputs take exactly `room` bytes. */
  function Exhaust(room: nat): (outs: seq<TxOut>)
    requires room >= 10
    ensures 1 <= |outs| <= room && forall o :: o in outs ==> WfPayout(o) && o.value == 1
  {
    if room <= 73 then [TxOut(1, seq(room - 9, _ => 0x51))]
    else [TxOut(1, seq(31, _ => 0x51))] + Exhaust(room - 40)
  }

  lemma {:induction false} ExhaustSize(room: nat)
    requires room >= 10
    ensures |EncOuts(Exhaust(room))| == room && Total(Exhaust(room)) == |Exhaust(room)|
  {
    hide EncOut;
    var outs := Exhaust(room);
    CostIsSize(outs[0]);
    assert EncOuts(outs) == EncOut(outs[0]) + EncOuts(outs[1..]);
    assert Total(outs) == outs[0].value + Total(outs[1..]);
    if room > 73 {
      assert outs[1..] == Exhaust(room - 40);
      ExhaustSize(room - 40);
    } else {
      assert outs[1..] == [];
    }
  }

  function AllFrom(k: nat, n: nat): seq<nat>
    requires k <= n
  {
    seq(n - k, i requires 0 <= i => k + i)
  }

  lemma OneTaken(outs: seq<TxOut>, k: nat, room: int, paid: nat)
    requires k < |outs| && outs[k].value == 1 && Cost(outs[k]) <= room && paid + 2 < U64
    ensures Picks(outs, k, room, paid, U64 - 1)
         == [k] + (if room - Cost(outs[k]) < 30 then []
                   else Picks(outs, k + 1, room - Cost(outs[k]), paid + 1, U64 - 1))
  {
    hide Picks, Cost, Add64;
    OneMore(paid);
    PickStep(outs, k, room, paid, U64 - 1);
    var ks := Picks(outs, k, room, paid, U64 - 1);
    assert ks == [k] + ks[1..];
  }

  lemma OneMore(paid: nat)
    requires paid + 1 < U64
    ensures Add64(paid, 1) == paid + 1
  {
  }

  /** The first payout of an exhausting list, and what it leaves. */
  lemma ExhaustHead(outs: seq<TxOut>, k: nat, room: nat)
    requires k < |outs| && room >= 10 && outs[k..] == Exhaust(room)
    ensures outs[k].value == 1 && Cost(outs[k]) == (if room <= 73 then room else 40)
    ensures room <= 73 ==> k + 1 == |outs|
    ensures room > 73 ==> k + 1 < |outs| && outs[k + 1..] == Exhaust(room - 40)
  {
    assert outs[k] == outs[k..][0] && outs[k + 1..] == outs[k..][1..];
  }

  lemma {:induction false} ExhaustPicked(outs: seq<TxOut>, k: nat, room: nat, paid: nat)
    requires k < |outs| && room >= 10 && outs[k..] == Exhaust(room) && paid + (|outs| - k) + 1 < U64
    ensures Picks(outs, k, room, paid, U64 - 1) == AllFrom(k, |outs|)
    decreases room
  {
    hide Picks, Exhaust, Cost;
    ExhaustHead(outs, k, room);
    OneTaken(outs, k, room, paid);
    if room <= 73 {
      assert [k] + [] == AllFrom(k, |outs|);
    } else {
      ExhaustPicked(outs, k + 1, room - 40, paid + 1);
      assert [k] + AllFrom(k + 1, |outs|) == AllFrom(k, |outs|);
    }
  }

  lemma ExhaustUsed(t: nat, j: Job, input: seq<byte>, tpl: Template, room: nat)
    requires WfJob(j) && Room(t, j, input, tpl) == room && 10 <= room <= 16000
    requires j.outs == Exhaust(room) && j.value == U64 - 1
    ensures PayoutBytes(t, j, input, tpl) == room && LastScript(t, j, input, tpl) == j.pool
  {
    hide Room, EncOuts, Total, Picks;
    assert j.outs[0..] == j.outs;
    ExhaustPicked(j.outs, 0, room, 0);
    var ks := AllFrom(0, |j.outs|);
    assert OutsOf(j.outs, ks) == j.outs;
    ExhaustSize(room);
  }

  lemma NoneUsed(t: nat, j: Job, input: seq<byte>, tpl: Template)
    requires WfJob(j) && j.outs == [] && j.value == U64 - 1
    ensures PayoutBytes(t, j, input, tpl) == 0 && LastScript(t, j, input, tpl) == j.pool
  {
    NothingEmitted(j.outs);
  }

  /** A job with the same fixed parts. */
  function WithPayouts(j: Job, outs: seq<TxOut>, value: nat): Job { j.(outs := outs, value := value) }

  /** The list that uses the budget up. */
  function Worst(t: nat, j: Job, input: seq<byte>, tpl: Template): seq<TxOut> {
    if Room(t, j, input, tpl) >= 10 then Exhaust(Room(t, j, input, tpl)) else []
  }

  lemma WorstUsed(t: nat, j: Job, input: seq<byte>, tpl: Template)
    requires t < TYPES && WfJob(j) && |input| <= 100
    ensures var j' := WithPayouts(j, Worst(t, j, input, tpl), U64 - 1); var room := Room(t, j, input, tpl);
            && WfJob(j') && Room(t, j', input, tpl) == room && Reserved(t, j', input) == Reserved(t, j, input)
            && PayoutBytes(t, j', input, tpl) == (if room >= 10 then room else 0)
            && LastScript(t, j', input, tpl) == j.pool
  {
    var room := Room(t, j, input, tpl);
    var j' := WithPayouts(j, Worst(t, j, input, tpl), U64 - 1);
    ReservedSmall(t, j, input);
    assert room <= MaxSize(t) <= 16000 by { FittedWithinLimits(MaxSize(t), Reserved(t, j, input), tpl); }
    assert Room(t, j', input, tpl) == room;
    hide Room, Fitted, PayoutBytes, LastScript;
    if room >= 10 {
      ExhaustUsed(t, j', input, tpl, room);
    } else {
      NoneUsed(t, j', input, tpl);
    }
  }

  /** Past the budget by a byte or more, one of the limits, and so the weight limit, is broken. */
  lemma BudgetTight(t: nat, j: Job, input: seq<byte>, tpl: Template, extranonce: seq<byte>)
    requires Setting(t, j, input, tpl, extranonce)
    ensures var room := Room(t, j, input, tpl);
            && 0 <= room <= MaxSize(t) - Reserved(t, j, input)
            && (room < MaxSize(t) - Reserved(t, j, input) ==> OverWeight(tpl, Reserved(t, j, input) + room + 1))
  {
    ReservedSmall(t, j, input);
    var reserved, room := Reserved(t, j, input), Room(t, j, input, tpl);
    FittedWithinLimits(MaxSize(t), reserved, tpl);
    FittedIsLargest(MaxSize(t), reserved, tpl, room + 1);
    hide Fitted, OverWeight, OverSize;
    OverGrows(tpl, reserved + room + 1, reserved + room + 1);
  }

  /** With less, the list that uses the budget up breaks the weight limit. */
  lemma NoRoomForWorst(t: nat, j: Job, input: seq<byte>, tpl: Template, extranonce: seq<byte>, txns: nat)
    requires Setting(t, j, input, tpl, extranonce)
    requires OverWeight(tpl, MaxSize(t) + 13 + |Varint(txns + 1)|)
    ensures var j' := WithPayouts(j, Worst(t, j, input, tpl), U64 - 1);
            WfJob(j') && !Within(t, j', input, tpl, extranonce, txns)
  {
    var j' := WithPayouts(j, Worst(t, j, input, tpl), U64 - 1);
    WorstUsed(t, j, input, tpl);
    BudgetTight(t, j, input, tpl, extranonce);
    ReservedSmall(t, j, input);
    CountAtLeast(t, j', input, tpl, txns);
    hide Generated, Worst, WithPayouts, PayoutBytes, Reserved, LastScript, Room, Outputs, OverWeight, Excess, Varint;
    hide BlockSize, BlockWeight, OverSize;
    BlockWithinIff(t, j', input, tpl, extranonce, txns);
    var used := Reserved(t, j, input) + PayoutBytes(t, j', input, tpl) + Excess(t, j', input, tpl, txns);
    var room := Room(t, j, input, tpl);
    if room < MaxSize(t) - Reserved(t, j, input) {
      OverGrows(tpl, Reserved(t, j, input) + room + 1, used);
    } else {
      OverGrows(tpl, MaxSize(t) + 13 + |Varint(txns + 1)|, used);
    }
  }

  lemma CountAtLeast(t: nat, j: Job, input: seq<byte>, tpl: Template, txns: nat)
    requires LastScript(t, j, input, tpl) == j.pool && |j.commitment| == 38
    ensures Excess(t, j, input, tpl, txns) >= 13 + |Varint(txns + 1)| >= 14
  {
    hide LastScript, Outputs, Le;
  }

  /** Which templates are safe whatever is paid to whom: for types 0, 1, 2 and 5, exactly those that could take a
      coinbase of the type's maximum and the margin. */
  lemma SafeTemplateIff(t: nat, j: Job, input: seq<byte>, tpl: Template, extranonce: seq<byte>, txns: nat)
    requires Setting(t, j, input, tpl, extranonce) && t != 3 && t != 4
    ensures (forall outs, value :: WfJob(WithPayouts(j, outs, value)) ==>
               Within(t, WithPayouts(j, outs, value), input, tpl, extranonce, txns))
       <==> !OverWeight(tpl, MaxSize(t) + Margin(t, txns))
  {
    hide Within, OverWeight, Varint;
    if OverWeight(tpl, MaxSize(t) + Margin(t, txns)) {
      NoRoomForWorst(t, j, input, tpl, extranonce, txns);
    } else {
      forall outs, value | WfJob(WithPayouts(j, outs, value))
        ensures Within(t, WithPayouts(j, outs, value), input, tpl, extranonce, txns)
      {
        RoomForAll(t, WithPayouts(j, outs, value), input, tpl, extranonce, txns);
      }
    }
  }
}
