/** Who is paid what (builder.go). The 2.1% of the total is a parameter, as its last satoshi depends on floating-point
    rounding: finder and pool fee are the same truncated product. */
module Payout {
  import opened Wire

  const MAX_RANKED_SLOTS := 21
  const SUBSIDY := 312_500_000
  const POOL_FEE_ADDRESS := "1DR9pDLvFVnaJBRT5M4hUJLiuCQ7YE8D7b"

  function Filled(ranked: seq<string>): (n: nat)
    ensures n <= |ranked| && n <= MAX_RANKED_SLOTS
  {
    if |ranked| > MAX_RANKED_SLOTS then MAX_RANKED_SLOTS else |ranked|
  }

  /** One of the 21 equal shares of what finder and pool fee leave. */
  function PerSlot(total: nat, cut: nat): (n: nat)
    requires 2 * cut <= total
    ensures 21 * n <= total - 2 * cut < 21 * n + 21
  {
    (total - 2 * cut) / MAX_RANKED_SLOTS
  }

  function Slots(ranked: seq<string>, n: nat, amount: nat): seq<Output>
    requires n <= |ranked|
  {
    seq(n, i requires 0 <= i < n => Output(ranked[i], amount))
  }

  /** Finder, the best at most 21 miners in order, and the pool with everything else. */
  function Outputs(miner: string, total: nat, ranked: seq<string>, cut: nat): (outs: seq<Output>)
    requires 2 * cut <= total
    ensures |outs| == Filled(ranked) + 2
  {
    var n := Filled(ranked);
    var slot := PerSlot(total, cut);
    [Output(miner, cut)] + Slots(ranked, n, slot) + [Output(POOL_FEE_ADDRESS, total - cut - n * slot)]
  }

  /** Who is paid what: the finder the 2.1%, each of the first 21 ranked miners one of 21 equal shares of what the two
      cuts leave, the pool the rest. */
  lemma OutputsAre(miner: string, total: nat, ranked: seq<string>, cut: nat)
    requires 2 * cut <= total
    ensures var outs := Outputs(miner, total, ranked, cut);
            var n := if |ranked| > 21 then 21 else |ranked|;
            && |outs| == n + 2
            && outs[0] == Output(miner, cut)
            && (forall i :: 0 <= i < n ==> outs[i + 1] == Output(ranked[i], (total - 2 * cut) / 21))
            && outs[n + 1] == Output("1DR9pDLvFVnaJBRT5M4hUJLiuCQ7YE8D7b", total - cut - n * ((total - 2 * cut) / 21))
  {
  }

  function Sum(outs: seq<Output>): int {
    if outs == [] then 0 else outs[0].amount + Sum(outs[1..])
  }

  lemma {:induction false} SumSnoc(outs: seq<Output>, o: Output)
    ensures Sum(outs + [o]) == Sum(outs) + o.amount
  {
    if outs == [] {
      assert [] + [o] == [o];
    } else {
      assert (outs + [o])[1..] == outs[1..] + [o];
      SumSnoc(outs[1..], o);
    }
  }

  lemma {:induction false} SumSlots(ranked: seq<string>, n: nat, amount: nat)
    requires n <= |ranked|
    ensures Sum(Slots(ranked, n, amount)) == n * amount
  {
    if n > 0 {
      SumSlots(ranked, n - 1, amount);
      assert Slots(ranked, n, amount) == Slots(ranked, n - 1, amount) + [Output(ranked[n - 1], amount)];
      SumSnoc(Slots(ranked, n - 1, amount), Output(ranked[n - 1], amount));
    }
  }

  /** The outputs add up to exactly the total, whatever the 2.1% was rounded to. */
  lemma OutputsSum(miner: string, total: nat, ranked: seq<string>, cut: nat)
    requires 2 * cut <= total
    ensures Sum(Outputs(miner, total, ranked, cut)) == total
  {
    var n := Filled(ranked);
    var slot := PerSlot(total, cut);
    var finder, slots := Output(miner, cut), Slots(ranked, n, slot);
    var outs := Outputs(miner, total, ranked, cut);
    SumSlots(ranked, n, slot);
    SumSnoc([finder] + slots, Output(POOL_FEE_ADDRESS, total - cut - n * slot));
    assert ([finder] + slots)[1..] == slots;
    assert outs == ([finder] + slots) + [Output(POOL_FEE_ADDRESS, total - cut - n * slot)];
  }

  lemma Unfilled(n: nat, slot: nat)
    requires n <= 21
    ensures (21 - n) * slot == slot * 21 - n * slot
  {
  }

  /** The pool is left with its own 2.1%, the shares of unfilled slots, and under 21 satoshis of dust. */
  lemma PoolShare(miner: string, total: nat, ranked: seq<string>, cut: nat)
    requires 2 * cut <= total
    ensures var outs := Outputs(miner, total, ranked, cut);
            var unfilled := (MAX_RANKED_SLOTS - Filled(ranked)) * PerSlot(total, cut);
            cut + unfilled <= outs[|outs| - 1].amount < cut + unfilled + 21
  {
    var n, slot := Filled(ranked), PerSlot(total, cut);
    assert slot * 21 <= total - 2 * cut < slot * 21 + 21;
    hide Slots, PerSlot;
    Unfilled(n, slot);
  }

  lemma SlotsSplit(slot: nat, filled: nat)
    requires filled <= 21
    ensures slot * (21 - filled) + filled * slot == 21 * slot
  {
  }

  lemma SlotsGrow(ranked: seq<string>, i: nat, slot: nat)
    requires i <= |ranked|
    ensures Slots(ranked, 0, slot) == []
    ensures i < |ranked| ==> Slots(ranked, i + 1, slot) == Slots(ranked, i, slot) + [Output(ranked[i], slot)]
  {
  }

  lemma NothingSums()
    ensures Sum([]) == 0
  {
  }

  method BuildOutputs(miner: string, subsidy: int, fees: int, ranked: seq<string>, cut: nat)
    returns (outputs: seq<Output>)
    requires 0 <= 2 * cut <= subsidy + fees
    ensures outputs == Outputs(miner, subsidy + fees, ranked, cut)
    ensures Sum(outputs) == subsidy + fees
  {
    hide Slots, Sum;
    var total := subsidy + fees;
    var finderAmount := cut;
    var poolFeeBase := cut;
    var remaining := total - finderAmount - poolFeeBase;
    var perSlot := remaining / MAX_RANKED_SLOTS;
    var dust := remaining - perSlot * MAX_RANKED_SLOTS;
    var filledSlots := |ranked|;
    if filledSlots > MAX_RANKED_SLOTS {
      filledSlots := MAX_RANKED_SLOTS;
    }
    var unfilledSlots := MAX_RANKED_SLOTS - filledSlots;
    var poolFeeOut := poolFeeBase + perSlot * unfilledSlots + dust;
    outputs := [Output(miner, finderAmount)];
    SlotsGrow(ranked, 0, perSlot);
    for i := 0 to filledSlots
      invariant outputs == [Output(miner, cut)] + Slots(ranked, i, perSlot)
    {
      SlotsGrow(ranked, i, perSlot);
      outputs := outputs + [Output(ranked[i], perSlot)];
    }
    SlotsSplit(perSlot, filledSlots);
    outputs := outputs + [Output(POOL_FEE_ADDRESS, poolFeeOut)];
    var got := 0;
    assert Sum(outputs[..0]) == 0 by { NothingSums(); }
    for i := 0 to |outputs|
      invariant got == Sum(outputs[..i])
    {
      assert outputs[..i + 1] == outputs[..i] + [outputs[i]];
      SumSnoc(outputs[..i], outputs[i]);
      got := got + outputs[i].amount;
    }
    assert outputs[..|outputs|] == outputs;
    OutputsSum(miner, total, ranked, cut);
    // the service's panic on got != total cannot happen
    assert got == total;
  }
}
