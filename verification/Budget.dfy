/** How many payout bytes a coinbase type may use (datum_coinbaser.c, datum_stratum_coinbase_fit_to_template). */
module Budget {
  /** Totals of the block template's transactions, without the coinbase. */
  datatype Template = Template(size: int, weight: int, sizeLimit: int, weightLimit: int)

  const HEADER_SIZE := 85 + 36
  const HEADER_WEIGHT := 340 + 36

  function Min(a: int, b: int): int { if a < b then a else b }

  function Shift2(n: int): int { n / 4 }

  predicate OverSize(t: Template, used: int) { used + t.size + HEADER_SIZE > t.sizeLimit }

  predicate OverWeight(t: Template, used: int) { 4 * used + t.weight + HEADER_WEIGHT > t.weightLimit }

  /** What the size limit, and what the weight limit, leaves beside the reserved bytes. */
  function SizeLeft(t: Template, reserved: int): int { t.sizeLimit - (t.size + HEADER_SIZE) - reserved }

  function WeightLeft(t: Template, reserved: int): int {
    Shift2(t.weightLimit - (t.weight + HEADER_WEIGHT)) - reserved
  }

  function Fitted(maxSize: int, reserved: int, t: Template): int {
    var used := maxSize + reserved;
    if (OverSize(t, used) && SizeLeft(t, reserved) < 0) || (OverWeight(t, used) && WeightLeft(t, reserved) < 0) then 0
    else
      var left := if OverWeight(t, used) then WeightLeft(t, reserved)
                  else if OverSize(t, used) then SizeLeft(t, reserved)
                  else used;
      Min(if left < 0 then 0 else left, maxSize - reserved)
  }

  method FitToTemplate(maxSize: int, reserved: int, t: Template) returns (r: int)
    ensures r == Fitted(maxSize, reserved, t)
  {
    var i := reserved + maxSize;
    var size := maxSize + reserved;
    if i + t.size + 85 + 36 > t.sizeLimit {
      var j := t.sizeLimit - (t.size + 85 + 36) - reserved;
      if j < 0 {
        return 0;
      }
      size := j;
    }
    if i * 4 + t.weight + 340 + 36 > t.weightLimit {
      var j := (t.weightLimit - (t.weight + 340 + 36)) / 4 - reserved;
      if j < 0 {
        return 0;
      }
      size := j;
    }
    if size < 0 {
      size := 0;
    }
    if size < maxSize - reserved {
      return size;
    }
    return maxSize - reserved;
  }

  /** The budget and the reserved bytes together stay within the type's maximum, and a positive budget respects both
      template limits although the weight figure overwrites the size figure: a block is never lighter than its size,
      and the weight limit is not above the size limit. */
  lemma FittedWithinLimits(maxSize: int, reserved: int, t: Template)
    requires 0 <= reserved <= maxSize
    ensures 0 <= Fitted(maxSize, reserved, t) <= maxSize - reserved
    ensures Fitted(maxSize, reserved, t) > 0 && t.weight >= t.size && t.weightLimit <= t.sizeLimit ==>
              var used := reserved + Fitted(maxSize, reserved, t);
              !OverSize(t, used) && !OverWeight(t, used)
  {
  }

  /** The budget is negative exactly when the reserved bytes alone exceed the maximum and neither limit has already
      forced it to zero. */
  lemma FittedNegativeIff(maxSize: int, reserved: int, t: Template)
    requires 0 <= maxSize && 0 <= reserved
    ensures Fitted(maxSize, reserved, t) < 0 <==>
              && reserved > maxSize
              && !(OverSize(t, maxSize + reserved) && SizeLeft(t, reserved) < 0)
              && !(OverWeight(t, maxSize + reserved) && WeightLeft(t, reserved) < 0)
  {
  }

  /** Nothing that fits is given away: any larger budget breaks the maximum or one of the limits. */
  lemma FittedIsLargest(maxSize: int, reserved: int, t: Template, more: int)
    requires 0 <= reserved <= maxSize
    requires more > Fitted(maxSize, reserved, t)
    requires t.weight >= t.size && t.weightLimit <= t.sizeLimit
    ensures reserved + more > maxSize || OverSize(t, reserved + more) || OverWeight(t, reserved + more)
  {
  }
}
