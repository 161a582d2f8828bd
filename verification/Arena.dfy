/** Block template storage (datum_blocktemplates.c): the ring of templates, and the bump allocation of transaction data
    behind the descriptor table of one template. */
module Arena {
  import opened Bytes
  import opened Buffers

  const MAX_TXNS := 16383

  /** One element of the template's transaction array; None stands for a missing or mistyped field. */
  datatype Item =
    | NotAnObject
    | Item(txid: Option<string>, hash: Option<string>, fee: int, sigops: int, weight: int, data: Option<string>)

  datatype Desc = Desc(index: nat, txid: string, hash: string, fee: int, sigops: int, weight: int,
                       size: nat, binary: nat, hex: nat)

  predicate Complete(it: Item) { it.Item? && it.txid.Some? && it.hash.Some? && it.data.Some? }

  function Size(it: Item): nat { if it.Item? && it.data.Some? then |it.data.value| / 2 else 0 }

  function Text(s: string): seq<byte> { seq(|s|, i requires 0 <= i < |s| => (s[i] as int % 256) as byte) }

  /** Where the data of transaction `n` starts: each one before it took size + 1 and 2 * size + 2 bytes. */
  function Offset(start: nat, items: seq<Item>, n: nat): (off: nat)
    requires n <= |items|
    ensures off >= start
  {
    if n == 0 then start else Offset(start, items, n - 1) + 3 * Size(items[n - 1]) + 3
  }

  /** Total weight, size and signature operations of the first `n` transactions. */
  datatype Tally = Tally(weight: int, size: nat, sigops: int)

  function Totals(items: seq<Item>, n: nat): Tally
    requires n <= |items|
  {
    if n == 0 then Tally(0, 0, 0) else
      var t, it := Totals(items, n - 1), items[n - 1];
      if it.NotAnObject? then t else Plus(t, it)
  }

  function Kept(n: nat): nat { if n > MAX_TXNS then MAX_TXNS else n }

  /** The descriptor and the two copies of transaction `k`, whose data starts at `off`. */
  predicate Placed(mem: seq<byte>, d: Desc, it: Item, k: nat, off: nat)
    requires Complete(it)
  {
    && d == Desc(k + 1, it.txid.value, it.hash.value, it.fee, it.sigops, it.weight, Size(it), off, off + Size(it) + 1)
    && At(mem, d.binary, FromHex(it.data.value))
    && At(mem, d.hex, Text(it.data.value) + [0])
  }

  method Put(local: array<byte>, at: nat, s: seq<byte>)
    requires at + |s| <= local.Length
    modifies local
    ensures At(local[..], at, s)
    ensures forall i :: 0 <= i < local.Length && !(at <= i < at + |s|) ==> local[i] == old(local[i])
  {
    for i := 0 to |s|
      invariant forall k :: 0 <= k < i ==> local[at + k] == s[k]
      invariant forall k :: 0 <= k < local.Length && !(at <= k < at + i) ==> local[k] == old(local[k])
    {
      local[at + i] := s[i];
    }
  }

  lemma AtFrame(mem: seq<byte>, mem': seq<byte>, off: nat, s: seq<byte>)
    requires At(mem, off, s) && |mem'| == |mem|
    requires forall i :: off <= i < off + |s| ==> mem'[i] == mem[i]
    ensures At(mem', off, s)
  {
    assert mem'[off..off + |s|] == mem[off..off + |s|];
  }

  lemma PlacedFrame(mem: seq<byte>, mem': seq<byte>, d: Desc, it: Item, k: nat, off: nat, end: nat)
    requires Complete(it) && Placed(mem, d, it, k, off) && off + 3 * Size(it) + 3 <= end <= |mem| == |mem'|
    requires forall i :: 0 <= i < end ==> mem'[i] == mem[i]
    ensures Placed(mem', d, it, k, off)
  {
    AtFrame(mem, mem', d.binary, FromHex(it.data.value));
    AtFrame(mem, mem', d.hex, Text(it.data.value) + [0]);
  }

  /** Every descriptor so far, and its data. */
  predicate AllPlaced(mem: seq<byte>, ds: seq<Desc>, items: seq<Item>, start: nat) {
    && |ds| <= |items|
    && forall k :: 0 <= k < |ds| ==>
         Complete(items[k]) && Placed(mem, ds[k], items[k], k, Offset(start, items, k))
  }

  lemma PlacesOneMore(before: seq<byte>, mem: seq<byte>, ds: seq<Desc>, d: Desc, items: seq<Item>, start: nat)
    requires AllPlaced(before, ds, items, start) && |ds| < |items| && Complete(items[|ds|])
    requires Placed(mem, d, items[|ds|], |ds|, Offset(start, items, |ds|))
    requires Offset(start, items, |ds|) <= |mem| == |before|
    requires forall i :: 0 <= i < Offset(start, items, |ds|) ==> mem[i] == before[i]
    ensures AllPlaced(mem, ds + [d], items, start)
  {
    hide Placed, Offset;
    forall k | 0 <= k < |ds| ensures Placed(mem, ds[k], items[k], k, Offset(start, items, k)) {
      OffsetGrows(start, items, k, |ds|);
      PlacedFrame(before, mem, ds[k], items[k], k, Offset(start, items, k), Offset(start, items, |ds|));
    }
  }

  lemma {:induction false} OffsetGrows(start: nat, items: seq<Item>, k: nat, n: nat)
    requires k <= n <= |items|
    ensures Offset(start, items, k) + (if k < n then 3 * Size(items[k]) + 3 else 0) <= Offset(start, items, n)
    decreases n - k
  {
    if k < n {
      OffsetGrows(start, items, k + 1, n);
    }
  }

  /** A template slot: its memory, its descriptors and its running figures. */
  class TemplateData {
    const local: array<byte>
    var txnCount: nat
    var txnDataOffset: nat
    var totals: Tally
    var txns: seq<Desc>

    constructor (size: nat)
      ensures fresh(local) && local.Length == size
      ensures txnCount == 0 && txnDataOffset == 0 && totals == Tally(0, 0, 0) && txns == []
    {
      local := new byte[size];
      txnCount, txnDataOffset, totals, txns := 0, 0, Tally(0, 0, 0), [];
    }

    method Clear()
      modifies this
      ensures txnCount == 0 && txnDataOffset == 0 && totals == Tally(0, 0, 0) && txns == []
    {
      txnCount, txnDataOffset, totals, txns := 0, 0, Tally(0, 0, 0), [];
    }

    /** Both copies of one transaction, the text first. */
    method Copy(binary: nat, hex: nat, data: string)
      requires hex == binary + |data| / 2 + 1 && hex + |data| + 1 <= local.Length
      modifies local
      ensures At(local[..], binary, FromHex(data)) && At(local[..], hex, Text(data) + [0])
      ensures forall i :: 0 <= i < binary ==> local[i] == old(local[i])
    {
      Put(local, hex, Text(data) + [0]);
      ghost var before := local[..];
      Put(local, binary, FromHex(data));
      AtFrame(before, local[..], hex, Text(data) + [0]);
    }

    /** One transaction: its fields, its two copies, its share of the tallies. */
    method LoadTransaction(it: Item) returns (ok: bool)
      modifies this`txnDataOffset, this`txns, this`totals, local
      ensures ok <==> Complete(it) && old(txnDataOffset) + 3 * Size(it) + 3 < local.Length
      ensures ok ==>
        && txnDataOffset == old(txnDataOffset) + 3 * Size(it) + 3
        && totals == Plus(old(totals), it)
        && |txns| == |old(txns)| + 1 && txns[..|old(txns)|] == old(txns)
        && Placed(local[..], txns[|old(txns)|], it, |old(txns)|, old(txnDataOffset))
      ensures forall i :: 0 <= i < old(txnDataOffset) && i < local.Length ==> local[i] == old(local[i])
    {
      hide Placed, At, FromHex, Text;
      if it.NotAnObject? || it.txid.None? || it.hash.None? || it.data.None? {
        return false;
      }
      var s := it.data.value;
      var size := |s| / 2;
      var binary := txnDataOffset;
      txnDataOffset := txnDataOffset + size + 1;
      var hex := txnDataOffset;
      txnDataOffset := txnDataOffset + size * 2 + 2;
      if txnDataOffset >= local.Length {
        return false;
      }
      Copy(binary, hex, s);
      var i := |txns|;
      var d := Desc(i + 1, it.txid.value, it.hash.value, it.fee, it.sigops, it.weight, size, binary, hex);
      JustPlaced(local[..], d, it, i, binary);
      txns := txns + [d];
      totals := Tally(totals.weight + it.weight, totals.size + size, totals.sigops + it.sigops);
      return true;
    }

    /** The transaction part of parsing a template; `descSize` is the size of one descriptor. */
    method LoadTransactions(descSize: nat, items: seq<Item>) returns (ok: bool)
      requires totals == Tally(0, 0, 0) && txns == []
      modifies this, local
      ensures var n, start := if |items| > 16383 then 16383 else |items|, descSize * |items|;
              && (ok <==> && (forall k :: 0 <= k < n ==>
                                && items[k].Item? && items[k].txid.Some? && items[k].hash.Some? && items[k].data.Some?)
                          && (n > 0 ==> Offset(start, items, n) < local.Length))
              && (ok ==> txnCount == |txns| == n && totals == Totals(items, n)
                         && AllPlaced(local[..], txns, items, start))
              && (forall i :: 0 <= i < start && i < local.Length ==> local[i] == old(local[i]))
    {
      hide Placed, At, FromHex, Text, AllPlaced, Totals, Offset;
      txnCount := |items|;
      var start := descSize * |items|;
      txnDataOffset := start;
      if txnCount > MAX_TXNS {
        txnCount := MAX_TXNS;
      }
      assert Offset(start, items, 0) == start && Totals(items, 0) == Tally(0, 0, 0)
          && AllPlaced(local[..], [], items, start)
        by { AtZero(local[..], items, start); }
      var i := 0;
      while i < txnCount
        invariant 0 <= i <= txnCount == Kept(|items|) && |txns| == i
        invariant txnDataOffset == Offset(start, items, i) && (i > 0 ==> txnDataOffset < local.Length)
        invariant forall k :: 0 <= k < i ==> Complete(items[k])
        invariant totals == Totals(items, i) && AllPlaced(local[..], txns, items, start)
        invariant forall k :: 0 <= k < start && k < local.Length ==> local[k] == old(local[k])
      {
        ghost var before, ds := local[..], txns;
        OffsetGrows(start, items, i, i + 1);
        OffsetGrows(start, items, i + 1, Kept(|items|));
        var loaded := LoadTransaction(items[i]);
        if !loaded {
          if Complete(items[i]) { AtNext(items, start, i); }
          return false;
        }
        AtNext(items, start, i);
        assert txns == ds + [txns[i]];
        PlacesOneMore(before, local[..], ds, txns[i], items, start);
        i := i + 1;
      }
      return true;
    }
  }

  function Plus(t: Tally, it: Item): Tally
    requires it.Item?
  {
    Tally(t.weight + it.weight, t.size + Size(it), t.sigops + it.sigops)
  }

  lemma AtZero(mem: seq<byte>, items: seq<Item>, start: nat)
    ensures Offset(start, items, 0) == start && Totals(items, 0) == Tally(0, 0, 0) && AllPlaced(mem, [], items, start)
  {
  }

  lemma AtNext(items: seq<Item>, start: nat, i: nat)
    requires i < |items| && items[i].Item?
    ensures Offset(start, items, i + 1) == Offset(start, items, i) + 3 * Size(items[i]) + 3
    ensures Totals(items, i + 1) == Plus(Totals(items, i), items[i])
  {
  }

  lemma JustPlaced(mem: seq<byte>, d: Desc, it: Item, k: nat, off: nat)
    requires Complete(it)
    requires d == Desc(k + 1, it.txid.value, it.hash.value, it.fee, it.sigops, it.weight,
                       Size(it), off, off + Size(it) + 1)
    requires At(mem, off, FromHex(it.data.value)) && At(mem, d.hex, Text(it.data.value) + [0])
    ensures Placed(mem, d, it, k, off)
  {
  }

  // ---- what is kept of a transaction ----

  function SumOf(s: seq<int>): int { if s == [] then 0 else s[0] + SumOf(s[1..]) }

  lemma {:induction false} SumSnoc(s: seq<int>, x: int)
    ensures SumOf(s + [x]) == SumOf(s) + x
  {
    if s == [] {
      assert [] + [x] == [x];
    } else {
      assert (s + [x])[1..] == s[1..] + [x];
      SumSnoc(s[1..], x);
    }
  }

  /** Columns of the first `n` transactions. */
  function Weights(items: seq<Item>, n: nat): seq<int>
    requires n <= |items| && forall k :: 0 <= k < n ==> Complete(items[k])
  {
    seq(n, k requires 0 <= k < n && Complete(items[k]) => items[k].weight)
  }

  function SigOps(items: seq<Item>, n: nat): seq<int>
    requires n <= |items| && forall k :: 0 <= k < n ==> Complete(items[k])
  {
    seq(n, k requires 0 <= k < n && Complete(items[k]) => items[k].sigops)
  }

  function Lengths(items: seq<Item>, n: nat): seq<int>
    requires n <= |items| && forall k :: 0 <= k < n ==> Complete(items[k])
  {
    seq(n, k requires 0 <= k < n && Complete(items[k]) => |items[k].data.value| / 2)
  }

  /** The tallies are the sums of the transactions' own weights, sizes and signature operations. */
  lemma {:induction false} TotalsAre(items: seq<Item>, n: nat)
    requires n <= |items| && forall k :: 0 <= k < n ==> Complete(items[k])
    ensures var t := Totals(items, n);
            && t.weight == SumOf(Weights(items, n))
            && t.size == SumOf(Lengths(items, n))
            && t.sigops == SumOf(SigOps(items, n))
  {
    if n > 0 {
      TotalsAre(items, n - 1);
      AtNext(items, 0, n - 1);
      var it := items[n - 1];
      assert Weights(items, n) == Weights(items, n - 1) + [it.weight];
      assert SigOps(items, n) == SigOps(items, n - 1) + [it.sigops];
      assert Lengths(items, n) == Lengths(items, n - 1) + [|it.data.value| / 2];
      SumSnoc(Weights(items, n - 1), it.weight);
      SumSnoc(SigOps(items, n - 1), it.sigops);
      SumSnoc(Lengths(items, n - 1), |it.data.value| / 2);
      hide Totals, Weights, SigOps, Lengths, SumOf;
    }
  }

  // ---- arena safety ----

  /** A stretch of a slot's memory. */
  datatype Region = Region(from: nat, to: nat)

  function BinaryRegion(d: Desc): Region { Region(d.binary, d.binary + d.size + 1) }

  function HexRegion(d: Desc): Region { Region(d.hex, d.hex + 2 * d.size + 2) }

  predicate Apart(a: Region, b: Region) { a.to <= b.from || b.to <= a.from }

  /** In every accepted template, truncated or not: each transaction's two regions lie behind the whole descriptor table
      and inside the slot, and no two regions of the template overlap. */
  lemma RegionsApart(mem: seq<byte>, ds: seq<Desc>, items: seq<Item>, descSize: nat, j: nat, k: nat)
    requires AllPlaced(mem, ds, items, descSize * |items|) && j < |ds| && k < |ds|
    requires Offset(descSize * |items|, items, |ds|) < |mem|
    ensures descSize * |ds| <= descSize * |items| <= ds[k].binary && HexRegion(ds[k]).to < |mem|
    ensures Apart(BinaryRegion(ds[j]), HexRegion(ds[k]))
    ensures j != k ==> Apart(BinaryRegion(ds[j]), BinaryRegion(ds[k])) && Apart(HexRegion(ds[j]), HexRegion(ds[k]))
  {
    hide Offset, At;
    var start := descSize * |items|;
    var n := |ds|;
    OffsetGrows(start, items, k, n);
    OffsetGrows(start, items, j, n);
    if j < k {
      OffsetGrows(start, items, j, k);
      SizesOf(mem, ds, items, start, j, k);
    } else if k < j {
      OffsetGrows(start, items, k, j);
      SizesOf(mem, ds, items, start, k, j);
    }
    Monotone(descSize, n, |items|);
  }

  lemma Monotone(c: nat, a: nat, b: nat)
    requires a <= b
    ensures c * a <= c * b
  {
  }

  /** Data of an earlier transaction ends before the next one's begins. */
  lemma {:induction false} SizesOf(mem: seq<byte>, ds: seq<Desc>, items: seq<Item>, start: nat, j: nat, k: nat)
    requires AllPlaced(mem, ds, items, start) && j < k < |ds|
    ensures HexRegion(ds[j]).to <= ds[k].binary
  {
    hide At;
    OffsetGrows(start, items, j, k);
  }

  /** What each transaction occupies adds up: three bytes for each of its own, and three more. */
  lemma {:induction false} OffsetIs(start: nat, items: seq<Item>, n: nat)
    requires n <= |items| && forall k :: 0 <= k < n ==> Complete(items[k])
    ensures Offset(start, items, n) == start + 3 * Totals(items, n).size + 3 * n
  {
    if n > 0 {
      OffsetIs(start, items, n - 1);
    }
  }

  /** The size every slot is given. */
  function SlotSize(descSize: nat, maxBlock: nat): nat { descSize * 16384 + maxBlock * 3 + 2000000 }

  /** A template of at most 16383 transactions that add up to no more than a block always fits its slot. */
  lemma BlockFits(descSize: nat, maxBlock: nat, items: seq<Item>)
    requires |items| <= MAX_TXNS && (forall k :: 0 <= k < |items| ==> Complete(items[k]))
    requires Totals(items, |items|).size <= maxBlock
    ensures Offset(descSize * |items|, items, |items|) < SlotSize(descSize, maxBlock)
  {
    OffsetIs(descSize * |items|, items, |items|);
    Monotone(descSize, |items|, 16384);
  }

  /** With more transactions the table is still sized for all of them: the truncated template fits exactly when the
      entries beyond the limit do not eat up what the data leaves. */
  lemma TruncatedFitsIff(descSize: nat, maxBlock: nat, items: seq<Item>)
    requires |items| > MAX_TXNS && (forall k :: 0 <= k < MAX_TXNS ==> Complete(items[k]))
    ensures Offset(descSize * |items|, items, MAX_TXNS) < SlotSize(descSize, maxBlock)
       <==> descSize * (|items| - 16384) < 3 * (maxBlock - Totals(items, MAX_TXNS).size) + 1950851
  {
    OffsetIs(descSize * |items|, items, MAX_TXNS);
    assert descSize * |items| - descSize * 16384 == descSize * (|items| - 16384);
  }

  function EmptyItems(n: nat): seq<Item> { seq(n, _ => Item(Some(""), Some(""), 0, 0, 0, Some(""))) }

  lemma {:induction false} EmptyTotals(items: seq<Item>, n: nat)
    requires n <= |items| && forall k :: 0 <= k < n ==> items[k].Item? && Size(items[k]) == 0
    ensures Totals(items, n).size == 0
  {
    if n > 0 {
      EmptyTotals(items, n - 1);
    }
  }

  /** For any descriptor size there is a list of complete, even empty, transactions whose truncation is refused. */
  lemma TruncatedRefusedExample(descSize: nat, maxBlock: nat)
    requires descSize > 0
    ensures var items := EmptyItems(16384 + 3 * maxBlock + 1950851);
            && |items| > MAX_TXNS && (forall k :: 0 <= k < MAX_TXNS ==> Complete(items[k]))
            && Offset(descSize * |items|, items, MAX_TXNS) >= SlotSize(descSize, maxBlock)
  {
    var items := EmptyItems(16384 + 3 * maxBlock + 1950851);
    EmptyTotals(items, MAX_TXNS);
    Monotone(3 * maxBlock + 1950851, 1, descSize);
    hide Offset, Totals;
    TruncatedFitsIff(descSize, maxBlock, items);
  }

  /** What is kept of each transaction of an accepted template: its number from 1, its two ids, fee, signature
      operations and weight; and, when the node printed it in hex, the transaction itself and its text, ended by a zero
      byte. */
  lemma ReadsBack(mem: seq<byte>, ds: seq<Desc>, items: seq<Item>, start: nat, k: nat, tx: seq<byte>)
    requires AllPlaced(mem, ds, items, start) && k < |ds| && items[k].data == Some(ToHex(tx))
    ensures var d, it := ds[k], items[k];
            && d.index == k + 1 && Some(d.txid) == it.txid && Some(d.hash) == it.hash
            && d.fee == it.fee && d.sigops == it.sigops && d.weight == it.weight && d.size == |tx|
            && Holds(mem, d.binary, d.hex, tx)
  {
    HexRoundTrip(tx);
    HexLength(tx);
    var d, it := ds[k], items[k];
    assert Placed(mem, d, it, k, Offset(start, items, k));
    hide AllPlaced, Offset, FromHex, ToHex, At, Holds;
    CopiesHold(mem, d.binary, d.hex, tx);
  }

  /** At `binary` the bytes of `tx`, at `hex` its text and a zero byte. */
  predicate Holds(mem: seq<byte>, binary: nat, hex: nat, tx: seq<byte>) {
    var text := ToHex(tx);
    && binary + |tx| <= |mem| && hex + |text| < |mem|
    && mem[binary..binary + |tx|] == tx
    && (forall i :: 0 <= i < |text| ==> mem[hex + i] as int == text[i] as int)
    && mem[hex + |text|] == 0
  }

  lemma CopiesHold(mem: seq<byte>, binary: nat, hex: nat, tx: seq<byte>)
    requires At(mem, binary, tx) && At(mem, hex, Text(ToHex(tx)) + [0])
    ensures Holds(mem, binary, hex, tx)
  {
    HexLength(tx);
    hide ToHex;
    var text := Text(ToHex(tx)) + [0];
    forall i | 0 <= i < |text| ensures mem[hex + i] == text[i] {
      assert mem[hex..hex + |text|][i] == text[i];
    }
  }
}

/** The ring of template slots (datum_blocktemplates.c). */
module TemplateRing {
  import opened Arena

  class Ring {
    const slots: seq<TemplateData>
    var nextTemplateIndex: nat

    /** The slots' memories, which do not overlap. */
    ghost function Memory(): set<object> { set t | t in slots :: t.local }

    ghost predicate Valid()
      reads this
    {
      && nextTemplateIndex < |slots|
      && forall i, k :: 0 <= i < k < |slots| ==> slots[i] != slots[k] && slots[i].local != slots[k].local
    }

    constructor (count: nat, size: nat)
      requires count > 0
      ensures Valid() && |slots| == count && nextTemplateIndex == 0
      ensures forall t :: t in slots ==> fresh(t) && fresh(t.local) && t.local.Length == size
    {
      var all: seq<TemplateData> := [];
      for i := 0 to count
        invariant |all| == i
        invariant forall t :: t in all ==> fresh(t) && fresh(t.local) && t.local.Length == size
        invariant forall j, k :: 0 <= j < k < i ==> all[j] != all[k] && all[j].local != all[k].local
      {
        var t := new TemplateData(size);
        assert forall j :: 0 <= j < i ==> all[j] in all;
        all := all + [t];
      }
      slots, nextTemplateIndex := all, 0;
    }

    /** Clears the next slot and hands it out. */
    method GetNextTemplate() returns (t: TemplateData)
      requires Valid()
      modifies this, slots
      ensures Valid() && t == slots[old(nextTemplateIndex)]
      ensures nextTemplateIndex == After(old(nextTemplateIndex), |slots|)
      ensures t.txnCount == 0 && t.txnDataOffset == 0 && t.totals == Tally(0, 0, 0) && t.txns == []
      ensures forall i :: 0 <= i < |slots| && i != old(nextTemplateIndex) ==> unchanged(slots[i])
    {
      t := slots[nextTemplateIndex];
      t.Clear();
      nextTemplateIndex := nextTemplateIndex + 1;
      if nextTemplateIndex >= |slots| {
        nextTemplateIndex := 0;
      }
    }

    /** Takes the next slot and loads a template's transactions into it; None when they are refused. The other slots are
        left as they are. */
    method ParseTransactions(descSize: nat, items: seq<Item>) returns (t: TemplateData, ok: bool)
      requires Valid()
      modifies this, slots, Memory()
      ensures Valid() && t == slots[old(nextTemplateIndex)]
      ensures nextTemplateIndex == After(old(nextTemplateIndex), |slots|)
      ensures var n, start := if |items| > 16383 then 16383 else |items|, descSize * |items|;
              && (ok <==> && (forall k :: 0 <= k < n ==> Complete(items[k]))
                          && (n > 0 ==> Offset(start, items, n) < t.local.Length))
              && (ok ==> t.txnCount == |t.txns| == n && t.totals == Totals(items, n)
                         && AllPlaced(t.local[..], t.txns, items, start))
      ensures forall i :: 0 <= i < |slots| && i != old(nextTemplateIndex) ==>
                unchanged(slots[i]) && unchanged(slots[i].local)
    {
      hide AllPlaced, Offset, Totals;
      t := GetNextTemplate();
      assert t.local in Memory();
      ok := t.LoadTransactions(descSize, items);
    }
  }

  function After(slot: nat, count: nat): nat { if slot + 1 >= count then 0 else slot + 1 }

  /** The slot handed out by call `i`. */
  function Slot(i: nat, count: nat): nat { if i == 0 then 0 else After(Slot(i - 1, count), count) }

  lemma {:induction false} SlotIs(i: nat, count: nat)
    requires count > 0
    ensures Slot(i, count) == i % count
  {
    if i > 0 {
      SlotIs(i - 1, count);
      Successor(i - 1, count);
    }
  }

  lemma Successor(i: nat, count: nat)
    requires count > 0
    ensures (i + 1) % count == After(i % count, count)
  {
    var q, r := i / count, i % count;
    assert i == q * count + r;
    if r + 1 < count {
      Remainder(i + 1, q, r + 1, count);
    } else {
      assert i + 1 == (q + 1) * count;
      Remainder(i + 1, q + 1, 0, count);
    }
  }

  lemma Remainder(x: nat, q: nat, r: nat, count: nat)
    requires r < count && x == q * count + r
    ensures x % count == r && x / count == q
  {
    var a, b := x / count, x % count;
    assert (a - q) * count == r - b && (q - a) * count == b - r;
    if a > q {
      Grows(a - q, count);
    } else if q > a {
      Grows(q - a, count);
    }
  }

  /** A slot comes round again after exactly `count` calls, and between two uses of it every other slot is handed out
      once: among `count` calls in a row each slot appears, and only once. */
  lemma NoEarlyReuse(i: nat, count: nat, slot: nat)
    requires slot < count
    ensures Slot(i + count, count) == Slot(i, count)
    ensures forall j, k :: i <= j < k < i + count ==> Slot(j, count) != Slot(k, count)
    ensures exists j :: i <= j < i + count && Slot(j, count) == slot
  {
    hide Slot;
    ComesRound(i, count);
    forall j, k | i <= j < k < i + count ensures Slot(j, count) != Slot(k, count) {
      Differ(j, k, count);
    }
    var j := Appears(i, count, slot);
  }

  lemma ComesRound(i: nat, count: nat)
    requires count > 0
    ensures Slot(i + count, count) == Slot(i, count)
  {
    SlotIs(i, count);
    SlotIs(i + count, count);
    hide Slot;
    OneMore(i, i / count, count);
  }

  lemma OneMore(i: nat, q: nat, count: nat)
    requires count > 0 && q == i / count
    ensures (i + count) % count == i % count
  {
    var r := i % count;
    assert i == q * count + r;
    assert i + count == (q + 1) * count + r;
    Remainder(i + count, q + 1, r, count);
  }

  lemma Appears(i: nat, count: nat, slot: nat) returns (j: nat)
    requires slot < count
    ensures i <= j < i + count && Slot(j, count) == slot
  {
    hide Slot;
    var q, r := i / count, i % count;
    j := if slot >= r then i + (slot - r) else i + count - r + slot;
    SlotIs(j, count);
    assert (q + 1) * count == q * count + count;
    Remainder(j, if slot >= r then q else q + 1, slot, count);
  }

  lemma Differ(j: nat, k: nat, count: nat)
    requires j < k < j + count
    ensures Slot(j, count) != Slot(k, count)
  {
    SlotIs(j, count);
    SlotIs(k, count);
    if j % count == k % count {
      var a, b := j / count, k / count;
      assert k - j == b * count - a * count == (b - a) * count;
      if b > a { Grows(b - a, count); } else { Shrinks(b - a, count); }
    }
  }

  lemma Grows(m: int, count: nat)
    requires m >= 1
    ensures m * count >= count
  {
  }

  lemma Shrinks(m: int, count: nat)
    requires m <= 0
    ensures m * count <= 0
  {
  }
}
