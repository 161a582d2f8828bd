/** Transactions, their serialization (section "Serialization" of BIP 144, both formats) and the reference decoder
    that the theorems about emitted bytes are stated against. */
module Transaction {
  import opened Bytes

  datatype TxIn = TxIn(prevout: seq<byte>, script: seq<byte>, sequence: seq<byte>)

  datatype TxOut = TxOut(value: nat, script: seq<byte>)

  /** One witness stack per input when `segwit`, none otherwise. */
  datatype Tx = Tx(version: seq<byte>, segwit: bool, ins: seq<TxIn>, outs: seq<TxOut>,
                   wits: seq<seq<seq<byte>>>, locktime: seq<byte>)

  predicate WfIn(i: TxIn) { |i.prevout| == 36 && |i.script| < U64 && |i.sequence| == 4 }

  predicate WfOut(o: TxOut) { o.value < U64 && |o.script| < U64 }

  predicate WfStack(w: seq<seq<byte>>) { |w| < U64 && forall x :: x in w ==> |x| < U64 }

  predicate WfTx(t: Tx) {
    && |t.version| == 4 && |t.locktime| == 4
    && 1 <= |t.ins| < U64 && |t.outs| < U64
    && (forall i :: i in t.ins ==> WfIn(i))
    && (forall o :: o in t.outs ==> WfOut(o))
    && |t.wits| == (if t.segwit then |t.ins| else 0)
    && (forall w :: w in t.wits ==> WfStack(w))
  }

  // ---- encoding ----

  function EncList<T>(xs: seq<T>, enc: T -> seq<byte>): seq<byte> {
    if xs == [] then [] else enc(xs[0]) + EncList(xs[1..], enc)
  }

  lemma {:induction false} EncListConcat<T>(xs: seq<T>, ys: seq<T>, enc: T -> seq<byte>)
    ensures EncList(xs + ys, enc) == EncList(xs, enc) + EncList(ys, enc)
  {
    if xs == [] {
      assert xs + ys == ys;
    } else {
      assert (xs + ys)[1..] == xs[1..] + ys;
      EncListConcat(xs[1..], ys, enc);
    }
  }

  function EncIn(i: TxIn): seq<byte> { i.prevout + (Prefixed(i.script) + i.sequence) }

  function EncOut(o: TxOut): seq<byte> { Le(o.value, 8) + Prefixed(o.script) }

  function EncOuts(outs: seq<TxOut>): seq<byte> { EncList(outs, EncOut) }

  function EncStack(w: seq<seq<byte>>): seq<byte> { Varint(|w|) + EncList(w, Prefixed) }

  /** Version, then the marker and flag of the extended format. */
  function EncHead(t: Tx): seq<byte> { t.version + (if t.segwit then [0x00, 0x01] else []) }

  function EncInputs(t: Tx): seq<byte> { Varint(|t.ins|) + EncList(t.ins, EncIn) }

  function EncTail(t: Tx): seq<byte> { EncList(t.wits, EncStack) + t.locktime }

  function EncTx(t: Tx): seq<byte> {
    EncHead(t) + (EncInputs(t) + (Varint(|t.outs|) + (EncOuts(t.outs) + EncTail(t))))
  }

  // ---- the reference decoder: None unless the buffer holds every field in full ----

  function DecList<T>(buf: seq<byte>, off: nat, n: nat, dec: (seq<byte>, nat) -> Option<(T, nat)>)
    : (r: Option<(seq<T>, nat)>)
    ensures r.Some? ==> |r.value.0| == n
    decreases n
  {
    if n == 0 then Some(([], off))
    else
      var (x, p) :- dec(buf, off);
      var (xs, q) :- DecList(buf, p, n - 1, dec);
      Some(([x] + xs, q))
  }

  function DecFixed(buf: seq<byte>, off: nat, n: nat): Option<(seq<byte>, nat)> {
    if off + n <= |buf| then Some((buf[off..off + n], off + n)) else None
  }

  function DecIn(buf: seq<byte>, off: nat): Option<(TxIn, nat)> {
    var (prevout, p) :- DecFixed(buf, off, 36);
    var (script, q) :- ReadPrefixed(buf, p);
    var (sequence, r) :- DecFixed(buf, q, 4);
    Some((TxIn(prevout, script, sequence), r))
  }

  function DecOut(buf: seq<byte>, off: nat): Option<(TxOut, nat)> {
    var (value, p) :- ReadLe(buf, off, 8);
    var (script, q) :- ReadPrefixed(buf, p);
    Some((TxOut(value, script), q))
  }

  function DecStack(buf: seq<byte>, off: nat): Option<(seq<seq<byte>>, nat)> {
    var (n, p) :- ReadVarint(buf, off);
    DecList(buf, p, n, ReadPrefixed)
  }

  predicate SegwitMark(buf: seq<byte>, off: nat) {
    off + 1 < |buf| && buf[off] == 0x00 && buf[off + 1] == 0x01
  }

  function DecTx(buf: seq<byte>, off: nat): Option<(Tx, nat)> {
    var (version, p) :- DecFixed(buf, off, 4);
    var segwit := SegwitMark(buf, p);
    var (nIn, p1) :- ReadVarint(buf, if segwit then p + 2 else p);
    var (ins, p2) :- DecList(buf, p1, nIn, DecIn);
    var (nOut, p3) :- ReadVarint(buf, p2);
    var (outs, p4) :- DecList(buf, p3, nOut, DecOut);
    var (wits, p5) :- DecList(buf, p4, if segwit then nIn else 0, DecStack);
    var (locktime, p6) :- DecFixed(buf, p5, 4);
    Some((Tx(version, segwit, ins, outs, wits, locktime), p6))
  }

  // ---- decoding undoes encoding ----

  lemma InRoundTrip(buf: seq<byte>, off: nat, i: TxIn)
    requires WfIn(i) && At(buf, off, EncIn(i))
    ensures DecIn(buf, off) == Some((i, off + |EncIn(i)|))
  {
    AtConcat(buf, off, i.prevout, Prefixed(i.script) + i.sequence);
    AtConcat(buf, off + 36, Prefixed(i.script), i.sequence);
    PrefixedRoundTrip(buf, off + 36, i.script);
  }

  lemma OutRoundTrip(buf: seq<byte>, off: nat, o: TxOut)
    requires WfOut(o) && At(buf, off, EncOut(o))
    ensures DecOut(buf, off) == Some((o, off + |EncOut(o)|))
  {
    Pow256Values();
    AtConcat(buf, off, Le(o.value, 8), Prefixed(o.script));
    ReadLeAt(buf, off, o.value, 8);
    PrefixedRoundTrip(buf, off + 8, o.script);
  }

  lemma ListStep<T>(buf: seq<byte>, off: nat, xs: seq<T>, mid: nat, end: nat, dec: (seq<byte>, nat) -> Option<(T, nat)>)
    requires xs != [] && dec(buf, off) == Some((xs[0], mid))
    requires DecList(buf, mid, |xs| - 1, dec) == Some((xs[1..], end))
    ensures DecList(buf, off, |xs|, dec) == Some((xs, end))
  {
    assert [xs[0]] + xs[1..] == xs;
  }

  lemma {:induction false} ItemsRoundTrip(buf: seq<byte>, off: nat, items: seq<seq<byte>>)
    requires (forall x :: x in items ==> |x| < U64) && At(buf, off, EncList(items, Prefixed))
    ensures DecList(buf, off, |items|, ReadPrefixed) == Some((items, off + |EncList(items, Prefixed)|))
    decreases |items|
  {
    hide At, Prefixed, ReadPrefixed;
    if items != [] {
      AtConcat(buf, off, Prefixed(items[0]), EncList(items[1..], Prefixed));
      PrefixedRoundTrip(buf, off, items[0]);
      ItemsRoundTrip(buf, off + |Prefixed(items[0])|, items[1..]);
      ListStep(buf, off, items, off + |Prefixed(items[0])|, off + |EncList(items, Prefixed)|, ReadPrefixed);
    }
  }

  lemma StackRoundTrip(buf: seq<byte>, off: nat, w: seq<seq<byte>>)
    requires WfStack(w) && At(buf, off, EncStack(w))
    ensures DecStack(buf, off) == Some((w, off + |EncStack(w)|))
  {
    hide At, DecList, EncList, ReadVarint, Varint;
    AtConcat(buf, off, Varint(|w|), EncList(w, Prefixed));
    VarintRoundTrip(buf, off, |w|);
    ItemsRoundTrip(buf, off + |Varint(|w|)|, w);
  }

  lemma {:induction false} InsRoundTrip(buf: seq<byte>, off: nat, ins: seq<TxIn>)
    requires (forall x :: x in ins ==> WfIn(x)) && At(buf, off, EncList(ins, EncIn))
    ensures DecList(buf, off, |ins|, DecIn) == Some((ins, off + |EncList(ins, EncIn)|))
    decreases |ins|
  {
    hide At, EncIn, DecIn, WfIn;
    if ins != [] {
      AtConcat(buf, off, EncIn(ins[0]), EncList(ins[1..], EncIn));
      InRoundTrip(buf, off, ins[0]);
      InsRoundTrip(buf, off + |EncIn(ins[0])|, ins[1..]);
      ListStep(buf, off, ins, off + |EncIn(ins[0])|, off + |EncList(ins, EncIn)|, DecIn);
    }
  }

  lemma {:induction false} OutsRoundTrip(buf: seq<byte>, off: nat, outs: seq<TxOut>)
    requires (forall x :: x in outs ==> WfOut(x)) && At(buf, off, EncOuts(outs))
    ensures DecList(buf, off, |outs|, DecOut) == Some((outs, off + |EncOuts(outs)|))
    decreases |outs|
  {
    hide At, EncOut, DecOut, WfOut;
    if outs != [] {
      AtConcat(buf, off, EncOut(outs[0]), EncList(outs[1..], EncOut));
      OutRoundTrip(buf, off, outs[0]);
      OutsRoundTrip(buf, off + |EncOut(outs[0])|, outs[1..]);
      ListStep(buf, off, outs, off + |EncOut(outs[0])|, off + |EncList(outs, EncOut)|, DecOut);
    }
  }

  lemma {:induction false} WitsRoundTrip(buf: seq<byte>, off: nat, wits: seq<seq<seq<byte>>>)
    requires (forall x :: x in wits ==> WfStack(x)) && At(buf, off, EncList(wits, EncStack))
    ensures DecList(buf, off, |wits|, DecStack) == Some((wits, off + |EncList(wits, EncStack)|))
    decreases |wits|
  {
    hide At, EncStack, DecStack, WfStack;
    if wits != [] {
      AtConcat(buf, off, EncStack(wits[0]), EncList(wits[1..], EncStack));
      StackRoundTrip(buf, off, wits[0]);
      WitsRoundTrip(buf, off + |EncStack(wits[0])|, wits[1..]);
      ListStep(buf, off, wits, off + |EncStack(wits[0])|, off + |EncList(wits, EncStack)|, DecStack);
    }
  }

  /** The positions of the five parts of a serialized transaction. */
  lemma TxParts(buf: seq<byte>, off: nat, t: Tx)
    requires At(buf, off, EncTx(t))
    ensures At(buf, off, EncHead(t))
    ensures var p := off + |EncHead(t)|;
            && At(buf, p, EncInputs(t))
            && var q := p + |EncInputs(t)|;
            && At(buf, q, Varint(|t.outs|))
            && At(buf, q + |Varint(|t.outs|)|, EncOuts(t.outs))
            && At(buf, q + |Varint(|t.outs|)| + |EncOuts(t.outs)|, EncTail(t))
            && off + |EncTx(t)| == q + |Varint(|t.outs|)| + |EncOuts(t.outs)| + |EncTail(t)|
  {
    hide At, EncInputs, EncHead, EncTail, Varint, EncOuts;
    var outsTail := EncOuts(t.outs) + EncTail(t);
    var countOuts := Varint(|t.outs|) + outsTail;
    AtConcat(buf, off, EncHead(t), EncInputs(t) + countOuts);
    var p := off + |EncHead(t)|;
    AtConcat(buf, p, EncInputs(t), countOuts);
    var q := p + |EncInputs(t)|;
    AtConcat(buf, q, Varint(|t.outs|), outsTail);
    AtConcat(buf, q + |Varint(|t.outs|)|, EncOuts(t.outs), EncTail(t));
  }

  /** Version and marker are read back; a transaction with at least one input is never mistaken for the other format. */
  lemma HeadRoundTrip(buf: seq<byte>, off: nat, t: Tx)
    requires WfTx(t) && At(buf, off, EncHead(t)) && At(buf, off + |EncHead(t)|, EncInputs(t))
    ensures DecFixed(buf, off, 4) == Some((t.version, off + 4))
    ensures SegwitMark(buf, off + 4) == t.segwit
    ensures off + |EncHead(t)| == (if t.segwit then off + 6 else off + 4)
    ensures ReadVarint(buf, off + |EncHead(t)|) == Some((|t.ins|, off + |EncHead(t)| + |Varint(|t.ins|)|))
  {
    hide EncList, Varint, ReadVarint;
    var p := off + |EncHead(t)|;
    var mark: seq<byte> := if t.segwit then [0x00, 0x01] else [];
    AtConcat(buf, off, t.version, mark);
    AtConcat(buf, p, Varint(|t.ins|), EncList(t.ins, EncIn));
    VarintRoundTrip(buf, p, |t.ins|);
    if t.segwit {
      AtHead(buf, off + 4, 0x00, [0x01]);
      AtHead(buf, off + 5, 0x01, []);
    } else {
      AtHead(buf, p, Varint(|t.ins|)[0], Varint(|t.ins|)[1..]);
    }
  }

  /** Every well-formed transaction, in either format, is decoded to itself and nothing more is consumed. */
  lemma TxRoundTrip(buf: seq<byte>, off: nat, t: Tx)
    requires WfTx(t) && At(buf, off, EncTx(t))
    ensures DecTx(buf, off) == Some((t, off + |EncTx(t)|))
  {
    hide DecList, EncList, DecIn, DecOut, DecStack, EncHead, ReadVarint, Varint, SegwitMark, EncTx;
    TxParts(buf, off, t);
    HeadRoundTrip(buf, off, t);
    var p := off + |EncHead(t)|;
    AtConcat(buf, p, Varint(|t.ins|), EncList(t.ins, EncIn));
    InsRoundTrip(buf, p + |Varint(|t.ins|)|, t.ins);
    var q := p + |EncInputs(t)|;
    VarintRoundTrip(buf, q, |t.outs|);
    OutsRoundTrip(buf, q + |Varint(|t.outs|)|, t.outs);
    var r := q + |Varint(|t.outs|)| + |EncOuts(t.outs)|;
    AtConcat(buf, r, EncList(t.wits, EncStack), t.locktime);
    WitsRoundTrip(buf, r, t.wits);
  }
}
