/** Splicing the signet commitment into a serialized block (infra/signet-signer.py).
    The merkle root is a parameter: hashing is outside the model. */
module Injector {
  import opened Bytes
  import opened Script
  import opened Transaction

  const SIGNET_HEADER: seq<byte> := [0xec, 0xc7, 0xda, 0xa2]

  // ---- the proxy's own scanner: a field is only looked at when its length is read ----

  type Skipper = (seq<byte>, nat) -> Option<nat>

  function SkipList(buf: seq<byte>, off: nat, n: nat, skip: Skipper): Option<nat>
    decreases n
  {
    if n == 0 then Some(off)
    else
      var p :- skip(buf, off);
      SkipList(buf, p, n - 1, skip)
  }

  function SkipIn(buf: seq<byte>, off: nat): Option<nat> {
    var (n, p) :- ReadVarint(buf, off + 36);
    Some(p + n + 4)
  }

  function SkipOut(buf: seq<byte>, off: nat): Option<nat> {
    var (n, p) :- ReadVarint(buf, off + 8);
    Some(p + n)
  }

  function SkipItem(buf: seq<byte>, off: nat): Option<nat> {
    var (n, p) :- ReadVarint(buf, off);
    Some(p + n)
  }

  function SkipStack(buf: seq<byte>, off: nat): Option<nat> {
    var (n, p) :- ReadVarint(buf, off);
    SkipList(buf, p, n, SkipItem)
  }

  /** The test for the marker; None where it reads past the end. */
  function TestMark(buf: seq<byte>, off: nat): Option<bool> {
    if off >= |buf| then None
    else if buf[off] != 0x00 then Some(false)
    else if off + 1 >= |buf| then None
    else Some(buf[off + 1] == 0x01)
  }

  /** A slice with both ends clamped to the buffer. */
  function Slice(buf: seq<byte>, lo: nat, hi: nat): seq<byte> {
    if lo >= |buf| || hi <= lo then []
    else if hi <= |buf| then buf[lo..hi]
    else buf[lo..]
  }

  /** Where scanning one transaction stops. */
  function ScanTx(buf: seq<byte>, off: nat): Option<nat> {
    if off + 4 > |buf| then None
    else
      var segwit :- TestMark(buf, off + 4);
      var (nIn, p1) :- ReadVarint(buf, if segwit then off + 6 else off + 4);
      var p2 :- SkipList(buf, p1, nIn, SkipIn);
      var (nOut, p3) :- ReadVarint(buf, p2);
      var p4 :- SkipList(buf, p3, nOut, SkipOut);
      var p5 :- SkipList(buf, p4, if segwit then nIn else 0, SkipStack);
      Some(p5 + 4)
  }

  method SkipInputs(buf: seq<byte>, off: nat, n: nat) returns (r: Option<nat>)
    ensures r == SkipList(buf, off, n, SkipIn)
  {
    var p := off;
    for i := 0 to n
      invariant SkipList(buf, off, n, SkipIn) == SkipList(buf, p, n - i, SkipIn)
    {
      var s := ReadVarint(buf, p + 36);
      if s.None? {
        return None;
      }
      p := s.value.1 + s.value.0 + 4;
    }
    return Some(p);
  }

  method SkipOutputs(buf: seq<byte>, off: nat, n: nat) returns (r: Option<nat>)
    ensures r == SkipList(buf, off, n, SkipOut)
  {
    var p := off;
    for i := 0 to n
      invariant SkipList(buf, off, n, SkipOut) == SkipList(buf, p, n - i, SkipOut)
    {
      var s := ReadVarint(buf, p + 8);
      if s.None? {
        return None;
      }
      p := s.value.1 + s.value.0;
    }
    return Some(p);
  }

  method SkipWitnesses(buf: seq<byte>, off: nat, n: nat) returns (r: Option<nat>)
    ensures r == SkipList(buf, off, n, SkipStack)
  {
    hide ReadVarint;
    var p := off;
    for i := 0 to n
      invariant SkipList(buf, off, n, SkipStack) == SkipList(buf, p, n - i, SkipStack)
    {
      var c := ReadVarint(buf, p);
      if c.None? {
        return None;
      }
      var q := SkipItems(buf, c.value.1, c.value.0);
      if q.None? {
        return None;
      }
      p := q.value;
    }
    return Some(p);
  }

  method SkipItems(buf: seq<byte>, off: nat, n: nat) returns (r: Option<nat>)
    ensures r == SkipList(buf, off, n, SkipItem)
  {
    hide ReadVarint;
    var q := off;
    for k := 0 to n
      invariant SkipList(buf, off, n, SkipItem) == SkipList(buf, q, n - k, SkipItem)
    {
      var s := ReadVarint(buf, q);
      if s.None? {
        return None;
      }
      q := s.value.1 + s.value.0;
    }
    return Some(q);
  }

  /** The bytes of the transaction starting at `off` and the position after it. */
  method ParseTx(buf: seq<byte>, off: nat) returns (r: Option<(seq<byte>, nat)>)
    ensures r.Some? <==> ScanTx(buf, off).Some?
    ensures r.Some? ==> r.value == (Slice(buf, off, ScanTx(buf, off).value), ScanTx(buf, off).value)
  {
    hide ReadVarint, SkipList, TestMark, Slice;
    if off + 4 > |buf| {
      return None;
    }
    var p := off + 4;
    var segwit := TestMark(buf, p);
    if segwit.None? {
      return None;
    }
    if segwit.value {
      p := p + 2;
    }
    var nIn := ReadVarint(buf, p);
    if nIn.None? {
      return None;
    }
    var s := SkipInputs(buf, nIn.value.1, nIn.value.0);
    if s.None? {
      return None;
    }
    var nOut := ReadVarint(buf, s.value);
    if nOut.None? {
      return None;
    }
    s := SkipOutputs(buf, nOut.value.1, nOut.value.0);
    if s.None? {
      return None;
    }
    if segwit.value {
      s := SkipWitnesses(buf, s.value, nIn.value.0);
      if s.None? {
        return None;
      }
    }
    NothingSkipped(buf, s.value);
    p := s.value + 4;
    return Some((Slice(buf, off, p), p));
  }

  lemma NothingSkipped(buf: seq<byte>, off: nat)
    ensures SkipList(buf, off, 0, SkipStack) == Some(off)
  {
  }

  // ---- the edit ----

  function CommitmentScript(sig: seq<byte>): Option<seq<byte>> {
    var p :- Push(SIGNET_HEADER + sig);
    Some([0x6a] + p)
  }

  /** The coinbase with one more output between its outputs and what follows them. */
  function Splice(cb: seq<byte>, script: seq<byte>): Option<seq<byte>> {
    var segwit :- TestMark(cb, 4);
    var (nIn, p1) :- ReadVarint(cb, if segwit then 6 else 4);
    var countOff :- SkipList(cb, p1, nIn, SkipIn);
    var (nOut, outStart) :- ReadVarint(cb, countOff);
    var outEnd :- SkipList(cb, outStart, nOut, SkipOut);
    if nOut + 1 >= U64 then None
    else
      Some(Slice(cb, 0, countOff) + Varint(nOut + 1) + Slice(cb, outStart, outEnd)
           + (Le(0, 8) + Prefixed(script)) + Slice(cb, outEnd, |cb|))
  }

  function InjectSpec(block: seq<byte>, sig: seq<byte>, merkle: seq<byte>): Option<seq<byte>>
    requires |merkle| == 32
  {
    var (nTx, off) :- ReadVarint(block, 80);
    var p :- ScanTx(block, off);
    var rest := Slice(block, p, |block|);
    var script :- CommitmentScript(sig);
    var cb :- Splice(Slice(block, off, p), script);
    var _ :- SkipList(rest, 0, if nTx == 0 then 0 else nTx - 1, ScanTx);
    Some(block[..36] + merkle + block[68..80] + Varint(nTx) + cb + rest)
  }

  method SpliceOutput(cb: seq<byte>, script: seq<byte>) returns (r: Option<seq<byte>>)
    ensures r == Splice(cb, script)
  {
    var inner := 4;
    var segwit := TestMark(cb, inner);
    if segwit.None? {
      return None;
    }
    if segwit.value {
      inner := inner + 2;
    }
    var nIn := ReadVarint(cb, inner);
    if nIn.None? {
      return None;
    }
    var s := SkipInputs(cb, nIn.value.1, nIn.value.0);
    if s.None? {
      return None;
    }
    var countOff := s.value;
    var nOut := ReadVarint(cb, countOff);
    if nOut.None? {
      return None;
    }
    var outStart := nOut.value.1;
    s := SkipOutputs(cb, outStart, nOut.value.0);
    if s.None? || nOut.value.0 + 1 >= U64 {
      return None;
    }
    var outEnd := s.value;
    var newOutput := Le(0, 8) + Prefixed(script);
    return Some(Slice(cb, 0, countOff) + Varint(nOut.value.0 + 1) + Slice(cb, outStart, outEnd)
                + newOutput + Slice(cb, outEnd, |cb|));
  }

  /** Adds the commitment to a serialized block; None where the proxy raises and submits the block unsigned. */
  method Inject(block: seq<byte>, sig: seq<byte>, merkle: seq<byte>) returns (r: Option<seq<byte>>)
    requires |merkle| == 32
    ensures r == InjectSpec(block, sig, merkle)
  {
    hide Splice, ScanTx, CommitmentScript, ReadVarint, Varint, Slice;
    var nTx := ReadVarint(block, 80);
    if nTx.None? {
      return None;
    }
    var tx := ParseTx(block, nTx.value.1);
    if tx.None? {
      return None;
    }
    var rest := Slice(block, tx.value.1, |block|);
    var script := CommitmentScript(sig);
    if script.None? {
      return None;
    }
    var cb := SpliceOutput(tx.value.0, script.value);
    if cb.None? {
      return None;
    }
    var p := 0;
    var later := if nTx.value.0 == 0 then 0 else nTx.value.0 - 1;
    for i := 0 to later
      invariant SkipList(rest, 0, later, ScanTx) == SkipList(rest, p, later - i, ScanTx)
    {
      var t := ParseTx(rest, p);
      if t.None? {
        return None;
      }
      p := t.value.1;
    }
    return Some(block[..36] + merkle + block[68..80] + Varint(nTx.value.0) + cb.value + rest);
  }

  // ---- whatever the bytes are, nothing of them is lost ----

  lemma SliceJoins(buf: seq<byte>, lo: nat, mid: nat)
    requires lo <= |buf| && lo <= mid
    ensures Slice(buf, lo, mid) + Slice(buf, mid, |buf|) == buf[lo..]
  {
  }

  lemma ReadLeLonger(buf: seq<byte>, more: seq<byte>, off: nat, w: nat)
    requires ReadLe(buf, off, w).Some?
    ensures ReadLe(buf + more, off, w) == ReadLe(buf, off, w)
  {
    assert (buf + more)[off..off + w] == buf[off..off + w];
  }

  lemma ReadLonger(buf: seq<byte>, more: seq<byte>, off: nat)
    requires ReadVarint(buf, off).Some?
    ensures ReadVarint(buf + more, off) == ReadVarint(buf, off)
  {
    hide ReadLe;
    if buf[off] >= 0xfd {
      ReadLeLonger(buf, more, off + 1, if buf[off] == 0xfd then 2 else if buf[off] == 0xfe then 4 else 8);
    }
  }

  lemma {:induction false} SkipsForward(buf: seq<byte>, off: nat, n: nat, skip: Skipper)
    requires forall p :: skip(buf, p).Some? ==> skip(buf, p).value >= p
    requires SkipList(buf, off, n, skip).Some?
    ensures SkipList(buf, off, n, skip).value >= off
    decreases n
  {
    if n > 0 {
      SkipsForward(buf, skip(buf, off).value, n - 1, skip);
    }
  }

  /** The places the splice cuts at: the output count, the outputs, what follows them. */
  lemma SplicePlaces(cb: seq<byte>, script: seq<byte>) returns (countOff: nat, n: nat, outStart: nat, outEnd: nat)
    requires Splice(cb, script).Some?
    ensures ReadVarint(cb, countOff) == Some((n, outStart)) && countOff < outStart <= |cb| && outStart <= outEnd
    ensures Splice(cb, script).value
         == Slice(cb, 0, countOff) + Varint(n + 1) + Slice(cb, outStart, outEnd)
            + (Le(0, 8) + Prefixed(script)) + Slice(cb, outEnd, |cb|)
  {
    hide ReadVarint, Varint, SkipList, Slice, Le;
    var segwit := TestMark(cb, 4).value;
    var (nIn, p1) := ReadVarint(cb, if segwit then 6 else 4).value;
    countOff := SkipList(cb, p1, nIn, SkipIn).value;
    n, outStart := ReadVarint(cb, countOff).value.0, ReadVarint(cb, countOff).value.1;
    outEnd := SkipList(cb, outStart, n, SkipOut).value;
    OutForward(cb);
    SkipsForward(cb, outStart, n, SkipOut);
  }

  /** The splice keeps every byte: before the output count `a`, in its place the count raised by one, the outputs `b`,
      the new output, and the rest `c`. */
  lemma SpliceInserts(cb: seq<byte>, script: seq<byte>) returns (a: seq<byte>, n: nat, b: seq<byte>, c: seq<byte>)
    requires Splice(cb, script).Some?
    ensures ReadVarint(cb, |a|).Some? && ReadVarint(cb, |a|).value.0 == n
    ensures cb == a + cb[|a|..ReadVarint(cb, |a|).value.1] + b + c
    ensures Splice(cb, script).value
         == a + Varint(n + 1) + b + ([0, 0, 0, 0, 0, 0, 0, 0] + (Varint(|script|) + script)) + c
  {
    hide ReadVarint, Varint, Splice;
    var countOff, count, outStart, outEnd := SplicePlaces(cb, script);
    SliceJoins(cb, outStart, outEnd);
    EightZeros();
    assert Slice(cb, 0, countOff) == cb[..countOff];
    hide Slice, Le;
    a, n, b, c := cb[..countOff], count, Slice(cb, outStart, outEnd), Slice(cb, outEnd, |cb|);
    Cut(cb, countOff, outStart, b, c);
  }

  lemma Cut(s: seq<byte>, i: nat, k: nat, b: seq<byte>, c: seq<byte>)
    requires i <= k <= |s| && b + c == s[k..]
    ensures s == s[..i] + s[i..k] + b + c
  {
    assert s[..i] + s[i..k] + b + c == s[..i] + s[i..k] + (b + c);
  }

  lemma OutForward(buf: seq<byte>)
    ensures forall p :: SkipOut(buf, p).Some? ==> SkipOut(buf, p).value >= p
  {
    hide ReadVarint;
  }

  lemma EightZeros()
    ensures Le(0, 8) == [0, 0, 0, 0, 0, 0, 0, 0]
  {
    assert Le(0, 4) == [0, 0, 0, 0] && Le(0, 8) == [0, 0, 0, 0] + Le(0, 4);
  }

  /** For every block the injection succeeds on, well formed or not: the result has the block's own header but for the
      32 bytes of the merkle root, its transaction count, and all its further bytes in order, with the coinbase's output
      count raised by one and one zero-value output inserted. */
  lemma InjectInserts(block: seq<byte>, sig: seq<byte>, merkle: seq<byte>)
    returns (script: seq<byte>, nTx: nat, off: nat, a: seq<byte>, n: nat, count: seq<byte>, b: seq<byte>, c: seq<byte>)
    requires |merkle| == 32 && InjectSpec(block, sig, merkle).Some?
    ensures ReadVarint(block, 80) == Some((nTx, off))
    ensures block[off..] == a + count + b + c
    ensures ReadVarint(block[off..], |a|) == Some((n, |a| + |count|))
    ensures CommitmentScript(sig) == Some(script)
    ensures InjectSpec(block, sig, merkle).value
         == block[..36] + merkle + block[68..80] + Varint(nTx)
            + (a + Varint(n + 1) + b + ([0, 0, 0, 0, 0, 0, 0, 0] + (Varint(|script|) + script)) + c)
  {
    hide ReadVarint, Varint, SkipList, Splice, CommitmentScript, Slice, ScanTx;
    nTx, off := ReadVarint(block, 80).value.0, ReadVarint(block, 80).value.1;
    var p := ScanTx(block, off).value;
    ScanForward(block, off);
    script := CommitmentScript(sig).value;
    var cb, rest := Slice(block, off, p), Slice(block, p, |block|);
    assert InjectSpec(block, sig, merkle).value
        == block[..36] + merkle + block[68..80] + Varint(nTx) + Splice(cb, script).value + rest;
    SliceJoins(block, off, p);
    hide InjectSpec;
    var tail;
    a, n, b, tail := SpliceInserts(cb, script);
    count := cb[|a|..ReadVarint(cb, |a|).value.1];
    c := tail + rest;
    ReadLonger(cb, rest, |a|);
    Trailing(a, count, b, [], tail, rest);
    Trailing(a, Varint(n + 1), b, [0, 0, 0, 0, 0, 0, 0, 0] + (Varint(|script|) + script), tail, rest);
    assert block[off..] == (a + count + b + tail) + rest;
    Rejoin(block[..36] + merkle + block[68..80] + Varint(nTx), Splice(cb, script).value, rest);
  }

  lemma Trailing(a: seq<byte>, n: seq<byte>, b: seq<byte>, o: seq<byte>, tail: seq<byte>, rest: seq<byte>)
    ensures (a + n + b + o + tail) + rest == a + n + b + o + (tail + rest)
    ensures (a + n + b + tail) + rest == a + n + b + (tail + rest)
  {
  }

  lemma Rejoin(front: seq<byte>, mid: seq<byte>, back: seq<byte>)
    ensures front + mid + back == front + (mid + back)
  {
  }

  lemma ScanForward(buf: seq<byte>, off: nat)
    requires ScanTx(buf, off).Some?
    ensures off <= |buf| && ScanTx(buf, off).value >= off
  {
    hide ReadVarint, SkipList;
    var segwit := TestMark(buf, off + 4).value;
    var (nIn, p1) := ReadVarint(buf, if segwit then off + 6 else off + 4).value;
    var p2 := SkipList(buf, p1, nIn, SkipIn).value;
    var (nOut, p3) := ReadVarint(buf, p2).value;
    var p4 := SkipList(buf, p3, nOut, SkipOut).value;
    AllForward(buf);
    SkipsForward(buf, p1, nIn, SkipIn);
    SkipsForward(buf, p3, nOut, SkipOut);
    SkipsForward(buf, p4, if segwit then nIn else 0, SkipStack);
  }

  lemma AllForward(buf: seq<byte>)
    ensures forall p :: SkipIn(buf, p).Some? ==> SkipIn(buf, p).value >= p
    ensures forall p :: SkipOut(buf, p).Some? ==> SkipOut(buf, p).value >= p
    ensures forall p :: SkipStack(buf, p).Some? ==> SkipStack(buf, p).value >= p
  {
    hide ReadVarint;
    forall p | SkipStack(buf, p).Some? ensures SkipStack(buf, p).value >= p {
      var (n, q) := ReadVarint(buf, p).value;
      SkipsForward(buf, q, n, SkipItem);
    }
  }

  // ---- the scanner agrees with the reference decoder wherever the latter succeeds ----

  lemma {:induction false} SkipInsAgrees(buf: seq<byte>, off: nat, n: nat)
    requires DecList(buf, off, n, DecIn).Some?
    ensures SkipList(buf, off, n, SkipIn) == Some(DecList(buf, off, n, DecIn).value.1)
    decreases n
  {
    hide ReadVarint;
    if n > 0 {
      SkipInsAgrees(buf, DecIn(buf, off).value.1, n - 1);
    }
  }

  lemma {:induction false} SkipOutsAgrees(buf: seq<byte>, off: nat, n: nat)
    requires DecList(buf, off, n, DecOut).Some?
    ensures SkipList(buf, off, n, SkipOut) == Some(DecList(buf, off, n, DecOut).value.1)
    decreases n
  {
    hide ReadVarint;
    if n > 0 {
      SkipOutsAgrees(buf, DecOut(buf, off).value.1, n - 1);
    }
  }

  lemma {:induction false} SkipItemsAgrees(buf: seq<byte>, off: nat, n: nat)
    requires DecList(buf, off, n, ReadPrefixed).Some?
    ensures SkipList(buf, off, n, SkipItem) == Some(DecList(buf, off, n, ReadPrefixed).value.1)
    decreases n
  {
    if n > 0 {
      SkipItemsAgrees(buf, ReadPrefixed(buf, off).value.1, n - 1);
    }
  }

  lemma {:induction false} SkipStacksAgrees(buf: seq<byte>, off: nat, n: nat)
    requires DecList(buf, off, n, DecStack).Some?
    ensures SkipList(buf, off, n, SkipStack) == Some(DecList(buf, off, n, DecStack).value.1)
    decreases n
  {
    if n > 0 {
      var (m, p) := ReadVarint(buf, off).value;
      SkipItemsAgrees(buf, p, m);
      SkipStacksAgrees(buf, DecStack(buf, off).value.1, n - 1);
    }
  }

  lemma MarkAgrees(buf: seq<byte>, off: nat)
    requires DecTx(buf, off).Some?
    ensures TestMark(buf, off + 4) == Some(SegwitMark(buf, off + 4))
  {
  }

  /** Whatever the reference decoder accepts, the proxy scans to the same end. */
  lemma ScanAgrees(buf: seq<byte>, off: nat)
    requires DecTx(buf, off).Some?
    ensures ScanTx(buf, off) == Some(DecTx(buf, off).value.1)
  {
    hide DecList, SkipList, ReadVarint, TestMark;
    MarkAgrees(buf, off);
    var segwit := SegwitMark(buf, off + 4);
    var (nIn, p1) := ReadVarint(buf, if segwit then off + 6 else off + 4).value;
    SkipInsAgrees(buf, p1, nIn);
    var p2 := DecList(buf, p1, nIn, DecIn).value.1;
    var (nOut, p3) := ReadVarint(buf, p2).value;
    SkipOutsAgrees(buf, p3, nOut);
    var p4 := DecList(buf, p3, nOut, DecOut).value.1;
    SkipStacksAgrees(buf, p4, if segwit then nIn else 0);
  }

  lemma {:induction false} SkipInsSound(buf: seq<byte>, off: nat, n: nat)
    requires SkipList(buf, off, n, SkipIn).Some? && SkipList(buf, off, n, SkipIn).value <= |buf|
    ensures DecList(buf, off, n, DecIn).Some?
    decreases n
  {
    hide ReadVarint;
    if n > 0 {
      AllForward(buf);
      SkipsForward(buf, SkipIn(buf, off).value, n - 1, SkipIn);
      SkipInsSound(buf, SkipIn(buf, off).value, n - 1);
    }
  }

  lemma {:induction false} SkipOutsSound(buf: seq<byte>, off: nat, n: nat)
    requires SkipList(buf, off, n, SkipOut).Some? && SkipList(buf, off, n, SkipOut).value <= |buf|
    ensures DecList(buf, off, n, DecOut).Some?
    decreases n
  {
    hide ReadVarint;
    if n > 0 {
      AllForward(buf);
      SkipsForward(buf, SkipOut(buf, off).value, n - 1, SkipOut);
      SkipOutsSound(buf, SkipOut(buf, off).value, n - 1);
    }
  }

  lemma {:induction false} SkipItemsSound(buf: seq<byte>, off: nat, n: nat)
    requires SkipList(buf, off, n, SkipItem).Some? && SkipList(buf, off, n, SkipItem).value <= |buf|
    ensures DecList(buf, off, n, ReadPrefixed).Some?
    decreases n
  {
    hide ReadVarint;
    if n > 0 {
      SkipsForward(buf, SkipItem(buf, off).value, n - 1, SkipItem);
      SkipItemsSound(buf, SkipItem(buf, off).value, n - 1);
    }
  }

  lemma {:induction false} SkipStacksSound(buf: seq<byte>, off: nat, n: nat)
    requires SkipList(buf, off, n, SkipStack).Some? && SkipList(buf, off, n, SkipStack).value <= |buf|
    ensures DecList(buf, off, n, DecStack).Some?
    decreases n
  {
    hide ReadVarint;
    if n > 0 {
      AllForward(buf);
      SkipsForward(buf, SkipStack(buf, off).value, n - 1, SkipStack);
      var (m, p) := ReadVarint(buf, off).value;
      SkipItemsSound(buf, p, m);
      SkipItemsAgrees(buf, p, m);
      SkipStacksSound(buf, SkipStack(buf, off).value, n - 1);
    }
  }

  /** And where the proxy's scan ends inside the buffer, the reference decoder reads a transaction to the same end. */
  lemma ScanSound(buf: seq<byte>, off: nat)
    requires ScanTx(buf, off).Some? && ScanTx(buf, off).value <= |buf|
    ensures DecTx(buf, off).Some? && DecTx(buf, off).value.1 == ScanTx(buf, off).value
  {
    hide DecList, SkipList, ReadVarint;
    var segwit := TestMark(buf, off + 4).value;
    assert segwit == SegwitMark(buf, off + 4);
    var (nIn, p1) := ReadVarint(buf, if segwit then off + 6 else off + 4).value;
    var p2 := SkipList(buf, p1, nIn, SkipIn).value;
    var (nOut, p3) := ReadVarint(buf, p2).value;
    var p4 := SkipList(buf, p3, nOut, SkipOut).value;
    var p5 := SkipList(buf, p4, if segwit then nIn else 0, SkipStack).value;
    AllForward(buf);
    SkipsForward(buf, p3, nOut, SkipOut);
    SkipsForward(buf, p4, if segwit then nIn else 0, SkipStack);
    SkipInsSound(buf, p1, nIn);
    SkipInsAgrees(buf, p1, nIn);
    SkipOutsSound(buf, p3, nOut);
    SkipOutsAgrees(buf, p3, nOut);
    SkipStacksSound(buf, p4, if segwit then nIn else 0);
    SkipStacksAgrees(buf, p4, if segwit then nIn else 0);
  }

  /** The positions of `n` scans in a row. */
  ghost predicate Chain(buf: seq<byte>, offs: seq<nat>, n: nat) {
    |offs| == n + 1 && forall i :: 0 <= i < n ==> ScanTx(buf, offs[i]) == Some(offs[i + 1])
  }

  lemma {:induction false} ChainOf(buf: seq<byte>, off: nat, n: nat) returns (offs: seq<nat>)
    requires SkipList(buf, off, n, ScanTx).Some?
    ensures Chain(buf, offs, n) && offs[0] == off
    decreases n
  {
    hide ScanTx;
    offs := [off];
    if n > 0 {
      var rest := ChainOf(buf, ScanTx(buf, off).value, n - 1);
      offs := [off] + rest;
    }
  }

  lemma {:induction false} ChainScans(buf: seq<byte>, offs: seq<nat>, n: nat)
    requires Chain(buf, offs, n)
    ensures SkipList(buf, offs[0], n, ScanTx).Some?
    decreases n
  {
    hide ScanTx;
    if n > 0 {
      forall i | 0 <= i < n - 1 ensures ScanTx(buf, offs[1..][i]) == Some(offs[1..][i + 1]) {
        assert ScanTx(buf, offs[i + 1]) == Some(offs[i + 2]);
      }
      ChainScans(buf, offs[1..], n - 1);
    }
  }

  /** The block is submitted without a commitment exactly when its count, its coinbase, one of the announced
      transactions behind that, or the coinbase's own outputs cannot be scanned, or the signature is too long for a push
      or the coinbase's count for one more output. */
  lemma InjectSucceedsIff(block: seq<byte>, sig: seq<byte>, merkle: seq<byte>)
    requires |merkle| == 32
    ensures InjectSpec(block, sig, merkle).Some?
       <==> && |sig| + 4 < 0x1_0000_0000
            && ReadVarint(block, 80).Some?
            && var (nTx, off) := ReadVarint(block, 80).value;
            && ScanTx(block, off).Some?
            && var p := ScanTx(block, off).value;
            && Splice(Slice(block, off, p), []).Some?
            && exists offs :: Chain(Slice(block, p, |block|), offs, if nTx == 0 then 0 else nTx - 1) && offs[0] == 0
  {
    hide ScanTx, Slice, ReadVarint, Varint, SkipList;
    SomeScript(sig);
    hide CommitmentScript;
    if ReadVarint(block, 80).Some? && ScanTx(block, ReadVarint(block, 80).value.1).Some? {
      var (nTx, off) := ReadVarint(block, 80).value;
      var p := ScanTx(block, off).value;
      var rest, later := Slice(block, p, |block|), if nTx == 0 then 0 else nTx - 1;
      SpliceAny(Slice(block, off, p), sig);
      hide Splice;
      if SkipList(rest, 0, later, ScanTx).Some? {
        var offs := ChainOf(rest, 0, later);
      }
      if offs :| Chain(rest, offs, later) && offs[0] == 0 {
        ChainScans(rest, offs, later);
      }
    }
  }

  lemma SomeScript(sig: seq<byte>)
    ensures CommitmentScript(sig).Some? <==> |sig| + 4 < 0x1_0000_0000
  {
  }

  /** Whether the splice succeeds does not depend on the script. */
  lemma SpliceAny(cb: seq<byte>, sig: seq<byte>)
    ensures CommitmentScript(sig).Some? ==> (Splice(cb, CommitmentScript(sig).value).Some? <==> Splice(cb, []).Some?)
  {
    hide ReadVarint, Varint, SkipList, Slice, CommitmentScript;
  }

  // ---- blocks, and what the splice means for them ----

  datatype Block = Block(header: seq<byte>, txs: seq<Tx>)

  predicate WfBlock(b: Block) {
    |b.header| == 80 && 1 <= |b.txs| < U64 && forall t :: t in b.txs ==> WfTx(t)
  }

  function EncBlock(b: Block): seq<byte> { b.header + (Varint(|b.txs|) + EncList(b.txs, EncTx)) }

  function DecBlock(buf: seq<byte>): Option<(Block, nat)> {
    var (header, p) :- DecFixed(buf, 0, 80);
    var (n, q) :- ReadVarint(buf, p);
    var (txs, r) :- DecList(buf, q, n, DecTx);
    Some((Block(header, txs), r))
  }

  function AddOutput(t: Tx, o: TxOut): Tx { t.(outs := t.outs + [o]) }

  /** The block with its merkle root replaced and a zero-value output appended to its coinbase. */
  function Edited(b: Block, script: seq<byte>, merkle: seq<byte>): Block
    requires WfBlock(b)
  {
    Block(b.header[..36] + merkle + b.header[68..],
          [AddOutput(b.txs[0], TxOut(0, script))] + b.txs[1..])
  }

  lemma SliceAt(buf: seq<byte>, off: nat, s: seq<byte>)
    requires At(buf, off, s)
    ensures Slice(buf, off, off + |s|) == s
  {
  }

  lemma {:induction false} TxsRoundTrip(buf: seq<byte>, off: nat, txs: seq<Tx>)
    requires (forall t :: t in txs ==> WfTx(t)) && At(buf, off, EncList(txs, EncTx))
    ensures DecList(buf, off, |txs|, DecTx) == Some((txs, off + |EncList(txs, EncTx)|))
    ensures SkipList(buf, off, |txs|, ScanTx) == Some(off + |EncList(txs, EncTx)|)
    decreases |txs|
  {
    hide At, EncTx, DecTx, ScanTx, WfTx;
    if txs != [] {
      AtConcat(buf, off, EncTx(txs[0]), EncList(txs[1..], EncTx));
      TxRoundTrip(buf, off, txs[0]);
      ScanAgrees(buf, off);
      TxsRoundTrip(buf, off + |EncTx(txs[0])|, txs[1..]);
      assert [txs[0]] + txs[1..] == txs;
    }
  }

  lemma BlockRoundTrip(b: Block)
    requires WfBlock(b)
    ensures DecBlock(EncBlock(b)) == Some((b, |EncBlock(b)|))
  {
    hide EncTx, DecTx, DecList, EncList, WfTx, ReadVarint, Varint;
    var buf := EncBlock(b);
    var tail := Varint(|b.txs|) + EncList(b.txs, EncTx);
    AtSelf(buf);
    AtConcat(buf, 0, b.header, tail);
    AtConcat(buf, 80, Varint(|b.txs|), EncList(b.txs, EncTx));
    VarintRoundTrip(buf, 80, |b.txs|);
    TxsRoundTrip(buf, 80 + |Varint(|b.txs|)|, b.txs);
  }

  /** Where the output count, the outputs and what follows them begin. */
  function CountAt(t: Tx): nat { |EncHead(t)| + |EncInputs(t)| }

  function OutsAt(t: Tx): nat { CountAt(t) + |Varint(|t.outs|)| }

  function OutsEnd(t: Tx): nat { OutsAt(t) + |EncOuts(t.outs)| }

  lemma SpliceFindsInputs(t: Tx)
    requires WfTx(t)
    ensures TestMark(EncTx(t), 4) == Some(t.segwit)
    ensures var p := if t.segwit then 6 else 4; var p1 := p + |Varint(|t.ins|)|;
            && ReadVarint(EncTx(t), p) == Some((|t.ins|, p1))
            && SkipList(EncTx(t), p1, |t.ins|, SkipIn) == Some(CountAt(t))
  {
    hide DecList, EncList, SkipList, ReadVarint, Varint, At, EncTx, EncHead, TestMark;
    var cb := EncTx(t);
    AtSelf(cb);
    TxParts(cb, 0, t);
    HeadRoundTrip(cb, 0, t);
    MarkAgreesAt(cb, t);
    var p := |EncHead(t)|;
    AtConcat(cb, p, Varint(|t.ins|), EncList(t.ins, EncIn));
    InsRoundTrip(cb, p + |Varint(|t.ins|)|, t.ins);
    SkipInsAgrees(cb, p + |Varint(|t.ins|)|, |t.ins|);
  }

  lemma SpliceFindsOuts(t: Tx)
    requires WfTx(t)
    ensures ReadVarint(EncTx(t), CountAt(t)) == Some((|t.outs|, OutsAt(t)))
    ensures SkipList(EncTx(t), OutsAt(t), |t.outs|, SkipOut) == Some(OutsEnd(t))
  {
    var cb := EncTx(t);
    hide DecList, EncList, SkipList, ReadVarint, Varint, At, EncTx, EncHead, EncTail, EncInputs, EncOuts;
    AtSelf(cb);
    TxParts(cb, 0, t);
    VarintRoundTrip(cb, CountAt(t), |t.outs|);
    OutsRoundTrip(cb, OutsAt(t), t.outs);
    SkipOutsAgrees(cb, OutsAt(t), |t.outs|);
  }

  lemma SpliceKeeps(t: Tx)
    ensures Slice(EncTx(t), 0, CountAt(t)) == EncHead(t) + EncInputs(t)
    ensures Slice(EncTx(t), OutsAt(t), OutsEnd(t)) == EncOuts(t.outs)
    ensures Slice(EncTx(t), OutsEnd(t), |EncTx(t)|) == EncTail(t)
  {
    hide Slice, At, EncTx, EncHead, EncTail, EncInputs, EncOuts, Varint;
    var cb := EncTx(t);
    AtSelf(cb);
    TxParts(cb, 0, t);
    SliceAt(cb, OutsAt(t), EncOuts(t.outs));
    SliceAt(cb, OutsEnd(t), EncTail(t));
    AtConcat(cb, 0, EncHead(t), EncInputs(t));
    SliceAt(cb, 0, EncHead(t) + EncInputs(t));
  }

  /** On a serialized transaction the byte splice is exactly the edit of its output list, in either format and
      whether or not the output count changes width. */
  lemma SpliceRefines(t: Tx, script: seq<byte>)
    requires WfTx(t) && |t.outs| + 1 < U64
    ensures Splice(EncTx(t), script) == Some(EncTx(AddOutput(t, TxOut(0, script))))
  {
    hide SkipList, ReadVarint, Varint, Slice, EncTx, EncHead, EncTail, EncInputs, EncOuts, TestMark, AddOutput, WfTx;
    hide CountAt, OutsAt, OutsEnd;
    SpliceFindsInputs(t);
    SpliceFindsOuts(t);
    SpliceKeeps(t);
    EncAdded(t, TxOut(0, script));
  }

  lemma EncAdded(t: Tx, o: TxOut)
    ensures EncTx(AddOutput(t, o))
         == EncHead(t) + EncInputs(t) + Varint(|t.outs| + 1) + EncOuts(t.outs) + EncOut(o) + EncTail(t)
  {
    hide EncList, EncOut, Varint;
    EncListConcat(t.outs, [o], EncOut);
    SingleOut(o);
  }

  lemma SingleOut(o: TxOut)
    ensures EncOuts([o]) == EncOut(o)
  {
    assert EncList([o][1..], EncOut) == [];
  }

  lemma MarkAgreesAt(buf: seq<byte>, t: Tx)
    requires WfTx(t) && At(buf, 0, EncTx(t))
    ensures TestMark(buf, 4) == Some(t.segwit)
  {
    hide DecList, EncTx, WfTx, ReadVarint, TestMark, At;
    TxRoundTrip(buf, 0, t);
    MarkAgrees(buf, 0);
  }

  /** The injector's reading of a serialized block: the count, the coinbase, the rest, and the header around the merkle
      root. */
  lemma BlockParts(b: Block)
    requires WfBlock(b)
    ensures var block, off := EncBlock(b), 80 + |Varint(|b.txs|)|; var p := off + |EncTx(b.txs[0])|;
            && |block| >= 80 && block[..36] == b.header[..36] && block[68..80] == b.header[68..]
            && ReadVarint(block, 80) == Some((|b.txs|, off))
            && At(block, off, EncTx(b.txs[0]))
            && Slice(block, off, p) == EncTx(b.txs[0])
            && Slice(block, p, |block|) == EncList(b.txs[1..], EncTx)
  {
    hide EncTx, WfTx, ReadVarint, Varint, At;
    var block := EncBlock(b);
    var tail := Varint(|b.txs|) + EncList(b.txs, EncTx);
    AtSelf(block);
    AtConcat(block, 0, b.header, tail);
    AtConcat(block, 80, Varint(|b.txs|), EncList(b.txs, EncTx));
    VarintRoundTrip(block, 80, |b.txs|);
    var off := 80 + |Varint(|b.txs|)|;
    var rest := EncList(b.txs[1..], EncTx);
    AtConcat(block, off, EncTx(b.txs[0]), rest);
    SliceAt(block, off, EncTx(b.txs[0]));
    assert off + |EncTx(b.txs[0])| + |rest| == |block|;
    SliceAt(block, off + |EncTx(b.txs[0])|, rest);
    assert block[..80] == b.header;
  }

  lemma EditedEncoding(b: Block, script: seq<byte>, merkle: seq<byte>)
    requires WfBlock(b) && |merkle| == 32
    ensures EncBlock(Edited(b, script, merkle))
         == b.header[..36] + merkle + b.header[68..] + Varint(|b.txs|)
            + EncTx(AddOutput(b.txs[0], TxOut(0, script))) + EncList(b.txs[1..], EncTx)
  {
    hide EncTx, WfTx, Varint, AddOutput;
    var b' := Edited(b, script, merkle);
    assert b'.txs[0] == AddOutput(b.txs[0], TxOut(0, script)) && b'.txs[1..] == b.txs[1..];
    assert EncList(b'.txs, EncTx) == EncTx(b'.txs[0]) + EncList(b.txs[1..], EncTx);
  }

  lemma FirstFine(b: Block)
    requires WfBlock(b)
    ensures |b.txs| > 0 && WfTx(b.txs[0])
  {
    hide WfTx;
  }

  lemma CoinbaseScanned(block: seq<byte>, off: nat, t: Tx)
    requires WfTx(t) && At(block, off, EncTx(t))
    ensures ScanTx(block, off) == Some(off + |EncTx(t)|)
  {
    hide EncTx, WfTx, ScanTx, DecTx, At;
    TxRoundTrip(block, off, t);
    ScanAgrees(block, off);
  }

  lemma RestScanned(b: Block)
    requires WfBlock(b)
    ensures SkipList(EncList(b.txs[1..], EncTx), 0, |b.txs| - 1, ScanTx).Some?
  {
    hide EncTx, WfTx, ScanTx;
    var rest := EncList(b.txs[1..], EncTx);
    AtSelf(rest);
    TxsRoundTrip(rest, 0, b.txs[1..]);
  }

  /** The injector refines the abstract edit: for every block of well-formed transactions, in either format, its
      result is the serialization of the edited block. */
  lemma InjectRefines(b: Block, sig: seq<byte>, merkle: seq<byte>)
    requires WfBlock(b) && |merkle| == 32 && |sig| + 4 < U32 && |b.txs[0].outs| + 1 < U64
    ensures CommitmentScript(sig).Some?
    ensures InjectSpec(EncBlock(b), sig, merkle)
         == Some(EncBlock(Edited(b, CommitmentScript(sig).value, merkle)))
  {
    hide EncTx, ScanTx, WfTx, WfBlock, ReadVarint, Varint, Splice, At, CommitmentScript, EncBlock, Edited, Slice;
    hide SkipList, EncList, AddOutput;
    FirstFine(b);
    var script := CommitmentScriptExists(sig);
    BlockParts(b);
    CoinbaseScanned(EncBlock(b), 80 + |Varint(|b.txs|)|, b.txs[0]);
    RestScanned(b);
    SpliceRefines(b.txs[0], script);
    EditedEncoding(b, script, merkle);
  }

  /** The commitment is OP_RETURN followed by one push whose data is the header and the signature. */
  lemma CommitmentScriptExists(sig: seq<byte>) returns (script: seq<byte>)
    requires |sig| + 4 < U32
    ensures CommitmentScript(sig) == Some(script)
    ensures 1 <= |script| <= |sig| + 10 && script[0] == 0x6a
    ensures ReadPush(script, 1) == Some((SIGNET_HEADER + sig, |script|))
  {
    var push := Push(SIGNET_HEADER + sig).value;
    script := [0x6a] + push;
    AtSelf(script);
    AtConcat(script, 0, [0x6a], push);
    PushRoundTrip(script, 1, SIGNET_HEADER + sig);
  }

  /** Re-reading the injected block with the reference decoder: the same coinbase with one zero-value output
      appended, every later transaction unchanged, nothing left over. */
  lemma InjectReparses(b: Block, sig: seq<byte>, merkle: seq<byte>)
    requires WfBlock(b) && |merkle| == 32 && |sig| + 4 < U32 && |b.txs[0].outs| + 1 < U64
    ensures InjectSpec(EncBlock(b), sig, merkle).Some?
    ensures var bytes := InjectSpec(EncBlock(b), sig, merkle).value;
            && DecBlock(bytes).Some?
            && var (b', end) := DecBlock(bytes).value;
            && end == |bytes|
            && |b'.txs| == |b.txs|
            && b'.txs[1..] == b.txs[1..]
            && |b'.txs[0].outs| == |b.txs[0].outs| + 1
            && b'.txs[0].(outs := b.txs[0].outs) == b.txs[0]
            && b'.txs[0].outs[..|b.txs[0].outs|] == b.txs[0].outs
            && var o := b'.txs[0].outs[|b.txs[0].outs|];
            && o.value == 0 && o.script != [] && o.script[0] == 0x6a
            && ReadPush(o.script, 1) == Some(([0xec, 0xc7, 0xda, 0xa2] + sig, |o.script|))
            && b'.header[..36] == b.header[..36] && b'.header[36..68] == merkle && b'.header[68..] == b.header[68..]
  {
    hide EncTx, DecBlock, InjectSpec, CommitmentScript;
    InjectRefines(b, sig, merkle);
    var script := CommitmentScriptExists(sig);
    var b' := Edited(b, script, merkle);
    assert WfTx(b'.txs[0]) by {
      assert WfTx(b.txs[0]) && b'.txs[0].outs == b.txs[0].outs + [TxOut(0, script)];
      assert forall o :: o in b'.txs[0].outs ==> o in b.txs[0].outs || o == TxOut(0, script);
    }
    assert forall t :: t in b'.txs ==> t == b'.txs[0] || t in b.txs;
    BlockRoundTrip(b');
  }
}
