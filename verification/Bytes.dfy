/** Byte strings: little-endian integers, Bitcoin's variable-length integers, and reading them back. */
module Bytes {
  type byte = b: int | 0 <= b < 256

  const U16: nat := 0x1_0000
  const U32: nat := 0x1_0000_0000
  const U64: nat := 0x1_0000_0000_0000_0000

  datatype Option<+T> = None | Some(value: T) {
    predicate IsFailure() { None? }

    function PropagateFailure<U>(): Option<U>
      requires None?
    {
      None
    }

    function Extract(): T
      requires Some?
    {
      value
    }
  }

  // ---- little-endian integers ----

  function Pow256(w: nat): (p: nat)
    ensures p > 0
  {
    if w == 0 then 1 else 256 * Pow256(w - 1)
  }

  lemma Pow256Values()
    ensures Pow256(2) == U16 && Pow256(4) == U32 && Pow256(8) == U64
  {
    assert Pow256(2) == 256 * Pow256(1);
    assert Pow256(4) == 256 * 256 * Pow256(2);
    assert Pow256(6) == 256 * 256 * Pow256(4);
    assert Pow256(8) == 256 * 256 * Pow256(6);
  }

  /** The low `w` bytes of `n`, least significant first. */
  function Le(n: nat, w: nat): (s: seq<byte>)
    ensures |s| == w
  {
    if w == 0 then [] else [n % 256] + Le(n / 256, w - 1)
  }

  function FromLe(s: seq<byte>): (n: nat)
    ensures n < Pow256(|s|)
  {
    if s == [] then 0 else s[0] + 256 * FromLe(s[1..])
  }

  lemma {:induction false} LeRoundTrip(n: nat, w: nat)
    requires n < Pow256(w)
    ensures FromLe(Le(n, w)) == n
  {
    if w > 0 {
      LeRoundTrip(n / 256, w - 1);
      assert Le(n, w)[1..] == Le(n / 256, w - 1);
    }
  }

  // ---- positions inside a buffer ----

  /** `s` occupies `buf` from position `off` on. */
  predicate At(buf: seq<byte>, off: nat, s: seq<byte>) {
    off + |s| <= |buf| && buf[off..off + |s|] == s
  }

  lemma AtConcat(buf: seq<byte>, off: nat, a: seq<byte>, b: seq<byte>)
    ensures At(buf, off, a + b) <==> At(buf, off, a) && At(buf, off + |a|, b)
  {
    if At(buf, off, a + b) {
      var s := buf[off..off + |a| + |b|];
      assert s[..|a|] == a && s[|a|..] == b;
      assert buf[off..off + |a|] == s[..|a|];
      assert buf[off + |a|..off + |a| + |b|] == s[|a|..];
    }
    if At(buf, off, a) && At(buf, off + |a|, b) {
      assert buf[off..off + |a| + |b|] == buf[off..off + |a|] + buf[off + |a|..off + |a| + |b|];
    }
  }

  lemma AtHead(buf: seq<byte>, off: nat, b: byte, rest: seq<byte>)
    requires At(buf, off, [b] + rest)
    ensures off < |buf| && buf[off] == b && At(buf, off + 1, rest)
  {
    AtConcat(buf, off, [b], rest);
    assert buf[off..off + 1][0] == b;
  }

  lemma AtSelf(s: seq<byte>)
    ensures At(s, 0, s)
  {
    assert s[0..|s|] == s;
  }

  // ---- variable-length integers ----

  /** The minimal encoding of a count; only the low 64 bits of larger numbers survive. */
  function Varint(n: nat): (s: seq<byte>)
    ensures 1 <= |s| <= 9
    ensures n < 0xfd ==> s == [n]
    ensures n >= 0xfd ==> s[0] >= 0xfd
  {
    if n < 0xfd then [n]
    else if n <= 0xffff then [0xfd] + Le(n, 2)
    else if n <= 0xffff_ffff then [0xfe] + Le(n, 4)
    else [0xff] + Le(n, 8)
  }

  function ReadLe(buf: seq<byte>, off: nat, w: nat): Option<(nat, nat)> {
    if off + w <= |buf| then Some((FromLe(buf[off..off + w]), off + w)) else None
  }

  /** Reads a count and the position after it; None where the buffer ends too early. */
  function ReadVarint(buf: seq<byte>, off: nat): (r: Option<(nat, nat)>)
    ensures r.Some? ==> off < r.value.1 <= |buf|
  {
    if off >= |buf| then None
    else if buf[off] < 0xfd then Some((buf[off], off + 1))
    else if buf[off] == 0xfd then ReadLe(buf, off + 1, 2)
    else if buf[off] == 0xfe then ReadLe(buf, off + 1, 4)
    else ReadLe(buf, off + 1, 8)
  }

  lemma ReadLeAt(buf: seq<byte>, off: nat, n: nat, w: nat)
    requires n < Pow256(w) && At(buf, off, Le(n, w))
    ensures ReadLe(buf, off, w) == Some((n, off + w))
  {
    LeRoundTrip(n, w);
  }

  lemma VarintRoundTrip(buf: seq<byte>, off: nat, n: nat)
    requires n < U64 && At(buf, off, Varint(n))
    ensures ReadVarint(buf, off) == Some((n, off + |Varint(n)|))
  {
    Pow256Values();
    if n < 0xfd {
      AtHead(buf, off, n, []);
    } else {
      var w := if n <= 0xffff then 2 else if n <= 0xffff_ffff then 4 else 8;
      AtHead(buf, off, Varint(n)[0], Le(n, w));
      ReadLeAt(buf, off + 1, n, w);
    }
  }

  /** No other bytes that read as the count are shorter. */
  lemma VarintShortest(b: seq<byte>, n: nat)
    requires ReadVarint(b, 0) == Some((n, |b|))
    ensures |Varint(n)| <= |b|
  {
    Pow256Values();
  }

  // ---- length-prefixed strings ----

  function Prefixed(s: seq<byte>): seq<byte> { Varint(|s|) + s }

  function ReadPrefixed(buf: seq<byte>, off: nat): Option<(seq<byte>, nat)> {
    var (n, p) :- ReadVarint(buf, off);
    if p + n <= |buf| then Some((buf[p..p + n], p + n)) else None
  }

  lemma PrefixedRoundTrip(buf: seq<byte>, off: nat, s: seq<byte>)
    requires |s| < U64 && At(buf, off, Prefixed(s))
    ensures ReadPrefixed(buf, off) == Some((s, off + |Prefixed(s)|))
  {
    AtConcat(buf, off, Varint(|s|), s);
    VarintRoundTrip(buf, off, |s|);
  }
}
