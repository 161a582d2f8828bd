/** A fixed-size byte buffer filled from the front: the gateway's hex character arrays and their running index,
    one byte for each pair of hex digits. */
module Buffers {
  import opened Bytes

  class ByteBuffer {
    const data: array<byte>
    var len: nat
    ghost var contents: seq<byte>

    ghost predicate Valid()
      reads this, data
      ensures Valid() ==> len == |contents| <= data.Length
    {
      len <= data.Length && contents == data[..len]
    }

    constructor (capacity: nat)
      ensures Valid() && fresh(data) && data.Length == capacity && contents == [] && len == 0
    {
      data := new byte[capacity];
      len := 0;
      contents := [];
    }

    method Append(s: seq<byte>)
      requires Valid() && len + |s| <= data.Length
      modifies this, data
      ensures Valid() && len == old(len) + |s|
      ensures contents == old(contents) + s
    {
      var start := len;
      for i := 0 to |s|
        invariant len == start + i <= data.Length
        invariant contents == old(contents) && data[..len] == contents + s[..i]
      {
        data[len] := s[i];
        len := len + 1;
      }
      assert s[..|s|] == s;
      contents := contents + s;
    }
  }

  // ---- hex text ----

  function HexDigit(d: nat): char
    requires d < 16
  {
    "0123456789abcdef"[d]
  }

  function HexValue(c: char): (v: nat)
    ensures v < 16
  {
    if '0' <= c <= '9' then c as int - '0' as int
    else if 'a' <= c <= 'f' then c as int - 'a' as int + 10
    else if 'A' <= c <= 'F' then c as int - 'A' as int + 10
    else 0
  }

  function HexByte(hi: char, lo: char): byte { HexValue(hi) * 16 + HexValue(lo) }

  function ToHex(s: seq<byte>): string {
    if s == [] then "" else [HexDigit(s[0] / 16), HexDigit(s[0] % 16)] + ToHex(s[1..])
  }

  /** Two digits at a time; a last odd digit is dropped. */
  function FromHex(t: string): (s: seq<byte>)
    ensures |s| == |t| / 2
  {
    if |t| < 2 then [] else [HexByte(t[0], t[1])] + FromHex(t[2..])
  }

  /** The character for a digit of either case. */
  predicate IsDigit(c: char, d: nat) { d < 16 && (c == "0123456789abcdef"[d] || c == "0123456789ABCDEF"[d]) }

  lemma DigitValue(c: char, d: nat)
    requires IsDigit(c, d)
    ensures HexValue(c) == d
  {
  }

  /** The two digits at position `i` are those of `b`. */
  predicate PairAt(t: string, i: nat, b: byte) {
    2 * i + 1 < |t| && IsDigit(t[2 * i], b / 16) && IsDigit(t[2 * i + 1], b % 16)
  }

  lemma PairValue(t: string, b: byte)
    requires PairAt(t, 0, b)
    ensures HexByte(t[0], t[1]) == b
  {
    DigitValue(t[0], b / 16);
    DigitValue(t[1], b % 16);
  }

  lemma PairShift(t: string, i: nat, b: byte)
    requires PairAt(t, i + 1, b)
    ensures |t| >= 2 && PairAt(t[2..], i, b)
  {
    hide IsDigit;
    assert t[2..][2 * i] == t[2 * (i + 1)] && t[2..][2 * i + 1] == t[2 * (i + 1) + 1];
  }

  /** Reading hex text of either case, digit pair by digit pair. */
  lemma {:induction false} HexReads(t: string, s: seq<byte>)
    requires |t| == 2 * |s| && forall i :: 0 <= i < |s| ==> PairAt(t, i, s[i])
    ensures FromHex(t) == s
  {
    hide PairAt, HexByte;
    if s != [] {
      PairValue(t, s[0]);
      forall i | 0 <= i < |s[1..]| ensures PairAt(t[2..], i, s[1..][i]) {
        assert s[1..][i] == s[i + 1];
        PairShift(t, i, s[i + 1]);
      }
      HexReads(t[2..], s[1..]);
    }
  }

  lemma {:induction false} HexLength(s: seq<byte>)
    ensures |ToHex(s)| == 2 * |s| && forall i :: 0 <= i < |ToHex(s)| ==> ToHex(s)[i] as int < 256
  {
    if s != [] {
      HexLength(s[1..]);
    }
  }

  lemma DigitRoundTrip(d: nat)
    requires d < 16
    ensures HexValue(HexDigit(d)) == d
  {
  }

  /** The binary copies made from the hex text are the bytes the text was printed from. */
  lemma {:induction false} HexRoundTrip(s: seq<byte>)
    ensures FromHex(ToHex(s)) == s
  {
    if s != [] {
      DigitRoundTrip(s[0] / 16);
      DigitRoundTrip(s[0] % 16);
      HexRoundTrip(s[1..]);
      assert ToHex(s)[2..] == ToHex(s[1..]);
    }
  }
}
