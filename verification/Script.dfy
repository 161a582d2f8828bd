/** Data pushes in scripts. */
module Script {
  import opened Bytes

  /** The shortest push of `data` (infra/signet-signer.py, encode_push); None where its length has no encoding. */
  function Push(data: seq<byte>): Option<seq<byte>> {
    var n := |data|;
    if n == 0 then Some([0x00])
    else if n <= 75 then Some([n] + data)
    else if n <= 255 then Some([0x4c, n] + data)
    else if n <= 0xffff then Some([0x4d] + (Le(n, 2) + data))
    else if n < U32 then Some([0x4e] + (Le(n, 4) + data))
    else None
  }

  /** `n` bytes taken from `off`. */
  function Take(s: seq<byte>, off: nat, n: nat): Option<(seq<byte>, nat)> {
    if off + n <= |s| then Some((s[off..off + n], off + n)) else None
  }

  /** A script interpreter's view of the push operation at `off`: the data pushed and the position after it. */
  function ReadPush(s: seq<byte>, off: nat): Option<(seq<byte>, nat)> {
    if off >= |s| then None
    else if s[off] <= 75 then Take(s, off + 1, s[off])
    else if s[off] == 0x4c then
      var (n, p) :- ReadLe(s, off + 1, 1);
      Take(s, p, n)
    else if s[off] == 0x4d then
      var (n, p) :- ReadLe(s, off + 1, 2);
      Take(s, p, n)
    else if s[off] == 0x4e then
      var (n, p) :- ReadLe(s, off + 1, 4);
      Take(s, p, n)
    else None
  }

  lemma TakeAt(s: seq<byte>, off: nat, data: seq<byte>)
    requires At(s, off, data)
    ensures Take(s, off, |data|) == Some((data, off + |data|))
  {
  }

  lemma LengthRoundTrip(s: seq<byte>, off: nat, op: byte, w: nat, data: seq<byte>)
    requires |data| < Pow256(w) && At(s, off, [op] + (Le(|data|, w) + data))
    ensures off < |s| && s[off] == op
    ensures ReadLe(s, off + 1, w) == Some((|data|, off + 1 + w))
    ensures Take(s, off + 1 + w, |data|) == Some((data, off + 1 + w + |data|))
  {
    hide *;
    AtHead(s, off, op, Le(|data|, w) + data);
    AtConcat(s, off + 1, Le(|data|, w), data);
    ReadLeAt(s, off + 1, |data|, w);
    TakeAt(s, off + 1 + w, data);
  }

  /** A push is read back as its data, whichever of the five forms its length selects. */
  lemma PushRoundTrip(s: seq<byte>, off: nat, data: seq<byte>)
    requires Push(data).Some? && At(s, off, Push(data).value)
    ensures ReadPush(s, off) == Some((data, off + |Push(data).value|))
  {
    hide Le;
    Pow256Values();
    var n := |data|;
    if n <= 75 {
      AtHead(s, off, n, data);
    } else if n <= 255 {
      assert [0x4c, n] + data == [0x4c] + (Le(n, 1) + data) by {
        OneByte(n);
      }
      OneByte(n);
      LengthRoundTrip(s, off, 0x4c, 1, data);
    } else {
      LengthRoundTrip(s, off, Push(data).value[0], if n <= 0xffff then 2 else 4, data);
    }
  }

  /** And no other push of the data is shorter. */
  lemma PushShortest(s: seq<byte>, data: seq<byte>)
    requires ReadPush(s, 0) == Some((data, |s|))
    ensures Push(data).Some? && |Push(data).value| <= |s|
  {
    Pow256Values();
    OneByte(0);
  }

  lemma OneByte(n: byte)
    ensures Le(n, 1) == [n] && Pow256(1) == 256
  {
    assert Le(n / 256, 0) == [];
  }
}
