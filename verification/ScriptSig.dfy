/** The coinbase scriptSig (datum_coinbaser.c, generate_coinbase_input). */
module ScriptSig {
  import opened Bytes
  import opened Buffers
  import opened Script

  const MAX_COINBASE_TAG_SPACE := 86

  datatype Config = Config(primary: seq<byte>, overridePrimary: seq<byte>, secondary: seq<byte>,
                           uniqueId: nat, primeId: nat, active: bool)
  {
    function Tag0(): seq<byte> { if active then overridePrimary else primary }
  }

  // ---- BIP 34 height ----

  /** Bytes of the shortest script number holding `h`: the top bit of the last byte stays clear. */
  function HeightWidth(h: nat): (w: nat)
    ensures 1 <= w <= 4
  {
    if h < 0x80 then 1 else if h < 0x8000 then 2 else if h < 0x80_0000 then 3 else 4
  }

  function HeightPush(h: nat): (s: seq<byte>)
    ensures 1 <= |s| <= 5
  {
    if 1 <= h <= 16 then [0x50 + h] else [HeightWidth(h)] + Le(h, HeightWidth(h))
  }

  // ---- tags ----

  /** Length of the tag push and of the secondary tag after truncation; None where the gateway panics. */
  function FitTags(t0: nat, t1: nat): Option<(nat, nat)> {
    var k := if t1 > 0 then t0 + t1 + 2 else if t0 > 0 then t0 + 1 else 0;
    var excess := k - MAX_COINBASE_TAG_SPACE;
    var (k', t1') :=
      if excess <= 0 then (k, t1)
      else if t1 > excess then (MAX_COINBASE_TAG_SPACE, t1 - excess)
      else if t1 > 0 then (k - 1, 0)
      else (k, t1);
    if k' > MAX_COINBASE_TAG_SPACE then None else Some((k', t1'))
  }

  function PushHead(k: nat): seq<byte>
    requires k < 256
  {
    if k <= 75 then [k] else [0x4c, k]
  }

  /** What the tag push carries: the tags, each closed by a separator or the final zero. */
  function TagData(tag0: seq<byte>, tag1: seq<byte>): seq<byte> {
    (if tag0 != [] then tag0 + [if tag1 == [] then 0x00 else 0x0F]
     else if tag1 != [] then [0x0F]
     else [])
    + (if tag1 != [] then tag1 + [0x00] else [])
  }

  function TagField(tag0: seq<byte>, tag1: seq<byte>, k: nat): seq<byte>
    requires k < 256
  {
    if k > 0 then PushHead(k) + TagData(tag0, tag1) else [0x01, 0x00]
  }

  // ---- unique id ----

  function IdData(cfg: Config): (s: seq<byte>)
    ensures |s| == 3 || |s| == 7
  {
    [0xFF] + Le(cfg.uniqueId, 2) + (if cfg.primeId == 0 && !cfg.active then [] else Le(cfg.primeId, 4))
  }

  /** The whole scriptSig and the position of the proof-of-work target placeholder. */
  function Input(height: nat, cfg: Config): Option<(seq<byte>, nat)> {
    var (k, n1) :- FitTags(|cfg.Tag0()|, |cfg.secondary|);
    var front := HeightPush(height) + TagField(cfg.Tag0(), cfg.secondary[..n1], k);
    Some((front + ([|IdData(cfg)|] + IdData(cfg)), |front| + 1))
  }

  /** The tag push: its declared length, then tags and separators one after the other. */
  method AppendTags(cb: ByteBuffer, tag0: seq<byte>, tag1: seq<byte>, k: nat)
    requires cb.Valid() && k <= MAX_COINBASE_TAG_SPACE
    requires cb.len + |tag0| + |tag1| + 6 <= cb.data.Length
    modifies cb, cb.data
    ensures cb.Valid() && cb.len <= old(cb.len) + |tag0| + |tag1| + 6
    ensures cb.contents == old(cb.contents) + TagField(tag0, tag1, k)
  {
    hide ByteBuffer.Valid, TagData, PushHead;
    if k > 0 {
      AppendHead(cb, k);
      AppendTagData(cb, tag0, tag1);
    } else {
      cb.Append([0x01]);
      cb.Append([0x00]);
      assert cb.contents == old(cb.contents) + [0x01, 0x00];
    }
  }

  method AppendHead(cb: ByteBuffer, k: nat)
    requires cb.Valid() && k < 256 && cb.len + 2 <= cb.data.Length
    modifies cb, cb.data
    ensures cb.Valid() && cb.len <= old(cb.len) + 2
    ensures cb.contents == old(cb.contents) + PushHead(k)
  {
    hide ByteBuffer.Valid;
    if k <= 75 {
      cb.Append([k]);
    } else {
      cb.Append([0x4c]);
      cb.Append([k]);
    }
  }

  method AppendTagData(cb: ByteBuffer, tag0: seq<byte>, tag1: seq<byte>)
    requires cb.Valid() && cb.len + |tag0| + |tag1| + 2 <= cb.data.Length
    modifies cb, cb.data
    ensures cb.Valid() && cb.len <= old(cb.len) + |tag0| + |tag1| + 2
    ensures cb.contents == old(cb.contents) + TagData(tag0, tag1)
  {
    hide ByteBuffer.Valid;
    if |tag0| > 0 {
      cb.Append(tag0);
      if |tag1| == 0 {
        cb.Append([0x00]);
      } else {
        cb.Append([0x0F]);
      }
    } else if |tag1| > 0 {
      cb.Append([0x0F]);
    }
    if |tag1| > 0 {
      cb.Append(tag1);
      cb.Append([0x00]);
    }
  }

  /** The unique id push; returns the position of the placeholder in it. */
  method AppendId(cb: ByteBuffer, cfg: Config) returns (pot: nat)
    requires cb.Valid() && cb.len + 8 <= cb.data.Length
    modifies cb, cb.data
    ensures cb.Valid() && pot == old(cb.len) + 1
    ensures cb.contents == old(cb.contents) + ([|IdData(cfg)|] + IdData(cfg))
  {
    hide ByteBuffer.Valid;
    if cfg.primeId == 0 && !cfg.active {
      cb.Append([0x03]);
      pot := cb.len;
      cb.Append([0xFF]);
      cb.Append(Le(cfg.uniqueId, 2));
    } else {
      cb.Append([0x07]);
      pot := cb.len;
      cb.Append([0xFF]);
      cb.Append(Le(cfg.uniqueId, 2));
      cb.Append(Le(cfg.primeId, 4));
    }
    assert cb.contents == old(cb.contents) + ([|IdData(cfg)|] + IdData(cfg));
  }

  method AppendHeight(cb: ByteBuffer, height: nat)
    requires cb.Valid() && cb.len + 5 <= cb.data.Length
    modifies cb, cb.data
    ensures cb.Valid() && cb.contents == old(cb.contents) + HeightPush(height)
  {
    hide ByteBuffer.Valid, Le;
    if height >= 1 && height <= 16 {
      cb.Append([0x50 + height]);
    } else {
      cb.Append([HeightWidth(height)]);
      cb.Append(Le(height, HeightWidth(height)));
    }
  }

  method GenerateCoinbaseInput(height: nat, cfg: Config, cb: ByteBuffer) returns (r: Option<nat>)
    requires cb.Valid() && cb.len == 0 && cb.data.Length >= 150
    modifies cb, cb.data
    ensures cb.Valid()
    ensures r.Some? <==> Input(height, cfg).Some?
    ensures r.Some? ==> (cb.contents, r.value) == Input(height, cfg).value
  {
    hide TagField, IdData, HeightPush, ByteBuffer.Valid;
    AppendHeight(cb, height);
    assert cb.contents == HeightPush(height);
    var tag0 := if !cfg.active then cfg.primary else cfg.overridePrimary;
    var n1 := |cfg.secondary|;
    var k := |tag0| + n1 + 2;
    if n1 == 0 {
      k := k - 1;
      if |tag0| == 0 {
        k := k - 1;
      }
    }
    if k > MAX_COINBASE_TAG_SPACE {
      var excess := k - MAX_COINBASE_TAG_SPACE;
      if n1 > excess {
        n1 := n1 - excess;
        k := MAX_COINBASE_TAG_SPACE;
      } else if n1 > 0 {
        n1 := 0;
        k := k - (n1 + 1);
      }
    }
    if k > MAX_COINBASE_TAG_SPACE {
      return None;
    }
    assert FitTags(|tag0|, |cfg.secondary|) == Some((k, n1));
    AppendTags(cb, tag0, cfg.secondary[..n1], k);
    var pot := AppendId(cb, cfg);
    return Some(pot);
  }

  // ---- what the scriptSig means ----

  /** The declared length of the tag push is the number of bytes that follow it, in every run that does not panic,
      except when the primary tag has 84 bytes and the secondary one: there the secondary tag is dropped but only
      one byte is taken off the declared length. Such a primary tag is over the 64 bytes the gateway expects at most. */
  lemma TagPushExact(tag0: seq<byte>, tag1: seq<byte>)
    requires FitTags(|tag0|, |tag1|).Some?
    ensures var (k, n1) := FitTags(|tag0|, |tag1|).value;
            && k <= MAX_COINBASE_TAG_SPACE && n1 <= |tag1|
            && (|TagData(tag0, tag1[..n1])| == k <==> !(|tag0| == 84 && |tag1| == 1))
  {
    var (k, n1) := FitTags(|tag0|, |tag1|).value;
    assert |tag1[..n1]| == n1;
  }

  /** The gateway panics exactly when the primary tag and its separator exceed 86 bytes alone, or, beside a secondary
      one, when the primary tag leaves no byte for it and both are over the 85 that the mistaken length still allows. */
  lemma PanicsIff(height: nat, cfg: Config)
    ensures var t0, t1 := |cfg.Tag0()|, |cfg.secondary|;
            Input(height, cfg).None? <==> if t1 == 0 then t0 > 85 else t0 >= 84 && t0 + t1 > 85
  {
    hide HeightPush, TagField, IdData;
  }

  /** Tags of at most 64 bytes each never panic. */
  lemma TagsFit(t0: nat, t1: nat)
    requires t0 <= 64 && t1 <= 64
    ensures FitTags(t0, t1).Some?
  {
  }

  lemma TagFieldReads(s: seq<byte>, off: nat, tag0: seq<byte>, tag1: seq<byte>, k: nat)
    requires k <= MAX_COINBASE_TAG_SPACE && |TagData(tag0, tag1)| == k
    requires At(s, off, TagField(tag0, tag1, k))
    ensures ReadPush(s, off)
         == Some((if k > 0 then TagData(tag0, tag1) else [0x00], off + |TagField(tag0, tag1, k)|))
  {
    var data := if k > 0 then TagData(tag0, tag1) else [0x00];
    assert TagField(tag0, tag1, k) == (if |data| <= 75 then [|data|] + data else [0x4c, |data|] + data);
    PushRoundTrip(s, off, data);
  }

  /** The pushed height is a script number equal to the height, positive, and no shorter one is. */
  lemma HeightIsMinimal(h: nat, d: seq<byte>)
    requires 17 <= h < 0x8000_0000
    ensures var s := HeightPush(h);
            && s[0] == |s| - 1 && FromLe(s[1..]) == h && s[|s| - 1] < 0x80
            && (d != [] && FromLe(d) == h && d[|d| - 1] < 0x80 ==> |d| >= |s| - 1)
  {
    hide Le, FromLe, Pow256;
    var w := HeightWidth(h);
    PowersOf256();
    LeRoundTrip(h, w);
    TopByte(h, w);
    assert HeightPush(h)[1..] == Le(h, w);
    if d != [] && FromLe(d) == h && d[|d| - 1] < 0x80 {
      BelowHalf(d);
    }
  }

  lemma PowersOf256()
    ensures Pow256(0) == 1 && Pow256(1) == 0x100 && Pow256(2) == 0x1_0000 && Pow256(3) == 0x100_0000
         && Pow256(4) == 0x1_0000_0000
  {
  }

  lemma {:induction false} TopByte(h: nat, w: nat)
    requires w > 0 && h < 128 * Pow256(w - 1)
    ensures Le(h, w)[w - 1] < 0x80
  {
    if w > 1 {
      TopByte(h / 256, w - 1);
      assert Le(h, w) == [h % 256] + Le(h / 256, w - 1);
    }
  }

  /** A number whose top bit is clear. */
  lemma {:induction false} BelowHalf(d: seq<byte>)
    requires d != [] && d[|d| - 1] < 0x80
    ensures FromLe(d) < 128 * Pow256(|d| - 1)
  {
    if |d| > 1 {
      BelowHalf(d[1..]);
    } else {
      assert FromLe(d[1..]) == 0;
    }
  }

  /** How much of the secondary tag survives: all of it, or what the 86 bytes leave. */
  function TagRoom(cfg: Config): (n: nat)
    ensures n <= |cfg.secondary|
  {
    var t0, t1 := |if cfg.active then cfg.overridePrimary else cfg.primary|, |cfg.secondary|;
    if t1 == 0 || t0 + t1 <= 84 then t1 else if t0 < 84 then 84 - t0 else 0
  }

  /** Whenever the gateway does not panic, and but for tags of 84 bytes and one, the scriptSig is a sequence of whole
      pushes, and the extranonce push completes it.
      The first is the height; the second the primary tag, a separator, what fits of the secondary one and a zero byte;
      the third the placeholder that `pot` addresses and the two ids, the second of them only when it is used. */
  lemma InputReads(height: nat, cfg: Config, extranonce: seq<byte>)
    requires 1 <= height < 0x8000_0000 && |extranonce| == 14
    requires Input(height, cfg).Some? && !(|cfg.Tag0()| == 84 && |cfg.secondary| == 1)
    ensures var (cb, pot) := Input(height, cfg).value;
            var s := cb + ([0x0E] + extranonce);
            var hp := |HeightPush(height)|;
            && (if height <= 16 then s[0] == 0x50 + height && hp == 1
                else ReadPush(s, 0) == Some((Le(height, HeightWidth(height)), hp)))
            && ReadPush(s, hp).Some?
            && var (tags, tp) := ReadPush(s, hp).value;
            && var tag0 := if cfg.active then cfg.overridePrimary else cfg.primary;
            && tags == (if cfg.secondary != [] then tag0 + [0x0F] + cfg.secondary[..TagRoom(cfg)] + [0x00]
                        else tag0 + [0x00])
            && pot == tp + 1 && s[pot] == 0xFF
            && ReadPush(s, tp)
               == Some(([0xFF] + [cfg.uniqueId % 256, cfg.uniqueId / 256 % 256]
                        + (if cfg.primeId == 0 && !cfg.active then [] else Le(cfg.primeId, 4)), |cb|))
            && ReadPush(s, |cb|) == Some((extranonce, |s|))
  {
    hide TagField, TagData, IdData, HeightWidth, HeightPush, TagRoom, Le, Push, ReadPush, At, FitTags;
    TagPushExact(cfg.Tag0(), cfg.secondary);
    var (k, n1) := FitTags(|cfg.Tag0()|, |cfg.secondary|).value;
    FitRoom(cfg);
    var tag1 := cfg.secondary[..n1];
    var field := TagField(cfg.Tag0(), tag1, k);
    var h := HeightPush(height);
    var id := [|IdData(cfg)|] + IdData(cfg);
    var en := [0x0E] + extranonce;
    var (cb, pot) := Input(height, cfg).value;
    var s := cb + en;
    assert cb == (h + field) + id;
    InputParts(h, field, id, en);
    HeightReads(s, height);
    TagFieldReads(s, |h|, cfg.Tag0(), tag1, k);
    ShortPush(s, |h + field|, IdData(cfg));
    ShortPush(s, |cb|, extranonce);
    assert s[pot] == id[1] == IdData(cfg)[0];
    IdIs(cfg);
    TagsAre(cfg.Tag0(), tag1);
  }

  lemma TagsAre(tag0: seq<byte>, tag1: seq<byte>)
    ensures tag1 != [] ==> TagData(tag0, tag1) == tag0 + [0x0F] + tag1 + [0x00]
    ensures tag1 == [] != tag0 ==> TagData(tag0, tag1) == tag0 + [0x00]
  {
  }

  lemma HeightReads(s: seq<byte>, height: nat)
    requires 1 <= height && At(s, 0, HeightPush(height))
    ensures var hp := |HeightPush(height)|;
            && hp <= |s|
            && (if height <= 16 then s[0] == 0x50 + height && hp == 1
                else ReadPush(s, 0) == Some((Le(height, HeightWidth(height)), hp)))
  {
    hide Le, ReadPush;
    if height > 16 {
      ShortPush(s, 0, Le(height, HeightWidth(height)));
    } else {
      AtHead(s, 0, 0x50 + height, []);
    }
  }

  lemma FitRoom(cfg: Config)
    requires FitTags(|cfg.Tag0()|, |cfg.secondary|).Some?
    ensures var (k, n1) := FitTags(|cfg.Tag0()|, |cfg.secondary|).value;
            && n1 == TagRoom(cfg) && (k == 0 <==> cfg.Tag0() == [] == cfg.secondary)
            && (cfg.secondary != [] && !(|cfg.Tag0()| == 84 && |cfg.secondary| == 1) ==> n1 > 0)
  {
  }

  lemma IdIs(cfg: Config)
    ensures IdData(cfg)[0] == 0xFF
    ensures IdData(cfg) == [0xFF] + [cfg.uniqueId % 256, cfg.uniqueId / 256 % 256]
                           + (if cfg.primeId == 0 && !cfg.active then [] else Le(cfg.primeId, 4))
  {
    assert Le(cfg.uniqueId, 2) == [cfg.uniqueId % 256] + Le(cfg.uniqueId / 256, 1);
    assert Le(cfg.uniqueId / 256, 1) == [cfg.uniqueId / 256 % 256] + Le(cfg.uniqueId / 256 / 256, 0);
  }

  lemma ShortPush(s: seq<byte>, off: nat, data: seq<byte>)
    requires 1 <= |data| <= 75 && At(s, off, [|data|] + data)
    ensures ReadPush(s, off) == Some((data, off + 1 + |data|))
  {
    PushRoundTrip(s, off, data);
  }

  lemma InputParts(h: seq<byte>, field: seq<byte>, id: seq<byte>, en: seq<byte>)
    ensures var s := (h + field) + id + en;
            && At(s, 0, h) && At(s, |h|, field) && At(s, |h + field|, id) && At(s, |(h + field) + id|, en)
  {
    var s := (h + field) + id + en;
    AtSelf(s);
    AtConcat(s, 0, (h + field) + id, en);
    AtConcat(s, 0, h + field, id);
    AtConcat(s, 0, h, field);
  }

  /** The consensus bound, and the placeholder at the returned index. */
  lemma InputBound(height: nat, cfg: Config)
    requires 1 <= height < 0x80_0000
    requires |cfg.Tag0()| <= 64 && |cfg.secondary| <= 64
    ensures Input(height, cfg).Some?
    ensures var (cb, pot) := Input(height, cfg).value;
            && 2 <= |cb| <= 100 && pot < |cb| && cb[pot] == 0xFF
  {
    TagsFit(|cfg.Tag0()|, |cfg.secondary|);
    TagPushExact(cfg.Tag0(), cfg.secondary);
  }

  /** Bytes of both tags with their separators, before any truncation. */
  function TagBytes(cfg: Config): nat {
    if |cfg.secondary| > 0 then |cfg.Tag0()| + |cfg.secondary| + 2 else if |cfg.Tag0()| > 0 then |cfg.Tag0()| + 1 else 0
  }

  /** For three-byte heights the scriptSig leaves no room for the extranonce push exactly when tags and separators take
      76 bytes, or 73 with the long unique id. */
  lemma LongInputIff(height: nat, cfg: Config)
    requires 0x8000 <= height < 0x80_0000
    requires |cfg.Tag0()| <= 64 && |cfg.secondary| <= 64
    ensures Input(height, cfg).Some?
    ensures |Input(height, cfg).value.0| > 85
       <==> TagBytes(cfg) >= (if cfg.primeId == 0 && !cfg.active then 76 else 73)
  {
    TagsFit(|cfg.Tag0()|, |cfg.secondary|);
    TagPushExact(cfg.Tag0(), cfg.secondary);
    hide Le;
  }
}
