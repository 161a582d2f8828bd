/** How large the assembled coinbase and the block around it are, and what its scriptSig holds where. */
module CoinbaseSize {
  import opened Bytes
  import opened Transaction
  import opened Coinbase
  import opened CoinbaseTypes
  import opened CoinbaseTheorems
  import opened Budget
  import ScriptSig

  // ---- the coinbase ----

  /** The selection of a type, the number of its outputs, and the script paid what is left. */
  function Kept(t: nat, j: Job, input: seq<byte>, tpl: Template): seq<nat> { Selected(j, Room(t, j, input, tpl)) }

  function Outputs(t: nat, j: Job, input: seq<byte>, tpl: Template): nat {
    |Kept(t, j, input, tpl)| + (if InScript(t, input) then 3 else 4)
  }

  function LastScript(t: nat, j: Job, input: seq<byte>, tpl: Template): seq<byte> {
    PoolOut(j, Paid(j.outs, Kept(t, j, input, tpl)) % U64).script
  }

  /** Payout bytes of a type. */
  function PayoutBytes(t: nat, j: Job, input: seq<byte>, tpl: Template): nat {
    |Emitted(j.outs, Kept(t, j, input, tpl))|
  }

  /** The exact size: reserved and payout bytes, the output count, the dummy script where it replaces the pool's, and a
      commitment script other than the 21 bytes allowed for. */
  lemma SizeIs(t: nat, j: Job, input: seq<byte>, tpl: Template, extranonce: seq<byte>)
    requires t < TYPES && WfJob(j) && |input| <= 100 && |extranonce| == 12
    requires t == 0 ==> Roomy(input)
    ensures var (c1, c2) := Generated(t, j, input, tpl, false);
            |c1 + extranonce + c2|
            == Reserved(t, j, input) + PayoutBytes(t, j, input, tpl) + |Varint(Outputs(t, j, input, tpl))|
               + |LastScript(t, j, input, tpl)| - |j.pool| + |j.commitment| - 21
  {
    hide Selected, Emitted, EncOuts, Le, Room, AllOuts, EncTx, Generated, FullScript, PoolOut, Varint;
    var outs := AllOuts(t, j, input, tpl, false, extranonce);
    HalvesEncode(t, j, input, tpl, extranonce);
    ScriptSize(t, j, input, extranonce);
    EncodedSize(FullScript(t, j, input, false, extranonce), outs);
    AllOutsSize(t, j, input, tpl, extranonce);
  }

  /** So for a 38-byte commitment and a pool script no shorter than the dummy's, the coinbase is at most 18 bytes larger
      than the reserved and the payout bytes together, or 20 when the output count takes three bytes; and no type
      exceeds its maximum by more. */
  lemma SizeBound(t: nat, j: Job, input: seq<byte>, tpl: Template, extranonce: seq<byte>)
    requires t < TYPES && WfJob(j) && |input| <= 100 && |extranonce| == 12
    requires t == 0 ==> Roomy(input)
    requires |j.commitment| == 38 && |j.pool| >= 3
    ensures var (c1, c2) := Generated(t, j, input, tpl, false);
            var slack := if Outputs(t, j, input, tpl) < 0xfd then 18 else 20;
            && |c1 + extranonce + c2| <= Reserved(t, j, input) + PayoutBytes(t, j, input, tpl) + slack
            && Reserved(t, j, input) + PayoutBytes(t, j, input, tpl) <= MaxSize(t)
  {
    hide Selected, Emitted, Room, Generated, Le;
    SizeIs(t, j, input, tpl, extranonce);
    SelectedSize(t, j, input, tpl);
  }

  lemma ScriptSize(t: nat, j: Job, input: seq<byte>, extranonce: seq<byte>)
    requires |extranonce| == 12
    ensures |FullScript(t, j, input, false, extranonce)| == |input| + (if InScript(t, input) then 15 else 0)
  {
  }

  lemma AllOutsSize(t: nat, j: Job, input: seq<byte>, tpl: Template, extranonce: seq<byte>)
    requires WfJob(j) && |extranonce| == 12
    ensures var outs := AllOuts(t, j, input, tpl, false, extranonce);
            && |outs| == Outputs(t, j, input, tpl)
            && |EncOuts(outs)| == PayoutBytes(t, j, input, tpl) + |LastScript(t, j, input, tpl)| + |j.commitment| + 33
                                  + (if InScript(t, input) then 0 else 25)
  {
    hide Picks, Paid, EncOuts, Fitted, Leading, TailOuts, ReturnOut, Start, PoolOut;
    var ks := Selected(j, Room(t, j, input, tpl));
    var n := Leading(j, Room(t, j, input, tpl), t == 2, |Start(t, j, input)|);
    var paid := Paid(j.outs, ks) % U64;
    TailSize(j, paid);
    ReturnSize(j.enprefix, extranonce);
    var first, second := OutsOf(j.outs, ks[..n]), OutsOf(j.outs, ks[n..]);
    assert OutsOf(j.outs, ks) == first + second;
    SplitSize(first, [ReturnOut(j.enprefix, extranonce)], second, TailOuts(j, paid));
    OutsConcat(first + second, TailOuts(j, paid));
  }

  lemma SplitSize(a: seq<TxOut>, b: seq<TxOut>, c: seq<TxOut>, d: seq<TxOut>)
    ensures |EncOuts(a + b + (c + d))| == |EncOuts(a)| + |EncOuts(b)| + |EncOuts(c)| + |EncOuts(d)|
    ensures |EncOuts(a + c)| == |EncOuts(a)| + |EncOuts(c)|
  {
    hide EncOuts;
    OutsConcat(a + b, c + d);
    OutsConcat(a, b);
    OutsConcat(c, d);
    OutsConcat(a, c);
  }

  lemma HalvesEncode(t: nat, j: Job, input: seq<byte>, tpl: Template, extranonce: seq<byte>)
    requires t < TYPES && WfJob(j) && |extranonce| == 12
    requires t == 0 ==> Roomy(input)
    ensures var (c1, c2) := Generated(t, j, input, tpl, false);
            c1 + extranonce + c2 == EncTx(CoinbaseTx(FullScript(t, j, input, false, extranonce),
                                                     AllOuts(t, j, input, tpl, false, extranonce)))
  {
    hide EncTx, Subtype1, Subtype2, Start, Empty1, Empty2, Room, AllOuts, FullScript;
    if t == 0 {
      EmptyRoomy(j, Start(t, j, input));
      SubtypeEncodes(t, j, input, tpl, extranonce, Empty2(j, true));
    } else {
      SubtypeEncodes(t, j, input, tpl, extranonce, []);
    }
  }

  lemma EncodedSize(script: seq<byte>, outs: seq<TxOut>)
    requires |script| <= 100
    ensures |EncTx(CoinbaseTx(script, outs))| == 50 + |script| + |Varint(|outs|)| + |EncOuts(outs)|
  {
    hide EncTx, EncOuts, Le;
    EncCoinbaseTx(script, outs);
    StartLength();
  }

  lemma TailSize(j: Job, paid: nat)
    requires WfJob(j)
    ensures |TailOuts(j, paid)| == 3
    ensures |EncOuts(TailOuts(j, paid))| == |PoolOut(j, paid).script| + |j.commitment| + 33
  {
    hide EncOut;
    EncSizes(j, paid);
    ThreeOuts(PoolOut(j, paid), TxOut(0, j.commitment), SIGNET_OUT);
  }

  lemma ReturnSize(e: nat, extranonce: seq<byte>)
    requires |extranonce| == 12
    ensures |EncOuts([ReturnOut(e, extranonce)])| == 25
  {
    hide EncOut;
    ReturnBytes(e, extranonce);
    EncOutsSnoc([], ReturnOut(e, extranonce));
    NoOuts();
    assert [] + [ReturnOut(e, extranonce)] == [ReturnOut(e, extranonce)];
  }

  // ---- the block ----

  /** Serialized size and weight of a block with this coinbase, given one 32-byte witness item (BIP 141), and `txns`
      further transactions. */
  function BlockSize(coinbase: nat, txns: nat, tpl: Template): int {
    80 + |Varint(txns + 1)| + (coinbase + 36) + tpl.size
  }

  function BlockWeight(coinbase: nat, txns: nat, tpl: Template): int {
    4 * (80 + |Varint(txns + 1)| + coinbase) + 36 + tpl.weight
  }

  /** Bytes by which a block is larger than the budget's figure for reserved and payout bytes. */
  function Excess(t: nat, j: Job, input: seq<byte>, tpl: Template, txns: nat): int {
    |Varint(Outputs(t, j, input, tpl))| + |LastScript(t, j, input, tpl)| - |j.pool| + |j.commitment| - 21
    + |Varint(txns + 1)| - 5
  }

  /** The whole block respects the template's two limits exactly when they leave room for the excess as well. */
  lemma BlockWithinIff(t: nat, j: Job, input: seq<byte>, tpl: Template, extranonce: seq<byte>, txns: nat)
    requires t < TYPES && WfJob(j) && |input| <= 100 && |extranonce| == 12
    requires t == 0 ==> Roomy(input)
    ensures var (c1, c2) := Generated(t, j, input, tpl, false);
            var size := |c1 + extranonce + c2|;
            var used := Reserved(t, j, input) + PayoutBytes(t, j, input, tpl) + Excess(t, j, input, tpl, txns);
            && (BlockSize(size, txns, tpl) <= tpl.sizeLimit <==> !OverSize(tpl, used))
            && (BlockWeight(size, txns, tpl) <= tpl.weightLimit <==> !OverWeight(tpl, used))
  {
    hide Generated, Varint, PayoutBytes, LastScript, Outputs, Reserved;
    SizeIs(t, j, input, tpl, extranonce);
  }

  /** That is never more than 18 bytes, so a selection that leaves 18 bytes of the budget unused keeps the whole block
      within both limits. */
  lemma BlockWithin(t: nat, j: Job, input: seq<byte>, tpl: Template, extranonce: seq<byte>, txns: nat)
    requires t < TYPES && WfJob(j) && |input| <= 100 && |extranonce| == 12
    requires t == 0 ==> Roomy(input)
    requires |j.commitment| == 38 && |j.pool| >= 3 && txns <= 16383
    ensures Excess(t, j, input, tpl, txns) <= 18
    ensures PayoutBytes(t, j, input, tpl) + 18 <= Room(t, j, input, tpl)
            && tpl.weight >= tpl.size && tpl.weightLimit <= tpl.sizeLimit ==>
              var (c1, c2) := Generated(t, j, input, tpl, false);
              var size := |c1 + extranonce + c2|;
              BlockSize(size, txns, tpl) <= tpl.sizeLimit && BlockWeight(size, txns, tpl) <= tpl.weightLimit
  {
    ExcessAtMost(t, j, input, tpl, txns);
    hide Generated, Le, Excess, PayoutBytes, Reserved;
    BlockWithinIff(t, j, input, tpl, extranonce, txns);
    if PayoutBytes(t, j, input, tpl) + 18 <= Room(t, j, input, tpl) {
      if Reserved(t, j, input) <= MaxSize(t) {
        FittedWithinLimits(MaxSize(t), Reserved(t, j, input), tpl);
      } else {
        FittedSmall(MaxSize(t), Reserved(t, j, input), tpl);
      }
    }
  }

  lemma FittedSmall(maxSize: int, reserved: int, t: Template)
    requires reserved > maxSize >= 0
    ensures Fitted(maxSize, reserved, t) <= 0
  {
  }

  lemma ExcessAtMost(t: nat, j: Job, input: seq<byte>, tpl: Template, txns: nat)
    requires t < TYPES && WfJob(j) && |input| <= 100
    requires |j.commitment| == 38 && |j.pool| >= 3 && txns <= 16383
    ensures Excess(t, j, input, tpl, txns) <= 18
  {
    hide Selected, Emitted, Room, Le;
    SelectedSize(t, j, input, tpl);
  }

  /** With less left over the limits can be broken: here the budget is used up to the last byte, and the block of 2001
      transactions weighs 64 units too much. The template leaves 1152 units beside its transactions, so this presupposes
      a node that reserves as little as the gateway does. */
  lemma OverweightExample(extranonce: seq<byte>)
    requires |extranonce| == 12
    ensures var script: seq<byte> := seq(22, _ => 0x51);
            var j := Job([TxOut(1, script)], 5, script, seq(38, _ => 0), 0);
            var tpl := Template(1_000_000, 3_998_848, 4_000_000, 4_000_000);
            var (c1, c2) := Generated(1, j, script, tpl, false);
            && WfJob(j) && Room(1, j, script, tpl) == 31
            && BlockWeight(|c1 + extranonce + c2|, 2000, tpl) == tpl.weightLimit + 64
  {
    var script: seq<byte> := seq(22, _ => 0x51);
    var j := Job([TxOut(1, script)], 5, script, seq(38, _ => 0), 0);
    var tpl := Template(1_000_000, 3_998_848, 4_000_000, 4_000_000);
    assert WfJob(j) && Reserved(1, j, script) == 163;
    assert Room(1, j, script, tpl) == 31;
    hide Generated, Room, Picks, EncOut, Total;
    OnePicked(j);
    SizeIs(1, j, script, tpl, extranonce);
  }

  lemma OnePicked(j: Job)
    requires |j.outs| == 1 && |j.outs[0].script| == 22 && j.outs[0].value == 1 && j.value == 5
    ensures Selected(j, 31) == [0]
    ensures |Emitted(j.outs, [0])| == 31 && Paid(j.outs, [0]) == 1
  {
    PickStep(j.outs, 0, 31, 0, 5);
    assert OutsOf(j.outs, [0]) == j.outs;
    assert Total(j.outs) == j.outs[0].value + Total(j.outs[1..]);
    hide EncOut;
    assert EncOuts(j.outs) == EncOut(j.outs[0]) + EncOuts(j.outs[1..]);
    CostIsSize(j.outs[0]);
  }

  // ---- the scriptSig in the coinbase ----

  /** The recorded index addresses the same scriptSig byte in coinb1 of every type. */
  lemma PotAddresses(t: nat, j: Job, input: seq<byte>, pot: nat, tpl: Template, emptyOnly: bool)
    requires t < TYPES && WfJob(j) && |input| <= 100 && pot < |input|
    ensures var c1 := Generated(t, j, input, tpl, emptyOnly).0;
            var i := |CB_START| + 1 + pot;
            i < |c1| && c1[i] == input[pot]
  {
    hide Subtype2, Empty2, Room, ReturnHead, Emitted, Le;
    var source := if emptyOnly then 0 else t;
    var b := Start(source, j, input);
    var i := |CB_START| + 1 + pot;
    assert b[i] == input[pot];
    var c1 := Generated(t, j, input, tpl, emptyOnly).0;
    assert b <= c1;
  }

  /** For every height under 2^23 and tags of at most 64 bytes, in every type: the scriptSig of the coinbase, extranonce
      push included where it is there, has at most 100 bytes, and the recorded index addresses the 0xFF placeholder. */
  lemma ScriptSigInEveryType(t: nat, j: Job, height: nat, cfg: ScriptSig.Config, tpl: Template, emptyOnly: bool,
                             extranonce: seq<byte>)
    requires 1 <= height < 0x80_0000 && |cfg.Tag0()| <= 64 && |cfg.secondary| <= 64
    requires t < TYPES && WfJob(j) && |extranonce| == 12
    ensures ScriptSig.Input(height, cfg).Some?
    ensures var (cb, pot) := ScriptSig.Input(height, cfg).value;
            && 2 <= |FullScript(t, j, cb, emptyOnly, extranonce)| <= 100
            && var c1, i := Generated(t, j, cb, tpl, emptyOnly).0, |CB_START| + 1 + pot;
            && i < |c1| && c1[i] == 0xFF
  {
    hide Generated, ScriptSig.Input;
    ScriptSig.InputBound(height, cfg);
    var (cb, pot) := ScriptSig.Input(height, cfg).value;
    PotAddresses(t, j, cb, pot, tpl, emptyOnly);
  }

  /** So, at today's heights, type 0 can be read for every extranonce exactly when the configured tags are short enough;
      with a primary tag of 64 bytes and a secondary one of 20, say, it cannot. */
  lemma TypeZeroByTags(j: Job, height: nat, cfg: ScriptSig.Config, tpl: Template)
    requires 0x8000 <= height < 0x80_0000 && |cfg.Tag0()| <= 64 && |cfg.secondary| <= 64 && WfJob(j)
    ensures ScriptSig.Input(height, cfg).Some?
    ensures var (c1, c2) := Generated(0, j, ScriptSig.Input(height, cfg).value.0, tpl, false);
            (forall extranonce: seq<byte> :: |extranonce| == 12 ==> ReadsAny(c1, extranonce, c2))
            <==> ScriptSig.TagBytes(cfg) < (if cfg.primeId == 0 && !cfg.active then 76 else 73)
  {
    hide Generated, ScriptSig.Input, ReadsAny, ScriptSig.TagBytes;
    ScriptSig.InputBound(height, cfg);
    ScriptSig.LongInputIff(height, cfg);
    TypeZeroIff(j, ScriptSig.Input(height, cfg).value.0, tpl);
  }

  lemma LongTagsExample()
    ensures var cfg := ScriptSig.Config(seq(64, _ => 0x41), [], seq(20, _ => 0x42), 0, 0, false);
            && ScriptSig.TagBytes(cfg) == 86
            && ScriptSig.Input(840_000, cfg).Some? && |ScriptSig.Input(840_000, cfg).value.0| == 96
  {
    hide Le;
  }
}
