/** The six coinbase types of a stratum job, and what a miner's or the gateway's reassembled bytes mean. */
module CoinbaseTypes {
  import opened Bytes
  import opened Transaction
  import opened Coinbase
  import opened Budget

  const TYPES := 6

  function MaxSize(t: nat): nat {
    if t == 2 then 755 else if t == 3 then 6500 else if t == 4 then 16000 else if t == 5 then 2250 else 500
  }

  /** The scriptSig leaves room for the 15 bytes of the extranonce push. */
  predicate Roomy(input: seq<byte>) { |input| <= 85 }

  predicate InScript(t: nat, input: seq<byte>) { t != 2 && Roomy(input) }

  function Reserved(t: nat, j: Job, input: seq<byte>): nat {
    119 + |j.pool| + |input| + (if !Roomy(input) || t == 2 then 10 else 0)
  }

  // ---- what the generator writes, per type ----

  function Start(t: nat, j: Job, input: seq<byte>): seq<byte> {
    CB_START
    + (if InScript(t, input) then Varint(|input| + 15) + input + ([0x0E] + Prefix(j.enprefix))
       else Varint(|input|) + input + SEQUENCE)
  }

  /** The empty coinbase pays the pool everything; type 0 writes it in every run, the others copy it when there is
      nobody to pay. */
  function Empty1(j: Job, roomy: bool, b1: seq<byte>): seq<byte> {
    if roomy then b1 else b1 + (Varint(4) + ReturnHead(j.enprefix))
  }

  function Empty2(j: Job, roomy: bool): seq<byte> {
    (if roomy then SEQUENCE + Varint(3) else [])
    + (EncOuts([TxOut(j.value, j.pool), TxOut(0, j.commitment), SIGNET_OUT]) + LOCKTIME)
  }

  function Room(t: nat, j: Job, input: seq<byte>, tpl: Template): int {
    Fitted(MaxSize(t), Reserved(t, j, input), tpl)
  }

  /** Both halves of type `t`. */
  function Generated(t: nat, j: Job, input: seq<byte>, tpl: Template, emptyOnly: bool): (seq<byte>, seq<byte>)
    requires WfJob(j)
  {
    var start0 := Start(0, j, input);
    if emptyOnly then (Empty1(j, Roomy(input), start0), Empty2(j, Roomy(input)))
    else
      var b1 := if t == 0 then Empty1(j, Roomy(input), start0) else Start(t, j, input);
      var b2 := if t == 0 then Empty2(j, Roomy(input)) else [];
      var room := Room(t, j, input, tpl);
      (Subtype1(j, room, InScript(t, input), t == 2, b1), Subtype2(j, room, InScript(t, input), t == 2, b1, b2))
  }

  method WriteStart(h: Halves, t: nat, j: Job, input: seq<byte>, pot: nat) returns (potIndex: nat)
    requires h.coinb1 == [] && h.coinb2 == [] && |input| <= 100
    modifies h
    ensures h.coinb1 == Start(t, j, input) && h.coinb2 == []
    ensures potIndex == |CB_START| + 1 + pot
  {
    hide Le;
    var roomy := |input| <= 85;
    h.coinb1 := CB_START;
    if t != 2 && roomy {
      h.coinb1 := h.coinb1 + Varint(|input| + 15);
    } else {
      h.coinb1 := h.coinb1 + Varint(|input|);
    }
    potIndex := pot + |h.coinb1|;
    h.coinb1 := h.coinb1 + input;
    if t != 2 && roomy {
      h.coinb1 := h.coinb1 + [0x0E];
      h.coinb1 := h.coinb1 + Prefix(j.enprefix);
    } else {
      h.coinb1 := h.coinb1 + SEQUENCE;
    }
  }

  method WriteEmpty(h: Halves, j: Job, roomy: bool)
    requires h.coinb2 == []
    modifies h
    ensures h.coinb1 == Empty1(j, roomy, old(h.coinb1)) && h.coinb2 == Empty2(j, roomy)
  {
    hide ReturnHead, EncOut;
    if roomy {
      h.coinb2 := SEQUENCE;
      h.coinb2 := h.coinb2 + Varint(3);
    } else {
      h.coinb1 := h.coinb1 + Varint(4);
      h.coinb1 := h.coinb1 + ReturnHead(j.enprefix);
    }
    h.PutSecond(TxOut(j.value, j.pool));
    h.PutSecond(TxOut(0, j.commitment));
    h.PutSecond(SIGNET_OUT);
    h.coinb2 := h.coinb2 + LOCKTIME;
    ThreeOuts(TxOut(j.value, j.pool), TxOut(0, j.commitment), SIGNET_OUT);
  }

  /** One coinbase type of a job, with the position of the proof-of-work target placeholder in coinb1. */
  method GenerateType(t: nat, j: Job, input: seq<byte>, pot: nat, tpl: Template, emptyOnly: bool)
    returns (h: Halves, potIndex: nat)
    requires t < TYPES && WfJob(j) && |input| <= 100
    ensures fresh(h)
    ensures (h.coinb1, h.coinb2) == Generated(t, j, input, tpl, emptyOnly)
    ensures potIndex == |CB_START| + 1 + pot
  {
    hide Start, Empty1, Empty2, Subtype1, Subtype2, Fitted;
    h := new Halves();
    var source := if emptyOnly then 0 else t;
    potIndex := WriteStart(h, source, j, input, pot);
    var roomy := |input| <= 85;
    if source == 0 {
      WriteEmpty(h, j, roomy);
    }
    if !emptyOnly {
      var reserved := 119 + |j.pool| + |input| + (if !roomy || t == 2 then 10 else 0);
      var room := FitToTemplate(MaxSize(t), reserved, tpl);
      GenerateSubtype(h, j, room, t != 2 && roomy, t == 2);
    }
  }

  // ---- the transaction behind the halves ----

  function CoinbaseTx(script: seq<byte>, outs: seq<TxOut>): Tx {
    Tx(VERSION, false, [TxIn(PREVOUT, script, SEQUENCE)], outs, [], LOCKTIME)
  }

  /** Reassembled with the 12 extranonce bytes between the halves, the bytes are read by the reference decoder as
      this transaction, with nothing left over. */
  ghost predicate Reads(c1: seq<byte>, extranonce: seq<byte>, c2: seq<byte>, t: Tx) {
    var bytes := c1 + extranonce + c2;
    DecTx(bytes, 0) == Some((t, |bytes|))
  }

  lemma EncCoinbaseTx(script: seq<byte>, outs: seq<TxOut>)
    ensures EncTx(CoinbaseTx(script, outs))
         == CB_START + (Varint(|script|) + script + SEQUENCE + (Varint(|outs|) + (EncOuts(outs) + LOCKTIME)))
  {
    hide Le, Varint, EncList;
    var t := CoinbaseTx(script, outs);
    var i := t.ins[0];
    assert EncList(t.wits, EncStack) == [] && EncList(t.ins, EncIn) == EncIn(i) by {
      EncSingle(i);
    }
    assert EncHead(t) == VERSION;
    assert EncTail(t) == LOCKTIME;
    OneIsOne();
    assert EncInputs(t) == [0x01] + (PREVOUT + (Varint(|script|) + script + SEQUENCE));
  }

  lemma OneIsOne()
    ensures Varint(1) == [0x01]
  {
  }

  lemma EncSingle(i: TxIn)
    ensures EncList([i], EncIn) == EncIn(i) && EncList<seq<seq<byte>>>([], EncStack) == []
  {
    hide EncIn;
    assert EncList([i][1..], EncIn) == [];
  }

  lemma OutsConcat(a: seq<TxOut>, b: seq<TxOut>)
    ensures EncOuts(a + b) == EncOuts(a) + EncOuts(b)
  {
    EncListConcat(a, b, EncOut);
  }

  lemma ThreeOuts(a: TxOut, b: TxOut, c: TxOut)
    ensures EncOuts([a, b, c]) == EncOut(a) + EncOut(b) + EncOut(c)
  {
    hide EncOut;
    EncOutsSnoc([a, b], c);
    EncOutsSnoc([a], b);
    EncOutsSnoc([], a);
    assert [a, b] + [c] == [a, b, c] && [a] + [b] == [a, b] && [] + [a] == [a];
  }

  lemma ReadsEncoding(c1: seq<byte>, extranonce: seq<byte>, c2: seq<byte>, script: seq<byte>, outs: seq<TxOut>)
    requires |script| < U64 && |outs| < U64 && forall o :: o in outs ==> WfOut(o)
    requires c1 + extranonce + c2 == EncTx(CoinbaseTx(script, outs))
    ensures Reads(c1, extranonce, c2, CoinbaseTx(script, outs))
  {
    hide EncTx, DecTx;
    AtSelf(c1 + extranonce + c2);
    TxRoundTrip(c1 + extranonce + c2, 0, CoinbaseTx(script, outs));
  }

  /** Layout with the extranonce in the scriptSig: coinb2 starts with the sequence and the output count. */
  lemma ScriptLayout(e: nat, input: seq<byte>, extranonce: seq<byte>, outs: seq<TxOut>)
    requires |input| <= 85 && |extranonce| == 12
    ensures var script := input + ([0x0E] + Prefix(e) + extranonce);
            CB_START + (Varint(|input| + 15) + input + ([0x0E] + Prefix(e))) + extranonce
            + (SEQUENCE + Varint(|outs|) + (EncOuts(outs) + LOCKTIME))
            == EncTx(CoinbaseTx(script, outs))
  {
    hide Le, Varint, EncOuts, Prefix, EncTx;
    var script := input + ([0x0E] + Prefix(e) + extranonce);
    assert |script| == |input| + 15;
    EncCoinbaseTx(script, outs);
  }

  /** Layouts with the extranonce in an output: the outputs before it are in coinb1, the others in coinb2. */
  lemma ReturnLayout(e: nat, input: seq<byte>, extranonce: seq<byte>, before: seq<TxOut>, after: seq<TxOut>)
    requires |extranonce| == 12
    ensures var outs := before + [ReturnOut(e, extranonce)] + after;
            CB_START + (Varint(|input|) + input + SEQUENCE) + (Varint(|outs|) + (EncOuts(before) + ReturnHead(e)))
            + extranonce + (EncOuts(after) + LOCKTIME)
            == EncTx(CoinbaseTx(input, outs))
  {
    var r := ReturnOut(e, extranonce);
    var outs := before + [r] + after;
    hide *;
    assert EncOuts(outs) == EncOuts(before + [r]) + EncOuts(after) by {
      OutsConcat(before + [r], after);
    }
    EncOutsSnoc(before, r);
    ReturnBytes(e, extranonce);
    EncCoinbaseTx(input, outs);
    assert EncOuts(outs) == EncOuts(before) + (ReturnHead(e) + extranonce) + EncOuts(after);
    Reassociate(CB_START, Varint(|input|) + input + SEQUENCE, Varint(|outs|), EncOuts(before), ReturnHead(e),
                extranonce, EncOuts(after), LOCKTIME);
  }

  lemma Reassociate(s: seq<byte>, i: seq<byte>, n: seq<byte>, b: seq<byte>, r: seq<byte>, x: seq<byte>,
                    a: seq<byte>, l: seq<byte>)
    ensures s + i + (n + (b + r)) + x + (a + l) == s + (i + (n + (b + (r + x) + a + l)))
  {
  }

  lemma ReturnBytes(e: nat, extranonce: seq<byte>)
    requires |extranonce| == 12
    ensures EncOut(ReturnOut(e, extranonce)) == ReturnHead(e) + extranonce
  {
    hide Le;
    var script := ReturnOut(e, extranonce).script;
    assert Varint(|script|) == [0x10];
  }
}
