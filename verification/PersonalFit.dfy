/** Exactly when the personal half fits a first half that already announces an output count. */
module PersonalFit {
  import opened Bytes
  import opened Transaction
  import opened Coinbase
  import opened CoinbaseTypes
  import opened CoinbaseTheorems
  import opened Budget
  import opened PersonalHalves

  /** A first half that ends in the extranonce output: scriptSig, announced count, payouts before that output. */
  function CountedFirst(input: seq<byte>, e: nat, count: nat, before: seq<TxOut>): seq<byte> {
    CB_START + (Varint(|input|) + input + SEQUENCE) + (Varint(count) + (EncOuts(before) + ReturnHead(e)))
  }

  /** With payouts `after` in the second half the bytes are an announced count, the outputs, and the lock time. */
  lemma CountedBytes(input: seq<byte>, e: nat, count: nat, before: seq<TxOut>, extranonce: seq<byte>,
                     after: seq<TxOut>, rest: seq<byte>) returns (front: seq<byte>, outs: seq<TxOut>)
    requires |extranonce| == 12
    ensures front == CB_START + (Varint(|input|) + input + SEQUENCE)
    ensures outs == before + [ReturnOut(e, extranonce)] + after
    ensures CountedFirst(input, e, count, before) + extranonce + (EncOuts(after) + rest)
         == front + (Varint(count) + (EncOuts(outs) + rest))
  {
    hide EncOuts, ReturnHead, ReturnOut, Le, Varint;
    front := CB_START + (Varint(|input|) + input + SEQUENCE);
    var r := ReturnOut(e, extranonce);
    outs := before + [r] + after;
    OutsConcat(before + [r], after);
    OutsConcat(before, [r]);
    ReturnBytes(e, extranonce);
    OneOut(r);
    Reassociate(CB_START, Varint(|input|) + input + SEQUENCE, Varint(count), EncOuts(before), ReturnHead(e),
                extranonce, EncOuts(after), rest);
    Flatten(CB_START, Varint(|input|) + input + SEQUENCE, Varint(count),
            EncOuts(before) + (ReturnHead(e) + extranonce) + EncOuts(after) + rest);
  }

  lemma OneOut(o: TxOut)
    ensures EncOuts([o]) == EncOut(o)
  {
    hide EncOut;
    EncOutsSnoc([], o);
    NoOuts();
    assert [] + [o] == [o];
  }

  lemma Flatten(a: seq<byte>, b: seq<byte>, c: seq<byte>, d: seq<byte>)
    ensures a + (b + (c + d)) == a + b + (c + d)
  {
  }

  /** Positions in such bytes: count, outputs, and the rest. */
  lemma CountedPositions(bytes: seq<byte>, input: seq<byte>, front: seq<byte>, count: nat, outs: seq<TxOut>,
                         rest: seq<byte>) returns (p: nat)
    requires |input| <= 100 && count < U64
    requires front == CB_START + (Varint(|input|) + input + SEQUENCE)
    requires bytes == front + (Varint(count) + (EncOuts(outs) + rest))
    ensures p == |CB_START| + 1 + |input| + 4 && At(bytes, 0, front)
    ensures ReadVarint(bytes, p) == Some((count, p + |Varint(count)|))
    ensures At(bytes, p + |Varint(count)|, EncOuts(outs))
    ensures |bytes| == p + |Varint(count)| + |EncOuts(outs)| + |rest|
  {
    hide EncOuts, At, ReadVarint, Le;
    AtSelf(bytes);
    p := |front|;
    AtConcat(bytes, 0, front, Varint(count) + (EncOuts(outs) + rest));
    AtConcat(bytes, p, Varint(count), EncOuts(outs) + rest);
    AtConcat(bytes, p + |Varint(count)|, EncOuts(outs), rest);
    VarintRoundTrip(bytes, p, count);
  }

  lemma TooFewOutputs(bytes: seq<byte>, off: nat, outs: seq<TxOut>, n: nat)
    requires At(bytes, off, EncOuts(outs)) && n > |outs| && forall o :: o in outs ==> WfOut(o)
    requires off + |EncOuts(outs)| + 4 == |bytes|
    ensures DecList(bytes, off, n, DecOut) == None
  {
    hide EncOuts;
    OutsThen(bytes, off, outs, n);
    assert DecOut(bytes, off + |EncOuts(outs)|) == None;
  }

  lemma TooManyOutputs(bytes: seq<byte>, off: nat, outs: seq<TxOut>, n: nat)
    requires At(bytes, off, EncOuts(outs)) && n < |outs| && forall o :: o in outs ==> WfOut(o)
    ensures DecList(bytes, off, n, DecOut).Some?
    ensures DecList(bytes, off, n, DecOut).value.1 < off + |EncOuts(outs)|
  {
    hide EncOuts, At;
    assert outs == outs[..n] + outs[n..];
    OutsConcat(outs[..n], outs[n..]);
    AtConcat(bytes, off, EncOuts(outs[..n]), EncOuts(outs[n..]));
    OutsRoundTrip(bytes, off, outs[..n]);
    SomeBytes(outs[n..]);
  }

  lemma SomeBytes(outs: seq<TxOut>)
    requires outs != []
    ensures |EncOuts(outs)| > 0
  {
  }

  /** The reassembled bytes are a whole transaction exactly when the announced count is the number of outputs. */
  lemma CountedIff(j: Job, input: seq<byte>, count: nat, before: seq<TxOut>, payable: seq<TxOut>,
                   extranonce: seq<byte>)
    requires WfJob(j) && |input| <= 100 && |extranonce| == 12 && count < U64
    requires |before| + |payable| < U32
    requires (forall o :: o in before ==> WfOut(o)) && forall o :: o in payable ==> WfPayout(o)
    ensures ReadsAny(CountedFirst(input, j.enprefix, count, before), extranonce, PersonalHalf(j, payable, false))
       <==> count == |before| + |payable| + 4
  {
    hide DecTx, EncOuts, Le, DecList, WfOut, At, Varint, TailOuts, ReadVarint, CountedFirst;
    var c1 := CountedFirst(input, j.enprefix, count, before);
    var c2 := PersonalHalf(j, payable, false);
    var after := PersonalOuts(j, payable);
    OutsConcat(payable, TailOuts(j, Wrapped(payable)));
    assert c2 == EncOuts(after) + LOCKTIME;
    var front, outs := CountedBytes(input, j.enprefix, count, before, extranonce, after, LOCKTIME);
    var bytes := c1 + extranonce + c2;
    var p := CountedPositions(bytes, input, front, count, outs, LOCKTIME);
    CountedFine(j, before, payable, extranonce);
    TailThree(j, Wrapped(payable));
    FrontReads(bytes, input);
    var off := p + |Varint(count)|;
    if count > |outs| {
      TooFewOutputs(bytes, off, outs, count);
    } else if count < |outs| {
      TooManyOutputs(bytes, off, outs, count);
    } else {
      EncCoinbaseTx(input, outs);
      Flatten(CB_START, Varint(|input|) + input + SEQUENCE, Varint(count), EncOuts(outs) + LOCKTIME);
      ReadsEncoding(c1, extranonce, c2, input, outs);
    }
  }

  lemma CountedFine(j: Job, before: seq<TxOut>, payable: seq<TxOut>, extranonce: seq<byte>)
    requires WfJob(j) && |extranonce| == 12
    requires (forall o :: o in before ==> WfOut(o)) && forall o :: o in payable ==> WfPayout(o)
    ensures forall o :: o in before + [ReturnOut(j.enprefix, extranonce)] + PersonalOuts(j, payable) ==> WfOut(o)
  {
    PersonalOutsFine(j, payable);
  }

  /** When the extranonce does not fit the scriptSig, the first half of every other type already announces the shared
      coinbase's count: the personal half fits exactly when it has as many payouts as the shared half it replaces. */
  lemma PersonalFitsIff(t: nat, j: Job, input: seq<byte>, tpl: Template, payable: seq<TxOut>, extranonce: seq<byte>)
    requires 0 < t < TYPES && !Roomy(input) && WfJob(j) && |input| <= 100 && |extranonce| == 12
    requires |payable| <= 30 && forall o :: o in payable ==> WfPayout(o)
    ensures var ks := Selected(j, Room(t, j, input, tpl));
            var n := Leading(j, Room(t, j, input, tpl), t == 2, |Start(t, j, input)|);
            (ReadsAny(Generated(t, j, input, tpl, false).0, extranonce, PersonalHalf(j, payable, false))
             <==> |payable| == |ks| - n)
  {
    hide ReadsAny, Le, EncOuts, Varint, ReturnHead, Selected, Leading, Room, Subtype2, PersonalHalf;
    var room := Room(t, j, input, tpl);
    var ks := Selected(j, room);
    var n := Leading(j, room, t == 2, |Start(t, j, input)|);
    var before := OutsOf(j.outs, ks[..n]);
    PayoutsFine(j, ks[..n]);
    SelectedSize(t, j, input, tpl);
    assert Generated(t, j, input, tpl, false).0 == CountedFirst(input, j.enprefix, |ks| + 4, before);
    CountedIff(j, input, |ks| + 4, before, payable, extranonce);
  }

  /** In the special layout with a short scriptSig the personal half repeats sequence and count where an output is
      expected: if the bytes read as a transaction at all, it claims more than any coinbase value below 214 bitcoin. */
  lemma PersonalOverclaims(j: Job, input: seq<byte>, tpl: Template, payable: seq<TxOut>, extranonce: seq<byte>)
    requires Roomy(input) && WfJob(j) && |extranonce| == 12
    requires 1 <= |payable| <= 30 && j.value < 5 * U32 - 1
    ensures var bytes := Generated(2, j, input, tpl, false).0 + extranonce + PersonalHalf(j, payable, true);
            DecTx(bytes, 0).Some? ==> Total(DecTx(bytes, 0).value.0.outs) > j.value
  {
    hide DecTx, Le, EncOuts, ReturnHead, Selected, Leading, Room, Subtype2, Tail, DecList, At, ReadVarint, WfOut,
         CountedFirst, Varint, ReturnOut;
    var room := Room(2, j, input, tpl);
    var ks := Selected(j, room);
    var n := Leading(j, room, true, |Start(2, j, input)|);
    var before := OutsOf(j.outs, ks[..n]);
    PayoutsFine(j, ks[..n]);
    SelectedSize(2, j, input, tpl);
    FirstIsCounted(j, input, tpl);
    var c1 := Generated(2, j, input, tpl, false).0;
    var rest := PersonalHalf(j, payable, true);
    assert EncOuts([]) + rest == rest by {
      NoOuts();
    }
    var front, outs := CountedBytes(input, j.enprefix, |ks| + 4, before, extranonce, [], rest);
    var bytes := c1 + extranonce + rest;
    var p := CountedPositions(bytes, input, front, |ks| + 4, outs, rest);
    CountedFineAgain(j, before, extranonce);
    FrontReads(bytes, input);
    if DecTx(bytes, 0).Some? {
      var off := p + |Varint(|ks| + 4)|;
      OutsThen(bytes, off, outs, |ks| + 4);
      var q := off + |EncOuts(outs)|;
      RestAt(bytes, rest);
      var m := |payable| + 3;
      SequenceAsValue(bytes, q, j, payable);
      FirstValue(bytes, q, |ks| + 4 - |outs|);
      TotalConcat(outs, DecList(bytes, q, |ks| + 4 - |outs|, DecOut).value.0);
    }
  }

  lemma FirstIsCounted(j: Job, input: seq<byte>, tpl: Template)
    requires WfJob(j)
    ensures var room := Room(2, j, input, tpl);
            var ks := Selected(j, room);
            var n := Leading(j, room, true, |Start(2, j, input)|);
            Generated(2, j, input, tpl, false).0
            == CountedFirst(input, j.enprefix, |ks| + 4, OutsOf(j.outs, ks[..n]))
  {
    hide Le, EncOuts, Varint, ReturnHead, Selected, Leading, Room, Subtype2;
  }

  lemma CountedFineAgain(j: Job, before: seq<TxOut>, extranonce: seq<byte>)
    requires |extranonce| == 12 && forall o :: o in before ==> WfOut(o)
    ensures forall o :: o in before + [ReturnOut(j.enprefix, extranonce)] + [] ==> WfOut(o)
  {
  }

  lemma RestAt(bytes: seq<byte>, rest: seq<byte>)
    requires |bytes| >= |rest| && bytes[|bytes| - |rest|..] == rest
    ensures At(bytes, |bytes| - |rest|, rest)
  {
  }

  /** Sequence, count and the next three bytes read as one value. */
  lemma SequenceAsValue(bytes: seq<byte>, q: nat, j: Job, payable: seq<TxOut>)
    requires 1 <= |payable| <= 30 && At(bytes, q, PersonalHalf(j, payable, true))
    ensures DecOut(bytes, q).Some? ==> DecOut(bytes, q).value.0.value >= 5 * U32 - 1
  {
    hide EncOuts, Tail;
    var m := |payable| + 3;
    assert Varint(m) == [m];
    AtConcat(bytes, q, SEQUENCE + [m], EncOuts(payable) + Tail(j, Wrapped(payable)));
    if q + 8 <= |bytes| {
      var w := bytes[q..q + 8];
      assert w[..5] == SEQUENCE + [m] by {
        assert w[..5] == bytes[q..q + 5];
      }
      assert FromLe(w) == 255 + 256 * FromLe(w[1..]);
      assert FromLe(w[1..]) == 255 + 256 * FromLe(w[2..]) by { assert w[1..][1..] == w[2..]; }
      assert FromLe(w[2..]) == 255 + 256 * FromLe(w[3..]) by { assert w[2..][1..] == w[3..]; }
      assert FromLe(w[3..]) == 255 + 256 * FromLe(w[4..]) by { assert w[3..][1..] == w[4..]; }
      assert FromLe(w[4..]) == m + 256 * FromLe(w[5..]) by { assert w[4..][1..] == w[5..]; }
    }
  }

  lemma FirstValue(bytes: seq<byte>, q: nat, n: nat)
    requires n > 0 && DecList(bytes, q, n, DecOut).Some?
    ensures DecOut(bytes, q).Some?
    ensures Total(DecList(bytes, q, n, DecOut).value.0) >= DecOut(bytes, q).value.0.value
  {
    hide DecOut;
  }
}
