/** The second coinbase half built for one miner (datum_coinbaser.c, datum_generate_personal_coinb2). */
module PersonalHalves {
  import opened Bytes
  import opened Transaction
  import opened Coinbase
  import opened CoinbaseTypes
  import opened Budget
  import opened Wire

  /** Output scripts of the addresses that can be decoded. */
  type Scripts = map<string, seq<byte>>

  predicate WfScripts(scripts: Scripts) { forall a :: a in scripts ==> 1 <= |scripts[a]| <= 64 }

  /** The payable service outputs: a positive amount and a decodable address. */
  function Payable(outs: seq<Output>, scripts: Scripts): (r: seq<TxOut>)
    ensures |r| <= |outs|
  {
    if outs == [] then []
    else if outs[0].amount > 0 && outs[0].address in scripts then
      [TxOut(outs[0].amount, scripts[outs[0].address])] + Payable(outs[1..], scripts)
    else Payable(outs[1..], scripts)
  }

  /** Running total in unsigned 64-bit arithmetic. */
  function Wrapped(outs: seq<TxOut>): nat { Total(outs) % U64 }

  /** The shared half starts with the sequence, so the output count belongs into the second half. */
  predicate CountInSecond(shared: seq<byte>) { |shared| >= 4 && shared[..4] == SEQUENCE }

  function PersonalHalf(j: Job, payable: seq<TxOut>, countHere: bool): seq<byte> {
    (if countHere then SEQUENCE + Varint(|payable| + 3) else [])
    + (EncOuts(payable) + Tail(j, Wrapped(payable)))
  }

  /** The personal half, or None where the gateway falls back to the shared one. */
  function PersonalFor(j: Job, outs: seq<Output>, scripts: Scripts, shared: seq<byte>): Option<seq<byte>>
    requires |outs| <= MAX_OUTPUTS
  {
    var payable := Payable(outs, scripts);
    if payable == [] || Wrapped(payable) > j.value then None
    else Some(PersonalHalf(j, payable, CountInSecond(shared)))
  }

  lemma PayableSnoc(outs: seq<Output>, o: Output, scripts: Scripts)
    ensures Payable(outs + [o], scripts) == Payable(outs, scripts) + Payable([o], scripts)
  {
    if outs == [] {
      assert [] + [o] == [o];
    } else {
      assert (outs + [o])[1..] == outs[1..] + [o];
      PayableSnoc(outs[1..], o, scripts);
    }
  }

  lemma PayableOne(o: Output, scripts: Scripts)
    ensures Payable([o], scripts)
         == if o.amount > 0 && o.address in scripts then [TxOut(o.amount, scripts[o.address])] else []
  {
    assert Payable([o][1..], scripts) == [];
  }

  /** Converts the service's outputs to scripts, skipping what cannot be paid, and adds them up. */
  method Convert(outs: seq<Output>, scripts: Scripts) returns (values: seq<TxOut>, total: nat)
    ensures values == Payable(outs, scripts) && total == Wrapped(values)
  {
    hide Payable;
    values, total := [], 0;
    NothingPayable(scripts);
    for k := 0 to |outs|
      invariant values == Payable(outs[..k], scripts) && total == Wrapped(values)
    {
      assert outs[..k + 1] == outs[..k] + [outs[k]];
      PayableSnoc(outs[..k], outs[k], scripts);
      PayableOne(outs[k], scripts);
      if outs[k].amount > 0 {
        if outs[k].address in scripts {
          var o := TxOut(outs[k].amount, scripts[outs[k].address]);
          WrappedSnoc(values, o);
          values := values + [o];
          total := Add64(total, outs[k].amount);
        }
      }
    }
    assert outs[..|outs|] == outs;
  }

  /** `outs` is what the service answered; [] when it could not be asked or refused. */
  method GeneratePersonalCoinb2(j: Job, outs: seq<Output>, scripts: Scripts, shared: seq<byte>)
    returns (r: Option<seq<byte>>)
    requires |outs| <= MAX_OUTPUTS
    ensures r == PersonalFor(j, outs, scripts, shared)
  {
    hide EncOut, Payable, EncOuts, Tail, Wrapped;
    var values, total := Convert(outs, scripts);
    if |values| == 0 {
      return None;
    }
    if total > j.value {
      return None;
    }
    var h := new Halves();
    if |shared| >= 4 && shared[..4] == SEQUENCE {
      h.coinb2 := SEQUENCE;
      h.coinb2 := h.coinb2 + Varint(|values| + 3);
    }
    ghost var head := h.coinb2;
    NoneEncoded();
    for k := 0 to |values|
      invariant h.coinb2 == head + EncOuts(values[..k])
    {
      assert values[..k + 1] == values[..k] + [values[k]];
      EncOutsSnoc(values[..k], values[k]);
      h.PutSecond(values[k]);
    }
    assert values[..|values|] == values;
    h.PutTail(j, total);
    assert h.coinb2 == head + (EncOuts(values) + Tail(j, total));
    return Some(h.coinb2);
  }

  lemma {:induction false} PayableNone(outs: seq<Output>, scripts: Scripts)
    ensures Payable(outs, scripts) == []
       <==> forall i :: 0 <= i < |outs| ==> outs[i].amount <= 0 || outs[i].address !in scripts
  {
    if outs != [] {
      PayableNone(outs[1..], scripts);
      assert forall i :: 0 <= i < |outs| ==> outs[i] == outs[0] || (i > 0 && outs[i] == outs[1..][i - 1]);
      assert forall i :: 0 <= i < |outs| - 1 ==> outs[1..][i] == outs[i + 1];
    }
  }

  /** The gateway falls back exactly when none of the outputs can be paid, or what can be paid, added as unsigned 64-bit
      numbers, is more than the coinbase value. */
  lemma RefusedIff(j: Job, outs: seq<Output>, scripts: Scripts, shared: seq<byte>)
    requires |outs| <= MAX_OUTPUTS
    ensures PersonalFor(j, outs, scripts, shared).None?
       <==> || (forall i :: 0 <= i < |outs| ==> outs[i].amount <= 0 || outs[i].address !in scripts)
            || Total(Payable(outs, scripts)) % 0x1_0000_0000_0000_0000 > j.value
  {
    PayableNone(outs, scripts);
    hide Payable, Total;
  }

  lemma NothingPayable(scripts: Scripts)
    ensures Payable([], scripts) == [] && Wrapped([]) == 0
  {
  }

  lemma NoneEncoded()
    ensures EncOuts([]) == []
  {
  }

  lemma WrappedSnoc(outs: seq<TxOut>, o: TxOut)
    ensures Wrapped(outs + [o]) == Add64(Wrapped(outs), o.value)
  {
    TotalConcat(outs, [o]);
    TotalOne(o);
    hide Wrapped, Total, Add64;
    AddWraps(Total(outs), o.value);
    assert Wrapped(outs + [o]) == (Total(outs) + o.value) % U64 by { WrappedIs(outs + [o]); }
    WrappedIs(outs);
    Add64Is(Wrapped(outs), o.value);
  }

  lemma WrappedIs(outs: seq<TxOut>)
    ensures Wrapped(outs) == Total(outs) % U64
  {
  }

  lemma Add64Is(a: nat, b: nat)
    ensures Add64(a, b) == (a + b) % U64
  {
  }

  lemma TotalOne(o: TxOut)
    ensures Total([o]) == o.value
  {
    assert Total([o]) == o.value + Total([o][1..]);
  }

  lemma AddWraps(a: nat, b: nat)
    ensures (a + b) % U64 == (a % U64 + b) % U64
  {
  }

  lemma {:induction false} PayableFine(outs: seq<Output>, scripts: Scripts)
    requires WfScripts(scripts) && forall i :: 0 <= i < |outs| ==> IsInt64(outs[i].amount)
    ensures forall o :: o in Payable(outs, scripts) ==> WfPayout(o)
  {
    if outs != [] {
      PayableFine(outs[1..], scripts);
    }
  }

  // ---- fit with the first half ----

  function PersonalOuts(j: Job, payable: seq<TxOut>): seq<TxOut> { payable + TailOuts(j, Wrapped(payable)) }

  lemma PersonalOutsFine(j: Job, payable: seq<TxOut>)
    requires WfJob(j) && forall o :: o in payable ==> WfPayout(o)
    ensures forall o :: o in PersonalOuts(j, payable) ==> WfOut(o)
  {
  }

  /** Every type whose extranonce is in the scriptSig reads back with the personal half in place of the shared one:
      the payable outputs in order, then pool or dummy and the two commitments, nothing left over. */
  lemma PersonalReads(t: nat, j: Job, input: seq<byte>, tpl: Template, emptyOnly: bool, payable: seq<TxOut>,
                      extranonce: seq<byte>)
    requires t < TYPES && t != 2 && Roomy(input) && WfJob(j) && |extranonce| == 12
    requires |payable| <= MAX_OUTPUTS && forall o :: o in payable ==> WfPayout(o)
    ensures var script := input + ([0x0E] + Prefix(j.enprefix) + extranonce);
            Reads(Generated(t, j, input, tpl, emptyOnly).0, extranonce, PersonalHalf(j, payable, true),
                  CoinbaseTx(script, PersonalOuts(j, payable)))
  {
    hide EncTx, EncOuts, Varint, Subtype2, Empty2, Reads, TailOuts, Prefix, Room, WfOut, WfPayout, WfJob, Wrapped;
    var outs := PersonalOuts(j, payable);
    ScriptLayout(j.enprefix, input, extranonce, outs);
    OutsConcat(payable, TailOuts(j, Wrapped(payable)));
    TailThree(j, Wrapped(payable));
    PersonalOutsFine(j, payable);
    assert Generated(t, j, input, tpl, emptyOnly).0 == Start(t, j, input);
    ReadsEncoding(Start(t, j, input), extranonce, PersonalHalf(j, payable, true),
                  input + ([0x0E] + Prefix(j.enprefix) + extranonce), outs);
  }

  lemma TailThree(j: Job, paid: nat)
    ensures |TailOuts(j, paid)| == 3
  {
  }

  /** Exact value: with a non-wrapping total the personal outputs add up to the coinbase value. */
  lemma PersonalConserves(j: Job, payable: seq<TxOut>)
    requires Wrapped(payable) <= j.value
    ensures Total(PersonalOuts(j, payable)) == j.value <==> Total(payable) < U64
  {
    var tail := TailOuts(j, Wrapped(payable));
    TotalConcat(payable, tail);
    assert Total(tail) == tail[0].value + Total(tail[1..]);
    assert Total(tail[1..]) == tail[1].value + Total(tail[2..]);
    assert Total(tail[2..]) == tail[2].value + Total(tail[3..]);
  }

  // ---- detecting the layout from the shared half ----

  lemma FourBytes(n: nat)
    ensures Le(n, 8)[..4] == SEQUENCE <==> n % U32 == U32 - 1
  {
    hide Le;
    FirstBytes(n, n / 256, n / 256 / 256, n / 256 / 256 / 256);
    LowBytes(n, n / 256, n / 256 / 256, n / 256 / 256 / 256);
  }

  lemma FirstBytes(n: nat, a: nat, b: nat, c: nat)
    requires a == n / 256 && b == a / 256 && c == b / 256
    ensures Le(n, 8)[..4] == [n % 256, a % 256, b % 256, c % 256]
  {
    assert Le(n, 8) == [n % 256] + Le(a, 7);
    assert Le(a, 7) == [a % 256] + Le(b, 6);
    assert Le(b, 6) == [b % 256] + Le(c, 5);
    assert Le(c, 5) == [c % 256] + Le(c / 256, 4);
  }

  lemma LowPart(n: nat, q: nat, low: nat)
    requires n == U32 * q + low && low < U32
    ensures n % U32 == low
  {
  }

  lemma LowBytes(n: nat, a: nat, b: nat, c: nat)
    requires a == n / 256 && b == a / 256 && c == b / 256
    ensures n % U32 == U32 - 1 <==> n % 256 == a % 256 == b % 256 == c % 256 == 255
  {
    var low := n % 256 + 256 * (a % 256) + 65536 * (b % 256) + 16777216 * (c % 256);
    assert n == U32 * (c / 256) + low;
    LowPart(n, c / 256, low);
  }

  /** The layout is recognised correctly - the count belongs into the second half exactly when the extranonce is in
      the scriptSig - except for a coinbase value whose low 32 bits are all ones, which looks like the sequence. */
  lemma DetectedIff(j: Job, input: seq<byte>, tpl: Template, emptyOnly: bool)
    requires WfJob(j)
    ensures CountInSecond(Generated(0, j, input, tpl, emptyOnly).1)
       <==> Roomy(input) || j.value % U32 == U32 - 1
  {
    hide Generated, Le;
    if Roomy(input) {
      SharedStartsShort(j, input, tpl, emptyOnly);
    } else {
      SharedStartsLong(j, input, tpl, emptyOnly);
      FourBytes(j.value);
      var shared := Generated(0, j, input, tpl, emptyOnly).1;
      assert shared[..4] == shared[..8][..4];
    }
  }

  lemma SharedStartsShort(j: Job, input: seq<byte>, tpl: Template, emptyOnly: bool)
    requires WfJob(j) && Roomy(input)
    ensures var shared := Generated(0, j, input, tpl, emptyOnly).1; |shared| >= 4 && shared[..4] == SEQUENCE
  {
    hide Le, Tail, Selected, Emitted, Room, Subtype1, Start, EncOuts, Varint, Paid, Leading;
  }

  lemma SharedStartsLong(j: Job, input: seq<byte>, tpl: Template, emptyOnly: bool)
    requires WfJob(j) && !Roomy(input)
    ensures var shared := Generated(0, j, input, tpl, emptyOnly).1;
            |shared| >= 8 && shared[..8] == Le(j.value, 8)
  {
    hide Le, Tail, Selected, Emitted, Room, Subtype1, Start, EncOuts, Varint, Paid, Leading;
    var three := [TxOut(j.value, j.pool), TxOut(0, j.commitment), SIGNET_OUT];
    FirstOut(three[0], three[1..]);
    assert [three[0]] + three[1..] == three;
  }

  lemma FirstOut(o: TxOut, rest: seq<TxOut>)
    ensures |EncOuts([o] + rest)| >= 8 && EncOuts([o] + rest)[..8] == Le(o.value, 8)
  {
    hide Le;
    assert ([o] + rest)[0] == o;
  }

  // ---- the layouts the personal half does not fit ----

  lemma {:induction false} OutsThen(buf: seq<byte>, off: nat, outs: seq<TxOut>, n: nat)
    requires At(buf, off, EncOuts(outs)) && n >= |outs| && forall o :: o in outs ==> WfOut(o)
    ensures var p := off + |EncOuts(outs)|;
            var all, rest := DecList(buf, off, n, DecOut), DecList(buf, p, n - |outs|, DecOut);
            && (all.Some? <==> rest.Some?)
            && (all.Some? ==> all.value == (outs + rest.value.0, rest.value.1))
    decreases |outs|
  {
    hide EncOut, DecOut, At, WfOut;
    var p := off + |EncOuts(outs)|;
    if outs == [] {
      var rest := DecList(buf, p, n, DecOut);
      assert rest.Some? ==> [] + rest.value.0 == rest.value.0;
    } else {
      var o := outs[0];
      AtConcat(buf, off, EncOut(o), EncOuts(outs[1..]));
      OutRoundTrip(buf, off, o);
      OutsThen(buf, off + |EncOut(o)|, outs[1..], n - 1);
      var rest := DecList(buf, p, n - |outs|, DecOut);
      assert rest.Some? ==> [o] + (outs[1..] + rest.value.0) == outs + rest.value.0;
    }
  }
}
