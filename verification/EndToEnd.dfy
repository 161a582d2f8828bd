/** From the service's arithmetic over the wire into the bytes a miner hashes. */
module EndToEnd {
  import opened Bytes
  import opened Transaction
  import opened Coinbase
  import opened CoinbaseTypes
  import opened Budget
  import opened Wire
  import opened WireRoundTrip
  import opened Payout
  import opened PersonalHalves

  /** Fees the gateway reports: what the coinbase value has above the subsidy. */
  function Fees(value: nat): nat { if value > SUBSIDY then value - SUBSIDY else 0 }

  /** The service's answer for a miner, as text; the subsidy is a constant of the service. */
  function Answer(miner: string, value: nat, ranked: seq<string>, cut: nat): string
    requires 2 * cut <= SUBSIDY + Fees(value)
  {
    Print(Outputs(miner, SUBSIDY + Fees(value), ranked, cut))
  }

  /** The gateway's half for the miner from that text, or None where it falls back. */
  function HalfFromText(j: Job, text: string, scripts: Scripts, shared: seq<byte>): Option<seq<byte>> {
    var outs :- Parse(text);
    PersonalFor(j, outs, scripts, shared)
  }

  function Paying(outs: seq<Output>, scripts: Scripts): seq<TxOut>
    requires forall i :: 0 <= i < |outs| ==> outs[i].address in scripts && outs[i].amount > 0
  {
    seq(|outs|, i requires 0 <= i < |outs| => TxOut(outs[i].amount, scripts[outs[i].address]))
  }

  lemma {:induction false} AllPayable(outs: seq<Output>, scripts: Scripts)
    requires forall i :: 0 <= i < |outs| ==> outs[i].address in scripts && outs[i].amount > 0
    ensures Payable(outs, scripts) == Paying(outs, scripts)
    ensures Total(Payable(outs, scripts)) == Sum(outs)
  {
    if outs != [] {
      AllPayable(outs[1..], scripts);
      PayingHead(outs, scripts);
      hide Paying, Payable;
      var head := TxOut(outs[0].amount, scripts[outs[0].address]);
      TotalHead(head, Payable(outs[1..], scripts));
    }
  }

  lemma PayingHead(outs: seq<Output>, scripts: Scripts)
    requires outs != []
    requires forall i :: 0 <= i < |outs| ==> outs[i].address in scripts && outs[i].amount > 0
    ensures var head := TxOut(outs[0].amount, scripts[outs[0].address]);
            && Payable(outs, scripts) == [head] + Payable(outs[1..], scripts)
            && Paying(outs, scripts) == [head] + Paying(outs[1..], scripts)
  {
  }

  lemma TotalHead(o: TxOut, rest: seq<TxOut>)
    ensures Total([o] + rest) == o.value + Total(rest)
  {
    assert ([o] + rest)[1..] == rest;
  }

  /** Every address in play can be printed and decoded. */
  predicate Decodable(miner: string, ranked: seq<string>, scripts: Scripts) {
    && WfScripts(scripts)
    && ValidAddress(miner) && miner in scripts
    && (forall r :: r in ranked ==> ValidAddress(r) && r in scripts)
    && POOL_FEE_ADDRESS in scripts
  }

  lemma SlotBounds(total: nat, cut: nat, n: nat)
    requires 2 * cut + 21 <= total && n <= 21
    ensures PerSlot(total, cut) >= 1 && n * PerSlot(total, cut) <= total - 2 * cut
  {
    var slot := PerSlot(total, cut);
    assert n * slot <= 21 * slot;
  }

  lemma OutputsFine(miner: string, total: nat, ranked: seq<string>, cut: nat, scripts: Scripts)
    requires 1 <= cut && 2 * cut + 21 <= total <= INT64_MAX && Decodable(miner, ranked, scripts)
    ensures var outs := Outputs(miner, total, ranked, cut);
            && 2 <= |outs| <= 23
            && (forall i :: 0 <= i < |outs| ==> Printable(outs[i]))
            && (forall i :: 0 <= i < |outs| ==> outs[i].address in scripts && outs[i].amount > 0)
  {
    var n, slot := Filled(ranked), PerSlot(total, cut);
    var outs := Outputs(miner, total, ranked, cut);
    PoolAddressValid();
    SlotBounds(total, cut, n);
    hide Outputs, PerSlot, ValidAddress, Filled;
    forall i | 0 <= i < |outs| ensures Printable(outs[i]) && outs[i].address in scripts && outs[i].amount > 0 {
      OutputAt(miner, total, ranked, cut, i);
    }
  }

  lemma OutputAt(miner: string, total: nat, ranked: seq<string>, cut: nat, i: nat)
    requires 2 * cut <= total && i < Filled(ranked) + 2
    ensures var n, o := Filled(ranked), Outputs(miner, total, ranked, cut)[i];
            && (i == 0 ==> o == Output(miner, cut))
            && (0 < i <= n ==> o.address in ranked && o.amount == PerSlot(total, cut))
            && (i == n + 1 ==> o.address == POOL_FEE_ADDRESS && cut <= o.amount <= total)
  {
    PoolShare(miner, total, ranked, cut);
    OutputsAre(miner, total, ranked, cut);
    hide Outputs;
  }

  lemma PoolAddressValid()
    ensures ValidAddress(POOL_FEE_ADDRESS)
  {
  }

  /** What the text leads to: the very outputs the service computed, all of them payable, in order. */
  lemma TextCarriesOutputs(j: Job, miner: string, ranked: seq<string>, cut: nat, scripts: Scripts, shared: seq<byte>)
    requires WfJob(j) && j.value <= INT64_MAX && Decodable(miner, ranked, scripts)
    requires 1 <= cut && 2 * cut + 21 <= SUBSIDY + Fees(j.value) <= INT64_MAX
    ensures var outs := Outputs(miner, SUBSIDY + Fees(j.value), ranked, cut);
            && |outs| <= MAX_OUTPUTS
            && HalfFromText(j, Answer(miner, j.value, ranked, cut), scripts, shared)
               == PersonalFor(j, outs, scripts, shared)
            && (forall i :: 0 <= i < |outs| ==> outs[i].address in scripts && outs[i].amount > 0)
            && Payable(outs, scripts) == Paying(outs, scripts)
            && Total(Payable(outs, scripts)) == SUBSIDY + Fees(j.value)
  {
    hide Print, Parse, PersonalFor, Outputs, Payable, Paying, Total;
    var total := SUBSIDY + Fees(j.value);
    var outs := Outputs(miner, total, ranked, cut);
    OutputsFine(miner, total, ranked, cut, scripts);
    PrintParse(outs);
    assert outs[..|outs|] == outs;
    AllPayable(outs, scripts);
    OutputsSum(miner, total, ranked, cut);
  }

  /** End to end: with a coinbase value of at least 3.125 bitcoin and every address decodable, the coinbase a miner
      hashes pays the finder its cut, each of the first 21 ranked miners one of 21 equal shares, and the pool's address
      the rest, in that order and each to its own script, and then the zero-value dummy and commitments, whatever the
      number of ranked miners; together exactly the coinbase value. */
  lemma ServicePaysThrough(t: nat, j: Job, input: seq<byte>, tpl: Template, emptyOnly: bool, miner: string,
                           ranked: seq<string>, cut: nat, scripts: Scripts, extranonce: seq<byte>)
    requires t < TYPES && t != 2 && Roomy(input) && WfJob(j) && |extranonce| == 12
    requires 312_500_000 <= j.value <= INT64_MAX && Decodable(miner, ranked, scripts)
    requires 1 <= cut && 2 * cut + 21 <= j.value
    ensures var outs := Outputs(miner, j.value, ranked, cut);
            var shared := Generated(0, j, input, tpl, emptyOnly).1;
            var half := HalfFromText(j, Answer(miner, j.value, ranked, cut), scripts, shared);
            var script := input + ([0x0E] + Prefix(j.enprefix) + extranonce);
            && (forall i :: 0 <= i < |outs| ==> outs[i].address in scripts && outs[i].amount > 0)
            && half.Some?
            && var all := Paying(outs, scripts) + [DUMMY_OUT, TxOut(0, j.commitment), SIGNET_OUT];
            && Reads(Generated(t, j, input, tpl, emptyOnly).0, extranonce, half.value, CoinbaseTx(script, all))
            && Total(all) == j.value
            && PaysService(all, miner, j, ranked, cut, scripts)
  {
    hide PaysService;
    hide Outputs, Answer, HalfFromText, Generated, Payable, PersonalHalf, Reads, Decodable, Prefix, Total, Paying,
         CountInSecond, Roomy;
    var outs := Outputs(miner, j.value, ranked, cut);
    var shared := Generated(0, j, input, tpl, emptyOnly).1;
    TextCarriesOutputs(j, miner, ranked, cut, scripts, shared);
    var payable := Payable(outs, scripts);
    DetectedIff(j, input, tpl, emptyOnly);
    assert forall i :: 0 <= i < |outs| ==> IsInt64(outs[i].amount) by {
      assert Decodable(miner, ranked, scripts);
      OutputsFine(miner, j.value, ranked, cut, scripts);
    }
    PayableFineHere(outs, miner, ranked, scripts);
    PersonalReads(t, j, input, tpl, emptyOnly, payable, extranonce);
    PersonalConserves(j, payable);
    SomethingPayable(outs, scripts);
    PayingService(j, miner, ranked, cut, scripts);
  }

  /** The outputs of a coinbase that pays what the service is for. */
  predicate PaysService(all: seq<TxOut>, miner: string, j: Job, ranked: seq<string>, cut: nat, scripts: Scripts)
    requires 2 * cut <= j.value && Decodable(miner, ranked, scripts)
  {
    var n := if |ranked| > 21 then 21 else |ranked|;
    var slot := (j.value - 2 * cut) / 21;
    && |all| == n + 5
    && all[0] == TxOut(cut, scripts[miner])
    && (forall i :: 0 <= i < n ==> ranked[i] in scripts && all[i + 1] == TxOut(slot, scripts[ranked[i]]))
    && all[n + 1].script == scripts["1DR9pDLvFVnaJBRT5M4hUJLiuCQ7YE8D7b"]
    && all[n + 1].value + cut + n * slot == j.value
    && all[n + 2..] == [TxOut(0, [0x6a, 0x01, 0x00]), TxOut(0, j.commitment),
                        TxOut(0, [0x6a, 0x04, 0xec, 0xc7, 0xda, 0xa2])]
  }

  lemma PayingService(j: Job, miner: string, ranked: seq<string>, cut: nat, scripts: Scripts)
    requires 2 * cut <= j.value && Decodable(miner, ranked, scripts)
    requires var outs := Outputs(miner, j.value, ranked, cut);
             forall i :: 0 <= i < |outs| ==> outs[i].address in scripts && outs[i].amount > 0
    ensures var outs := Outputs(miner, j.value, ranked, cut);
            PaysService(Paying(outs, scripts) + [DUMMY_OUT, TxOut(0, j.commitment), SIGNET_OUT],
                        miner, j, ranked, cut, scripts)
  {
    OutputsAre(miner, j.value, ranked, cut);
    var outs := Outputs(miner, j.value, ranked, cut);
    var n := if |ranked| > 21 then 21 else |ranked|;
    assert outs[n + 1].amount + cut + n * ((j.value - 2 * cut) / 21) == j.value;
    hide Outputs, ValidAddress;
    var three := [DUMMY_OUT, TxOut(0, j.commitment), SIGNET_OUT];
    var all := Paying(outs, scripts) + three;
    assert all[n + 2..] == three;
    forall i | 0 <= i < n ensures ranked[i] in scripts { assert ranked[i] in ranked; }
  }

  lemma PayableFineHere(outs: seq<Output>, miner: string, ranked: seq<string>, scripts: Scripts)
    requires Decodable(miner, ranked, scripts) && forall i :: 0 <= i < |outs| ==> IsInt64(outs[i].amount)
    ensures forall o :: o in Payable(outs, scripts) ==> WfPayout(o)
  {
    PayableFine(outs, scripts);
  }

  lemma SomethingPayable(outs: seq<Output>, scripts: Scripts)
    requires outs != [] && forall i :: 0 <= i < |outs| ==> outs[i].address in scripts && outs[i].amount > 0
    ensures |Paying(outs, scripts)| == |outs| && Paying(outs, scripts) != []
  {
  }

  /** Below the subsidy the service still distributes the whole subsidy; the gateway notices and falls back. */
  lemma ServiceRefusedBelow(j: Job, miner: string, ranked: seq<string>, cut: nat, scripts: Scripts, shared: seq<byte>)
    requires WfJob(j) && j.value < SUBSIDY && Decodable(miner, ranked, scripts)
    requires 1 <= cut && 2 * cut + 21 <= SUBSIDY
    ensures HalfFromText(j, Answer(miner, j.value, ranked, cut), scripts, shared) == None
  {
    hide Outputs, Answer, HalfFromText, Decodable, Payable, Total, PersonalHalf;
    TextCarriesOutputs(j, miner, ranked, cut, scripts, shared);
  }
}
