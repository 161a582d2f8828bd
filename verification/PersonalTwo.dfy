/** The personal half behind the first half of type 2: it can be read as a transaction after all. */
module PersonalTwo {
  import opened Bytes
  import opened Transaction
  import opened Coinbase
  import opened CoinbaseTypes
  import opened CoinbaseTheorems
  import opened Budget
  import opened PersonalHalves
  import opened PersonalFit

  lemma {:induction false} LeOfFromLe(s: seq<byte>)
    ensures Le(FromLe(s), |s|) == s
  {
    if s != [] {
      LeOfFromLe(s[1..]);
      assert FromLe(s) % 256 == s[0] && FromLe(s) / 256 == FromLe(s[1..]);
    }
  }

  /** An amount below 2^24 has five zero bytes on top. */
  lemma SmallAmount(v: nat)
    requires v < 0x100_0000
    ensures Le(v, 8) == Le(v, 3) + [0, 0, 0, 0, 0]
  {
    var a, b, c := v / 256, v / 256 / 256, v / 256 / 256 / 256;
    assert c == 0;
    assert Le(v, 3) == [v % 256] + Le(a, 2) && Le(a, 2) == [a % 256] + Le(b, 1) && Le(b, 1) == [b % 256] + Le(c, 0);
    assert Le(v, 8) == [v % 256] + Le(a, 7) && Le(a, 7) == [a % 256] + Le(b, 6) && Le(b, 6) == [b % 256] + Le(c, 5);
    assert Le(0, 5) == [0] + Le(0, 4) && Le(0, 4) == [0] + Le(0, 3) && Le(0, 3) == [0] + Le(0, 2);
    assert Le(0, 2) == [0] + Le(0, 1) && Le(0, 1) == [0] + Le(0, 0);
  }

  // ---- the three outputs that sequence, count and payouts are read as ----

  /** Sequence, count and the low amount bytes as an amount, with an empty script. */
  function ReadFirst(count: byte, v: nat): TxOut { TxOut(FromLe(SEQUENCE + [count] + Le(v, 3)), []) }

  /** The high amount bytes, the script length and three script bytes as an amount; the fourth script byte as the length
      of a script that runs up to the signet commitment. */
  function ReadSecond(s: seq<byte>, rest: seq<byte>): TxOut
    requires |s| == 22
  {
    TxOut(FromLe([0, 0, 0, 0, 22] + s[..3]), s[4..] + rest)
  }

  lemma FirstBytesRead(count: byte, v: nat)
    requires v < 0x100_0000
    ensures EncOut(ReadFirst(count, v)) == SEQUENCE + [count] + Le(v, 3) + [0]
    ensures WfOut(ReadFirst(count, v))
  {
    var amount := SEQUENCE + [count] + Le(v, 3);
    LeOfFromLe(amount);
    Pow256Values();
    hide Le, FromLe;
    assert Prefixed([]) == [0];
  }

  lemma SecondBytesRead(s: seq<byte>, rest: seq<byte>)
    requires |s| == 22 && s[3] == 18 + |rest| && s[3] < 0xfd
    ensures EncOut(ReadSecond(s, rest)) == [0, 0, 0, 0] + ([22] + s) + rest
    ensures WfOut(ReadSecond(s, rest))
  {
    var amount := [0, 0, 0, 0, 22] + s[..3];
    LeOfFromLe(amount);
    Pow256Values();
    hide Le, FromLe;
    assert s == s[..3] + [s[3]] + s[4..];
    assert Prefixed(s[4..] + rest) == [s[3]] + (s[4..] + rest);
  }

  /** What the second read script swallows after the first payout's own. */
  function Swallowed(j: Job, rest: seq<TxOut>, paid: nat): seq<byte> {
    EncOuts(rest) + (EncOut(PoolOut(j, paid)) + EncOut(TxOut(0, j.commitment)))
  }

  lemma HalfReadAsThree(j: Job, v: nat, s: seq<byte>, rest: seq<TxOut>)
    requires WfJob(j) && v < 0x100_0000 && |s| == 22 && |rest| < 30
    requires var paid := Wrapped([TxOut(v, s)] + rest);
             s[3] == 18 + |Swallowed(j, rest, paid)| && s[3] < 0xfd
    ensures var paid := Wrapped([TxOut(v, s)] + rest);
            var outs := [ReadFirst((|rest| + 4) as byte, v), ReadSecond(s, Swallowed(j, rest, paid)), SIGNET_OUT];
            && PersonalHalf(j, [TxOut(v, s)] + rest, true) == EncOuts(outs) + LOCKTIME
            && forall o :: o in outs ==> WfOut(o)
  {
    var payable := [TxOut(v, s)] + rest;
    var paid := Wrapped(payable);
    var n: byte := |rest| + 4;
    var rest' := Swallowed(j, rest, paid);
    FirstBytesRead(n, v);
    SecondBytesRead(s, rest');
    SmallAmount(v);
    TailParts(j, paid);
    hide Le, Varint, FromLe, EncOuts, Wrapped, Tail, PoolOut, ReadFirst, ReadSecond, WfOut;
    HeadOut(TxOut(v, s), rest);
    ThreeOuts(ReadFirst(n, v), ReadSecond(s, rest'), SIGNET_OUT);
    SignetFine();
    Regrouped(n, Le(v, 3), s, EncOuts(rest), EncOut(PoolOut(j, paid)), EncOut(TxOut(0, j.commitment)),
              EncOut(SIGNET_OUT));
  }

  lemma HeadOut(o: TxOut, rest: seq<TxOut>)
    requires |o.script| == 22
    ensures EncOuts([o] + rest) == Le(o.value, 8) + ([22] + o.script) + EncOuts(rest)
  {
    hide Le, Varint;
    assert ([o] + rest)[1..] == rest;
  }

  lemma SignetFine()
    ensures WfOut(SIGNET_OUT)
  {
  }

  lemma Regrouped(n: byte, low: seq<byte>, s: seq<byte>, r: seq<byte>, p: seq<byte>, c: seq<byte>, g: seq<byte>)
    ensures SEQUENCE + [n] + ((low + [0, 0, 0, 0, 0]) + ([22] + s) + r + (p + c + g + LOCKTIME))
         == ((SEQUENCE + [n] + low + [0]) + ([0, 0, 0, 0] + ([22] + s) + (r + (p + c))) + g) + LOCKTIME
  {
    assert low + [0, 0, 0, 0, 0] == low + [0] + [0, 0, 0, 0];
  }

  // ---- the whole coinbase ----

  /** Behind a first half that already holds every selected payout, a personal half whose first payout is below 2^24
      satoshis, with a 22-byte script whose fourth byte is the length of what follows up to the signet commitment, reads
      as a whole transaction: that commitment is its only output that was meant. */
  lemma PersonalTwoReads(j: Job, input: seq<byte>, tpl: Template, v: nat, s: seq<byte>, rest: seq<TxOut>,
                         extranonce: seq<byte>)
    requires WfJob(j) && Roomy(input) && |extranonce| == 12
    requires Leading(j, Room(2, j, input, tpl), true, |Start(2, j, input)|) == |Selected(j, Room(2, j, input, tpl))|
    requires v < 0x100_0000 && |s| == 22 && |rest| < 30
    requires var paid := Wrapped([TxOut(v, s)] + rest);
             s[3] == 18 + |Swallowed(j, rest, paid)| && s[3] < 0xfd
    ensures ReadsAny(Generated(2, j, input, tpl, false).0, extranonce, PersonalHalf(j, [TxOut(v, s)] + rest, true))
  {
    hide Generated, PersonalHalf, EncOuts, EncTx, DecTx, Leading, Selected, Room, ReadFirst, ReadSecond, Swallowed, Le;
    hide WfOut, Wrapped, Start, Varint, CountedFirst, ReturnOut;
    var room := Room(2, j, input, tpl);
    var ks := Selected(j, room);
    var paid := Wrapped([TxOut(v, s)] + rest);
    var after := [ReadFirst((|rest| + 4) as byte, v), ReadSecond(s, Swallowed(j, rest, paid)), SIGNET_OUT];
    HalfReadAsThree(j, v, s, rest);
    FirstIsCounted(j, input, tpl);
    var before := OutsOf(j.outs, ks[..|ks|]);
    var front, outs := CountedBytes(input, j.enprefix, |ks| + 4, before, extranonce, after, LOCKTIME);
    assert |outs| == |ks| + 4;
    EncCoinbaseTx(input, outs);
    AllReadFine(j, ks[..|ks|], extranonce, after);
    SelectedSize(2, j, input, tpl);
    assert front + (Varint(|outs|) + (EncOuts(outs) + LOCKTIME)) == EncTx(CoinbaseTx(input, outs)) by {
      Flat(CB_START, Varint(|input|) + input + SEQUENCE, Varint(|outs|) + (EncOuts(outs) + LOCKTIME));
    }
    ReadsEncoding(Generated(2, j, input, tpl, false).0, extranonce, PersonalHalf(j, [TxOut(v, s)] + rest, true),
                  input, outs);
  }

  lemma Flat(a: seq<byte>, b: seq<byte>, c: seq<byte>)
    ensures a + b + c == a + (b + c)
  {
  }

  lemma AllReadFine(j: Job, ks: seq<nat>, extranonce: seq<byte>, after: seq<TxOut>)
    requires WfJob(j) && Indices(ks, |j.outs|) && |extranonce| == 12 && forall o :: o in after ==> WfOut(o)
    ensures forall o :: o in OutsOf(j.outs, ks) + [ReturnOut(j.enprefix, extranonce)] + after ==> WfOut(o)
  {
    hide WfOut, WfJob, ReturnOut, OutsOf;
    PayoutsFine(j, ks);
    FixedFine(j, extranonce);
  }

  /** For instance with 0.065625 bitcoin to a version 0 key hash whose second byte is 96: read as a transaction, it
      claims more than the coinbase value. */
  lemma PersonalTwoExample(extranonce: seq<byte>)
    requires |extranonce| == 12
    ensures var script: seq<byte> := seq(22, _ => 0x51);
            var j := Job([TxOut(1, script)], 312_500_000, script, seq(38, _ => 0), 0);
            var tpl := Template(1_000_000, 3_000_000, 4_000_000, 4_000_000);
            var payable := [TxOut(6_562_500, [0x00, 0x14, 0x00, 96] + seq(18, _ => 0))];
            var (c1, c2) := (Generated(2, j, script, tpl, false).0, PersonalHalf(j, payable, true));
            && WfJob(j) && Selected(j, Room(2, j, script, tpl)) == [0]
            && ReadsAny(c1, extranonce, c2)
            && Total(DecTx(c1 + extranonce + c2, 0).value.0.outs) > j.value
  {
    var script: seq<byte> := seq(22, _ => 0x51);
    var j := Job([TxOut(1, script)], 312_500_000, script, seq(38, _ => 0), 0);
    var tpl := Template(1_000_000, 3_000_000, 4_000_000, 4_000_000);
    var s: seq<byte> := [0x00, 0x14, 0x00, 96] + seq(18, _ => 0);
    var payable := [TxOut(6_562_500, s)];
    assert payable + [] == payable;
    ExampleSelection(j, script, tpl);
    ExampleSwallowed(j, s);
    hide Generated, PersonalHalf, DecTx, Leading, Selected, Room, Swallowed, Wrapped, ReadsAny, WfJob;
    PersonalTwoReads(j, script, tpl, 6_562_500, s, [], extranonce);
    PersonalOverclaims(j, script, tpl, payable, extranonce);
    assert DecTx(Generated(2, j, script, tpl, false).0 + extranonce + PersonalHalf(j, payable, true), 0).Some? by {
      ReadsDecodes(Generated(2, j, script, tpl, false).0, extranonce, PersonalHalf(j, payable, true));
    }
  }

  lemma ReadsDecodes(c1: seq<byte>, extranonce: seq<byte>, c2: seq<byte>)
    requires ReadsAny(c1, extranonce, c2)
    ensures DecTx(c1 + extranonce + c2, 0).Some?
  {
    hide DecTx;
  }

  lemma ExampleSelection(j: Job, input: seq<byte>, tpl: Template)
    requires |j.outs| == 1 && |j.outs[0].script| == 22 && j.outs[0].value == 1 && j.value == 312_500_000
    requires |j.pool| == 22 && |input| == 22 && tpl == Template(1_000_000, 3_000_000, 4_000_000, 4_000_000)
    ensures Selected(j, Room(2, j, input, tpl)) == [0]
    ensures Leading(j, Room(2, j, input, tpl), true, |Start(2, j, input)|) == 1
  {
    var room := Room(2, j, input, tpl);
    assert room == 755 - 173;
    PickStep(j.outs, 0, room, 0, j.value);
    var ks := Selected(j, room);
    assert ks[1..] == [] && ks == [0];
    StartLength();
    assert |Start(2, j, input)| == 68;
    hide Picks, Room, Start;
    var outs := OutsOf(j.outs, ks);
    assert LeadFit(outs, 82) == 1 + LeadFit(outs[1..], 51);
    assert LeadBelow([0], 1) == 1;
  }

  lemma ExampleSwallowed(j: Job, s: seq<byte>)
    requires j.value == 312_500_000 && |j.pool| == 22 && |j.commitment| == 38
    ensures |Swallowed(j, [], Wrapped([TxOut(6_562_500, s)]))| == 78
  {
    TotalOne(TxOut(6_562_500, s));
    NoOuts();
    hide Le, Total;
  }
}
