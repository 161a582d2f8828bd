/** The gateway's scanner undoes the service's printer. */
module WireRoundTrip {
  import opened Bytes
  import opened Wire

  predicate Printable(o: Output) { ValidAddress(o.address) && IsInt64(o.amount) }

  lemma HereConcat(s: string, p: nat, a: string, b: string)
    requires Here(s, p, a + b)
    ensures Here(s, p, a) && Here(s, p + |a|, b)
  {
    var t := s[p..p + |a| + |b|];
    assert t[..|a|] == a && t[|a|..] == b;
    assert s[p..p + |a|] == t[..|a|];
    assert s[p + |a|..p + |a| + |b|] == t[|a|..];
  }

  lemma HereChar(s: string, p: nat, t: string, i: nat)
    requires Here(s, p, t) && i < |t|
    ensures p + i < |s| && s[p + i] == t[i]
  {
    assert s[p..p + |t|][i] == s[p + i];
  }

  lemma {:induction false} FindCharAt(s: string, p: nat, c: char, i: nat)
    requires p <= i < |s| && s[i] == c && forall k :: p <= k < i ==> s[k] != c
    ensures FindChar(s, p, c) == Some(i)
    decreases i - p
  {
    if p < i {
      FindCharAt(s, p + 1, c, i);
    }
  }

  lemma {:induction false} FindAt(s: string, p: nat, t: string, i: nat)
    requires p <= i && Here(s, i, t) && forall k :: p <= k < i ==> !Here(s, k, t)
    ensures Find(s, p, t) == Some(i)
    decreases i - p
  {
    if p < i {
      assert !Here(s, p, t);
      FindAt(s, p + 1, t, i);
    }
  }

  // ---- numbers ----

  lemma {:induction false} DigitsRead(s: string, p: nat, n: nat)
    requires Here(s, p, DecNat(n))
    ensures ReadDigits(s, p, 0) == ReadDigits(s, p + |DecNat(n)|, n)
  {
    hide Here, ReadDigits, Digit;
    if n < 10 {
      HereChar(s, p, DecNat(n), 0);
      DigitRead(s, p, n, 0);
    } else {
      var high := DecNat(n / 10);
      HereConcat(s, p, high, [Digit(n % 10)]);
      DigitsRead(s, p, n / 10);
      HereChar(s, p + |high|, [Digit(n % 10)], 0);
      DigitRead(s, p + |high|, n % 10, n / 10);
      assert |DecNat(n)| == |high| + 1 && n / 10 * 10 + n % 10 == n;
    }
  }

  lemma DigitRead(s: string, p: nat, d: nat, acc: nat)
    requires d < 10 && p < |s| && s[p] == Digit(d)
    ensures ReadDigits(s, p, acc) == ReadDigits(s, p + 1, acc * 10 + d)
  {
    DigitValue(d);
  }

  lemma DigitValue(d: nat)
    requires d < 10
    ensures '0' <= Digit(d) <= '9' && Digit(d) as int - '0' as int == d
  {
  }

  lemma NumberRead(s: string, p: nat, n: int)
    requires IsInt64(n) && Here(s, p, Dec(n) + "}")
    ensures Atoll(s, p) == n && SkipBlanks(s, p) == p
  {
    hide Here, DecNat;
    HereConcat(s, p, Dec(n), "}");
    HereChar(s, p, Dec(n), 0);
    HereChar(s, p + |Dec(n)|, "}", 0);
    if n < 0 {
      HereConcat(s, p, "-", DecNat(-n));
      DigitsRead(s, p + 1, -n);
    } else {
      DigitsRead(s, p, n);
    }
  }

  // ---- one object ----

  /** The characters of a printed object, by position. */
  ghost predicate Layout(s: string, p: nat, o: Output) {
    && Here(s, p, ADDR_OPEN)
    && Here(s, p + 12, o.address)
    && Here(s, p + 12 + |o.address|, SATS_OPEN)
    && Here(s, p + 28 + |o.address|, Dec(o.amount) + "}")
  }

  lemma ObjectLayout(s: string, p: nat, o: Output)
    requires Here(s, p, PrintOutput(o))
    ensures Layout(s, p, o) && |PrintOutput(o)| == 28 + |o.address| + |Dec(o.amount)| + 1
  {
    hide Here, Dec;
    HereConcat(s, p, ADDR_OPEN, o.address + (SATS_OPEN + (Dec(o.amount) + "}")));
    HereConcat(s, p + 12, o.address, SATS_OPEN + (Dec(o.amount) + "}"));
    HereConcat(s, p + 12 + |o.address|, SATS_OPEN, Dec(o.amount) + "}");
  }

  lemma LayoutChars(s: string, p: nat, o: Output)
    requires Layout(s, p, o)
    ensures p + 28 + |o.address| < |s|
    ensures forall i :: p <= i < p + 12 ==> s[i] == ADDR_OPEN[i - p]
    ensures forall i :: p + 12 <= i < p + 12 + |o.address| ==> s[i] == o.address[i - p - 12]
    ensures forall i :: p + 12 + |o.address| <= i < p + 28 + |o.address| ==> s[i] == SATS_OPEN[i - p - 12 - |o.address|]
  {
    hide Here, Dec;
    var a := |o.address|;
    HereChars(s, p, ADDR_OPEN);
    HereChars(s, p + 12, o.address);
    HereChars(s, p + 12 + a, SATS_OPEN);
    HereChar(s, p + 28 + a, Dec(o.amount) + "}", |Dec(o.amount)|);
  }

  lemma HereChars(s: string, p: nat, t: string)
    requires Here(s, p, t)
    ensures p + |t| <= |s| && forall i :: p <= i < p + |t| ==> s[i] == t[i - p]
  {
    forall i | p <= i < p + |t| ensures s[i] == t[i - p] {
      HereChar(s, p, t, i - p);
    }
  }

  lemma AddressKeyFound(s: string, p: nat, o: Output)
    requires Layout(s, p, o)
    ensures Find(s, p + 1, "\"address\"") == Some(p + 1)
  {
    HereConcat(s, p, "{", "\"address\":\"");
    HereConcat(s, p + 1, "\"address\"", ":\"");
    FindAt(s, p + 1, "\"address\"", p + 1);
  }

  lemma AddressFound(s: string, p: nat, o: Output)
    requires Layout(s, p, o) && Printable(o)
    ensures FindChar(s, p + 10, '\"') == Some(p + 11)
    ensures FindChar(s, p + 12, '\"') == Some(p + 12 + |o.address|)
    ensures s[p + 12..p + 12 + |o.address|] == o.address
  {
    LayoutChars(s, p, o);
    FindCharAt(s, p + 10, '\"', p + 11);
    FindCharAt(s, p + 12, '\"', p + 12 + |o.address|);
  }

  const SATS_KEY := "\"amount_sats\""

  lemma Mismatch(s: string, k: nat, j: nat)
    requires j < |SATS_KEY| && k + j < |s| && s[k + j] != SATS_KEY[j]
    ensures !Here(s, k, SATS_KEY)
  {
    if Here(s, k, SATS_KEY) {
      HereChar(s, k, SATS_KEY, j);
    }
  }

  /** Where a match of the amount key at `k` breaks: no address character is a quote or an underscore. */
  function BreaksAt(k: nat, a: nat): nat {
    if k == 1 then 2
    else if k == 9 || k == 12 + a then 1
    else if k == 11 then if a >= 7 then 7 else a + 1
    else 0
  }

  lemma BreakInAddressKey(s: string, p: nat, o: Output, k: nat)
    requires Layout(s, p, o) && Printable(o) && 1 <= k < 11
    ensures p + k + BreaksAt(k, |o.address|) < |s|
    ensures s[p + k + BreaksAt(k, |o.address|)] != SATS_KEY[BreaksAt(k, |o.address|)]
  {
    hide Layout, Dec;
    LayoutChars(s, p, o);
    assert s[p + k] == ADDR_OPEN[k];
    assert s[p + k + 1] == ADDR_OPEN[k + 1];
    assert k + 2 < 12 ==> s[p + k + 2] == ADDR_OPEN[k + 2];
  }

  lemma BreakAtAddress(s: string, p: nat, o: Output)
    requires Layout(s, p, o) && Printable(o)
    ensures var j := BreaksAt(11, |o.address|); p + 11 + j < |s| && s[p + 11 + j] != SATS_KEY[j]
  {
    hide Layout, Dec;
    LayoutChars(s, p, o);
    var a := |o.address|;
    if a >= 7 {
      assert s[p + 18] == o.address[6] && Alnum(o.address[6]);
    } else {
      assert s[p + 12 + a] == SATS_OPEN[0];
    }
  }

  lemma BreakPastAddress(s: string, p: nat, o: Output, k: nat)
    requires Layout(s, p, o) && Printable(o) && 12 <= k < 14 + |o.address|
    ensures var j := BreaksAt(k, |o.address|); p + k + j < |s| && s[p + k + j] != SATS_KEY[j]
  {
    hide Layout, Dec;
    LayoutChars(s, p, o);
    var a := |o.address|;
    if k < 12 + a {
      assert s[p + k] == o.address[k - 12] && Alnum(o.address[k - 12]);
    } else {
      assert s[p + 13 + a] == SATS_OPEN[1];
    }
  }

  lemma NoEarlierKey(s: string, p: nat, o: Output, k: nat)
    requires Layout(s, p, o) && Printable(o)
    requires p + 1 <= k < p + 14 + |o.address|
    ensures !Here(s, k, SATS_KEY)
  {
    hide Layout, Printable, Here;
    if k < p + 11 {
      BreakInAddressKey(s, p, o, k - p);
    } else if k == p + 11 {
      BreakAtAddress(s, p, o);
    } else {
      BreakPastAddress(s, p, o, k - p);
    }
    Mismatch(s, k, BreaksAt(k - p, |o.address|));
  }

  lemma SatsKeyHere(s: string, p: nat, o: Output)
    requires Layout(s, p, o)
    ensures var i := p + 14 + |o.address|; Here(s, i, SATS_KEY) && i + 13 < |s| && s[i + 13] == ':'
  {
    hide Here, Dec;
    var i := p + 14 + |o.address|;
    assert SATS_OPEN == "\"," + "\"amount_sats\":" && "\"amount_sats\":" == SATS_KEY + ":";
    HereConcat(s, p + 12 + |o.address|, "\",", "\"amount_sats\":");
    HereConcat(s, i, SATS_KEY, ":");
    HereChar(s, i + 13, ":", 0);
  }

  lemma SatsFound(s: string, p: nat, o: Output)
    requires Layout(s, p, o) && Printable(o)
    ensures Find(s, p + 1, SATS_KEY) == Some(p + 14 + |o.address|)
    ensures FindChar(s, p + 27 + |o.address|, ':') == Some(p + 27 + |o.address|)
  {
    hide Layout, Printable, Here, Find, FindChar;
    var i := p + 14 + |o.address|;
    SatsKeyHere(s, p, o);
    forall k | p + 1 <= k < i ensures !Here(s, k, SATS_KEY) {
      NoEarlierKey(s, p, o, k);
    }
    FindAt(s, p + 1, SATS_KEY, i);
    FindCharAt(s, i + 13, ':', i + 13);
  }

  lemma NoBraceInside(s: string, p: nat, o: Output, k: nat)
    requires Layout(s, p, o) && Printable(o) && p <= k < p + 28 + |o.address|
    ensures k < |s| && s[k] != '}'
  {
    hide Layout, Dec;
    LayoutChars(s, p, o);
    if p + 12 <= k < p + 12 + |o.address| {
      assert Alnum(o.address[k - p - 12]);
    }
  }

  lemma DigitsNoBrace(n: int, k: nat)
    requires k < |Dec(n)|
    ensures Dec(n)[k] != '}'
  {
  }

  lemma CloseFound(s: string, p: nat, o: Output)
    requires Layout(s, p, o) && Printable(o)
    ensures FindChar(s, p, '}') == Some(p + 28 + |o.address| + |Dec(o.amount)|)
  {
    hide Here, Dec, Printable, FindChar;
    var d := p + 28 + |o.address|;
    var n := Dec(o.amount);
    HereConcat(s, d, n, "}");
    HereChar(s, d + |n|, "}", 0);
    forall k | p <= k < d + |n| ensures s[k] != '}' {
      if k >= d {
        HereChar(s, d, n, k - d);
        DigitsNoBrace(o.amount, k - d);
      } else {
        NoBraceInside(s, p, o, k);
      }
    }
    FindCharAt(s, p, '}', d + |n|);
  }

  lemma PrintableFits(o: Output)
    requires Printable(o)
    ensures 1 <= |o.address| < ADDR_LEN && IsInt64(o.amount)
  {
  }

  lemma ObjectRoundTrip(s: string, p: nat, o: Output)
    requires Printable(o) && Here(s, p, PrintOutput(o))
    ensures ParseObject(s, p) == Some((o, p + |PrintOutput(o)|))
  {
    hide Here, Layout, Find, FindChar, Dec, Atoll, SkipBlanks, PrintOutput, Printable;
    assert 1 <= |o.address| < ADDR_LEN && IsInt64(o.amount) by { PrintableFits(o); }
    ObjectLayout(s, p, o);
    AddressKeyFound(s, p, o);
    AddressFound(s, p, o);
    SatsFound(s, p, o);
    CloseFound(s, p, o);
    LayoutNumber(s, p, o);
    NumberRead(s, p + 28 + |o.address|, o.amount);
    LayoutChars(s, p, o);
  }

  lemma LayoutNumber(s: string, p: nat, o: Output)
    requires Layout(s, p, o)
    ensures Here(s, p + 28 + |o.address|, Dec(o.amount) + "}")
  {
  }

  // ---- the list ----

  function Min(a: nat, b: nat): nat { if a < b then a else b }

  lemma {:induction false} ListRoundTrip(s: string, p: nat, acc: seq<Output>, outs: seq<Output>)
    requires |acc| <= MAX_OUTPUTS && forall i :: 0 <= i < |outs| ==> Printable(outs[i])
    requires p <= |s| && Here(s, SkipSeparators(s, p), PrintRest(outs))
    ensures ParseObjects(s, p, acc) == Some((acc + outs)[..Min(|acc + outs|, MAX_OUTPUTS)])
    decreases |outs|
  {
    hide Here, PrintOutput, ParseObject, SkipSeparators, Printable;
    var q := SkipSeparators(s, p);
    if |acc| == MAX_OUTPUTS {
      assert (acc + outs)[..MAX_OUTPUTS] == acc;
    } else if outs == [] {
      HereChar(s, q, "]}\n", 0);
      HereFits(s, q, "]}\n");
      assert acc + outs == acc;
    } else {
      var next := q + |PrintOutput(outs[0])|;
      FirstObject(s, q, outs);
      ListRoundTrip(s, next, acc + [outs[0]], outs[1..]);
      assert acc + [outs[0]] + outs[1..] == acc + outs;
    }
  }

  /** The first object of a list is read, and the scanner stands before the rest. */
  lemma FirstObject(s: string, q: nat, outs: seq<Output>)
    requires outs != [] && Printable(outs[0]) && Here(s, q, PrintRest(outs))
    ensures var next := q + |PrintOutput(outs[0])|;
            && q < |s| && s[q] == '{' && ParseObject(s, q) == Some((outs[0], next))
            && next <= |s| && Here(s, SkipSeparators(s, next), PrintRest(outs[1..]))
  {
    hide Here, PrintOutput, ParseObject, SkipSeparators, Printable;
    FirstAndRest(s, q, outs);
    hide PrintRest;
    BraceFirst(s, q, outs[0]);
    ObjectRoundTrip(s, q, outs[0]);
    NextObject(s, q + |PrintOutput(outs[0])|, outs[1..]);
  }

  lemma FirstAndRest(s: string, q: nat, outs: seq<Output>)
    requires outs != [] && Here(s, q, PrintRest(outs))
    ensures var next, rest := q + |PrintOutput(outs[0])|, outs[1..];
            && Here(s, q, PrintOutput(outs[0]))
            && Here(s, next, if rest == [] then "" else ",")
            && Here(s, next + (if rest == [] then 0 else 1), PrintRest(rest))
  {
    hide Here, PrintOutput;
    var sep := if outs[1..] == [] then "" else ",";
    assert PrintRest(outs) == PrintOutput(outs[0]) + (sep + PrintRest(outs[1..]));
    HereConcat(s, q, PrintOutput(outs[0]), sep + PrintRest(outs[1..]));
    HereConcat(s, q + |PrintOutput(outs[0])|, sep, PrintRest(outs[1..]));
  }

  lemma HereFits(s: string, p: nat, t: string)
    requires Here(s, p, t)
    ensures p + |t| <= |s|
  {
  }

  lemma BraceFirst(s: string, p: nat, o: Output)
    requires Here(s, p, PrintOutput(o))
    ensures p < |s| && s[p] == '{'
  {
    HereChar(s, p, PrintOutput(o), 0);
  }

  /** What follows an object is the end of the list, or a comma and the next object's brace. */
  lemma NextObject(s: string, p: nat, outs: seq<Output>)
    requires Here(s, p, if outs == [] then "" else ",")
    requires Here(s, p + (if outs == [] then 0 else 1), PrintRest(outs))
    ensures p <= |s| && Here(s, SkipSeparators(s, p), PrintRest(outs))
  {
    if outs == [] {
      HereChar(s, p, "]}\n", 0);
    } else {
      HereChar(s, p, ",", 0);
      HereConcat(s, p + 1, PrintOutput(outs[0]), (if |outs| == 1 then "" else ",") + PrintRest(outs[1..]));
      BraceFirst(s, p + 1, outs[0]);
    }
  }

  /** Scanning the printed text gives back the same outputs in order - all of them when there are at most 30, the
      first 30 otherwise - for any alphanumeric addresses of 1 to 90 characters and any 64-bit amounts. */
  lemma PrintParse(outs: seq<Output>)
    requires forall i :: 0 <= i < |outs| ==> Printable(outs[i])
    ensures Parse(Print(outs)) == Some(outs[..Min(|outs|, MAX_OUTPUTS)])
  {
    hide PrintOutput, ParseObjects;
    var s := Print(outs);
    var head := "{\"outputs\":[";
    assert s[0..|s|] == s;
    HereConcat(s, 0, head, PrintRest(outs));
    HeadFound(s);
    if outs == [] {
      HereChar(s, 12, "]}\n", 0);
    } else {
      HereConcat(s, 12, PrintOutput(outs[0]), (if |outs| == 1 then "" else ",") + PrintRest(outs[1..]));
      BraceFirst(s, 12, outs[0]);
    }
    ListRoundTrip(s, 12, [], outs);
    assert [] + outs == outs;
  }

  lemma HeadFound(s: string)
    requires Here(s, 0, "{\"outputs\":[")
    ensures Find(s, 0, "\"outputs\"") == Some(1) && FindChar(s, 10, '[') == Some(11)
  {
    hide Find, FindChar;
    var head, key := "{\"outputs\":[", "\"outputs\"";
    assert head == "{" + (key + ":[");
    HereConcat(s, 0, "{", key + ":[");
    HereConcat(s, 1, key, ":[");
    HereChar(s, 0, head, 0);
    HereChar(s, 0, head, 10);
    HereChar(s, 0, head, 11);
    assert !Here(s, 0, key) by {
      HereFirst(s, 0, key);
    }
    FindAt(s, 0, key, 1);
    FindCharAt(s, 10, '[', 11);
  }

  lemma HereFirst(s: string, p: nat, t: string)
    requires p < |s| && t != ""
    ensures Here(s, p, t) ==> s[p] == t[0]
  {
    if Here(s, p, t) {
      HereChar(s, p, t, 0);
    }
  }
}
