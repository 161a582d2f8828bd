/** What the gateway's scanner accepts, on any text: the places it looks at, the numbers it reads, the separators it
    passes, where it stops. */
module WireScan {
  import opened Bytes
  import opened Wire
  import opened WireRoundTrip

  // ---- searching ----

  /** The first occurrence of `t` from position `p` on. */
  ghost predicate FirstAt(s: string, p: nat, t: string, i: nat) {
    p <= i && Here(s, i, t) && forall k :: p <= k < i ==> !Here(s, k, t)
  }

  lemma {:induction false} FindIff(s: string, p: nat, t: string, i: nat)
    ensures Find(s, p, t) == Some(i) <==> FirstAt(s, p, t, i)
    decreases |s| - p
  {
    if p + |t| > |s| {
      hide Here;
      if Here(s, i, t) { HereFits(s, i, t); }
    } else if !Here(s, p, t) {
      FindIff(s, p + 1, t, i);
    }
  }

  ghost predicate FirstChar(s: string, p: nat, c: char, i: nat) {
    p <= i < |s| && s[i] == c && forall k :: p <= k < i ==> s[k] != c
  }

  lemma {:induction false} FindCharIff(s: string, p: nat, c: char, i: nat)
    ensures FindChar(s, p, c) == Some(i) <==> FirstChar(s, p, c, i)
    decreases |s| - p
  {
    if p < |s| && s[p] != c {
      FindCharIff(s, p + 1, c, i);
    }
  }

  // ---- one object ----

  /** The places of an object: its address key and the quotes around the address, its amount key, the colon and the
      first character of the value, its closing brace. */
  datatype Places = Places(addrKey: nat, open: nat, end: nat, satsKey: nat, colon: nat, value: nat, close: nat)

  /** The object whose brace is at `p`: each key searched from behind the brace, the closing brace from the brace
      itself, 1 to 90 characters between the quotes, blanks before the value. */
  ghost predicate ObjectAt(s: string, p: nat, x: Places) {
    && FirstAt(s, p + 1, "\"address\"", x.addrKey)
    && FirstChar(s, x.addrKey + 9, '\"', x.open)
    && FirstChar(s, x.open + 1, '\"', x.end)
    && 1 <= x.end - (x.open + 1) <= 90
    && FirstAt(s, p + 1, "\"amount_sats\"", x.satsKey)
    && FirstChar(s, x.satsKey + 13, ':', x.colon)
    && x.colon < x.value < |s| && s[x.value] != ' ' && s[x.value] != '\t'
    && (forall k :: x.colon < k < x.value ==> s[k] == ' ' || s[k] == '\t')
    && FirstChar(s, p, '}', x.close)
  }

  lemma {:induction false} BlanksIff(s: string, p: nat, q: nat)
    requires p <= |s|
    ensures SkipBlanks(s, p) == q
       <==> && p <= q <= |s| && (forall k :: p <= k < q ==> s[k] == ' ' || s[k] == '\t')
            && (q < |s| ==> s[q] != ' ' && s[q] != '\t')
    decreases |s| - p
  {
    if p < |s| && (s[p] == ' ' || s[p] == '\t') {
      BlanksIff(s, p + 1, q);
    }
  }

  /** An object is accepted only where all its places are found ... */
  lemma ObjectParsed(s: string, p: nat) returns (x: Places)
    requires ParseObject(s, p).Some?
    ensures ObjectAt(s, p, x)
    ensures ParseObject(s, p).value == (Output(s[x.open + 1..x.end], Atoll(s, x.value)), x.close + 1)
  {
    hide Find, FindChar, SkipBlanks, Atoll, Here, FirstAt, FirstChar;
    var addrKey := Find(s, p + 1, "\"address\"").value;
    var open := FindChar(s, addrKey + 9, '\"').value;
    var end := FindChar(s, open + 1, '\"').value;
    var satsKey := Find(s, p + 1, "\"amount_sats\"").value;
    var colon := FindChar(s, satsKey + 13, ':').value;
    var close := FindChar(s, p, '}').value;
    x := Places(addrKey, open, end, satsKey, colon, SkipBlanks(s, colon + 1), close);
    FindIff(s, p + 1, "\"address\"", addrKey);
    FindCharIff(s, addrKey + 9, '\"', open);
    FindCharIff(s, open + 1, '\"', end);
    FindIff(s, p + 1, "\"amount_sats\"", satsKey);
    FindCharIff(s, satsKey + 13, ':', colon);
    BlanksIff(s, colon + 1, x.value);
    FindCharIff(s, p, '}', close);
  }

  /** ... and wherever they are: address and amount are what stands there, and scanning goes on behind the brace. */
  lemma ObjectFound(s: string, p: nat, x: Places)
    requires ObjectAt(s, p, x)
    ensures ParseObject(s, p) == Some((Output(s[x.open + 1..x.end], Atoll(s, x.value)), x.close + 1))
  {
    hide Find, FindChar, SkipBlanks, Atoll, Here, FirstAt, FirstChar;
    FindIff(s, p + 1, "\"address\"", x.addrKey);
    FindCharIff(s, x.addrKey + 9, '\"', x.open);
    FindCharIff(s, x.open + 1, '\"', x.end);
    FindIff(s, p + 1, "\"amount_sats\"", x.satsKey);
    FindCharIff(s, x.satsKey + 13, ':', x.colon);
    BlanksIff(s, x.colon + 1, x.value);
    FindCharIff(s, p, '}', x.close);
  }

  // ---- numbers ----

  predicate Digits(t: string) { forall i :: 0 <= i < |t| ==> '0' <= t[i] <= '9' }

  /** The number a string of decimal digits stands for. */
  function Value(t: string): nat
    requires Digits(t)
  {
    if t == "" then 0 else 10 * Value(t[..|t| - 1]) + (t[|t| - 1] as int - 48)
  }

  lemma {:induction false} DigitsValue(s: string, p: nat, t: string)
    requires Digits(t) && Here(s, p, t)
    ensures ReadDigits(s, p, 0) == ReadDigits(s, p + |t|, Value(t))
  {
    hide Here, ReadDigits;
    if t != "" {
      var n := |t| - 1;
      assert t == t[..n] + t[n..];
      HereConcat(s, p, t[..n], t[n..]);
      DigitsValue(s, p, t[..n]);
      HereChar(s, p, t, n);
      OneMoreDigit(s, p + n, Value(t[..n]));
    }
  }

  lemma OneMoreDigit(s: string, p: nat, acc: nat)
    requires p < |s| && '0' <= s[p] <= '9'
    ensures ReadDigits(s, p, acc) == ReadDigits(s, p + 1, 10 * acc + (s[p] as int - 48))
  {
  }

  predicate Blank(c: char) { c in " \t\n\r" || c as int == 11 || c as int == 12 }

  lemma {:induction false} SpacesSkipped(s: string, p: nat, t: string)
    requires Here(s, p, t) && (forall i :: 0 <= i < |t| ==> Blank(t[i])) && (p + |t| < |s| ==> !Blank(s[p + |t|]))
    ensures SkipSpace(s, p) == p + |t|
    decreases |t|
  {
    hide Here;
    if t == "" {
      assert p < |s| ==> !Space(s[p]);
    } else {
      assert t == t[..1] + t[1..];
      HereConcat(s, p, t[..1], t[1..]);
      HereChar(s, p, t, 0);
      SpacesSkipped(s, p + 1, t[1..]);
    }
  }

  /** The amount read from white space, an optional sign and decimal digits: their value, cut off at the ends of the
      signed 64-bit range. */
  lemma AtollIs(s: string, p: nat, space: string, sign: string, t: string)
    requires Here(s, p, space + (sign + t)) && forall i :: 0 <= i < |space| ==> Blank(space[i])
    requires sign in ["", "+", "-"] && Digits(t) && t != ""
    requires var q := p + |space + (sign + t)|; q < |s| ==> !('0' <= s[q] <= '9')
    ensures var v := Value(t);
            Atoll(s, p) == if sign == "-" then (if v > 0x8000_0000_0000_0000 then -0x8000_0000_0000_0000 else 0 - v)
                           else if v > 0x7fff_ffff_ffff_ffff then 0x7fff_ffff_ffff_ffff else v
  {
    hide Here, ReadDigits, SkipSpace, Value, Blank, Digits;
    var q := p + |space|;
    SignRead(s, p, space, sign, t);
    AllDigits(s, q + |sign|, t);
  }

  lemma AllDigits(s: string, p: nat, t: string)
    requires Digits(t) && Here(s, p, t) && (p + |t| < |s| ==> !('0' <= s[p + |t|] <= '9'))
    ensures ReadDigits(s, p, 0) == Value(t)
  {
    hide Here, Value, Digits;
    DigitsValue(s, p, t);
    DigitsEnd(s, p + |t|, Value(t));
  }

  lemma SignRead(s: string, p: nat, space: string, sign: string, t: string)
    requires Here(s, p, space + (sign + t)) && forall i :: 0 <= i < |space| ==> Blank(space[i])
    requires sign in ["", "+", "-"] && Digits(t) && t != ""
    ensures var q := p + |space|;
            && SkipSpace(s, p) == q < |s| && Here(s, q + |sign|, t)
            && (s[q] == '-' <==> sign == "-") && (s[q] == '+' <==> sign == "+")
  {
    hide Here, SkipSpace;
    HereConcat(s, p, space, sign + t);
    var q := p + |space|;
    HereConcat(s, q, sign, t);
    HereChar(s, q, sign + t, 0);
    assert (sign + t)[0] == if sign == "" then t[0] else sign[0];
    SpacesSkipped(s, p, space);
  }

  lemma DigitsEnd(s: string, p: nat, acc: nat)
    requires p < |s| ==> !('0' <= s[p] <= '9')
    ensures ReadDigits(s, p, acc) == acc
  {
  }

  // ---- the list ----

  /** Nothing but separators from `p` to `q`. */
  predicate Gap(s: string, p: nat, q: nat) { p <= q <= |s| && forall k :: p <= k < q ==> s[k] in " \t\n\r," }

  /** The printed outputs from `p` to `e`, with any separators, or none, before, between and after them. */
  ghost predicate Laid(s: string, p: nat, outs: seq<Output>, e: nat)
    decreases |outs|
  {
    if outs == [] then Gap(s, p, e)
    else exists q: nat :: Gap(s, p, q) && Here(s, q, PrintOutput(outs[0]))
                     && Laid(s, q + |PrintOutput(outs[0])|, outs[1..], e)
  }

  lemma {:induction false} GapSkipped(s: string, p: nat, q: nat)
    requires Gap(s, p, q) && (q < |s| ==> s[q] !in " \t\n\r,")
    ensures SkipSeparators(s, p) == q
    decreases q - p
  {
    if p < q {
      GapSkipped(s, p + 1, q);
    }
  }

  lemma {:induction false} ObjectsLaid(s: string, p: nat, acc: seq<Output>, outs: seq<Output>, e: nat)
    requires |acc| <= 30 && (forall i :: 0 <= i < |outs| ==> Printable(outs[i])) && Laid(s, p, outs, e)
    requires e < |s| ==> s[e] !in " \t\n\r," && (s[e] == '{' ==> ParseObject(s, e).None?)
    ensures ParseObjects(s, p, acc)
         == if |acc + outs| >= 30 then Some((acc + outs)[..30])
            else if e >= |s| || s[e] == ']' then Some(acc + outs)
            else None
    decreases |outs|
  {
    hide ParseObject, PrintOutput, SkipSeparators, Here, Printable, Gap;
    if outs == [] {
      GapSkipped(s, p, e);
      assert acc + outs == acc;
      assert |acc| == 30 ==> acc[..30] == acc;
    } else {
      var q: nat :| Gap(s, p, q) && Here(s, q, PrintOutput(outs[0]))
                    && Laid(s, q + |PrintOutput(outs[0])|, outs[1..], e);
      BraceFirst(s, q, outs[0]);
      GapSkipped(s, p, q);
      assert |acc| == 30 ==> (acc + outs)[..30] == acc;
      if |acc| < 30 {
        ObjectRoundTrip(s, q, outs[0]);
        ObjectsLaid(s, q + |PrintOutput(outs[0])|, acc + [outs[0]], outs[1..], e);
        assert acc + [outs[0]] + outs[1..] == acc + outs;
      }
    }
  }

  /** Scanning any text that has the first key, a bracket and printed outputs with any separators behind it: the outputs
      in order, the first 30 if there are more; otherwise they must be followed by the closing bracket or the end of the
      text, or everything is refused. (`KeyNeeded`: nothing else is accepted.) */
  lemma ParseLaid(s: string, key: nat, bracket: nat, outs: seq<Output>, e: nat)
    requires FirstAt(s, 0, "\"outputs\"", key) && FirstChar(s, key + 9, '[', bracket)
    requires (forall i :: 0 <= i < |outs| ==> Printable(outs[i])) && Laid(s, bracket + 1, outs, e)
    requires e < |s| ==> s[e] !in " \t\n\r," && (s[e] == '{' ==> ParseObject(s, e).None?)
    ensures Parse(s)
         == if |outs| >= 30 then Some(outs[..30])
            else if e >= |s| || s[e] == ']' then Some(outs)
            else None
  {
    hide ParseObjects, Find, FindChar, Laid, Here, Printable;
    FindIff(s, 0, "\"outputs\"", key);
    FindCharIff(s, key + 9, '[', bracket);
    ObjectsLaid(s, bracket + 1, [], outs, e);
    assert [] + outs == outs;
  }

  lemma KeyNeeded(s: string) returns (key: nat, bracket: nat)
    requires Parse(s).Some?
    ensures FirstAt(s, 0, "\"outputs\"", key) && FirstChar(s, key + 9, '[', bracket)
  {
    hide Find, FindChar, ParseObjects, Here, FirstAt, FirstChar;
    key := Find(s, 0, "\"outputs\"").value;
    bracket := FindChar(s, key + 9, '[').value;
    FindIff(s, 0, "\"outputs\"", key);
    FindCharIff(s, key + 9, '[', bracket);
  }

  lemma {:induction false} DecValue(n: nat)
    ensures Digits(DecNat(n)) && Value(DecNat(n)) == n
    ensures n > 0 ==> DecNat(n)[0] != '0'
  {
    if n >= 10 {
      DecValue(n / 10);
      var front := DecNat(n / 10);
      assert DecNat(n) == front + [Digit(n % 10)];
      assert DecNat(n)[..|front|] == front;
      DigitValue(n % 10);
    } else {
      DigitValue(n);
      assert DecNat(n)[..0] == "";
    }
  }

  /** A printed output: its address and the decimal digits of its amount, without leading zeros, between fixed text. */
  lemma PrintOutputIs(o: Output) returns (n: string)
    ensures PrintOutput(o) == "{\"address\":\"" + (o.address + ("\",\"amount_sats\":"
                              + ((if o.amount < 0 then "-" + n else n) + "}")))
    ensures Digits(n) && Value(n) == (if o.amount < 0 then -o.amount else o.amount)
    ensures o.amount != 0 ==> n != "" && n[0] != '0'
  {
    var a: nat := if o.amount < 0 then -o.amount else o.amount;
    n := DecNat(a);
    DecValue(a);
    assert Dec(o.amount) == if o.amount < 0 then "-" + n else n;
    hide DecNat, Value, Digits, Dec;
    OpenText(o, Dec(o.amount));
  }

  lemma OpenText(o: Output, n: string)
    requires n == Dec(o.amount)
    ensures PrintOutput(o) == "{\"address\":\"" + (o.address + ("\",\"amount_sats\":" + (n + "}")))
  {
    hide Dec;
  }

  /** A printed list: brackets, and commas between the outputs. */
  lemma PrintIs(o: Output, outs: seq<Output>)
    requires outs != []
    ensures Print([]) == "{\"outputs\":[" + "]}\n"
    ensures Print([o]) == "{\"outputs\":[" + (PrintOutput(o) + "]}\n")
    ensures Print([o] + outs) == "{\"outputs\":[" + (PrintOutput(o) + ("," + PrintRest(outs)))
  {
    hide PrintOutput;
    assert [o][1..] == [] && ([o] + outs)[1..] == outs;
    assert "" + PrintRest([]) == PrintRest([]);
  }
}
