/** The reward service's answer on the wire: what Go prints and the gateway's hand-written scanner
    (server.go, datum_reward_socket.c). A C string is its characters without the terminating zero. */
module Wire {
  import opened Bytes

  datatype Output = Output(address: string, amount: int)

  const MAX_OUTPUTS := 30
  const ADDR_LEN := 91
  const INT64_MAX := 0x7fff_ffff_ffff_ffff

  predicate IsInt64(n: int) { -INT64_MAX - 1 <= n <= INT64_MAX }

  predicate Alnum(c: char) { 'a' <= c <= 'z' || 'A' <= c <= 'Z' || '0' <= c <= '9' }

  /** Addresses the gateway accepts from miners (is_valid_btc_address). */
  predicate ValidAddress(a: string) {
    1 <= |a| < ADDR_LEN && forall i :: 0 <= i < |a| ==> Alnum(a[i])
  }

  method IsValidBtcAddress(addr: string) returns (ok: bool)
    ensures ok <==> 1 <= |addr| <= 90 && forall i :: 0 <= i < |addr| ==>
                      'a' <= addr[i] <= 'z' || 'A' <= addr[i] <= 'Z' || '0' <= addr[i] <= '9'
  {
    if |addr| == 0 || |addr| >= ADDR_LEN {
      return false;
    }
    for i := 0 to |addr|
      invariant forall k :: 0 <= k < i ==> Alnum(addr[k])
    {
      if !Alnum(addr[i]) {
        return false;
      }
    }
    return true;
  }

  // ---- the printer ----

  function Digit(d: nat): char
    requires d < 10
  {
    "0123456789"[d]
  }

  function DecNat(n: nat): (s: string)
    ensures |s| >= 1 && forall i :: 0 <= i < |s| ==> '0' <= s[i] <= '9'
  {
    if n < 10 then [Digit(n)] else DecNat(n / 10) + [Digit(n % 10)]
  }

  function Dec(n: int): string { if n < 0 then "-" + DecNat(-n) else DecNat(n) }

  const ADDR_OPEN := "{\"address\":\""
  const SATS_OPEN := "\",\"amount_sats\":"

  function PrintOutput(o: Output): string {
    ADDR_OPEN + (o.address + (SATS_OPEN + (Dec(o.amount) + "}")))
  }

  function PrintRest(outs: seq<Output>): string {
    if outs == [] then "]}\n"
    else PrintOutput(outs[0]) + ((if |outs| == 1 then "" else ",") + PrintRest(outs[1..]))
  }

  /** The JSON text of a list of outputs with alphanumeric addresses, and the newline after it. */
  function Print(outs: seq<Output>): string { "{\"outputs\":[" + PrintRest(outs) }

  // ---- C string functions ----

  predicate Here(s: string, p: nat, t: string) { p + |t| <= |s| && s[p..p + |t|] == t }

  /** strstr */
  function Find(s: string, p: nat, t: string): (r: Option<nat>)
    ensures r.Some? ==> p <= r.value && r.value + |t| <= |s|
    decreases |s| - p
  {
    if p + |t| > |s| then None
    else if Here(s, p, t) then Some(p)
    else Find(s, p + 1, t)
  }

  /** strchr */
  function FindChar(s: string, p: nat, c: char): (r: Option<nat>)
    ensures r.Some? ==> p <= r.value < |s| && s[r.value] == c
    decreases |s| - p
  {
    if p >= |s| then None else if s[p] == c then Some(p) else FindChar(s, p + 1, c)
  }

  predicate Space(c: char) { c == ' ' || c == '\t' || c == '\n' || c == '\r' || c as int == 11 || c as int == 12 }

  function SkipSpace(s: string, p: nat): (q: nat)
    ensures p <= q
    decreases |s| - p
  {
    if p < |s| && Space(s[p]) then SkipSpace(s, p + 1) else p
  }

  function ReadDigits(s: string, p: nat, acc: nat): nat
    decreases |s| - p
  {
    if p < |s| && '0' <= s[p] <= '9' then ReadDigits(s, p + 1, acc * 10 + (s[p] as int - '0' as int)) else acc
  }

  function Clamp64(n: int): int {
    if n > INT64_MAX then INT64_MAX else if n < -INT64_MAX - 1 then -INT64_MAX - 1 else n
  }

  /** atoll, saturating at the ends of the 64-bit range */
  function Atoll(s: string, p: nat): int {
    var q := SkipSpace(s, p);
    if q < |s| && s[q] == '-' then Clamp64(0 - ReadDigits(s, q + 1, 0))
    else if q < |s| && s[q] == '+' then Clamp64(ReadDigits(s, q + 1, 0))
    else Clamp64(ReadDigits(s, q, 0))
  }

  // ---- the scanner ----

  predicate Separator(c: char) { c == ' ' || c == '\t' || c == '\n' || c == '\r' || c == ',' }

  function SkipSeparators(s: string, p: nat): (q: nat)
    ensures p <= q && (p <= |s| ==> q <= |s|)
    decreases |s| - p
  {
    if p < |s| && Separator(s[p]) then SkipSeparators(s, p + 1) else p
  }

  function SkipBlanks(s: string, p: nat): (q: nat)
    ensures p <= q && (p <= |s| ==> q <= |s|)
    decreases |s| - p
  {
    if p < |s| && (s[p] == ' ' || s[p] == '\t') then SkipBlanks(s, p + 1) else p
  }

  /** One object starting at the brace at `p`, and the position after its closing brace. */
  function ParseObject(s: string, p: nat): (r: Option<(Output, nat)>)
    ensures r.Some? ==> p < r.value.1 <= |s| && 1 <= |r.value.0.address| < ADDR_LEN && IsInt64(r.value.0.amount)
  {
    var addrKey :- Find(s, p + 1, "\"address\"");
    var open :- FindChar(s, addrKey + 9, '\"');
    var end :- FindChar(s, open + 1, '\"');
    var length := end - (open + 1);
    if length == 0 || length >= ADDR_LEN then None
    else
      var satsKey :- Find(s, p + 1, "\"amount_sats\"");
      var colon :- FindChar(s, satsKey + 13, ':');
      var value := SkipBlanks(s, colon + 1);
      if value >= |s| then None
      else
        var close :- FindChar(s, p, '}');
        Some((Output(s[open + 1..end], Atoll(s, value)), close + 1))
  }

  function ParseObjects(s: string, p: nat, acc: seq<Output>): (r: Option<seq<Output>>)
    requires |acc| <= MAX_OUTPUTS
    ensures r.Some? ==> |r.value| <= MAX_OUTPUTS
    decreases |s| - p
  {
    var q := SkipSeparators(s, p);
    if |acc| >= MAX_OUTPUTS then Some(acc)
    else if q >= |s| || s[q] == ']' then Some(acc)
    else if s[q] != '{' then None
    else
      var (o, next) :- ParseObject(s, q);
      ParseObjects(s, next, acc + [o])
  }

  function Parse(s: string): (r: Option<seq<Output>>)
    ensures r.Some? ==> |r.value| <= MAX_OUTPUTS
  {
    var key :- Find(s, 0, "\"outputs\"");
    var bracket :- FindChar(s, key + 9, '[');
    ParseObjects(s, bracket + 1, [])
  }

  /** Scans the object whose opening brace is at `brace`. */
  method ScanObject(s: string, brace: nat) returns (r: Option<(Output, nat)>)
    ensures r == ParseObject(s, brace)
  {
    hide Find, FindChar, SkipBlanks, Atoll;
    var p := brace + 1;
    var addrKey := Find(s, p, "\"address\"");
    if addrKey.None? {
      return None;
    }
    var open := FindChar(s, addrKey.value + 9, '\"');
    if open.None? {
      return None;
    }
    var end := FindChar(s, open.value + 1, '\"');
    if end.None? {
      return None;
    }
    var length := end.value - (open.value + 1);
    if length == 0 || length >= ADDR_LEN {
      return None;
    }
    var satsKey := Find(s, p, "\"amount_sats\"");
    if satsKey.None? {
      return None;
    }
    var colon := FindChar(s, satsKey.value + 13, ':');
    if colon.None? {
      return None;
    }
    var value := PassBlanks(s, colon.value + 1);
    if value >= |s| {
      return None;
    }
    var close := FindChar(s, brace, '}');
    if close.None? {
      return None;
    }
    return Some((Output(s[open.value + 1..end.value], Atoll(s, value)), close.value + 1));
  }

  method PassBlanks(s: string, start: nat) returns (p: nat)
    requires start <= |s|
    ensures p == SkipBlanks(s, start)
  {
    p := start;
    while p < |s| && (s[p] == ' ' || s[p] == '\t')
      invariant p <= |s| && SkipBlanks(s, start) == SkipBlanks(s, p)
    {
      p := p + 1;
    }
  }

  method PassSeparators(s: string, start: nat) returns (p: nat)
    requires start <= |s|
    ensures p == SkipSeparators(s, start)
  {
    p := start;
    while p < |s| && Separator(s[p])
      invariant p <= |s| && SkipSeparators(s, start) == SkipSeparators(s, p)
    {
      p := p + 1;
    }
  }

  /** Scans any string to an end; the number of outputs, or -1. Never more than 30 outputs are stored. */
  method ParseCoinbaseResponse(s: string, outputs: array<Output>) returns (r: int)
    requires outputs.Length == MAX_OUTPUTS
    modifies outputs
    ensures r == -1 <==> Parse(s) == None
    ensures r != -1 ==> 0 <= r <= MAX_OUTPUTS && Parse(s) == Some(outputs[..r])
  {
    hide ParseObject, Find, FindChar, SkipSeparators;
    var count: nat := 0;
    var key := Find(s, 0, "\"outputs\"");
    if key.None? {
      return -1;
    }
    var bracket := FindChar(s, key.value + 9, '[');
    if bracket.None? {
      return -1;
    }
    var p: nat := bracket.value + 1;
    while count < MAX_OUTPUTS
      invariant count <= MAX_OUTPUTS && p <= |s|
      invariant Parse(s) == ParseObjects(s, p, outputs[..count])
      decreases MAX_OUTPUTS - count
    {
      var q := PassSeparators(s, p);
      if q >= |s| || s[q] == ']' {
        break;
      }
      if s[q] != '{' {
        return -1;
      }
      var o := ScanObject(s, q);
      if o.None? {
        return -1;
      }
      outputs[count] := o.value.0;
      count := count + 1;
      assert outputs[..count] == outputs[..count - 1] + [o.value.0];
      p := o.value.1;
    }
    return count;
  }
}
