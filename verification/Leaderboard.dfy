/** The windowed leaderboard query of service.go: sessions cut at silences of more than seven days (LAG, MAX, COALESCE),
    the join with recent activity, RANK and LIMIT 21. */
module Leaderboard {
  import opened Bytes

  /** One row of the shares table. Times are in microseconds; `diff` is true_difficulty, a NUMERIC(78,0) column that is
      NULL in rows older than the column. */
  datatype Row = Row(addr: string, t: int, diff: Option<int>, round: int, stale: bool)

  const WEEK := 7 * 24 * 3600 * 1_000_000
  const SLOTS := 21

  predicate Counts(r: Row, round: int) { r.round == round && !r.stale }

  /** One partition: the rows of a round and an address, in table order. */
  function Of(rows: seq<Row>, round: int, addr: string): (part: seq<Row>)
    ensures forall r :: r in part <==> r in rows && Counts(r, round) && r.addr == addr
  {
    if rows == [] then []
    else (if Counts(rows[0], round) && rows[0].addr == addr then [rows[0]] else []) + Of(rows[1..], round, addr)
  }

  // ---- arranging a partition by time ----

  predicate Sorted(p: seq<Row>) { forall i, k :: 0 <= i < k < |p| ==> p[i].t <= p[k].t }

  /** One of the orders ORDER BY submitted_at may produce: rows of equal time come in any order. */
  predicate Arranged(p: seq<Row>, part: seq<Row>) { multiset(p) == multiset(part) && Sorted(p) }

  function Insert(r: Row, p: seq<Row>): seq<Row> {
    if p == [] || r.t <= p[0].t then [r] + p else [p[0]] + Insert(r, p[1..])
  }

  function Arrange(part: seq<Row>): seq<Row> {
    if part == [] then [] else Insert(part[0], Arrange(part[1..]))
  }

  lemma {:induction false} InsertKeeps(r: Row, p: seq<Row>)
    ensures multiset(Insert(r, p)) == multiset(p) + multiset{r}
  {
    if p != [] && r.t > p[0].t {
      InsertKeeps(r, p[1..]);
      assert p == [p[0]] + p[1..];
    }
  }

  lemma {:induction false} InsertSorts(r: Row, p: seq<Row>)
    requires Sorted(p)
    ensures Sorted(Insert(r, p)) && Insert(r, p) != []
    ensures Insert(r, p)[0].t >= r.t || (p != [] && Insert(r, p)[0].t >= p[0].t)
  {
    if p != [] && r.t > p[0].t {
      InsertSorts(r, p[1..]);
      var q := Insert(r, p[1..]);
      assert Insert(r, p) == [p[0]] + q;
      hide Insert;
      assert p[0].t <= q[0].t;
    }
  }

  lemma {:induction false} ArrangeArranges(part: seq<Row>)
    ensures Arranged(Arrange(part), part)
  {
    if part != [] {
      ArrangeArranges(part[1..]);
      InsertSorts(part[0], Arrange(part[1..]));
      InsertKeeps(part[0], Arrange(part[1..]));
      assert part == [part[0]] + part[1..];
    }
  }

  /** Same rows, in time order: all that the proofs below need of an arrangement. */
  ghost predicate Spans(p: seq<Row>, part: seq<Row>) { Sorted(p) && forall r :: r in p <==> r in part }

  lemma ArrangedSpans(p: seq<Row>, part: seq<Row>)
    requires Arranged(p, part)
    ensures Spans(p, part) && |p| == |part|
  {
    assert forall r :: r in p <==> r in multiset(p);
    assert forall r :: r in part <==> r in multiset(part);
    assert |p| == |multiset(p)| && |part| == |multiset(part)|;
  }

  // ---- the query, clause by clause ----

  /** CTEs gaps and session_starts: the times of rows that come more than seven days after the row before them. */
  function Starts(p: seq<Row>): seq<int> {
    if |p| < 2 then []
    else
      var n := |p|;
      Starts(p[..n - 1]) + (if p[n - 1].t - p[n - 2].t > WEEK then [p[n - 1].t] else [])
  }

  /** MAX, which is NULL over no rows. */
  function MaxTime(s: seq<int>): Option<int> {
    if s == [] then None
    else match MaxTime(s[..|s| - 1]) {
      case None => Some(s[|s| - 1])
      case Some(m) => Some(if s[|s| - 1] > m then s[|s| - 1] else m)
    }
  }

  /** submitted_at >= COALESCE(session_start, '-infinity') */
  predicate InSession(r: Row, start: Option<int>) { start.Some? ==> r.t >= start.value }

  /** MAX of two values, of which NULL is passed over. */
  function Larger(a: Option<int>, b: Option<int>): Option<int> {
    if a.None? then b else if b.None? || a.value >= b.value then a else b
  }

  /** MAX(true_difficulty) over the rows of the session. */
  function MaxDiff(part: seq<Row>, start: Option<int>): Option<int> {
    if part == [] then None
    else Larger(if InSession(part[0], start) then part[0].diff else None, MaxDiff(part[1..], start))
  }

  function SessionStart(part: seq<Row>): Option<int> { MaxTime(Starts(Arrange(part))) }

  /** Column alltime_best of one address, NULL when no row of the session has a difficulty. */
  function AllTimeBest(part: seq<Row>): Option<int> { MaxDiff(part, SessionStart(part)) }

  /** CTE alltime has a group for the address. */
  predicate Grouped(part: seq<Row>) { exists r :: r in part && InSession(r, SessionStart(part)) }

  /** CTE recent keeps an address with a row of the last seven days. */
  predicate Recent(part: seq<Row>, now: int) { exists r :: r in part && r.t > now - WEEK }

  // ---- the one-pass fold ----

  /** What one would keep per address while reading its shares in order. */
  datatype Streak = Fresh | Streak(last: int, best: Option<int>)

  function Count(s: Streak, r: Row): Streak {
    Streak(r.t, if s.Fresh? || r.t - s.last > WEEK then r.diff else Larger(s.best, r.diff))
  }

  function Fold(p: seq<Row>): Streak {
    if p == [] then Fresh else Count(Fold(p[..|p| - 1]), p[|p| - 1])
  }

  // ---- the query is the fold ----

  lemma {:induction false} MaxTimeIs(s: seq<int>)
    ensures MaxTime(s).None? <==> s == []
    ensures MaxTime(s).Some? ==> MaxTime(s).value in s && forall x :: x in s ==> x <= MaxTime(s).value
  {
    if s != [] {
      MaxTimeIs(s[..|s| - 1]);
      assert s == s[..|s| - 1] + [s[|s| - 1]];
    }
  }

  lemma {:induction false} StartsAre(p: seq<Row>)
    ensures forall x :: x in Starts(p) <==> exists i :: 1 <= i < |p| && p[i].t == x && p[i].t - p[i - 1].t > WEEK
  {
    var n := |p|;
    if n >= 2 {
      var q := p[..n - 1];
      StartsAre(q);
      forall x | x in Starts(p) ensures exists i :: 1 <= i < n && p[i].t == x && p[i].t - p[i - 1].t > WEEK {
        if x in Starts(q) {
          var i :| 1 <= i < |q| && q[i].t == x && q[i].t - q[i - 1].t > WEEK;
          assert p[i] == q[i] && p[i - 1] == q[i - 1];
        }
      }
      forall i | 1 <= i < n && p[i].t - p[i - 1].t > WEEK ensures p[i].t in Starts(p) {
        if i < n - 1 {
          assert q[i] == p[i] && q[i - 1] == p[i - 1];
        }
      }
    }
  }

  /** `best` is the greatest difficulty among the rows from `start` on, if they have one. */
  ghost predicate IsBest(part: seq<Row>, start: Option<int>, best: Option<int>) {
    && (best.Some? ==> exists r :: r in part && InSession(r, start) && r.diff == best)
    && (forall r :: r in part && InSession(r, start) && r.diff.Some? ==> best.Some? && r.diff.value <= best.value)
  }

  lemma BestUnique(part: seq<Row>, start: Option<int>, a: Option<int>, b: Option<int>)
    requires IsBest(part, start, a) && IsBest(part, start, b)
    ensures a == b
  {
  }

  lemma {:induction false} MaxDiffIsBest(part: seq<Row>, start: Option<int>)
    ensures IsBest(part, start, MaxDiff(part, start))
  {
    if part != [] {
      MaxDiffIsBest(part[1..], start);
      assert part == [part[0]] + part[1..];
      BestOfMore(part[0], part[1..], start, MaxDiff(part[1..], start));
    }
  }

  lemma BestOfMore(z: Row, rest: seq<Row>, start: Option<int>, best: Option<int>)
    requires IsBest(rest, start, best)
    ensures IsBest([z] + rest, start, Larger(if InSession(z, start) then z.diff else None, best))
  {
    assert forall r :: r in [z] + rest <==> r == z || r in rest;
  }

  /** The session start of a longer list, one row at a time. */
  lemma StartStep(p: seq<Row>)
    requires |p| >= 1 && Sorted(p)
    ensures var n := |p|; var start := MaxTime(Starts(p[..n - 1]));
            MaxTime(Starts(p)) == if n >= 2 && p[n - 1].t - p[n - 2].t > WEEK then Some(p[n - 1].t) else start
  {
    var n := |p|;
    StartsGap(p);
    if n >= 2 && p[n - 1].t - p[n - 2].t > WEEK {
      hide Starts, MaxTime, Sorted;
      StartsBefore(p[..n - 1], p[n - 1].t, p);
      MaxTimeSnoc(Starts(p[..n - 1]), p[n - 1].t);
    }
  }

  lemma StartsGap(p: seq<Row>)
    requires |p| >= 1
    ensures var n := |p|; var front := Starts(p[..n - 1]);
            Starts(p) == if n >= 2 && p[n - 1].t - p[n - 2].t > WEEK then front + [p[n - 1].t] else front
  {
  }

  lemma StartsBefore(q: seq<Row>, x: int, p: seq<Row>)
    requires Sorted(p) && |p| == |q| + 1 >= 2 && p[..|q|] == q && p[|q|].t == x && x > p[|q| - 1].t
    ensures forall y :: y in Starts(q) ==> y < x
  {
    hide Starts;
    forall y | y in Starts(q) ensures y < x {
      StartIsTime(q, y);
      var r :| r in q && r.t == y;
      var k :| 0 <= k < |q| && q[k] == r;
      assert p[k] == q[k];
    }
  }

  lemma MaxTimeSnoc(s: seq<int>, x: int)
    requires forall y :: y in s ==> y < x
    ensures MaxTime(s + [x]) == Some(x)
  {
    assert (s + [x])[..|s|] == s;
    MaxTimeIs(s);
  }

  lemma FoldExtends(q: seq<Row>, z: Row, start: Option<int>, best: Option<int>)
    requires IsBest(q, start, best) && InSession(z, start)
    ensures IsBest(q + [z], start, Larger(best, z.diff))
  {
    assert forall r :: r in q + [z] <==> r in q || r == z;
  }

  lemma StartIsTime(p: seq<Row>, x: int)
    requires x in Starts(p)
    ensures exists s :: s in p && s.t == x
  {
    StartsAre(p);
    hide Starts;
    var i :| 1 <= i < |p| && p[i].t == x && p[i].t - p[i - 1].t > WEEK;
    assert p[i] in p;
  }

  lemma StartsPast(p: seq<Row>)
    requires p != [] && Sorted(p)
    ensures InSession(p[|p| - 1], MaxTime(Starts(p)))
  {
    var start := MaxTime(Starts(p));
    MaxTimeIs(Starts(p));
    hide MaxTime, Starts;
    if start.Some? {
      StartIsTime(p, start.value);
      var s :| s in p && s.t == start.value;
      var k :| 0 <= k < |p| && p[k] == s;
    }
  }

  lemma AloneInSession(q: seq<Row>, z: Row)
    requires Sorted(q) && q != [] && q[|q| - 1].t < z.t
    ensures IsBest(q + [z], Some(z.t), z.diff)
  {
    forall r | r in q ensures r.t < z.t {
      var k :| 0 <= k < |q| && q[k] == r;
    }
    assert z in q + [z];
  }

  lemma CountExtends(q: seq<Row>, z: Row, start: Option<int>, f: Streak)
    requires q != [] && Sorted(q) && f.Streak? && f.last == q[|q| - 1].t && IsBest(q, start, f.best)
    requires InSession(z, start)
    ensures var f' := Count(f, z);
            && f'.Streak? && f'.last == z.t
            && IsBest(q + [z], if z.t - f.last > WEEK then Some(z.t) else start, f'.best)
  {
    hide IsBest;
    if z.t - f.last > WEEK {
      AloneInSession(q, z);
    } else {
      FoldExtends(q, z, start, f.best);
    }
  }

  /** The fold keeps the time of the last row and the best of the session the last row is in. */
  lemma {:induction false} FoldMeans(p: seq<Row>)
    requires p != [] && Sorted(p)
    ensures Fold(p).Streak? && Fold(p).last == p[|p| - 1].t
    ensures IsBest(p, MaxTime(Starts(p)), Fold(p).best)
  {
    hide Starts, MaxTime, IsBest, Count, InSession;
    var n := |p|;
    var q, z := p[..n - 1], p[n - 1];
    if n == 1 {
      assert p == [z];
      OnlyRow(z);
    } else {
      assert p == q + [z];
      FoldMeans(q);
      SessionGoesOn(p);
      StartStep(p);
      LastCounted(p);
      hide Fold;
      CountExtends(q, z, MaxTime(Starts(q)), Fold(q));
    }
  }

  lemma SessionGoesOn(p: seq<Row>)
    requires |p| >= 2 && Sorted(p)
    ensures InSession(p[|p| - 1], MaxTime(Starts(p[..|p| - 1])))
  {
    hide Starts, MaxTime;
    StartsPast(p[..|p| - 1]);
  }

  lemma LastCounted(p: seq<Row>)
    requires p != []
    ensures Fold(p) == Count(Fold(p[..|p| - 1]), p[|p| - 1])
  {
  }

  lemma OnlyRow(z: Row)
    ensures Fold([z]) == Streak(z.t, z.diff) && IsBest([z], None, z.diff) && MaxTime(Starts([z])) == None
  {
    assert [z][..0] == [];
    assert z in [z];
  }

  /** However the database arranges shares of equal time, the best its query reports for an address is what the fold
      keeps, and the address is present exactly when its last share is less than seven days old. */
  lemma QueryIsFold(part: seq<Row>, p: seq<Row>, now: int)
    requires Arranged(p, part) && part != []
    ensures Fold(p).Streak?
    ensures AllTimeBest(part) == Fold(p).best && Grouped(part)
    ensures Recent(part, now) <==> now - Fold(p).last < WEEK
  {
    hide Starts, MaxTime, MaxDiff, Fold, Arrange, IsBest;
    ArrangedSpans(p, part);
    ArrangeArranges(part);
    ArrangedSpans(Arrange(part), part);
    hide Arranged;
    FoldMeans(p);
    SameStart(p, Arrange(part), part);
    BestTransfers(p, part, SessionStart(part), Fold(p).best);
    MaxDiffIsBest(part, SessionStart(part));
    BestUnique(part, SessionStart(part), MaxDiff(part, SessionStart(part)), Fold(p).best);
    StartsPast(p);
    assert p[|p| - 1] in p;
  }

  lemma BestTransfers(p: seq<Row>, part: seq<Row>, start: Option<int>, best: Option<int>)
    requires Spans(p, part) && IsBest(p, start, best)
    ensures IsBest(part, start, best)
  {
  }

  // ---- what a session is, without arranging ----

  /** No silence of more than seven days separates `r` from the end: every later row has another close before it. */
  ghost predicate Current(part: seq<Row>, r: Row) {
    forall s :: s in part && s.t > r.t ==> exists q :: q in part && s.t - WEEK <= q.t < s.t
  }

  lemma FirstOfTime(p: seq<Row>, t: int, k: nat) returns (i: nat)
    requires Sorted(p) && k < |p| && p[k].t == t
    ensures i <= k && p[i].t == t && (i > 0 ==> p[i - 1].t < t)
  {
    i := k;
    while i > 0 && p[i - 1].t == t
      invariant i <= k && p[i].t == t
    {
      i := i - 1;
    }
  }

  /** A row that comes after `r` but has no long silence just before it has another row close before it. */
  lemma CloseBefore(p: seq<Row>, r: Row, s: Row)
    requires Sorted(p) && r in p && s in p && s.t > r.t && s.t !in Starts(p)
    ensures exists q :: q in p && s.t - WEEK <= q.t < s.t
  {
    StartsAre(p);
    hide Starts;
    var k :| 0 <= k < |p| && p[k] == s;
    var z :| 0 <= z < |p| && p[z] == r;
    var i := FirstOfTime(p, s.t, k);
    assert z < i;
    assert p[i - 1] in p;
  }

  lemma SilenceBefore(p: seq<Row>, x: int, q: Row)
    requires Sorted(p) && x in Starts(p) && q in p && q.t < x
    ensures q.t < x - WEEK
  {
    StartsAre(p);
    hide Starts;
    var i :| 1 <= i < |p| && p[i].t == x && p[i].t - p[i - 1].t > WEEK;
    var k :| 0 <= k < |p| && p[k] == q;
  }

  /** The rows the query takes the best of are exactly those with no long silence after them. */
  lemma SessionIsCurrent(p: seq<Row>, part: seq<Row>, r: Row)
    requires Arranged(p, part) && r in part
    ensures InSession(r, MaxTime(Starts(p))) <==> Current(part, r)
  {
    ArrangedSpans(p, part);
    hide Arranged;
    var start := MaxTime(Starts(p));
    MaxTimeIs(Starts(p));
    hide MaxTime, Starts;
    if !InSession(r, start) {
      StartIsTime(p, start.value);
      var s :| s in p && s.t == start.value;
      forall q | q in part && q.t < s.t ensures q.t < s.t - WEEK { SilenceBefore(p, s.t, q); }
    } else {
      forall s | s in part && s.t > r.t ensures exists q :: q in part && s.t - WEEK <= q.t < s.t {
        CloseBefore(p, r, s);
        var q :| q in p && s.t - WEEK <= q.t < s.t;
      }
    }
  }

  lemma StartIn(p: seq<Row>, q: seq<Row>, part: seq<Row>, x: int)
    requires Spans(p, part) && Spans(q, part) && x in Starts(p)
    ensures x in Starts(q)
  {
    StartsAre(p);
    var i :| 1 <= i < |p| && p[i].t == x && p[i].t - p[i - 1].t > WEEK;
    assert p[i] in p && p[i - 1] in p;
    if x !in Starts(q) {
      hide Starts;
      CloseBefore(q, p[i - 1], p[i]);
      var y :| y in q && x - WEEK <= y.t < x;
      SilenceBefore(p, x, y);
    }
  }

  /** The session start does not depend on how equal times are arranged. */
  lemma SameStart(p: seq<Row>, q: seq<Row>, part: seq<Row>)
    requires Spans(p, part) && Spans(q, part)
    ensures MaxTime(Starts(p)) == MaxTime(Starts(q))
  {
    hide Starts, Spans;
    forall x | x in Starts(p) ensures x in Starts(q) { StartIn(p, q, part, x); }
    forall x | x in Starts(q) ensures x in Starts(p) { StartIn(q, p, part, x); }
    MaxTimeIs(Starts(p));
    MaxTimeIs(Starts(q));
  }

  // ---- the best of an address, by its rows alone ----

  /** Some row of the current session has a difficulty of at least `x`. */
  ghost predicate Reaches(part: seq<Row>, x: int) {
    exists r :: r in part && Current(part, r) && r.diff.Some? && r.diff.value >= x
  }

  /** No row of the current session has a difficulty. */
  ghost predicate Unscored(part: seq<Row>) { forall r :: r in part && Current(part, r) ==> r.diff.None? }

  /** Column alltime_best is NULL exactly when no row of the current session has a difficulty, and otherwise reaches
      exactly the values that one of them reaches. */
  lemma BestByRows(part: seq<Row>, x: int)
    ensures AllTimeBest(part).None? <==> Unscored(part)
    ensures AllTimeBest(part).Some? && AllTimeBest(part).value >= x <==> Reaches(part, x)
  {
    var start := SessionStart(part);
    MaxDiffIsBest(part, start);
    ArrangeArranges(part);
    hide MaxDiff, Arrange, Current, MaxTime, Starts;
    forall r | r in part ensures InSession(r, start) <==> Current(part, r) {
      SessionIsCurrent(Arrange(part), part, r);
    }
  }
}
