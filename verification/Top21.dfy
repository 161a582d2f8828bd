/** The outer query of service.go: joining recent activity with session bests, ranking, and the 21-row limit. */
module Top21 {
  import opened Bytes
  import opened Leaderboard

  datatype Entry = Entry(addr: string, best: int, last: int, rank: nat)

  /** The query fails as a whole when a best does not fit BIGINT, and reading its rows fails at a NULL best. */
  datatype Reply = Entries(entries: seq<Entry>) | OutOfRange | ScanFailed

  const BIGINT: int := 0x8000_0000_0000_0000

  /** Column alltime_best of an address. */
  function Score(rows: seq<Row>, round: int, a: string): Option<int> { AllTimeBest(Of(rows, round, a)) }

  /** The join: recent activity and a session. */
  predicate Listed(rows: seq<Row>, round: int, now: int, a: string) {
    var part := Of(rows, round, a);
    Recent(part, now) && Grouped(part)
  }

  function RecentTimes(part: seq<Row>, now: int): seq<int> {
    if part == [] then [] else
      var r := part[|part| - 1];
      RecentTimes(part[..|part| - 1], now) + (if r.t > now - WEEK then [r.t] else [])
  }

  /** Column last_activity. */
  function LastActivity(part: seq<Row>, now: int): int {
    match MaxTime(RecentTimes(part, now)) case Some(t) => t case None => 0
  }

  // ---- ranking ----

  predicate Distinct(full: seq<string>) { forall i, k :: 0 <= i < k < |full| ==> full[i] != full[k] }

  /** `a` sorts strictly before `b` in descending order, where NULLs come first. */
  predicate Above(a: Option<int>, b: Option<int>) {
    b.Some? && (a.None? || a.value > b.value)
  }

  /** ORDER BY best DESC; equal scores come in any order. */
  predicate Descending(score: string -> Option<int>, full: seq<string>) {
    forall i, k :: 0 <= i < k < |full| ==> !Above(score(full[k]), score(full[i]))
  }

  /** RANK(): the position of the first row with the same score. */
  function Rank(score: string -> Option<int>, full: seq<string>, i: nat): nat
    requires i < |full|
  {
    if i == 0 || score(full[i]) != score(full[i - 1]) then i + 1 else Rank(score, full, i - 1)
  }

  lemma {:induction false} RankIsFirstPeer(score: string -> Option<int>, full: seq<string>, i: nat)
    requires i < |full| && Descending(score, full)
    ensures var r := Rank(score, full, i);
            && 1 <= r <= i + 1
            && (forall k :: 0 <= k < r - 1 ==> Above(score(full[k]), score(full[i])))
            && (forall k :: r - 1 <= k <= i ==> score(full[k]) == score(full[i]))
  {
    if i > 0 && score(full[i]) == score(full[i - 1]) {
      RankIsFirstPeer(score, full, i - 1);
    }
  }

  lemma {:induction false} CountDistinct(full: seq<string>)
    requires Distinct(full)
    ensures |set a | a in full| == |full|
  {
    if full != [] {
      var n := |full| - 1;
      CountDistinct(full[..n]);
      assert full == full[..n] + [full[n]];
      assert (set a | a in full) == (set a | a in full[..n]) + {full[n]};
      assert full[n] !in full[..n];
    }
  }

  /** The rank is one more than the number of rows with a strictly better score. */
  lemma RankCounts(score: string -> Option<int>, full: seq<string>, i: nat)
    requires i < |full| && Descending(score, full) && Distinct(full)
    ensures Rank(score, full, i) == 1 + |set a | a in full && Above(score(a), score(full[i]))|
  {
    RankIsFirstPeer(score, full, i);
    var r := Rank(score, full, i);
    var better := full[..r - 1];
    CountDistinct(better);
    forall a | a in full && Above(score(a), score(full[i])) ensures a in better {
      var k :| 0 <= k < |full| && full[k] == a;
      assert k < r - 1 ==> full[k] in better;
    }
    assert (set a | a in full && Above(score(a), score(full[i]))) == (set a | a in better);
  }

  // ---- the reply ----

  /** One order the outer query may scan its rows in. */
  ghost predicate Lists(rows: seq<Row>, round: int, now: int, full: seq<string>) {
    && Distinct(full)
    && (forall a :: a in full <==> Listed(rows, round, now, a))
    && Descending(a => Score(rows, round, a), full)
  }

  function EntryAt(rows: seq<Row>, round: int, now: int, full: seq<string>, i: nat): Entry
    requires i < |full|
  {
    var best := match Score(rows, round, full[i]) case Some(b) => b case None => 0;
    Entry(full[i], best, LastActivity(Of(rows, round, full[i]), now), Rank(x => Score(rows, round, x), full, i))
  }

  function Take(rows: seq<Row>, round: int, now: int, full: seq<string>, n: nat): (es: seq<Entry>)
    requires n <= |full|
  {
    if n == 0 then [] else Take(rows, round, now, full, n - 1) + [EntryAt(rows, round, now, full, n - 1)]
  }

  /** FLOOR(...)::BIGINT is computed for every address with a share that counts, recent or not; NULL stays NULL. */
  predicate Overflows(rows: seq<Row>, round: int) {
    exists r :: r in rows && Counts(r, round) && !Fits(Score(rows, round, r.addr))
  }

  predicate Fits(best: Option<int>) { best.Some? ==> -BIGINT <= best.value < BIGINT }

  /** The replies the database may give. */
  ghost predicate Answers(rows: seq<Row>, round: int, now: int, reply: Reply) {
    if Overflows(rows, round) then reply == OutOfRange
    else exists full :: Lists(rows, round, now, full) && reply == Read(rows, round, now, full)
  }

  /** Reading the returned rows one by one; a NULL does not scan into a string. */
  function Read(rows: seq<Row>, round: int, now: int, full: seq<string>): Reply {
    if exists i :: 0 <= i < Least(|full|) && Score(rows, round, full[i]).None? then ScanFailed
    else Entries(Take(rows, round, now, full, Least(|full|)))
  }

  function Least(n: nat): (k: nat)
    ensures k <= n && k <= SLOTS && (k == n || k == SLOTS)
  {
    if n < SLOTS then n else SLOTS
  }

  lemma {:induction false} TakeAt(rows: seq<Row>, round: int, now: int, full: seq<string>, n: nat)
    requires n <= |full|
    ensures var es := Take(rows, round, now, full, n);
            |es| == n && forall i :: 0 <= i < n ==> es[i] == EntryAt(rows, round, now, full, i)
  {
    hide EntryAt;
    if n > 0 {
      TakeAt(rows, round, now, full, n - 1);
    }
  }

  // ---- the meaning of the reply, by the one-pass fold ----

  /** What the fold keeps for an address. */
  function Kept(rows: seq<Row>, round: int, a: string): Streak { Fold(Arrange(Of(rows, round, a))) }

  function KeptBest(rows: seq<Row>, round: int, a: string): Option<int> {
    match Kept(rows, round, a) case Fresh => None case Streak(_, best) => best
  }

  /** The address has a share less than seven days old, the last one at time `last`. */
  predicate Active(rows: seq<Row>, round: int, now: int, a: string) {
    var k := Kept(rows, round, a);
    k.Streak? && now - k.last < WEEK
  }

  lemma {:induction false} RecentTimesAre(part: seq<Row>, now: int)
    ensures forall x :: x in RecentTimes(part, now) <==> exists r :: r in part && r.t == x && x > now - WEEK
  {
    if part != [] {
      var q, z := part[..|part| - 1], part[|part| - 1];
      RecentTimesAre(q, now);
      assert part == q + [z];
      forall x | x in RecentTimes(part, now) ensures exists r :: r in part && r.t == x && x > now - WEEK {
        if x in RecentTimes(q, now) {
          var r :| r in q && r.t == x && x > now - WEEK;
          assert r in part;
        } else {
          assert z in part;
        }
      }
      forall r | r in part && r.t > now - WEEK ensures r.t in RecentTimes(part, now) {
        assert r in q || r == z;
      }
    }
  }

  lemma LatestRow(part: seq<Row>, p: seq<Row>, now: int)
    requires Spans(p, part) && p != [] && Recent(part, now)
    ensures p[|p| - 1] in part && p[|p| - 1].t > now - WEEK
    ensures forall r :: r in part ==> r.t <= p[|p| - 1].t
  {
    var n := |p|;
    assert p[n - 1] in p;
    forall r | r in part ensures r.t <= p[n - 1].t {
      var k :| 0 <= k < n && p[k] == r;
    }
  }

  lemma LastIsLatest(part: seq<Row>, p: seq<Row>, now: int)
    requires Arranged(p, part) && part != [] && Recent(part, now)
    ensures p != [] && LastActivity(part, now) == p[|p| - 1].t
  {
    ArrangedSpans(p, part);
    hide Arranged;
    LatestRow(part, p, now);
    hide Spans, Recent;
    RecentTimesAre(part, now);
    MaxTimeIs(RecentTimes(part, now));
    hide MaxTime, RecentTimes;
    assert p[|p| - 1].t in RecentTimes(part, now);
  }

  /** Column by column, the joined rows are what the fold keeps. */
  lemma ColumnsAreFold(rows: seq<Row>, round: int, now: int, a: string)
    ensures Listed(rows, round, now, a) <==> Active(rows, round, now, a)
    ensures Score(rows, round, a) == KeptBest(rows, round, a)
    ensures Listed(rows, round, now, a) ==> LastActivity(Of(rows, round, a), now) == Kept(rows, round, a).last
  {
    var part := Of(rows, round, a);
    var p := Arrange(part);
    ArrangeArranges(part);
    if part != [] {
      hide Arrange, AllTimeBest, Of;
      QueryIsFold(part, p, now);
      if Recent(part, now) {
        LastIsLatest(part, p, now);
        hide Recent, LastActivity;
        FoldMeans(p);
      }
    }
  }

  /** A reply, read through the fold: as many active addresses as fit, best first, none left out that beats one
      shown, each with its kept best and time, and ranked one below the number of active addresses strictly better. */
  ghost predicate Best21(rows: seq<Row>, round: int, now: int, es: seq<Entry>, active: set<string>) {
    && (forall a :: a in active <==> Active(rows, round, now, a))
    && |es| == Least(|active|)
    && InOrder(rows, round, es, active)
    && forall i :: 0 <= i < |es| ==> Describes(rows, round, es[i], active)
  }

  ghost predicate InOrder(rows: seq<Row>, round: int, es: seq<Entry>, active: set<string>) {
    && (forall i :: 0 <= i < |es| ==> es[i].addr in active)
    && (forall i, k :: 0 <= i < k < |es| ==> es[i].addr != es[k].addr)
    && (forall i, k :: 0 <= i < k < |es| ==>
          !Above(KeptBest(rows, round, es[k].addr), KeptBest(rows, round, es[i].addr)))
    && (forall a, i :: a in active && 0 <= i < |es|
                       && Above(KeptBest(rows, round, a), KeptBest(rows, round, es[i].addr))
          ==> exists k :: 0 <= k < |es| && es[k].addr == a)
  }

  predicate Describes(rows: seq<Row>, round: int, e: Entry, active: set<string>) {
    && KeptBest(rows, round, e.addr) == Some(e.best)
    && Kept(rows, round, e.addr).Streak? && e.last == Kept(rows, round, e.addr).last
    && e.rank == 1 + |Better(rows, round, active, e.addr)|
  }

  function Better(rows: seq<Row>, round: int, active: set<string>, a: string): set<string> {
    set x | x in active && Above(KeptBest(rows, round, x), KeptBest(rows, round, a))
  }

  lemma EntryMeans(rows: seq<Row>, round: int, now: int, full: seq<string>, i: nat)
    requires Lists(rows, round, now, full) && i < |full| && Score(rows, round, full[i]).Some?
    ensures Describes(rows, round, EntryAt(rows, round, now, full, i), set a | a in full)
  {
    hide Score, Kept, Listed, LastActivity, KeptBest, Rank;
    var score := x => Score(rows, round, x);
    RankCounts(score, full, i);
    assert full[i] in full;
    ColumnsAreFold(rows, round, now, full[i]);
    ActiveIsKept(rows, round, now, full[i]);
    hide Active, Lists, Descending, Distinct;
    forall x ensures Score(rows, round, x) == KeptBest(rows, round, x) { ColumnsAreFold(rows, round, now, x); }
    assert (set x | x in full && Above(score(x), score(full[i]))) == Better(rows, round, (set x | x in full), full[i]);
  }

  lemma ActiveIsKept(rows: seq<Row>, round: int, now: int, a: string)
    requires Active(rows, round, now, a)
    ensures Kept(rows, round, a).Streak?
  {
  }

  /** The first entries of a list sorted by kept best. */
  lemma PrefixInOrder(rows: seq<Row>, round: int, full: seq<string>, es: seq<Entry>)
    requires Distinct(full) && |es| <= |full| && forall i :: 0 <= i < |es| ==> es[i].addr == full[i]
    requires forall i, k :: 0 <= i < k < |full| ==>
               !Above(KeptBest(rows, round, full[k]), KeptBest(rows, round, full[i]))
    ensures InOrder(rows, round, es, set a | a in full)
  {
    hide KeptBest;
    forall a, i | a in full && 0 <= i < |es| && Above(KeptBest(rows, round, a), KeptBest(rows, round, es[i].addr))
      ensures exists k :: 0 <= k < |es| && es[k].addr == a
    {
      var k :| 0 <= k < |full| && full[k] == a;
      assert k < i;
    }
  }

  lemma ListedAreActive(rows: seq<Row>, round: int, now: int, full: seq<string>)
    requires Lists(rows, round, now, full)
    ensures Distinct(full) && forall a :: a in full <==> Active(rows, round, now, a)
    ensures forall i, k :: 0 <= i < k < |full| ==>
              !Above(KeptBest(rows, round, full[k]), KeptBest(rows, round, full[i]))
  {
    hide Score, Listed, Active, KeptBest;
    forall a
      ensures Listed(rows, round, now, a) <==> Active(rows, round, now, a)
      ensures Score(rows, round, a) == KeptBest(rows, round, a)
    {
      ColumnsAreFold(rows, round, now, a);
    }
  }

  lemma TakeAddr(rows: seq<Row>, round: int, now: int, full: seq<string>, n: nat)
    requires n <= |full|
    ensures var es := Take(rows, round, now, full, n); |es| == n && forall i :: 0 <= i < n ==> es[i].addr == full[i]
  {
    hide Score, LastActivity, Rank;
    TakeAt(rows, round, now, full, n);
  }

  lemma TopMeans(rows: seq<Row>, round: int, now: int, full: seq<string>, n: nat)
    requires Lists(rows, round, now, full) && n == Least(|full|)
    requires forall i :: 0 <= i < n ==> Score(rows, round, full[i]).Some?
    ensures Best21(rows, round, now, Take(rows, round, now, full, n), set a | a in full)
  {
    hide Lists, Active, Take, Least, KeptBest, EntryAt, Describes, InOrder, Distinct;
    var es := Take(rows, round, now, full, n);
    var active := set a | a in full;
    ListedAreActive(rows, round, now, full);
    CountDistinct(full);
    TakeAt(rows, round, now, full, n);
    TakeAddr(rows, round, now, full, n);
    forall i | 0 <= i < n ensures Describes(rows, round, es[i], active) { EntryMeans(rows, round, now, full, i); }
    PrefixInOrder(rows, round, full, es);
  }

  /** Some address with a share that counts has a current best beyond BIGINT, told by its rows alone: one current
      difficulty of at least 2^63, or some and all of them below -2^63. */
  ghost predicate BeyondRange(rows: seq<Row>, round: int) {
    exists r :: r in rows && Counts(r, round) && OutOfBigint(Of(rows, round, r.addr))
  }

  ghost predicate OutOfBigint(part: seq<Row>) {
    Leaderboard.Reaches(part, BIGINT) || (!Unscored(part) && !Leaderboard.Reaches(part, -BIGINT))
  }

  /** An active address none of whose current rows has a difficulty. */
  ghost predicate NullActive(rows: seq<Row>, round: int, now: int, a: string) {
    Active(rows, round, now, a) && Unscored(Of(rows, round, a))
  }

  lemma OverflowByRows(rows: seq<Row>, round: int)
    ensures Overflows(rows, round) <==> BeyondRange(rows, round)
  {
    hide AllTimeBest, Leaderboard.Reaches, Unscored, Of;
    forall r | r in rows && Counts(r, round)
      ensures Fits(Score(rows, round, r.addr)) <==> !OutOfBigint(Of(rows, round, r.addr))
    {
      BestByRows(Of(rows, round, r.addr), BIGINT);
      BestByRows(Of(rows, round, r.addr), -BIGINT);
    }
    hide Fits, OutOfBigint, Score;
  }

  /** NULLs come first, so one among the listed rows is among the rows read. */
  lemma NullIsRead(rows: seq<Row>, round: int, now: int, full: seq<string>)
    requires Lists(rows, round, now, full)
    ensures Read(rows, round, now, full) == ScanFailed <==> exists a :: NullActive(rows, round, now, a)
  {
    hide AllTimeBest, Of, Unscored, Active, Listed, Take;
    forall a
      ensures Listed(rows, round, now, a) <==> Active(rows, round, now, a)
      ensures Score(rows, round, a).None? <==> Unscored(Of(rows, round, a))
    {
      ColumnsAreFold(rows, round, now, a);
      BestByRows(Of(rows, round, a), 0);
    }
    if a :| NullActive(rows, round, now, a) {
      var k :| 0 <= k < |full| && full[k] == a;
      assert Score(rows, round, full[0]).None? by {
        if k > 0 {
          assert !Above(Score(rows, round, full[k]), Score(rows, round, full[0]));
        }
      }
    }
    if i :| 0 <= i < Least(|full|) && Score(rows, round, full[i]).None? {
      assert full[i] in full && NullActive(rows, round, now, full[i]);
    }
  }

  /** Every reply is a cast error, exactly when some best is beyond BIGINT; otherwise a scan error, exactly when an
      active address has no current difficulty; and otherwise the best 21 by the one-pass fold. */
  lemma QueryIsBest21(rows: seq<Row>, round: int, now: int, reply: Reply)
    requires Answers(rows, round, now, reply)
    ensures reply.OutOfRange? <==> BeyondRange(rows, round)
    ensures reply.ScanFailed? <==> !BeyondRange(rows, round) && exists a :: NullActive(rows, round, now, a)
    ensures reply.Entries? ==> exists active :: Best21(rows, round, now, reply.entries, active)
  {
    OverflowByRows(rows, round);
    hide Lists, Take, Best21, Score, KeptBest, BeyondRange, Overflows, NullActive, Least;
    if !Overflows(rows, round) {
      var full :| Lists(rows, round, now, full) && reply == Read(rows, round, now, full);
      NullIsRead(rows, round, now, full);
      if reply.Entries? {
        TopMeans(rows, round, now, full, Least(|full|));
      }
    }
  }

  /** A single share of difficulty 10^20, which the gateway reports for a hash with two zero words, fails the query. */
  lemma OutOfRangeExample(now: int, reply: Reply)
    ensures var rows := [Row("a", 0, Some(100_000_000_000_000_000_000), 1, false)];
            Answers(rows, 1, now, reply) <==> reply == OutOfRange
  {
    var r := Row("a", 0, Some(100_000_000_000_000_000_000), 1, false);
    OverflowByRows([r], 1);
    OneRow(r);
  }

  /** So does a recent share without a difficulty, when its row is read. */
  lemma ScanFailedExample(reply: Reply)
    ensures var rows := [Row("a", 0, None, 1, false)]; Answers(rows, 1, 0, reply) <==> reply == ScanFailed
  {
    var r := Row("a", 0, None, 1, false);
    OneRow(r);
    assert Unscored([r]);
    OverflowByRows([r], 1);
    ColumnsAreFold([r], 1, 0, "a");
    FoldOfOne(r);
    assert NullActive([r], 1, 0, "a");
    ReplyExists([r], 1, 0);
    forall other | Answers([r], 1, 0, other) ensures other == ScanFailed {
      QueryIsBest21([r], 1, 0, other);
    }
  }

  lemma OneRow(r: Row)
    requires Counts(r, 1) && r.addr == "a"
    ensures Of([r], 1, "a") == [r] && r in [r] && Current([r], r)
  {
    assert Of([r][1..], 1, "a") == [];
  }

  lemma FoldOfOne(r: Row)
    requires Counts(r, 1) && r.addr == "a" && r.t == 0
    ensures Active([r], 1, 0, "a")
  {
    OneRow(r);
    assert Arrange([r][1..]) == [];
    assert Arrange([r]) == [r];
    assert [r][..0] == [];
  }

  // ---- there is always a reply ----

  lemma {:induction false} InsertByScore(score: string -> Option<int>, a: string, full: seq<string>)
    returns (out: seq<string>)
    requires Descending(score, full) && Distinct(full) && a !in full
    ensures Descending(score, out) && Distinct(out) && forall x :: x in out <==> x == a || x in full
  {
    if full == [] || !Above(score(full[0]), score(a)) {
      out := [a] + full;
    } else {
      var rest := InsertByScore(score, a, full[1..]);
      assert full == [full[0]] + full[1..] && full[0] !in full[1..];
      assert forall x :: x in rest ==> !Above(score(x), score(full[0])) && x != full[0];
      assert forall k :: 0 <= k < |rest| ==> rest[k] in rest;
      hide Score;
      out := [full[0]] + rest;
    }
  }

  lemma {:induction false} SortByScore(score: string -> Option<int>, s: set<string>) returns (out: seq<string>)
    ensures Descending(score, out) && Distinct(out) && forall x :: x in out <==> x in s
  {
    if s == {} {
      out := [];
    } else {
      var a :| a in s;
      var rest := SortByScore(score, s - {a});
      out := InsertByScore(score, a, rest);
    }
  }

  lemma ReplyExists(rows: seq<Row>, round: int, now: int)
    ensures exists reply :: Answers(rows, round, now, reply)
  {
    if Overflows(rows, round) {
      assert Answers(rows, round, now, OutOfRange);
    } else {
      hide Score, Take, Recent, AllTimeBest;
      var addrs := set r | r in rows :: r.addr;
      var s := set a | a in addrs && Listed(rows, round, now, a);
      forall a | Listed(rows, round, now, a) ensures a in addrs {
        ListedHasRow(rows, round, now, a);
      }
      var full := SortByScore(a => Score(rows, round, a), s);
      assert Lists(rows, round, now, full);
      assert Answers(rows, round, now, Read(rows, round, now, full));
    }
  }

  lemma ListedHasRow(rows: seq<Row>, round: int, now: int, a: string)
    requires Listed(rows, round, now, a)
    ensures exists r :: r in rows && r.addr == a
  {
    hide AllTimeBest;
  }
}
