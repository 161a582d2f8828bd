/** What a reply of the leaderboard query says, in terms of the rows of the shares table alone. */
module TopRows {
  import opened Bytes
  import opened Leaderboard
  import opened Top21

  /** A share of the round and the address that is not stale. */
  predicate Mine(r: Row, round: int, a: string) { r.round == round && !r.stale && r.addr == a }

  /** A share of the current session: wherever the address has a later one, another comes at most seven days before
      that one. */
  ghost predicate InPlay(rows: seq<Row>, round: int, a: string, r: Row) {
    && r in rows && Mine(r, round, a)
    && forall s :: s in rows && Mine(s, round, a) && s.t > r.t ==>
         exists q :: q in rows && Mine(q, round, a) && s.t - 604_800_000_000 <= q.t < s.t
  }

  /** The best of the current session is `x`. */
  ghost predicate BestOf(rows: seq<Row>, round: int, a: string, x: int) {
    && (exists r :: InPlay(rows, round, a, r) && r.diff == Some(x))
    && (forall r :: InPlay(rows, round, a, r) && r.diff.Some? ==> r.diff.value <= x)
  }

  ghost predicate NoBest(rows: seq<Row>, round: int, a: string) {
    forall r :: InPlay(rows, round, a, r) ==> r.diff.None?
  }

  /** The last share came at time `t`. */
  ghost predicate LastAt(rows: seq<Row>, round: int, a: string, t: int) {
    && (exists r :: r in rows && Mine(r, round, a) && r.t == t)
    && (forall r :: r in rows && Mine(r, round, a) ==> r.t <= t)
  }

  /** A share less than seven days old. */
  ghost predicate Mining(rows: seq<Row>, round: int, now: int, a: string) {
    exists r :: r in rows && Mine(r, round, a) && now - r.t < 604_800_000_000
  }

  lemma PartIs(rows: seq<Row>, round: int, a: string)
    ensures forall r :: r in Of(rows, round, a) <==> r in rows && Mine(r, round, a)
  {
  }

  lemma InPlayIff(rows: seq<Row>, round: int, a: string, r: Row)
    ensures InPlay(rows, round, a, r) <==> r in Of(rows, round, a) && Current(Of(rows, round, a), r)
  {
    PartIs(rows, round, a);
    hide Of, Mine;
    var part := Of(rows, round, a);
    if r in part {
      forall s | s in part && s.t > r.t
        ensures (exists q :: q in part && s.t - WEEK <= q.t < s.t)
           <==> (exists q :: q in rows && Mine(q, round, a) && s.t - 604_800_000_000 <= q.t < s.t)
      {
      }
    }
  }

  lemma ScoreIff(rows: seq<Row>, round: int, a: string, x: int)
    ensures Score(rows, round, a) == Some(x) <==> BestOf(rows, round, a, x)
    ensures Score(rows, round, a).None? <==> NoBest(rows, round, a)
  {
    var part := Of(rows, round, a);
    forall y { BestByRows(part, y); }
    forall r { InPlayIff(rows, round, a, r); }
    hide AllTimeBest, Of, Current, InPlay;
    BestByRows(part, x);
    BestByRows(part, x + 1);
    if Score(rows, round, a) == Some(x) {
      var r :| r in part && Current(part, r) && r.diff.Some? && r.diff.value >= x;
      assert !Leaderboard.Reaches(part, x + 1);
      assert r.diff.value < x + 1;
    }
  }

  lemma MiningIff(rows: seq<Row>, round: int, now: int, a: string)
    ensures Active(rows, round, now, a) <==> Mining(rows, round, now, a)
    ensures Active(rows, round, now, a) ==>
              Kept(rows, round, a).Streak? && LastAt(rows, round, a, Kept(rows, round, a).last)
  {
    PartIs(rows, round, a);
    var part := Of(rows, round, a);
    var p := Arrange(part);
    ArrangeArranges(part);
    ArrangedSpans(p, part);
    hide Of, Arrange, Arranged, Mine;
    if part == [] {
      NothingKept(rows, round, a);
    } else {
      FoldMeans(p);
      LatestOf(p, part);
      assert p[|p| - 1] in p;
    }
  }

  lemma NothingKept(rows: seq<Row>, round: int, a: string)
    requires Of(rows, round, a) == []
    ensures Kept(rows, round, a) == Fresh
  {
  }

  lemma LatestOf(p: seq<Row>, part: seq<Row>)
    requires Spans(p, part) && p != []
    ensures p[|p| - 1] in part && forall r :: r in part ==> r.t <= p[|p| - 1].t
  {
    assert p[|p| - 1] in p;
    forall r | r in part ensures r.t <= p[|p| - 1].t {
      var k :| 0 <= k < |p| && p[k] == r;
    }
  }

  // ---- the entries ----

  /** Each entry shows an address mining, with its best and last time. */
  ghost predicate Shows(rows: seq<Row>, round: int, now: int, es: seq<Entry>) {
    forall i :: 0 <= i < |es| ==>
      && Mining(rows, round, now, es[i].addr)
      && BestOf(rows, round, es[i].addr, es[i].best)
      && LastAt(rows, round, es[i].addr, es[i].last)
  }

  /** Best first, no address twice, and the rank one more than the number of entries strictly better. */
  predicate Ranked(es: seq<Entry>) {
    && (forall i, k :: 0 <= i < k < |es| ==> es[i].addr != es[k].addr && es[i].best >= es[k].best)
    && (forall i :: 0 <= i < |es| ==> es[i].rank == 1 + |set k | 0 <= k < |es| && es[k].best > es[i].best|)
  }

  /** Whoever is mining and not shown is beaten or equalled by all of 21 entries. */
  ghost predicate Omits(rows: seq<Row>, round: int, now: int, es: seq<Entry>) {
    && |es| <= 21
    && forall a, x :: Mining(rows, round, now, a) && BestOf(rows, round, a, x) ==>
         || (exists i :: 0 <= i < |es| && es[i].addr == a)
         || (|es| == 21 && forall i :: 0 <= i < |es| ==> es[i].best >= x)
  }

  lemma KeptIff(rows: seq<Row>, round: int, a: string, x: int)
    ensures KeptBest(rows, round, a) == Some(x) <==> BestOf(rows, round, a, x)
    ensures KeptBest(rows, round, a).None? <==> NoBest(rows, round, a)
  {
    hide Score, KeptBest, BestOf, NoBest;
    ColumnsAreFold(rows, round, 0, a);
    ScoreIff(rows, round, a, x);
  }

  lemma ShowsEntries(rows: seq<Row>, round: int, now: int, es: seq<Entry>, active: set<string>)
    requires Best21(rows, round, now, es, active)
    ensures Shows(rows, round, now, es)
  {
    hide KeptBest, Kept, BestOf, Mining, LastAt, Active, Better;
    forall i | 0 <= i < |es|
      ensures Mining(rows, round, now, es[i].addr) && BestOf(rows, round, es[i].addr, es[i].best)
           && LastAt(rows, round, es[i].addr, es[i].last)
    {
      assert Describes(rows, round, es[i], active);
      KeptIff(rows, round, es[i].addr, es[i].best);
      MiningIff(rows, round, now, es[i].addr);
    }
  }

  /** Every address strictly better than an entry is itself an entry before it. */
  lemma BetterAreEntries(rows: seq<Row>, round: int, now: int, es: seq<Entry>, active: set<string>, i: nat)
    requires Best21(rows, round, now, es, active) && i < |es|
    ensures |Better(rows, round, active, es[i].addr)| == |set k | 0 <= k < |es| && es[k].best > es[i].best|
  {
    hide KeptBest, Kept, Active;
    forall k | 0 <= k < |es| ensures KeptBest(rows, round, es[k].addr) == Some(es[k].best) {
      assert Describes(rows, round, es[k], active);
    }
    var ks := set k | 0 <= k < |es| && es[k].best > es[i].best;
    var better := Better(rows, round, active, es[i].addr);
    hide Best21, Describes;
    SameSize(es, ks, better);
  }

  lemma {:induction false} SameSize(es: seq<Entry>, ks: set<int>, addrs: set<string>)
    requires forall i, k :: 0 <= i < k < |es| ==> es[i].addr != es[k].addr
    requires forall k :: k in ks ==> 0 <= k < |es| && es[k].addr in addrs
    requires forall a :: a in addrs ==> exists k :: k in ks && es[k].addr == a
    ensures |addrs| == |ks|
    decreases ks
  {
    if k :| k in ks {
      SameSize(es, ks - {k}, addrs - {es[k].addr});
    } else {
      assert forall k: int :: k !in ks;
      NoneIn(ks);
      NoneIn(addrs);
    }
  }

  lemma NoneIn<T>(s: set<T>)
    requires forall x :: x !in s
    ensures s == {}
  {
  }

  lemma RankedEntries(rows: seq<Row>, round: int, now: int, es: seq<Entry>, active: set<string>)
    requires Best21(rows, round, now, es, active)
    ensures Ranked(es)
  {
    forall i | 0 <= i < |es| ensures es[i].rank == 1 + |set k | 0 <= k < |es| && es[k].best > es[i].best| {
      BetterAreEntries(rows, round, now, es, active, i);
      assert Describes(rows, round, es[i], active);
    }
    hide KeptBest, Kept, Active, Better;
    forall i, k | 0 <= i < k < |es| ensures es[i].best >= es[k].best {
      assert Describes(rows, round, es[i], active) && Describes(rows, round, es[k], active);
    }
  }

  lemma OmitsWorse(rows: seq<Row>, round: int, now: int, es: seq<Entry>, active: set<string>)
    requires Best21(rows, round, now, es, active)
    ensures Omits(rows, round, now, es)
  {
    hide KeptBest, Kept, BestOf, Mining, Active, Better;
    forall a, x | Mining(rows, round, now, a) && BestOf(rows, round, a, x)
      ensures (exists i :: 0 <= i < |es| && es[i].addr == a)
           || (|es| == 21 && forall i :: 0 <= i < |es| ==> es[i].best >= x)
    {
      MiningIff(rows, round, now, a);
      KeptIff(rows, round, a, x);
      if !exists i :: 0 <= i < |es| && es[i].addr == a {
        forall i | 0 <= i < |es| ensures es[i].best >= x {
          assert Describes(rows, round, es[i], active);
        }
        if |es| == |active| {
          AllShown(es, active, a);
        }
      }
    }
  }

  lemma AllShown(es: seq<Entry>, active: set<string>, a: string)
    requires |es| == |active| && forall i :: 0 <= i < |es| ==> es[i].addr in active
    requires forall i, k :: 0 <= i < k < |es| ==> es[i].addr != es[k].addr
    requires a in active
    ensures exists i :: 0 <= i < |es| && es[i].addr == a
  {
    var shown := Shown(es);
    if a !in shown {
      Fewer(shown, active - {a});
    }
  }

  lemma Shown(es: seq<Entry>) returns (shown: set<string>)
    requires forall i, k :: 0 <= i < k < |es| ==> es[i].addr != es[k].addr
    ensures |shown| == |es| && forall a :: a in shown <==> exists i :: 0 <= i < |es| && es[i].addr == a
  {
    shown := set i | 0 <= i < |es| :: es[i].addr;
    var all := UpTo(|es|);
    forall x | x in shown ensures exists k :: k in all && es[k].addr == x {
      var i :| 0 <= i < |es| && es[i].addr == x;
      assert i in all;
    }
    SameSize(es, all, shown);
  }

  function UpTo(n: nat): (s: set<nat>)
    ensures |s| == n && forall i: int :: i in s <==> 0 <= i < n
  {
    if n == 0 then {} else UpTo(n - 1) + {n - 1}
  }

  lemma {:induction false} Fewer(a: set<string>, b: set<string>)
    requires a <= b
    ensures |a| <= |b|
  {
    if a != {} {
      var x :| x in a;
      Fewer(a - {x}, b - {x});
    }
  }

  /** The reply, whichever way the database breaks ties: a cast error exactly when some address has a session best that
      is no signed 64-bit number; else a scan error exactly when an address that is mining has no session best; else at
      most 21 addresses that are mining, each once, with the best of its current session and the time of its last share,
      best first, each ranked below the strictly better ones, and nobody left out who beats an entry or whom a free
      place would have taken. */
  lemma ReplyByRows(rows: seq<Row>, round: int, now: int, reply: Reply)
    requires Answers(rows, round, now, reply)
    ensures reply == OutOfRange
       <==> exists a, x :: BestOf(rows, round, a, x) && !(-0x8000_0000_0000_0000 <= x < 0x8000_0000_0000_0000)
    ensures reply == ScanFailed
       <==> reply != OutOfRange && exists a :: Mining(rows, round, now, a) && NoBest(rows, round, a)
    ensures reply.Entries? ==>
              var es := reply.entries;
              Shows(rows, round, now, es) && Ranked(es) && Omits(rows, round, now, es)
  {
    hide Answers, Best21, BestOf, NoBest, Mining, Active, BeyondRange, NullActive, Shows, Ranked, Omits, Of;
    QueryIsBest21(rows, round, now, reply);
    RangeIff(rows, round);
    forall a ensures NullActive(rows, round, now, a) <==> Mining(rows, round, now, a) && NoBest(rows, round, a) {
      NullIff(rows, round, now, a);
    }
    if reply.Entries? {
      var active :| Best21(rows, round, now, reply.entries, active);
      ShowsEntries(rows, round, now, reply.entries, active);
      RankedEntries(rows, round, now, reply.entries, active);
      OmitsWorse(rows, round, now, reply.entries, active);
    }
  }

  lemma NullIff(rows: seq<Row>, round: int, now: int, a: string)
    ensures NullActive(rows, round, now, a) <==> Mining(rows, round, now, a) && NoBest(rows, round, a)
  {
    hide Active, Mining, NoBest, AllTimeBest, Of, Unscored;
    MiningIff(rows, round, now, a);
    ScoreIff(rows, round, a, 0);
    BestByRows(Of(rows, round, a), 0);
  }

  lemma RangeIff(rows: seq<Row>, round: int)
    ensures BeyondRange(rows, round)
       <==> exists a, x :: BestOf(rows, round, a, x) && !(-0x8000_0000_0000_0000 <= x < 0x8000_0000_0000_0000)
  {
    OverflowByRows(rows, round);
    hide BeyondRange, Score;
    if Overflows(rows, round) {
      var r :| r in rows && Counts(r, round) && !Fits(Score(rows, round, r.addr));
      var x := Score(rows, round, r.addr).value;
      ScoreIff(rows, round, r.addr, x);
      assert BestOf(rows, round, r.addr, x);
    }
    if a, x :| BestOf(rows, round, a, x) && !(-0x8000_0000_0000_0000 <= x < 0x8000_0000_0000_0000) {
      ScoreIff(rows, round, a, x);
      var r :| InPlay(rows, round, a, r) && r.diff == Some(x);
      assert r in rows && Counts(r, round) && r.addr == a;
    }
  }

  // ---- shares that do not count ----

  /** The table without stale shares and those of other rounds. */
  function Counting(rows: seq<Row>, round: int): seq<Row> {
    if rows == [] then []
    else (if rows[0].round == round && !rows[0].stale then [rows[0]] else []) + Counting(rows[1..], round)
  }

  lemma {:induction false} SameParts(rows: seq<Row>, round: int, a: string)
    ensures Of(Counting(rows, round), round, a) == Of(rows, round, a)
  {
    if rows != [] {
      SameParts(rows[1..], round, a);
      var rest := Counting(rows[1..], round);
      assert ([rows[0]] + rest)[1..] == rest;
      assert [] + rest == rest;
      if rows[0].round == round && !rows[0].stale {
        assert Of([rows[0]] + rest, round, a)
            == (if rows[0].addr == a then [rows[0]] else []) + Of(rest, round, a);
      }
    }
  }

  lemma SameEntry(rows: seq<Row>, rows': seq<Row>, round: int, now: int, full: seq<string>, i: nat)
    requires i < |full| && forall a :: Of(rows', round, a) == Of(rows, round, a)
    ensures EntryAt(rows', round, now, full, i) == EntryAt(rows, round, now, full, i)
  {
    hide Rank, AllTimeBest, LastActivity, Of;
    SameRank(rows, rows', round, full, i);
  }

  lemma {:induction false} SameTake(rows: seq<Row>, rows': seq<Row>, round: int, now: int, full: seq<string>, n: nat)
    requires n <= |full| && forall a :: Of(rows', round, a) == Of(rows, round, a)
    ensures Take(rows', round, now, full, n) == Take(rows, round, now, full, n)
  {
    hide EntryAt, Of;
    if n > 0 {
      SameTake(rows, rows', round, now, full, n - 1);
      SameEntry(rows, rows', round, now, full, n - 1);
    }
  }

  lemma {:induction false} SameRank(rows: seq<Row>, rows': seq<Row>, round: int, full: seq<string>, i: nat)
    requires i < |full| && forall a :: Of(rows', round, a) == Of(rows, round, a)
    ensures Rank(x => Score(rows', round, x), full, i) == Rank(x => Score(rows, round, x), full, i)
  {
    hide AllTimeBest, Of;
    if i > 0 {
      SameRank(rows, rows', round, full, i - 1);
    }
  }

  /** Stale shares, and shares of other rounds, change nothing: the database may give a reply exactly when it may give
      it without them. */
  lemma StaleIgnored(rows: seq<Row>, round: int, now: int, reply: Reply)
    ensures Answers(rows, round, now, reply) <==> Answers(Counting(rows, round), round, now, reply)
  {
    var rows' := Counting(rows, round);
    forall a ensures Of(rows', round, a) == Of(rows, round, a) { SameParts(rows, round, a); }
    SameOverflow(rows, rows', round);
    forall full
      ensures Lists(rows', round, now, full) <==> Lists(rows, round, now, full)
      ensures Read(rows', round, now, full) == Read(rows, round, now, full)
    {
      SameList(rows, rows', round, now, full);
    }
    hide Lists, Read, Overflows, Of, Counting;
  }

  lemma SameList(rows: seq<Row>, rows': seq<Row>, round: int, now: int, full: seq<string>)
    requires forall a :: Of(rows', round, a) == Of(rows, round, a)
    ensures Lists(rows', round, now, full) <==> Lists(rows, round, now, full)
    ensures Read(rows', round, now, full) == Read(rows, round, now, full)
  {
    hide Of, AllTimeBest, Recent, Grouped, Take;
    SameTake(rows, rows', round, now, full, Least(|full|));
  }

  lemma SameOverflow(rows: seq<Row>, rows': seq<Row>, round: int)
    requires forall a :: Of(rows', round, a) == Of(rows, round, a)
    ensures Overflows(rows', round) <==> Overflows(rows, round)
  {
    hide AllTimeBest;
    forall r | r in rows && Counts(r, round) ensures r in rows' && Counts(r, round) {
      assert r in Of(rows, round, r.addr);
    }
    forall r | r in rows' && Counts(r, round) ensures r in rows && Counts(r, round) {
      assert r in Of(rows', round, r.addr);
    }
  }
}
