/** Interleavings of RecordShare and FlushShares (service.go, main.go): where every accepted share is at any time. */
module ShareFlow {
  import opened Rounds
  import opened Shares

  /** An accepted share, marked with the call that brought it. */
  datatype Ticket = Ticket(call: nat, share: Share)

  /** The marks are history: the code sees the shares. */
  function Unmarked(ts: seq<Ticket>): seq<Share> { seq(|ts|, i requires 0 <= i < |ts| => ts[i].share) }

  /** `took` is the round each call read; `waiting` are the calls between that read and the append; `flying` are the
      batches swapped out of the buffer whose transaction has not ended. `stored`, `dropped` and `accepted` are history:
      what the applied and the failed flushes carried, and every append. */
  datatype Sys = Sys(cached: nat, took: map<nat, nat>, waiting: set<nat>, buffer: seq<Ticket>,
                     flying: seq<seq<Ticket>>, tables: Tables,
                     stored: seq<Ticket>, dropped: multiset<Ticket>, accepted: multiset<Ticket>)

  datatype Action =
    | NewRound(r: nat)
    | ReadRound(call: nat)
    | Refuse(call: nat)
    | Append(call: nat, addr: string, worker: string, difficulty: int, trueDiff: int, port: int)
    | Swap
    | Land(i: nat, now: int, outcome: Outcome)

  function Start(r: nat): Sys {
    Sys(r, map[], {}, [], [], Tables(multiset{}, map[]), [], multiset{}, multiset{})
  }

  predicate Enabled(s: Sys, a: Action) {
    match a
    case NewRound(_) => true
    case ReadRound(c) => c !in s.took
    case Refuse(c) => c in s.waiting
    case Append(c, _, _, _, _, _) => c in s.waiting && c in s.took
    case Swap => true
    case Land(i, _, _) => i < |s.flying|
  }

  function Next(s: Sys, a: Action): Sys
    requires Enabled(s, a)
  {
    match a
    case NewRound(r) => s.(cached := r)
    case ReadRound(c) => s.(took := s.took[c := s.cached], waiting := s.waiting + {c})
    case Refuse(c) => s.(waiting := s.waiting - {c})
    case Append(c, addr, worker, difficulty, trueDiff, port) =>
      var t := Ticket(c, Share(s.took[c], addr, worker, difficulty, trueDiff, port));
      s.(waiting := s.waiting - {c}, buffer := s.buffer + [t], accepted := s.accepted + multiset{t})
    case Swap => if s.buffer == [] then s else s.(buffer := [], flying := s.flying + [s.buffer])
    case Land(i, now, outcome) =>
      var batch, rest := s.flying[i], s.flying[..i] + s.flying[i + 1..];
      var landed := s.(flying := rest, tables := AfterFlush(s.tables, Unmarked(batch), now, outcome));
      if outcome == RolledBack then landed.(dropped := s.dropped + multiset(batch))
      else landed.(stored := s.stored + batch)
  }

  predicate Allowed(s: Sys, acts: seq<Action>)
    decreases |acts|
  {
    acts == [] || (Enabled(s, acts[0]) && Allowed(Next(s, acts[0]), acts[1..]))
  }

  function Run(s: Sys, acts: seq<Action>): Sys
    requires Allowed(s, acts)
    decreases |acts|
  {
    if acts == [] then s else Run(Next(s, acts[0]), acts[1..])
  }

  // ---- the steps are those of the service's methods ----

  lemma UnmarkedConcat(a: seq<Ticket>, b: seq<Ticket>)
    ensures Unmarked(a + b) == Unmarked(a) + Unmarked(b)
  {
  }

  /** An append leaves buffer and tables as BufferShare does, for a share with the round the call read. */
  lemma AppendIsBufferShare(s: Sys, a: Action)
    requires Enabled(s, a) && a.Append?
    ensures var sh := Share(s.took[a.call], a.addr, a.worker, a.difficulty, a.trueDiff, a.port);
            Unmarked(Next(s, a).buffer) == Unmarked(s.buffer) + [sh] && Next(s, a).tables == s.tables
  {
  }

  /** A flush that nothing interrupts is a swap and, if it swapped anything, the landing of its batch: together they
      leave buffer and tables as FlushShares does, and the other flushes alone. */
  lemma FlushIsRun(s: Sys, now: int, outcome: Outcome)
    ensures var acts := if s.buffer == [] then [Swap] else [Swap, Land(|s.flying|, now, outcome)];
            && Allowed(s, acts)
            && var s' := Run(s, acts);
            && s'.buffer == [] && s'.flying == s.flying
            && s'.tables == AfterFlush(s.tables, Unmarked(s.buffer), now, outcome)
  {
    var swapped := Next(s, Swap);
    if s.buffer == [] {
      assert [Swap][1..] == [];
      assert Allowed(swapped, []) && Run(swapped, []) == swapped;
    } else {
      var n := |s.flying|;
      var land := Land(n, now, outcome);
      assert swapped.flying[..n] + swapped.flying[n + 1..] == s.flying && swapped.flying[n] == s.buffer;
      var end := Next(swapped, land);
      hide AfterFlush;
      assert [land][1..] == [] && [Swap, land][1..] == [land];
      assert Allowed(end, []) && Run(end, []) == end;
      assert Allowed(swapped, [land]) && Run(swapped, [land]) == end;
    }
  }

  // ---- counting tickets ----

  /** All the shares in flight. */
  function InFlight(flying: seq<seq<Ticket>>): multiset<Ticket> {
    if flying == [] then multiset{} else multiset(flying[0]) + InFlight(flying[1..])
  }

  lemma {:induction false} InFlightConcat(a: seq<seq<Ticket>>, b: seq<seq<Ticket>>)
    ensures InFlight(a + b) == InFlight(a) + InFlight(b)
  {
    if a == [] {
      assert a + b == b;
    } else {
      assert (a + b)[0] == a[0] && (a + b)[1..] == a[1..] + b;
      InFlightConcat(a[1..], b);
    }
  }

  lemma InFlightOne(batch: seq<Ticket>)
    ensures InFlight([batch]) == multiset(batch)
  {
    assert [batch][1..] == [];
  }

  lemma InFlightWithout(flying: seq<seq<Ticket>>, i: nat)
    requires i < |flying|
    ensures InFlight(flying) == multiset(flying[i]) + InFlight(flying[..i] + flying[i + 1..])
  {
    hide InFlight;
    var front, one, back := flying[..i], [flying[i]], flying[i + 1..];
    assert flying == front + (one + back);
    InFlightConcat(front, one + back);
    InFlightConcat(one, back);
    InFlightConcat(front, back);
    InFlightOne(flying[i]);
    Exchanged(InFlight(front), InFlight(one), InFlight(back));
  }

  lemma Exchanged<T>(a: multiset<T>, b: multiset<T>, c: multiset<T>)
    ensures a + (b + c) == b + (a + c)
  {
  }

  // ---- the invariant ----

  /** Buffered, in flight, stored and dropped shares make up the accepted ones. */
  predicate Conserved(s: Sys) {
    s.accepted == multiset(s.buffer) + InFlight(s.flying) + multiset(s.stored) + s.dropped
  }

  /** Each call is accepted at most once, with the round it read. */
  ghost predicate Tickets(s: Sys) {
    && s.waiting <= s.took.Keys
    && (forall t :: t in s.accepted ==> s.accepted[t] == 1 && t.call in s.took && t.call !in s.waiting
                                        && t.share.round == s.took[t.call])
    && (forall t, u :: t in s.accepted && u in s.accepted && t.call == u.call ==> t == u)
  }

  /** The shares table has one row for each stored ticket and no other; the workers are exactly theirs. */
  predicate Written(s: Sys) {
    && s.tables.shares == multiset(RowsOf(Unmarked(s.stored)))
    && s.tables.workers.Keys == Keys(Unmarked(s.stored))
  }

  lemma LandConserves(s: Sys, i: nat, now: int, outcome: Outcome)
    requires Conserved(s) && i < |s.flying|
    ensures Conserved(Next(s, Land(i, now, outcome)))
  {
    hide InFlight, AfterFlush;
    InFlightWithout(s.flying, i);
    var s' := Next(s, Land(i, now, outcome));
    var m, rest := multiset(s.flying[i]), InFlight(s.flying[..i] + s.flying[i + 1..]);
    assert InFlight(s'.flying) == rest && s'.buffer == s.buffer && s'.accepted == s.accepted;
    assert multiset(s'.stored) + s'.dropped == multiset(s.stored) + s.dropped + m by {
      if outcome != RolledBack {
        assert multiset(s.stored + s.flying[i]) == multiset(s.stored) + m;
      }
    }
    hide Next;
    Regroup(multiset(s.buffer), m, rest, multiset(s.stored), s.dropped);
    assert s'.accepted == multiset(s.buffer) + rest + (multiset(s'.stored) + s'.dropped);
    Regroup(multiset(s.buffer), multiset{}, rest, multiset(s'.stored), s'.dropped);
  }

  lemma Regroup<T>(a: multiset<T>, b: multiset<T>, c: multiset<T>, d: multiset<T>, e: multiset<T>)
    ensures a + (b + c) + d + e == a + c + (d + e + b) == a + c + d + e + b
  {
  }

  lemma ConservedNext(s: Sys, a: Action)
    requires Conserved(s) && Enabled(s, a)
    ensures Conserved(Next(s, a))
  {
    hide InFlight, AfterFlush;
    if a.Land? {
      LandConserves(s, a.i, a.now, a.outcome);
    } else if a.Swap? {
      InFlightConcat(s.flying, [s.buffer]);
      InFlightOne(s.buffer);
    }
  }

  lemma TicketsNext(s: Sys, a: Action)
    requires Tickets(s) && Enabled(s, a)
    ensures Tickets(Next(s, a))
  {
    if a.Append? {
      AppendTickets(s, a);
    }
  }

  lemma AppendTickets(s: Sys, a: Action)
    requires Tickets(s) && Enabled(s, a) && a.Append?
    ensures Tickets(Next(s, a))
  {
    var s' := Next(s, a);
    var t := Ticket(a.call, Share(s.took[a.call], a.addr, a.worker, a.difficulty, a.trueDiff, a.port));
    assert t !in s.accepted && s'.accepted == s.accepted + multiset{t};
    assert forall u :: u in s'.accepted ==> u in s.accepted || u == t;
  }

  lemma RowsConcat(a: seq<Share>, b: seq<Share>)
    ensures RowsOf(a + b) == RowsOf(a) + RowsOf(b)
    ensures Keys(a + b) == Keys(a) + Keys(b)
  {
  }

  lemma LandWritten(stored: seq<Ticket>, batch: seq<Ticket>, t: Tables, now: int)
    requires t.shares == multiset(RowsOf(Unmarked(stored))) && t.workers.Keys == Keys(Unmarked(stored))
    ensures var t' := Flushed(t, Unmarked(batch), now);
            && t'.shares == multiset(RowsOf(Unmarked(stored + batch)))
            && t'.workers.Keys == Keys(Unmarked(stored + batch))
  {
    UnmarkedConcat(stored, batch);
    RowsConcat(Unmarked(stored), Unmarked(batch));
    hide RowsOf, Unmarked, Keys;
    assert (map k | k in Keys(Unmarked(batch)) :: now).Keys == Keys(Unmarked(batch));
  }

  lemma WrittenNext(s: Sys, a: Action)
    requires Written(s) && Enabled(s, a)
    ensures Written(Next(s, a))
  {
    if a.Land? && a.outcome != RolledBack {
      var batch := s.flying[a.i];
      LandWritten(s.stored, batch, s.tables, a.now);
      hide RowsOf, Keys, Flushed;
      if Unmarked(batch) == [] {
        assert batch == [] && s.stored + batch == s.stored;
      }
    }
  }

  lemma NothingFlushed(batch: seq<Ticket>)
    ensures Unmarked(batch) == [] ==> multiset(RowsOf(Unmarked(batch))) == multiset{} && Keys(Unmarked(batch)) == {}
  {
  }

  lemma {:induction false} InvRun(s: Sys, acts: seq<Action>)
    requires Conserved(s) && Tickets(s) && Written(s) && Allowed(s, acts)
    ensures Conserved(Run(s, acts)) && Tickets(Run(s, acts)) && Written(Run(s, acts))
    ensures forall c :: c in s.took ==> c in Run(s, acts).took && Run(s, acts).took[c] == s.took[c]
    decreases |acts|
  {
    hide Conserved, Tickets, Written;
    if acts != [] {
      var a := acts[0];
      ConservedNext(s, a);
      TicketsNext(s, a);
      WrittenNext(s, a);
      assert forall c :: c in s.took ==> c in Next(s, a).took && Next(s, a).took[c] == s.took[c];
      hide Enabled, Next;
      InvRun(Next(s, a), acts[1..]);
    }
  }

  lemma StartReaches(round: nat, acts: seq<Action>)
    requires Allowed(Start(round), acts)
    ensures var s := Run(Start(round), acts); Conserved(s) && Tickets(s) && Written(s)
  {
    assert Written(Start(round)) by { NothingFlushed([]); }
    InvRun(Start(round), acts);
  }

  // ---- what becomes of a share ----

  /** How often `t` is in each of the four places. */
  function Places(s: Sys, t: Ticket): (nat, nat, nat, nat) {
    (multiset(s.buffer)[t], InFlight(s.flying)[t], multiset(s.stored)[t], s.dropped[t])
  }

  /** In every interleaving of calls, flushes and round changes: every accepted share is in exactly one place, once -
      the buffer, a flush in flight, an applied flush, a failed one - and carries the round its call read; and the
      shares table holds exactly the rows of the applied ones, one each, the workers table exactly their workers. */
  lemma EveryShareOnce(round: nat, acts: seq<Action>, t: Ticket)
    requires Allowed(Start(round), acts)
    ensures var s := Run(Start(round), acts);
            && s.accepted == multiset(s.buffer) + InFlight(s.flying) + multiset(s.stored) + s.dropped
            && (t in s.accepted ==> Places(s, t) in {(1, 0, 0, 0), (0, 1, 0, 0), (0, 0, 1, 0), (0, 0, 0, 1)})
            && (t !in s.accepted ==> Places(s, t) == (0, 0, 0, 0))
            && (t in s.stored ==> t.call in s.took && t.share.round == s.took[t.call])
            && s.tables.shares == multiset(RowsOf(Unmarked(s.stored)))
            && s.tables.workers.Keys == Keys(Unmarked(s.stored))
  {
    StartReaches(round, acts);
    hide Run, Allowed, InFlight;
    var s := Run(Start(round), acts);
    var p := Places(s, t);
    assert s.accepted[t] == p.0 + p.1 + p.2 + p.3;
    assert t in s.stored <==> t in multiset(s.stored);
    if t in s.accepted {
      assert s.accepted[t] == 1;
    } else {
      assert s.accepted[t] == 0;
    }
  }

  /** The stored tickets whose row is `r`. */
  function TicketsOf(stored: seq<Ticket>, r: Share): set<Ticket> { set t | t in stored && RowOf(t.share) == r }

  predicate NoDuplicates(ts: seq<Ticket>) { forall i, k :: 0 <= i < k < |ts| ==> ts[i] != ts[k] }

  lemma {:induction false} RowCounted(stored: seq<Ticket>, r: Share)
    requires NoDuplicates(stored)
    ensures multiset(RowsOf(Unmarked(stored)))[r] == |TicketsOf(stored, r)|
  {
    if stored == [] {
      NothingFlushed([]);
    } else {
      var n := |stored| - 1;
      var front, last := stored[..n], stored[n];
      RowCounted(front, r);
      assert stored == front + [last];
      UnmarkedConcat(front, [last]);
      RowsConcat(Unmarked(front), Unmarked([last]));
      assert RowsOf(Unmarked([last])) == [RowOf(last.share)];
      hide RowsOf, Unmarked, RowOf;
      assert last !in front;
      if RowOf(last.share) == r {
        assert TicketsOf(stored, r) == TicketsOf(front, r) + {last};
      } else {
        assert TicketsOf(stored, r) == TicketsOf(front, r);
      }
    }
  }

  lemma {:induction false} OnceEach(ts: seq<Ticket>)
    requires forall t :: t in ts ==> multiset(ts)[t] <= 1
    ensures NoDuplicates(ts)
  {
    if ts != [] {
      var n := |ts| - 1;
      var front, last := ts[..n], ts[n];
      assert ts == front + [last] && multiset(ts) == multiset(front) + multiset{last};
      assert last in ts && (last in front ==> last in multiset(front));
      forall t | t in front ensures multiset(front)[t] <= 1 {
        assert t in ts && multiset(front)[t] <= multiset(ts)[t];
      }
      OnceEach(front);
    }
  }

  /** A row is in the shares table exactly as often as accepted shares with that row have had their flush applied. */
  lemma RowsOnce(round: nat, acts: seq<Action>, r: Share)
    requires Allowed(Start(round), acts)
    ensures var s := Run(Start(round), acts); s.tables.shares[r] == |TicketsOf(s.stored, r)|
  {
    StartReaches(round, acts);
    hide Run, Allowed, InFlight, RowsOf, Unmarked;
    var s := Run(Start(round), acts);
    forall t | t in s.stored ensures multiset(s.stored)[t] <= 1 {
      assert t in multiset(s.stored) && t in s.accepted;
      assert s.accepted[t] == 1;
    }
    OnceEach(s.stored);
    RowCounted(s.stored, r);
  }

  /** A share whose flush is applied has been stored exactly once ever after, and the table holds its row: the round its
      call read, its own address, worker and difficulties, and its port where that has 32 bits. */
  lemma CommittedOnce(round: nat, front: seq<Action>, i: nat, now: int, outcome: Outcome, back: seq<Action>, t: Ticket)
    requires Allowed(Start(round), front)
    requires Enabled(Run(Start(round), front), Land(i, now, outcome)) && outcome != RolledBack
    requires Allowed(Next(Run(Start(round), front), Land(i, now, outcome)), back)
    requires t in Run(Start(round), front).flying[i]
    ensures var before := Run(Start(round), front);
            var after := Run(Next(before, Land(i, now, outcome)), back);
            && multiset(after.stored)[t] == 1
            && t.call in before.took && t.call in after.took && before.took[t.call] == after.took[t.call]
            && exists row ::
                 && row in after.tables.shares
                 && row.round == t.share.round == before.took[t.call]
                 && row.addr == t.share.addr && row.worker == t.share.worker
                 && row.difficulty == t.share.difficulty && row.trueDiff == t.share.trueDiff
                 && (-0x8000_0000 <= t.share.port < 0x8000_0000 ==> row.port == t.share.port)
  {
    var before := Run(Start(round), front);
    StartReaches(round, front);
    var land := Land(i, now, outcome);
    var landed := Next(before, land);
    ConservedNext(before, land);
    TicketsNext(before, land);
    WrittenNext(before, land);
    InvRun(landed, back);
    assert t in landed.stored;
    assert t in before.accepted by {
      InFlightWithout(before.flying, i);
      assert t in multiset(before.flying[i]);
    }
    var after := Run(landed, back);
    StoredStays(landed, back, t);
    hide Next, InFlight, RowsOf, AfterFlush;
    assert t in multiset(after.stored) && after.accepted[t] <= 1;
    var row := RowOfStored(after.stored, t);
    assert row in after.tables.shares;
  }

  lemma RowOfStored(stored: seq<Ticket>, t: Ticket) returns (row: Share)
    requires t in stored
    ensures row in multiset(RowsOf(Unmarked(stored)))
    ensures row == Share(t.share.round, t.share.addr, t.share.worker, t.share.difficulty, t.share.trueDiff, row.port)
    ensures -0x8000_0000 <= t.share.port < 0x8000_0000 ==> row.port == t.share.port
  {
    var k :| 0 <= k < |stored| && stored[k] == t;
    RowsAre(Unmarked(stored), k);
    row := RowsOf(Unmarked(stored))[k];
  }

  lemma {:induction false} StoredStays(s: Sys, acts: seq<Action>, t: Ticket)
    requires Allowed(s, acts) && t in s.stored
    ensures t in Run(s, acts).stored
    decreases |acts|
  {
    if acts != [] {
      assert t in Next(s, acts[0]).stored;
      hide Next, Enabled;
      StoredStays(Next(s, acts[0]), acts[1..], t);
    }
  }
}
