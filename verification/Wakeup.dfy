/** Interleavings of main.go: block finders, the confirmation loop with its one-slot channel, and process restarts. Each
    action is one step that other goroutines cannot split. */
module Wakeup {
  import opened Bytes
  import opened Rounds
  import opened Confirmation

  /** A BlockFound call in flight: it has read the round, or inserted its block and not yet signalled. */
  datatype Phase = Holding(round: nat) | Signalling(block: nat)

  /** Where the loop is: the startup query and its signal, idle on the channel, about to query, inside a sweep (blocks
      still to look at, how many are pending, a round id committed but not yet stored), or waiting for the ticker. */
  datatype Loop =
    | Starting
    | Seeding(found: bool)
    | Idle
    | Ready
    | Sweeping(todo: seq<nat>, pending: nat, store: Option<nat>)
    | Waiting

  datatype Sys = Sys(db: Db, cached: nat, token: bool, loop: Loop, finders: map<nat, Phase>)

  datatype Action =
    | FinderReads(g: nat)
    | FinderInserts(g: nat, block: nat, hash: string, found: int, fault: bool)
    | FinderSignals(g: nat)
    | StartupQuery(ok: bool)
    | Seed
    | Receive
    | Query(ok: bool, todo: seq<nat>)
    | Judge(t: Trial)
    | Store
    | Finish
    | Tick
    | Restart(round: nat)

  function Start(round: nat): Sys { Sys(Initial(round), round, false, Starting, map[]) }

  ghost predicate Enabled(s: Sys, a: Action) {
    match a
    case FinderReads(g) => g !in s.finders
    case FinderInserts(g, b, _, _, _) => g in s.finders && s.finders[g].Holding? && b !in s.db.blocks
    case FinderSignals(g) => g in s.finders && s.finders[g].Signalling?
    case StartupQuery(_) => s.loop == Starting
    case Seed => s.loop.Seeding?
    case Receive => s.loop == Idle && s.token
    case Query(ok, todo) => s.loop == Ready && (ok ==> Lists(s.db, todo))
    case Judge(t) => s.loop.Sweeping? && s.loop.store.None? && s.loop.todo != [] && t.serial !in s.db.rounds
    case Store => s.loop.Sweeping? && s.loop.store.Some?
    case Finish => s.loop.Sweeping? && s.loop.store.None? && s.loop.todo == []
    case Tick => s.loop == Waiting
    case Restart(r) => Open(s.db, r)
  }

  ghost function Next(s: Sys, a: Action): Sys
    requires Enabled(s, a)
  {
    match a
    case FinderReads(g) => s.(finders := s.finders[g := Holding(s.cached)])
    case FinderInserts(g, b, hash, found, fault) =>
      var round := s.finders[g].round;
      if fault || Refused(s.db, round, hash) then s.(finders := s.finders - {g})
      else s.(db := Recorded(s.db, b, round, hash, found), finders := s.finders[g := Signalling(b)])
    case FinderSignals(g) => s.(token := true, finders := s.finders - {g})
    case StartupQuery(ok) => s.(loop := Seeding(ok && exists b :: Unresolved(s.db, b)))
    case Seed => s.(token := s.token || s.loop.found, loop := Idle)
    case Receive => s.(token := false, loop := Ready)
    case Query(ok, todo) => s.(loop := if ok then Sweeping(todo, 0, None) else Waiting)
    case Judge(t) =>
      var b := s.loop.todo[0];
      s.(db := Judged(s.db, b, t),
         loop := Sweeping(s.loop.todo[1..], s.loop.pending + (if Waits(s.db, b, t) then 1 else 0),
                          Stores(s.db, b, t)))
    case Store => s.(cached := s.loop.store.value, loop := s.loop.(store := None))
    case Finish => s.(loop := if s.loop.pending == 0 then Idle else Waiting)
    case Tick => s.(loop := Ready)
    case Restart(r) => Sys(s.db, r, false, Starting, map[])
  }

  ghost predicate Allowed(s: Sys, acts: seq<Action>)
    decreases |acts|
  {
    acts == [] || (Enabled(s, acts[0]) && Allowed(Next(s, acts[0]), acts[1..]))
  }

  ghost function Run(s: Sys, acts: seq<Action>): Sys
    requires Allowed(s, acts)
    decreases |acts|
  {
    if acts == [] then s else Run(Next(s, acts[0]), acts[1..])
  }

  // ---- safety of the tables ----

  predicate SweepValid(s: Sys) {
    s.loop.Sweeping? ==>
      && (forall b :: b in s.loop.todo ==> Unresolved(s.db, b))
      && (forall i, k :: 0 <= i < k < |s.loop.todo| ==> s.loop.todo[i] != s.loop.todo[k])
      && (s.loop.store.Some? ==> s.loop.store.value in s.db.rounds)
  }

  predicate FindersValid(s: Sys) {
    && s.cached in s.db.rounds
    && (forall g :: g in s.finders && s.finders[g].Holding? ==> s.finders[g].round in s.db.rounds)
  }

  ghost predicate Inv(s: Sys) { DbInv(s.db) && SweepValid(s) && FindersValid(s) }

  lemma DbNext(s: Sys, a: Action)
    requires Inv(s) && Enabled(s, a)
    ensures DbInv(Next(s, a).db)
  {
    hide DbInv;
    if a.FinderInserts? {
      var round := s.finders[a.g].round;
      if !a.fault && !Refused(s.db, round, a.hash) {
        RecordedInv(s.db, a.block, round, a.hash, a.found);
      }
    } else if a.Judge? {
      var b := s.loop.todo[0];
      if Dead(a.t) {
        OrphanedInv(s.db, b);
      } else if Deep(a.t) {
        ConfirmedInv(s.db, b, a.t.serial);
      }
    }
  }

  lemma FindersNext(s: Sys, a: Action)
    requires Inv(s) && Enabled(s, a)
    ensures FindersValid(Next(s, a))
  {
    hide OneOpen, ClosedBySomeBlock, HashesUnique, BlocksSettled, Lists, Refused;
  }

  lemma JudgeSweep(s: Sys, t: Trial)
    requires BlocksSettled(s.db) && SweepValid(s) && Enabled(s, Judge(t))
    ensures SweepValid(Next(s, Judge(t)))
  {
    hide Lists, Refused, Waits;
    var todo := s.loop.todo;
    var db' := Judged(s.db, todo[0], t);
    forall b | b in todo[1..] ensures Unresolved(db', b) {
      var i :| 0 <= i < |todo[1..]| && todo[1..][i] == b;
      assert b == todo[i + 1] && b in todo && b != todo[0];
    }
  }

  lemma SweepNext(s: Sys, a: Action)
    requires Inv(s) && Enabled(s, a)
    ensures SweepValid(Next(s, a))
  {
    hide OneOpen, ClosedBySomeBlock, HashesUnique, FindersValid, Refused, Judged;
    if a.Judge? {
      JudgeSweep(s, a.t);
    }
  }

  lemma InvNext(s: Sys, a: Action)
    requires Inv(s) && Enabled(s, a)
    ensures Inv(Next(s, a))
  {
    hide DbInv, SweepValid, FindersValid, Next;
    DbNext(s, a);
    SweepNext(s, a);
    FindersNext(s, a);
  }

  lemma {:induction false} InvRun(s: Sys, acts: seq<Action>)
    requires Inv(s) && Allowed(s, acts)
    ensures Inv(Run(s, acts))
    decreases |acts|
  {
    hide Inv, Next;
    if acts != [] {
      InvNext(s, acts[0]);
      InvRun(Next(s, acts[0]), acts[1..]);
    }
  }

  /** Round lifecycle, in every state every interleaving reaches, whatever the node answers and however transactions and
      restarts fall. */
  lemma RoundLifecycle(round: nat, acts: seq<Action>)
    requires Allowed(Start(round), acts)
    ensures var db := Run(Start(round), acts).db;
            && (exists r :: Open(db, r))
            && (forall r, q :: Open(db, r) && Open(db, q) ==> r == q)
            && (forall r :: r in db.rounds && db.rounds[r].ended ==>
                  exists b :: db.rounds[r].block == Some(b)
                           && b in db.blocks && db.blocks[b].round == r && db.blocks[b].confirmed)
            && (forall b :: b in db.blocks ==> !(db.blocks[b].confirmed && db.blocks[b].orphaned))
            && |db.rounds| == 1 + |Won(db)|
  {
    hide Run, Allowed;
    InitialInv(round);
    InvRun(Start(round), acts);
    RoundsCounted(Run(Start(round), acts).db);
  }

  // ---- no lost wake-up ----

  /** Someone will still act on block `b`: its finder has to signal, a signal is waiting, or the loop will query or
      still counts the block. */
  ghost predicate Attended(s: Sys, b: nat) {
    || s.token
    || s.loop in {Starting, Ready, Waiting, Seeding(true)}
    || (s.loop.Sweeping? && (s.loop.pending > 0 || b in s.loop.todo))
    || (exists g :: g in s.finders && s.finders[g] == Signalling(b))
  }

  ghost predicate Awake(s: Sys) { forall b :: Unresolved(s.db, b) ==> Attended(s, b) }

  /** The startup query fails while a block is unresolved, nobody has signalled, and no finder is about to. */
  ghost predicate Strands(s: Sys, a: Action) {
    && a.StartupQuery? && !a.ok && !s.token
    && exists b :: Unresolved(s.db, b) && !exists g :: g in s.finders && s.finders[g] == Signalling(b)
  }

  /** The startup query of each process succeeds. */
  predicate Recovers(acts: seq<Action>) { forall a :: a in acts && a.StartupQuery? ==> a.ok }

  lemma UnresolvedBefore(s: Sys, a: Action, b: nat)
    requires Enabled(s, a) && Unresolved(Next(s, a).db, b)
    ensures Unresolved(s.db, b)
         || exists g :: g in Next(s, a).finders && Next(s, a).finders[g] == Signalling(b)
  {
    hide Lists;
    if a.FinderInserts? && !Unresolved(s.db, b) {
      assert a.g in Next(s, a).finders;
    }
  }

  /** The finder of a block found just now, or one already about to signal. */
  lemma FinderAttends(s: Sys, a: Action, b: nat, g: nat)
    requires Inv(s) && Enabled(s, a)
    requires g in s.finders && s.finders[g] == Signalling(b)
    ensures Attended(Next(s, a), b)
  {
    hide Inv, Judged, Recorded, Refused, Lists, Unresolved;
    var s' := Next(s, a);
    assert a.FinderSignals? || a.Restart? || (g in s'.finders && s'.finders[g] == Signalling(b));
  }

  lemma JudgedAttends(s: Sys, t: Trial, b: nat)
    requires Enabled(s, Judge(t)) && Unresolved(s.db, b) && b in s.loop.todo
    requires Unresolved(Judged(s.db, s.loop.todo[0], t), b)
    ensures Waits(s.db, s.loop.todo[0], t) || b in s.loop.todo[1..]
  {
    if b != s.loop.todo[0] {
      var i :| 0 <= i < |s.loop.todo| && s.loop.todo[i] == b;
      assert s.loop.todo[1..][i - 1] == b;
    }
  }

  lemma LoopAttends(s: Sys, a: Action, b: nat)
    requires Inv(s) && Enabled(s, a) && !Strands(s, a)
    requires Unresolved(s.db, b) && Unresolved(Next(s, a).db, b) && Attended(s, b)
    requires !exists g :: g in s.finders && s.finders[g] == Signalling(b)
    ensures Attended(Next(s, a), b)
  {
    hide Inv, Judged, Recorded, Refused, Waits;
    if a.Judge? && b in s.loop.todo {
      JudgedAttends(s, a.t, b);
    }
  }

  lemma AwakeNext(s: Sys, a: Action, b: nat)
    requires Inv(s) && Awake(s) && Enabled(s, a) && !Strands(s, a)
    requires Unresolved(Next(s, a).db, b)
    ensures Attended(Next(s, a), b)
  {
    UnresolvedBefore(s, a, b);
    hide Inv, Judged, Enabled, Next, Strands;
    if exists g :: g in s.finders && s.finders[g] == Signalling(b) {
      var g :| g in s.finders && s.finders[g] == Signalling(b);
      FinderAttends(s, a, b, g);
    } else if Unresolved(s.db, b) {
      LoopAttends(s, a, b);
    }
  }

  /** Nothing but such a startup query leaves an unresolved block unattended. */
  lemma AwakeStaysIff(s: Sys, a: Action)
    requires Inv(s) && Awake(s) && Enabled(s, a)
    ensures Awake(Next(s, a)) <==> !Strands(s, a)
  {
    if Strands(s, a) {
      hide Inv;
      var b :| Unresolved(s.db, b) && !exists g :: g in s.finders && s.finders[g] == Signalling(b);
      assert !Attended(Next(s, a), b);
    } else {
      hide Inv, Attended, Strands, Next, Enabled;
      forall b | Unresolved(Next(s, a).db, b) ensures Attended(Next(s, a), b) { AwakeNext(s, a, b); }
    }
  }

  lemma {:induction false} AwakeRun(s: Sys, acts: seq<Action>)
    requires Inv(s) && Awake(s) && Allowed(s, acts) && Recovers(acts)
    ensures Inv(Run(s, acts)) && Awake(Run(s, acts))
    decreases |acts|
  {
    hide Inv, Next, Awake, Enabled;
    if acts != [] {
      var a := acts[0];
      assert a in acts;
      InvNext(s, a);
      AwakeStaysIff(s, a);
      assert forall x :: x in acts[1..] ==> x in acts;
      AwakeRun(Next(s, a), acts[1..]);
    }
  }

  /** No lost wake-up: in every interleaving with successful startup queries, an unresolved block always has someone
      left to act on it; so a loop idle on an empty channel, with no finder about to signal, means nothing is
      unresolved. */
  lemma NoLostWakeup(round: nat, acts: seq<Action>, b: nat)
    requires Allowed(Start(round), acts) && Recovers(acts)
    ensures var s := Run(Start(round), acts);
            Unresolved(s.db, b) ==>
              && Attended(s, b)
              && (s.loop == Idle && !s.token ==> exists g :: g in s.finders && s.finders[g] == Signalling(b))
  {
    hide Run, Allowed, Inv;
    InitialInv(round);
    assert Inv(Start(round)) by { StartInv(round); }
    AwakeRun(Start(round), acts);
  }

  lemma StartInv(round: nat)
    ensures Inv(Start(round))
  {
    InitialInv(round);
  }

  ghost predicate Reaches(s: Sys, acts: seq<Action>, s': Sys) { Allowed(s, acts) && Run(s, acts) == s' }

  lemma {:induction false} ReachesThrough(s: Sys, front: seq<Action>, mid: Sys, back: seq<Action>, end: Sys)
    requires Reaches(s, front, mid) && Reaches(mid, back, end)
    ensures Reaches(s, front + back, end)
    decreases |front|
  {
    hide Enabled, Next;
    if front == [] {
      assert front + back == back;
    } else {
      assert (front + back)[0] == front[0] && (front + back)[1..] == front[1..] + back;
      ReachesThrough(Next(s, front[0]), front[1..], mid, back, end);
    }
  }

  lemma ReachesOne(s: Sys, a: Action)
    requires Enabled(s, a)
    ensures Reaches(s, [a], Next(s, a))
  {
    hide Enabled, Next;
    assert [a][1..] == [];
    var s' := Next(s, a);
    assert Allowed(s', []) && Run(s', []) == s';
    assert [a][0] == a;
  }

  lemma ReachesTwo(s: Sys, a: Action, b: Action)
    requires Enabled(s, a) && Enabled(Next(s, a), b)
    ensures Reaches(s, [a, b], Next(Next(s, a), b))
  {
    hide Enabled, Next, Reaches;
    ReachesOne(s, a);
    ReachesOne(Next(s, a), b);
    ReachesThrough(s, [a], Next(s, a), [b], Next(Next(s, a), b));
    assert [a, b] == [a] + [b];
  }

  /** The loop's actions in a sweep that nothing interrupts. */
  function SweepActions(s: Swept, todo: seq<nat>, ts: seq<Trial>): seq<Action>
    requires |todo| <= |ts|
    decreases |todo|
  {
    if todo == [] then []
    else
      (if Stores(s.db, todo[0], ts[0]).Some? then [Judge(ts[0]), Store] else [Judge(ts[0])])
      + SweepActions(SweepOne(s, todo[0], ts[0]), todo[1..], ts[1..])
  }

  function AtEnd(s: Sys, r: Swept): Sys { s.(db := r.db, cached := r.cached, loop := Sweeping([], r.pending, None)) }

  lemma SweepStep(s: Sys, t: Trial)
    requires s.loop.Sweeping? && s.loop.store.None? && s.loop.todo != [] && t.serial !in s.db.rounds
    ensures var b := s.loop.todo[0]; var r := SweepOne(Swept(s.db, s.cached, s.loop.pending), b, t);
            Reaches(s, if Stores(s.db, b, t).Some? then [Judge(t), Store] else [Judge(t)],
                    s.(db := r.db, cached := r.cached, loop := Sweeping(s.loop.todo[1..], r.pending, None)))
  {
    hide Reaches, Judged, Waits, Stores;
    if Stores(s.db, s.loop.todo[0], t).Some? {
      ReachesTwo(s, Judge(t), Store);
    } else {
      ReachesOne(s, Judge(t));
    }
  }

  /** The handler's own sweep is one of the interleavings: run without interruption, the loop's actions take the tables,
      the cached round and the pending count where it does. */
  lemma {:induction false} SweepIsRun(s: Sys, ts: seq<Trial>)
    requires s.loop.Sweeping? && s.loop.store.None? && |s.loop.todo| <= |ts| && NewSerials(s.db.rounds, ts)
    ensures var start := Swept(s.db, s.cached, s.loop.pending);
            Reaches(s, SweepActions(start, s.loop.todo, ts), AtEnd(s, Sweep(start, s.loop.todo, ts)))
    decreases |s.loop.todo|
  {
    hide Reaches, Stores, Waits;
    var todo := s.loop.todo;
    var start := Swept(s.db, s.cached, s.loop.pending);
    if todo == [] {
      assert AtEnd(s, start) == s;
      EmptyReaches(s);
    } else {
      var r := SweepOne(start, todo[0], ts[0]);
      var s' := s.(db := r.db, cached := r.cached, loop := Sweeping(todo[1..], r.pending, None));
      var head := if Stores(s.db, todo[0], ts[0]).Some? then [Judge(ts[0]), Store] else [Judge(ts[0])];
      SweepStep(s, ts[0]);
      assert NewSerials(r.db.rounds, ts[1..]) by { SerialsStayNew(s.db, todo[0], ts); }
      hide Judged, SweepOne;
      SweepIsRun(s', ts[1..]);
      ReachesThrough(s, head, s', SweepActions(r, todo[1..], ts[1..]), AtEnd(s, Sweep(start, todo, ts)));
    }
  }

  /** The handler's call for a found block is one too: uninterrupted, its actions record the block under the cached
      round and leave a signal, or change nothing. */
  lemma BlockFoundIsRun(s: Sys, g: nat, b: nat, hash: string, found: int, fault: bool)
    requires g !in s.finders && b !in s.db.blocks
    ensures var ok := !fault && !Refused(s.db, s.cached, hash);
            var acts := [FinderReads(g), FinderInserts(g, b, hash, found, fault)]
                        + if ok then [FinderSignals(g)] else [];
            Reaches(s, acts, if ok then s.(db := Recorded(s.db, b, s.cached, hash, found), token := true) else s)
  {
    hide Reaches;
    var look, insert := FinderReads(g), FinderInserts(g, b, hash, found, fault);
    var mid := Next(Next(s, look), insert);
    ReachesTwo(s, look, insert);
    if !fault && !Refused(s.db, s.cached, hash) {
      ReachesOne(mid, FinderSignals(g));
      assert s.finders[g := Holding(s.cached)][g := Signalling(b)] - {g} == s.finders;
      ReachesThrough(s, [look, insert], mid, [FinderSignals(g)], Next(mid, FinderSignals(g)));
    } else {
      assert s.finders[g := Holding(s.cached)] - {g} == s.finders;
      assert [look, insert] + [] == [look, insert];
    }
  }

  lemma EmptyReaches(s: Sys)
    ensures Reaches(s, [], s)
  {
  }

  lemma SerialsStayNew(db: Db, b: nat, ts: seq<Trial>)
    requires ts != [] && NewSerials(db.rounds, ts)
    ensures NewSerials(Judged(db, b, ts[0]).rounds, ts[1..])
  {
    assert forall r :: r in Judged(db, b, ts[0]).rounds ==> r in db.rounds || r == ts[0].serial;
  }

  function OneBlock(): Db { Db(map[1 := Round(false, None)], map[7 := Block(1, "h", 10, false, false)]) }

  /** The loop idle, and a finder that has inserted its block but not signalled. */
  function Inserted(): Sys { Sys(OneBlock(), 1, false, Idle, map[0 := Signalling(7)]) }

  function ToInserted(): seq<Action> {
    [StartupQuery(true), Seed] + [FinderReads(0), FinderInserts(0, 7, "h", 10, false)]
  }

  lemma InsertedReached()
    ensures Reaches(Start(1), ToInserted(), Inserted())
  {
    hide Reaches, Lists;
    var idle := Sys(Initial(1), 1, false, Idle, map[]);
    assert Next(Start(1), StartupQuery(true)) == Sys(Initial(1), 1, false, Seeding(false), map[]);
    ReachesTwo(Start(1), StartupQuery(true), Seed);
    ReachesTwo(idle, FinderReads(0), FinderInserts(0, 7, "h", 10, false));
    assert map[0 := Holding(1)][0 := Signalling(7)] == map[0 := Signalling(7)];
    assert Next(Next(idle, FinderReads(0)), FinderInserts(0, 7, "h", 10, false)) == Inserted();
    ReachesThrough(Start(1), [StartupQuery(true), Seed], idle,
                   [FinderReads(0), FinderInserts(0, 7, "h", 10, false)], Inserted());
  }

  function StrandingRun(): seq<Action> { ToInserted() + ([Restart(1)] + [StartupQuery(false), Seed]) }

  /** When a startup query fails, a block whose finder died before signalling is left with nobody to act on it. */
  lemma StrandedByFailedStartup()
    ensures Allowed(Start(1), StrandingRun())
    ensures var s := Run(Start(1), StrandingRun()); Unresolved(s.db, 7) && !Attended(s, 7)
  {
    InsertedReached();
    hide Lists, Run, Allowed, ToInserted;
    var restarted := Sys(OneBlock(), 1, false, Starting, map[]);
    var end := restarted.(loop := Idle);
    assert Open(OneBlock(), 1);
    ReachesOne(Inserted(), Restart(1));
    ReachesTwo(restarted, StartupQuery(false), Seed);
    hide Enabled, Next;
    ReachesThrough(Inserted(), [Restart(1)], restarted, [StartupQuery(false), Seed], end);
    ReachesThrough(Start(1), ToInserted(), Inserted(), [Restart(1)] + [StartupQuery(false), Seed], end);
  }

  // ---- the cached round id ----

  /** The cached round is the open one, or the open one's id is committed and about to be stored. */
  ghost predicate CachedOpen(s: Sys) {
    Open(s.db, if s.loop.Sweeping? && s.loop.store.Some? then s.loop.store.value else s.cached)
  }

  /** A confirmation that lands on a closed round with its acknowledgement, or on the open one without. */
  predicate Derails(s: Sys, a: Action) {
    && a.Judge? && Deep(a.t) && s.loop.Sweeping? && s.loop.todo != []
    && var b := s.loop.todo[0];
       b in s.db.blocks
       && match a.t.outcome {
            case Committed => !Open(s.db, s.db.blocks[b].round)
            case AckLost => Open(s.db, s.db.blocks[b].round)
            case RolledBack => false
          }
  }

  /** From a state whose cached round is open, a step keeps it so exactly when it does not confirm a second block of a
      closed round or lose the answer of a confirmation that closed the open one. */
  lemma CachedStaysOpenIff(s: Sys, a: Action)
    requires Inv(s) && CachedOpen(s) && Enabled(s, a)
    ensures CachedOpen(Next(s, a)) <==> !Derails(s, a)
  {
    hide SweepValid, FindersValid;
    if a.Judge? {
      SweepHead(s);
      var b := s.loop.todo[0];
      ReportsOpenIff(s.db, b, a.t.serial);
    }
  }

  lemma SweepHead(s: Sys)
    requires SweepValid(s) && s.loop.Sweeping? && s.loop.todo != []
    ensures Unresolved(s.db, s.loop.todo[0])
  {
  }

  ghost predicate NoneDerails(s: Sys, acts: seq<Action>)
    requires Allowed(s, acts)
    decreases |acts|
  {
    acts == [] || (!Derails(s, acts[0]) && NoneDerails(Next(s, acts[0]), acts[1..]))
  }

  lemma {:induction false} CachedRun(s: Sys, acts: seq<Action>)
    requires Inv(s) && CachedOpen(s) && Allowed(s, acts) && NoneDerails(s, acts)
    ensures CachedOpen(Run(s, acts)) && Inv(Run(s, acts))
    decreases |acts|
  {
    hide Inv, Next, CachedOpen, Derails, Enabled;
    if acts != [] {
      CachedStaysOpenIff(s, acts[0]);
      InvNext(s, acts[0]);
      CachedRun(Next(s, acts[0]), acts[1..]);
    }
  }

  /** As long as each round gets at most one confirmed block and no confirmation's answer is lost, the cached round id
      is the only open round, or its id is the next thing the handler stores. */
  lemma CachedIsTheOpenRound(round: nat, acts: seq<Action>)
    requires Allowed(Start(round), acts) && NoneDerails(Start(round), acts)
    ensures var s := Run(Start(round), acts);
            forall r :: Open(s.db, r) <==>
              r == (if s.loop.Sweeping? && s.loop.store.Some? then s.loop.store.value else s.cached)
  {
    StartInv(round);
    hide Run, Allowed, NoneDerails;
    CachedRun(Start(round), acts);
  }

  function TwoBlocks(): Db {
    OneBlock().(blocks := map[7 := Block(1, "h", 10, false, false), 8 := Block(1, "g", 20, false, false)])
  }

  function ToSweep(): seq<Action> {
    [FinderReads(1), FinderInserts(1, 8, "g", 20, false)] + ([FinderSignals(0), Receive] + [Query(true, [7, 8])])
  }

  /** A sweep over two blocks of the one open round. */
  function SweepOfTwo(): Sys { Sys(TwoBlocks(), 1, false, Sweeping([7, 8], 0, None), map[1 := Signalling(8)]) }

  function BothInserted(): Sys {
    Sys(TwoBlocks(), 1, false, Idle, map[0 := Signalling(7), 1 := Signalling(8)])
  }

  lemma BothInsertedReached()
    ensures Reaches(Inserted(), [FinderReads(1), FinderInserts(1, 8, "g", 20, false)], BothInserted())
  {
    hide Reaches;
    assert map[0 := Signalling(7)][1 := Holding(1)][1 := Signalling(8)] == BothInserted().finders;
    assert Recorded(OneBlock(), 8, 1, "g", 20) == TwoBlocks();
    ReachesTwo(Inserted(), FinderReads(1), FinderInserts(1, 8, "g", 20, false));
  }

  lemma BothListed()
    ensures Lists(TwoBlocks(), [7, 8])
  {
  }

  lemma SweepOfTwoReached()
    ensures Reaches(Inserted(), ToSweep(), SweepOfTwo())
  {
    BothInsertedReached();
    hide Reaches;
    var both := BothInserted();
    var ready := Sys(TwoBlocks(), 1, false, Ready, map[1 := Signalling(8)]);
    assert both.finders - {0} == map[1 := Signalling(8)];
    ReachesTwo(both, FinderSignals(0), Receive);
    BothListed();
    hide Lists;
    ReachesOne(ready, Query(true, [7, 8]));
    assert Next(Next(both, FinderSignals(0)), Receive) == ready;
    assert Next(ready, Query(true, [7, 8])) == SweepOfTwo();
    hide Enabled, Next;
    ReachesThrough(both, [FinderSignals(0), Receive], ready, [Query(true, [7, 8])], SweepOfTwo());
    ReachesThrough(Inserted(), [FinderReads(1), FinderInserts(1, 8, "g", 20, false)], both,
                   [FinderSignals(0), Receive] + [Query(true, [7, 8])], SweepOfTwo());
  }

  function ConfirmBoth(): seq<Action> {
    [Judge(Trial(Confirmations(2), 2, Committed)), Store] + [Judge(Trial(Confirmations(2), 3, Committed)), Store]
  }

  function FirstWon(): Db {
    Db(map[1 := Round(true, Some(7)), 2 := Round(false, None)],
       map[7 := Block(1, "h", 10, true, false), 8 := Block(1, "g", 20, false, false)])
  }

  function BothWon(): Db { FirstWon().(blocks := FirstWon().blocks[8 := Block(1, "g", 20, true, false)]) }

  function AfterFirst(): Sys { Sys(FirstWon(), 2, false, Sweeping([8], 0, None), map[1 := Signalling(8)]) }

  function AfterBoth(): Sys { Sys(BothWon(), 1, false, Sweeping([], 0, None), map[1 := Signalling(8)]) }

  lemma FirstConfirmed()
    ensures Rounds.Confirmed(TwoBlocks(), 7, 2) == FirstWon()
    ensures Rounds.Confirmed(FirstWon(), 8, 3) == BothWon()
  {
  }

  lemma FirstReached()
    ensures Reaches(SweepOfTwo(), [Judge(Trial(Confirmations(2), 2, Committed)), Store], AfterFirst())
  {
    FirstConfirmed();
    hide Reaches, Lists, FirstWon;
    assert 2 !in TwoBlocks().rounds;
    var judge := Judge(Trial(Confirmations(2), 2, Committed));
    assert [7, 8][1..] == [8];
    ReachesTwo(SweepOfTwo(), judge, Store);
    assert Next(Next(SweepOfTwo(), judge), Store) == AfterFirst();
  }

  lemma SecondReached()
    ensures Reaches(AfterFirst(), [Judge(Trial(Confirmations(2), 3, Committed)), Store], AfterBoth())
  {
    FirstConfirmed();
    hide Reaches, Lists, BothWon;
    var judge := Judge(Trial(Confirmations(2), 3, Committed));
    assert [8][1..] == [];
    ReachesTwo(AfterFirst(), judge, Store);
    assert Next(Next(AfterFirst(), judge), Store) == AfterBoth();
  }

  lemma BothConfirmed()
    ensures Reaches(SweepOfTwo(), ConfirmBoth(), AfterBoth())
  {
    FirstReached();
    SecondReached();
    hide Reaches, AfterFirst, AfterBoth, SweepOfTwo;
    ReachesThrough(SweepOfTwo(), [Judge(Trial(Confirmations(2), 2, Committed)), Store], AfterFirst(),
                   [Judge(Trial(Confirmations(2), 3, Committed)), Store], AfterBoth());
  }

  function ToLostAnswer(): seq<Action> {
    ToInserted() + ([FinderSignals(0), Receive]
                    + [Query(true, [7]), Judge(Trial(Confirmations(2), 2, AckLost))])
  }

  /** A confirmation whose commit applies but whose answer is lost: the round is closed, the handler keeps its id, and
      as the block is resolved no later poll corrects it. */
  lemma LostAnswerCachesClosedRound()
    ensures Allowed(Start(1), ToLostAnswer())
    ensures var s := Run(Start(1), ToLostAnswer());
            s.cached == 1 && !Open(s.db, 1) && Open(s.db, 2) && forall b :: !Unresolved(s.db, b)
  {
    InsertedReached();
    var end := LostAnswerReached();
    hide Reaches, ToInserted, Next, Enabled;
    ReachesThrough(Start(1), ToInserted(), Inserted(),
                   [FinderSignals(0), Receive] + [Query(true, [7]), Judge(Trial(Confirmations(2), 2, AckLost))], end);
    ReachedIs(Start(1), ToLostAnswer(), end);
  }

  lemma OneListed()
    ensures Lists(OneBlock(), [7])
  {
  }

  lemma LostAnswerReached() returns (end: Sys)
    ensures Reaches(Inserted(), [FinderSignals(0), Receive]
                                + [Query(true, [7]), Judge(Trial(Confirmations(2), 2, AckLost))], end)
    ensures end.cached == 1 && end.db == Rounds.Confirmed(OneBlock(), 7, 2)
  {
    hide Reaches;
    var ready := Sys(OneBlock(), 1, false, Ready, map[]);
    var query, judge := Query(true, [7]), Judge(Trial(Confirmations(2), 2, AckLost));
    assert map[0 := Signalling(7)] - {0} == map[];
    ReachesTwo(Inserted(), FinderSignals(0), Receive);
    assert Next(Next(Inserted(), FinderSignals(0)), Receive) == ready;
    OneListed();
    hide Lists;
    ReachesTwo(ready, query, judge);
    end := Next(Next(ready, query), judge);
    hide Next, Enabled;
    ReachesThrough(Inserted(), [FinderSignals(0), Receive], ready, [query, judge], end);
  }

  lemma ReachedIs(s: Sys, acts: seq<Action>, end: Sys)
    requires Reaches(s, acts, end)
    ensures Allowed(s, acts) && Run(s, acts) == end
  {
  }

  /** Two blocks found in one round, both confirmed: the handler ends up caching the round that is closed. */
  lemma SecondBlockCachesClosedRound()
    ensures var acts := ToInserted() + (ToSweep() + ConfirmBoth());
            && Allowed(Start(1), acts)
            && var s := Run(Start(1), acts); s.cached == 1 && !Open(s.db, 1) && Open(s.db, 2)
  {
    InsertedReached();
    SweepOfTwoReached();
    BothConfirmed();
    assert AfterBoth().cached == 1 && !Open(BothWon(), 1) && Open(BothWon(), 2);
    hide Run, Allowed, ToInserted, ToSweep, ConfirmBoth, SweepOfTwo, Inserted, Start;
    ReachesThrough(Inserted(), ToSweep(), SweepOfTwo(), ConfirmBoth(), AfterBoth());
    ReachesThrough(Start(1), ToInserted(), Inserted(), ToSweep() + ConfirmBoth(), AfterBoth());
  }
}
