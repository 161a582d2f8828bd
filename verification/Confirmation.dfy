/** The handler of main.go as it records a found block and polls the unresolved ones. */
module Confirmation {
  import opened Bytes
  import opened Rounds
  import Top21

  /** What the node says of a block hash. */
  datatype Answer = Unreachable | Confirmations(n: int)

  /** The node's answer for one block, the id a new round would get, and how the database transaction ends. */
  datatype Trial = Trial(answer: Answer, serial: nat, outcome: Outcome)

  predicate Deep(t: Trial) { t.answer.Confirmations? && t.answer.n >= 2 }

  predicate Dead(t: Trial) { t.answer.Confirmations? && t.answer.n < 0 }

  /** The database after one block is dealt with. */
  function Judged(db: Db, b: nat, t: Trial): Db {
    if t.outcome == RolledBack || b !in db.blocks then db
    else if Dead(t) then Orphaned(db, b)
    else if Deep(t) then Rounds.Confirmed(db, b, t.serial)
    else db
  }

  /** The round id the handler goes on to store. */
  function Stores(db: Db, b: nat, t: Trial): Option<nat> {
    if Deep(t) && t.outcome == Committed && b in db.blocks then Some(Reported(db, b, t.serial)) else None
  }

  /** The block still counts as pending. */
  predicate Waits(db: Db, b: nat, t: Trial) {
    if Dead(t) then t.outcome != Committed else if Deep(t) then Stores(db, b, t).None? else true
  }

  datatype Swept = Swept(db: Db, cached: nat, pending: nat)

  function SweepOne(s: Swept, b: nat, t: Trial): Swept {
    var round := Stores(s.db, b, t);
    Swept(Judged(s.db, b, t), if round.Some? then round.value else s.cached,
          s.pending + if Waits(s.db, b, t) then 1 else 0)
  }

  /** A whole sweep, uninterrupted. */
  function Sweep(s: Swept, todo: seq<nat>, ts: seq<Trial>): Swept
    requires |todo| <= |ts|
    decreases |todo|
  {
    if todo == [] then s else Sweep(SweepOne(s, todo[0], ts[0]), todo[1..], ts[1..])
  }

  predicate NewSerials(rounds: map<nat, Round>, ts: seq<Trial>) {
    && (forall i :: 0 <= i < |ts| ==> ts[i].serial !in rounds)
    && (forall i, k :: 0 <= i < k < |ts| ==> ts[i].serial != ts[k].serial)
  }

  /** The answer that ends a round, taken in and acknowledged. */
  predicate Wins(t: Trial) { t.outcome == Committed && t.answer.Confirmations? && t.answer.n >= 2 }

  /** The handler's round id, its wake-up channel of capacity one, and the service behind it. */
  class PoolHandler {
    const svc: Database
    var roundID: nat
    var top21: seq<string>
    var blockPending: bool

    constructor (svc: Database, roundID: nat)
      ensures this.svc == svc && this.roundID == roundID && !blockPending
    {
      this.svc, this.roundID, top21, blockPending := svc, roundID, [], false;
    }

    /** A block is recorded unconfirmed under the cached round, and the loop is signalled without blocking. */
    method BlockFound(hash: string, found: int, serial: nat, snapshot: Top21.Reply, fault: bool) returns (ok: bool)
      requires serial !in svc.blocks
      modifies svc, this`blockPending
      ensures ok <==> && snapshot.Entries? && !fault && roundID in old(svc.rounds)
                      && forall b :: b in old(svc.blocks) ==> old(svc.blocks)[b].hash != hash
      ensures svc.rounds == old(svc.rounds)
      ensures svc.blocks == if ok then old(svc.blocks)[serial := Block(roundID, hash, found, false, false)]
                            else old(svc.blocks)
      ensures blockPending == (old(blockPending) || ok)
    {
      var id := svc.RecordUnconfirmedBlock(roundID, hash, found, serial, snapshot, fault);
      if id.None? {
        return false;
      }
      if !blockPending {
        blockPending := true;
      }
      return true;
    }

    /** One poll. `scan` is the table's rows by time found, `fault` whether the query fails. */
    method CheckConfirmations(scan: seq<nat>, ts: seq<Trial>, fault: bool) returns (pending: nat, todo: seq<nat>)
      requires forall b :: b in scan <==> b in svc.blocks
      requires forall i, k :: 0 <= i < k < |scan| ==> scan[i] != scan[k]
      requires OldestFirst(svc.View(), scan)
      requires |scan| <= |ts| && NewSerials(svc.rounds, ts)
      modifies svc, this`roundID, this`top21
      ensures fault ==> pending == 1 && svc.View() == old(svc.View()) && roundID == old(roundID) && top21 == old(top21)
      ensures !fault ==>
        && Lists(old(svc.View()), todo) && |todo| <= |ts|
        && Swept(svc.View(), roundID, pending) == Sweep(Swept(old(svc.View()), old(roundID), 0), todo, ts)
        && top21 == if exists i :: 0 <= i < |todo| && Wins(ts[i]) then [] else old(top21)
    {
      hide Lists, NewSerials, SweepOne, Wins, OldestFirst;
      if fault {
        return 1, [];
      }
      todo := svc.GetUnconfirmedBlocks(scan);
      ListsBound(svc.View(), todo, scan);
      pending := 0;
      ghost var start := Swept(svc.View(), roundID, 0);
      var i := 0;
      assert forall k :: 0 <= k < |todo| ==> todo[k] in svc.blocks by { ListedExist(svc.View(), todo); }
      assert forall k :: 0 <= k < |ts| ==> ts[k].serial !in svc.rounds by { SerialsApart(svc.rounds, ts); }
      assert forall k, l :: 0 <= k < l < |ts| ==> ts[k].serial != ts[l].serial by { SerialsApart(svc.rounds, ts); }
      while i < |todo|
        invariant 0 <= i <= |todo| <= |ts|
        invariant forall k :: i <= k < |ts| ==> ts[k].serial !in svc.rounds
        invariant Sweep(Swept(svc.View(), roundID, pending), todo[i..], ts[i..]) == Sweep(start, todo, ts)
        invariant forall k :: 0 <= k < |todo| ==> todo[k] in svc.blocks
        invariant top21 == if exists k :: 0 <= k < i && Wins(ts[k]) then [] else old(top21)
      {
        assert todo[i..][1..] == todo[i + 1..] && ts[i..][1..] == ts[i + 1..];
        pending := CheckOne(todo[i], ts[i], pending);
        i := i + 1;
      }
    }

    /** One block of a poll: the new pending count. */
    method CheckOne(b: nat, t: Trial, before: nat) returns (pending: nat)
      requires b in svc.blocks && t.serial !in svc.rounds
      modifies svc, this`roundID, this`top21
      ensures Swept(svc.View(), roundID, pending) == SweepOne(Swept(old(svc.View()), old(roundID), before), b, t)
      ensures top21 == if Wins(t) then [] else old(top21)
      ensures svc.blocks.Keys == old(svc.blocks.Keys) && svc.rounds.Keys <= old(svc.rounds.Keys) + {t.serial}
    {
      pending := before;
      if t.answer.Unreachable? {
        pending := pending + 1;
      } else if t.answer.n < 0 {
        var ok := svc.MarkOrphaned(b, t.outcome);
        if !ok {
          pending := pending + 1;
        }
      } else if t.answer.n < 2 {
        pending := pending + 1;
      } else {
        var newRound := svc.ConfirmBlock(b, t.serial, t.outcome);
        if newRound.None? {
          pending := pending + 1;
        } else {
          roundID := newRound.value;
          top21 := [];
        }
      }
    }
  }

  // ---- what a sweep decides, block by block ----

  /** The node has answered, with at least two confirmations or with a negative number, and the database has taken it
      in and said so. */
  predicate Settles(t: Trial) { Wins(t) || (t.outcome == Committed && t.answer.Confirmations? && t.answer.n < 0) }

  predicate DistinctUnresolved(db: Db, todo: seq<nat>) {
    && (forall i :: 0 <= i < |todo| ==> Unresolved(db, todo[i]))
    && (forall i, k :: 0 <= i < k < |todo| ==> todo[i] != todo[k])
  }

  lemma StillUnresolved(db: Db, todo: seq<nat>, t: Trial)
    requires todo != [] && DistinctUnresolved(db, todo)
    ensures DistinctUnresolved(Judged(db, todo[0], t), todo[1..])
    ensures var db' := Judged(db, todo[0], t);
            && db'.blocks.Keys == db.blocks.Keys
            && (forall b :: b in db.blocks && b != todo[0] ==> db'.blocks[b] == db.blocks[b])
            && db'.blocks[todo[0]] == db.blocks[todo[0]].(
                 confirmed := t.outcome != RolledBack && t.answer.Confirmations? && t.answer.n >= 2,
                 orphaned := t.outcome != RolledBack && t.answer.Confirmations? && t.answer.n < 0)
  {
    forall i | 0 <= i < |todo| - 1 ensures todo[1..][i] == todo[i + 1] != todo[0] {}
  }

  /** After a sweep a listed block is confirmed exactly if the node reported at least two confirmations, orphaned
      exactly if it reported a negative number, in both cases unless the transaction was rolled back; nothing else about
      it has changed, and no other block has. */
  lemma {:induction false} SweepDecides(s: Swept, todo: seq<nat>, ts: seq<Trial>, b: nat)
    requires |todo| <= |ts| && DistinctUnresolved(s.db, todo) && b in s.db.blocks
    ensures b in Sweep(s, todo, ts).db.blocks
    ensures b !in todo ==> Sweep(s, todo, ts).db.blocks[b] == s.db.blocks[b]
    ensures forall i :: 0 <= i < |todo| && todo[i] == b ==>
              Sweep(s, todo, ts).db.blocks[b] == s.db.blocks[b].(
                confirmed := ts[i].outcome != RolledBack && ts[i].answer.Confirmations? && ts[i].answer.n >= 2,
                orphaned := ts[i].outcome != RolledBack && ts[i].answer.Confirmations? && ts[i].answer.n < 0)
    decreases |todo|
  {
    if todo != [] {
      StillUnresolved(s.db, todo, ts[0]);
      var s' := SweepOne(s, todo[0], ts[0]);
      assert s'.db == Judged(s.db, todo[0], ts[0]);
      hide Judged, SweepOne, DistinctUnresolved, Unresolved;
      SweepDecides(s', todo[1..], ts[1..], b);
      assert todo == [todo[0]] + todo[1..];
      if b == todo[0] {
        assert b !in todo[1..] by { FirstOnly(s.db, todo); }
      }
      forall i | 0 <= i < |todo| && todo[i] == b && i > 0
        ensures todo[1..][i - 1] == b && ts[1..][i - 1] == ts[i] && b != todo[0]
      {
        FirstOnly(s.db, todo);
        assert todo[1..][i - 1] in todo[1..];
      }
    }
  }

  lemma FirstOnly(db: Db, todo: seq<nat>)
    requires todo != [] && DistinctUnresolved(db, todo)
    ensures todo[0] !in todo[1..]
  {
  }

  /** Those of the first `n` blocks that a sweep does not settle. */
  function Unsettled(ts: seq<Trial>, n: nat): set<nat>
    requires n <= |ts|
  {
    set i | 0 <= i < n && !Settles(ts[i])
  }

  lemma Earlier(ts: seq<Trial>, n: nat)
    requires 0 < n <= |ts|
    ensures |Unsettled(ts, n)| == |Unsettled(ts[1..], n - 1)| + if Settles(ts[0]) then 0 else 1
  {
    hide Settles;
    var later := Shifted(Unsettled(ts[1..], n - 1));
    forall i | 0 < i < n ensures i in later <==> !Settles(ts[i]) {
      assert ts[1..][i - 1] == ts[i];
      assert i - 1 in Unsettled(ts[1..], n - 1) <==> !Settles(ts[i]);
    }
    if Settles(ts[0]) {
      assert Unsettled(ts, n) == later;
    } else {
      assert Unsettled(ts, n) == later + {0};
    }
  }

  lemma {:induction false} Shifted(s: set<nat>) returns (up: set<nat>)
    ensures |up| == |s| && forall i: int :: i in up <==> i > 0 && i - 1 in s
  {
    up := {};
    if s != {} {
      var x :| x in s;
      up := Shifted(s - {x});
      up := up + {x + 1};
    }
  }

  /** The pending count of a sweep, which decides whether the loop goes idle, is the number of listed blocks not
      settled. */
  lemma {:induction false} SweepCounts(s: Swept, todo: seq<nat>, ts: seq<Trial>)
    requires |todo| <= |ts| && DistinctUnresolved(s.db, todo)
    ensures Sweep(s, todo, ts).pending == s.pending + |Unsettled(ts, |todo|)|
    decreases |todo|
  {
    if todo != [] {
      StillUnresolved(s.db, todo, ts[0]);
      assert todo[0] in todo;
      var s' := SweepOne(s, todo[0], ts[0]);
      assert s'.db == Judged(s.db, todo[0], ts[0]);
      assert s'.pending == s.pending + if Settles(ts[0]) then 0 else 1;
      hide Judged, SweepOne, Settles, DistinctUnresolved;
      SweepCounts(s', todo[1..], ts[1..]);
      Earlier(ts, |todo|);
    }
  }

  lemma ListedExist(db: Db, todo: seq<nat>)
    requires Lists(db, todo)
    ensures forall k :: 0 <= k < |todo| ==> todo[k] in db.blocks
  {
    forall k | 0 <= k < |todo| ensures todo[k] in db.blocks { assert todo[k] in todo; }
  }

  lemma SerialsApart(rounds: map<nat, Round>, ts: seq<Trial>)
    requires NewSerials(rounds, ts)
    ensures forall k :: 0 <= k < |ts| ==> ts[k].serial !in rounds
    ensures forall k, l :: 0 <= k < l < |ts| ==> ts[k].serial != ts[l].serial
  {
  }

  /** No more blocks are listed than the table has rows. */
  lemma ListsBound(db: Db, todo: seq<nat>, scan: seq<nat>)
    requires Lists(db, todo) && forall b :: b in scan <==> b in db.blocks
    ensures |todo| <= |scan|
  {
    forall b | b in todo ensures b in scan {}
    DistinctBound(todo, scan);
  }

  lemma {:induction false} DistinctBound(todo: seq<nat>, scan: seq<nat>)
    requires forall i, k :: 0 <= i < k < |todo| ==> todo[i] != todo[k]
    requires forall b :: b in todo ==> b in scan
    ensures |todo| <= |scan|
    decreases |todo|
  {
    if todo != [] {
      assert todo[0] in scan;
      var k :| 0 <= k < |scan| && scan[k] == todo[0];
      var rest := scan[..k] + scan[k + 1..];
      forall b | b in todo[1..] ensures b in rest {
        var i :| 1 <= i < |todo| && todo[i] == b;
        assert b in todo && b != todo[0];
        var j :| 0 <= j < |scan| && scan[j] == b;
        if j < k {
          assert rest[j] == b;
        } else {
          assert rest[j - 1] == b;
        }
      }
      DistinctBound(todo[1..], rest);
    }
  }
}
