/** Rounds and blocks: the tables behind service.go, its four block operations, and what they keep. */
module Rounds {
  import opened Bytes
  import Leaderboard
  import Top21

  datatype Round = Round(ended: bool, block: Option<nat>)

  /** `found` is the time of the insert. */
  datatype Block = Block(round: nat, hash: string, found: int, confirmed: bool, orphaned: bool)

  datatype Db = Db(rounds: map<nat, Round>, blocks: map<nat, Block>)

  /** How a transaction ended: applied, not applied, or applied with the acknowledgement lost, which reads as an
      error. */
  datatype Outcome = Committed | RolledBack | AckLost

  predicate Unresolved(db: Db, b: nat) { b in db.blocks && !db.blocks[b].confirmed && !db.blocks[b].orphaned }

  predicate Open(db: Db, r: nat) { r in db.rounds && !db.rounds[r].ended }

  /** The state on first connection: one open round, no blocks. */
  function Initial(r: nat): Db { Db(map[r := Round(false, None)], map[]) }

  // ---- specification of the operations ----

  function Recorded(db: Db, b: nat, round: nat, hash: string, found: int): Db {
    db.(blocks := db.blocks[b := Block(round, hash, found, false, false)])
  }

  /** The insert is refused for an unknown round or a hash seen before. */
  predicate Refused(db: Db, round: nat, hash: string) {
    round !in db.rounds || exists b :: b in db.blocks && db.blocks[b].hash == hash
  }

  /** Recording a block fails with the query for its snapshot of the leaderboard, or with the insert. */
  predicate Stopped(snapshot: Top21.Reply, fault: bool) { !snapshot.Entries? || fault }

  /** So as long as a round has a best beyond BIGINT, or an active address without a current difficulty, no block found
      in it is recorded; and the snapshot stops nothing else. */
  lemma SnapshotStopsIff(rows: seq<Leaderboard.Row>, round: int, now: int, snapshot: Top21.Reply)
    requires Top21.Answers(rows, round, now, snapshot)
    ensures Stopped(snapshot, false)
       <==> Top21.BeyondRange(rows, round) || exists a :: Top21.NullActive(rows, round, now, a)
  {
    Top21.QueryIsBest21(rows, round, now, snapshot);
  }

  function WithConfirmed(db: Db, b: nat): Db
    requires b in db.blocks
  {
    db.(blocks := db.blocks[b := db.blocks[b].(confirmed := true)])
  }

  function Confirmed(db: Db, b: nat, serial: nat): Db
    requires b in db.blocks
  {
    var db', r := WithConfirmed(db, b), db.blocks[b].round;
    if r in db.rounds && db.rounds[r].ended then db'
    else if r in db.rounds then db'.(rounds := db.rounds[r := Round(true, Some(b))][serial := Round(false, None)])
    else db'.(rounds := db.rounds[serial := Round(false, None)])
  }

  /** The round id that a confirmation reports. */
  function Reported(db: Db, b: nat, serial: nat): nat
    requires b in db.blocks
  {
    var r := db.blocks[b].round;
    if r in db.rounds && db.rounds[r].ended then r else serial
  }

  function Orphaned(db: Db, b: nat): Db {
    if b in db.blocks then db.(blocks := db.blocks[b := db.blocks[b].(orphaned := true)]) else db
  }

  /** One order in which the unresolved blocks may be listed: oldest first, those of equal time in any order. */
  ghost predicate Lists(db: Db, todo: seq<nat>) {
    && (forall b :: b in todo <==> Unresolved(db, b))
    && (forall i, k :: 0 <= i < k < |todo| ==> todo[i] != todo[k])
    && OldestFirst(db, todo)
  }

  predicate OldestFirst(db: Db, ids: seq<nat>) {
    forall i, k :: 0 <= i < k < |ids| && ids[i] in db.blocks && ids[k] in db.blocks ==>
      db.blocks[ids[i]].found <= db.blocks[ids[k]].found
  }

  // ---- the operations ----

  class Database {
    var rounds: map<nat, Round>
    var blocks: map<nat, Block>

    function View(): Db
      reads this
    {
      Db(rounds, blocks)
    }

    constructor (firstRound: nat)
      ensures View() == Initial(firstRound)
    {
      rounds, blocks := map[firstRound := Round(false, None)], map[];
    }

    /** `snapshot` is the reply to the leaderboard query that comes first, `serial` the id the sequence would assign,
        and `fault` a failing insert. */
    method RecordUnconfirmedBlock(round: nat, hash: string, found: int, serial: nat, snapshot: Top21.Reply, fault: bool)
      returns (id: Option<nat>)
      requires serial !in blocks
      modifies this
      ensures id == if Stopped(snapshot, fault) || old(Refused(View(), round, hash)) then None else Some(serial)
      ensures View() == if id.Some? then Recorded(old(View()), serial, round, hash, found) else old(View())
    {
      if !snapshot.Entries? {
        return None;
      }
      if fault || round !in rounds || exists b :: b in blocks.Keys && blocks[b].hash == hash {
        return None;
      }
      blocks := blocks[serial := Block(round, hash, found, false, false)];
      return Some(serial);
    }

    method ConfirmBlock(b: nat, serial: nat, outcome: Outcome) returns (round: Option<nat>)
      requires serial !in rounds
      modifies this
      ensures b !in old(blocks) || outcome == RolledBack ==> View() == old(View()) && round == None
      ensures b in old(blocks) && outcome != RolledBack ==> View() == Confirmed(old(View()), b, serial)
      ensures b in old(blocks) && outcome == Committed ==> round == Some(Reported(old(View()), b, serial))
      ensures outcome != Committed ==> round == None
    {
      if b !in blocks {
        return None;
      }
      var roundID := blocks[b].round;
      // the transaction works on its own copy of the tables
      var txRounds, txBlocks := rounds, blocks;
      var alreadyClosed := roundID in txRounds && txRounds[roundID].ended;
      txBlocks := txBlocks[b := txBlocks[b].(confirmed := true)];
      var result := roundID;
      if !alreadyClosed {
        if roundID in txRounds {
          txRounds := txRounds[roundID := txRounds[roundID].(ended := true, block := Some(b))];
        }
        txRounds := txRounds[serial := Round(false, None)];
        result := serial;
      }
      if outcome == RolledBack {
        return None;
      }
      rounds, blocks := txRounds, txBlocks;
      return if outcome == Committed then Some(result) else None;
    }

    method MarkOrphaned(b: nat, outcome: Outcome) returns (ok: bool)
      modifies this
      ensures View() == if outcome == RolledBack then old(View()) else Orphaned(old(View()), b)
      ensures ok <==> outcome == Committed
    {
      if outcome != RolledBack && b in blocks {
        blocks := blocks[b := blocks[b].(orphaned := true)];
      }
      ok := outcome == Committed;
    }

    /** `scan` is the table's rows by time found, as the query orders them. */
    method GetUnconfirmedBlocks(scan: seq<nat>) returns (todo: seq<nat>)
      requires forall b :: b in scan <==> b in blocks
      requires forall i, k :: 0 <= i < k < |scan| ==> scan[i] != scan[k]
      requires OldestFirst(View(), scan)
      ensures Lists(View(), todo)
    {
      todo := [];
      var i := 0;
      while i < |scan|
        invariant 0 <= i <= |scan|
        invariant forall b :: b in todo <==> b in scan[..i] && Unresolved(View(), b)
        invariant forall j, k :: 0 <= j < k < |todo| ==> todo[j] != todo[k]
        invariant OldestFirst(View(), todo)
      {
        var b := scan[i];
        assert scan[..i + 1] == scan[..i] + [b] && b !in scan[..i];
        if !blocks[b].confirmed && !blocks[b].orphaned {
          assert forall j :: 0 <= j < |todo| ==> todo[j] in scan[..i];
          todo := todo + [b];
        }
        i := i + 1;
      }
      assert scan[..|scan|] == scan;
    }
  }

  // ---- what every reachable database keeps ----

  ghost predicate OneOpen(db: Db) {
    && (exists r :: Open(db, r))
    && (forall r, q :: Open(db, r) && Open(db, q) ==> r == q)
  }

  /** A closed round names a confirmed block of its own. */
  predicate ClosedBySomeBlock(db: Db) {
    forall r :: r in db.rounds && db.rounds[r].ended ==>
      && db.rounds[r].block.Some?
      && var b := db.rounds[r].block.value;
         b in db.blocks && db.blocks[b].round == r && db.blocks[b].confirmed
  }

  /** A confirmed block's round is closed, and no block is both confirmed and orphaned. */
  predicate BlocksSettled(db: Db) {
    forall b :: b in db.blocks ==>
      && db.blocks[b].round in db.rounds
      && (db.blocks[b].confirmed ==> db.rounds[db.blocks[b].round].ended && !db.blocks[b].orphaned)
  }

  predicate HashesUnique(db: Db) {
    forall a, b :: a in db.blocks && b in db.blocks && db.blocks[a].hash == db.blocks[b].hash ==> a == b
  }

  ghost predicate DbInv(db: Db) { OneOpen(db) && ClosedBySomeBlock(db) && BlocksSettled(db) && HashesUnique(db) }

  lemma InitialInv(r: nat)
    ensures DbInv(Initial(r))
  {
    assert Open(Initial(r), r);
  }

  lemma RecordedInv(db: Db, b: nat, round: nat, hash: string, found: int)
    requires DbInv(db) && b !in db.blocks && !Refused(db, round, hash)
    ensures DbInv(Recorded(db, b, round, hash, found))
  {
    var db' := Recorded(db, b, round, hash, found);
    var o :| Open(db, o);
    assert Open(db', o);
    assert forall r :: Open(db', r) ==> Open(db, r);
  }

  lemma OrphanedInv(db: Db, b: nat)
    requires DbInv(db) && Unresolved(db, b)
    ensures DbInv(Orphaned(db, b))
  {
    var db' := Orphaned(db, b);
    var o :| Open(db, o);
    assert Open(db', o);
    assert forall r :: Open(db', r) ==> Open(db, r);
  }

  lemma ConfirmedRounds(db: Db, b: nat, serial: nat)
    requires DbInv(db) && Unresolved(db, b) && serial !in db.rounds
    ensures OneOpen(Confirmed(db, b, serial)) && ClosedBySomeBlock(Confirmed(db, b, serial))
  {
    var db', r := Confirmed(db, b, serial), db.blocks[b].round;
    var o :| Open(db, o);
    if db.rounds[r].ended {
      assert Open(db', o);
      assert forall q :: Open(db', q) ==> Open(db, q);
    } else {
      assert Open(db, r);
      assert Open(db', serial);
      assert forall q :: Open(db', q) ==> q == serial || Open(db, q);
    }
  }

  lemma ConfirmedInv(db: Db, b: nat, serial: nat)
    requires DbInv(db) && Unresolved(db, b) && serial !in db.rounds
    ensures DbInv(Confirmed(db, b, serial))
  {
    ConfirmedRounds(db, b, serial);
    hide OneOpen, ClosedBySomeBlock;
  }

  /** The reported id is the open round exactly when the block's own round was still open: a second block of a closed
      round is reported under the closed id. */
  lemma ReportsOpenIff(db: Db, b: nat, serial: nat)
    requires DbInv(db) && Unresolved(db, b) && serial !in db.rounds
    ensures Open(Confirmed(db, b, serial), Reported(db, b, serial)) <==> Open(db, db.blocks[b].round)
  {
  }

  // ---- counting rounds ----

  function Closed(db: Db): set<nat> { set r | r in db.rounds && db.rounds[r].ended }

  /** Rounds that have a confirmed block. */
  function Won(db: Db): set<nat> { set b | b in db.blocks && db.blocks[b].confirmed :: db.blocks[b].round }

  /** Opened rounds are one more than rounds with a confirmed block. */
  lemma RoundsCounted(db: Db)
    requires DbInv(db)
    ensures |db.rounds| == 1 + |Won(db)|
  {
    var o :| Open(db, o);
    assert forall r :: r in db.rounds && !db.rounds[r].ended ==> Open(db, r);
    assert db.rounds.Keys == Closed(db) + {o};
    forall r | r in Closed(db) ensures r in Won(db) {
      var b := db.rounds[r].block.value;
      assert b in db.blocks && db.blocks[b].confirmed && db.blocks[b].round == r;
    }
    assert Closed(db) == Won(db);
    assert |db.rounds| == |db.rounds.Keys|;
  }
}
