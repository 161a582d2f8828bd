/** Share ingestion of service.go: the buffer, the flush that swaps it out and writes it as columns, and what becomes of
    every share under any interleaving. */
module Shares {
  import opened Bytes
  import opened Rounds

  datatype Share = Share(round: nat, addr: string, worker: string, difficulty: int, trueDiff: int, port: int)

  /** Conversion to int32 keeps the low 32 bits. */
  function Int32(x: int): int {
    var low := x % 0x1_0000_0000;
    if low < 0x8000_0000 then low else low - 0x1_0000_0000
  }

  /** The row a share becomes. */
  function RowOf(sh: Share): Share { sh.(port := Int32(sh.port)) }

  function RowsOf(pending: seq<Share>): seq<Share> {
    seq(|pending|, i requires 0 <= i < |pending| => RowOf(pending[i]))
  }

  /** What a stored row holds: the share's own round, address, worker and difficulties, and of its port the low 32 bits,
      which is the port itself where it fits them. */
  lemma RowsAre(pending: seq<Share>, i: nat)
    requires i < |pending|
    ensures |RowsOf(pending)| == |pending|
    ensures var row, sh := RowsOf(pending)[i], pending[i];
            && row == Share(sh.round, sh.addr, sh.worker, sh.difficulty, sh.trueDiff, row.port)
            && -0x8000_0000 <= row.port < 0x8000_0000
            && row.port % 0x1_0000_0000 == sh.port % 0x1_0000_0000
            && (-0x8000_0000 <= sh.port < 0x8000_0000 ==> row == sh)
  {
    Int32Is(pending[i].port);
    hide Int32;
  }

  lemma Int32Is(x: int)
    ensures -0x8000_0000 <= Int32(x) < 0x8000_0000 && Int32(x) % 0x1_0000_0000 == x % 0x1_0000_0000
    ensures -0x8000_0000 <= x < 0x8000_0000 ==> Int32(x) == x
  {
  }

  datatype Key = Key(addr: string, worker: string)

  function Keys(pending: seq<Share>): set<Key> { set sh | sh in pending :: Key(sh.addr, sh.worker) }

  /** The tables: shares and the workers' last_seen. */
  datatype Tables = Tables(shares: multiset<Share>, workers: map<Key, int>)

  function Flushed(t: Tables, pending: seq<Share>, now: int): Tables {
    Tables(t.shares + multiset(RowsOf(pending)), t.workers + map k | k in Keys(pending) :: now)
  }

  /** The tables after a flush: an empty one does nothing, and a transaction applies in full or not at all. */
  function AfterFlush(t: Tables, pending: seq<Share>, now: int, outcome: Outcome): Tables {
    if pending == [] || outcome == RolledBack then t else Flushed(t, pending, now)
  }

  /** What an applied flush writes: a row more for each share, and the time of the flush for the workers of its shares
      and for nobody else. */
  lemma FlushedAre(t: Tables, pending: seq<Share>, now: int, outcome: Outcome, addr: string, worker: string)
    requires outcome != RolledBack
    ensures var t' := AfterFlush(t, pending, now, outcome);
            var seen := exists sh :: sh in pending && (sh.addr, sh.worker) == (addr, worker);
            && |t'.shares| == |t.shares| + |pending|
            && t.shares <= t'.shares
            && (forall i :: 0 <= i < |pending| ==> RowsOf(pending)[i] in t'.shares)
            && (Key(addr, worker) in t'.workers <==> seen || Key(addr, worker) in t.workers)
            && (Key(addr, worker) in t'.workers ==>
                  t'.workers[Key(addr, worker)] == if seen then now else t.workers[Key(addr, worker)])
  {
    NoKeys();
    SeenIff(pending, addr, worker);
    hide Keys, RowOf;
    if pending != [] {
      assert |multiset(RowsOf(pending))| == |pending|;
      forall i | 0 <= i < |pending| ensures RowsOf(pending)[i] in Flushed(t, pending, now).shares {
        assert RowsOf(pending)[i] in multiset(RowsOf(pending));
      }
    }
  }

  lemma SeenIff(pending: seq<Share>, addr: string, worker: string)
    ensures Key(addr, worker) in Keys(pending) <==> exists sh :: sh in pending && (sh.addr, sh.worker) == (addr, worker)
  {
    if sh :| sh in pending && (sh.addr, sh.worker) == (addr, worker) {
      assert Key(sh.addr, sh.worker) in Keys(pending);
    }
  }

  /** UNNEST of equally long columns: row i takes element i of each. */
  function Unnest(rounds: seq<nat>, addrs: seq<string>, workers: seq<string>, diffs: seq<int>, trues: seq<int>,
                  ports: seq<int>): seq<Share>
    requires |rounds| == |addrs| == |workers| == |diffs| == |trues| == |ports|
  {
    seq(|rounds|, i requires 0 <= i < |rounds| => Share(rounds[i], addrs[i], workers[i], diffs[i], trues[i], ports[i]))
  }

  /** ON CONFLICT DO UPDATE may not touch one row twice in a statement. */
  predicate NoRepeats(keys: seq<Key>) { forall i, k :: 0 <= i < k < |keys| ==> keys[i] != keys[k] }

  class Service {
    var buffer: seq<Share>
    var shares: multiset<Share>
    var workers: map<Key, int>

    function View(): Tables
      reads this
    {
      Tables(shares, workers)
    }

    constructor ()
      ensures buffer == [] && View() == Tables(multiset{}, map[])
    {
      buffer, shares, workers := [], multiset{}, map[];
    }

    /** A share without a difficulty is refused. */
    method BufferShare(sh: Share, difficulty: Option<int>) returns (ok: bool)
      modifies this`buffer
      ensures ok <==> difficulty.Some?
      ensures buffer == if ok then old(buffer) + [sh.(difficulty := difficulty.value)] else old(buffer)
    {
      if difficulty.None? {
        return false;
      }
      buffer := buffer + [sh.(difficulty := difficulty.value)];
      return true;
    }

    /** The batched upsert, which the database refuses when a key comes twice. */
    method UpsertWorkers(keys: seq<Key>, now: int) returns (ok: bool)
      modifies this`workers
      ensures ok <==> NoRepeats(keys)
      ensures workers == if ok then old(workers) + map k | k in keys :: now else old(workers)
    {
      ok := NoRepeats(keys);
      if ok {
        workers := workers + map k | k in keys :: now;
      }
    }

    /** The columns of the batched insert, row by row, and the distinct workers seen on the way. */
    static method Columns(pending: seq<Share>) returns (batch: seq<Share>, seenWorkers: set<Key>)
      ensures batch == RowsOf(pending) && seenWorkers == Keys(pending)
    {
      hide Int32, Keys;
      var n := |pending|;
      var roundIDs, addrs, workers := seq(n, _ => 0), seq(n, _ => ""), seq(n, _ => "");
      var diffs, trueDiffs, ports := seq(n, _ => 0), seq(n, _ => 0), seq(n, _ => 0);
      seenWorkers := {};
      var i := 0;
      assert pending[..0] == [] && Keys([]) == {} by { NoKeys(); }
      while i < n
        invariant 0 <= i <= n == |roundIDs| == |addrs| == |workers| == |diffs| == |trueDiffs| == |ports|
        invariant forall k :: 0 <= k < i ==> roundIDs[k] == pending[k].round && addrs[k] == pending[k].addr
        invariant forall k :: 0 <= k < i ==> workers[k] == pending[k].worker && diffs[k] == pending[k].difficulty
        invariant forall k :: 0 <= k < i ==> trueDiffs[k] == pending[k].trueDiff && ports[k] == Int32(pending[k].port)
        invariant seenWorkers == Keys(pending[..i])
      {
        var sh := pending[i];
        roundIDs, addrs, workers := roundIDs[i := sh.round], addrs[i := sh.addr], workers[i := sh.worker];
        diffs, trueDiffs := diffs[i := sh.difficulty], trueDiffs[i := sh.trueDiff];
        ports := ports[i := Int32(sh.port)];
        seenWorkers := seenWorkers + {Key(sh.addr, sh.worker)};
        KeysGrow(pending, i);
        i := i + 1;
      }
      assert pending[..n] == pending;
      batch := Unnest(roundIDs, addrs, workers, diffs, trueDiffs, ports);
    }

    /** The buffer is emptied whatever happens; its shares reach the tables all together or not at all. */
    method FlushShares(now: int, outcome: Outcome) returns (ok: bool)
      modifies this
      ensures buffer == []
      ensures View() == AfterFlush(old(View()), old(buffer), now, outcome)
      ensures ok <==> old(buffer) == [] || outcome == Committed
    {
      hide RowsOf, Keys, NoRepeats;
      var pending := buffer;
      buffer := [];
      if |pending| == 0 {
        return true;
      }
      var batch, seenWorkers := Columns(pending);
      var keys := Listed(seenWorkers);
      if outcome == RolledBack {
        return false;
      }
      shares := shares + multiset(batch);
      var upserted := UpsertWorkers(keys, now);
      assert upserted;
      assert (map k | k in keys :: now) == map k | k in Keys(pending) :: now;
      return outcome == Committed;
    }

    /** Ranging over a map visits each key once, in any order. */
    static method Listed(s: set<Key>) returns (keys: seq<Key>)
      ensures NoRepeats(keys) && forall k :: k in keys <==> k in s
    {
      keys := [];
      var rest := s;
      while rest != {}
        invariant rest <= s && NoRepeats(keys)
        invariant forall k :: k in keys <==> k in s - rest
        decreases |rest|
      {
        var k :| k in rest;
        assert k !in keys;
        rest := rest - {k};
        keys := keys + [k];
      }
    }
  }

  lemma NoKeys()
    ensures Keys([]) == {}
  {
  }

  lemma KeysGrow(pending: seq<Share>, i: nat)
    requires i < |pending|
    ensures Keys(pending[..i + 1]) == Keys(pending[..i]) + {Key(pending[i].addr, pending[i].worker)}
  {
    assert pending[..i + 1] == pending[..i] + [pending[i]];
  }
}
