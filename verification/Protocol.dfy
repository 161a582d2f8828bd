/** Personal coinbase halves per miner: the two-slot cache, the clean flag, the quickdiff guard and session-tagged job
    ids (the C text of patch-stratum.py after patches 3, 4, 8, 9, 11, 12 and 13). */
module PersonalProtocol {
  import opened Bytes

  function XorBit(a: nat, b: nat): nat { if a % 2 == b % 2 then 0 else 1 }

  /** Bitwise exclusive or. The gateway's operands are 32-bit words; nothing below depends on the width. */
  function Xor(a: nat, b: nat): (x: nat) {
    if a == 0 && b == 0 then 0 else XorBit(a, b) + 2 * Xor(a / 2, b / 2)
  }

  lemma XorHalves(a: nat, b: nat)
    ensures Xor(a, b) / 2 == Xor(a / 2, b / 2) && Xor(a, b) % 2 == XorBit(a, b)
  {
    if a == 0 && b == 0 {
      assert a / 2 == 0 && b / 2 == 0;
    }
  }

  lemma SameHalves(a: nat, b: nat)
    requires a / 2 == b / 2 && a % 2 == b % 2
    ensures a == b
  {
  }

  lemma {:induction false} XorCancels(a: nat, b: nat)
    ensures Xor(Xor(a, b), b) == a
  {
    if a != 0 || b != 0 {
      XorHalves(a, b);
      XorHalves(Xor(a, b), b);
      XorCancels(a / 2, b / 2);
      hide Xor;
      SameHalves(Xor(Xor(a, b), b), a);
    }
  }

  lemma {:induction false} XorInjective(a: nat, b: nat, c: nat)
    requires Xor(a, b) == Xor(a, c)
    ensures b == c
  {
    if a != 0 || b != 0 || c != 0 {
      XorHalves(a, b);
      XorHalves(a, c);
      hide Xor;
      XorInjective(a / 2, b / 2, c / 2);
      SameHalves(b, c);
    }
  }

  lemma {:induction false} XorFits(a: nat, b: nat, n: nat)
    requires a < Power2(n) && b < Power2(n)
    ensures Xor(a, b) < Power2(n)
  {
    if n > 0 && (a != 0 || b != 0) {
      XorFits(a / 2, b / 2, n - 1);
    }
  }

  function Power2(n: nat): nat { if n == 0 then 1 else 2 * Power2(n - 1) }

  /** A stratum job as one miner sees it: its place in the global job table, the two parts of its id, how many payouts
      it carries, the shared and empty-work halves for the miner's coinbase type, and whether the coinbaser thread has
      filled in the payouts, which also generates the shared half anew. */
  datatype Job = Job(index: nat, stamp: nat, suffix: string, payouts: nat, shared: seq<byte>, empty: seq<byte>,
                     filled: bool)

  /** The flags quickdiff and new_block of a notify: neither, the first, the second, both. */
  datatype Kind = Normal | Quick | Empty | QuickNew

  function KindOf(quickdiff: bool, newBlock: bool): Kind {
    if quickdiff then if newBlock then QuickNew else Quick else if newBlock then Empty else Normal
  }

  datatype JobId = JobId(kind: Kind, stamp: nat, suffix: string)

  datatype Notice = Notice(id: JobId, coinb2: seq<byte>, clean: bool)

  /** One cached personal half. */
  datatype Slot = Slot(valid: bool, job: nat, bin: seq<byte>)

  /** The miner's fields that the patches read and write. */
  datatype Miner = Miner(username: string, sid: nat, cur: Slot, prev: Slot)

  const NO_SLOT := Slot(false, 0, [])

  function Connected(sid: nat): Miner { Miner("", sid, NO_SLOT, NO_SLOT) }

  predicate Eligible(m: Miner, j: Job) { m.username != "" && j.payouts > 0 }

  /** The cache is refilled: not on a new block, not on quickdiff before a first success, not for the cached job. */
  predicate Rebuilds(m: Miner, j: Job, kind: Kind) {
    && kind in {Normal, Quick} && Eligible(m, j)
    && (kind != Quick || m.cur.valid) && (!m.cur.valid || m.cur.job != j.index)
  }

  /** The miner after a notify; `build` is what generating the personal half gives, were it tried now. */
  function Notified(m: Miner, j: Job, kind: Kind, build: Option<seq<byte>>): Miner {
    if !Rebuilds(m, j, kind) then m
    else
      m.(prev := if m.cur.valid then m.cur else m.prev,
         cur := Slot(build.Some?, j.index, if build.Some? then build.value else []))
  }

  /** Quickdiff decides the prefix letter before new_block does. */
  function Tag(m: Miner, j: Job, kind: Kind): JobId {
    JobId(if kind == QuickNew then Quick else kind, Xor(j.stamp, m.sid), j.suffix)
  }

  /** What goes out, `m` being the miner after the cache was refilled. */
  function Sent(m: Miner, j: Job, kind: Kind): seq<byte> {
    if kind == Empty then j.empty
    else if kind != QuickNew && Eligible(m, j) && m.cur.valid then m.cur.bin
    else j.shared
  }

  /** The restart flag of a notify whose caller asked for `clean`. */
  predicate Cleans(m: Miner, j: Job, kind: Kind, build: Option<seq<byte>>, clean: bool) {
    clean || kind != Normal || (Rebuilds(m, j, kind) && build.Some?)
  }

  /** The half a share for job `j` is rebuilt with. */
  function Rebuilt(m: Miner, j: Job, empty: bool): seq<byte> {
    if empty then j.empty
    else if m.cur.valid && m.cur.job == j.index then m.cur.bin
    else if m.prev.valid && m.prev.job == j.index then m.prev.bin
    else j.shared
  }

  datatype Verdict = Stale | UnknownWork | Rebuild(coinb2: seq<byte>)

  /** A share quoting `id`, looked up as job `j` of the table. */
  function Judged(m: Miner, j: Job, id: JobId): Verdict {
    if Xor(id.stamp, m.sid) != j.stamp then Stale
    else if id.suffix != j.suffix then UnknownWork
    else Rebuild(Rebuilt(m, j, id.kind == Empty))
  }

  /** The connection's state, updated field by field as the patched code does. */
  class MinerData {
    var lastAuthUsername: string
    var sidInv: nat
    var personalBin: seq<byte>
    var personalValid: bool
    var personalJobIndex: nat
    var prevBin: seq<byte>
    var prevValid: bool
    var prevJobIndex: nat

    function View(): Miner
      reads this
    {
      Miner(lastAuthUsername, sidInv, Slot(personalValid, personalJobIndex, personalBin),
            Slot(prevValid, prevJobIndex, prevBin))
    }

    constructor (sid: nat)
      ensures View() == Connected(sid)
    {
      lastAuthUsername, sidInv := "", sid;
      personalBin, personalValid, personalJobIndex := [], false, 0;
      prevBin, prevValid, prevJobIndex := [], false, 0;
    }

    method Authorize(username: string)
      modifies this
      ensures View() == old(View()).(username := username)
    {
      lastAuthUsername := username;
    }

    method SendMiningNotify(j: Job, clean: bool, quickdiff: bool, newBlock: bool, build: Option<seq<byte>>)
      returns (notice: Notice)
      modifies this
      ensures var kind := KindOf(quickdiff, newBlock);
              && View() == Notified(old(View()), j, kind, build)
              && notice.id == Tag(old(View()), j, kind)
              && notice.coinb2 == Sent(View(), j, kind)
              && notice.clean == Cleans(old(View()), j, kind, build, clean)
    {
      hide Xor;
      var tag := Xor(j.stamp, sidInv);
      var id := if quickdiff then JobId(Quick, tag, j.suffix)
                else if !newBlock then JobId(Normal, tag, j.suffix)
                else JobId(Empty, tag, j.suffix);
      var rebuiltNow := false;
      var coinb2 := if !quickdiff && newBlock then j.empty else j.shared;
      if !newBlock && lastAuthUsername != "" && j.payouts > 0 {
        if (!quickdiff || personalValid) && (!personalValid || personalJobIndex != j.index) {
          if personalValid {
            prevBin := personalBin;
            prevValid := true;
            prevJobIndex := personalJobIndex;
          }
          personalValid := build.Some?;
          personalBin := if build.Some? then build.value else [];
          personalJobIndex := j.index;
          if personalValid {
            rebuiltNow := true;
          }
        }
        if personalValid {
          coinb2 := personalBin;
        }
      }
      notice := Notice(id, coinb2, clean || quickdiff || newBlock || rebuiltNow);
    }

    method ClientMiningSubmit(j: Job, id: JobId) returns (v: Verdict)
      ensures v == Judged(View(), j, id)
    {
      hide Xor;
      var raw := Xor(id.stamp, sidInv);
      if raw != j.stamp {
        return Stale;
      }
      if id.suffix != j.suffix {
        return UnknownWork;
      }
      var emptyWork := id.kind == Empty;
      if !emptyWork && personalValid && personalJobIndex == j.index {
        return Rebuild(personalBin);
      } else if !emptyWork && prevValid && prevJobIndex == j.index {
        return Rebuild(prevBin);
      } else {
        return Rebuild(if emptyWork then j.empty else j.shared);
      }
    }
  }

  /** What a notify does, by its two flags and the miner: new-block work never touches the cache, an unknown miner or a
      job nobody is paid for gets the shared half, a cached job is sent again as it is, quickdiff waits for a first
      success, and otherwise the half is built anew, the previous one being kept, or the attempt fails. */
  lemma NotifyCases(m: Miner, j: Job, quickdiff: bool, newBlock: bool, build: Option<seq<byte>>, clean: bool)
    ensures var kind := KindOf(quickdiff, newBlock);
            var m' := Notified(m, j, kind, build);
            var sent, restart := Sent(m', j, kind), Cleans(m, j, kind, build, clean);
            var cached := m.cur.valid && m.cur.job == j.index;
            && Tag(m, j, kind).kind == (if quickdiff then Quick else if newBlock then Empty else Normal)
            && (newBlock ==> m' == m && restart && sent == if quickdiff then j.shared else j.empty)
            && (!newBlock && (m.username == "" || j.payouts == 0) ==>
                  m' == m && sent == j.shared && (restart <==> clean || quickdiff))
            && (!newBlock && m.username != "" && j.payouts > 0 ==>
                  if cached then m' == m && sent == m.cur.bin && (restart <==> clean || quickdiff)
                  else if quickdiff && !m.cur.valid then m' == m && sent == j.shared && restart
                  else
                    && (m'.username, m'.sid, m'.prev) == (m.username, m.sid, if m.cur.valid then m.cur else m.prev)
                    && (build.Some? ==> m'.cur == Slot(true, j.index, build.value) && sent == build.value && restart)
                    && (build.None? ==> && !m'.cur.valid && m'.cur.job == j.index && sent == j.shared
                                        && (restart <==> clean || quickdiff)))
  {
    hide Xor;
  }

  // ---- runs, with a history of what this session was sent ----

  /** The last non-empty work sent for a job: the half, whether it was personal, whether a personal half was in
      question, and whether the job had been filled. */
  datatype Last = Last(coinb2: seq<byte>, personal: bool, eligible: bool, filled: bool)

  /** `jobs` are the jobs announced so far and `top` the latest index among them; `last`, `empties` and `built` are the
      history of the present session: what was last sent for each job, the half last sent as its empty work, and the
      jobs whose personal half was built, in order. */
  datatype World = World(m: Miner, jobs: map<nat, Job>, last: map<nat, Last>, empties: map<nat, seq<byte>>, top: nat,
                         built: seq<nat>)

  datatype Event =
    | Authorize(username: string)
    | Notify(j: Job, kind: Kind, build: Option<seq<byte>>)
    | Count(k: nat, payouts: nat)
    | Fill(k: nat, payouts: nat, shared: seq<byte>)
    | Reconnect(sid: nat)

  function Start(sid: nat): World { World(Connected(sid), map[], map[], map[], 0, []) }

  function Record(m: Miner, j: Job, kind: Kind): Last {
    var offered := Eligible(m, j) && kind != QuickNew;
    Last(Sent(m, j, kind), offered && m.cur.valid, offered, j.filled)
  }

  function Next(w: World, e: Event): World {
    match e
    case Authorize(u) => w.(m := w.m.(username := u))
    case Reconnect(sid) => World(Connected(sid), w.jobs, map[], map[], w.top, [])
    case Count(k, payouts) =>
      if k !in w.jobs then w else w.(jobs := w.jobs[k := w.jobs[k].(payouts := payouts)])
    case Fill(k, payouts, shared) =>
      if k !in w.jobs then w
      else w.(jobs := w.jobs[k := w.jobs[k].(payouts := payouts, shared := shared, filled := true)])
    case Notify(j, kind, build) =>
      var m := Notified(w.m, j, kind, build);
      World(m,
            w.jobs[j.index := j],
            if kind == Empty then w.last else w.last[j.index := Record(m, j, kind)],
            if kind == Empty then w.empties[j.index := Sent(m, j, kind)] else w.empties,
            j.index,
            if Rebuilds(w.m, j, kind) && build.Some? then w.built + [j.index] else w.built)
  }

  /** A slot holds the personal half of job `k`. */
  predicate Held(m: Miner, k: nat) { (m.cur.valid && m.cur.job == k) || (m.prev.valid && m.prev.job == k) }

  /** A notify is of the latest job or a new one, and what the table says of the job; a job's eligibility never
      reverts. */
  predicate Consistent(w: World, e: Event)
    requires e.Notify?
  {
    && e.j.index >= w.top
    && (e.j.index in w.jobs ==> w.jobs[e.j.index] == e.j)
    && (e.kind != Empty && e.j.index in w.last && w.last[e.j.index].eligible ==> Eligible(w.m, e.j))
  }

  /** Notifies are consistent, and none is quickdiff and new-block at once for a job whose personal half is cached; a
      job is filled once, after its payouts were counted in any steps. Nothing is said of when: before, between or after
      the job's notifies, which see the count of the moment. */
  predicate Allowed(w: World, e: Event) {
    match e
    case Notify(j, kind, _) => Consistent(w, e) && (kind == QuickNew ==> !Held(w.m, j.index))
    case Count(k, _) => k in w.jobs && !w.jobs[k].filled
    case Fill(k, _, _) => k in w.jobs && !w.jobs[k].filled
    case _ => true
  }

  function Run(w: World, es: seq<Event>): World
    decreases |es|
  {
    if es == [] then w else Run(Next(w, es[0]), es[1..])
  }

  predicate AllowedRun(w: World, es: seq<Event>)
    decreases |es|
  {
    es == [] || (Allowed(w, es[0]) && AllowedRun(Next(w, es[0]), es[1..]))
  }

  // ---- the invariant ----

  /** The job table is keyed by index, and only announced jobs have been sent. */
  predicate Table(w: World) {
    && (forall k :: k in w.jobs ==> w.jobs[k].index == k <= w.top)
    && (forall k :: k in w.last ==> k in w.jobs)
  }

  /** A valid slot holds what was last sent for its job. */
  predicate Holds(w: World, s: Slot) {
    s.valid ==> s.job in w.last && w.last[s.job].coinb2 == s.bin && w.last[s.job].personal && w.last[s.job].eligible
  }

  predicate Slots(w: World) {
    Holds(w, w.m.cur) && Holds(w, w.m.prev) && w.m.cur.job <= w.top && (w.m.prev.valid ==> w.m.prev.job < w.m.cur.job)
  }

  /** Work of a filled job sent without a personal half is still the shared work. */
  predicate SharedSent(w: World) {
    forall k :: k in w.last && k in w.jobs && w.last[k].filled ==>
      w.jobs[k].filled && (!w.last[k].personal ==> w.last[k].coinb2 == w.jobs[k].shared)
  }

  /** Empty work is the job's own. */
  predicate EmptySent(w: World) {
    forall k :: k in w.empties ==> k in w.jobs && w.empties[k] == w.jobs[k].empty
  }

  /** For the latest job, once eligible: it is personal exactly when the current slot is filled, with its half. */
  predicate TopSent(w: World) {
    && (w.top in w.last && w.last[w.top].eligible ==>
          && (w.last[w.top].personal <==> w.m.cur.valid)
          && (w.m.cur.valid ==> w.m.cur.job == w.top))
    && (w.top in w.last && w.last[w.top].personal ==> w.last[w.top].eligible)
  }

  /** The slots are the most recent successful builds. */
  predicate Recent(w: World) {
    var n, cur, prev := |w.built|, w.m.cur, w.m.prev;
    && (cur.valid ==> && n >= 1 && w.built[n - 1] == cur.job
                      && (prev.valid <==> n >= 2) && (prev.valid ==> w.built[n - 2] == prev.job))
    && (!cur.valid ==> (prev.valid <==> n >= 1) && (prev.valid ==> w.built[n - 1] == prev.job))
  }

  predicate Inv(w: World) {
    Table(w) && Slots(w) && SharedSent(w) && EmptySent(w) && TopSent(w) && Recent(w)
  }

  lemma SlotsNext(w: World, e: Event)
    requires Inv(w) && Allowed(w, e) && e.Notify?
    ensures Slots(Next(w, e)) && TopSent(Next(w, e))
  {
    hide Recent;
    var j, k := e.j, e.kind;
    var m := Notified(w.m, j, k, e.build);
    if Rebuilds(w.m, j, k) {
      assert w.m.cur.valid ==> w.m.cur.job < j.index;
      assert m.prev.valid ==> m.prev.job < j.index;
    } else if k != Empty && w.m.cur.valid && w.m.cur.job == j.index {
      assert w.last[j.index].personal && w.last[j.index].coinb2 == w.m.cur.bin;
    }
  }

  lemma SentNext(w: World, e: Event)
    requires Inv(w) && Allowed(w, e) && e.Notify?
    ensures Table(Next(w, e)) && SharedSent(Next(w, e)) && EmptySent(Next(w, e))
  {
    hide Recent, TopSent, Slots;
  }

  lemma RecentNext(w: World, e: Event)
    requires Inv(w) && Allowed(w, e) && e.Notify?
    ensures Recent(Next(w, e))
  {
    hide TopSent, SharedSent, EmptySent;
  }

  lemma QuietNext(w: World, e: Event)
    requires Inv(w) && Allowed(w, e) && !e.Notify?
    ensures Inv(Next(w, e))
  {
  }

  lemma InvNext(w: World, e: Event)
    requires Inv(w) && Allowed(w, e)
    ensures Inv(Next(w, e))
  {
    if e.Notify? {
      hide Table, Slots, SharedSent, EmptySent, TopSent, Recent, Next, Allowed;
      SlotsNext(w, e);
      SentNext(w, e);
      RecentNext(w, e);
    } else {
      QuietNext(w, e);
    }
  }

  lemma {:induction false} InvRun(w: World, es: seq<Event>)
    requires Inv(w) && AllowedRun(w, es)
    ensures Inv(Run(w, es))
    decreases |es|
  {
    hide Inv, Allowed, Next;
    if es != [] {
      InvNext(w, es[0]);
      InvRun(Next(w, es[0]), es[1..]);
    }
  }

  lemma Reachable(sid: nat, es: seq<Event>)
    requires AllowedRun(Start(sid), es)
    ensures Inv(Run(Start(sid), es))
  {
    assert Inv(Start(sid));
    InvRun(Start(sid), es);
  }

  // ---- what a share is rebuilt with ----

  /** Job `k` is one of the two most recent builds, or only the most recent one when the latest attempt failed. */
  predicate Cached(w: World, k: nat) {
    var n := |w.built|;
    (n >= 1 && k == w.built[n - 1]) || (n >= 2 && w.m.cur.valid && k == w.built[n - 2])
  }

  lemma RebuiltInv(w: World, k: nat)
    requires Inv(w) && k in w.last
    ensures Rebuilt(w.m, w.jobs[k], false)
         == if w.last[k].personal && Cached(w, k) then w.last[k].coinb2 else w.jobs[k].shared
    ensures !w.last[k].personal && w.last[k].filled ==> w.jobs[k].shared == w.last[k].coinb2
  {
    hide TopSent;
    var cur, prev := w.m.cur, w.m.prev;
    assert cur.valid && cur.job == k ==> w.last[k].personal && w.last[k].coinb2 == cur.bin;
    assert prev.valid && prev.job == k ==> w.last[k].personal && w.last[k].coinb2 == prev.bin;
  }

  /** At every point of every run, the half a share is rebuilt with, for every job this session was sent: the cached
      personal half, which is the one last sent, or the job's shared half as it now is. That is the one last sent if the
      job had been filled when it was sent. */
  lemma RebuiltExactly(sid: nat, es: seq<Event>, k: nat)
    requires AllowedRun(Start(sid), es)
    requires k in Run(Start(sid), es).last
    ensures var w := Run(Start(sid), es);
            && k in w.jobs
            && (w.last[k].personal && Cached(w, k) ==> Rebuilt(w.m, w.jobs[k], false) == w.last[k].coinb2)
            && (w.last[k].personal && !Cached(w, k) ==> Rebuilt(w.m, w.jobs[k], false) == w.jobs[k].shared)
            && (!w.last[k].personal ==> Rebuilt(w.m, w.jobs[k], false) == w.jobs[k].shared)
            && (!w.last[k].personal && w.last[k].filled ==> w.jobs[k].shared == w.last[k].coinb2)
  {
    Reachable(sid, es);
    RebuiltInv(Run(Start(sid), es), k);
  }

  /** The last two builds are safe as long as the latest attempt succeeded. */
  lemma LastTwoBuilds(sid: nat, es: seq<Event>)
    requires AllowedRun(Start(sid), es)
    ensures var w := Run(Start(sid), es); var n := |w.built|;
            && (n >= 1 ==> var k := w.built[n - 1];
                  k in w.last && k in w.jobs && Rebuilt(w.m, w.jobs[k], false) == w.last[k].coinb2)
            && (n >= 2 && w.m.cur.valid ==> var k := w.built[n - 2];
                  k in w.last && k in w.jobs && Rebuilt(w.m, w.jobs[k], false) == w.last[k].coinb2)
  {
    hide Run, AllowedRun;
    Reachable(sid, es);
  }

  /** No non-empty work is sent for job `k`. */
  predicate QuietAbout(es: seq<Event>, k: nat) {
    forall e :: e in es && e.Notify? && e.j.index == k ==> e.kind == Empty
  }

  lemma {:induction false} LastStays(w: World, es: seq<Event>, k: nat)
    requires AllowedRun(w, es) && QuietAbout(es, k) && k in Run(w, es).last
    ensures k in w.last && Run(w, es).last[k] == w.last[k]
    decreases |es|
  {
    if es != [] {
      assert es[0] in es && forall e :: e in es[1..] ==> e in es;
      hide Allowed;
      LastStays(Next(w, es[0]), es[1..], k);
    }
  }

  /** When shared work for a job is sent, its shares are rebuilt with those bytes in everything that can follow, until
      the job is sent again, if and only if the job had been filled: otherwise the filling itself can change them. */
  lemma SharedSafeIff(sid: nat, es: seq<Event>, e: Event)
    requires AllowedRun(Start(sid), es) && Allowed(Run(Start(sid), es), e) && e.Notify? && e.kind != Empty
    requires !Next(Run(Start(sid), es), e).last[e.j.index].personal
    ensures var w, k := Next(Run(Start(sid), es), e), e.j.index;
            e.j.filled <==> SafeFor(w, k)
  {
    Reachable(sid, es);
    var w0 := Run(Start(sid), es);
    InvNext(w0, e);
    var w, k := Next(w0, e), e.j.index;
    assert w.last[k].filled == w.jobs[k].filled == e.j.filled && w.last[k].coinb2 == w.jobs[k].shared;
    hide Run, AllowedRun, Inv;
    if e.j.filled {
      FilledSafe(w, k);
    } else {
      UnfilledUnsafe(w, k);
    }
  }

  /** Whatever follows, short of new work for the job or a new session, the share is rebuilt with the bytes last
      sent. */
  ghost predicate SafeFor(w: World, k: nat)
    requires k in w.last
  {
    forall es :: AllowedRun(w, es) && QuietAbout(es, k) ==> MatchesAfter(w, es, k)
  }

  predicate MatchesAfter(w: World, es: seq<Event>, k: nat)
    requires k in w.last
  {
    var w' := Run(w, es);
    k in w'.last && k in w'.jobs ==> Rebuilt(w'.m, w'.jobs[k], false) == w.last[k].coinb2
  }

  lemma FilledSafe(w: World, k: nat)
    requires Inv(w) && k in w.last && !w.last[k].personal && w.last[k].filled
    ensures SafeFor(w, k)
  {
    hide Inv, Run, AllowedRun, QuietAbout;
    forall es | AllowedRun(w, es) && QuietAbout(es, k) ensures MatchesAfter(w, es, k) {
      InvRun(w, es);
      if k in Run(w, es).last {
        LastStays(w, es, k);
        RebuiltInv(Run(w, es), k);
      }
    }
  }

  lemma UnfilledUnsafe(w: World, k: nat)
    requires Inv(w) && k in w.last && !w.last[k].personal && !w.jobs[k].filled
    ensures !SafeFor(w, k)
  {
    var other := w.last[k].coinb2 + [0];
    var e := Fill(k, w.jobs[k].payouts, other);
    var es := [e];
    assert es[1..] == [] && Run(w, es) == Next(w, e);
    assert AllowedRun(w, es);
    InvNext(w, e);
    RebuiltInv(Next(w, e), k);
    assert !MatchesAfter(w, es, k);
  }

  function FilledBetween(): seq<Event> {
    [ Authorize("a"), Notify(Job(1, 1, "", 0, [8], [], false), Normal, None), Fill(1, 1, [9]) ]
  }

  /** A job sent before it is filled: its shares are then rebuilt with other bytes, and when its personal half cannot be
      built it is sent again, changed, without a restart. */
  lemma UnfilledExample(sid: nat)
    ensures AllowedRun(Start(sid), FilledBetween())
    ensures var w := Run(Start(sid), FilledBetween());
            && 1 in w.last && 1 in w.jobs
            && w.last[1].coinb2 == [8] && Rebuilt(w.m, w.jobs[1], false) == [9]
            && var e := Notify(w.jobs[1], Normal, None);
            && Allowed(w, e) && Next(w, e).last[1].coinb2 == [9] && !Cleans(w.m, e.j, e.kind, e.build, false)
  {
    var es := FilledBetween();
    var w0 := Start(sid);
    var w1 := Next(w0, es[0]);
    var w2 := Next(w1, es[1]);
    var w3 := Next(w2, es[2]);
    assert es[1..][1..][1..] == [];
    assert Run(w0, es) == w3;
  }

  /** A notify that is quickdiff and new-block at once sends the shared half and leaves the cache alone: its shares are
      rebuilt with the bytes sent exactly when no slot holds other bytes for the job. So it reverts a personal job. */
  lemma QuickNewIff(w: World, e: Event)
    requires Inv(w) && e.Notify? && e.kind == QuickNew && Consistent(w, e)
    ensures var w', k := Next(w, e), e.j.index;
            && w'.last[k].coinb2 == e.j.shared && !w'.last[k].personal
            && (Rebuilt(w'.m, w'.jobs[k], false) == w'.last[k].coinb2
                <==> !Held(w.m, k) || (k in w.last && w.last[k].coinb2 == e.j.shared))
            && (k in w.last && w.last[k].personal ==> Held(w.m, k))
  {
    hide Recent;
  }

  lemma QuickNewExample(sid: nat)
    ensures var es := [Authorize("a"), Notify(Job(1, 1, "", 1, [9], [], true), Normal, Some([1]))];
            var e := Notify(Job(1, 1, "", 1, [9], [], true), QuickNew, None);
            && AllowedRun(Start(sid), es) && Consistent(Run(Start(sid), es), e)
            && var w := Next(Run(Start(sid), es), e);
            && 1 in w.last && 1 in w.jobs && w.last[1].coinb2 == [9] && Rebuilt(w.m, w.jobs[1], false) == [1]
  {
    var es := [Authorize("a"), Notify(Job(1, 1, "", 1, [9], [], true), Normal, Some([1]))];
    var w1 := Next(Start(sid), es[0]);
    var w2 := Next(w1, es[1]);
    assert es[1..][1..] == [];
    assert Run(Start(sid), es) == w2;
  }

  function FailedThirdBuild(): seq<Event> {
    [ Authorize("a"),
      Notify(Job(1, 1, "", 1, [9], [], true), Normal, Some([1])),
      Notify(Job(2, 2, "", 1, [9], [], true), Normal, Some([2])),
      Notify(Job(3, 3, "", 1, [9], [], true), Normal, None) ]
  }

  /** A failed build pushes the older of the two cached halves out: its shares are then rebuilt with other bytes. */
  lemma LostAfterFailedBuild(sid: nat)
    ensures var es := FailedThirdBuild(); var w := Run(Start(sid), es);
            && AllowedRun(Start(sid), es)
            && w.built == [1, 2] && 1 in w.last && 1 in w.jobs
            && w.last[1].coinb2 == [1] && Rebuilt(w.m, w.jobs[1], false) == [9]
  {
    var es := FailedThirdBuild();
    var w0 := Start(sid);
    var w1 := Next(w0, es[0]);
    var w2 := Next(w1, es[1]);
    var w3 := Next(w2, es[2]);
    var w4 := Next(w3, es[3]);
    assert es[1..][1..][1..][1..] == [];
    assert Run(w0, es) == w4;
  }

  // ---- the clean flag ----

  /** The work sent differs from the work last sent for the job, and the miner is not told to restart. */
  predicate ChangesSilently(w: World, e: Event, clean: bool)
    requires e.Notify? && e.kind != Empty && e.j.index in w.last
  {
    Next(w, e).last[e.j.index].coinb2 != w.last[e.j.index].coinb2 && !Cleans(w.m, e.j, e.kind, e.build, clean)
  }

  lemma CleanInv(w: World, e: Event, clean: bool)
    requires Inv(w) && Allowed(w, e) && e.Notify? && e.kind != Empty && e.j.index in w.last
    ensures var l := w.last[e.j.index];
            && (ChangesSilently(w, e, clean)
                <==> && e.kind == Normal && !clean
                     && !l.personal && e.j.shared != l.coinb2 && !(Eligible(w.m, e.j) && e.build.Some?))
            && (l.personal ==> Next(w, e).last[e.j.index].personal)
  {
    hide Recent;
    assert e.j.index == w.top;
  }

  /** In every run: the work sent for a job differs from what the session was last sent for it, without a restart,
      exactly in a plain notify after shared work that the filling of the job has since replaced, when no personal half
      is built. So never for a job that had been filled when it was sent; and a job that was sent a personal half is
      never sent the shared one again. */
  lemma ChangeRestarts(sid: nat, es: seq<Event>, e: Event, clean: bool)
    requires AllowedRun(Start(sid), es) && Allowed(Run(Start(sid), es), e)
    requires e.Notify? && e.kind != Empty && e.j.index in Run(Start(sid), es).last
    ensures var w := Run(Start(sid), es); var l := w.last[e.j.index];
            && (ChangesSilently(w, e, clean)
                <==> && e.kind == Normal && !clean
                     && !l.personal && e.j.shared != l.coinb2 && !(Eligible(w.m, e.j) && e.build.Some?))
            && (l.filled ==> !ChangesSilently(w, e, clean))
            && (l.personal ==> Next(w, e).last[e.j.index].personal)
  {
    hide Run, AllowedRun, Next, Cleans;
    Reachable(sid, es);
    CleanInv(Run(Start(sid), es), e, clean);
    hide ChangesSilently;
    RebuiltInv(Run(Start(sid), es), e.j.index);
    assert Run(Start(sid), es).jobs[e.j.index] == e.j;
  }

  lemma QuickInv(w: World, e: Event)
    requires Inv(w) && Allowed(w, e) && e.Notify? && e.kind == Quick && e.j.index in w.last
    requires w.last[e.j.index].eligible == Eligible(w.m, e.j)
    ensures var l, l' := w.last[e.j.index], Next(w, e).last[e.j.index];
            && l'.personal == l.personal && Next(w, e).m == w.m
            && l'.coinb2 == if l.personal then l.coinb2 else e.j.shared
  {
    hide Recent;
    assert e.j.index == w.top;
  }

  /** A quickdiff re-notify of a job whose eligibility has not changed leaves the cache alone and repeats the work last
      sent for it - always if that was personal or the job had been filled, and otherwise if and only if the filling
      has not replaced it. */
  lemma QuickRepeats(sid: nat, es: seq<Event>, e: Event)
    requires AllowedRun(Start(sid), es) && Allowed(Run(Start(sid), es), e)
    requires e.Notify? && e.kind == Quick && e.j.index in Run(Start(sid), es).last
    requires Run(Start(sid), es).last[e.j.index].eligible == Eligible(Run(Start(sid), es).m, e.j)
    ensures var w := Run(Start(sid), es); var l, l' := w.last[e.j.index], Next(w, e).last[e.j.index];
            && Next(w, e).m == w.m && l'.personal == l.personal
            && (l'.coinb2 == l.coinb2 <==> l.personal || e.j.shared == l.coinb2)
            && (l.filled ==> l'.coinb2 == l.coinb2)
  {
    hide Run, AllowedRun, Next;
    Reachable(sid, es);
    QuickInv(Run(Start(sid), es), e);
    RebuiltInv(Run(Start(sid), es), e.j.index);
    assert Run(Start(sid), es).jobs[e.j.index] == e.j;
  }

  // ---- session-tagged ids ----

  /** An id issued to one session is good in another exactly when they share the tag word; otherwise the share is stale,
      never rebuilt with the wrong extranonce. */
  lemma StaleAcrossSessions(issued: Miner, now: Miner, j: Job, kind: Kind)
    ensures Judged(now, j, Tag(issued, j, kind)) == Stale <==> issued.sid != now.sid
    ensures issued.sid == now.sid
        ==> Judged(now, j, Tag(issued, j, kind)) == Rebuild(Rebuilt(now, j, kind == Empty))
  {
    XorCancels(j.stamp, issued.sid);
    if Judged(now, j, Tag(issued, j, kind)) != Stale {
      var tag := Xor(j.stamp, issued.sid);
      assert Xor(tag, issued.sid) == Xor(tag, now.sid);
      XorInjective(tag, issued.sid, now.sid);
    }
  }

  /** In any state, the share for a notice just sent is rebuilt with the notice's own half if and only if that was
      empty work or personal, or the cache holds no other half for the job. */
  lemma ComesBackIff(m: Miner, j: Job, kind: Kind, build: Option<seq<byte>>)
    ensures var m' := Notified(m, j, kind, build);
            var sent := Sent(m', j, kind);
            && (Judged(m', j, Tag(m, j, kind)) == Rebuild(sent)
                <==> || kind == Empty
                     || (kind != QuickNew && m.username != "" && j.payouts > 0 && m'.cur.valid)
                     || sent == Rebuilt(m', j, false))
            && (kind == Empty ==> sent == j.empty)
  {
    hide Xor, Judged;
    var m' := Notified(m, j, kind, build);
    StaleAcrossSessions(m, m', j, kind);
  }

  /** An id issued for one job and looked up as another is stale if the stamps differ, unknown if only the suffixes do,
      and accepted only when the two ids agree in full. */
  lemma OtherJobRefused(m: Miner, j: Job, other: Job, kind: Kind)
    ensures var v := Judged(m, other, Tag(m, j, kind));
            && (v.Rebuild? <==> j.stamp == other.stamp && j.suffix == other.suffix)
            && (v == UnknownWork <==> j.stamp == other.stamp && j.suffix != other.suffix)
            && (v == Stale <==> j.stamp != other.stamp)
  {
    XorCancels(j.stamp, m.sid);
  }

  /** The whole path of a share, in any run: an id this session issued for a job is accepted, and the coinbase is
      rebuilt with the bytes the miner was last sent, as empty work or as other work, if and only if it was empty work,
      a half still in the cache, or the shared half as the job now has it; which it is for shared work of a job already
      filled. */
  lemma ShareMatchesWork(sid: nat, es: seq<Event>, k: nat, kind: Kind)
    requires AllowedRun(Start(sid), es)
    requires k in (if kind == Empty then Run(Start(sid), es).empties.Keys else Run(Start(sid), es).last.Keys)
    ensures var w := Run(Start(sid), es);
            && k in w.jobs
            && var v := Judged(w.m, w.jobs[k], Tag(w.m, w.jobs[k], kind));
            && v.Rebuild?
            && (kind == Empty ==> v.coinb2 == w.empties[k])
            && (kind != Empty ==>
                  var l := w.last[k];
                  && (v.coinb2 == l.coinb2 <==> (l.personal && Cached(w, k)) || w.jobs[k].shared == l.coinb2)
                  && (!l.personal && l.filled ==> w.jobs[k].shared == l.coinb2))
  {
    hide Run, AllowedRun, Judged, Cached;
    var w := Run(Start(sid), es);
    if kind == Empty {
      Reachable(sid, es);
    } else {
      RebuiltExactly(sid, es, k);
    }
    StaleAcrossSessions(w.m, w.m, w.jobs[k], kind);
  }
}
