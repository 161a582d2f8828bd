/** From the cache to the coinbase: what a share rebuilt with a personal half pays. */
module PersonalShares {
  import opened Bytes
  import opened Transaction
  import opened Coinbase
  import opened CoinbaseTypes
  import opened CoinbaseTheorems
  import opened Budget
  import opened Wire
  import opened PersonalHalves
  import P = PersonalProtocol

  /** What a job's number stands for: the parts of its coinbases that stay the same when its payouts are filled in. */
  datatype Work = Work(job: Job, input: seq<byte>)

  /** The same job up to its payouts. */
  predicate SameWork(j: Job, w: Work) { WfJob(j) && j.(outs := []) == w.job.(outs := []) }

  /** An answer of the service and the state of the job it is built against. */
  datatype Answer = Answer(outs: seq<Output>, scripts: Scripts, job: Job, tpl: Template, emptyOnly: bool)

  predicate Sound(a: Answer) {
    && |a.outs| <= MAX_OUTPUTS && WfScripts(a.scripts)
    && (forall i :: 0 <= i < |a.outs| ==> IsInt64(a.outs[i].amount))
    && Total(Payable(a.outs, a.scripts)) < U64
  }

  /** `bin` is the personal half the gateway builds for the work from the answer. */
  ghost predicate BuiltFrom(w: Work, a: Answer, bin: seq<byte>) {
    && Sound(a) && SameWork(a.job, w)
    && PersonalFor(a.job, a.outs, a.scripts, Generated(0, a.job, w.input, a.tpl, a.emptyOnly).1) == Some(bin)
  }

  ghost predicate BuiltFor(w: Work, bin: seq<byte>) { exists a :: BuiltFrom(w, a, bin) }

  /** Every half that was built in the run was built by the gateway for the job at hand, from some answer. */
  ghost predicate BuiltByGateway(works: map<nat, Work>, es: seq<P.Event>) {
    forall e :: e in es && e.Notify? && e.build.Some? ==>
      e.j.index in works && BuiltFor(works[e.j.index], e.build.value)
  }

  ghost predicate SlotBuilt(works: map<nat, Work>, s: P.Slot) {
    s.valid ==> s.job in works && BuiltFor(works[s.job], s.bin)
  }

  ghost predicate SlotsBuilt(works: map<nat, Work>, w: P.World) {
    SlotBuilt(works, w.m.cur) && SlotBuilt(works, w.m.prev)
  }

  lemma {:induction false} SlotsStayBuilt(works: map<nat, Work>, w: P.World, es: seq<P.Event>)
    requires SlotsBuilt(works, w) && P.AllowedRun(w, es) && BuiltByGateway(works, es)
    ensures SlotsBuilt(works, P.Run(w, es))
    decreases |es|
  {
    hide BuiltFor, P.Allowed, P.Eligible;
    if es != [] {
      var e := es[0];
      assert e in es && forall x :: x in es[1..] ==> x in es;
      assert SlotsBuilt(works, P.Next(w, e));
      hide SlotsBuilt, P.Next;
      SlotsStayBuilt(works, P.Next(w, e), es[1..]);
    }
  }

  // ---- what such a half pays ----

  /** The outputs a coinbase ends up with when the gateway's answer is `a`. */
  function AnswerOuts(w: Work, a: Answer): seq<TxOut> { PersonalOuts(w.job, Payable(a.outs, a.scripts)) }

  lemma HalfOfWork(w: Work, a: Answer, bin: seq<byte>)
    requires BuiltFrom(w, a, bin) && Roomy(w.input)
    ensures bin == PersonalHalf(w.job, Payable(a.outs, a.scripts), true)
    ensures Wrapped(Payable(a.outs, a.scripts)) <= w.job.value
  {
    hide Generated, Payable, Wrapped, WfJob, CountInSecond, EncOuts;
    DetectedIff(a.job, w.input, a.tpl, a.emptyOnly);
  }

  /** The first half of any type but 2, generated for the job with whatever payouts and template, and a personal half
      built for the job: together they decode, with nothing left over, as a coinbase that pays the answered outputs in
      order and exactly the coinbase value. */
  lemma HalfPays(w: Work, a: Answer, bin: seq<byte>, t: nat, j: Job, tpl: Template, emptyOnly: bool,
                 extranonce: seq<byte>)
    requires BuiltFrom(w, a, bin) && SameWork(j, w)
    requires Roomy(w.input) && t < TYPES && t != 2 && |extranonce| == 12
    ensures var script := w.input + ([0x0E] + Prefix(j.enprefix) + extranonce);
            && Reads(Generated(t, j, w.input, tpl, emptyOnly).0, extranonce, bin, CoinbaseTx(script, AnswerOuts(w, a)))
            && Total(AnswerOuts(w, a)) == j.value
            && Payable(a.outs, a.scripts) <= AnswerOuts(w, a)
  {
    hide Generated, Payable, Wrapped, WfJob, PersonalHalf, Reads, Prefix, Total, TailOuts, BuiltFrom;
    HalfOfWork(w, a, bin);
    var payable := Payable(a.outs, a.scripts);
    SoundPayable(w, a, bin);
    SameParts(w, j, payable);
    PersonalReads(t, j, w.input, tpl, emptyOnly, payable, extranonce);
    PersonalConserves(w.job, payable);
  }

  lemma SoundPayable(w: Work, a: Answer, bin: seq<byte>)
    requires BuiltFrom(w, a, bin)
    ensures var payable := Payable(a.outs, a.scripts);
            |payable| <= MAX_OUTPUTS && Total(payable) < U64 && forall o :: o in payable ==> WfPayout(o)
  {
    hide PersonalFor, Generated, Total;
    PayableFine(a.outs, a.scripts);
  }

  lemma SameParts(w: Work, j: Job, payable: seq<TxOut>)
    requires SameWork(j, w)
    ensures WfJob(j) && j.value == w.job.value
    ensures PersonalHalf(j, payable, true) == PersonalHalf(w.job, payable, true)
    ensures PersonalOuts(j, payable) == PersonalOuts(w.job, payable)
  {
    hide EncOuts, Wrapped;
    TailSame(w, j, Wrapped(payable));
  }

  lemma TailSame(w: Work, j: Job, paid: nat)
    requires SameWork(j, w)
    ensures TailOuts(j, paid) == TailOuts(w.job, paid) && Tail(j, paid) == Tail(w.job, paid)
  {
    hide EncOuts;
  }

  /** In every allowed run whose personal halves the gateway built: a share for a job whose half is cached is accepted,
      and whatever type but 2 the miner has, and however the job was filled since, the rebuilt coinbase decodes and pays
      what the service answered, in order, and exactly the coinbase value. */
  lemma SharePays(sid: nat, es: seq<P.Event>, works: map<nat, Work>, k: nat, kind: P.Kind,
                  t: nat, j: Job, tpl: Template, emptyOnly: bool, extranonce: seq<byte>)
    requires P.AllowedRun(P.Start(sid), es) && BuiltByGateway(works, es) && kind != P.Empty
    requires var w := P.Run(P.Start(sid), es); k in w.last && w.last[k].personal && P.Cached(w, k)
    requires k in works && SameWork(j, works[k])
    requires Roomy(works[k].input) && t < TYPES && t != 2 && |extranonce| == 12
    ensures var w := P.Run(P.Start(sid), es);
            && k in w.jobs
            && var v := P.Judged(w.m, w.jobs[k], P.Tag(w.m, w.jobs[k], kind));
            && v.Rebuild? && v.coinb2 == w.last[k].coinb2
            && exists a ::
                 && BuiltFrom(works[k], a, v.coinb2)
                 && Reads(Generated(t, j, works[k].input, tpl, emptyOnly).0, extranonce, v.coinb2,
                          CoinbaseTx(works[k].input + ([0x0E] + Prefix(j.enprefix) + extranonce),
                                     AnswerOuts(works[k], a)))
                 && Payable(a.outs, a.scripts) <= AnswerOuts(works[k], a)
                 && Total(AnswerOuts(works[k], a)) == j.value
  {
    hide P.Run, P.AllowedRun, P.Judged, Generated, Reads, Payable, AnswerOuts, Total, WfJob, Prefix, BuiltFrom;
    P.ShareMatchesWork(sid, es, k, kind);
    var w := P.Run(P.Start(sid), es);
    assert SlotsBuilt(works, P.Start(sid));
    SlotsStayBuilt(works, P.Start(sid), es);
    CachedSlot(sid, es, k);
    hide P.Cached, SameWork;
    var bin := w.last[k].coinb2;
    assert BuiltFor(works[k], bin);
    var a :| BuiltFrom(works[k], a, bin);
    HalfPays(works[k], a, bin, t, j, tpl, emptyOnly, extranonce);
  }

  lemma CachedSlot(sid: nat, es: seq<P.Event>, k: nat)
    requires P.AllowedRun(P.Start(sid), es)
    requires var w := P.Run(P.Start(sid), es); k in w.last && P.Cached(w, k)
    ensures var w := P.Run(P.Start(sid), es); var bin := w.last[k].coinb2;
            (w.m.cur.valid && w.m.cur.job == k && w.m.cur.bin == bin)
            || (w.m.prev.valid && w.m.prev.job == k && w.m.prev.bin == bin)
  {
    hide P.Run, P.AllowedRun;
    P.Reachable(sid, es);
  }
}
