/** The work miners are on while an upstream SV2 channel says it is LOCAL_JD: when it is the declared
  * work, and how they come to be on something else.
  */
module DeclaredWork {
  import opened Basics
  import opened ChannelRuns
  import opened ChannelSpec
  import T = TipRing

  /** No stored or staged job is deeper than a notify can carry. */
  predicate Fits(s: State) {
    && (forall i :: 0 <= i < |s.ring| ==> |s.ring[i].body.merkles| <= MAX_MERKLES)
    && (s.stage.Some? ==> |s.stage.value.job.body.merkles| <= MAX_MERKLES)
  }

  /** While the source is LOCAL_JD, the last notify is declared work for the tip it is live on. */
  predicate OnDeclaredWork(s: State) {
    s.src == LocalJd ==>
      && s.log != []
      && s.log[|s.log| - 1].notify.custom.Some?
      && s.customPrev == Some(s.log[|s.log| - 1].notify.tip)
  }

  /** The two steps that put miners on pool work and leave the source where it is. The declared job
    * was accepted on another tip than the pool's, and the pool sends an immediate job. Or the
    * declared job has been evicted from the ring by pool jobs, and a SetExtranoncePrefix, which
    * looks for it there to give LOCAL_JD up, flushes a pool job. */
  predicate LosesDeclaredWork(s: State, e: Event)
    requires Shaped(s)
  {
    s.src == LocalJd && s.prev.Some? &&
    match e
    case NewJob(j, _) => j.minNtime.Some? && |j.body.merkles| <= MAX_MERKLES && s.customPrev != Some(s.prev.value.hash)
    case NewPrefix(_, _) => !HadCustom(s) && Newest(s.ring, s.head, 0).Some?
    case _ => false
  }

  lemma EmitSends(s: State, i: nat, clean: bool, rebuilt: bool, now: int)
    requires i < |s.ring|
    ensures var job := Aimed(s.prev, s.ring[i]);
            var r := Emit(s, i, clean, rebuilt, now);
            && (Sendable(s.prev, job) ==>
                  && r.log != [] && r.log[|r.log| - 1].notify.tip == job.tip
                  && (r.log[|r.log| - 1].notify.custom.Some? <==> job.kind.Custom?))
            && (!Sendable(s.prev, job) ==> r.log == s.log)
            && (Fits(s) ==> Fits(r))
  {
  }

  lemma PlaceFits(s: State, job: Job)
    requires s.head < |s.ring| && Fits(s) && |job.body.merkles| <= MAX_MERKLES
    ensures Fits(Place(s, job)) && Place(s, job).ring[s.head] == job
  {
    hide TemplateOf;
  }

  lemma NewJobOnDeclared(s: State, j: Extended, now: int)
    requires Shaped(s) && Arbitrated(s) && Fits(s) && OnDeclaredWork(s)
    ensures var r := StepNewJob(s, j, now);
            Fits(r) && (OnDeclaredWork(r) <==> !LosesDeclaredWork(s, NewJob(j, now)))
  {
    hide Emit, Place, Coinb1, Fits;
    if |j.body.merkles| <= MAX_MERKLES {
      PlaceFits(s, Stored(s, j));
      EmitSends(Place(s, Stored(s, j)), s.head, false, false, now);
    }
  }

  lemma NewTipOnDeclared(s: State, id: nat, a: Announced, local: T.Relation, plausible: bool, now: int)
    requires Shaped(s) && Arbitrated(s) && Fits(s) && OnDeclaredWork(s)
    ensures var r := StepNewPrevHash(s, id, a, local, plausible, now); Fits(r) && OnDeclaredWork(r)
  {
    hide Emit, MoveTo, Find;
    var i := Find(s.ring, id);
    TipArbitrated(s, id, a, local, plausible, now);
    if i < |s.ring| {
      var told := s.(prev := Some(a), customPrev := None);
      var rel := if s.parent then local else T.NoLocal;
      EmitSends(MoveTo(told, SourceAfter(rel, plausible), now), i, WantClean(s.flushed, a.hash), false, now);
    }
  }

  lemma AcceptedOnDeclared(s: State, request: nat, id: nat, now: int)
    requires Shaped(s) && Arbitrated(s) && Fits(s) && OnDeclaredWork(s)
    ensures var r := StepAccepted(s, request, id, now); Fits(r) && OnDeclaredWork(r)
  {
    hide Emit, MoveTo, Place, Fits;
    if Answers(s, request) {
      var job := s.stage.value.job.(id := id);
      var unstaged := s.(stage := None, customPrev := Some(job.tip));
      assert Fits(unstaged) && |job.body.merkles| <= MAX_MERKLES by {
        StageFits(s);
      }
      PlaceFits(unstaged, job);
      EmitSends(Place(unstaged, job), s.head, WantClean(s.flushed, job.tip), false, now);
      SourceFits(Emit(Place(unstaged, job), s.head, WantClean(s.flushed, job.tip), false, now), LocalJd, now);
    }
  }

  lemma StageFits(s: State)
    requires Fits(s) && s.stage.Some?
    ensures |s.stage.value.job.body.merkles| <= MAX_MERKLES
    ensures forall prev :: Fits(s.(stage := None, customPrev := prev))
  {
  }

  lemma SourceFits(s: State, src: Source, now: int)
    ensures Fits(MoveTo(s, src, now)) <==> Fits(s)
  {
  }

  lemma {:induction false} NewestRebuilt(ring: seq<Job>, head: nat, k: nat, prefix: seq<Byte>, pad: nat)
    requires |ring| == JOBS && head < JOBS && k <= JOBS
    ensures Newest(RebuiltRing(ring, prefix, pad), head, k) == Newest(ring, head, k)
    decreases JOBS - k
  {
    hide Coinb1, SlotOfAge;
    if k < JOBS {
      AgeOfSlot(head, k);
      RebuiltMinable(ring[SlotOfAge(head, k)], prefix, pad);
      NewestRebuilt(ring, head, k + 1, prefix, pad);
    }
  }

  lemma RebuiltMinable(job: Job, prefix: seq<Byte>, pad: nat)
    ensures var r := Rebuilt(job, prefix, pad);
            (Minable(r) <==> Minable(job)) && |r.body.merkles| <= |job.body.merkles|
  {
    hide Coinb1;
  }

  lemma ReflushedSends(s: State, prefix: seq<Byte>, now: int)
    requires Shaped(s) && Fits(s)
    ensures var r := Reflushed(s, prefix, now);
            && Fits(r)
            && (s.prev.Some? && Newest(s.ring, s.head, 0).Some? ==>
                  r.log != [] && r.log[|r.log| - 1].notify.custom.None?)
            && (s.prev.None? || Newest(s.ring, s.head, 0).None? ==> r.log == s.log)
  {
    hide Newest, HeldByRing, HeldByNotifies, Rebuilt, Emit;
    var ring := RebuiltRing(s.ring, prefix, s.pad);
    forall i | 0 <= i < JOBS ensures |ring[i].body.merkles| <= MAX_MERKLES {
      RebuiltMinable(s.ring[i], prefix, s.pad);
    }
    NewestRebuilt(s.ring, s.head, 0, prefix, s.pad);
    var rebuilt := s.(prefix := prefix, ring := ring, put := s.put + HeldByRing(s.ring));
    assert Fits(rebuilt);
    var newest := Newest(ring, s.head, 0);
    if newest.Some? {
      EmitSends(rebuilt, newest.value, true, true, now);
    }
  }

  lemma PrefixOnDeclared(s: State, prefix: seq<Byte>, now: int)
    requires Shaped(s) && Arbitrated(s) && Fits(s) && OnDeclaredWork(s)
    ensures var r := StepNewPrefix(s, prefix, now);
            Fits(r) && (OnDeclaredWork(r) <==> !LosesDeclaredWork(s, NewPrefix(prefix, now)))
  {
    hide Reflushed, HadCustom, Newest;
    ReflushedSends(s, prefix, now);
  }

  lemma ReconnectOnDeclared(s: State, prefix: seq<Byte>, size: nat, pad: nat)
    requires Shaped(s)
    ensures Fits(StepReconnect(s, prefix, size, pad)) && OnDeclaredWork(StepReconnect(s, prefix, size, pad))
  {
  }

  /** A step leaves miners on the declared work that LOCAL_JD stands for if and only if it is
    * neither of those. */
  lemma DeclaredWorkIffNotLost(s: State, e: Event)
    requires Shaped(s) && Arbitrated(s) && Fits(s) && OnDeclaredWork(s)
    ensures Fits(Step(s, e))
    ensures OnDeclaredWork(Step(s, e)) <==> !LosesDeclaredWork(s, e)
  {
    hide StepNewJob, StepNewPrevHash, StepAccepted, StepNewPrefix, StepInstall, StepService, StepSolveBegins, StepSolveEnds;
    hide StepReconnect, DropStage, Fits, OnDeclaredWork, Newest, HadCustom, Kept, LetGo;
    match e
    case NewJob(j, now) => NewJobOnDeclared(s, j, now);
    case NewPrevHash(id, a, local, plausible, now) => NewTipOnDeclared(s, id, a, local, plausible, now);
    case CustomAccepted(request, id, now) => AcceptedOnDeclared(s, request, id, now);
    case NewPrefix(prefix, now) => PrefixOnDeclared(s, prefix, now);
    case Install(d, builtOn, now) => InstallOnDeclared(s, d, builtOn, now);
    case Reconnect(prefix, size, pad) => ReconnectOnDeclared(s, prefix, size, pad);
    case _ => QuietOnDeclared(s, e);
  }

  lemma InstallOnDeclared(s: State, d: Declaration, builtOn: seq<Byte>, now: int)
    requires Shaped(s) && Fits(s) && OnDeclaredWork(s)
    ensures Fits(StepInstall(s, d, builtOn, now)) && OnDeclaredWork(StepInstall(s, d, builtOn, now))
  {
    hide Coinb1, TemplateOf;
  }

  lemma QuietOnDeclared(s: State, e: Event)
    requires Shaped(s) && Arbitrated(s) && Fits(s) && OnDeclaredWork(s)
    requires e.CustomRefused? || e.Service? || e.Age? || e.SolveBegins? || e.SolveEnds?
    ensures Fits(Step(s, e)) && OnDeclaredWork(Step(s, e))
  {
    hide Kept, LetGo, FindNotify, TemplateOf, HeldByNotify, Fits, OnDeclaredWork, StepService;
    if e.Service? {
      ServiceOnDeclared(s, e.now);
    } else {
      SameWork(s, Step(s, e));
    }
  }

  lemma ServiceOnDeclared(s: State, now: int)
    requires Shaped(s) && Fits(s) && OnDeclaredWork(s)
    ensures Fits(StepService(s, now)) && OnDeclaredWork(StepService(s, now))
  {
    hide TemplateOf;
  }

  lemma SameWork(s: State, r: State)
    requires Fits(s) && OnDeclaredWork(s)
    requires r.src == s.src && r.log == s.log && r.customPrev == s.customPrev && r.ring == s.ring
    requires r.stage == s.stage || r.stage.None?
    ensures Fits(r) && OnDeclaredWork(r)
  {
  }

  predicate NeverLoses(s: State, es: seq<Event>)
    requires Shaped(s)
  {
    es == [] ||
    (NeverLoses(s, es[..|es| - 1]) && !LosesDeclaredWork(Run(s, es[..|es| - 1]), es[|es| - 1]))
  }

  /** So it is after every run without those steps, over any number of connections. */
  lemma {:induction false} DeclaredWorkOfEveryRun(parent: bool, prefix: seq<Byte>, size: nat, pad: nat, es: seq<Event>)
    requires NeverLoses(Opened(parent, prefix, size, pad), es)
    ensures var r := Run(Opened(parent, prefix, size, pad), es); Fits(r) && OnDeclaredWork(r)
  {
    hide Step, LosesDeclaredWork;
    if es != [] {
      var n := |es| - 1;
      DeclaredWorkOfEveryRun(parent, prefix, size, pad, es[..n]);
      LocalJdIffCustomPrev(parent, prefix, size, pad, es[..n]);
      DeclaredWorkIffNotLost(Run(Opened(parent, prefix, size, pad), es[..n]), es[n]);
    }
  }

  // ----- how pool jobs evict the declared one -----

  function Repeated(e: Event, n: nat): seq<Event> {
    seq(n, _ => e)
  }

  /** How many slots behind the head a slot is. */
  function Behind(head: nat, i: nat): nat
    requires head < JOBS && i < JOBS
  {
    (i + JOBS - head) % JOBS
  }

  lemma HeadMoves(head: nat, n: nat)
    requires head < JOBS && n < JOBS
    ensures ((head + n) % JOBS + 1) % JOBS == (head + n + 1) % JOBS
    ensures forall i :: 0 <= i < JOBS ==> (Behind(head, i) == n <==> i == (head + n) % JOBS)
  {
  }

  /** s after n immediate pool jobs, of which miners were not told. */
  predicate Flooded(s: State, r: State, n: nat)
    requires Shaped(s)
  {
    && Shaped(r)
    && r == s.(ring := r.ring, head := r.head, put := r.put) && r.head == (s.head + n) % JOBS
    && forall i :: 0 <= i < JOBS && Behind(s.head, i) < n ==> Minable(r.ring[i]) && |r.ring[i].body.merkles| <= MAX_MERKLES
  }

  lemma {:induction false} PoolJobsEvict(s: State, j: Extended, n: nat)
    requires Shaped(s) && CustomIsLive(s) && n <= JOBS
    requires j.minNtime.Some? && |j.body.merkles| <= MAX_MERKLES
    ensures Flooded(s, Run(s, Repeated(NewJob(j, 0), n)), n)
  {
    hide Step, Behind;
    if n > 0 {
      var es := Repeated(NewJob(j, 0), n - 1);
      PoolJobsEvict(s, j, n - 1);
      assert Repeated(NewJob(j, 0), n) == es + [NewJob(j, 0)];
      RunThen(s, es, NewJob(j, 0));
      FloodedOnce(s, Run(s, es), j, n - 1);
    }
  }

  lemma FloodedOnce(s: State, r: State, j: Extended, n: nat)
    requires Shaped(s) && CustomIsLive(s) && n < JOBS && Flooded(s, r, n)
    requires j.minNtime.Some? && |j.body.merkles| <= MAX_MERKLES
    ensures Flooded(s, Step(r, NewJob(j, 0)), n + 1)
  {
    hide Behind, Emit, TemplateOf, Coinb1;
    HeadMoves(s.head, n);
    assert CustomIsLive(Place(r, Stored(r, j)));
  }

  /** Wherever custom work is live and none is staged, as many immediate pool jobs as the ring has
    * slots and then a SetExtranoncePrefix leave miners on pool work, the source LOCAL_JD, and
    * every further pool job on that tip untold. */
  lemma EvictionStrandsMiners(s: State, j: Extended, prefix: seq<Byte>)
    requires Shaped(s) && CustomIsLive(s) && s.stage.None?
    requires j.minNtime.Some? && |j.body.merkles| <= MAX_MERKLES
    ensures var r := Run(s, Repeated(NewJob(j, 0), JOBS) + [NewPrefix(prefix, 0)]);
            && !OnDeclaredWork(r) && CustomIsLive(r)
            && Step(r, NewJob(j, 0)).log == r.log
  {
    hide Step, Behind, Coinb1;
    var flood := Repeated(NewJob(j, 0), JOBS);
    PoolJobsEvict(s, j, JOBS);
    var f := Run(s, flood);
    FloodLeaves(s, f);
    RunThen(s, flood, NewPrefix(prefix, 0));
    StrandedByPrefix(f, prefix);
    MinersStayOnCustomWork(Step(f, NewPrefix(prefix, 0)), NewJob(j, 0));
  }

  lemma FloodLeaves(s: State, f: State)
    requires Shaped(s) && Flooded(s, f, JOBS) && s.stage.None? && CustomIsLive(s)
    ensures Shaped(f) && CustomIsLive(f) && !HadCustom(f) && Fits(f)
    ensures forall i :: 0 <= i < JOBS ==> Minable(f.ring[i])
  {
  }

  lemma StrandedByPrefix(f: State, prefix: seq<Byte>)
    requires Shaped(f) && CustomIsLive(f) && !HadCustom(f) && Fits(f)
    requires forall i :: 0 <= i < JOBS ==> Minable(f.ring[i])
    ensures var r := Step(f, NewPrefix(prefix, 0)); !OnDeclaredWork(r) && CustomIsLive(r)
  {
    hide Reflushed, HadCustom, Fits, Minable, AgeOf;
    assert Minable(f.ring[SlotOfAge(f.head, 0)]);
    assert Newest(f.ring, f.head, 0).Some?;
    ReflushedSends(f, prefix, 0);
  }

  /** Custom work does get there: the pool announces tip 7, and a job declared on it is accepted. */
  lemma SomeRunIsOnDeclaredWork(prefix: seq<Byte>, size: nat, pad: nat)
    ensures exists es :: var s := Run(Opened(true, prefix, size, pad), es);
                         CustomIsLive(s) && OnDeclaredWork(s) && s.stage.None?
  {
    hide Step, Coinb1, Run, Opening, ClearedRing;
    var s := Opened(true, prefix, size, pad);
    var d := Declaration(|prefix| + size, 0, [], 7, 0, Body(0, [], []), Declared(0, [], []));
    OpeningFlushes(s, 1, 7);
    var s1 := Run(s, Opening(1, 7));
    var e0, e1 := Install(d, prefix, 0), CustomAccepted(1, 5, 0);
    RunThen(s, Opening(1, 7), e0);
    RunThen(s, Opening(1, 7) + [e0], e1);
    var es := Opening(1, 7) + [e0] + [e1];
    AcceptedIsLive(s1, d);
    assert CustomIsLive(Run(s, es)) && OnDeclaredWork(Run(s, es)) && Run(s, es).stage.None?;
  }

  lemma AcceptedIsLive(s: State, d: Declaration)
    requires Shaped(s) && s.nextRequest == 0 && s.stage.None? && s.prev.Some? && s.prev.value.hash == d.tip
    requires d.holeLen == |s.prefix| + s.size && d.body.merkles == []
    ensures var r := Step(Step(s, Install(d, s.prefix, 0)), CustomAccepted(1, 5, 0));
            CustomIsLive(r) && OnDeclaredWork(r) && r.stage.None?
  {
    hide Coinb1, TemplateOf;
  }

  // ----- a declaration that the pool's next tip overtakes -----

  function DeclaredOn(tip: Hash, prefix: seq<Byte>, size: nat): Declaration {
    Declaration(|prefix| + size, 0, [], tip, 0, Body(0, [], []), Declared(0, [], []))
  }

  /** A job is declared on tip 7, and accepted after the pool has announced tip 9. */
  function Overtaken(prefix: seq<Byte>, size: nat): seq<Event> {
    [Install(DeclaredOn(7, prefix, size), prefix, 0), NewPrevHash(1, Announced(9, 0, 0), T.Same, true, 0),
     CustomAccepted(1, 5, 0)]
  }

  /** Miners are then on the declared job, and the next immediate job of the pool, which the source is
    * no reason to hold back, takes them off it while the channel goes on saying LOCAL_JD. */
  lemma OvertakenLosesDeclaredWork(prefix: seq<Byte>, size: nat, pad: nat)
    ensures var s := Run(Opened(true, prefix, size, pad), Opening(1, 7) + Overtaken(prefix, size));
            var e := NewJob(OpeningOrder(2), 0);
            && s.src == LocalJd && OnDeclaredWork(s) && s.prev == Some(Announced(9, 0, 0)) && s.customPrev == Some(7)
            && LosesDeclaredWork(s, e)
            && var r := Step(s, e);
            && r.src == LocalJd && |r.log| == |s.log| + 1
            && r.log[|s.log|].notify.jobId == 2 && r.log[|s.log|].notify.tip == 9 && r.log[|s.log|].notify.custom.None?
  {
    hide Step, Coinb1, Run, Opening, ClearedRing;
    var s := Opened(true, prefix, size, pad);
    OpeningFlushes(s, 1, 7);
    var t := Run(s, Opening(1, 7));
    RunSum(s, Opening(1, 7), Overtaken(prefix, size));
    RunThree(t, Overtaken(prefix, size));
    var d := DeclaredOn(7, prefix, size);
    StagesIt(t, d);
    OvertakesIt(Step(t, Install(d, prefix, 0)));
    AcceptedLate(Step(Step(t, Install(d, prefix, 0)), NewPrevHash(1, Announced(9, 0, 0), T.Same, true, 0)));
    PoolJobOnItsTip(Run(t, Overtaken(prefix, size)), OpeningOrder(2));
  }

  lemma RunThree(s: State, es: seq<Event>)
    requires Shaped(s) && |es| == 3
    ensures Run(s, es) == Step(Step(Step(s, es[0]), es[1]), es[2])
  {
    hide Step;
    RunOne(s, es[0]);
    RunThen(s, [es[0]], es[1]);
    RunThen(s, [es[0]] + [es[1]], es[2]);
    assert es == [es[0]] + [es[1]] + [es[2]];
  }

  lemma StagesIt(s: State, d: Declaration)
    requires Shaped(s) && s.nextRequest == 0 && s.stage.None?
    requires d.holeLen == |s.prefix| + s.size && d.body.merkles == []
    ensures var r := Step(s, Install(d, s.prefix, 0));
            && r == s.(stage := r.stage, nextRequest := 1, taken := r.taken) && Answers(r, 1)
            && r.stage.value.job.kind.Custom? && r.stage.value.job.tip == d.tip && r.stage.value.job.body == d.body
  {
    hide Coinb1, TemplateOf;
  }

  lemma OvertakesIt(s: State)
    requires Shaped(s) && s.ring[0].kind == Upstream(false) && s.ring[0].id == 1 && s.customPrev.None? && s.src == Pool
    ensures var r := Step(s, NewPrevHash(1, Announced(9, 0, 0), T.Same, true, 0));
            Shaped(r) && r.stage == s.stage && r.prev == Some(Announced(9, 0, 0)) && r.log[..|s.log|] == s.log
  {
    hide Coinb1, TemplateOf, NotifyOf;
    assert Find(s.ring, 1) == 0;
  }

  lemma AcceptedLate(s: State)
    requires Shaped(s) && Answers(s, 1) && s.stage.value.job.tip == 7 && s.stage.value.job.body.merkles == []
    ensures var r := Step(s, CustomAccepted(1, 5, 0));
            Shaped(r) && r.src == LocalJd && OnDeclaredWork(r) && r.prev == s.prev && r.customPrev == Some(7)
  {
    hide TemplateOf;
  }

  lemma PoolJobOnItsTip(s: State, j: Extended)
    requires Shaped(s) && s.prev.Some? && s.customPrev != Some(s.prev.value.hash)
    requires j.minNtime.Some? && |j.body.merkles| <= MAX_MERKLES
    ensures var r := Step(s, NewJob(j, 0));
            && r.src == s.src && |r.log| == |s.log| + 1
            && r.log[|s.log|].notify.jobId == j.id && r.log[|s.log|].notify.tip == s.prev.value.hash
            && r.log[|s.log|].notify.custom.None?
  {
    hide Coinb1, TemplateOf;
  }
}
