/** What every run of an upstream SV2 channel keeps: the arbiter of work sources, and one flush a
  * tip. A run goes on over reconnects.
  */
module ChannelRuns {
  import opened Basics
  import opened ChannelSpec
  import T = TipRing

  function Run(s: State, es: seq<Event>): (r: State)
    requires Shaped(s)
    ensures Shaped(r)
  {
    if es == [] then s
    else Step(Run(s, es[..|es| - 1]), es[|es| - 1])
  }

  // ----- the work source -----

  predicate Arbitrated(s: State) {
    s.src == LocalJd <==> s.customPrev.Some?
  }

  lemma ArbitratedKept(s: State, e: Event)
    requires Shaped(s) && Arbitrated(s)
    ensures Arbitrated(Step(s, e))
  {
    hide StepNewPrevHash, StepAccepted, StepNewPrefix;
    hide Emit, Place, MoveTo, DropStage, Find, Kept, LetGo, FindNotify, Stored, Build;
    match e
    case NewPrevHash(id, a, local, plausible, now) => TipArbitrated(s, id, a, local, plausible, now);
    case CustomAccepted(request, id, now) => AcceptedArbitrated(s, request, id, now);
    case NewPrefix(prefix, now) => PrefixArbitrated(s, prefix, now);
    case _ =>
  }

  lemma TipArbitrated(s: State, id: nat, a: Announced, local: T.Relation, plausible: bool, now: int)
    requires Shaped(s) && Arbitrated(s)
    ensures Arbitrated(StepNewPrevHash(s, id, a, local, plausible, now))
  {
    hide Emit, MoveTo, Find;
  }

  lemma AcceptedArbitrated(s: State, request: nat, id: nat, now: int)
    requires Shaped(s) && Arbitrated(s)
    ensures Arbitrated(StepAccepted(s, request, id, now))
  {
    hide Emit, MoveTo, Place;
  }

  lemma PrefixArbitrated(s: State, prefix: seq<Byte>, now: int)
    requires Shaped(s) && Arbitrated(s)
    ensures Arbitrated(StepNewPrefix(s, prefix, now))
  {
    hide Reflushed, MoveTo, DropStage, HadCustom;
  }

  /** In every reachable state the work source is LOCAL_JD exactly while custom work is live. */
  lemma {:induction false} LocalJdIffCustomPrev(parent: bool, prefix: seq<Byte>, size: nat, pad: nat, es: seq<Event>)
    ensures Arbitrated(Run(Opened(parent, prefix, size, pad), es))
  {
    if es != [] {
      LocalJdIffCustomPrev(parent, prefix, size, pad, es[..|es| - 1]);
      ArbitratedKept(Run(Opened(parent, prefix, size, pad), es[..|es| - 1]), es[|es| - 1]);
    }
  }

  /** While custom work is live on the pool's own tip, only an accepted request for more custom
    * work, or a new extranonce prefix, sends miners anything. */
  lemma MinersStayOnCustomWork(s: State, e: Event)
    requires Shaped(s) && CustomIsLive(s)
    requires e.NewPrevHash? ==> e.announced.hash == s.prev.value.hash
    ensures Step(s, e).log != s.log ==> e.CustomAccepted? || e.NewPrefix?
    ensures !e.NewPrefix? && !e.Reconnect? ==> CustomIsLive(Step(s, e)) || e.CustomAccepted?
  {
    hide Emit, Place, MoveTo, DropStage, Reflushed, Find, HeldByRing, Kept, LetGo, FindNotify, Stored, HadCustom;
  }

  /** A new pool tip moves the source to BRIDGE exactly when it is plausible, our node has a chain,
    * and none of its last eight tips is the pool's. */
  lemma BridgeIffPoolLeads(s: State, id: nat, a: Announced, history: seq<T.Tip<Hash>>, plausible: bool, now: int)
    requires Shaped(s) && s.parent && Find(s.ring, id) < |s.ring| && s.customPrev != Some(a.hash)
    ensures var r := StepNewPrevHash(s, id, a, T.RelationTo(T.LastEight(history), a.hash), plausible, now);
            (r.src == Bridge <==>
             plausible && history != [] && forall t :: t in T.LastEight(history) ==> t.hash != a.hash)
  {
    hide Emit, Find;
    var recent := T.LastEight(history);
    if recent != [] {
      assert recent[|recent| - 1] in recent;
    }
  }

  // ----- one flush a tip -----

  /** The tip miners were last flushed for, by this connection or one before it. */
  function LastClean(log: seq<Sent>): Option<Hash> {
    if log == [] then None
    else if log[|log| - 1].notify.clean then Some(log[|log| - 1].notify.tip)
    else LastClean(log[..|log| - 1])
  }

  /** No clean notify carries the tip of the clean notify before it, unless a SetExtranoncePrefix
    * sent it. */
  predicate FlushesOnce(log: seq<Sent>) {
    log == [] ||
    var last := log[|log| - 1];
    && FlushesOnce(log[..|log| - 1])
    && (last.notify.clean && !last.rebuilt ==> LastClean(log[..|log| - 1]) != Some(last.notify.tip))
  }

  /** The channel's own record is of the last flush, once the connection has flushed at all. */
  predicate Recorded(s: State) {
    s.flushed.Some? ==> s.flushed == LastClean(s.log)
  }

  /** A new connection has no record of its own and comes to the tip miners were flushed for last. */
  predicate Forgotten(s: State, tip: Hash) {
    s.flushed.None? && LastClean(s.log) == Some(tip)
  }

  /** The cases the code misses. A connection that has yet to flush anything flushes the tip that
    * the one before it flushed last. And a SetNewPrevHash may name a custom job of the ring: whether
    * to flush is decided on the tip announced, and the notify carries the tip of the job. */
  predicate RepeatsTip(s: State, e: Event) {
    match e
    case NewPrevHash(id, a, _, _, _) =>
      var i := Find(s.ring, id);
      && s.customPrev != Some(a.hash)
      && i < |s.ring| && |s.ring[i].body.merkles| <= MAX_MERKLES
      && (if s.ring[i].kind.Custom?
          then s.flushed != Some(a.hash) && LastClean(s.log) == Some(s.ring[i].tip)
          else Forgotten(s, a.hash))
    case CustomAccepted(request, _, _) =>
      && Answers(s, request) && |s.stage.value.job.body.merkles| <= MAX_MERKLES
      && Forgotten(s, s.stage.value.job.tip)
    case _ => false
  }

  lemma EmitFlushes(s: State, i: nat, clean: bool, rebuilt: bool, now: int)
    requires i < |s.ring| && Recorded(s)
    ensures var job := Aimed(s.prev, s.ring[i]);
            var r := Emit(s, i, clean, rebuilt, now);
            && Recorded(r)
            && (s.flushed == LastClean(s.log) ==> r.flushed == LastClean(r.log))
            && (FlushesOnce(r.log) <==>
                FlushesOnce(s.log) && !(Sendable(s.prev, job) && clean && !rebuilt && LastClean(s.log) == Some(job.tip)))
  {
    hide HeldByRing, HeldByNotifies;
    var r := Emit(s, i, clean, rebuilt, now);
    if Sendable(s.prev, Aimed(s.prev, s.ring[i])) {
      assert r.log[..|r.log| - 1] == s.log;
    }
  }

  /** One tip is flushed once, in every step but exactly those. */
  lemma FlushesOnceIffNotRepeated(s: State, e: Event)
    requires Shaped(s) && Recorded(s)
    ensures Recorded(Step(s, e))
    ensures FlushesOnce(Step(s, e).log) <==> FlushesOnce(s.log) && !RepeatsTip(s, e)
    ensures s.flushed == LastClean(s.log) && !e.Reconnect? ==> Step(s, e).flushed == LastClean(Step(s, e).log)
  {
    hide StepNewJob, StepNewPrevHash, StepAccepted, StepNewPrefix, Find, FlushesOnce, LastClean;
    match e
    case NewJob(j, now) => NewJobFlushes(s, j, now);
    case NewPrevHash(id, a, local, plausible, now) => NewTipFlushes(s, id, a, local, plausible, now);
    case CustomAccepted(request, id, now) => AcceptedFlushes(s, request, id, now);
    case NewPrefix(prefix, now) => PrefixFlushes(s, prefix, now);
    case _ => QuietFlushes(s, e);
  }

  lemma QuietFlushes(s: State, e: Event)
    requires Shaped(s)
    requires !e.NewJob? && !e.NewPrevHash? && !e.CustomAccepted? && !e.NewPrefix?
    ensures Step(s, e).log == s.log && (!e.Reconnect? ==> Step(s, e).flushed == s.flushed)
    ensures e.Reconnect? ==> Step(s, e).flushed.None?
  {
    hide StepNewJob, StepNewPrevHash, StepAccepted, StepNewPrefix;
    hide MoveTo, DropStage, HeldByRing, Kept, LetGo, FindNotify, Build;
  }

  /** r is s with at most another record of flushes, which repeats a tip exactly if told so. */
  predicate FlushedOn(s: State, r: State, repeats: bool) {
    && Recorded(r)
    && (FlushesOnce(r.log) <==> FlushesOnce(s.log) && !repeats)
    && (s.flushed == LastClean(s.log) ==> r.flushed == LastClean(r.log))
  }

  lemma NewJobFlushes(s: State, j: Extended, now: int)
    requires Shaped(s) && Recorded(s)
    ensures FlushedOn(s, StepNewJob(s, j, now), false)
  {
    hide Emit, Place, Stored, FlushesOnce, LastClean;
    EmitFlushes(Place(s, Stored(s, j)), s.head, false, false, now);
  }

  lemma NewTipFlushes(s: State, id: nat, a: Announced, local: T.Relation, plausible: bool, now: int)
    requires Shaped(s) && Recorded(s)
    ensures FlushedOn(s, StepNewPrevHash(s, id, a, local, plausible, now),
                      RepeatsTip(s, NewPrevHash(id, a, local, plausible, now)))
  {
    hide Emit, MoveTo, Find, FlushesOnce, LastClean;
    var i := Find(s.ring, id);
    if i < |s.ring| {
      NamedJob(s.ring, id);
      var told := s.(prev := Some(a), customPrev := None);
      var rel := if s.parent then local else T.NoLocal;
      EmitFlushes(MoveTo(told, SourceAfter(rel, plausible), now), i, WantClean(s.flushed, a.hash), false, now);
    }
  }

  lemma AcceptedFlushes(s: State, request: nat, id: nat, now: int)
    requires Shaped(s) && Recorded(s)
    ensures FlushedOn(s, StepAccepted(s, request, id, now), RepeatsTip(s, CustomAccepted(request, id, now)))
  {
    hide Emit, MoveTo, Place, FlushesOnce, LastClean;
    if Answers(s, request) {
      var job := s.stage.value.job.(id := id);
      var placed := Place(s.(stage := None, customPrev := Some(job.tip)), job);
      EmitFlushes(placed, s.head, WantClean(s.flushed, job.tip), false, now);
    }
  }

  lemma NothingSent()
    ensures LastClean([]) == None && FlushesOnce([])
  {
  }

  lemma NamedJob(ring: seq<Job>, id: nat)
    requires Find(ring, id) < |ring|
    ensures !ring[Find(ring, id)].kind.Cleared?
  {
  }

  lemma ReflushedFlushes(s: State, prefix: seq<Byte>, now: int)
    requires Shaped(s) && Recorded(s)
    ensures FlushedOn(s, Reflushed(s, prefix, now), false)
  {
    hide Newest, HeldByRing, HeldByNotifies, FlushesOnce, LastClean, RebuiltRing, Rebuilt, Emit;
    var ring := RebuiltRing(s.ring, prefix, s.pad);
    var rebuilt := s.(prefix := prefix, ring := ring, put := s.put + HeldByRing(s.ring));
    var newest := Newest(ring, s.head, 0);
    if newest.Some? {
      EmitFlushes(rebuilt, newest.value, true, true, now);
    }
  }

  lemma PrefixFlushes(s: State, prefix: seq<Byte>, now: int)
    requires Shaped(s) && Recorded(s)
    ensures FlushedOn(s, StepNewPrefix(s, prefix, now), false)
  {
    hide Reflushed, MoveTo, DropStage, HadCustom, FlushesOnce, LastClean;
    ReflushedFlushes(s, prefix, now);
  }

  predicate NeverRepeats(s: State, es: seq<Event>)
    requires Shaped(s)
  {
    es == [] ||
    (NeverRepeats(s, es[..|es| - 1]) && !RepeatsTip(Run(s, es[..|es| - 1]), es[|es| - 1]))
  }

  /** Over every run, whatever its sources and however often it reconnects, one tip is flushed once
    * exactly if none of those steps is taken. */
  lemma {:induction false} OneFlushATip(parent: bool, prefix: seq<Byte>, size: nat, pad: nat, es: seq<Event>)
    ensures var s := Opened(parent, prefix, size, pad);
            Recorded(Run(s, es)) && (FlushesOnce(Run(s, es).log) <==> NeverRepeats(s, es))
  {
    hide Step, RepeatsTip, Recorded, FlushesOnce;
    var s := Opened(parent, prefix, size, pad);
    if es == [] {
      OpenedFlushes(s);
    } else {
      var n := |es| - 1;
      OneFlushATip(parent, prefix, size, pad, es[..n]);
      FlushesOnceIffNotRepeated(Run(s, es[..n]), es[n]);
    }
  }

  lemma OpenedFlushes(s: State)
    requires s == Opened(s.parent, s.prefix, s.size, s.pad)
    ensures Recorded(s) && FlushesOnce(s.log) && NeverRepeats(s, [])
    ensures s.flushed == LastClean(s.log)
  {
  }

  predicate NamesPoolJob(s: State, e: Event) {
    e.NewPrevHash? && Find(s.ring, e.id) < |s.ring| ==> s.ring[Find(s.ring, e.id)].kind.Upstream?
  }

  predicate NamesPoolJobs(s: State, es: seq<Event>)
    requires Shaped(s)
  {
    es == [] ||
    (NamesPoolJobs(s, es[..|es| - 1]) && NamesPoolJob(Run(s, es[..|es| - 1]), es[|es| - 1]))
  }

  /** So one connection flushes a tip once, if the pool's SetNewPrevHash name the pool's own jobs. */
  lemma {:induction false} OneConnectionFlushesOnce(parent: bool, prefix: seq<Byte>, size: nat, pad: nat, es: seq<Event>)
    requires NamesPoolJobs(Opened(parent, prefix, size, pad), es) && forall e: Event :: e in es ==> !e.Reconnect?
    ensures var r := Run(Opened(parent, prefix, size, pad), es);
            FlushesOnce(r.log) && r.flushed == LastClean(r.log)
  {
    hide Step, Find, FlushesOnce, LastClean;
    var s := Opened(parent, prefix, size, pad);
    OpenedFlushes(s);
    if es != [] {
      var n := |es| - 1;
      OneConnectionFlushesOnce(parent, prefix, size, pad, es[..n]);
      FlushesOnceIffNotRepeated(Run(s, es[..n]), es[n]);
    }
  }

  lemma RunThen(s: State, es: seq<Event>, e: Event)
    requires Shaped(s)
    ensures Run(s, es + [e]) == Step(Run(s, es), e)
  {
    hide Step;
    assert (es + [e])[..|es|] == es;
  }

  lemma RunOne(s: State, e: Event)
    requires Shaped(s)
    ensures Run(s, [e]) == Step(s, e)
  {
    hide Step;
    RunThen(s, [], e);
    assert [] + [e] == [e];
  }

  lemma {:induction false} RunSum(s: State, a: seq<Event>, b: seq<Event>)
    requires Shaped(s)
    ensures Run(s, a + b) == Run(Run(s, a), b)
    decreases |b|
  {
    hide Step;
    if b == [] {
      assert a + b == a;
    } else {
      var n := |b| - 1;
      RunSum(s, a, b[..n]);
      assert (a + b)[..|a| + n] == a + b[..n];
    }
  }

  lemma AcceptedFlushesItsTip(s: State, request: nat, id: nat, now: int)
    requires Shaped(s) && Answers(s, request) && s.flushed.None?
    requires |s.stage.value.job.body.merkles| <= MAX_MERKLES
    ensures var r := StepAccepted(s, request, id, now);
            && r.flushed == r.customPrev == Some(s.stage.value.job.tip)
            && r.ring[s.head] == s.stage.value.job.(id := id)
  {
    hide TemplateOf, NotifyOf;
  }

  /** It can happen: a custom job is accepted on tip 7 and flushed, and the pool then announces
    * tip 9 under the custom job's id. The second clean notify flushes tip 7 again. */
  lemma SomeRunRepeatsATip(prefix: seq<Byte>, size: nat, pad: nat)
    ensures exists es :: !FlushesOnce(Run(Opened(true, prefix, size, pad), es).log) && forall e: Event :: e in es ==> !e.Reconnect?
  {
    hide FlushesOnce, LastClean, Coinb1, StepAccepted, StepNewPrevHash;
    var s := Opened(true, prefix, size, pad);
    var d := Declaration(|prefix| + size, 0, [], 7, 0, Body(0, [], []), Declared(0, [], []));
    var e0, e1, e2 := Install(d, prefix, 0), CustomAccepted(1, 5, 0), NewPrevHash(5, Announced(9, 0, 0), T.Same, true, 0);
    var s1 := StepInstall(s, d, prefix, 0);
    AcceptedFlushesItsTip(s1, 1, 5, 0);
    NothingSent();
    AcceptedFlushes(s1, 1, 5, 0);
    NewTipFlushes(StepAccepted(s1, 1, 5, 0), 5, Announced(9, 0, 0), T.Same, true, 0);
    RunThen(s, [], e0);
    RunThen(s, [] + [e0], e1);
    RunThen(s, [] + [e0] + [e1], e2);
    assert !FlushesOnce(Run(s, [] + [e0] + [e1] + [e2]).log);
  }

  function OpeningOrder(id: nat): Extended {
    Extended(id, Some(0), [], Body(0, [], []))
  }

  /** A pool's opening moves: an immediate job, and the tip it is on. */
  function Opening(id: nat, tip: Hash): seq<Event> {
    [NewJob(OpeningOrder(id), 0), NewPrevHash(id, Announced(tip, 0, 0), T.Same, true, 0)]
  }

  predicate OpeningSent(s: State, x: Sent, tip: Hash) {
    && x.prefix == s.prefix && x.pad == s.pad && !x.rebuilt
    && x.notify.id == s.nextNotify && x.notify.clean && x.notify.tip == tip && x.notify.custom.None?
  }

  predicate Fresh(s: State) {
    s == Opened(s.parent, s.prefix, s.size, s.pad).(live := s.live, nextNotify := s.nextNotify, solving := s.solving,
                                                    log := s.log, taken := s.taken, put := s.put)
  }

  function OpeningJob(s: State, id: nat): Job {
    Job(Upstream(false), id, 0, 0, Coinb1([], s.prefix, s.pad), 0, 0, Body(0, [], []))
  }

  lemma OpeningStores(s: State, id: nat, tip: Hash)
    requires Fresh(s)
    ensures Step(s, Opening(id, tip)[0]) == s.(ring := ClearedRing()[0 := OpeningJob(s, id)], head := 1)
    ensures Find(s.ring, id) == JOBS
  {
    hide Coinb1;
    FindNone(s.ring, id);
    assert s.put + multiset{} == s.put;
  }

  lemma {:induction false} FindNone(ring: seq<Job>, id: nat)
    requires forall i :: 0 <= i < |ring| ==> ring[i].kind.Cleared?
    ensures Find(ring, id) == |ring|
  {
    if ring != [] {
      FindNone(ring[1..], id);
    }
  }

  lemma OpeningAnnounces(s: State, job: Job, tip: Hash)
    requires Shaped(s) && s.ring[0] == job && job.kind == Upstream(false) && job.body.merkles == []
    requires s.src == Pool && s.customPrev.None? && s.flushed.None?
    ensures var r := Step(s, Opening(job.id, tip)[1]);
            && r == s.(ring := s.ring[0 := job.(tip := tip, nbits := 0)], prev := Some(Announced(tip, 0, 0)), live := r.live,
                       nextNotify := s.nextNotify + 1, log := r.log, flushed := Some(tip))
            && |r.log| == |s.log| + 1 && r.log[..|s.log|] == s.log && r.live == s.live + [r.log[|s.log|].notify]
            && OpeningSent(s, r.log[|s.log|], tip) && r.log[|s.log|].notify.jobId == job.id
  {
    assert Find(s.ring, job.id) == 0;
  }

  /** They flush the tip, and leave the job in the ring. */
  lemma OpeningFlushes(s: State, id: nat, tip: Hash)
    requires Fresh(s)
    ensures var r := Run(s, Opening(id, tip));
            && r == s.(ring := ClearedRing()[0 := OpeningJob(s, id).(tip := tip)], head := 1,
                       prev := Some(Announced(tip, 0, 0)), live := r.live,
                       nextNotify := s.nextNotify + 1, log := r.log, flushed := Some(tip))
            && |r.log| == |s.log| + 1 && r.log[..|s.log|] == s.log && r.live == s.live + [r.log[|s.log|].notify]
            && OpeningSent(s, r.log[|s.log|], tip) && r.log[|s.log|].notify.jobId == id
  {
    hide Step, Coinb1, Fresh, ClearedRing;
    FreshIs(s);
    OpeningSteps(s, id, tip);
    OpeningStores(s, id, tip);
    OpeningAnnounces(Step(s, Opening(id, tip)[0]), OpeningJob(s, id), tip);
  }

  lemma OpeningSteps(s: State, id: nat, tip: Hash)
    requires Shaped(s)
    ensures var es := Opening(id, tip);
            Run(s, es[..1]) == Step(s, es[0]) && Run(s, es) == Step(Step(s, es[0]), es[1])
  {
    hide Step;
    var es := Opening(id, tip);
    RunOne(s, es[0]);
    RunThen(s, [es[0]], es[1]);
    assert [es[0]] + [es[1]] == es && es[..1] == [es[0]];
  }

  lemma FreshIs(s: State)
    requires Fresh(s)
    ensures Shaped(s) && s.ring == ClearedRing() && s.src == Pool && s.customPrev.None? && s.flushed.None?
  {
  }

  lemma OpeningNames(s: State, id: nat, tip: Hash)
    requires Fresh(s)
    ensures NamesPoolJob(s, Opening(id, tip)[0]) && NamesPoolJob(Run(s, Opening(id, tip)[..1]), Opening(id, tip)[1])
  {
    hide Step, Coinb1;
    OpeningSteps(s, id, tip);
    OpeningStores(s, id, tip);
    assert Find(Step(s, Opening(id, tip)[0]).ring, id) == 0;
  }

  lemma NamesSum(s: State, es: seq<Event>, a: Event, b: Event)
    requires Shaped(s) && NamesPoolJobs(s, es)
    requires NamesPoolJob(Run(s, es), a) && NamesPoolJob(Run(Run(s, es), [a]), b)
    ensures NamesPoolJobs(s, es + [a, b])
  {
    hide Step, NamesPoolJob;
    RunOne(Run(s, es), a);
    RunThen(s, es, a);
    assert (es + [a, b])[..|es| + 1] == es + [a];
    assert (es + [a])[..|es|] == es;
  }

  /** The other case is as real: the pool drops the connection and opens the next on the same tip. */
  lemma ReconnectRepeatsATip(prefix: seq<Byte>, size: nat, pad: nat)
    ensures exists es :: !FlushesOnce(Run(Opened(true, prefix, size, pad), es).log)
                      && NamesPoolJobs(Opened(true, prefix, size, pad), es)
  {
    hide FlushesOnce, LastClean, Step, Coinb1, NamesPoolJob, NamesPoolJobs, Run, Opening, ClearedRing, Fresh;
    var s := Opened(true, prefix, size, pad);
    var a, e := Opening(1, 5), Reconnect(prefix, size, pad);
    assert NamesPoolJobs(s, []) && Run(s, []) == s && Fresh(s) by {
      NothingRun(s);
    }
    OpeningFlushes(s, 1, 5);
    OpeningNames(s, 1, 5);
    var s1 := Run(s, a);
    NamesOpening(s, [], a);
    RunThen(s, a, e);
    NamesReconnect(s, a, e);
    ReopenedIs(s1, prefix, size, pad);
    var s2 := Run(s, a + [e]);
    OpeningFlushes(s2, 1, 5);
    OpeningNames(s2, 1, 5);
    RunSum(s, a + [e], a);
    NamesOpening(s, a + [e], a);
    TwoFlushes(s, s2, s1.log, Run(s, a + [e] + a).log, 5);
  }

  lemma NothingRun(s: State)
    requires s == Opened(s.parent, s.prefix, s.size, s.pad)
    ensures Shaped(s) && Run(s, []) == s && NamesPoolJobs(s, []) && Fresh(s)
  {
  }

  lemma NamesOpening(s: State, es: seq<Event>, a: seq<Event>)
    requires Shaped(s) && NamesPoolJobs(s, es) && a == Opening(1, 5)
    requires NamesPoolJob(Run(s, es), a[0]) && NamesPoolJob(Run(Run(s, es), a[..1]), a[1])
    ensures NamesPoolJobs(s, es + a)
    ensures es == [] ==> es + a == a
  {
    hide Step, NamesPoolJob, NamesPoolJobs, Run;
    assert a[..1] == [a[0]] && a == [a[0], a[1]];
    NamesSum(s, es, a[0], a[1]);
  }

  lemma NamesReconnect(s: State, es: seq<Event>, e: Event)
    requires Shaped(s) && NamesPoolJobs(s, es) && e.Reconnect?
    ensures NamesPoolJobs(s, es + [e])
  {
    hide Step;
    assert (es + [e])[..|es|] == es;
  }

  lemma ReopenedIs(s: State, prefix: seq<Byte>, size: nat, pad: nat)
    requires Shaped(s)
    ensures var r := Step(s, Reconnect(prefix, size, pad));
            && Fresh(r) && r.log == s.log && r.live == s.live && r.prefix == prefix && r.size == size && r.pad == pad
  {
  }

  lemma TwoFlushes(s: State, t: State, one: seq<Sent>, two: seq<Sent>, tip: Hash)
    requires |two| == |one| + 1 && two[..|one|] == one
    requires one != [] && OpeningSent(s, one[|one| - 1], tip) && OpeningSent(t, two[|one|], tip)
    ensures !FlushesOnce(two)
  {
  }
}
