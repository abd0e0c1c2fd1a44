/** The layout of every coinbase of an upstream SV2 channel: each job the ring or the stage holds,
  * and each notify, is the coinbase the pool or our declaration gave, closed with an extranonce
  * prefix and a pad. So a share is rebuilt as it was hashed exactly while the pad is the same.
  */
module ChannelLayout {
  import opened Basics
  import opened ChannelRuns
  import opened ChannelSpec
  import T = TipRing

  /** Where a job comes from: a NewExtendedMiningJob of the pool, or a declaration of ours. */
  datatype Order = FromPool(job: Extended) | FromUs(declaration: Declaration)

  function BaseOf(o: Order): seq<Byte> {
    match o
    case FromPool(j) => j.base
    case FromUs(d) => d.base
  }

  function BodyOf(o: Order): Body {
    match o
    case FromPool(j) => j.body
    case FromUs(d) => d.body
  }

  /** What an event hands the channel to work on. */
  function Ordered(e: Event): set<Order> {
    match e
    case NewJob(j, _) => {FromPool(j)}
    case Install(d, _, _) => {FromUs(d)}
    case _ => {}
  }

  function Orders(es: seq<Event>): set<Order> {
    if es == [] then {} else Orders(es[..|es| - 1]) + Ordered(es[|es| - 1])
  }

  // ----- one job, one notify -----

  /** The job is that order, its coinbase closed with this prefix and pad. */
  predicate Made(job: Job, o: Order, prefix: seq<Byte>, pad: nat) {
    && job.baseLen == |BaseOf(o)| && job.coinb1 == Coinb1(BaseOf(o), prefix, pad) && job.body == BodyOf(o)
    && match o
       case FromPool(j) =>
         job.kind == Upstream(j.minNtime.None?) && job.id == j.id && (j.minNtime.Some? ==> job.minNtime == j.minNtime.value)
       case FromUs(d) =>
         job.kind == Custom(d.declared) && job.tip == d.tip && job.nbits == d.nbits && job.minNtime == d.minNtime
  }

  ghost predicate LaidOut(job: Job, given: set<Order>, prefix: seq<Byte>, pad: nat) {
    job.kind.Cleared? || exists o :: o in given && Made(job, o, prefix, pad)
  }

  /** A job of the pool is on the tip in force, at its difficulty, and of the time it came with; or of the
    * time of that tip, if it came without one. */
  predicate OnTip(n: Notify, j: Extended, prev: Option<Announced>) {
    && prev.Some? && n.tip == prev.value.hash && n.nbits == prev.value.nbits
    && n.ntime == if j.minNtime.Some? then j.minNtime.value else prev.value.minNtime
  }

  /** The notify is that order, its coinbase closed with the prefix and the pad the channel had when
    * it went out; a declared one keeps that prefix for its solves. */
  predicate SentAs(x: Sent, o: Order) {
    && x.notify.coinb1 == Coinb1(BaseOf(o), x.prefix, x.pad) && x.notify.body == BodyOf(o)
    && match o
       case FromPool(j) => x.notify.custom.None? && x.notify.jobId == j.id && OnTip(x.notify, j, x.prev)
       case FromUs(d) =>
         && x.notify.custom == Some(Solving(d.declared, x.prefix))
         && x.notify.tip == d.tip && x.notify.nbits == d.nbits && x.notify.ntime == d.minNtime
  }

  ghost predicate SentLaidOut(x: Sent, given: set<Order>) {
    exists o :: o in given && SentAs(x, o)
  }

  ghost predicate RingLaidOut(ring: seq<Job>, given: set<Order>, prefix: seq<Byte>, pad: nat) {
    forall i :: 0 <= i < |ring| ==> LaidOut(ring[i], given, prefix, pad)
  }

  ghost predicate StageLaidOut(stage: Option<Staged>, given: set<Order>, prefix: seq<Byte>, pad: nat) {
    stage.Some? ==> LaidOut(stage.value.job, given, prefix, pad)
  }

  ghost predicate LogLaidOut(log: seq<Sent>, given: set<Order>) {
    forall k :: 0 <= k < |log| ==> SentLaidOut(log[k], given)
  }

  /** Every job of the ring and the staged one are orders closed with the channel's current
    * extranonce prefix and its pad, and every notify ever sent is one. */
  ghost predicate AllLaidOut(s: State, given: set<Order>) {
    && RingLaidOut(s.ring, given, s.prefix, s.pad)
    && StageLaidOut(s.stage, given, s.prefix, s.pad)
    && LogLaidOut(s.log, given)
  }

  lemma MoreGiven(s: State, given: set<Order>, more: set<Order>)
    requires AllLaidOut(s, given)
    ensures AllLaidOut(s, given + more)
  {
    hide Made, SentAs;
    forall job | LaidOut(job, given, s.prefix, s.pad) ensures LaidOut(job, given + more, s.prefix, s.pad) {
      MoreLaidOut(job, given, more, s.prefix, s.pad);
    }
    forall k | 0 <= k < |s.log| ensures SentLaidOut(s.log[k], given + more) {
      assert SentLaidOut(s.log[k], given);
      var o :| o in given && SentAs(s.log[k], o);
      assert o in given + more;
    }
  }

  lemma MoreLaidOut(job: Job, given: set<Order>, more: set<Order>, prefix: seq<Byte>, pad: nat)
    requires LaidOut(job, given, prefix, pad)
    ensures LaidOut(job, given + more, prefix, pad)
  {
    hide Made;
    if !job.kind.Cleared? {
      var o :| o in given && Made(job, o, prefix, pad);
      assert o in given + more;
    }
  }

  lemma CoinbaseBase(base: seq<Byte>, prefix: seq<Byte>, pad: nat)
    ensures |Coinb1(base, prefix, pad)| == |base| + |prefix| + pad
    ensures Coinb1(base, prefix, pad)[..|base|] == base
    ensures Coinb1(base, prefix, pad)[|base|..|base| + |prefix|] == prefix
  {
    assert Coinb1(base, prefix, pad) == base + (prefix + Zeros(pad));
  }

  /** A coinb1 tells its base and the prefix it was built on, given their lengths. */
  lemma SameCoinb1(a: seq<Byte>, b: seq<Byte>, p: seq<Byte>, q: seq<Byte>, pad: nat)
    requires |a| == |b| && Coinb1(a, p, pad) == Coinb1(b, q, pad)
    ensures a == b && p == q
  {
    hide Coinb1;
    CoinbaseBase(a, p, pad);
    CoinbaseBase(b, q, pad);
  }

  /** A custom job as built is laid out for the channel if and only if it was built on its prefix. */
  lemma BuiltOn(d: Declaration, given: set<Order>, p: seq<Byte>, q: seq<Byte>, size: nat, pad: nat)
    requires Build(d, p, size, pad).Some?
    ensures LaidOut(Build(d, p, size, pad).value, given + {FromUs(d)}, q, pad) <==> p == q
  {
    hide Coinb1;
    var job := Build(d, p, size, pad).value;
    if LaidOut(job, given + {FromUs(d)}, q, pad) {
      var o :| o in given + {FromUs(d)} && Made(job, o, q, pad);
      SameCoinb1(d.base, BaseOf(o), p, q, pad);
    }
    if p == q {
      assert Made(job, FromUs(d), q, pad);
    }
  }

  lemma StoredLaidOut(s: State, j: Extended)
    ensures LaidOut(Stored(s, j), {FromPool(j)}, s.prefix, s.pad)
  {
    hide Coinb1;
    assert Made(Stored(s, j), FromPool(j), s.prefix, s.pad);
  }

  lemma AimedMade(prev: Option<Announced>, job: Job, o: Order, prefix: seq<Byte>, pad: nat)
    requires Made(job, o, prefix, pad)
    ensures Made(Aimed(prev, job), o, prefix, pad)
  {
    hide Coinb1;
  }

  lemma NotifyMade(s: State, job: Job, o: Order, clean: bool, rebuilt: bool, now: int)
    requires Sendable(s.prev, job) && Made(job, o, s.prefix, s.pad) && job == Aimed(s.prev, job)
    ensures SentAs(Sent(NotifyOf(s.nextNotify, s.prefix, s.prev, job, clean, now), s.prefix, s.pad, rebuilt, s.prev), o)
  {
    hide Coinb1;
  }

  lemma EmitLaidOut(s: State, given: set<Order>, i: nat, clean: bool, rebuilt: bool, now: int)
    requires i < |s.ring| && RingLaidOut(s.ring, given, s.prefix, s.pad) && LogLaidOut(s.log, given)
    ensures var r := Emit(s, i, clean, rebuilt, now);
            RingLaidOut(r.ring, given, s.prefix, s.pad) && LogLaidOut(r.log, given)
  {
    hide Made, SentAs, NotifyOf;
    assert LaidOut(s.ring[i], given, s.prefix, s.pad);
    var job := Aimed(s.prev, s.ring[i]);
    if !job.kind.Cleared? {
      var o :| o in given && Made(s.ring[i], o, s.prefix, s.pad);
      AimedMade(s.prev, s.ring[i], o, s.prefix, s.pad);
      if Sendable(s.prev, job) {
        NotifyMade(s, job, o, clean, rebuilt, now);
      }
    }
  }

  lemma PlaceLaidOut(s: State, given: set<Order>, job: Job)
    requires s.head < |s.ring| && AllLaidOut(s, given) && LaidOut(job, given, s.prefix, s.pad)
    ensures AllLaidOut(Place(s, job), given)
  {
    hide LaidOut, LogLaidOut, TemplateOf;
  }

  /** A job rebuilt for another prefix is still the order it was. */
  lemma RebuiltMade(job: Job, o: Order, was: seq<Byte>, prefix: seq<Byte>, pad: nat)
    requires Made(job, o, was, pad) && job.kind.Upstream?
    ensures Made(Rebuilt(job, prefix, pad), o, prefix, pad)
  {
    hide Coinb1;
    CoinbaseBase(BaseOf(o), was, pad);
  }

  lemma RebuiltLaidOut(job: Job, given: set<Order>, was: seq<Byte>, prefix: seq<Byte>, pad: nat)
    requires LaidOut(job, given, was, pad)
    ensures LaidOut(Rebuilt(job, prefix, pad), given, prefix, pad)
    ensures Rebuilt(job, prefix, pad).kind.Upstream? <==> job.kind.Upstream?
  {
    hide Made, Coinb1;
    if job.kind.Upstream? {
      var o :| o in given && Made(job, o, was, pad);
      RebuiltMade(job, o, was, prefix, pad);
    }
  }

  // ----- the steps -----

  lemma PrefixLaidOut(s: State, given: set<Order>, prefix: seq<Byte>, now: int)
    requires Shaped(s) && RingLaidOut(s.ring, given, s.prefix, s.pad) && LogLaidOut(s.log, given)
    ensures AllLaidOut(StepNewPrefix(s, prefix, now), given)
  {
    hide MoveTo, HadCustom, Emit, LaidOut, LogLaidOut, RebuiltRing, Rebuilt, Newest, HeldByRing, TemplateOf;
    var ring := RebuiltRing(s.ring, prefix, s.pad);
    forall i | 0 <= i < JOBS ensures LaidOut(ring[i], given, prefix, s.pad) {
      RebuiltLaidOut(s.ring[i], given, s.prefix, prefix, s.pad);
    }
    var rebuilt := s.(prefix := prefix, ring := ring, put := s.put + HeldByRing(s.ring));
    var newest := Newest(ring, s.head, 0);
    if newest.Some? {
      EmitLaidOut(rebuilt, given, newest.value, true, true, now);
    }
  }

  lemma TipLaidOut(s: State, given: set<Order>, id: nat, a: Announced, local: T.Relation, plausible: bool, now: int)
    requires Shaped(s) && AllLaidOut(s, given)
    ensures AllLaidOut(StepNewPrevHash(s, id, a, local, plausible, now), given)
  {
    hide Emit, MoveTo, Find, RingLaidOut, StageLaidOut, LogLaidOut;
    var i := Find(s.ring, id);
    if i < |s.ring| {
      var told := s.(prev := Some(a), customPrev := None);
      var rel := if s.parent then local else T.NoLocal;
      EmitLaidOut(MoveTo(told, SourceAfter(rel, plausible), now), given, i, WantClean(s.flushed, a.hash), false, now);
    }
  }

  lemma ConfirmedLaidOut(job: Job, given: set<Order>, id: nat, prefix: seq<Byte>, pad: nat)
    requires LaidOut(job, given, prefix, pad) && job.kind.Custom?
    ensures LaidOut(job.(id := id), given, prefix, pad)
  {
    hide Coinb1;
    var o :| o in given && Made(job, o, prefix, pad);
    assert Made(job.(id := id), o, prefix, pad);
  }

  lemma AcceptedLaidOut(s: State, given: set<Order>, request: nat, id: nat, now: int)
    requires Shaped(s) && AllLaidOut(s, given)
    ensures AllLaidOut(StepAccepted(s, request, id, now), given)
  {
    hide Emit, MoveTo, Place, RingLaidOut, LaidOut, LogLaidOut;
    if Answers(s, request) {
      var job := s.stage.value.job.(id := id);
      ConfirmedLaidOut(s.stage.value.job, given, id, s.prefix, s.pad);
      var unstaged := s.(stage := None, customPrev := Some(job.tip));
      PlaceLaidOut(unstaged, given, job);
      EmitLaidOut(Place(unstaged, job), given, s.head, WantClean(s.flushed, job.tip), false, now);
    }
  }

  lemma NewJobLaidOut(s: State, given: set<Order>, j: Extended, now: int)
    requires Shaped(s) && AllLaidOut(s, given)
    ensures AllLaidOut(StepNewJob(s, j, now), given + {FromPool(j)})
  {
    hide Emit, Place, Stored, RingLaidOut, LaidOut, StageLaidOut, LogLaidOut, AllLaidOut;
    var more := given + {FromPool(j)};
    MoreGiven(s, given, {FromPool(j)});
    StoredLaidOut(s, j);
    MoreLaidOut(Stored(s, j), {FromPool(j)}, given, s.prefix, s.pad);
    assert {FromPool(j)} + given == more;
    PlaceLaidOut(s, more, Stored(s, j));
    PlacedEmits(Place(s, Stored(s, j)), more, s.head, now);
  }

  lemma PlacedEmits(s: State, given: set<Order>, i: nat, now: int)
    requires i < |s.ring| && AllLaidOut(s, given)
    ensures AllLaidOut(Emit(s, i, false, false, now), given)
  {
    hide Emit, RingLaidOut, StageLaidOut, LogLaidOut;
    EmitLaidOut(s, given, i, false, false, now);
  }

  /** The exact condition: a custom job staged on the prefix the channel had when the job was
    * built keeps the layout if and only if that is still the channel's prefix. */
  lemma InstallLaidOut(s: State, given: set<Order>, d: Declaration, builtOn: seq<Byte>, now: int)
    requires Shaped(s) && AllLaidOut(s, given) && Build(d, builtOn, s.size, s.pad).Some?
    ensures AllLaidOut(StepInstall(s, d, builtOn, now), given + {FromUs(d)}) <==> builtOn == s.prefix
  {
    hide LaidOut, RingLaidOut, LogLaidOut, Build, TemplateOf;
    MoreGiven(s, given, {FromUs(d)});
    BuiltOn(d, given, builtOn, s.prefix, s.size, s.pad);
  }

  predicate Timely(s: State, e: Event) {
    e.Install? ==> e.builtOn == s.prefix
  }

  lemma InstallKeeps(s: State, given: set<Order>, d: Declaration, now: int)
    requires Shaped(s) && AllLaidOut(s, given)
    ensures AllLaidOut(StepInstall(s, d, s.prefix, now), given + {FromUs(d)})
  {
    hide AllLaidOut, Build, TemplateOf;
    if Build(d, s.prefix, s.size, s.pad).Some? {
      InstallLaidOut(s, given, d, s.prefix, now);
    } else {
      MoreGiven(s, given, {FromUs(d)});
    }
  }

  lemma ReconnectLaidOut(s: State, given: set<Order>, prefix: seq<Byte>, size: nat, pad: nat)
    requires Shaped(s) && LogLaidOut(s.log, given)
    ensures AllLaidOut(StepReconnect(s, prefix, size, pad), given)
  {
    hide LogLaidOut, HeldByRing;
  }

  lemma QuietLaidOut(s: State, given: set<Order>, e: Event)
    requires Shaped(s) && AllLaidOut(s, given)
    requires e.CustomRefused? || e.Service? || e.Age? || e.SolveBegins? || e.SolveEnds?
    ensures AllLaidOut(Step(s, e), given)
  {
    hide RingLaidOut, LaidOut, LogLaidOut, Kept, LetGo, FindNotify, TemplateOf;
  }

  /** Every step keeps the layout, and what it is given to work on joins the orders. */
  lemma LayoutKept(s: State, given: set<Order>, e: Event)
    requires Shaped(s) && AllLaidOut(s, given) && Timely(s, e)
    ensures AllLaidOut(Step(s, e), given + Ordered(e))
  {
    hide StepNewJob, StepNewPrevHash, StepAccepted, StepNewPrefix, StepInstall, StepReconnect, StepService, AllLaidOut;
    assert given + {} == given;
    match e
    case NewJob(j, now) => NewJobLaidOut(s, given, j, now);
    case NewPrevHash(id, a, local, plausible, now) => TipLaidOut(s, given, id, a, local, plausible, now);
    case CustomAccepted(request, id, now) => AcceptedLaidOut(s, given, request, id, now);
    case NewPrefix(prefix, now) =>
      RingAndLog(s, given);
      PrefixLaidOut(s, given, prefix, now);
    case Install(d, builtOn, now) => InstallKeeps(s, given, d, now);
    case Reconnect(prefix, size, pad) =>
      RingAndLog(s, given);
      ReconnectLaidOut(s, given, prefix, size, pad);
    case _ => QuietLaidOut(s, given, e);
  }

  lemma RingAndLog(s: State, given: set<Order>)
    requires AllLaidOut(s, given)
    ensures RingLaidOut(s.ring, given, s.prefix, s.pad) && LogLaidOut(s.log, given)
  {
    hide RingLaidOut, LogLaidOut;
  }

  lemma OpenedLaidOut(s: State)
    requires s == Opened(s.parent, s.prefix, s.size, s.pad)
    ensures AllLaidOut(s, {})
  {
  }

  // ----- every run -----

  predicate TimelyRun(s: State, es: seq<Event>)
    requires Shaped(s)
  {
    es == [] ||
    (TimelyRun(s, es[..|es| - 1]) && Timely(Run(s, es[..|es| - 1]), es[|es| - 1]))
  }

  /** Over every run in which no SetExtranoncePrefix falls between building and staging a custom
    * job, every job of the ring, the stage and the notifies is a coinbase the pool or a declaration
    * gave, closed with the prefix and the pad; the ring and the stage with the current ones. */
  lemma {:induction false} LayoutOfEveryRun(parent: bool, prefix: seq<Byte>, size: nat, pad: nat, es: seq<Event>)
    requires TimelyRun(Opened(parent, prefix, size, pad), es)
    ensures AllLaidOut(Run(Opened(parent, prefix, size, pad), es), Orders(es))
  {
    hide Step, AllLaidOut, Timely, Ordered;
    var s := Opened(parent, prefix, size, pad);
    if es == [] {
      OpenedLaidOut(s);
    } else {
      var n := |es| - 1;
      LayoutOfEveryRun(parent, prefix, size, pad, es[..n]);
      LayoutKept(Run(s, es[..n]), Orders(es[..n]), es[n]);
    }
  }

  /** The race: a job built on one prefix and staged after the channel has been given another. */
  lemma StaleStage(d: Declaration, before: seq<Byte>, after: seq<Byte>, size: nat, pad: nat)
    requires before != after && d.holeLen == |before| + size && |d.body.merkles| <= MAX_MERKLES
    ensures var es := [NewPrefix(after, 0), Install(d, before, 0)];
            !AllLaidOut(Run(Opened(true, before, size, pad), es), Orders(es))
  {
    hide AllLaidOut, StepNewPrefix, StepInstall;
    var s := Opened(true, before, size, pad);
    var e0, e1 := NewPrefix(after, 0), Install(d, before, 0);
    OpenedLaidOut(s);
    LayoutKept(s, {}, e0);
    var t := StepNewPrefix(s, after, 0);
    PrefixTaken(s, after);
    BuildsOn(t, d, before);
    InstallLaidOut(t, {} + Ordered(e0), d, before, 0);
    RunOne(s, e0);
    RunThen(s, [e0], e1);
    assert [e0] + [e1] == [e0, e1] && [e0, e1][..1] == [e0] && [e0][..0] == [];
    assert Orders([e0]) == {} + Ordered(e0);
    assert Orders([e0, e1]) == {} + Ordered(e0) + {FromUs(d)};
  }

  lemma PrefixTaken(s: State, prefix: seq<Byte>)
    requires Shaped(s)
    ensures var t := StepNewPrefix(s, prefix, 0); t.prefix == prefix && t.size == s.size && t.pad == s.pad
  {
    hide Reflushed, MoveTo, DropStage, HadCustom;
  }

  lemma BuildsOn(s: State, d: Declaration, prefix: seq<Byte>)
    requires d.holeLen == |prefix| + s.size && |d.body.merkles| <= MAX_MERKLES
    ensures Build(d, prefix, s.size, s.pad).Some?
  {
    hide Coinb1;
  }

  // ----- the notifies, over reconnects -----

  /** At most one notify joins the record, numbered in order and with the pad of the moment, and the
    * table of notifies takes no others. */
  predicate Records(s: State, r: State) {
    && (r.log == s.log || (|r.log| == |s.log| + 1 && r.log[..|s.log|] == s.log && r.log[|s.log|].pad == s.pad
                           && r.log[|s.log|].notify.id == s.nextNotify))
    && r.nextNotify == s.nextNotify + |r.log| - |s.log|
    && (forall n :: n in r.live ==> n in s.live || (|r.log| > |s.log| && n == r.log[|s.log|].notify))
  }

  lemma EmitRecords(s: State, i: nat, clean: bool, rebuilt: bool, now: int)
    requires i < |s.ring|
    ensures Records(s, Emit(s, i, clean, rebuilt, now))
  {
    hide Coinb1, TemplateOf;
  }

  lemma {:induction false} KeptWere(rest: seq<Notify>, count: nat, now: int)
    ensures forall n :: n in Kept(rest, count, now) ==> n in rest
  {
    if rest != [] && count >= 3 {
      KeptWere(rest[1..], count, now);
      KeptWere(rest[1..], count - 1, now);
    }
  }

  lemma StepRecords(s: State, e: Event)
    requires Shaped(s)
    ensures Records(s, Step(s, e))
  {
    hide StepNewJob, StepNewPrevHash, StepAccepted, Reflushed, Records;
    match e
    case NewJob(j, now) => NewJobRecords(s, j, now);
    case NewPrevHash(id, a, local, plausible, now) => TipRecords(s, id, a, local, plausible, now);
    case CustomAccepted(request, id, now) => AcceptedRecords(s, request, id, now);
    case NewPrefix(prefix, now) => PrefixRecords(s, prefix, now);
    case Age(now) => AgeRecords(s, now);
    case _ => QuietRecords(s, e);
  }

  lemma QuietRecords(s: State, e: Event)
    requires Shaped(s)
    requires e.CustomRefused? || e.Install? || e.Service? || e.SolveBegins? || e.SolveEnds? || e.Reconnect?
    ensures Records(s, Step(s, e))
  {
    hide Build, TemplateOf, FindNotify, HeldByNotify, HeldByRing;
  }

  lemma AgeRecords(s: State, now: int)
    requires Shaped(s)
    ensures Records(s, Step(s, Age(now)))
  {
    hide Kept, LetGo;
    KeptWere(s.live, |s.live|, now);
  }

  lemma NewJobRecords(s: State, j: Extended, now: int)
    requires Shaped(s)
    ensures Records(s, StepNewJob(s, j, now))
  {
    hide Emit, Place, Stored;
    EmitRecords(Place(s, Stored(s, j)), s.head, false, false, now);
  }

  lemma PrefixRecords(s: State, prefix: seq<Byte>, now: int)
    requires Shaped(s)
    ensures Records(s, StepNewPrefix(s, prefix, now))
  {
    hide Reflushed, HadCustom, TemplateOf;
    ReflushedRecords(s, prefix, now);
  }

  /** Only a new connection brings another pad. */
  lemma GrantKept(s: State, e: Event)
    requires Shaped(s) && !e.Reconnect?
    ensures Step(s, e).pad == s.pad && Step(s, e).size == s.size
  {
    hide Emit, Place, Stored, MoveTo, DropStage, Find, Reflushed, HeldByRing, Kept, LetGo, FindNotify, Build, HadCustom;
  }

  lemma TipRecords(s: State, id: nat, a: Announced, local: T.Relation, plausible: bool, now: int)
    requires Shaped(s)
    ensures Records(s, StepNewPrevHash(s, id, a, local, plausible, now))
  {
    hide Emit, MoveTo, Find;
    var i := Find(s.ring, id);
    if i < |s.ring| {
      var told := s.(prev := Some(a), customPrev := None);
      var rel := if s.parent then local else T.NoLocal;
      EmitRecords(MoveTo(told, SourceAfter(rel, plausible), now), i, WantClean(s.flushed, a.hash), false, now);
    }
  }

  lemma AcceptedRecords(s: State, request: nat, id: nat, now: int)
    requires Shaped(s)
    ensures Records(s, StepAccepted(s, request, id, now))
  {
    hide Emit, MoveTo, Place;
    if Answers(s, request) {
      var job := s.stage.value.job.(id := id);
      var placed := Place(s.(stage := None, customPrev := Some(job.tip)), job);
      EmitRecords(placed, s.head, WantClean(s.flushed, job.tip), false, now);
    }
  }

  lemma ReflushedRecords(s: State, prefix: seq<Byte>, now: int)
    requires Shaped(s)
    ensures Records(s, Reflushed(s, prefix, now))
  {
    hide Newest, HeldByRing, RebuiltRing, Rebuilt, Emit;
    var ring := RebuiltRing(s.ring, prefix, s.pad);
    var rebuilt := s.(prefix := prefix, ring := ring, put := s.put + HeldByRing(s.ring));
    var newest := Newest(ring, s.head, 0);
    if newest.Some? {
      EmitRecords(rebuilt, newest.value, true, true, now);
    }
  }

  /** A notify is found in the record under its number. */
  predicate OnRecord(s: State, n: Notify) {
    n.id < |s.log| && s.log[n.id].notify == n
  }

  ghost predicate Numbered(s: State) {
    && s.nextNotify == |s.log|
    && forall n :: n in s.live ==> OnRecord(s, n)
  }

  lemma RecordsNumbered(s: State, r: State)
    requires Numbered(s) && Records(s, r)
    ensures Numbered(r)
  {
    forall n | n in r.live ensures OnRecord(r, n) {
      if n in s.live && |r.log| > |s.log| {
        assert r.log[..|s.log|][n.id] == r.log[n.id];
      }
    }
  }

  lemma {:induction false} EveryNotifyOnRecord(parent: bool, prefix: seq<Byte>, size: nat, pad: nat, es: seq<Event>)
    ensures Numbered(Run(Opened(parent, prefix, size, pad), es))
  {
    hide Step, Records;
    if es != [] {
      var s := Run(Opened(parent, prefix, size, pad), es[..|es| - 1]);
      EveryNotifyOnRecord(parent, prefix, size, pad, es[..|es| - 1]);
      StepRecords(s, es[|es| - 1]);
      RecordsNumbered(s, Step(s, es[|es| - 1]));
    }
  }

  /** While a connection lasts, every notify it sends has its pad. */
  lemma {:induction false} PadOfAConnection(s: State, es: seq<Event>)
    requires Shaped(s) && forall e: Event :: e in es ==> !e.Reconnect?
    ensures var r := Run(s, es);
            && r.pad == s.pad && r.size == s.size && s.log <= r.log
            && forall k :: |s.log| <= k < |r.log| ==> r.log[k].pad == s.pad
  {
    hide Step;
    if es != [] {
      var n := |es| - 1;
      PadOfAConnection(s, es[..n]);
      var before, after := Run(s, es[..n]), Run(s, es);
      StepRecords(before, es[n]);
      GrantKept(before, es[n]);
      forall k | |s.log| <= k < |after.log| ensures after.log[k].pad == s.pad {
        if k < |before.log| {
          assert after.log[..|before.log|][k] == after.log[k];
        }
      }
    }
  }

  // ----- what a miner hashes and what is rebuilt -----

  /** The coinbase a miner hashes for a notify: what it rolls goes between the two parts. */
  function Hashed(n: Notify, rolled: seq<Byte>): seq<Byte> {
    n.coinb1 + rolled + n.body.coinb2
  }

  /** The coinbase the order's owner rebuilds when an extranonce is submitted for it. */
  function Claimed(o: Order, prefix: seq<Byte>, extranonce: seq<Byte>): seq<Byte> {
    BaseOf(o) + (prefix + extranonce) + BodyOf(o).coinb2
  }

  lemma HashedLayout(x: Sent, o: Order, rolled: seq<Byte>)
    requires SentAs(x, o)
    ensures Hashed(x.notify, rolled) == Claimed(o, x.prefix, Zeros(x.pad) + rolled)
  {
    var left := Hashed(x.notify, rolled);
    assert left == BaseOf(o) + x.prefix + (Zeros(x.pad) + rolled) + BodyOf(o).coinb2;
  }

  lemma ClaimedLength(o: Order, prefix: seq<Byte>, extranonce: seq<Byte>)
    ensures |Claimed(o, prefix, extranonce)| == |BaseOf(o)| + |prefix| + |extranonce| + |BodyOf(o).coinb2|
  {
  }

  /** A channel submits its own pad before what the miner rolled. That is the coinbase the miner
    * hashed exactly if its pad is the one the notify went out with. */
  lemma RebuiltIffSamePad(x: Sent, o: Order, pad: nat, rolled: seq<Byte>)
    requires SentAs(x, o)
    ensures Hashed(x.notify, rolled) == Claimed(o, x.prefix, Zeros(pad) + rolled) <==> pad == x.pad
  {
    hide SentAs, Hashed, Claimed;
    HashedLayout(x, o, rolled);
    ClaimedLength(o, x.prefix, Zeros(pad) + rolled);
    ClaimedLength(o, x.prefix, Zeros(x.pad) + rolled);
  }

  /** In every such run, over any number of connections and prefixes: each notify a share can arrive
    * on is on record, it is an order the pool or we gave, and what the channel submits for the share
    * is rebuilt to the very coinbase that was hashed if and only if the channel's pad is the
    * notify's. */
  lemma EveryShareIsRebuilt(parent: bool, prefix: seq<Byte>, size: nat, pad: nat, es: seq<Event>, n: Notify)
    requires TimelyRun(Opened(parent, prefix, size, pad), es)
    requires n in Run(Opened(parent, prefix, size, pad), es).live
    ensures var r := Run(Opened(parent, prefix, size, pad), es);
            && OnRecord(r, n)
            && SentLaidOut(r.log[n.id], Orders(es))
            && forall o, rolled :: SentAs(r.log[n.id], o) ==>
                 (Hashed(n, rolled) == Claimed(o, r.log[n.id].prefix, Zeros(r.pad) + rolled) <==> r.pad == r.log[n.id].pad)
  {
    hide Run, AllLaidOut, SentLaidOut, SentAs, Hashed, Claimed;
    LayoutOfEveryRun(parent, prefix, size, pad, es);
    EveryNotifyOnRecord(parent, prefix, size, pad, es);
    var r := Run(Opened(parent, prefix, size, pad), es);
    RingAndLog(r, Orders(es));
    forall o, rolled | SentAs(r.log[n.id], o)
      ensures Hashed(n, rolled) == Claimed(o, r.log[n.id].prefix, Zeros(r.pad) + rolled) <==> r.pad == r.log[n.id].pad
    {
      RebuiltIffSamePad(r.log[n.id], o, r.pad, rolled);
    }
  }

  /** So a share is always rebuilt on the connection its notify was sent on. */
  lemma RebuiltOnItsConnection(parent: bool, prefix: seq<Byte>, size: nat, pad: nat, before: seq<Event>, since: seq<Event>,
                               n: Notify, o: Order, rolled: seq<Byte>)
    requires TimelyRun(Opened(parent, prefix, size, pad), before + since) && forall e: Event :: e in since ==> !e.Reconnect?
    requires n in Run(Opened(parent, prefix, size, pad), before + since).live
    requires n.id >= |Run(Opened(parent, prefix, size, pad), before).log|
    ensures var r := Run(Opened(parent, prefix, size, pad), before + since);
            && OnRecord(r, n)
            && (SentAs(r.log[n.id], o) ==> Hashed(n, rolled) == Claimed(o, r.log[n.id].prefix, Zeros(r.pad) + rolled))
  {
    hide Run, SentAs, SentLaidOut, Hashed, Claimed, TimelyRun;
    var s := Opened(parent, prefix, size, pad);
    EveryShareIsRebuilt(parent, prefix, size, pad, before + since, n);
    RunSum(s, before, since);
    PadOfAConnection(Run(s, before), since);
  }

  /** The pool grants a pad of 4 bytes and sends work; then it drops the connection and grants no pad
    * on the next. */
  function BeforeReconnect(): seq<Event> {
    Opening(1, 5)
  }

  function AfterReconnect(prefix: seq<Byte>): seq<Event> {
    BeforeReconnect() + [Reconnect(prefix, 8, 0)]
  }

  /** And not always on another. The notify sent before the reconnect is known after it, it is the job
    * the pool gave, and a share of as many bytes as the new channel's extranonce passes for one of
    * it; but the coinbase rebuilt from what is submitted is not the one hashed. */
  lemma ShareOfAnotherConnection(prefix: seq<Byte>, rolled: seq<Byte>)
    requires |rolled| == 8
    ensures var s := Opened(true, prefix, 12, 4);
            var o := FromPool(OpeningOrder(1));
            var r := Run(s, AfterReconnect(prefix));
            && |r.log| == 1 && r.log[0].notify in Run(s, BeforeReconnect()).live && r.log[0].notify in r.live
            && o in Orders(AfterReconnect(prefix)) && SentAs(r.log[0], o)
            && r.log[0].pad == 4 && r.pad + |rolled| == r.size
            && Hashed(r.log[0].notify, rolled) != Claimed(o, r.log[0].prefix, Zeros(r.pad) + rolled)
  {
    hide Step, Run, Opening, SentAs, Hashed, Claimed, ClearedRing, Coinb1;
    var s := Opened(true, prefix, 12, 4);
    OpeningFlushes(s, 1, 5);
    var t := Run(s, BeforeReconnect());
    var e := Reconnect(prefix, 8, 0);
    RunThen(s, BeforeReconnect(), e);
    ReopenedIs(t, prefix, 8, 0);
    var r := Run(s, AfterReconnect(prefix));
    assert |r.log| == 1 && r.log[0].notify in t.live;
    OpeningOrders(s, prefix);
    EveryShareIsRebuilt(true, prefix, 12, 4, AfterReconnect(prefix), r.log[0].notify);
    OnlyOrder(r.log[0], FromPool(OpeningOrder(1)));
    RebuiltIffSamePad(r.log[0], FromPool(OpeningOrder(1)), 0, rolled);
  }

  lemma OpeningOrders(s: State, prefix: seq<Byte>)
    requires s == Opened(true, prefix, 12, 4)
    ensures TimelyRun(s, AfterReconnect(prefix)) && Orders(AfterReconnect(prefix)) == {FromPool(OpeningOrder(1))}
  {
    hide Run;
    var es := AfterReconnect(prefix);
    NothingInstalled(s, es);
    OrdersThen([], es[0]);
    OrdersThen([es[0]], es[1]);
    OrdersThen([es[0], es[1]], es[2]);
    assert [] + [es[0]] == [es[0]] && [es[0]] + [es[1]] == [es[0], es[1]] && [es[0], es[1]] + [es[2]] == es;
  }

  lemma OrdersThen(es: seq<Event>, e: Event)
    ensures Orders(es + [e]) == Orders(es) + Ordered(e)
  {
    hide Ordered;
    assert (es + [e])[..|es|] == es;
  }

  lemma {:induction false} NothingInstalled(s: State, es: seq<Event>)
    requires Shaped(s) && forall e: Event :: e in es ==> !e.Install?
    ensures TimelyRun(s, es)
  {
    hide Run;
    if es != [] {
      NothingInstalled(s, es[..|es| - 1]);
    }
  }

  lemma OnlyOrder(x: Sent, o: Order)
    requires SentLaidOut(x, {o})
    ensures SentAs(x, o)
  {
    hide SentAs;
  }
}
