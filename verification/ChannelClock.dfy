/** The dates of an upstream SV2 channel, over every run: the tip and the time its notifies carry, how long
  * a bridge and a staged job last, and when it asks for a new connection.
  */
module ChannelClock {
  import opened Basics
  import opened ChannelLayout
  import opened ChannelRuns
  import opened ChannelSpec
  import T = TipRing

  /** The time of an event. */
  function TimeOf(e: Event): int {
    match e
    case NewJob(_, now) => now
    case NewPrevHash(_, _, _, _, now) => now
    case CustomAccepted(_, _, now) => now
    case NewPrefix(_, now) => now
    case Install(_, _, now) => now
    case Service(now) => now
    case Age(now) => now
    case _ => 0
  }

  /** The frame names a job the channel has. */
  predicate Known(s: State, e: Event)
    requires Shaped(s)
  {
    e.NewPrevHash? && Find(s.ring, e.id) < JOBS
  }

  predicate Unknown(s: State, e: Event)
    requires Shaped(s)
  {
    e.NewPrevHash? && Find(s.ring, e.id) == JOBS
  }

  // ----- one step -----

  /** A notify that joins the record is of the tip then in force and of this time. */
  predicate Dates(s: State, r: State, now: int) {
    |r.log| > |s.log| ==>
      |r.log| == |s.log| + 1 && r.log[|s.log|].prev == r.prev && r.log[|s.log|].notify.time == now
  }

  lemma EmitDates(s: State, i: nat, clean: bool, rebuilt: bool, now: int)
    requires i < |s.ring|
    ensures Dates(s, Emit(s, i, clean, rebuilt, now), now)
  {
    hide Coinb1, TemplateOf;
  }

  lemma ReflushedDates(s: State, prefix: seq<Byte>, now: int)
    requires Shaped(s)
    ensures Dates(s, Reflushed(s, prefix, now), now)
  {
    hide Newest, HeldByRing, RebuiltRing, Rebuilt, Emit;
    var ring := RebuiltRing(s.ring, prefix, s.pad);
    var rebuilt := s.(prefix := prefix, ring := ring, put := s.put + HeldByRing(s.ring));
    var newest := Newest(ring, s.head, 0);
    if newest.Some? {
      EmitDates(rebuilt, newest.value, true, true, now);
    }
  }

  lemma NewJobDates(s: State, j: Extended, now: int)
    requires Shaped(s)
    ensures Dates(s, StepNewJob(s, j, now), now)
  {
    hide Emit, Place, Stored;
    EmitDates(Place(s, Stored(s, j)), s.head, false, false, now);
  }

  lemma TipDates(s: State, id: nat, a: Announced, local: T.Relation, plausible: bool, now: int)
    requires Shaped(s)
    ensures Dates(s, StepNewPrevHash(s, id, a, local, plausible, now), now)
  {
    hide Emit, MoveTo, Find;
    var i := Find(s.ring, id);
    if i < |s.ring| {
      var told := s.(prev := Some(a), customPrev := None);
      var rel := if s.parent then local else T.NoLocal;
      EmitDates(MoveTo(told, SourceAfter(rel, plausible), now), i, WantClean(s.flushed, a.hash), false, now);
    }
  }

  lemma AcceptedDates(s: State, request: nat, id: nat, now: int)
    requires Shaped(s)
    ensures Dates(s, StepAccepted(s, request, id, now), now)
  {
    hide Emit, MoveTo, Place;
    if Answers(s, request) {
      var job := s.stage.value.job.(id := id);
      var placed := Place(s.(stage := None, customPrev := Some(job.tip)), job);
      EmitDates(placed, s.head, WantClean(s.flushed, job.tip), false, now);
    }
  }

  lemma PrefixDates(s: State, prefix: seq<Byte>, now: int)
    requires Shaped(s)
    ensures Dates(s, StepNewPrefix(s, prefix, now), now)
  {
    hide Reflushed, HadCustom, TemplateOf;
    ReflushedDates(s, prefix, now);
  }

  lemma StepDates(s: State, e: Event)
    requires Shaped(s)
    ensures Dates(s, Step(s, e), TimeOf(e))
  {
    hide StepNewJob, StepNewPrevHash, StepAccepted, StepNewPrefix, DropStage, HeldByRing, Kept, LetGo, FindNotify, Build;
    match e
    case NewJob(j, now) => NewJobDates(s, j, now);
    case NewPrevHash(id, a, local, plausible, now) => TipDates(s, id, a, local, plausible, now);
    case CustomAccepted(request, id, now) => AcceptedDates(s, request, id, now);
    case NewPrefix(prefix, now) => PrefixDates(s, prefix, now);
    case _ =>
  }

  /** Tip, bridge and the wish for a new connection are as they were, but a bridge may have ended. */
  predicate Steady(s: State, r: State) {
    && r.prev == s.prev && r.wantReconnect == s.wantReconnect
    && (r.src == Bridge ==> s.src == Bridge && r.bridgeAt == s.bridgeAt)
  }

  lemma FramesSteady(s: State, e: Event)
    requires Shaped(s) && (e.NewJob? || e.CustomAccepted? || e.NewPrefix?)
    ensures Steady(s, Step(s, e))
  {
    hide StepNewPrevHash, StepService, StepInstall, StepSolveBegins, StepSolveEnds, StepReconnect;
    hide Emit, Place, Stored, DropStage, Reflushed, HadCustom;
  }

  lemma CallsSteady(s: State, e: Event)
    requires Shaped(s) && !e.NewJob? && !e.NewPrevHash? && !e.CustomAccepted? && !e.NewPrefix? && !e.Reconnect?
    ensures Steady(s, Step(s, e))
  {
    hide StepNewJob, StepNewPrevHash, StepAccepted, StepNewPrefix, StepReconnect;
    hide DropStage, Kept, LetGo, FindNotify, Build;
  }

  lemma TipTold(s: State, id: nat, a: Announced, local: T.Relation, plausible: bool, now: int)
    requires Shaped(s)
    ensures var r := StepNewPrevHash(s, id, a, local, plausible, now);
            && (Find(s.ring, id) == JOBS ==> r == s.(wantReconnect := true))
            && (Find(s.ring, id) < JOBS ==> r.prev == Some(a) && r.wantReconnect == s.wantReconnect)
            && (r.src == Bridge ==> r.bridgeAt == if s.src == Bridge then s.bridgeAt else now)
  {
    hide Emit, Find;
  }

  /** Only a SetNewPrevHash for a job of the ring announces a tip, and only one for any other job asks for a
    * new connection. A bridge is timed from the step that entered it. */
  lemma StepTip(s: State, e: Event)
    requires Shaped(s)
    ensures Step(s, e).prev == if e.Reconnect? then None else if Known(s, e) then Some(e.announced) else s.prev
    ensures Step(s, e).wantReconnect <==> !e.Reconnect? && (Unknown(s, e) || s.wantReconnect)
    ensures Unknown(s, e) ==> Step(s, e) == s.(wantReconnect := true)
    ensures Step(s, e).src == Bridge ==> Step(s, e).bridgeAt == if s.src == Bridge then s.bridgeAt else TimeOf(e)
  {
    hide StepNewJob, StepNewPrevHash, StepAccepted, StepNewPrefix, StepService, StepInstall, Find;
    match e
    case NewJob(_, _) => FramesSteady(s, e);
    case CustomAccepted(_, _, _) => FramesSteady(s, e);
    case NewPrefix(_, _) => FramesSteady(s, e);
    case NewPrevHash(id, a, local, plausible, now) => TipTold(s, id, a, local, plausible, now);
    case Reconnect(_, _, _) =>
    case _ => CallsSteady(s, e);
  }

  predicate Stages(s: State, e: Event) {
    e.Install? && Build(e.declaration, e.builtOn, s.size, s.pad).Some?
  }

  /** A stage is timed from the request it is for. */
  lemma StepStage(s: State, e: Event)
    requires Shaped(s)
    ensures Step(s, e).stage.Some? ==>
              if Stages(s, e) then Step(s, e).stage.value.at == TimeOf(e) else Step(s, e).stage == s.stage
  {
    hide Emit, Place, Stored, MoveTo, Find, Reflushed, HeldByRing, Kept, LetGo, FindNotify, Build, HadCustom;
  }

  // ----- every run -----

  /** The last SetNewPrevHash of the connection that named a job it had. */
  function InForce(s: State, es: seq<Event>): Option<Announced>
    requires Shaped(s)
  {
    if es == [] then None
    else
      var n := |es| - 1;
      if es[n].Reconnect? then None
      else if Known(Run(s, es[..n]), es[n]) then Some(es[n].announced)
      else InForce(s, es[..n])
  }

  /** Whether the connection has been told to start work on a job it did not have. */
  predicate Lost(s: State, es: seq<Event>)
    requires Shaped(s)
  {
    es != [] && var n := |es| - 1;
    !es[n].Reconnect? && (Unknown(Run(s, es[..n]), es[n]) || Lost(s, es[..n]))
  }

  /** When the bridge the channel is on was entered. */
  function BridgedAt(s: State, es: seq<Event>): Option<int>
    requires Shaped(s)
  {
    if es == [] || Run(s, es).src != Bridge then None
    else
      var n := |es| - 1;
      if Run(s, es[..n]).src == Bridge then BridgedAt(s, es[..n]) else Some(TimeOf(es[n]))
  }

  /** When the request for the job that is staged was made. */
  function RequestedAt(s: State, es: seq<Event>): Option<int>
    requires Shaped(s)
  {
    if es == [] || Run(s, es).stage.None? then None
    else
      var n := |es| - 1;
      if Stages(Run(s, es[..n]), es[n]) then Some(TimeOf(es[n])) else RequestedAt(s, es[..n])
  }

  /** Over every run, reconnects included, what the channel has recorded of its clock is what happened. */
  lemma {:induction false} ClockOfEveryRun(parent: bool, prefix: seq<Byte>, size: nat, pad: nat, es: seq<Event>)
    ensures var s := Opened(parent, prefix, size, pad);
            var r := Run(s, es);
            && r.prev == InForce(s, es) && (r.wantReconnect <==> Lost(s, es))
            && (r.src == Bridge ==> BridgedAt(s, es) == Some(r.bridgeAt))
            && (r.stage.Some? ==> RequestedAt(s, es) == Some(r.stage.value.at))
  {
    hide Step, Known, Unknown, Stages;
    var s := Opened(parent, prefix, size, pad);
    if es != [] {
      var n := |es| - 1;
      ClockOfEveryRun(parent, prefix, size, pad, es[..n]);
      var t := Run(s, es[..n]);
      StepTip(t, es[n]);
      StepStage(t, es[n]);
      if Step(t, es[n]).stage.Some? {
        StageGoesOn(t, es[n]);
      }
    }
  }

  lemma StageGoesOn(s: State, e: Event)
    requires Shaped(s)
    ensures Step(s, e).stage.Some? && !Stages(s, e) ==> s.stage.Some?
  {
    hide Step, Stages;
    StepStage(s, e);
  }

  /** So each notify of a run is of the tip the pool had last announced to the connection, and of the time
    * of the event that sent it. */
  lemma NotifiesOfEveryRun(parent: bool, prefix: seq<Byte>, size: nat, pad: nat, es: seq<Event>, e: Event)
    ensures var s := Opened(parent, prefix, size, pad);
            var before, after := Run(s, es).log, Run(s, es + [e]).log;
            after != before ==>
              && |after| == |before| + 1 && after[..|before|] == before
              && after[|before|].prev == InForce(s, es + [e]) && after[|before|].notify.time == TimeOf(e)
  {
    hide Step, InForce;
    var s := Opened(parent, prefix, size, pad);
    ClockOfEveryRun(parent, prefix, size, pad, es + [e]);
    RunThen(s, es, e);
    StepDates(Run(s, es), e);
    StepRecords(Run(s, es), e);
  }

  /** Serving the socket ends a bridge 30 seconds after it was entered and a request 15 seconds after it was
    * made, and neither before; a bridge gives way to the pool's work, and nothing else is changed. */
  lemma ServiceOfEveryRun(parent: bool, prefix: seq<Byte>, size: nat, pad: nat, es: seq<Event>, now: int)
    ensures var s := Opened(parent, prefix, size, pad);
            var before, after := Run(s, es), Run(s, es + [Service(now)]);
            && (before.src == Bridge ==>
                  BridgedAt(s, es).Some? && after.src == if now - BridgedAt(s, es).value >= 30 then Pool else Bridge)
            && (before.src != Bridge ==> after.src == before.src)
            && (before.stage.Some? ==>
                  RequestedAt(s, es).Some?
                  && after.stage == if now - RequestedAt(s, es).value >= 15 then None else before.stage)
            && (before.stage.None? ==> after.stage.None?)
            && after == before.(src := after.src, stage := after.stage, put := after.put)
  {
    hide BridgedAt, RequestedAt, Run, Step, InForce, Lost;
    var s := Opened(parent, prefix, size, pad);
    ClockOfEveryRun(parent, prefix, size, pad, es);
    RunThen(s, es, Service(now));
    Served(Run(s, es), now);
  }

  lemma Served(s: State, now: int)
    requires Shaped(s)
    ensures var r := Step(s, Service(now));
            && r.src == (if s.src == Bridge && now - s.bridgeAt >= 30 then Pool else s.src)
            && r.stage == (if s.stage.Some? && now - s.stage.value.at >= 15 then None else s.stage)
            && r == s.(src := r.src, stage := r.stage, put := r.put)
  {
    hide TemplateOf;
  }
}
