/** Whether the miners of an upstream SV2 channel have been flushed onto the tip its pool is on.
  */
module FlushedTip {
  import opened Basics
  import opened ChannelRuns
  import opened ChannelSpec
  import opened DeclaredWork
  import T = TipRing

  /** Unless they are on declared work, the last notify that told miners to drop all older work was for the
    * tip the pool has announced. */
  predicate Settled(s: State) {
    s.prev.Some? && s.src != LocalJd ==> LastClean(s.log) == Some(s.prev.value.hash)
  }

  /** The two steps that leave them unflushed. A SetNewPrevHash names a declared job of the ring that is on
    * another tip than the one it announces. Or a SetExtranoncePrefix ends declared work on another tip than the
    * pool's, and there is no job of the pool to flush. */
  predicate Unsettles(s: State, e: Event)
    requires Shaped(s)
  {
    match e
    case NewPrevHash(id, a, _, _, _) =>
      var i := Find(s.ring, id);
      && i < 32 && s.customPrev != Some(a.hash) && s.flushed != Some(a.hash)
      && s.ring[i].kind.Custom? && s.ring[i].tip != a.hash
    case NewPrefix(_, _) =>
      && s.src == LocalJd && s.prev.Some? && HadCustom(s) && Newest(s.ring, s.head, 0).None?
      && LastClean(s.log) != Some(s.prev.value.hash)
    case _ => false
  }

  lemma EmitLeaves(s: State, i: nat, clean: bool, rebuilt: bool, now: int)
    requires i < |s.ring|
    ensures var job := Aimed(s.prev, s.ring[i]);
            LastClean(Emit(s, i, clean, rebuilt, now).log)
              == if Sendable(s.prev, job) && clean then Some(job.tip) else LastClean(s.log)
  {
    hide TemplateOf;
    var r := Emit(s, i, clean, rebuilt, now);
    if Sendable(s.prev, Aimed(s.prev, s.ring[i])) {
      assert r.log[..|s.log|] == s.log;
    }
  }

  lemma NewJobSettles(s: State, j: Extended, now: int)
    requires Shaped(s) && Settled(s)
    ensures Settled(StepNewJob(s, j, now)) && LastClean(StepNewJob(s, j, now).log) == LastClean(s.log)
  {
    hide Emit, Place, Stored, LastClean;
    EmitLeaves(Place(s, Stored(s, j)), s.head, false, false, now);
  }

  lemma TipSettles(s: State, id: nat, a: Announced, local: T.Relation, plausible: bool, now: int)
    requires Shaped(s) && Settled(s) && Recorded(s) && Arbitrated(s) && Fits(s)
    ensures Settled(StepNewPrevHash(s, id, a, local, plausible, now))
            <==> !Unsettles(s, NewPrevHash(id, a, local, plausible, now))
  {
    hide Emit, MoveTo, Find, LastClean;
    var i := Find(s.ring, id);
    if i < |s.ring| {
      NamedJob(s.ring, id);
      var told := s.(prev := Some(a), customPrev := None);
      var rel := if s.parent then local else T.NoLocal;
      EmitLeaves(MoveTo(told, SourceAfter(rel, plausible), now), i, WantClean(s.flushed, a.hash), false, now);
      MovesTo(told, SourceAfter(rel, plausible), now);
    }
  }

  lemma MovesTo(s: State, src: Source, now: int)
    ensures MoveTo(s, src, now).src == src
  {
  }

  lemma AcceptedSettles(s: State, request: nat, id: nat, now: int)
    requires Shaped(s) && Settled(s)
    ensures Settled(StepAccepted(s, request, id, now))
  {
    hide Emit, Place, LastClean;
  }

  lemma ReflushedLeaves(s: State, prefix: seq<Byte>, now: int)
    requires Shaped(s) && Fits(s)
    ensures LastClean(Reflushed(s, prefix, now).log)
         == if s.prev.Some? && Newest(s.ring, s.head, 0).Some? then Some(s.prev.value.hash) else LastClean(s.log)
  {
    hide Newest, HeldByRing, Rebuilt, RebuiltRing, Emit, LastClean;
    var ring := RebuiltRing(s.ring, prefix, s.pad);
    NewestRebuilt(s.ring, s.head, 0, prefix, s.pad);
    var newest := Newest(ring, s.head, 0);
    if newest.Some? && s.prev.Some? {
      var i := newest.value;
      RebuiltMinable(s.ring[i], prefix, s.pad);
      EmitLeaves(s.(prefix := prefix, ring := ring, put := s.put + HeldByRing(s.ring)), i, true, true, now);
    }
  }

  lemma PrefixSettles(s: State, prefix: seq<Byte>, now: int)
    requires Shaped(s) && Settled(s) && Fits(s)
    ensures Settled(StepNewPrefix(s, prefix, now)) <==> !Unsettles(s, NewPrefix(prefix, now))
  {
    hide Reflushed, HadCustom, Newest, LastClean, TemplateOf;
    ReflushedLeaves(s, prefix, now);
  }

  lemma QuietSettles(s: State, e: Event)
    requires Shaped(s) && Settled(s)
    requires !e.NewJob? && !e.NewPrevHash? && !e.CustomAccepted? && !e.NewPrefix?
    ensures Settled(Step(s, e))
  {
    hide StepNewJob, StepNewPrevHash, StepAccepted, StepNewPrefix, LastClean;
    hide DropStage, HeldByRing, Kept, LetGo, FindNotify, Build;
  }

  /** A step leaves miners flushed onto the pool's tip, or on declared work, if and only if it is neither. */
  lemma SettledIffNot(s: State, e: Event)
    requires Shaped(s) && Settled(s) && Recorded(s) && Arbitrated(s) && Fits(s)
    ensures Settled(Step(s, e)) <==> !Unsettles(s, e)
  {
    hide StepNewJob, StepNewPrevHash, StepAccepted, StepNewPrefix, Settled, Find, Newest, HadCustom, LastClean;
    match e
    case NewJob(j, now) => NewJobSettles(s, j, now);
    case NewPrevHash(id, a, local, plausible, now) => TipSettles(s, id, a, local, plausible, now);
    case CustomAccepted(request, id, now) => AcceptedSettles(s, request, id, now);
    case NewPrefix(prefix, now) => PrefixSettles(s, prefix, now);
    case _ => QuietSettles(s, e);
  }

  predicate NeverUnsettles(s: State, es: seq<Event>)
    requires Shaped(s)
  {
    es == [] ||
    (NeverUnsettles(s, es[..|es| - 1]) && !Unsettles(Run(s, es[..|es| - 1]), es[|es| - 1]))
  }

  lemma {:induction false} FitsOfEveryRun(parent: bool, prefix: seq<Byte>, size: nat, pad: nat, es: seq<Event>)
    ensures Fits(Run(Opened(parent, prefix, size, pad), es))
  {
    hide Step, Fits;
    var s := Opened(parent, prefix, size, pad);
    if es == [] {
      OpenedFits(s);
    } else {
      FitsOfEveryRun(parent, prefix, size, pad, es[..|es| - 1]);
      StepFits(Run(s, es[..|es| - 1]), es[|es| - 1]);
    }
  }

  lemma OpenedFits(s: State)
    requires s == Opened(s.parent, s.prefix, s.size, s.pad)
    ensures Fits(s) && Settled(s)
  {
  }

  lemma StepFits(s: State, e: Event)
    requires Shaped(s) && Fits(s)
    ensures Fits(Step(s, e))
  {
    hide StepNewJob, StepNewPrevHash, StepAccepted, StepNewPrefix, StepService, StepReconnect, DropStage, Kept, LetGo, FindNotify;
    hide Coinb1;
    match e
    case NewJob(j, now) => NewJobFits(s, j, now);
    case NewPrevHash(id, a, local, plausible, now) => TipFits(s, id, a, local, plausible, now);
    case CustomAccepted(request, id, now) => AcceptedFits(s, request, id, now);
    case NewPrefix(prefix, now) => PrefixFits(s, prefix, now);
    case Service(now) => ServiceFits(s, now);
    case Reconnect(prefix, size, pad) => ReconnectOnDeclared(s, prefix, size, pad);
    case _ =>
  }

  lemma NewJobFits(s: State, j: Extended, now: int)
    requires Shaped(s) && Fits(s)
    ensures Fits(StepNewJob(s, j, now))
  {
    hide Emit, Place, Coinb1, Fits;
    if |j.body.merkles| <= MAX_MERKLES {
      PlaceFits(s, Stored(s, j));
      EmitSends(Place(s, Stored(s, j)), s.head, false, false, now);
    }
  }

  lemma TipFits(s: State, id: nat, a: Announced, local: T.Relation, plausible: bool, now: int)
    requires Shaped(s) && Fits(s)
    ensures Fits(StepNewPrevHash(s, id, a, local, plausible, now))
  {
    hide Emit, MoveTo, Find;
    var i := Find(s.ring, id);
    if i < |s.ring| {
      var told := s.(prev := Some(a), customPrev := None);
      var rel := if s.parent then local else T.NoLocal;
      EmitSends(MoveTo(told, SourceAfter(rel, plausible), now), i, WantClean(s.flushed, a.hash), false, now);
    }
  }

  lemma AcceptedFits(s: State, request: nat, id: nat, now: int)
    requires Shaped(s) && Fits(s)
    ensures Fits(StepAccepted(s, request, id, now))
  {
    hide Emit, MoveTo, Place, Fits;
    if Answers(s, request) {
      var job := s.stage.value.job.(id := id);
      var unstaged := s.(stage := None, customPrev := Some(job.tip));
      StageFits(s);
      PlaceFits(unstaged, job);
      EmitSends(Place(unstaged, job), s.head, WantClean(s.flushed, job.tip), false, now);
      SourceFits(Emit(Place(unstaged, job), s.head, WantClean(s.flushed, job.tip), false, now), LocalJd, now);
    }
  }

  lemma PrefixFits(s: State, prefix: seq<Byte>, now: int)
    requires Shaped(s) && Fits(s)
    ensures Fits(StepNewPrefix(s, prefix, now))
  {
    hide Reflushed, HadCustom, Newest;
    ReflushedSends(s, prefix, now);
  }

  lemma ServiceFits(s: State, now: int)
    requires Shaped(s) && Fits(s)
    ensures Fits(StepService(s, now))
  {
    hide TemplateOf;
  }

  /** So it is over every run without those two steps, on any number of connections. */
  lemma {:induction false} SettledOfEveryRun(parent: bool, prefix: seq<Byte>, size: nat, pad: nat, es: seq<Event>)
    requires NeverUnsettles(Opened(parent, prefix, size, pad), es)
    ensures Settled(Run(Opened(parent, prefix, size, pad), es))
  {
    hide Step, Unsettles, Settled, Fits, Recorded, FlushesOnce, NeverRepeats;
    var s := Opened(parent, prefix, size, pad);
    if es == [] {
      OpenedFits(s);
    } else {
      var n := |es| - 1;
      SettledOfEveryRun(parent, prefix, size, pad, es[..n]);
      LocalJdIffCustomPrev(parent, prefix, size, pad, es[..n]);
      OneFlushATip(parent, prefix, size, pad, es[..n]);
      FitsOfEveryRun(parent, prefix, size, pad, es[..n]);
      SettledIffNot(Run(s, es[..n]), es[n]);
    }
  }

  /** An immediate job of the pool never tells miners to drop older work; in such a state it is on the tip they
    * were last flushed for, unless the channel says LOCAL_JD. */
  lemma ImmediateJobOnFlushedTip(s: State, j: Extended, now: int)
    requires Shaped(s) && Settled(s) && Fits(s) && s.src != LocalJd
    ensures var r := StepNewJob(s, j, now);
            r.log != s.log ==>
              |r.log| == |s.log| + 1 && !r.log[|s.log|].notify.clean
              && LastClean(s.log) == Some(r.log[|s.log|].notify.tip)
  {
    hide Coinb1, TemplateOf, LastClean;
  }

  /** A job is declared on tip 7 and accepted under id 5, and the pool announces tip 9 for that id. */
  function NamedAfter(prefix: seq<Byte>, size: nat): seq<Event> {
    [Install(DeclaredOn(7, prefix, size), prefix, 0), CustomAccepted(1, 5, 0),
     NewPrevHash(5, Announced(9, 0, 0), T.Same, true, 0)]
  }

  /** The channel is then on pool work for tip 9, and miners were last flushed for tip 7. */
  lemma DeclaredJobNamedUnsettles(prefix: seq<Byte>, size: nat, pad: nat)
    ensures var s := Run(Opened(true, prefix, size, pad), NamedAfter(prefix, size));
            s.src == Pool && s.prev == Some(Announced(9, 0, 0)) && LastClean(s.log) == Some(7)
  {
    hide Step, Coinb1, Run, LastClean;
    var s := Opened(true, prefix, size, pad);
    var es := NamedAfter(prefix, size);
    RunThree(s, es);
    StagesIt(s, DeclaredOn(7, prefix, size));
    var s1 := Step(s, es[0]);
    AcceptsIt(s1);
    NamesIt(Step(s1, es[1]));
  }

  lemma AcceptsIt(s: State)
    requires Shaped(s) && Answers(s, 1) && s.flushed.None? && s.head == 0
    requires s.stage.value.job.tip == 7 && s.stage.value.job.body.merkles == []
    ensures var r := Step(s, CustomAccepted(1, 5, 0));
            && Shaped(r) && r.ring[0].kind.Custom? && r.ring[0].id == 5 && r.ring[0].tip == 7 && r.ring[0].body.merkles == []
            && r.customPrev == Some(7) && r.flushed == Some(7)
  {
    hide TemplateOf, NotifyOf;
  }

  lemma NamesIt(s: State)
    requires Shaped(s) && s.ring[0].kind.Custom? && s.ring[0].id == 5 && s.ring[0].tip == 7 && s.ring[0].body.merkles == []
    requires s.customPrev == Some(7) && s.flushed == Some(7)
    ensures var r := Step(s, NewPrevHash(5, Announced(9, 0, 0), T.Same, true, 0));
            r.src == Pool && r.prev == Some(Announced(9, 0, 0)) && LastClean(r.log) == Some(7)
  {
    hide TemplateOf, NotifyOf, LastClean, Emit;
    assert Find(s.ring, 5) == 0;
    var told := s.(prev := Some(Announced(9, 0, 0)), customPrev := None);
    var rel := if s.parent then T.Same else T.NoLocal;
    EmitLeaves(MoveTo(told, SourceAfter(rel, true), 0), 0, true, false, 0);
  }
}
