/** Which frames send miners a notify, for which job, and whether it flushes them; and which jobs and notifies
  * an upstream SV2 channel keeps.
  */
module ChannelSends {
  import opened Basics
  import opened ChannelRuns
  import opened ChannelSpec
  import opened DeclaredWork
  import T = TipRing

  /** An immediate job of the pool while it has announced a tip and declared work is not live on it; a
    * SetNewPrevHash for a job the channel has, but on the tip declared work is live on; the acceptance of the
    * job asked for; and a new prefix, if there is a tip and a job for it. */
  predicate Sends(s: State, e: Event)
    requires Shaped(s)
  {
    match e
    case NewJob(j, _) => j.minNtime.Some? && |j.body.merkles| <= 32 && s.prev.Some? && !CustomIsLive(s)
    case NewPrevHash(id, a, _, _, _) => Find(s.ring, id) < 32 && s.customPrev != Some(a.hash)
    case CustomAccepted(request, _, _) => Answers(s, request)
    case NewPrefix(_, _) => s.prev.Some? && exists i :: 0 <= i < 32 && Minable(s.ring[i])
    case _ => false
  }

  /** Whether it flushes: never for an immediate job, always under a new prefix, and otherwise if the tip is
    * not the one the connection flushed last. */
  predicate Flushing(s: State, e: Event)
    requires Shaped(s)
  {
    match e
    case NewPrevHash(_, a, _, _, _) => s.flushed != Some(a.hash)
    case CustomAccepted(_, _, _) => s.stage.Some? && s.flushed != Some(s.stage.value.job.tip)
    case NewPrefix(_, _) => true
    case _ => false
  }

  /** One notify more, for this job unless any will do. */
  predicate Sent(s: State, r: State, job: Option<nat>, clean: bool) {
    && |r.log| == |s.log| + 1 && r.log[..|s.log|] == s.log
    && var n := r.log[|s.log|].notify;
    && n.clean == clean && (job.Some? ==> n.jobId == job.value)
    && r.nextNotify == s.nextNotify + 1 && r.live == s.live + [n] && n.id == s.nextNotify
  }

  lemma EmitSendsIt(s: State, i: nat, clean: bool, rebuilt: bool, now: int)
    requires i < |s.ring|
    ensures var job := Aimed(s.prev, s.ring[i]);
            var r := Emit(s, i, clean, rebuilt, now);
            && (Sendable(s.prev, job) ==> Sent(s, r, Some(s.ring[i].id), clean))
            && (!Sendable(s.prev, job) ==> r.log == s.log)
  {
    hide Coinb1, TemplateOf;
  }

  lemma NewJobSends(s: State, j: Extended, now: int)
    requires Shaped(s)
    ensures var r := StepNewJob(s, j, now);
            && (Sends(s, NewJob(j, now)) ==> Sent(s, r, Some(j.id), false))
            && (!Sends(s, NewJob(j, now)) ==> r.log == s.log)
  {
    hide Emit, Place, Coinb1, Sent;
    var placed := Place(s, Stored(s, j));
    EmitSendsIt(placed, s.head, false, false, now);
    SameStart(s, placed, Emit(placed, s.head, false, false, now), Some(j.id), false);
  }

  lemma SameStart(s: State, t: State, r: State, job: Option<nat>, clean: bool)
    requires t.log == s.log && t.nextNotify == s.nextNotify && t.live == s.live
    ensures Sent(t, r, job, clean) <==> Sent(s, r, job, clean)
  {
  }

  lemma TipSends(s: State, id: nat, a: Announced, local: T.Relation, plausible: bool, now: int)
    requires Shaped(s) && Fits(s)
    ensures var e := NewPrevHash(id, a, local, plausible, now);
            var r := StepNewPrevHash(s, id, a, local, plausible, now);
            && (Sends(s, e) ==> Sent(s, r, Some(id), Flushing(s, e)))
            && (!Sends(s, e) ==> r.log == s.log)
  {
    hide Emit, MoveTo, Find, Sent;
    var i := Find(s.ring, id);
    if i < |s.ring| {
      NamedJob(s.ring, id);
      var told := s.(prev := Some(a), customPrev := None);
      var rel := if s.parent then local else T.NoLocal;
      var moved := MoveTo(told, SourceAfter(rel, plausible), now);
      var clean := WantClean(s.flushed, a.hash);
      EmitSendsIt(moved, i, clean, false, now);
      SameStart(s, moved, Emit(moved, i, clean, false, now), Some(id), clean);
    }
  }

  lemma AcceptedSends(s: State, request: nat, id: nat, now: int)
    requires Shaped(s) && Fits(s)
    ensures var e := CustomAccepted(request, id, now);
            var r := StepAccepted(s, request, id, now);
            && (Sends(s, e) ==> Sent(s, r, Some(id), Flushing(s, e)))
            && (!Sends(s, e) ==> r == s)
  {
    hide Emit, MoveTo, Place, Sent;
    if Answers(s, request) {
      var job := s.stage.value.job.(id := id);
      var placed := Place(s.(stage := None, customPrev := Some(job.tip)), job);
      var clean := WantClean(s.flushed, job.tip);
      EmitSendsIt(placed, s.head, clean, false, now);
      var sent := Emit(placed, s.head, clean, false, now);
      SameStart(s, placed, sent, Some(id), clean);
      SameEnd(s, sent, MoveTo(sent, LocalJd, now), Some(id), clean);
    }
  }

  lemma SameEnd(s: State, r: State, t: State, job: Option<nat>, clean: bool)
    requires t.log == r.log && t.nextNotify == r.nextNotify && t.live == r.live
    ensures Sent(s, r, job, clean) <==> Sent(s, t, job, clean)
  {
  }

  lemma NewestExists(ring: seq<Job>, head: nat)
    requires |ring| == JOBS && head < JOBS
    ensures Newest(ring, head, 0).Some? <==> exists i :: 0 <= i < 32 && Minable(ring[i])
  {
    hide Newest, AgeOf, SlotOfAge;
    NewestIsStoredLast(ring, head, 0);
  }

  lemma PrefixSendsOne(s: State, prefix: seq<Byte>, now: int)
    requires Shaped(s) && Fits(s)
    ensures var e := NewPrefix(prefix, now);
            var r := StepNewPrefix(s, prefix, now);
            && (Sends(s, e) ==> Sent(s, r, None, true))
            && (!Sends(s, e) ==> r.log == s.log)
  {
    hide Newest, HeldByRing, Rebuilt, RebuiltRing, Emit, HadCustom, MoveTo, Sent, TemplateOf;
    NewestExists(s.ring, s.head);
    var ring := RebuiltRing(s.ring, prefix, s.pad);
    NewestRebuilt(s.ring, s.head, 0, prefix, s.pad);
    var newest := Newest(ring, s.head, 0);
    if newest.Some? && s.prev.Some? {
      var i := newest.value;
      RebuiltMinable(s.ring[i], prefix, s.pad);
      var rebuilt := s.(prefix := prefix, ring := ring, put := s.put + HeldByRing(s.ring));
      EmitSendsIt(rebuilt, i, true, true, now);
      SomeJob(s, rebuilt, Emit(rebuilt, i, true, true, now), StepNewPrefix(s, prefix, now), ring[i].id);
    }
  }

  lemma SomeJob(s: State, t: State, r: State, u: State, id: nat)
    requires t.log == s.log && t.nextNotify == s.nextNotify && t.live == s.live && Sent(t, r, Some(id), true)
    requires u.log == r.log && u.nextNotify == r.nextNotify && u.live == r.live
    ensures Sent(s, u, None, true)
  {
  }

  /** A step of the channel sends exactly one notify or none, exactly as told by those two predicates. */
  lemma StepSends(s: State, e: Event)
    requires Shaped(s) && Fits(s)
    ensures var job := if e.NewJob? then Some(e.job.id) else if e.NewPrevHash? || e.CustomAccepted? then Some(e.id) else None;
            && (Sends(s, e) ==> Sent(s, Step(s, e), job, Flushing(s, e)))
            && (!Sends(s, e) ==> Step(s, e).log == s.log)
  {
    hide StepNewJob, StepNewPrevHash, StepAccepted, StepNewPrefix, DropStage, HeldByRing, Kept, LetGo, FindNotify, Build;
    hide Sent, Find;
    match e
    case NewJob(j, now) => NewJobSends(s, j, now);
    case NewPrevHash(id, a, local, plausible, now) => TipSends(s, id, a, local, plausible, now);
    case CustomAccepted(request, id, now) => AcceptedSends(s, request, id, now);
    case NewPrefix(prefix, now) => PrefixSendsOne(s, prefix, now);
    case _ =>
  }

  // ----- what is kept -----

  /** A job the frame stores stands in the slot that was the oldest of 32, with all it came with; the others
    * stay. A branch of more than 32 levels is refused. */
  lemma JobIsStored(s: State, j: Extended, now: int)
    requires Shaped(s)
    ensures var r := StepNewJob(s, j, now);
            && (|j.body.merkles| > 32 ==> r == s)
            && (|j.body.merkles| <= 32 ==>
                  && |r.ring| == 32 && AgeOf(s.head, s.head) == 31 && AgeOf(r.head, s.head) == 0
                  && r.ring[s.head].kind == Upstream(j.minNtime.None?) && r.ring[s.head].id == j.id
                  && r.ring[s.head].body == j.body && r.ring[s.head].coinb1 == j.base + s.prefix + Zeros(s.pad)
                  && forall k :: 0 <= k < 32 && k != s.head ==> r.ring[k] == s.ring[k])
  {
    hide TemplateOf, NotifyOf;
  }

  /** An ageing pass lets go of no notify younger than ten minutes and of none while fewer than three are left;
    * and if three are left, none of them is older. */
  lemma {:induction false} AgeingKeeps(rest: seq<Notify>, count: nat, now: int)
    requires count >= |rest|
    ensures var kept := Kept(rest, count, now);
            var gone := |rest| - |kept|;
            && gone >= 0
            && (forall n :: n in rest && n.time >= now - 600 ==> n in kept)
            && (forall n :: n in kept ==> n in rest)
            && (gone > 0 ==> count - gone >= 2)
            && (count - gone >= 3 ==> forall n :: n in kept ==> n.time >= now - 600)
  {
    if rest != [] && count >= 3 {
      var aged := rest[0].time < now - 600;
      AgeingKeeps(rest[1..], if aged then count - 1 else count, now);
      KeptOnce(rest, count, now);
    }
  }

  lemma KeptOnce(rest: seq<Notify>, count: nat, now: int)
    requires rest != [] && count >= 3
    ensures var aged := rest[0].time < now - 600;
            Kept(rest, count, now)
              == (if aged then [] else [rest[0]]) + Kept(rest[1..], if aged then count - 1 else count, now)
    ensures forall n :: n in rest <==> n == rest[0] || n in rest[1..]
  {
    assert rest == [rest[0]] + rest[1..];
  }
}
