/** What a SetExtranoncePrefix does to the work miners are on: which job it sends them under the new
  * prefix, and when that is the job they had.
  */
module PrefixFlush {
  import opened Basics
  import opened ChannelRuns
  import opened ChannelSpec
  import opened DeclaredWork
  import T = TipRing

  /** The last notify of a log, which is what miners are on. */
  function Last(log: seq<Sent>): Sent
    requires log != []
  {
    log[|log| - 1]
  }

  /** One notify more: a pool job on the pool's tip, clean, under this prefix. */
  predicate Flushes(s: State, r: State, prefix: seq<Byte>, job: Job) {
    && s.prev.Some? && |r.log| == |s.log| + 1 && r.log[..|s.log|] == s.log
    && var x := Last(r.log);
    && x.prefix == prefix && x.pad == s.pad && x.notify.clean && x.notify.custom.None?
    && x.notify.tip == s.prev.value.hash && x.notify.jobId == job.id && x.notify.body == job.body
  }

  lemma EmitFlushesJob(s: State, i: nat, now: int)
    requires i < |s.ring| && s.prev.Some? && s.ring[i].kind.Upstream? && |s.ring[i].body.merkles| <= MAX_MERKLES
    ensures Flushes(s, Emit(s, i, true, true, now), s.prefix, s.ring[i])
  {
    hide Coinb1, TemplateOf;
  }

  /** The frame sends the youngest job that is not a future one, on the pool's tip, or nothing. */
  lemma PrefixSends(s: State, prefix: seq<Byte>, now: int)
    requires Shaped(s) && Fits(s)
    ensures var r, newest := StepNewPrefix(s, prefix, now), Newest(s.ring, s.head, 0);
            && r.prefix == prefix
            && (s.prev.Some? && newest.Some? ==> Flushes(s, r, prefix, s.ring[newest.value]))
            && (s.prev.None? || newest.None? ==> r.log == s.log)
  {
    hide Newest, HeldByRing, Rebuilt, RebuiltRing, Emit, HadCustom, MoveTo, Flushes, TemplateOf;
    var ring := RebuiltRing(s.ring, prefix, s.pad);
    NewestRebuilt(s.ring, s.head, 0, prefix, s.pad);
    var newest := Newest(ring, s.head, 0);
    if newest.Some? && s.prev.Some? {
      var i := newest.value;
      var rebuilt := s.(prefix := prefix, ring := ring, put := s.put + HeldByRing(s.ring));
      RebuiltAt(s.ring, i, prefix, s.pad);
      EmitFlushesJob(rebuilt, i, now);
      SameFlush(s, rebuilt, Emit(rebuilt, i, true, true, now), StepNewPrefix(s, prefix, now), prefix, ring[i], s.ring[i]);
    }
  }

  lemma RebuiltAt(ring: seq<Job>, i: nat, prefix: seq<Byte>, pad: nat)
    requires i < |ring| && ring[i].kind.Upstream?
    ensures var job := RebuiltRing(ring, prefix, pad)[i];
            job.kind == ring[i].kind && job.id == ring[i].id && job.body == ring[i].body
  {
    hide Coinb1;
  }

  lemma SameFlush(s: State, t: State, e: State, r: State, prefix: seq<Byte>, job: Job, was: Job)
    requires Flushes(t, e, prefix, job) && t.log == s.log && t.prev == s.prev && t.pad == s.pad
    requires r.log == e.log && job.id == was.id && job.body == was.body
    ensures Flushes(s, r, prefix, was)
  {
  }

  // ----- when miners keep their job -----

  /** Miners are sent the job they are on, on the tip they are on, under the new prefix. */
  predicate KeepsTheJob(s: State, r: State, prefix: seq<Byte>)
    requires s.log != []
  {
    && |r.log| > |s.log| && Last(r.log).prefix == prefix
    && Last(r.log).notify.jobId == Last(s.log).notify.jobId && Last(r.log).notify.tip == Last(s.log).notify.tip
  }

  /** Slot i holds the youngest job that is not a future one. */
  predicate YoungestAt(s: State, i: nat)
    requires Shaped(s)
  {
    i < JOBS && Minable(s.ring[i]) && forall k :: 0 <= k < JOBS && AgeOf(s.head, k) < AgeOf(s.head, i) ==> !Minable(s.ring[k])
  }

  /** Miners are on the pool's tip, and on the job of the ring that was stored last of those that came
    * with a time of their own. A future job does not become one of them when a tip activates it. */
  predicate OnYoungestJob(s: State)
    requires Shaped(s) && s.log != []
  {
    && s.prev.Some? && s.prev.value.hash == Last(s.log).notify.tip
    && exists i :: 0 <= i < JOBS && YoungestAt(s, i) && s.ring[i].id == Last(s.log).notify.jobId
  }

  lemma NewestIsYoungest(s: State, i: nat)
    requires Shaped(s)
    ensures YoungestAt(s, i) <==> Newest(s.ring, s.head, 0) == Some(i)
  {
    hide Newest, AgeOf, SlotOfAge;
    NewestIsStoredLast(s.ring, s.head, 0);
    var newest := Newest(s.ring, s.head, 0);
    if YoungestAt(s, i) && newest.Some? {
      SameAge(s.head, i, newest.value);
    }
  }

  lemma SameAge(head: nat, i: nat, j: nat)
    requires head < JOBS && i < JOBS && j < JOBS
    ensures AgeOf(head, i) == AgeOf(head, j) ==> i == j
  {
    hide SlotOfAge;
  }

  /** A SetExtranoncePrefix gives miners their own job under the new prefix if and only if they are on
    * the youngest job that is not a future one, and on the pool's tip. */
  lemma KeepsTheJobIffYoungest(s: State, prefix: seq<Byte>, now: int)
    requires Shaped(s) && Fits(s) && s.log != []
    ensures KeepsTheJob(s, StepNewPrefix(s, prefix, now), prefix) <==> OnYoungestJob(s)
  {
    hide StepNewPrefix, Newest, YoungestAt, Fits;
    PrefixSends(s, prefix, now);
    var newest := Newest(s.ring, s.head, 0);
    if newest.Some? {
      NewestIsYoungest(s, newest.value);
    }
    forall i | 0 <= i < JOBS && YoungestAt(s, i) ensures newest == Some(i) {
      NewestIsYoungest(s, i);
    }
  }

  // ----- a future job activated -----

  /** A future job, and the tip that activates it. */
  function Activation(id: nat, tip: Hash): seq<Event> {
    [NewJob(Extended(id, None, [], Body(0, [], [])), 0), NewPrevHash(id, Announced(tip, 0, 0), T.Same, true, 0)]
  }

  lemma {:induction false} FindIs(ring: seq<Job>, id: nat, i: nat)
    requires i < |ring| && !ring[i].kind.Cleared? && ring[i].id == id
    requires forall k :: 0 <= k < i ==> ring[k].kind.Cleared? || ring[k].id != id
    ensures Find(ring, id) == i
  {
    if i > 0 {
      FindIs(ring[1..], id, i - 1);
    }
  }

  /** No job of the ring has this id. */
  predicate Unused(s: State, id: nat) {
    forall k :: 0 <= k < |s.ring| ==> s.ring[k].kind.Cleared? || s.ring[k].id != id
  }

  /** s after an activation: miners are on that job, the newest of the ring, and it is a future one. */
  predicate Activated(s: State, r: State, id: nat, tip: Hash) {
    && |s.ring| == |r.ring| == JOBS && s.head < JOBS && r.head == (s.head + 1) % JOBS
    && (forall k :: 0 <= k < JOBS && k != s.head ==> r.ring[k] == s.ring[k])
    && r.ring[s.head].kind == Upstream(true) && r.ring[s.head].id == id && r.ring[s.head].body.merkles == []
    && r.prev == Some(Announced(tip, 0, 0)) && r.src == Pool && r.customPrev.None? && r.stage == s.stage
    && r.prefix == s.prefix && r.pad == s.pad
    && |r.log| == |s.log| + 1 && r.log[..|s.log|] == s.log
    && Last(r.log).notify.jobId == id && Last(r.log).notify.tip == tip && Last(r.log).prefix == s.prefix
  }

  lemma StoresFuture(s: State, id: nat, tip: Hash)
    requires Shaped(s) && Unused(s, id)
    ensures var r := Step(s, Activation(id, tip)[0]);
            && r == Place(s, Stored(s, Activation(id, tip)[0].job)) && Find(r.ring, id) == s.head
  {
    hide Coinb1, TemplateOf;
    FindIs(s.ring[s.head := Stored(s, Activation(id, tip)[0].job)], id, s.head);
  }

  lemma AnnouncesFuture(s: State, i: nat, id: nat, tip: Hash)
    requires Shaped(s) && i < JOBS && Find(s.ring, id) == i && s.ring[i].kind == Upstream(true) && s.ring[i].body.merkles == []
    requires s.src == Pool && s.customPrev.None? && s.parent
    ensures var r := Step(s, Activation(id, tip)[1]);
            && r == s.(ring := s.ring[i := s.ring[i].(tip := tip, nbits := 0)], prev := Some(Announced(tip, 0, 0)),
                       live := r.live, nextNotify := r.nextNotify, log := r.log, flushed := r.flushed, taken := r.taken)
            && |r.log| == |s.log| + 1 && r.log[..|s.log|] == s.log
            && Last(r.log).notify.jobId == s.ring[i].id && Last(r.log).notify.tip == tip && Last(r.log).prefix == s.prefix
  {
    hide Coinb1, Find;
  }

  lemma ActivationActivates(s: State, id: nat, tip: Hash)
    requires Shaped(s) && Unused(s, id) && s.src == Pool && s.customPrev.None? && s.parent
    ensures Activated(s, Run(s, Activation(id, tip)), id, tip)
  {
    hide Step, Coinb1, TemplateOf, Find, Run;
    var es := Activation(id, tip);
    RunOne(s, es[0]);
    RunThen(s, [es[0]], es[1]);
    assert [es[0]] + [es[1]] == es;
    StoresFuture(s, id, tip);
    AnnouncesFuture(Step(s, es[0]), s.head, id, tip);
  }

  lemma OpenedIsUnused(s: State, id: nat)
    requires s == Opened(s.parent, s.prefix, s.size, s.pad)
    ensures Shaped(s) && Unused(s, id) && Fits(s) && s.src == Pool && s.customPrev.None? && s.log == []
    ensures forall k :: 0 <= k < JOBS ==> !Minable(s.ring[k])
  {
  }

  lemma ActivatedFits(s: State, r: State, id: nat, tip: Hash)
    requires Activated(s, r, id, tip) && Fits(s)
    ensures Fits(r)
  {
  }

  lemma FutureIsNotNewest(s: State, r: State, id: nat, tip: Hash)
    requires Shaped(r) && Activated(s, r, id, tip) && forall k :: 0 <= k < JOBS ==> !Minable(s.ring[k])
    ensures Newest(r.ring, r.head, 0).None?
  {
    hide Newest, AgeOf;
    NewestIsStoredLast(r.ring, r.head, 0);
  }

  /** With nothing but an activated future job in the ring, the frame sends miners nothing: they stay on
    * the old prefix. */
  lemma LoneFutureJobIsNotResent(prefix: seq<Byte>, other: seq<Byte>, size: nat, pad: nat)
    ensures var r := Run(Opened(true, prefix, size, pad), Activation(2, 9) + [NewPrefix(other, 0)]);
            && r.prefix == other && |r.log| == 1
            && r.log[0].notify.jobId == 2 && r.log[0].notify.tip == 9 && r.log[0].prefix == prefix
  {
    hide Step, StepNewPrefix, Newest, Activation, Fits, Minable, Run, Shaped;
    var s := Opened(true, prefix, size, pad);
    OpenedIsUnused(s, 2);
    ActivationActivates(s, 2, 9);
    var t := Run(s, Activation(2, 9));
    ActivatedFits(s, t, 2, 9);
    FutureIsNotNewest(s, t, 2, 9);
    RunThen(s, Activation(2, 9), NewPrefix(other, 0));
    StepIsNewPrefix(t, other);
    PrefixSends(t, other, 0);
  }

  /** t after the opening moves of a connection: one immediate job in the ring, and miners on it. */
  lemma OpenedOnce(s: State, t: State)
    requires s == Opened(true, s.prefix, s.size, s.pad) && t == Run(s, Opening(1, 5))
    ensures Shaped(t) && Fits(t) && Unused(t, 2) && t.src == Pool && t.customPrev.None? && t.parent && t.stage.None?
    ensures t.prefix == s.prefix && t.pad == s.pad && t.head == 1
    ensures t.ring[0].kind == Upstream(false) && t.ring[0].id == 1 && forall k :: 1 <= k < JOBS ==> t.ring[k].kind.Cleared?
    ensures |t.log| == 1 && t.log[0].notify.jobId == 1 && t.log[0].notify.tip == 5
  {
    hide Run, Opening, Coinb1;
    OpeningFlushes(s, 1, 5);
  }

  lemma OldestIsYoungest(t: State, u: State)
    requires Shaped(u) && Activated(t, u, 2, 9) && t.head == 1
    requires t.ring[0].kind == Upstream(false) && forall k :: 1 <= k < JOBS ==> t.ring[k].kind.Cleared?
    ensures YoungestAt(u, 0) && u.ring[0] == t.ring[0]
  {
    hide AgeOf;
  }

  /** With an older immediate job in the ring, the frame puts miners on that one: a job the pool gave
    * for tip 5, on tip 9. */
  lemma OlderJobIsSentInstead(prefix: seq<Byte>, other: seq<Byte>, size: nat, pad: nat)
    ensures var r := Run(Opened(true, prefix, size, pad), Opening(1, 5) + Activation(2, 9) + [NewPrefix(other, 0)]);
            && r.prefix == other && |r.log| == 3
            && r.log[0].notify.jobId == 1 && r.log[0].notify.tip == 5
            && r.log[1].notify.jobId == 2 && r.log[1].notify.tip == 9
            && r.log[2].notify.jobId == 1 && r.log[2].notify.tip == 9 && r.log[2].prefix == other && r.log[2].notify.clean
  {
    hide Step, StepNewPrefix, Newest, Activation, Opening, Fits, Minable, Run, Coinb1, ClearedRing, AgeOf;
    var s := Opened(true, prefix, size, pad);
    OpeningFlushes(s, 1, 5);
    var t := Run(s, Opening(1, 5));
    OpenedOnce(s, t);
    ActivationActivates(t, 2, 9);
    RunSum(s, Opening(1, 5), Activation(2, 9));
    var u := Run(s, Opening(1, 5) + Activation(2, 9));
    ActivatedFits(t, u, 2, 9);
    OldestIsYoungest(t, u);
    NewestIsYoungest(u, 0);
    RunThen(s, Opening(1, 5) + Activation(2, 9), NewPrefix(other, 0));
    StepIsNewPrefix(u, other);
    PrefixSends(u, other, 0);
  }

  lemma StepIsNewPrefix(s: State, prefix: seq<Byte>)
    requires Shaped(s)
    ensures Step(s, NewPrefix(prefix, 0)) == StepNewPrefix(s, prefix, 0)
  {
    hide StepNewPrefix;
  }
}
