/** References on block templates: every one taken is held by exactly one ring slot, stage, notify
  * or solve until it is put, over every run of a channel.
  */
module ChannelTemplates {
  import opened Basics
  import opened ChannelRuns
  import opened ChannelSpec
  import T = TipRing

  function HeldByStage(stage: Option<Staged>): multiset<Template> {
    if stage.Some? then TemplateOf(stage.value.job) else multiset{}
  }

  /** All holders of template references: nothing else does. */
  function Held(s: State): multiset<Template> {
    HeldByRing(s.ring) + HeldByStage(s.stage) + HeldByNotifies(s.live) + s.solving
  }

  /** References taken are those put again and those held: a put without a reference, or a holder
    * forgotten, breaks it. */
  predicate Balanced(s: State) {
    s.taken == s.put + Held(s)
  }

  lemma {:induction false} RingUpdate(ring: seq<Job>, i: nat, job: Job)
    requires i < |ring|
    ensures HeldByRing(ring[i := job]) + TemplateOf(ring[i]) == HeldByRing(ring) + TemplateOf(job)
    decreases |ring|
  {
    hide TemplateOf;
    var n := |ring| - 1;
    if i < n {
      RingUpdate(ring[..n], i, job);
      assert ring[i := job][..n] == ring[..n][i := job] && ring[..n][i] == ring[i];
      Exchange(HeldByRing(ring[..n][i := job]), TemplateOf(ring[n]), TemplateOf(ring[i]));
      Exchange(HeldByRing(ring[..n]), TemplateOf(ring[n]), TemplateOf(job));
    } else {
      assert ring[i := job][..n] == ring[..n];
      Exchange(HeldByRing(ring[..n]), TemplateOf(ring[n]), TemplateOf(job));
    }
  }

  lemma Exchange(a: multiset<Template>, b: multiset<Template>, c: multiset<Template>)
    ensures a + b + c == a + c + b
  {
  }

  lemma Cancel(a: multiset<Template>, b: multiset<Template>, c: multiset<Template>)
    requires a + c == b + c
    ensures a == b
  {
    forall t ensures a[t] == b[t] {
      assert (a + c)[t] == (b + c)[t];
    }
  }

  lemma {:induction false} RingWithout(ring: seq<Job>)
    requires forall i :: 0 <= i < |ring| ==> !ring[i].kind.Custom?
    ensures HeldByRing(ring) == multiset{}
  {
    if ring != [] {
      RingWithout(ring[..|ring| - 1]);
    }
  }

  lemma {:induction false} NotifiesOfSum(a: seq<Notify>, b: seq<Notify>)
    ensures HeldByNotifies(a + b) == HeldByNotifies(a) + HeldByNotifies(b)
    decreases |b|
  {
    hide HeldByNotify;
    if b == [] {
      assert a + b == a;
    } else {
      var n := |b| - 1;
      NotifiesOfSum(a, b[..n]);
      assert (a + b)[..|a + b| - 1] == a + b[..n];
    }
  }

  lemma FirstNotify(live: seq<Notify>)
    requires live != []
    ensures HeldByNotifies(live) == HeldByNotify(live[0]) + HeldByNotifies(live[1..])
  {
    hide HeldByNotify;
    NotifiesOfSum([live[0]], live[1..]);
    assert [live[0]] + live[1..] == live;
    assert [live[0]][..0] == [];
    assert HeldByNotifies([]) == multiset{};
    assert HeldByNotifies([live[0]]) == HeldByNotify(live[0]);
  }

  /** An ageing pass lets go of exactly what it does not keep, and leaves two notifies at least. */
  lemma {:induction false} AgeingSplits(rest: seq<Notify>, count: nat, now: int)
    requires |rest| <= count
    ensures HeldByNotifies(rest) == HeldByNotifies(Kept(rest, count, now)) + LetGo(rest, count, now)
    ensures count >= 2 ==> count - (|rest| - |Kept(rest, count, now)|) >= 2
    decreases |rest|
  {
    hide HeldByNotify, HeldByNotifies;
    if rest != [] && count >= 3 {
      FirstNotify(rest);
      if rest[0].time < now - NOTIFY_AGE {
        AgeingSplits(rest[1..], count - 1, now);
      } else {
        AgeingSplits(rest[1..], count, now);
        var kept := Kept(rest[1..], count, now);
        FirstNotify([rest[0]] + kept);
        assert ([rest[0]] + kept)[1..] == kept;
      }
    } else {
      NothingLetGo(rest, count, now);
    }
  }

  lemma NothingLetGo(rest: seq<Notify>, count: nat, now: int)
    requires rest == [] || count < 3
    ensures Kept(rest, count, now) == rest && LetGo(rest, count, now) == multiset{}
  {
  }

  lemma PlaceBalanced(s: State, job: Job, incoming: multiset<Template>)
    requires s.head < |s.ring| && TemplateOf(job) == incoming && s.taken == s.put + Held(s) + incoming
    ensures Balanced(Place(s, job))
  {
    hide HeldByRing, HeldByNotifies, TemplateOf, HeldByStage;
    RingUpdate(s.ring, s.head, job);
    var rest := s.put + HeldByStage(s.stage) + HeldByNotifies(s.live) + s.solving;
    assert s.taken == rest + (HeldByRing(s.ring) + TemplateOf(job));
    assert s.put + TemplateOf(s.ring[s.head]) + Held(Place(s, job))
        == rest + (HeldByRing(s.ring[s.head := job]) + TemplateOf(s.ring[s.head]));
  }

  lemma EmitBalanced(s: State, i: nat, clean: bool, rebuilt: bool, now: int)
    requires i < |s.ring| && Balanced(s)
    ensures Balanced(Emit(s, i, clean, rebuilt, now))
  {
    hide HeldByRing, HeldByNotifies, HeldByStage, WantClean, NotifyOf, HeldByNotify, TemplateOf;
    AimedHolds(s, s.ring[i]);
    var job := Aimed(s.prev, s.ring[i]);
    RingUpdate(s.ring, i, job);
    Cancel(HeldByRing(s.ring[i := job]), HeldByRing(s.ring), TemplateOf(job));
    if Sendable(s.prev, job) {
      var n := NotifyOf(s.nextNotify, s.prefix, s.prev, job, clean, now);
      NotifyHolds(s, job, clean, now);
      NotifiesOfSum(s.live, [n]);
      OneNotify(n);
      assert s.put + Held(s) + TemplateOf(job) == s.put + Held(Emit(s, i, clean, rebuilt, now));
    }
  }

  lemma AimedHolds(s: State, job: Job)
    ensures TemplateOf(Aimed(s.prev, job)) == TemplateOf(job)
  {
  }

  lemma NotifyHolds(s: State, job: Job, clean: bool, now: int)
    requires Sendable(s.prev, job)
    ensures HeldByNotify(NotifyOf(s.nextNotify, s.prefix, s.prev, job, clean, now)) == TemplateOf(job)
  {
  }

  lemma OneNotify(n: Notify)
    ensures HeldByNotifies([n]) == HeldByNotify(n)
  {
    FirstNotify([n]);
    assert [n][1..] == [] && HeldByNotifies([]) == multiset{};
  }

  lemma DropBalanced(s: State)
    requires Balanced(s)
    ensures Balanced(DropStage(s))
  {
    hide HeldByRing, HeldByNotifies, TemplateOf;
    assert Held(s) == Held(DropStage(s)) + HeldByStage(s.stage);
  }

  lemma MoveBalanced(s: State, src: Source, now: int)
    ensures Balanced(MoveTo(s, src, now)) <==> Balanced(s)
  {
    hide HeldByRing, HeldByNotifies, HeldByStage, MoveTo;
  }

  lemma NewJobBalanced(s: State, j: Extended, now: int)
    requires Shaped(s) && Balanced(s)
    ensures Balanced(StepNewJob(s, j, now))
  {
    hide Emit, Place, Balanced, CustomIsLive;
    if |j.body.merkles| <= MAX_MERKLES {
      StoredHolds(s, j);
      PlaceBalanced(s, Stored(s, j), multiset{});
      EmitBalanced(Place(s, Stored(s, j)), s.head, false, false, now);
    }
  }

  lemma StoredHolds(s: State, j: Extended)
    requires Balanced(s)
    ensures TemplateOf(Stored(s, j)) == multiset{}
    ensures s.taken == s.put + Held(s) + multiset{}
  {
    hide HeldByRing, HeldByNotifies, HeldByStage, Coinb1;
  }

  lemma TipBalanced(s: State, id: nat, a: Announced, local: T.Relation, plausible: bool, now: int)
    requires Shaped(s) && Balanced(s)
    ensures Balanced(StepNewPrevHash(s, id, a, local, plausible, now))
  {
    hide Emit, MoveTo, Find, HeldByRing, HeldByNotifies, HeldByStage;
    var i := Find(s.ring, id);
    if i < |s.ring| && s.customPrev != Some(a.hash) {
      var told := s.(prev := Some(a), customPrev := None);
      var rel := if s.parent then local else T.NoLocal;
      EmitBalanced(MoveTo(told, SourceAfter(rel, plausible), now), i, WantClean(s.flushed, a.hash), false, now);
    }
  }

  lemma AcceptedBalanced(s: State, request: nat, id: nat, now: int)
    requires Shaped(s) && Balanced(s)
    ensures Balanced(StepAccepted(s, request, id, now))
  {
    hide Emit, MoveTo, Place, HeldByRing, HeldByNotifies;
    if Answers(s, request) {
      var job := s.stage.value.job.(id := id);
      var unstaged := s.(stage := None, customPrev := Some(job.tip));
      assert TemplateOf(job) == TemplateOf(s.stage.value.job);
      PlaceBalanced(unstaged, job, TemplateOf(job));
      EmitBalanced(Place(unstaged, job), s.head, WantClean(s.flushed, job.tip), false, now);
    }
  }

  lemma RebuiltHolds(ring: seq<Job>, prefix: seq<Byte>, pad: nat)
    ensures HeldByRing(RebuiltRing(ring, prefix, pad)) == multiset{}
  {
    RingWithout(RebuiltRing(ring, prefix, pad));
  }

  lemma ReflushedBalanced(s: State, prefix: seq<Byte>, now: int)
    requires Shaped(s) && Balanced(s)
    ensures Balanced(Reflushed(s, prefix, now))
  {
    hide Emit, HeldByRing, HeldByNotifies, HeldByStage, Newest, RebuiltRing, Rebuilt;
    var ring := RebuiltRing(s.ring, prefix, s.pad);
    var rebuilt := s.(prefix := prefix, ring := ring, put := s.put + HeldByRing(s.ring));
    RebuiltHolds(s.ring, prefix, s.pad);
    assert Balanced(rebuilt);
    var newest := Newest(ring, s.head, 0);
    if newest.Some? {
      EmitBalanced(rebuilt, newest.value, true, true, now);
    }
  }

  lemma InstallBalanced(s: State, d: Declaration, builtOn: seq<Byte>, now: int)
    requires Shaped(s) && Balanced(s)
    ensures Balanced(StepInstall(s, d, builtOn, now))
  {
    hide HeldByRing, HeldByNotifies, TemplateOf, Build, DropStage;
    DropBalanced(s);
  }

  lemma FindHolds(s: State, id: nat)
    requires Shaped(s) && Balanced(s)
    ensures Balanced(StepSolveBegins(s, id))
  {
    hide HeldByRing, HeldByNotifies, HeldByStage, FindNotify, HeldByNotify;
  }

  lemma SolveEndsBalanced(s: State, t: Template)
    requires Shaped(s) && Balanced(s)
    ensures Balanced(StepSolveEnds(s, t))
  {
    hide HeldByRing, HeldByNotifies, HeldByStage;
  }

  lemma ReconnectBalanced(s: State, prefix: seq<Byte>, size: nat, pad: nat)
    requires Shaped(s) && Balanced(s)
    ensures Balanced(StepReconnect(s, prefix, size, pad))
  {
    hide HeldByRing, HeldByNotifies, TemplateOf;
    RingWithout(Opened(s.parent, prefix, size, pad).ring);
  }

  lemma AgeBalanced(s: State, now: int)
    requires Shaped(s) && Balanced(s)
    ensures Balanced(Step(s, Age(now)))
  {
    hide HeldByRing, HeldByNotifies, HeldByStage, Kept, LetGo;
    AgeingSplits(s.live, |s.live|, now);
  }

  lemma PrefixBalanced(s: State, prefix: seq<Byte>, now: int)
    requires Shaped(s) && Balanced(s)
    ensures Balanced(StepNewPrefix(s, prefix, now))
  {
    hide Reflushed, MoveTo, DropStage, HadCustom, HeldByRing, HeldByNotifies, HeldByStage;
    ReflushedBalanced(s, prefix, now);
    DropBalanced(Reflushed(s, prefix, now));
  }

  lemma ServiceBalanced(s: State, now: int)
    requires Shaped(s) && Balanced(s)
    ensures Balanced(StepService(s, now))
  {
    hide MoveTo, DropStage, Balanced;
    MoveBalanced(s, Pool, now);
    DropBalanced(s);
    DropBalanced(MoveTo(s, Pool, now));
  }

  lemma BalanceKept(s: State, e: Event)
    requires Shaped(s) && Balanced(s)
    ensures Balanced(Step(s, e))
  {
    hide StepNewJob, StepNewPrevHash, StepAccepted, StepNewPrefix, StepInstall, StepService, StepSolveBegins;
    hide StepSolveEnds, StepReconnect, Kept, LetGo, Balanced, DropStage;
    match e
    case NewJob(j, now) => NewJobBalanced(s, j, now);
    case NewPrevHash(id, a, local, plausible, now) => TipBalanced(s, id, a, local, plausible, now);
    case CustomAccepted(request, id, now) => AcceptedBalanced(s, request, id, now);
    case CustomRefused(request) => DropBalanced(s);
    case NewPrefix(prefix, now) => PrefixBalanced(s, prefix, now);
    case Install(d, builtOn, now) => InstallBalanced(s, d, builtOn, now);
    case Service(now) => ServiceBalanced(s, now);
    case Age(now) => AgeBalanced(s, now);
    case SolveBegins(id) => FindHolds(s, id);
    case SolveEnds(t) => SolveEndsBalanced(s, t);
    case Reconnect(prefix, size, pad) => ReconnectBalanced(s, prefix, size, pad);
  }

  /** In every reachable state the references outstanding on a template are its holders: none is
    * released early, twice or never. */
  lemma {:induction false} ReferencesOfEveryRun(parent: bool, prefix: seq<Byte>, size: nat, pad: nat, es: seq<Event>)
    ensures Balanced(Run(Opened(parent, prefix, size, pad), es))
  {
    hide Step, Balanced;
    if es == [] {
      NothingHeld(parent, prefix, size, pad);
    } else {
      ReferencesOfEveryRun(parent, prefix, size, pad, es[..|es| - 1]);
      BalanceKept(Run(Opened(parent, prefix, size, pad), es[..|es| - 1]), es[|es| - 1]);
    }
  }

  lemma NothingHeld(parent: bool, prefix: seq<Byte>, size: nat, pad: nat)
    ensures Balanced(Opened(parent, prefix, size, pad))
  {
    RingWithout(Opened(parent, prefix, size, pad).ring);
  }
}
