/** What every interleaving of the connector's threads keeps. */
module ClientRuns {
  import opened Basics
  import opened ClientLifecycle

  /** s and t differ in the references of c only, and in what threads know without one. */
  ghost predicate OnlyRefs(s: State, t: State, c: Ptr) {
    && c in s.mem && c in t.mem
    && t == s.(mem := s.mem[c := s.mem[c].(ref := t.mem[c].ref)],
               accepting := t.accepting, loaded := t.loaded, holders := t.holders, queued := t.queued, known := t.known)
    && (forall d :: d in t.loaded ==> d in t.accepting)
    && (forall d :: d != c ==> t.holders[d] == s.holders[d] && t.queued[d] == s.queued[d])
    && (forall d :: d != c ==> (d in t.accepting <==> d in s.accepting))
    && (c in t.accepting ==> c in s.accepting)
  }

  /** Threads know only of structures there are. */
  ghost predicate KnowsOf(s: State, k: Known) {
    forall c :: c in k.handed || c in k.latched ==> c in s.mem
  }

  lemma KnowsMore(s: State, c: Ptr)
    requires Tables(s) && c in s.mem
    ensures KnowsOf(s, s.known) && KnowsOf(s, HandsOver(s.known, c)) && KnowsOf(s, Forgets(s.known, c))
    ensures KnowsOf(s, Redirects(s.known, c)) && KnowsOf(s, Latches(s.known, c))
  {
  }

  lemma RefsTables(s: State, t: State, c: Ptr)
    requires Tables(s) && OnlyRefs(s, t, c) && KnowsOf(s, t.known)
    ensures Tables(t)
  {
    forall d | d in t.holders || d in t.queued ensures d in t.mem {
      if d != c {
        assert t.holders[d] == s.holders[d] && t.queued[d] == s.queued[d];
      }
    }
  }

  lemma RefsOther(s: State, t: State, c: Ptr, d: Ptr)
    requires OnlyRefs(s, t, c) && d in s.mem && d != c && Sound(s, d)
    ensures Sound(t, d)
  {
    assert t.mem[d] == s.mem[d];
  }

  lemma RefsSelf(s: State, t: State, c: Ptr)
    requires OnlyRefs(s, t, c) && Sound(s, c)
    requires t.mem[c].ref - s.mem[c].ref
          == t.holders[c] - s.holders[c] + t.queued[c] - s.queued[c] + One(c in s.accepting) - One(c in t.accepting)
    ensures Sound(t, c) <==> (c in s.recycled || c in s.recruited ==> t.holders[c] == 0 && t.queued[c] == 0)
  {
    assert Live(t, c) <==> Live(s, c);
  }

  lemma RefsSound(s: State, t: State, c: Ptr)
    requires Inv(s) && OnlyRefs(s, t, c) && KnowsOf(s, t.known)
    requires t.mem[c].ref - s.mem[c].ref
          == t.holders[c] - s.holders[c] + t.queued[c] - s.queued[c] + One(c in s.accepting) - One(c in t.accepting)
    ensures Inv(t) <==> (c in s.recycled || c in s.recruited ==> t.holders[c] == 0 && t.queued[c] == 0)
  {
    hide Tables, Distinct, Sound, One, KnowsOf;
    RefsTables(s, t, c);
    forall d | d in s.mem && d != c ensures Sound(t, d) {
      RefsOther(s, t, c, d);
    }
    RefsSelf(s, t, c);
  }

  /** s after a step that counts n more references of c. */
  function Counted(s: State, c: Ptr, n: int, holders: multiset<Ptr>, queued: multiset<Ptr>, known: Known): State
    requires c in s.mem
  {
    s.(mem := AddRef(s.mem, c, n), holders := holders, queued := queued, known := known)
  }

  lemma CountedRefs(s: State, c: Ptr, n: int, holders: multiset<Ptr>, queued: multiset<Ptr>, known: Known)
    requires Tables(s) && c in s.mem
    requires forall d :: d != c ==> holders[d] == s.holders[d] && queued[d] == s.queued[d]
    ensures OnlyRefs(s, Counted(s, c, n, holders, queued, known), c)
    ensures Counted(s, c, n, holders, queued, known).mem[c].ref == s.mem[c].ref + n
  {
  }

  /** Such a step keeps every count right exactly if it moves n references, and leaves none with a
    * structure up for reuse. */
  lemma CountedSound(s: State, c: Ptr, n: int, holders: multiset<Ptr>, queued: multiset<Ptr>, known: Known)
    requires Inv(s) && c in s.mem && KnowsOf(s, known) && n + s.holders[c] + s.queued[c] == holders[c] + queued[c]
    requires forall d :: d != c ==> holders[d] == s.holders[d] && queued[d] == s.queued[d]
    ensures Inv(Counted(s, c, n, holders, queued, known)) <==>
            (c in s.recycled || c in s.recruited ==> holders[c] == 0 && queued[c] == 0)
  {
    hide Sound, OnlyRefs, KnowsOf, AddRef, Distinct, Tables;
    assert Tables(s) by {
      InvTables(s);
    }
    CountedRefs(s, c, n, holders, queued, known);
    RefsSound(s, Counted(s, c, n, holders, queued, known), c);
  }

  lemma LiveIsBusy(s: State, c: Ptr)
    requires Inv(s) && Live(s, c)
    ensures c in s.mem && c !in s.recycled && c !in s.recruited && !s.mem[c].invalid
  {
    assert Sound(s, c);
  }

  lemma MemberPlace(s: State, c: Ptr)
    requires Inv(s) && c in s.mem
    ensures c in s.holders || c in s.queued || c in s.accepting ==> c !in s.recycled && c !in s.recruited
  {
    assert Sound(s, c);
  }

  /** s and t agree on d: its memory, its places and its references. */
  ghost predicate SameFor(s: State, t: State, d: Ptr) {
    && d in s.mem && d in t.mem && t.mem[d] == s.mem[d]
    && (Live(t, d) <==> Live(s, d)) && (d in t.dead <==> d in s.dead)
    && (d in t.recycled <==> d in s.recycled) && (d in t.recruited <==> d in s.recruited)
    && (d in t.accepting <==> d in s.accepting) && t.holders[d] == s.holders[d] && t.queued[d] == s.queued[d]
  }

  lemma SameSound(s: State, t: State, d: Ptr)
    requires SameFor(s, t, d) && Sound(s, d)
    ensures Sound(t, d)
  {
  }

  lemma LoadSound(s: State, c: Ptr)
    requires Inv(s) && c in s.accepting
    ensures Inv(s.(loaded := s.loaded[c := s.mem[c].ref]))
  {
    assert Tables(s) && c in s.mem;
    hide Distinct, Sound, Tables;
    var t := s.(loaded := s.loaded[c := s.mem[c].ref]);
    LoadTables(s, c);
    forall d | d in s.mem ensures Sound(t, d) {
      assert SameFor(s, t, d);
      SameSound(s, t, d);
    }
  }

  lemma LoadTables(s: State, c: Ptr)
    requires Tables(s) && c in s.accepting
    ensures Tables(s.(loaded := s.loaded[c := s.mem[c].ref]))
  {
  }

  /** The epoll reference is added soundly exactly to the count as it still is. */
  lemma StoreSound(s: State, c: Ptr)
    requires Inv(s) && c in s.loaded
    ensures Inv(Step(s, AcceptStore(c))) <==> s.loaded[c] == s.mem[c].ref
  {
    hide Sound, OnlyRefs, Distinct, One, KnowsOf;
    MemberPlace(s, c);
    KnowsMore(s, c);
    var t := Step(s, AcceptStore(c));
    StoreCounted(s, t, c);
    if s.loaded[c] == s.mem[c].ref {
      CountedOne(s, t, c);
      RefsSound(s, t, c);
    } else {
      StoreTorn(s, t, c);
    }
  }

  lemma StoreCounted(s: State, t: State, c: Ptr)
    requires Inv(s) && c in s.loaded && t == Step(s, AcceptStore(c))
    ensures OnlyRefs(s, t, c) && t.mem[c].ref == s.loaded[c] + 1
  {
    hide Sound, Distinct;
  }

  lemma CountedOne(s: State, t: State, c: Ptr)
    requires Inv(s) && c in s.loaded && t == Step(s, AcceptStore(c)) && s.loaded[c] == s.mem[c].ref
    ensures t.mem[c].ref - s.mem[c].ref
         == t.holders[c] - s.holders[c] + t.queued[c] - s.queued[c] + One(c in s.accepting) - One(c in t.accepting)
  {
    hide Sound, Distinct;
  }

  lemma StoreTorn(s: State, t: State, c: Ptr)
    requires Inv(s) && c in s.loaded && t == Step(s, AcceptStore(c)) && s.loaded[c] != s.mem[c].ref
    ensures !Inv(t)
  {
    assert Sound(s, c);
    assert Live(t, c) <==> Live(s, c);
    assert c in t.mem && !Sound(t, c);
  }

  /** A count written from under the epoll reference is short of it for good. */
  lemma OverwrittenUnsound(s: State, c: Ptr, locked: Event)
    requires Inv(s) && Enabled(s, Overwritten(c, locked)) && Inv(Step(s, locked))
    requires c in Step(s, locked).mem && c in Step(s, locked).accepting
    ensures !Inv(Accepted(Step(s, locked), c))
  {
    var u := Step(s, locked);
    var t := Accepted(u, c);
    assert Sound(u, c);
    assert Live(t, c) <==> Live(u, c);
    assert !Sound(t, c);
  }

  lemma TakeSound(s: State, id: int)
    requires Inv(s)
    ensures Inv(Step(s, RefById(id)))
  {
    hide Sound, Distinct, KnowsOf, Inv;
    InvTables(s);
    if id in s.hash && !s.mem[s.hash[id]].invalid {
      var c := s.hash[id];
      LiveIsBusy(s, c);
      KnowsMore(s, c);
      CountedSound(s, c, 1, s.holders + multiset{c}, s.queued, s.known);
    }
  }

  lemma ReleaseSound(s: State, c: Ptr)
    requires Inv(s) && c in s.holders
    ensures Inv(Step(s, Release(c)))
  {
    hide Sound, Distinct, KnowsOf, Inv;
    InvTables(s);
    MemberPlace(s, c);
    KnowsMore(s, c);
    CountedSound(s, c, -1, s.holders - multiset{c}, s.queued, s.known);
  }

  lemma SentSound(s: State, c: Ptr)
    requires Inv(s) && c in s.queued
    ensures Inv(Step(s, Sent(c)))
  {
    hide Sound, Distinct, KnowsOf, Inv;
    InvTables(s);
    MemberPlace(s, c);
    KnowsMore(s, c);
    CountedSound(s, c, -1, s.holders, s.queued - multiset{c}, s.known);
  }

  lemma SameCount(s: State, c: Ptr)
    requires c in s.mem
    ensures AddRef(s.mem, c, 0) == s.mem
  {
  }

  lemma QueueHeldSound(s: State, c: Ptr)
    requires Inv(s) && c in s.holders
    ensures Inv(Step(s, QueueHeld(c)))
  {
    hide Sound, Distinct, KnowsOf, Inv, HandsOver;
    InvTables(s);
    MemberPlace(s, c);
    KnowsMore(s, c);
    SameCount(s, c);
    CountedSound(s, c, 0, s.holders - multiset{c}, s.queued + multiset{c}, HandsOver(s.known, c));
  }

  lemma QueueBesideSound(s: State, c: Ptr)
    requires Inv(s) && c in s.holders
    ensures Inv(Step(s, QueueBeside(c)))
  {
    hide Sound, Distinct, KnowsOf, Inv;
    InvTables(s);
    MemberPlace(s, c);
    KnowsMore(s, c);
    CountedSound(s, c, 1, s.holders, s.queued + multiset{c}, s.known);
  }

  /** A reference taken for a client whose own was handed over is safe exactly on a structure not up
    * for reuse. */
  lemma QueueMoreSound(s: State, c: Ptr)
    requires Inv(s) && c in s.known.latched
    ensures Inv(Step(s, QueueMore(c))) <==> c !in s.recycled && c !in s.recruited
  {
    hide Sound, Distinct, KnowsOf, Inv, Redirects;
    InvTables(s);
    KnowsMore(s, c);
    CountedSound(s, c, 1, s.holders, s.queued + multiset{c}, Redirects(s.known, c));
  }

  /** What a thread still knows of a client counts for nothing. */
  lemma KnownSound(s: State, c: Ptr)
    requires Inv(s) && c in s.known.handed
    ensures Inv(Step(s, Forget(c)))
    ensures Enabled(s, Latch(c)) ==> Inv(Step(s, Latch(c)))
  {
    hide Sound, Distinct, KnowsOf, Inv, Forgets, Latches;
    InvTables(s);
    KnowsMore(s, c);
    SameCount(s, c);
    MemberSound(s, c);
    CountedSound(s, c, 0, s.holders, s.queued, Forgets(s.known, c));
    CountedSound(s, c, 0, s.holders, s.queued, Latches(s.known, c));
  }

  lemma MemberSound(s: State, c: Ptr)
    requires Inv(s) && c in s.mem
    ensures c in s.recycled || c in s.recruited ==> s.holders[c] == 0 && s.queued[c] == 0
  {
    assert Sound(s, c);
  }

  // ----- the steps that move a structure from place to place -----

  lemma RecruitSound(s: State, spare: Ptr)
    requires Inv(s) && spare !in s.mem
    ensures Inv(StepRecruit(s, spare))
  {
    hide Sound;
    var t := StepRecruit(s, spare);
    var c := if s.recycled != [] then s.recycled[0] else spare;
    RecruitTables(s, spare);
    forall d | d in s.mem && d != c ensures Sound(t, d) {
      assert SameFor(s, t, d);
      SameSound(s, t, d);
    }
    RecruitSelf(s, spare, c);
  }

  lemma RecruitTables(s: State, spare: Ptr)
    requires Inv(s) && spare !in s.mem
    ensures Tables(StepRecruit(s, spare)) && Distinct(StepRecruit(s, spare).recycled)
  {
    hide Sound;
  }

  lemma RecruitSelf(s: State, spare: Ptr, c: Ptr)
    requires Inv(s) && spare !in s.mem && c == if s.recycled != [] then s.recycled[0] else spare
    ensures Sound(StepRecruit(s, spare), c)
  {
    if s.recycled != [] {
      assert Sound(s, c);
    }
  }

  lemma UnrecruitSound(s: State, c: Ptr)
    requires Inv(s) && c in s.recruited
    ensures Inv(StepUnrecruit(s, c))
  {
    hide Sound;
    var t := StepUnrecruit(s, c);
    forall d | d in s.mem && d != c ensures Sound(t, d) {
      assert SameFor(s, t, d);
      SameSound(s, t, d);
    }
    UnrecruitSelf(s, c);
  }

  lemma UnrecruitSelf(s: State, c: Ptr)
    requires Inv(s) && c in s.recruited
    ensures Sound(StepUnrecruit(s, c), c) && c !in s.recycled && !Live(s, c)
  {
    assert Sound(s, c);
  }

  lemma HashSound(s: State, c: Ptr)
    requires Inv(s) && c in s.recruited
    ensures Inv(StepHash(s, c))
  {
    hide Sound;
    var t := StepHash(s, c);
    HashSelf(s, c);
    forall d | d in s.mem && d != c ensures Sound(t, d) {
      assert SameFor(s, t, d);
      SameSound(s, t, d);
    }
  }

  lemma HashSelf(s: State, c: Ptr)
    requires Inv(s) && c in s.recruited
    ensures Sound(StepHash(s, c), c) && !Live(s, c)
  {
    assert Sound(s, c);
  }

  lemma DropSound(s: State, c: Ptr)
    requires Inv(s) && Enabled(s, Drop(c))
    ensures Inv(StepDrop(s, c))
  {
    hide Sound;
    var t := StepDrop(s, c);
    DropSelf(s, c);
    if !s.mem[c].invalid {
      forall d | d in s.mem && d != c ensures Sound(t, d) {
        assert SameFor(s, t, d);
        SameSound(s, t, d);
      }
    }
  }

  lemma DropSelf(s: State, c: Ptr)
    requires Inv(s) && Enabled(s, Drop(c))
    ensures Sound(StepDrop(s, c), c)
    ensures !s.mem[c].invalid ==> Live(s, c) && c !in s.dead
  {
    assert Sound(s, c);
  }

  // ----- culling -----

  lemma {:induction false} SelectDistinct(list: seq<Ptr>, mem: map<Ptr, Client>, idle: bool)
    requires Distinct(list) && forall c :: c in list ==> c in mem
    ensures Distinct(Select(list, mem, idle))
  {
    if list != [] {
      SelectDistinct(list[..|list| - 1], mem, idle);
    }
  }

  lemma CullPlaces(s: State, d: Ptr)
    requires Inv(s) && d in s.mem
    ensures d in s.dead ==> !Live(s, d) && d !in s.recycled && d !in s.recruited
    ensures Live(StepCull(s), d) <==> Live(s, d)
  {
    assert Sound(s, d);
  }

  lemma CullOther(s: State, d: Ptr)
    requires Inv(s) && d in s.mem && d !in Select(s.dead, s.mem, true)
    ensures Sound(StepCull(s), d)
  {
    assert Sound(s, d);
    CullPlaces(s, d);
  }

  lemma CullSelf(s: State, c: Ptr)
    requires Inv(s) && c in s.dead && s.mem[c].ref == 0
    ensures Sound(StepCull(s), c) <==> !(c in s.accepting && s.holders[c] + s.queued[c] == 1)
  {
    assert Sound(s, c);
    CullPlaces(s, c);
  }

  lemma DistinctSum(a: seq<Ptr>, b: seq<Ptr>)
    requires Distinct(a) && Distinct(b) && forall c :: c in b ==> c !in a
    ensures Distinct(a + b)
  {
    forall i, j | 0 <= i < j < |a + b| ensures (a + b)[i] != (a + b)[j] {
      if i < |a| <= j {
        assert b[j - |a|] in b;
      }
    }
  }

  lemma CullLists(s: State)
    requires Inv(s)
    ensures Distinct(StepCull(s).dead) && Distinct(StepCull(s).recycled)
  {
    hide Sound, Distinct;
    var idle := Select(s.dead, s.mem, true);
    SelectDistinct(s.dead, s.mem, true);
    SelectDistinct(s.dead, s.mem, false);
    forall c | c in idle ensures c !in s.recycled {
      CullPlaces(s, c);
    }
    DistinctSum(s.recycled, idle);
  }

  lemma CullTables(s: State)
    requires Inv(s)
    ensures Tables(StepCull(s))
  {
    hide Sound, Distinct;
    var idle := Select(s.dead, s.mem, true);
    forall id | id in s.hash ensures s.hash[id] !in idle {
      LiveIsNotDead(s, s.hash[id]);
    }
    assert StepCull(s).mem.Keys == s.mem.Keys;
  }

  lemma LiveIsNotDead(s: State, c: Ptr)
    requires Inv(s) && c in s.mem && Live(s, c)
    ensures c !in s.dead
  {
    assert Sound(s, c);
  }

  /** A cull takes a dead client from under one that still has it exactly in the accept window. */
  lemma CullSound(s: State)
    requires Inv(s)
    ensures Inv(StepCull(s)) <==> Clean(s, Cull)
  {
    hide Sound, Tables, Distinct;
    DeadInMemory(s);
    var t := StepCull(s);
    var idle := Select(s.dead, s.mem, true);
    CullTables(s);
    CullLists(s);
    assert t.mem.Keys == s.mem.Keys;
    forall d | d in s.mem && d !in idle ensures Sound(t, d) {
      CullOther(s, d);
    }
    forall c | c in idle ensures c in t.mem && (Sound(t, c) <==> !(c in s.accepting && s.holders[c] + s.queued[c] == 1)) {
      CullSelf(s, c);
    }
    forall c | c in s.dead && c in s.accepting && s.holders[c] + s.queued[c] == 1 ensures c in idle {
      WindowIsIdle(s, c);
    }
    if !Clean(s, Cull) {
      var c :| c in s.dead && c in s.accepting && s.holders[c] + s.queued[c] == 1;
      assert c in idle && !Sound(t, c);
    }
  }

  lemma DeadInMemory(s: State)
    requires Tables(s)
    ensures forall c :: c in s.dead ==> c in s.mem
  {
  }

  lemma WindowIsIdle(s: State, c: Ptr)
    requires Inv(s) && c in s.dead && c in s.accepting && s.holders[c] + s.queued[c] == 1
    ensures c in s.mem && s.mem[c].ref == 0
  {
    assert c in s.mem;
    assert Sound(s, c);
  }

  // ----- every run -----

  lemma StepOf(s: State, e: Event)
    requires Tables(s) && Enabled(s, e)
    ensures e.Recruit? ==> Step(s, e) == StepRecruit(s, e.spare)
    ensures e.Unrecruit? ==> Step(s, e) == StepUnrecruit(s, e.c)
    ensures e.AcceptHash? ==> Step(s, e) == StepHash(s, e.c)
    ensures e.AcceptLoad? ==> Step(s, e) == s.(loaded := s.loaded[e.c := s.mem[e.c].ref])
    ensures e.Drop? ==> Step(s, e) == StepDrop(s, e.c)
    ensures e.Cull? ==> Step(s, e) == StepCull(s)
    ensures e.Overwritten? ==> Step(s, e) == Accepted(Step(s, e.locked), e.c)
  {
    hide StepRecruit, StepUnrecruit, StepHash, StepDrop, StepCull, Accepted;
  }

  lemma OverwritesBreak(s: State, c: Ptr, locked: Event)
    requires Inv(s) && Enabled(s, Overwritten(c, locked))
    ensures !Inv(Step(s, Overwritten(c, locked)))
    decreases locked, 1
  {
    hide Inv, Step, Accepted;
    InvTables(s);
    CountedStays(s, c, locked);
    SafeIffClean(s, locked);
    OverwrittenUnsound(s, c, locked);
    StepOf(s, Overwritten(c, locked));
  }

  lemma CountedStays(s: State, c: Ptr, locked: Event)
    requires Inv(s) && c in s.accepting && Enabled(s, locked) && Counts(s, locked, c)
    ensures Clean(s, locked) && c in Step(s, locked).mem && c in Step(s, locked).accepting
  {
    hide Sound;
    MemberPlace(s, c);
  }

  /** A step keeps every count right and every structure in one place if and only if it avoids
    * those windows. */
  lemma SafeIffClean(s: State, e: Event)
    requires Inv(s) && Enabled(s, e)
    ensures Inv(Step(s, e)) <==> Clean(s, e)
    decreases e, 0
  {
    hide Inv, Select, Step;
    InvTables(s);
    StepOf(s, e);
    match e
    case Recruit(spare) => RecruitSound(s, spare);
    case Unrecruit(c) => UnrecruitSound(s, c);
    case AcceptHash(c) => HashSound(s, c);
    case AcceptLoad(c) => LoadSound(s, c);
    case AcceptStore(c) => StoreSound(s, c);
    case Overwritten(c, locked) => OverwritesBreak(s, c, locked);
    case RefById(id) => TakeSound(s, id);
    case Release(c) => ReleaseSound(s, c);
    case Drop(c) => DropSound(s, c);
    case Cull => CullSound(s);
    case QueueBeside(c) => QueueBesideSound(s, c);
    case QueueHeld(c) => QueueHeldSound(s, c);
    case Forget(c) => KnownSound(s, c);
    case Latch(c) => KnownSound(s, c);
    case QueueMore(c) => QueueMoreSound(s, c);
    case Sent(c) => SentSound(s, c);
  }

  lemma InvTables(s: State)
    requires Inv(s)
    ensures Tables(s)
  {
  }

  /** The states of a run of enabled steps that avoid those windows. */
  ghost predicate CleanRun(run: seq<State>, events: seq<Event>) {
    && |run| == |events| + 1 && run[0] == NOBODY
    && forall k :: 0 <= k < |events| ==>
         && Tables(run[k]) && Enabled(run[k], events[k]) && Clean(run[k], events[k])
         && run[k + 1] == Step(run[k], events[k])
  }

  lemma {:induction false} EveryStateSound(run: seq<State>, events: seq<Event>, k: nat)
    requires CleanRun(run, events) && k < |run|
    ensures Inv(run[k])
  {
    hide Step, Clean, Enabled, Inv, Tables;
    if k == 0 {
      NobodySound();
    } else {
      EveryStateSound(run, events, k - 1);
      SafeIffClean(run[k - 1], events[k - 1]);
    }
  }

  lemma NobodySound()
    ensures Inv(NOBODY)
  {
  }

  /** In every state of such a run no structure with a queued send or a holder is up for reuse,
    * and the dead clients a cull recycles are exactly those with neither. */
  lemma NothingHeldIsReused(run: seq<State>, events: seq<Event>, k: nat, c: Ptr)
    requires CleanRun(run, events) && k < |run| && c in run[k].mem
    ensures var s := run[k];
            && (s.queued[c] + s.holders[c] > 0 ==> Live(s, c) || c in s.dead)
            && (c in s.dead && c !in s.accepting ==> (s.mem[c].ref == 0 <==> s.holders[c] == 0 && s.queued[c] == 0))
  {
    hide Tables, Distinct, Step, CleanRun;
    EveryStateSound(run, events, k);
    assert Sound(run[k], c);
  }

  // ----- the windows are real -----

  ghost predicate RunTo(run: seq<State>, events: seq<Event>, s: State) {
    CleanRun(run, events) && run[|events|] == s
  }

  /** These steps, each enabled and outside the windows, lead to s. */
  ghost predicate Leads(events: seq<Event>, s: State) {
    exists run :: RunTo(run, events, s)
  }

  lemma LeadsSound(events: seq<Event>, s: State)
    requires Leads(events, s)
    ensures Inv(s) && Tables(s)
  {
    hide Step, Clean, Enabled, Inv, Tables;
    var run :| RunTo(run, events, s);
    EveryStateSound(run, events, |events|);
    InvTables(s);
  }

  lemma LeadsOn(events: seq<Event>, s: State, e: Event)
    requires Leads(events, s) && Enabled(s, e) && Clean(s, e)
    ensures Tables(s) && Leads(events + [e], Step(s, e))
    ensures Inv(Step(s, e)) && Tables(Step(s, e))
  {
    hide Step, Clean, Enabled, Inv, Tables, RunTo;
    LeadsSound(events, s);
    var run :| RunTo(run, events, s);
    RunOn(run, events, s, e);
    SafeIffClean(s, e);
    InvTables(Step(s, e));
  }

  lemma RunOn(run: seq<State>, events: seq<Event>, s: State, e: Event)
    requires RunTo(run, events, s) && Tables(s) && Enabled(s, e) && Clean(s, e)
    ensures Leads(events + [e], Step(s, e))
  {
    hide Step, Clean, Enabled, Tables;
    assert RunTo(run + [Step(s, e)], events + [e], Step(s, e));
  }

  lemma LeadsNowhere()
    ensures Leads([], NOBODY)
  {
    assert RunTo([NOBODY], [], NOBODY);
  }

  // A thread that has handed its reference to structure 7 to a send, and one that has latched its redirect.
  const HANDED := Known(multiset{7}, multiset{})
  const LATCHED := Known(multiset{}, multiset{7})

  /** Structure 7 under id 0 and nothing else, with this count. */
  function Seven(ref: int, live: bool): State {
    NOBODY.(mem := map[7 := Client(0, ref, !live)], hash := if live then map[0 := 7] else map[],
            dead := if live then [] else [7], nextId := 1)
  }

  /** Hashed under id 0, still without its epoll reference. */
  const HASHED := [Recruit(7), AcceptHash(7)]

  lemma Accepting()
    ensures Leads(HASHED, Seven(0, true).(accepting := {7}))
  {
    hide Leads, Inv, Step, Enabled, Clean, Tables;
    LeadsNowhere();
    LeadsSound([], NOBODY);
    RecruitsSeven(NOBODY);
    LeadsOn([], NOBODY, Recruit(7));
    var recruited := NOBODY.(mem := map[7 := Client(0, 0, false)], recruited := {7});
    assert [] + [Recruit(7)] == [Recruit(7)];
    HashesSeven(recruited);
    LeadsOn([Recruit(7)], recruited, AcceptHash(7));
    assert [Recruit(7)] + [AcceptHash(7)] == HASHED;
  }

  lemma RecruitsSeven(s: State)
    requires s == NOBODY && Tables(s)
    ensures Enabled(s, Recruit(7)) && Clean(s, Recruit(7))
    ensures Step(s, Recruit(7)) == NOBODY.(mem := map[7 := Client(0, 0, false)], recruited := {7})
  {
    hide Tables;
    assert s.mem[7 := Client(0, 0, false)] == map[7 := Client(0, 0, false)];
  }

  lemma HashesSeven(s: State)
    requires s == NOBODY.(mem := map[7 := Client(0, 0, false)], recruited := {7}) && Tables(s)
    ensures Enabled(s, AcceptHash(7)) && Clean(s, AcceptHash(7))
    ensures Step(s, AcceptHash(7)) == Seven(0, true).(accepting := {7})
  {
    hide Tables;
    assert s.mem[7 := Client(0, 0, false)] == map[7 := Client(0, 0, false)];
  }

  lemma TakesSeven(s: State, ref: int)
    requires s == Seven(ref, true).(accepting := s.accepting, loaded := s.loaded) && Tables(s)
    ensures Enabled(s, RefById(0)) && Clean(s, RefById(0))
    ensures Step(s, RefById(0)) == Seven(ref + 1, true).(accepting := s.accepting, loaded := s.loaded, holders := multiset{7})
  {
    hide Tables;
    assert s.hash[0] == 7 && s.mem[7] == Client(0, ref, false);
    assert s.mem[7 := Client(0, ref + 1, false)] == map[7 := Client(0, ref + 1, false)];
  }

  lemma DropsSeven(s: State, ref: int)
    requires s == Seven(ref, true).(accepting := s.accepting, holders := s.holders, queued := s.queued, known := s.known)
    requires Tables(s)
    ensures Enabled(s, Drop(7)) && Clean(s, Drop(7))
    ensures Step(s, Drop(7)) == Seven(ref - 1, false).(accepting := s.accepting, holders := s.holders, queued := s.queued, known := s.known)
  {
    hide Tables;
    assert s.hash[0] == 7 && s.mem[7] == Client(0, ref, false);
    assert s.mem[7 := Client(0, ref - 1, true)] == map[7 := Client(0, ref - 1, true)];
    assert s.hash - {0} == map[];
  }

  lemma SelectsSeven(mem: map<Ptr, Client>)
    requires 7 in mem && mem[7].ref == 0
    ensures Select([7], mem, true) == [7] && Select([7], mem, false) == []
  {
    assert [7][..0] == [];
  }

  lemma ZeroesSeven(mem: map<Ptr, Client>)
    requires mem.Keys == {7}
    ensures Zeroed(mem, [7]) == map[7 := Client(-1, 0, false)]
  {
  }

  lemma CullsSeven(s: State)
    requires s == Seven(0, false).(holders := s.holders, known := s.known) && Tables(s)
    ensures Clean(s, Cull)
    ensures Step(s, Cull)
         == NOBODY.(mem := map[7 := Client(-1, 0, false)], recycled := [7], nextId := 1, holders := s.holders, known := s.known)
  {
    hide Tables, Select, Zeroed;
    SelectsSeven(s.mem);
    ZeroesSeven(s.mem);
  }

  /** The cull's window: a client is hashed, another thread takes a reference by its id and drops it,
    * and the cull of that drop recycles it while the thread still has it. */
  lemma DropInTheAcceptWindow()
    ensures exists s :: Leads(HASHED + [RefById(0), Drop(7)], s) && Tables(s) && Enabled(s, Cull)
                     && 7 in s.accepting && 7 in s.holders && !Inv(Step(s, Cull))
  {
    hide Leads, Inv, Step, Enabled, Clean, Tables;
    Accepting();
    var hashed := Seven(0, true).(accepting := {7});
    LeadsSound(HASHED, hashed);
    TakesSeven(hashed, 0);
    LeadsOn(HASHED, hashed, RefById(0));
    var held := Seven(1, true).(accepting := {7}, holders := multiset{7});
    DropsSeven(held, 1);
    LeadsOn(HASHED + [RefById(0)], held, Drop(7));
    var s := Seven(0, false).(accepting := {7}, holders := multiset{7});
    assert HASHED + [RefById(0)] + [Drop(7)] == HASHED + [RefById(0), Drop(7)];
    WindowSeven(s);
    LeadsSound(HASHED + [RefById(0), Drop(7)], s);
    SafeIffClean(s, Cull);
  }

  lemma WindowSeven(s: State)
    requires s == Seven(0, false).(accepting := {7}, holders := multiset{7})
    ensures Enabled(s, Cull) && !Clean(s, Cull)
  {
    assert 7 in s.dead && 7 in s.accepting && s.holders[7] + s.queued[7] == 1;
  }

  lemma LoadsSeven(s: State)
    requires s == Seven(0, true).(accepting := {7}) && Tables(s)
    ensures Enabled(s, AcceptLoad(7)) && Clean(s, AcceptLoad(7))
    ensures Step(s, AcceptLoad(7)) == Seven(0, true).(accepting := {7}, loaded := map[7 := 0])
  {
    hide Tables;
  }

  lemma StoresSeven(s: State, ref: int)
    requires s == Seven(ref, true).(accepting := {7}, loaded := map[7 := 0], holders := s.holders) && Tables(s)
    ensures Enabled(s, AcceptStore(7)) && (Clean(s, AcceptStore(7)) <==> ref == 0)
    ensures Step(s, AcceptStore(7)) == Seven(1, true).(holders := s.holders)
  {
    hide Tables;
    assert {7} - {7} == {} && map[7 := 0] - {7} == map[];
    assert s.mem[7 := Client(0, 1, false)] == map[7 := Client(0, 1, false)];
  }

  /** The first window, and its harm comes later. Another thread takes a reference between the read
    * and the write of the accepting thread; the write loses it, and the drop and the cull of that
    * client, each sound by itself, put it up for reuse while the thread has it. */
  lemma TornEpollReference()
    ensures exists s :: Leads(HASHED + [AcceptLoad(7), RefById(0)], s) && Tables(s) && Enabled(s, AcceptStore(7))
                     && !Inv(Step(s, AcceptStore(7))) && HeldAndReused(Step(s, AcceptStore(7)))
  {
    hide Leads, Inv, HeldAndReused, Step, Enabled, Clean, Tables;
    Accepting();
    var hashed := Seven(0, true).(accepting := {7});
    LeadsSound(HASHED, hashed);
    LoadsSeven(hashed);
    LeadsOn(HASHED, hashed, AcceptLoad(7));
    var read := Seven(0, true).(accepting := {7}, loaded := map[7 := 0]);
    TakesSeven(read, 0);
    LeadsOn(HASHED + [AcceptLoad(7)], read, RefById(0));
    var s := Seven(1, true).(accepting := {7}, loaded := map[7 := 0], holders := multiset{7});
    assert HASHED + [AcceptLoad(7)] + [RefById(0)] == HASHED + [AcceptLoad(7), RefById(0)];
    StoresSeven(s, 1);
    LeadsSound(HASHED + [AcceptLoad(7), RefById(0)], s);
    SafeIffClean(s, AcceptStore(7));
    TornIsReused(Seven(1, true).(holders := multiset{7}));
  }

  /** A drop and a cull from here recycle a client that a thread holds. */
  ghost predicate HeldAndReused(torn: State) {
    && Tables(torn) && Enabled(torn, Drop(7)) && Clean(torn, Drop(7))
    && var dropped := Step(torn, Drop(7));
    && Tables(dropped) && Clean(dropped, Cull)
    && 7 in Step(dropped, Cull).recycled && 7 in Step(dropped, Cull).holders
  }

  lemma TornIsReused(torn: State)
    requires torn == Seven(1, true).(holders := multiset{7})
    ensures HeldAndReused(torn)
  {
    hide Step, Enabled, Clean;
    SevenTables(torn);
    DropsSeven(torn, 1);
    var dropped := Seven(0, false).(holders := multiset{7});
    SevenTables(dropped);
    CullsSeven(dropped);
  }

  lemma SevenTables(s: State)
    requires exists ref, live :: s == Seven(ref, live).(holders := multiset{7})
    ensures Tables(s)
  {
  }

  // A client accepted in full, and one thread that looks it up.
  const HELD := HASHED + [AcceptLoad(7), AcceptStore(7), RefById(0)]

  lemma HeldByOne()
    ensures Leads(HELD, Seven(2, true).(holders := multiset{7}))
  {
    hide Leads, Inv, Step, Enabled, Clean, Tables;
    Accepting();
    var hashed := Seven(0, true).(accepting := {7});
    LeadsSound(HASHED, hashed);
    LoadsSeven(hashed);
    LeadsOn(HASHED, hashed, AcceptLoad(7));
    var read := Seven(0, true).(accepting := {7}, loaded := map[7 := 0]);
    StoresSeven(read, 0);
    LeadsOn(HASHED + [AcceptLoad(7)], read, AcceptStore(7));
    TakesSeven(Seven(1, true), 1);
    LeadsOn(HASHED + [AcceptLoad(7)] + [AcceptStore(7)], Seven(1, true), RefById(0));
    assert HASHED + [AcceptLoad(7)] + [AcceptStore(7)] + [RefById(0)] == HELD;
  }

  lemma HandsSevenOver(s: State)
    requires s == Seven(2, true).(holders := multiset{7}) && Tables(s)
    ensures Enabled(s, QueueHeld(7)) && Clean(s, QueueHeld(7))
    ensures Step(s, QueueHeld(7)) == Seven(2, true).(queued := multiset{7}, known := HANDED)
  {
    hide Tables;
  }

  lemma LatchesSeven(s: State)
    requires s == Seven(2, true).(queued := multiset{7}, known := HANDED) && Tables(s)
    ensures Enabled(s, Event.Latch(7)) && Clean(s, Event.Latch(7))
    ensures Step(s, Event.Latch(7)) == Seven(2, true).(queued := multiset{7}, known := LATCHED)
  {
    hide Tables;
  }

  lemma SendsSeven(s: State)
    requires s == Seven(1, false).(queued := multiset{7}, known := s.known) && Tables(s)
    ensures Enabled(s, Event.Sent(7)) && Clean(s, Event.Sent(7))
    ensures Step(s, Event.Sent(7)) == Seven(0, false).(known := s.known)
  {
    hide Tables;
    assert s.mem[7 := Client(0, 0, true)] == map[7 := Client(0, 0, true)];
  }

  // It hands its reference to a send and latches the redirect; then the client is dropped by another
  // thread, the sender clears the send, and the cull of the drop comes by.
  const HANDED_OVER := HELD + [QueueHeld(7), Event.Latch(7), Drop(7), Event.Sent(7), Cull]

  lemma HandedOver()
    ensures Leads(HELD + [QueueHeld(7), Event.Latch(7)], Seven(2, true).(queued := multiset{7}, known := LATCHED))
  {
    hide Leads, Inv, Step, Enabled, Clean, Tables;
    HeldByOne();
    var held := Seven(2, true).(holders := multiset{7});
    LeadsSound(HELD, held);
    HandsSevenOver(held);
    LeadsOn(HELD, held, QueueHeld(7));
    var handed := Seven(2, true).(queued := multiset{7}, known := HANDED);
    LatchesSeven(handed);
    LeadsOn(HELD + [QueueHeld(7)], handed, Event.Latch(7));
    assert HELD + [QueueHeld(7)] + [Event.Latch(7)] == HELD + [QueueHeld(7), Event.Latch(7)];
  }

  /** The last window: those steps recycle the client, and the thread, which has latched its redirect
    * and not a reference of its own, then queues the reconnect on it. */
  lemma ReconnectAfterHandover()
    ensures exists s :: Leads(HANDED_OVER, s) && 7 in s.known.latched && 7 in s.recycled
                     && Tables(s) && Enabled(s, QueueMore(7)) && !Inv(Step(s, QueueMore(7)))
  {
    hide Leads, Inv, Step, Tables, Enabled, Clean;
    HandedOver();
    var es := HELD + [QueueHeld(7), Event.Latch(7)];
    var queued := Seven(2, true).(queued := multiset{7}, known := LATCHED);
    LeadsSound(es, queued);
    DropsSeven(queued, 2);
    LeadsOn(es, queued, Drop(7));
    var dropped := Seven(1, false).(queued := multiset{7}, known := LATCHED);
    SendsSeven(dropped);
    LeadsOn(es + [Drop(7)], dropped, Event.Sent(7));
    var done := Seven(0, false).(known := LATCHED);
    CullsSeven(done);
    CullEnabled(done);
    LeadsOn(es + [Drop(7)] + [Event.Sent(7)], done, Cull);
    assert es + [Drop(7)] + [Event.Sent(7)] + [Cull] == HANDED_OVER;
    var s := NOBODY.(mem := map[7 := Client(-1, 0, false)], recycled := [7], nextId := 1, known := LATCHED);
    LateReconnect(s);
    SafeIffClean(s, QueueMore(7));
  }

  lemma CullEnabled(s: State)
    ensures Enabled(s, Cull)
  {
  }

  lemma LateReconnect(s: State)
    requires 7 in s.known.latched && 7 in s.recycled
    ensures Enabled(s, QueueMore(7)) && !Clean(s, QueueMore(7))
  {
  }
}
