/** The solve path of declared work: what is submitted as a block for a share, against the coinbase the
  * miner hashed for it (`sv2_proxy_custom_solve` in `src/generator.c`).
  */
module SolvePath {
  import opened Basics
  import opened ChannelLayout
  import opened ChannelRuns
  import opened ChannelSpec
  import opened CoinbaseParts
  import T = TipRing
  import opened TxBytes

  /** The coinbase as its txid is taken: no marker, flag and witness. */
  function Legacy(c: Spec): Spec {
    c.(reserved := None)
  }

  /** The declaration's two splits, the one miners hash and the one a block carries, are of one coinbase,
    * with a hole of the length declared. */
  predicate SplitOf(d: Declaration, c: Spec) {
    && Declarable(c) && d.holeLen == c.hole
    && d.base == DeclaredPrefix(Legacy(c)) && d.body.coinb2 == DeclaredSuffix(Legacy(c))
    && d.declared.prefix == DeclaredPrefix(c) && d.declared.suffix == DeclaredSuffix(c)
  }

  /** What is submitted as the coinbase of a block. */
  function Solved(d: Declared, hole: seq<Byte>): seq<Byte> {
    d.prefix + hole + d.suffix
  }

  /** A serialisation without the marker, flag and witness of c. */
  function Stripped(whole: seq<Byte>, c: Spec): seq<Byte>
    requires |whole| >= 8 + |Marker(c)| + |Witness(c)|
  {
    var n := |whole|;
    whole[..4] + whole[4 + |Marker(c)|..n - 4 - |Witness(c)|] + whole[n - 4..]
  }

  /** With the hole filled alike, the block's coinbase and the one hashed are one transaction. */
  lemma SplitsAgree(d: Declaration, c: Spec, hole: seq<Byte>)
    requires SplitOf(d, c)
    ensures var whole := Solved(d.declared, hole);
            && |whole| >= 8 + |Marker(c)| + |Witness(c)|
            && Stripped(whole, c) == d.base + hole + d.body.coinb2
  {
    hide DeclaredPrefix, DeclaredSuffix, Witness, Marker, Inside, Le;
    var body := Inside(c, hole);
    DeclaredIs(c, hole);
    DeclaredIs(Legacy(c), hole);
    LegacyIsBare(c, hole);
    Around(Le(c.version, 4), Marker(c), body, Witness(c), Le(c.locktime, 4));
    Unwrapped(Le(c.version, 4), body, Le(c.locktime, 4));
  }

  lemma LegacyIsBare(c: Spec, hole: seq<Byte>)
    requires Declarable(c)
    ensures Marker(Legacy(c)) == [] && Witness(Legacy(c)) == [] && Declarable(Legacy(c))
    ensures Inside(Legacy(c), hole) == Inside(c, hole)
  {
  }

  lemma Unwrapped(a: seq<Byte>, b: seq<Byte>, c: seq<Byte>)
    ensures a + [] + b + [] + c == a + b + c
  {
  }

  /** For a share of n on a channel with this pad, the coinbase that the solve submits as a block is,
    * without the marker, flag and witness of c, the very one the miner hashed. */
  predicate SolvesHashed(n: Notify, pad: nat, rolled: seq<Byte>, c: Spec) {
    n.custom.Some?
    && var whole := Solved(n.custom.value.declared, n.custom.value.prefix + (Zeros(pad) + rolled));
    |whole| >= 8 + |Marker(c)| + |Witness(c)| && Stripped(whole, c) == Hashed(n, rolled)
  }

  /** It is exactly on a channel with the pad the notify went out with. */
  lemma SolvesIffSamePad(x: Sent, d: Declaration, c: Spec, pad: nat, rolled: seq<Byte>)
    requires SentAs(x, FromUs(d)) && SplitOf(d, c)
    ensures SolvesHashed(x.notify, pad, rolled, c) <==> pad == x.pad
  {
    hide SplitOf, Stripped, Solved, Marker, Witness, Hashed, Coinb1;
    RebuiltIffSamePad(x, FromUs(d), pad, rolled);
    SplitsAgree(d, c, x.prefix + (Zeros(pad) + rolled));
  }

  // ----- the hole is filled -----

  /** The scriptSig's length byte counts what the first part holds of it and `room` bytes more. */
  predicate Counts(coinb1: seq<Byte>, room: int) {
    |coinb1| >= 42 && coinb1[41] == |coinb1| - 42 + room
  }

  predicate JobCounts(job: Job, room: int) {
    job.kind.Custom? ==> Counts(job.coinb1, room)
  }

  predicate SentCounts(x: Sent, room: int) {
    x.notify.custom.Some? ==> Counts(x.notify.coinb1, room)
  }

  /** What a miner of the channel rolls. */
  function Room(s: State): int {
    s.size - s.pad
  }

  predicate RingCounts(ring: seq<Job>, room: int) {
    forall i :: 0 <= i < |ring| ==> JobCounts(ring[i], room)
  }

  /** Every declared job the channel holds leaves room for exactly what its miners roll. */
  predicate AllCount(s: State) {
    RingCounts(s.ring, Room(s)) && (s.stage.Some? ==> JobCounts(s.stage.value.job, Room(s)))
  }

  /** And so does every notify a step adds to the record. */
  predicate AddsCounting(s: State, r: State) {
    s.log <= r.log && forall k :: |s.log| <= k < |r.log| ==> SentCounts(r.log[k], Room(s))
  }

  ghost predicate OneCoinbase(e: Event) {
    e.Install? ==> exists c :: SplitOf(e.declaration, c)
  }

  lemma BaseCounts(d: Declaration, c: Spec)
    requires SplitOf(d, c)
    ensures |d.base| == 42 + |c.prefix| && d.base[41] == |c.prefix| + c.hole && d.holeLen == c.hole
  {
    hide DeclaredSuffix, NullInput;
    assert d.base == Le(c.version, 4) + NullInput() + [|c.prefix| + c.hole] + c.prefix;
  }

  lemma BuildCounts(d: Declaration, c: Spec, prefix: seq<Byte>, size: nat, pad: nat)
    requires SplitOf(d, c) && Build(d, prefix, size, pad).Some?
    ensures JobCounts(Build(d, prefix, size, pad).value, size - pad)
  {
    hide SplitOf;
    BaseCounts(d, c);
    CoinbaseBase(d.base, prefix, pad);
    assert Coinb1(d.base, prefix, pad)[..|d.base|][41] == d.base[41];
  }

  lemma EmitCounts(s: State, i: nat, clean: bool, rebuilt: bool, now: int)
    requires i < |s.ring| && RingCounts(s.ring, Room(s))
    ensures var r := Emit(s, i, clean, rebuilt, now); RingCounts(r.ring, Room(s)) && AddsCounting(s, r)
  {
    hide Counts, TemplateOf;
  }

  lemma NewJobCounts(s: State, j: Extended, now: int)
    requires Shaped(s) && AllCount(s)
    ensures var r := StepNewJob(s, j, now); AllCount(r) && AddsCounting(s, r)
  {
    hide Emit, Counts, TemplateOf, Coinb1;
    EmitCounts(Place(s, Stored(s, j)), s.head, false, false, now);
  }

  lemma TipCounts(s: State, id: nat, a: Announced, local: T.Relation, plausible: bool, now: int)
    requires Shaped(s) && AllCount(s)
    ensures var r := StepNewPrevHash(s, id, a, local, plausible, now); AllCount(r) && AddsCounting(s, r)
  {
    hide Emit, MoveTo, Find, RingCounts, JobCounts, SentCounts;
    var i := Find(s.ring, id);
    if i < |s.ring| {
      var told := s.(prev := Some(a), customPrev := None);
      var rel := if s.parent then local else T.NoLocal;
      EmitCounts(MoveTo(told, SourceAfter(rel, plausible), now), i, WantClean(s.flushed, a.hash), false, now);
    }
  }

  lemma AcceptedCounts(s: State, request: nat, id: nat, now: int)
    requires Shaped(s) && AllCount(s)
    ensures var r := StepAccepted(s, request, id, now); AllCount(r) && AddsCounting(s, r)
  {
    hide Emit, MoveTo, Counts, SentCounts, TemplateOf;
    if Answers(s, request) {
      var job := s.stage.value.job.(id := id);
      var placed := Place(s.(stage := None, customPrev := Some(job.tip)), job);
      EmitCounts(placed, s.head, WantClean(s.flushed, job.tip), false, now);
    }
  }

  lemma RebuiltCounts(ring: seq<Job>, prefix: seq<Byte>, pad: nat, room: int)
    ensures RingCounts(RebuiltRing(ring, prefix, pad), room)
  {
    hide Counts, Coinb1;
  }

  lemma ReflushedCounts(s: State, prefix: seq<Byte>, now: int)
    requires Shaped(s)
    ensures var r := Reflushed(s, prefix, now); RingCounts(r.ring, Room(s)) && AddsCounting(s, r)
  {
    hide Newest, HeldByRing, Emit, RingCounts, SentCounts, RebuiltRing;
    var ring := RebuiltRing(s.ring, prefix, s.pad);
    RebuiltCounts(s.ring, prefix, s.pad, Room(s));
    var rebuilt := s.(prefix := prefix, ring := ring, put := s.put + HeldByRing(s.ring));
    var newest := Newest(ring, s.head, 0);
    if newest.Some? {
      EmitCounts(rebuilt, newest.value, true, true, now);
    }
  }

  lemma PrefixCounts(s: State, prefix: seq<Byte>, now: int)
    requires Shaped(s)
    ensures var r := StepNewPrefix(s, prefix, now); AllCount(r) && AddsCounting(s, r)
  {
    hide Reflushed, HadCustom, RingCounts, SentCounts, TemplateOf;
    ReflushedCounts(s, prefix, now);
  }

  lemma InstallCounts(s: State, d: Declaration, builtOn: seq<Byte>, now: int)
    requires Shaped(s) && AllCount(s) && OneCoinbase(Install(d, builtOn, now))
    ensures var r := StepInstall(s, d, builtOn, now); AllCount(r) && AddsCounting(s, r)
  {
    hide Build, Counts, SplitOf, TemplateOf;
    var c :| SplitOf(d, c);
    if Build(d, builtOn, s.size, s.pad).Some? {
      BuildCounts(d, c, builtOn, s.size, s.pad);
    }
  }

  lemma ReconnectCounts(s: State, prefix: seq<Byte>, size: nat, pad: nat)
    requires Shaped(s)
    ensures var r := StepReconnect(s, prefix, size, pad); AllCount(r) && AddsCounting(s, r)
  {
    hide HeldByRing;
  }

  lemma QuietCounts(s: State, e: Event)
    requires Shaped(s) && AllCount(s)
    requires e.CustomRefused? || e.Service? || e.Age? || e.SolveBegins? || e.SolveEnds?
    ensures AllCount(Step(s, e)) && AddsCounting(s, Step(s, e))
  {
    hide Counts, RingCounts, Kept, LetGo, FindNotify, TemplateOf, HeldByNotify;
  }

  /** So it is after every step, if each declaration splits one coinbase. */
  lemma CountingKept(s: State, e: Event)
    requires Shaped(s) && AllCount(s) && OneCoinbase(e)
    ensures AllCount(Step(s, e)) && AddsCounting(s, Step(s, e))
  {
    hide StepNewJob, StepNewPrevHash, StepAccepted, StepNewPrefix, StepInstall, StepReconnect, StepService;
    hide AllCount, AddsCounting, OneCoinbase;
    match e
    case NewJob(j, now) => NewJobCounts(s, j, now);
    case NewPrevHash(id, a, local, plausible, now) => TipCounts(s, id, a, local, plausible, now);
    case CustomAccepted(request, id, now) => AcceptedCounts(s, request, id, now);
    case NewPrefix(prefix, now) => PrefixCounts(s, prefix, now);
    case Install(d, builtOn, now) => InstallCounts(s, d, builtOn, now);
    case Reconnect(prefix, size, pad) => ReconnectCounts(s, prefix, size, pad);
    case _ => QuietCounts(s, e);
  }

  lemma {:induction false} CountingOfEveryRun(parent: bool, prefix: seq<Byte>, size: nat, pad: nat, es: seq<Event>)
    requires forall e: Event :: e in es ==> OneCoinbase(e)
    ensures AllCount(Run(Opened(parent, prefix, size, pad), es))
  {
    hide Step, OneCoinbase, JobCounts;
    if es != [] {
      var n := |es| - 1;
      CountingOfEveryRun(parent, prefix, size, pad, es[..n]);
      CountingKept(Run(Opened(parent, prefix, size, pad), es[..n]), es[n]);
    } else {
      NothingCounts(parent, prefix, size, pad);
    }
  }

  lemma NothingCounts(parent: bool, prefix: seq<Byte>, size: nat, pad: nat)
    ensures AllCount(Opened(parent, prefix, size, pad))
  {
  }

  /** While a connection lasts, all the declared work it sends leaves that room. */
  lemma {:induction false} CountingOfAConnection(s: State, es: seq<Event>)
    requires Shaped(s) && AllCount(s) && forall e: Event :: e in es ==> OneCoinbase(e) && !e.Reconnect?
    ensures var r := Run(s, es); AllCount(r) && Room(r) == Room(s) && AddsCounting(s, r)
  {
    hide Step, AllCount, SentCounts, OneCoinbase;
    if es != [] {
      var n := |es| - 1;
      CountingOfAConnection(s, es[..n]);
      var before, after := Run(s, es[..n]), Run(s, es);
      CountingKept(before, es[n]);
      GrantKept(before, es[n]);
      forall k | |s.log| <= k < |after.log| ensures SentCounts(after.log[k], Room(s)) {
        if k < |before.log| {
          assert after.log[k] == before.log[k];
        }
      }
    }
  }

  lemma SentFills(x: Sent, d: Declaration, c: Spec, size: nat)
    requires SentAs(x, FromUs(d)) && SplitOf(d, c) && SentCounts(x, size - x.pad)
    ensures |x.prefix| + size == c.hole
  {
    hide SplitOf;
    BaseCounts(d, c);
    CoinbaseBase(d.base, x.prefix, x.pad);
    assert x.notify.coinb1[..|d.base|][41] == d.base[41];
  }

  /** The declaration n was sent for, and the coinbase it splits. */
  predicate DeclaredAs(x: Sent, d: Declaration, c: Spec) {
    SentAs(x, FromUs(d)) && SplitOf(d, c)
  }

  /** In every run, over any number of connections and prefixes, each notify of declared work is a
    * declaration of ours, and a share of it is solved with what was hashed if and only if the channel
    * still has the pad of the notify. */
  lemma EverySolveIsOfAHash(parent: bool, prefix: seq<Byte>, size: nat, pad: nat, es: seq<Event>, n: Notify)
    returns (d: Declaration, c: Spec)
    requires TimelyRun(Opened(parent, prefix, size, pad), es) && forall e: Event :: e in es ==> OneCoinbase(e)
    requires n in Run(Opened(parent, prefix, size, pad), es).live && n.custom.Some?
    ensures var r := Run(Opened(parent, prefix, size, pad), es);
            && OnRecord(r, n) && FromUs(d) in Orders(es) && DeclaredAs(r.log[n.id], d, c)
            && forall rolled :: SolvesHashed(n, r.pad, rolled, c) <==> r.pad == r.log[n.id].pad
  {
    hide Run, SplitOf, SentLaidOut, SentAs, SolvesHashed, TimelyRun, OneCoinbase;
    EveryShareIsRebuilt(parent, prefix, size, pad, es, n);
    var r := Run(Opened(parent, prefix, size, pad), es);
    d, c := OrderOf(r.log[n.id], es);
    forall rolled ensures SolvesHashed(n, r.pad, rolled, c) <==> r.pad == r.log[n.id].pad {
      SolvesIffSamePad(r.log[n.id], d, c, r.pad, rolled);
    }
  }

  /** So it is on the connection the notify was sent on; and there the kept prefix and an extranonce of
    * the channel's size fill the declared hole exactly. */
  lemma SolvesOnItsConnection(parent: bool, prefix: seq<Byte>, size: nat, pad: nat, before: seq<Event>, since: seq<Event>,
                              n: Notify)
    returns (d: Declaration, c: Spec)
    requires TimelyRun(Opened(parent, prefix, size, pad), before + since)
    requires forall e: Event :: e in before + since ==> OneCoinbase(e)
    requires forall e: Event :: e in since ==> !e.Reconnect?
    requires n in Run(Opened(parent, prefix, size, pad), before + since).live && n.custom.Some?
    requires n.id >= |Run(Opened(parent, prefix, size, pad), before).log|
    ensures var r := Run(Opened(parent, prefix, size, pad), before + since);
            && FromUs(d) in Orders(before + since) && OnRecord(r, n) && DeclaredAs(r.log[n.id], d, c)
            && |n.custom.value.prefix| + r.size == c.hole
            && forall rolled :: SolvesHashed(n, r.pad, rolled, c)
  {
    hide Run, SplitOf, SentCounts, SolvesHashed, TimelyRun, AllCount, OneCoinbase, Coinb1;
    var s := Opened(parent, prefix, size, pad);
    d, c := EverySolveIsOfAHash(parent, prefix, size, pad, before + since, n);
    RunSum(s, before, since);
    CountingOfEveryRun(parent, prefix, size, pad, before);
    CountingOfAConnection(Run(s, before), since);
    PadOfAConnection(Run(s, before), since);
    var r := Run(s, before + since);
    SentFills(r.log[n.id], d, c, r.size);
  }

  /** The declaration behind a notify of declared work. */
  lemma OrderOf(x: Sent, es: seq<Event>) returns (d: Declaration, c: Spec)
    requires SentLaidOut(x, Orders(es)) && x.notify.custom.Some? && forall e: Event :: e in es ==> OneCoinbase(e)
    ensures FromUs(d) in Orders(es) && SentAs(x, FromUs(d)) && SplitOf(d, c)
  {
    hide SplitOf, Coinb1;
    var o :| o in Orders(es) && SentAs(x, o);
    d := o.declaration;
    OrdersSplit(es, d);
    c :| SplitOf(d, c);
  }

  lemma {:induction false} OrdersSplit(es: seq<Event>, d: Declaration)
    requires FromUs(d) in Orders(es) && forall e: Event :: e in es ==> OneCoinbase(e)
    ensures exists c :: SplitOf(d, c)
  {
    hide SplitOf;
    var n := |es| - 1;
    if FromUs(d) in Orders(es[..n]) {
      OrdersSplit(es[..n], d);
    } else {
      assert OneCoinbase(es[n]);
    }
  }
}
