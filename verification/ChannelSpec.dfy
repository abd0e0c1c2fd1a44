/** What every frame, timer and job-declaration event does to an upstream SV2 mining channel
  * (`src/generator.c`), as a function from state to state. The class in `Channel.dfy` computes
  * it in place; the invariants are proved about it here, over every run.
  */
module ChannelSpec {
  import opened Basics
  import T = TipRing

  const JOBS := 32
  const MAX_MERKLES := 32
  const BRIDGE_TIMEOUT := 30
  const CUSTOM_TIMEOUT := 15
  const NOTIFY_AGE := 600

  // A 32-byte string, read as a number.
  type Hash = nat

  // The identity of a block template of the job declaration client.
  type Template = nat

  datatype Source = Pool | LocalJd | Bridge

  // What a job carries through unchanged.
  datatype Body = Body(version: nat, merkles: seq<Hash>, coinb2: seq<Byte>)

  // The declared serialisation of a custom job's coinbase, and the template it came from.
  datatype Declared = Declared(tmpl: Template, prefix: seq<Byte>, suffix: seq<Byte>)

  // Nothing, a job of the pool, or a job we declared.
  datatype Kind = Cleared | Upstream(future: bool) | Custom(declared: Declared)

  /** A slot of the ring, or a staged job. */
  datatype Job = Job(kind: Kind, id: nat, minNtime: nat, baseLen: nat, coinb1: seq<Byte>,
                     tip: Hash, nbits: nat, body: Body)

  const CLEARED := Job(Cleared, 0, 0, 0, [], 0, 0, Body(0, [], []))

  // The last SetNewPrevHash.
  datatype Announced = Announced(hash: Hash, nbits: nat, minNtime: nat)

  // The custom part of a notify keeps the extranonce prefix it was sent under.
  datatype Solving = Solving(declared: Declared, prefix: seq<Byte>)

  datatype Notify = Notify(id: nat, jobId: nat, coinb1: seq<Byte>, tip: Hash, nbits: nat, ntime: nat,
                           body: Body, clean: bool, time: int, custom: Option<Solving>)

  /** A notify as it went out, with the prefix and the pad of the channel then, whether a
    * SetExtranoncePrefix sent it, and the SetNewPrevHash in force. */
  datatype Sent = Sent(notify: Notify, prefix: seq<Byte>, pad: nat, rebuilt: bool, prev: Option<Announced>)

  // A SetCustomMiningJob awaiting its answer.
  datatype Staged = Staged(job: Job, request: nat, at: int)

  // What the job declaration client hands over for a SetCustomMiningJob.
  datatype Declaration = Declaration(holeLen: nat, minNtime: nat, base: seq<Byte>, tip: Hash, nbits: nat,
                                     body: Body, declared: Declared)

  // A decoded NewExtendedMiningJob.
  datatype Extended = Extended(id: nat, minNtime: Option<nat>, base: seq<Byte>, body: Body)

  datatype State = State(
    parent: bool, size: nat, pad: nat, prefix: seq<Byte>,
    src: Source, bridgeAt: int, customPrev: Option<Hash>,
    prev: Option<Announced>, flushed: Option<Hash>, wantReconnect: bool,
    ring: seq<Job>, head: nat, stage: Option<Staged>, nextRequest: nat,
    live: seq<Notify>, nextNotify: nat, solving: multiset<Template>,
    log: seq<Sent>, taken: multiset<Template>, put: multiset<Template>)

  /** One atomic step: a frame, a call of the job declaration client, a timer, an ageing pass
    * over the notifies, the two ends of a solve, or a fresh connection. */
  datatype Event =
    | NewJob(job: Extended, now: int)
    | NewPrevHash(id: nat, announced: Announced, local: T.Relation, plausible: bool, now: int)
    | CustomAccepted(request: nat, id: nat, now: int)
    | CustomRefused(request: nat)
    | NewPrefix(prefix: seq<Byte>, now: int)
    | Install(declaration: Declaration, builtOn: seq<Byte>, now: int)
    | Service(now: int)
    | Age(now: int)
    | SolveBegins(id: nat)
    | SolveEnds(tmpl: Template)
    | Reconnect(prefix: seq<Byte>, size: nat, pad: nat)

  /** coinb1 over a coinbase base: the channel's extranonce prefix and the pad close it. */
  function Coinb1(base: seq<Byte>, prefix: seq<Byte>, pad: nat): seq<Byte> {
    base + prefix + Zeros(pad)
  }

  function ClearedRing(): (r: seq<Job>)
    ensures |r| == JOBS && forall i :: 0 <= i < JOBS ==> r[i] == CLEARED
  {
    seq(JOBS, _ => CLEARED)
  }

  function Opened(parent: bool, prefix: seq<Byte>, size: nat, pad: nat): State {
    State(parent, size, pad, prefix, Pool, 0, None, None, None, false,
          ClearedRing(), 0, None, 0, [], 0, multiset{}, [], multiset{}, multiset{})
  }

  function TemplateOf(job: Job): multiset<Template> {
    if job.kind.Custom? then multiset{job.kind.declared.tmpl} else multiset{}
  }

  // ----- the parts of a step -----

  /** `sv2_proxy_job_slot` and the store into the slot: the oldest job goes, with its template. */
  function Place(s: State, job: Job): (r: State)
    requires s.head < |s.ring|
    ensures r == s.(ring := s.ring[s.head := job], head := r.head, put := r.put) && r.head < JOBS
  {
    s.(ring := s.ring[s.head := job], head := (s.head + 1) % JOBS,
       put := s.put + TemplateOf(s.ring[s.head]))
  }

  function MoveTo(s: State, src: Source, now: int): (r: State)
    ensures r == s.(src := src, bridgeAt := r.bridgeAt)
  {
    if s.src == src then s
    else s.(src := src, bridgeAt := if src == Bridge then now else s.bridgeAt)
  }

  predicate WantClean(flushed: Option<Hash>, tip: Hash) {
    flushed != Some(tip)
  }

  /** The first slot that holds a job with this id, or the number of slots. */
  function Find(ring: seq<Job>, id: nat): (i: nat)
    ensures i <= |ring|
    ensures i < |ring| ==> !ring[i].kind.Cleared? && ring[i].id == id
  {
    if ring == [] then 0
    else if !ring[0].kind.Cleared? && ring[0].id == id then 0
    else 1 + Find(ring[1..], id)
  }

  /** A pool job takes the tip and the difficulty bits the pool last announced. */
  function Aimed(prev: Option<Announced>, job: Job): Job {
    if job.kind.Upstream? && prev.Some? then job.(tip := prev.value.hash, nbits := prev.value.nbits) else job
  }

  predicate Sendable(prev: Option<Announced>, job: Job) {
    !job.kind.Cleared? && (job.kind.Upstream? ==> prev.Some?) && |job.body.merkles| <= MAX_MERKLES
  }

  function NotifyOf(id: nat, prefix: seq<Byte>, prev: Option<Announced>, job: Job, clean: bool, now: int): Notify
    requires Sendable(prev, job)
  {
    Notify(id, job.id, job.coinb1, job.tip, job.nbits,
           if job.kind.Upstream? && job.kind.future then prev.value.minNtime else job.minNtime,
           job.body, clean, now,
           if job.kind.Custom? then Some(Solving(job.kind.declared, prefix)) else None)
  }

  /** `sv2_proxy_send_job`. */
  function Emit(s: State, i: nat, clean: bool, rebuilt: bool, now: int): (r: State)
    requires i < |s.ring|
    ensures r == s.(ring := r.ring, live := r.live, nextNotify := r.nextNotify, log := r.log,
                    flushed := r.flushed, taken := r.taken)
    ensures |r.ring| == |s.ring|
  {
    var job := Aimed(s.prev, s.ring[i]);
    var aimed := s.(ring := s.ring[i := job]);
    if !Sendable(s.prev, job) then aimed
    else
      var n := NotifyOf(s.nextNotify, s.prefix, s.prev, job, clean, now);
      aimed.(live := s.live + [n], nextNotify := s.nextNotify + 1,
             log := s.log + [Sent(n, s.prefix, s.pad, rebuilt, s.prev)],
             flushed := if clean then Some(job.tip) else s.flushed,
             taken := s.taken + TemplateOf(job))
  }

  function DropStage(s: State): (r: State)
    ensures r == s.(stage := None, put := r.put)
  {
    if s.stage.None? then s
    else s.(stage := None, put := s.put + TemplateOf(s.stage.value.job))
  }

  predicate Answers(s: State, request: nat) {
    s.stage.Some? && s.stage.value.request == request
  }

  // ----- the steps -----

  predicate Shaped(s: State) {
    && |s.ring| == JOBS && s.head < JOBS && s.nextRequest < U32
    && (s.stage.Some? ==> s.stage.value.job.kind.Custom?)
  }

  function Stored(s: State, j: Extended): Job {
    Job(Upstream(j.minNtime.None?), j.id, if j.minNtime.Some? then j.minNtime.value else 0, |j.base|,
        Coinb1(j.base, s.prefix, s.pad), 0, 0, j.body)
  }

  predicate CustomIsLive(s: State) {
    s.src == LocalJd && s.customPrev.Some? && s.prev.Some? && s.customPrev.value == s.prev.value.hash
  }

  function StepNewJob(s: State, j: Extended, now: int): (r: State)
    requires Shaped(s)
    ensures Shaped(r)
  {
    if |j.body.merkles| > MAX_MERKLES then s
    else
      var placed := Place(s, Stored(s, j));
      if j.minNtime.None? || CustomIsLive(placed) then placed
      else Emit(placed, s.head, false, false, now)
  }

  /** Where a new pool tip moves the work source. */
  function SourceAfter(rel: T.Relation, plausible: bool): Source {
    if rel == T.Ahead && plausible then Bridge else Pool
  }

  function StepNewPrevHash(s: State, id: nat, a: Announced, local: T.Relation, plausible: bool, now: int): (r: State)
    requires Shaped(s)
    ensures Shaped(r)
  {
    var i := Find(s.ring, id);
    if i == |s.ring| then s.(wantReconnect := true)
    else
      var repeats := s.customPrev == Some(a.hash);
      var told := s.(prev := Some(a), customPrev := if repeats then s.customPrev else None);
      if repeats then told
      else
        var rel := if s.parent then local else T.NoLocal;
        Emit(MoveTo(told, SourceAfter(rel, plausible), now), i, WantClean(s.flushed, a.hash), false, now)
  }

  function StepAccepted(s: State, request: nat, id: nat, now: int): (r: State)
    requires Shaped(s)
    ensures Shaped(r)
  {
    if !Answers(s, request) then s
    else
      var job := s.stage.value.job.(id := id);
      var placed := Place(s.(stage := None, customPrev := Some(job.tip)), job);
      MoveTo(Emit(placed, s.head, WantClean(s.flushed, job.tip), false, now), LocalJd, now)
  }

  /** A stored job under another extranonce prefix: custom work cannot be rebuilt. */
  function Rebuilt(job: Job, prefix: seq<Byte>, pad: nat): Job {
    if job.kind.Upstream? && job.baseLen <= |job.coinb1|
    then job.(coinb1 := Coinb1(job.coinb1[..job.baseLen], prefix, pad))
    else if job.kind.Custom? then CLEARED
    else job
  }

  function RebuiltRing(ring: seq<Job>, prefix: seq<Byte>, pad: nat): (r: seq<Job>)
    ensures |r| == |ring| && forall i :: 0 <= i < |ring| ==> r[i] == Rebuilt(ring[i], prefix, pad)
  {
    seq(|ring|, i requires 0 <= i < |ring| => Rebuilt(ring[i], prefix, pad))
  }

  predicate Minable(job: Job) {
    job.kind.Upstream? && !job.kind.future
  }

  function SlotOfAge(head: nat, k: nat): nat {
    (head + JOBS - 1 - k) % JOBS
  }

  /** The minable job placed last, looking from the k-th newest slot on. */
  function Newest(ring: seq<Job>, head: nat, k: nat): (i: Option<nat>)
    requires |ring| == JOBS && head < JOBS && k <= JOBS
    ensures i.Some? ==> i.value < JOBS && Minable(ring[i.value])
    decreases JOBS - k
  {
    if k == JOBS then None
    else if Minable(ring[SlotOfAge(head, k)]) then Some(SlotOfAge(head, k))
    else Newest(ring, head, k + 1)
  }

  /** How many jobs have been stored since the one in slot i. */
  function AgeOf(head: nat, i: nat): (k: nat)
    requires head < JOBS && i < JOBS
    ensures k < JOBS && SlotOfAge(head, k) == i
  {
    (head + JOBS - 1 - i) % JOBS
  }

  /** The search finds the minable job stored last, if there is any. */
  lemma {:induction false} NewestIsStoredLast(ring: seq<Job>, head: nat, k: nat)
    requires |ring| == JOBS && head < JOBS && k <= JOBS
    ensures Newest(ring, head, k).None? ==> forall i :: 0 <= i < JOBS && AgeOf(head, i) >= k ==> !Minable(ring[i])
    ensures Newest(ring, head, k).Some? ==>
              forall i :: 0 <= i < JOBS && k <= AgeOf(head, i) < AgeOf(head, Newest(ring, head, k).value) ==> !Minable(ring[i])
    decreases JOBS - k
  {
    hide AgeOf, SlotOfAge;
    if k < JOBS {
      AgeOfSlot(head, k);
      NewestIsStoredLast(ring, head, k + 1);
    }
  }

  lemma AgeOfSlot(head: nat, k: nat)
    requires head < JOBS && k < JOBS
    ensures SlotOfAge(head, k) < JOBS && AgeOf(head, SlotOfAge(head, k)) == k
  {
  }

  /** The job just stored has age zero, and every other is one older. */
  lemma StoringAges(s: State, job: Job, i: nat)
    requires Shaped(s) && i < JOBS
    ensures AgeOf(Place(s, job).head, i) == if i == s.head then 0 else AgeOf(s.head, i) + 1
  {
    hide TemplateOf;
  }

  function HeldByRing(ring: seq<Job>): multiset<Template> {
    if ring == [] then multiset{} else HeldByRing(ring[..|ring| - 1]) + TemplateOf(ring[|ring| - 1])
  }

  predicate HadCustom(s: State) {
    s.stage.Some? || exists i :: 0 <= i < |s.ring| && s.ring[i].kind.Custom?
  }

  /** All of SetExtranoncePrefix up to the fate of the custom work. */
  function Reflushed(s: State, prefix: seq<Byte>, now: int): (r: State)
    requires |s.ring| == JOBS && s.head < JOBS
    ensures r == s.(prefix := prefix, ring := r.ring, live := r.live, nextNotify := r.nextNotify, log := r.log,
                    flushed := r.flushed, taken := r.taken, put := r.put)
    ensures |r.ring| == JOBS
  {
    var ring := RebuiltRing(s.ring, prefix, s.pad);
    var rebuilt := s.(prefix := prefix, ring := ring, put := s.put + HeldByRing(s.ring));
    var newest := Newest(ring, s.head, 0);
    if s.prev.Some? && newest.Some? then Emit(rebuilt, newest.value, true, true, now) else rebuilt
  }

  function StepNewPrefix(s: State, prefix: seq<Byte>, now: int): (r: State)
    requires Shaped(s)
    ensures Shaped(r)
  {
    var dropped := DropStage(Reflushed(s, prefix, now));
    if HadCustom(s) then MoveTo(dropped.(customPrev := None), Pool, now) else dropped
  }

  /** The job a declaration is staged as, built on the prefix the channel has at that moment. */
  function Build(d: Declaration, prefix: seq<Byte>, size: nat, pad: nat): Option<Job> {
    if d.holeLen != |prefix| + size || |d.body.merkles| > MAX_MERKLES then None
    else Some(Job(Custom(d.declared), 0, d.minNtime, |d.base|, Coinb1(d.base, prefix, pad), d.tip, d.nbits, d.body))
  }

  function StepInstall(s: State, d: Declaration, builtOn: seq<Byte>, now: int): (r: State)
    requires Shaped(s)
    ensures Shaped(r)
  {
    var job := Build(d, builtOn, s.size, s.pad);
    if job.None? then s
    else
      var request := (s.nextRequest + 1) % U32;
      DropStage(s).(stage := Some(Staged(job.value, request, now)), nextRequest := request,
                    taken := s.taken + TemplateOf(job.value))
  }

  function StepService(s: State, now: int): (r: State)
    requires Shaped(s)
    ensures Shaped(r)
  {
    var moved := if s.src == Bridge && now - s.bridgeAt >= BRIDGE_TIMEOUT then MoveTo(s, Pool, now) else s;
    if s.stage.Some? && now - s.stage.value.at >= CUSTOM_TIMEOUT then DropStage(moved) else moved
  }

  function HeldByNotify(n: Notify): multiset<Template> {
    if n.custom.Some? then multiset{n.custom.value.declared.tmpl} else multiset{}
  }

  function HeldByNotifies(live: seq<Notify>): multiset<Template> {
    if live == [] then multiset{} else HeldByNotifies(live[..|live| - 1]) + HeldByNotify(live[|live| - 1])
  }

  /** What an ageing pass leaves of `rest` when `count` notifies are in the table. */
  function Kept(rest: seq<Notify>, count: nat, now: int): seq<Notify> {
    if rest == [] || count < 3 then rest
    else if rest[0].time < now - NOTIFY_AGE then Kept(rest[1..], count - 1, now)
    else [rest[0]] + Kept(rest[1..], count, now)
  }

  /** The templates such a pass lets go of. */
  function LetGo(rest: seq<Notify>, count: nat, now: int): multiset<Template> {
    if rest == [] || count < 3 then multiset{}
    else if rest[0].time < now - NOTIFY_AGE then HeldByNotify(rest[0]) + LetGo(rest[1..], count - 1, now)
    else LetGo(rest[1..], count, now)
  }

  /** The notify with this id, or the number of notifies. */
  function FindNotify(live: seq<Notify>, id: nat): (i: nat)
    ensures i <= |live|
    ensures i < |live| ==> live[i].id == id
    ensures i == |live| ==> forall k :: 0 <= k < |live| ==> live[k].id != id
  {
    if live == [] || live[0].id == id then 0 else 1 + FindNotify(live[1..], id)
  }

  function StepSolveBegins(s: State, id: nat): (r: State)
    requires Shaped(s)
    ensures Shaped(r)
  {
    var i := FindNotify(s.live, id);
    if i == |s.live| then s
    else s.(solving := s.solving + HeldByNotify(s.live[i]), taken := s.taken + HeldByNotify(s.live[i]))
  }

  function StepSolveEnds(s: State, t: Template): (r: State)
    requires Shaped(s)
    ensures Shaped(r)
  {
    if t in s.solving then s.(solving := s.solving - multiset{t}, put := s.put + multiset{t}) else s
  }

  /** `sv2_proxy_free` and the zeroed channel that takes its place; notifies and solves outlive it,
    * and so does the record of what was sent. */
  function StepReconnect(s: State, prefix: seq<Byte>, size: nat, pad: nat): (r: State)
    requires Shaped(s)
    ensures Shaped(r)
  {
    Opened(s.parent, prefix, size, pad).(
    live := s.live, nextNotify := s.nextNotify, solving := s.solving, log := s.log, taken := s.taken,
    put := s.put + HeldByRing(s.ring) + (if s.stage.Some? then TemplateOf(s.stage.value.job) else multiset{}))
  }

  function Step(s: State, e: Event): (r: State)
    requires Shaped(s)
    ensures Shaped(r)
  {
    match e
    case NewJob(j, now) => StepNewJob(s, j, now)
    case NewPrevHash(id, a, local, plausible, now) => StepNewPrevHash(s, id, a, local, plausible, now)
    case CustomAccepted(request, id, now) => StepAccepted(s, request, id, now)
    case CustomRefused(request) => if Answers(s, request) then DropStage(s) else s
    case NewPrefix(prefix, now) => StepNewPrefix(s, prefix, now)
    case Install(d, builtOn, now) => StepInstall(s, d, builtOn, now)
    case Service(now) => StepService(s, now)
    case Age(now) => s.(live := Kept(s.live, |s.live|, now), put := s.put + LetGo(s.live, |s.live|, now))
    case SolveBegins(id) => StepSolveBegins(s, id)
    case SolveEnds(t) => StepSolveEnds(s, t)
    case Reconnect(prefix, size, pad) => StepReconnect(s, prefix, size, pad)
  }
}
