/** The upstream SV2 channel as `src/generator.c` keeps it: a ring of jobs, a staged custom job
  * and the work-source multiplexer, updated in place. Every method computes a step of
  * `ChannelSpec`.
  */
module Channel {
  import opened Basics
  import opened ChannelSpec
  import T = TipRing

  const MAX_EXTRANONCE := 32
  const MAX_EN2 := 8
  const MAX_EN1 := 8

  /** The split of a granted extranonce of u bytes into pad, enonce1 and enonce2, for the
    * configured enonce2 length, 0 if none is. */
  method SplitExtranonce(u: nat, configured: nat) returns (pad: nat, en1: nat, en2: nat)
    requires 1 <= u <= MAX_EXTRANONCE
    ensures pad + en1 + en2 == u
    ensures en1 <= MAX_EN1 && 1 <= en2 <= MAX_EN2
    ensures configured > 0 ==> en2 == if configured < u && configured < MAX_EN2 then configured else if u < MAX_EN2 then u else MAX_EN2
    ensures configured == 0 ==> en2 == if u > 8 then MAX_EN2 else u - en1
    ensures configured == 0 && u <= 8 ==> en1 == if u == 8 then 4 else if u >= 6 then 2 else if u >= 4 then 1 else 0
    ensures configured > 0 || u > 8 ==> en1 == if u - en2 > MAX_EN1 then MAX_EN1 else u - en2
    ensures pad > 0 ==> en1 == MAX_EN1
  {
    if configured > 0 {
      en2 := configured;
      if en2 > MAX_EN2 {
        en2 := MAX_EN2;
      }
      if en2 > u {
        en2 := u;
      }
      en1 := u - en2;
      if en1 > MAX_EN1 {
        en1 := MAX_EN1;
      }
    } else if u > 8 {
      en2 := MAX_EN2;
      en1 := u - en2;
      if en1 > MAX_EN1 {
        en1 := MAX_EN1;
      }
    } else {
      en1 := if u > 7 then 4 else if u > 5 then 2 else if u > 3 then 1 else 0;
      en2 := u - en1;
    }
    pad := u - en1 - en2;
  }

  lemma FindStep(ring: seq<Job>, id: nat, i: nat)
    requires i < |ring|
    ensures Find(ring[i..], id) == if !ring[i].kind.Cleared? && ring[i].id == id then 0 else 1 + Find(ring[i + 1..], id)
  {
    assert ring[i..][1..] == ring[i + 1..];
  }

  lemma KeptStep(live: seq<Notify>, i: nat, count: nat, now: int)
    requires i < |live|
    ensures count < 3 ==> Kept(live[i..], count, now) == live[i..] && LetGo(live[i..], count, now) == multiset{}
    ensures count >= 3 && live[i].time < now - NOTIFY_AGE ==>
              && Kept(live[i..], count, now) == Kept(live[i + 1..], count - 1, now)
              && LetGo(live[i..], count, now) == HeldByNotify(live[i]) + LetGo(live[i + 1..], count - 1, now)
    ensures count >= 3 && live[i].time >= now - NOTIFY_AGE ==>
              && Kept(live[i..], count, now) == [live[i]] + Kept(live[i + 1..], count, now)
              && LetGo(live[i..], count, now) == LetGo(live[i + 1..], count, now)
  {
    assert live[i..][1..] == live[i + 1..];
  }

  class Channel {
    const parent: bool
    var size: nat
    var pad: nat
    var prefix: seq<Byte>
    var src: Source
    var bridgeAt: int
    var customPrev: Option<Hash>
    var prev: Option<Announced>
    var flushed: Option<Hash>
    var wantReconnect: bool
    const jobs: array<Job>
    var head: nat
    var stage: Option<Staged>
    var nextRequest: nat
    var live: seq<Notify>
    var nextNotify: nat
    var solving: multiset<Template>
    ghost var log: seq<Sent>
    ghost var taken: multiset<Template>
    ghost var put: multiset<Template>

    ghost function Ring(): seq<Job>
      reads jobs
    {
      jobs[..]
    }

    ghost function View(): State
      reads this, jobs
    {
      State(parent, size, pad, prefix, src, bridgeAt, customPrev, prev, flushed, wantReconnect,
            Ring(), head, stage, nextRequest, live, nextNotify, solving, log, taken, put)
    }

    ghost predicate Valid()
      reads this, jobs
    {
      Shaped(View())
    }

    constructor (parent: bool, prefix: seq<Byte>, size: nat, pad: nat)
      ensures Valid() && fresh(jobs) && View() == Opened(parent, prefix, size, pad)
    {
      this.parent, this.size, this.pad, this.prefix := parent, size, pad, prefix;
      src, bridgeAt, customPrev, prev, flushed, wantReconnect := Pool, 0, None, None, None, false;
      jobs := new Job[JOBS](_ => CLEARED);
      head, stage, nextRequest, live, nextNotify, solving := 0, None, 0, [], 0, multiset{};
      log, taken, put := [], multiset{}, multiset{};
      new;
      assert jobs[..] == ClearedRing();
    }

    /** `sv2_proxy_job_slot` and the store into the slot. */
    method TakeSlot(job: Job)
      requires Valid()
      modifies this`head, this`put, jobs
      ensures Valid() && View() == Place(old(View()), job)
    {
      ghost var ring := jobs[..];
      put := put + TemplateOf(jobs[head]);
      jobs[head] := job;
      assert jobs[..] == ring[head := job];
      head := (head + 1) % JOBS;
    }

    /** `sv2_proxy_find_job`. */
    method FindJob(id: nat) returns (i: nat)
      ensures i == Find(Ring(), id)
    {
      hide Find;
      i := 0;
      assert jobs[..][0..] == jobs[..];
      while i < jobs.Length
        invariant i <= jobs.Length && Find(jobs[..], id) == i + Find(jobs[..][i..], id)
      {
        FindStep(jobs[..], id, i);
        if !jobs[i].kind.Cleared? && jobs[i].id == id {
          return;
        }
        i := i + 1;
      }
    }

    /** `sv2_proxy_work_src`. */
    method SetSource(to: Source, now: int)
      modifies this`src, this`bridgeAt
      ensures View() == MoveTo(old(View()), to, now)
    {
      hide Ring;
      if src == to {
        return;
      }
      src := to;
      if to == Bridge {
        bridgeAt := now;
      }
    }

    /** `sv2_proxy_send_job`, for the job in slot i. */
    method SendJob(i: nat, clean: bool, ghost rebuilt: bool, now: int)
      requires Valid() && i < JOBS
      modifies this`live, this`nextNotify, this`flushed, this`log, this`taken, jobs
      ensures Valid() && View() == Emit(old(View()), i, clean, rebuilt, now)
    {
      hide Ring, TemplateOf, NotifyOf, Aimed;
      var job := Aim(i);
      if job.kind.Cleared? || (job.kind.Upstream? && prev.None?) || |job.body.merkles| > MAX_MERKLES {
        return;
      }
      Post(job, clean, rebuilt, now);
    }

    /** A pool job takes the tip the pool last announced. */
    method Aim(i: nat) returns (job: Job)
      requires Valid() && i < JOBS
      modifies jobs
      ensures job == Aimed(prev, old(Ring())[i]) && View() == old(View()).(ring := old(Ring())[i := job])
    {
      job := jobs[i];
      if job.kind.Upstream? && prev.Some? {
        job := job.(tip := prev.value.hash, nbits := prev.value.nbits);
      }
      ghost var ring := jobs[..];
      jobs[i] := job;
      assert jobs[..] == ring[i := job];
    }

    /** The notify instance for a job, handed to the stratifier. */
    method Post(job: Job, clean: bool, ghost rebuilt: bool, now: int)
      requires Sendable(prev, job)
      modifies this`live, this`nextNotify, this`flushed, this`log, this`taken
      ensures var n := NotifyOf(old(nextNotify), prefix, prev, job, clean, now);
              View() == old(View()).(live := old(live) + [n], nextNotify := old(nextNotify) + 1,
                                     log := old(log) + [Sent(n, prefix, pad, rebuilt, prev)],
                                     flushed := if clean then Some(job.tip) else old(flushed),
                                     taken := old(taken) + TemplateOf(job))
    {
      hide Ring, TemplateOf, NotifyOf;
      var n := Compose(job, clean, now);
      taken, log := taken + TemplateOf(job), log + [Sent(n, prefix, pad, rebuilt, prev)];
      nextNotify, live := nextNotify + 1, live + [n];
      RecordFlush(job, clean);
    }

    /** The tip last flushed is remembered for the next. */
    method RecordFlush(job: Job, clean: bool)
      modifies this`flushed
      ensures View() == old(View()).(flushed := if clean then Some(job.tip) else old(flushed))
    {
      hide Ring;
      if clean {
        flushed := Some(job.tip);
      }
    }

    method Compose(job: Job, clean: bool, now: int) returns (n: Notify)
      requires Sendable(prev, job)
      ensures n == NotifyOf(nextNotify, prefix, prev, job, clean, now)
    {
      n := Notify(nextNotify, job.id, job.coinb1, job.tip, job.nbits,
                  if job.kind.Upstream? && job.kind.future then prev.value.minNtime else job.minNtime,
                  job.body, clean, now,
                  if job.kind.Custom? then Some(Solving(job.kind.declared, prefix)) else None);
    }

    /** A NewExtendedMiningJob frame. */
    method NewExtendedMiningJob(j: Extended, now: int)
      requires Valid()
      modifies this, jobs
      ensures Valid() && View() == StepNewJob(old(View()), j, now)
    {
      hide Ring, Place, Emit;
      if |j.body.merkles| > MAX_MERKLES {
        return;
      }
      var slot := head;
      var coinb1 := j.base + prefix + Zeros(pad);
      var minNtime := if j.minNtime.Some? then j.minNtime.value else 0;
      TakeSlot(Job(Upstream(j.minNtime.None?), j.id, minNtime, |j.base|, coinb1, 0, 0, j.body));
      if j.minNtime.None? {
        return;
      }
      if src == LocalJd && customPrev.Some? && prev.Some? && customPrev.value == prev.value.hash {
        return;
      }
      SendJob(slot, false, false, now);
    }

    /** Where the pool's new tip moves the work source. */
    method Arbitrate(rel: T.Relation, plausible: bool, now: int)
      modifies this`src, this`bridgeAt
      ensures View() == MoveTo(old(View()), SourceAfter(rel, plausible), now)
    {
      hide Ring, MoveTo;
      match rel {
        case Ahead =>
          if plausible {
            SetSource(Bridge, now);
          } else {
            SetSource(Pool, now);
          }
        case Behind => SetSource(Pool, now);
        case Same => SetSource(Pool, now);
        case NoLocal => SetSource(Pool, now);
      }
    }

    /** The pool's new tip is stored; custom work outlives it only if it is on that tip. */
    method Announce(a: Announced) returns (customTip: bool)
      modifies this`prev, this`customPrev
      ensures customTip == (old(customPrev) == Some(a.hash))
      ensures View() == old(View()).(prev := Some(a), customPrev := if customTip then old(customPrev) else None)
    {
      hide Ring;
      prev := Some(a);
      customTip := customPrev.Some? && customPrev.value == a.hash;
      if !customTip {
        customPrev := None;
      }
    }

    /** A SetNewPrevHash frame; `local` is where the job declaration client finds the tip. */
    method SetNewPrevHash(id: nat, a: Announced, local: T.Relation, plausible: bool, now: int)
      requires Valid()
      modifies this, jobs
      ensures Valid() && View() == StepNewPrevHash(old(View()), id, a, local, plausible, now)
    {
      hide Ring, MoveTo, Emit, Find, SourceAfter;
      var i := FindJob(id);
      if i == JOBS {
        wantReconnect := true;
        return;
      }
      var customTip := Announce(a);
      var rel := if parent then local else T.NoLocal;
      if customTip {
        return;
      }
      Arbitrate(rel, plausible, now);
      SendJob(i, flushed.None? || flushed.value != a.hash, false, now);
    }

    /** A SetCustomMiningJob.Success frame. */
    method CustomSuccess(request: nat, id: nat, now: int)
      requires Valid()
      modifies this, jobs
      ensures Valid() && View() == StepAccepted(old(View()), request, id, now)
    {
      hide Ring, MoveTo, Emit, Place;
      if stage.None? || stage.value.request != request {
        return;
      }
      var job := stage.value.job;
      stage := None;
      var clean := flushed.None? || flushed.value != job.tip;
      customPrev := Some(job.tip);
      var slot := head;
      TakeSlot(job.(id := id));
      SendJob(slot, clean, false, now);
      SetSource(LocalJd, now);
    }

    /** The stage is given up and its template put. */
    method Unstage()
      modifies this`stage, this`put
      ensures View() == ChannelSpec.DropStage(old(View()))
    {
      hide Ring, TemplateOf;
      if stage.Some? {
        put := put + TemplateOf(stage.value.job);
        stage := None;
      }
    }

    /** A SetCustomMiningJob.Error frame, or the failure to send the request. */
    method CustomError(request: nat)
      requires Valid()
      modifies this, jobs
      ensures Valid() && View() == Step(old(View()), CustomRefused(request))
    {
      hide Ring, DropStage;
      if stage.Some? && stage.value.request == request {
        Unstage();
      }
    }

    /** One stored job under a new prefix. */
    method RebuildSlot(ji: nat) returns (custom: bool)
      requires Valid() && ji < JOBS
      modifies this`put, jobs
      ensures custom == old(jobs[ji]).kind.Custom? && put == old(put) + TemplateOf(old(jobs[ji]))
      ensures forall k :: 0 <= k < JOBS ==> jobs[k] == if k == ji then Rebuilt(old(jobs[k]), prefix, pad) else old(jobs[k])
    {
      hide Rebuilt;
      var job := jobs[ji];
      RebuiltIs(job, prefix, pad);
      custom := job.kind.Custom?;
      if custom {
        put := put + TemplateOf(job);
        jobs[ji] := CLEARED;
      } else if job.kind.Upstream? && job.baseLen <= |job.coinb1| {
        jobs[ji] := job.(coinb1 := job.coinb1[..job.baseLen] + prefix + Zeros(pad));
      }
      assert !custom ==> put + TemplateOf(job) == put;
    }

    /** The rebuild of every stored job under a new prefix. */
    method RebuildRing() returns (hadCustom: bool)
      requires Valid()
      modifies this`put, jobs
      ensures Ring() == RebuiltRing(old(Ring()), prefix, pad) && put == old(put) + HeldByRing(old(Ring()))
      ensures hadCustom <==> exists i :: 0 <= i < JOBS && old(Ring())[i].kind.Custom?
    {
      hide HeldByRing, Rebuilt, RebuiltRing, TemplateOf;
      ghost var ring := jobs[..];
      hadCustom := false;
      assert ring[..0] == [];
      HeldByNone();
      for ji := 0 to JOBS
        invariant forall k :: 0 <= k < ji ==> jobs[k] == Rebuilt(ring[k], prefix, pad)
        invariant forall k :: ji <= k < JOBS ==> jobs[k] == ring[k]
        invariant put == old(put) + HeldByRing(ring[..ji])
        invariant hadCustom <==> exists i :: 0 <= i < ji && ring[i].kind.Custom?
      {
        HeldBySlot(ring, ji);
        var custom := RebuildSlot(ji);
        hadCustom := hadCustom || custom;
      }
      assert ring[..JOBS] == ring;
      assert jobs[..] == RebuiltRing(ring, prefix, pad);
    }

    /** The newest minable job, flushed. */
    method FlushNewest(now: int)
      requires Valid() && prev.Some?
      modifies this`live, this`nextNotify, this`flushed, this`log, this`taken, jobs
      ensures Valid()
      ensures var newest := Newest(old(Ring()), head, 0);
              View() == if newest.Some? then Emit(old(View()), newest.value, true, true, now) else old(View())
    {
      hide Newest, Emit;
      for ji := 0 to JOBS
        invariant Newest(Ring(), head, 0) == Newest(Ring(), head, ji)
        invariant View() == old(View()) && Valid()
      {
        NewestStep(Ring(), head, ji);
        var idx := (head - 1 - ji + JOBS) % JOBS;
        if jobs[idx].kind.Upstream? && !jobs[idx].kind.future {
          SendJob(idx, true, true, now);
          return;
        }
      }
      NewestNone(Ring(), head);
    }

    /** The new prefix, the rebuilt jobs, and the newest of them flushed. */
    method Reflush(prefix: seq<Byte>, now: int) returns (hadCustom: bool)
      requires Valid()
      modifies this, jobs
      ensures Valid() && View() == Reflushed(old(View()), prefix, now)
      ensures hadCustom <==> exists i :: 0 <= i < JOBS && old(Ring())[i].kind.Custom?
    {
      hide Ring, Emit, Newest, HeldByRing, Rebuilt, RebuiltRing;
      this.prefix := prefix;
      hadCustom := RebuildRing();
      if prev.Some? {
        FlushNewest(now);
      }
    }

    /** A SetExtranoncePrefix frame. */
    method SetExtranoncePrefix(prefix: seq<Byte>, now: int)
      requires Valid()
      modifies this, jobs
      ensures Valid() && View() == StepNewPrefix(old(View()), prefix, now)
    {
      hide Ring, MoveTo, ChannelSpec.DropStage, Reflushed, HadCustom;
      HadCustomIs(View());
      ghost var s := View();
      var hadCustom := Reflush(prefix, now);
      if stage.Some? {
        hadCustom := true;
      }
      Unstage();
      assert View() == ChannelSpec.DropStage(Reflushed(s, prefix, now));
      if hadCustom {
        GiveUpCustom(now);
      }
    }

    /** There is no custom work left to mine. */
    method GiveUpCustom(now: int)
      modifies this`customPrev, this`src, this`bridgeAt
      ensures View() == MoveTo(old(View()).(customPrev := None), Pool, now)
    {
      hide Ring, MoveTo;
      customPrev := None;
      SetSource(Pool, now);
    }

    /** The first half of `sv2_proxy_set_custom_job`: the job as downstream will see it. */
    method BuildCustom(d: Declaration) returns (job: Option<Job>)
      ensures job == Build(d, prefix, size, pad)
    {
      if d.holeLen != |prefix| + size || |d.body.merkles| > MAX_MERKLES {
        return None;
      }
      return Some(Job(Custom(d.declared), 0, d.minNtime, |d.base|, d.base + prefix + Zeros(pad), d.tip, d.nbits, d.body));
    }

    /** Its second half, under the send lock: the job built earlier replaces the stage. */
    method StageCustom(job: Job, ghost d: Declaration, ghost builtOn: seq<Byte>, now: int) returns (request: nat)
      requires Valid() && Build(d, builtOn, size, pad) == Some(job)
      modifies this, jobs
      ensures Valid() && View() == StepInstall(old(View()), d, builtOn, now)
      ensures stage.Some? && stage.value.request == request
    {
      hide Ring, TemplateOf, Build, ChannelSpec.DropStage;
      BuildIsCustom(d, builtOn, size, pad);
      Unstage();
      request := (nextRequest + 1) % U32;
      nextRequest, taken := request, taken + TemplateOf(job);
      stage := Some(Staged(job, request, now));
    }

    /** The two timeouts looked at when the socket has been served. */
    method CheckTimeouts(now: int)
      requires Valid()
      modifies this, jobs
      ensures Valid() && View() == StepService(old(View()), now)
    {
      hide Ring, MoveTo, ChannelSpec.DropStage;
      if src == Bridge && now - bridgeAt >= BRIDGE_TIMEOUT {
        SetSource(Pool, now);
      }
      if stage.Some? && now - stage.value.at >= CUSTOM_TIMEOUT {
        Unstage();
      }
    }

    /** The ageing pass over the notifies. */
    method AgeNotifies(now: int)
      requires Valid()
      modifies this, jobs
      ensures Valid() && View() == Step(old(View()), Age(now))
    {
      hide Ring, Kept, LetGo, HeldByNotify;
      var kept, i := [], 0;
      ghost var gone: multiset<Template> := multiset{};
      var count := |live|;
      assert live[0..] == live;
      while i < |live| && count >= 3
        invariant i <= |live| && count == |kept| + |live| - i
        invariant Kept(live, |live|, now) == kept + Kept(live[i..], count, now)
        invariant LetGo(live, |live|, now) == gone + LetGo(live[i..], count, now)
        invariant View() == old(View())
      {
        KeptStep(live, i, count, now);
        if live[i].time < now - NOTIFY_AGE {
          gone := gone + HeldByNotify(live[i]);
          count := count - 1;
        } else {
          kept := kept + [live[i]];
        }
        i := i + 1;
      }
      KeptEnds(live[i..], count, now);
      put := put + gone;
      live := kept + live[i..];
    }

    /** A solve on the share thread pins the template of the notify it was found on. */
    method BeginSolve(id: nat) returns (tmpl: Option<Template>)
      requires Valid()
      modifies this`solving, this`taken
      ensures Valid() && View() == StepSolveBegins(old(View()), id)
      ensures tmpl.Some? ==> tmpl.value in solving
    {
      hide Ring, FindNotify;
      var i := 0;
      while i < |live| && live[i].id != id
        invariant i <= |live| && forall k :: 0 <= k < i ==> live[k].id != id
      {
        i := i + 1;
      }
      FoundFirst(live, id, i);
      tmpl := None;
      if i < |live| && live[i].custom.Some? {
        tmpl := Some(live[i].custom.value.declared.tmpl);
        taken := taken + multiset{tmpl.value};
        solving := solving + multiset{tmpl.value};
      }
    }

    method EndSolve(tmpl: Template)
      requires Valid() && tmpl in solving
      modifies this`solving, this`put
      ensures Valid() && View() == StepSolveEnds(old(View()), tmpl)
    {
      hide Ring;
      put := put + multiset{tmpl};
      solving := solving - multiset{tmpl};
    }

    /** The slots of a channel that goes away. */
    method ClearRing()
      requires Valid()
      modifies this`put, jobs
      ensures Ring() == ClearedRing() && put == old(put) + HeldByRing(old(Ring()))
    {
      hide HeldByRing, TemplateOf;
      ghost var ring := jobs[..];
      HeldByNone();
      assert ring[..0] == [];
      for i := 0 to JOBS
        invariant forall k :: 0 <= k < i ==> jobs[k] == CLEARED
        invariant forall k :: i <= k < JOBS ==> jobs[k] == ring[k]
        invariant put == old(put) + HeldByRing(ring[..i])
      {
        HeldBySlot(ring, i);
        put := put + TemplateOf(jobs[i]);
        jobs[i] := CLEARED;
      }
      assert ring[..JOBS] == ring;
      assert jobs[..] == ClearedRing();
    }

    /** `sv2_proxy_free`, and the zeroed channel of the next connection. */
    method Reopen(prefix: seq<Byte>, size: nat, pad: nat)
      requires Valid()
      modifies this, jobs
      ensures Valid() && View() == StepReconnect(old(View()), prefix, size, pad)
    {
      hide Ring, HeldByRing, TemplateOf, ClearedRing;
      ClearRing();
      PutStage();
      Restart(prefix, size, pad);
    }

    method Restart(prefix: seq<Byte>, size: nat, pad: nat)
      requires Ring() == ClearedRing()
      modifies this
      ensures View() == Opened(parent, prefix, size, pad).(live := live, nextNotify := nextNotify, solving := solving,
                                                            log := log, taken := taken, put := put)
      ensures unchanged(`live, `nextNotify, `solving, `log, `taken, `put)
    {
      hide Ring, ClearedRing;
      Grant(prefix, size, pad);
      Zero();
    }

    method PutStage()
      modifies this`put
      ensures put == old(put) + (if stage.Some? then TemplateOf(stage.value.job) else multiset{})
    {
      put := put + (if stage.Some? then TemplateOf(stage.value.job) else multiset{});
    }

    /** What the pool granted the new connection. */
    method Grant(prefix: seq<Byte>, size: nat, pad: nat)
      modifies this`size, this`pad, this`prefix
      ensures this.size == size && this.pad == pad && this.prefix == prefix
    {
      this.size, this.pad, this.prefix := size, pad, prefix;
    }

    method Zero()
      modifies this`src, this`bridgeAt, this`customPrev, this`prev, this`flushed, this`wantReconnect
      modifies this`head, this`stage, this`nextRequest
      ensures src == Pool && bridgeAt == 0 && customPrev == None && prev == None && flushed == None && !wantReconnect
      ensures head == 0 && stage == None && nextRequest == 0
    {
      src, bridgeAt, customPrev, prev, flushed, wantReconnect := Pool, 0, None, None, None, false;
      head, stage, nextRequest := 0, None, 0;
    }

    /** The extranonce of a SubmitSharesExtended for a share on a notify, and for custom work the
      * whole coinbase hole the solve paths need. */
    method SubmitExtranonce(id: nat, rolled: seq<Byte>) returns (sub: Option<seq<Byte>>, hole: Option<seq<Byte>>)
      ensures sub.Some? <==> (exists n :: n in live && n.id == id) && 1 <= |rolled| <= 32 && pad + |rolled| == size <= 32
      ensures sub.Some? ==> sub.value == Zeros(pad) + rolled && |sub.value| == size
      ensures hole.Some? <==> sub.Some? && HoleOf(id).Some? && |HoleOf(id).value| + size <= 32
      ensures hole.Some? ==> hole.value == HoleOf(id).value + (Zeros(pad) + rolled)
    {
      hide FindNotify;
      var i := 0;
      while i < |live| && live[i].id != id
        invariant i <= |live| && forall k :: 0 <= k < i ==> live[k].id != id
      {
        i := i + 1;
      }
      HoleAt(i, id);
      sub, hole := None, None;
      if i == |live| {
        return;
      }
      if |rolled| < 1 || |rolled| > 32 || pad + |rolled| != size || pad + |rolled| > 32 {
        return;
      }
      sub := Some(Zeros(pad) + rolled);
      if live[i].custom.Some? && |live[i].custom.value.prefix| + size <= 32 {
        hole := Some(live[i].custom.value.prefix + sub.value);
      }
    }

    /** The prefix a custom notify keeps. */
    ghost function HoleOf(id: nat): Option<seq<Byte>>
      reads this
    {
      var i := FindNotify(live, id);
      if i < |live| && live[i].custom.Some? then Some(live[i].custom.value.prefix) else None
    }

    lemma HoleAt(i: nat, id: nat)
      requires i <= |live| && (forall k :: 0 <= k < i ==> live[k].id != id) && (i < |live| ==> live[i].id == id)
      ensures i == |live| ==> HoleOf(id) == None && !exists n :: n in live && n.id == id
      ensures i < |live| ==> live[i] in live
      ensures i < |live| ==> HoleOf(id) == if live[i].custom.Some? then Some(live[i].custom.value.prefix) else None
    {
      FoundFirst(live, id, i);
    }
  }

  lemma {:induction false} FoundFirst(live: seq<Notify>, id: nat, i: nat)
    requires i <= |live| && (forall k :: 0 <= k < i ==> live[k].id != id) && (i < |live| ==> live[i].id == id)
    ensures FindNotify(live, id) == i
  {
    if i > 0 {
      FoundFirst(live[1..], id, i - 1);
    }
  }

  lemma BuildIsCustom(d: Declaration, prefix: seq<Byte>, size: nat, pad: nat)
    ensures var job := Build(d, prefix, size, pad); job.Some? ==> job.value.kind.Custom?
  {
  }

  lemma HadCustomIs(s: State)
    requires Shaped(s)
    ensures HadCustom(s) <==> s.stage.Some? || exists i :: 0 <= i < JOBS && s.ring[i].kind.Custom?
  {
  }

  lemma HeldByNone()
    ensures HeldByRing([]) == multiset{}
  {
  }

  lemma HeldBySlot(ring: seq<Job>, i: nat)
    requires i < |ring|
    ensures HeldByRing(ring[..i + 1]) == HeldByRing(ring[..i]) + TemplateOf(ring[i])
    ensures !ring[i].kind.Custom? ==> TemplateOf(ring[i]) == multiset{}
  {
    assert ring[..i + 1][..i] == ring[..i];
  }

  lemma RebuiltIs(job: Job, prefix: seq<Byte>, pad: nat)
    ensures job.kind.Custom? ==> Rebuilt(job, prefix, pad) == CLEARED
    ensures job.kind.Upstream? && job.baseLen <= |job.coinb1| ==>
              Rebuilt(job, prefix, pad) == job.(coinb1 := job.coinb1[..job.baseLen] + prefix + Zeros(pad))
    ensures !job.kind.Custom? && !(job.kind.Upstream? && job.baseLen <= |job.coinb1|) ==> Rebuilt(job, prefix, pad) == job
  {
  }

  lemma NewestStep(ring: seq<Job>, head: nat, k: nat)
    requires |ring| == JOBS && head < JOBS && k < JOBS
    ensures var i := (head - 1 - k + JOBS) % JOBS;
            Newest(ring, head, k) == if Minable(ring[i]) then Some(i) else Newest(ring, head, k + 1)
  {
  }

  lemma NewestNone(ring: seq<Job>, head: nat)
    requires |ring| == JOBS && head < JOBS
    ensures Newest(ring, head, JOBS) == None
  {
  }

  lemma KeptEnds(rest: seq<Notify>, count: nat, now: int)
    requires rest == [] || count < 3
    ensures Kept(rest, count, now) == rest && LetGo(rest, count, now) == multiset{}
  {
  }
}
