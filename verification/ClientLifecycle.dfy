/** The lifecycle of a connector client (`src/connector.c`): reference counts, the hash of live
  * clients, the list of dead ones and the list of structures to reuse. One step is one section
  * under the connector's lock, and steps of all threads interleave freely. The one count that is
  * changed without the lock, for the epoll reference of a new client, is read in one step and
  * written in another.
  */
module ClientLifecycle {
  import opened Basics

  // The address of a client structure.
  type Ptr = nat

  datatype Client = Client(id: int, ref: int, invalid: bool)

  /** What threads know of clients without a reference: those whose reference they handed to a send,
    * and of these the ones they have found they are to redirect. */
  datatype Known = Known(handed: multiset<Ptr>, latched: multiset<Ptr>)

  const NOTHING := Known(multiset{}, multiset{})

  /** The connector's tables, and what its threads hold: structures recruited but not yet hashed,
    * clients hashed but without their epoll reference yet, the counts read to add it to, references
    * held on a stack, and references owned by queued sends. */
  datatype State = State(
    mem: map<Ptr, Client>, hash: map<int, Ptr>, dead: seq<Ptr>, recycled: seq<Ptr>, nextId: int,
    recruited: set<Ptr>, accepting: set<Ptr>, loaded: map<Ptr, int>, holders: multiset<Ptr>, queued: multiset<Ptr>,
    known: Known)

  datatype Event =
    | Recruit(spare: Ptr)
    | Unrecruit(c: Ptr)
    | AcceptHash(c: Ptr)
    | AcceptLoad(c: Ptr)
    | AcceptStore(c: Ptr)
    | Overwritten(c: Ptr, locked: Event)
    | RefById(id: int)
    | Release(c: Ptr)
    | Drop(c: Ptr)
    | Cull
    | QueueBeside(c: Ptr)
    | QueueHeld(c: Ptr)
    | Forget(c: Ptr)
    | Latch(c: Ptr)
    | QueueMore(c: Ptr)
    | Sent(c: Ptr)

  const NOBODY := State(map[], map[], [], [], 0, {}, {}, map[], multiset{}, multiset{}, NOTHING)

  predicate Live(s: State, c: Ptr) {
    c in s.mem && s.mem[c].id in s.hash && s.hash[s.mem[c].id] == c
  }

  function AddRef(mem: map<Ptr, Client>, c: Ptr, n: int): map<Ptr, Client>
    requires c in mem
  {
    mem[c := mem[c].(ref := mem[c].ref + n)]
  }

  /** Those of a list with no references left, or with some. */
  ghost function Select(list: seq<Ptr>, mem: map<Ptr, Client>, idle: bool): (r: seq<Ptr>)
    requires forall c :: c in list ==> c in mem
    ensures forall c :: c in r <==> c in list && (mem[c].ref == 0) == idle
    ensures |r| <= |list|
  {
    if list == [] then []
    else
      var rest := Select(list[..|list| - 1], mem, idle);
      var c := list[|list| - 1];
      if (mem[c].ref == 0) == idle then rest + [c] else rest
  }

  /** `__recycle_client` for each of a list. */
  function Zeroed(mem: map<Ptr, Client>, list: seq<Ptr>): map<Ptr, Client> {
    map c | c in mem :: if c in list then Client(-1, 0, false) else mem[c]
  }

  function HandsOver(k: Known, c: Ptr): Known {
    k.(handed := k.handed + multiset{c})
  }

  function Forgets(k: Known, c: Ptr): Known {
    k.(handed := k.handed - multiset{c})
  }

  function Latches(k: Known, c: Ptr): Known {
    Known(k.handed - multiset{c}, k.latched + multiset{c})
  }

  function Redirects(k: Known, c: Ptr): Known {
    k.(latched := k.latched - multiset{c})
  }

  /** A section under the lock that changes the count of c. */
  predicate Counts(s: State, e: Event, c: Ptr) {
    match e
    case RefById(id) => id in s.hash && s.hash[id] == c && c in s.mem && !s.mem[c].invalid
    case Drop(d) => d == c && c in s.mem && !s.mem[c].invalid
    case Release(d) => d == c
    case QueueBeside(d) => d == c
    case QueueMore(d) => d == c
    case Sent(d) => d == c
    case _ => false
  }

  /** What a thread may do: it drops, releases or sends only on references it has or, in a bulk
    * drop, on the clients of the hash. Only `redirect_client` goes on with a client whose reference
    * has been handed to a send: it latches the redirect of a client that is authorised, so not of a
    * structure that has been zeroed, and then queues the reconnect. */
  ghost predicate Enabled(s: State, e: Event) {
    match e
    case Recruit(spare) => spare !in s.mem
    case Unrecruit(c) => c in s.recruited
    case AcceptHash(c) => c in s.recruited
    case AcceptLoad(c) => c in s.accepting && c !in s.loaded
    case AcceptStore(c) => c in s.loaded
    case Overwritten(c, locked) => c in s.accepting && Enabled(s, locked) && Counts(s, locked, c)
    case RefById(id) => true
    case Release(c) => c in s.holders
    case Drop(c) => c in s.holders || c in s.queued || Live(s, c)
    case Cull => true
    case QueueBeside(c) => c in s.holders
    case QueueHeld(c) => c in s.holders
    case Forget(c) => c in s.known.handed
    case Latch(c) => c in s.known.handed && c !in s.recycled && c !in s.recruited
    case QueueMore(c) => c in s.known.latched
    case Sent(c) => c in s.queued
  }

  ghost predicate Tables(s: State) {
    && (forall id :: id in s.hash ==> s.hash[id] in s.mem && s.mem[s.hash[id]].id == id && id < s.nextId)
    && (forall c :: c in s.dead || c in s.recycled || c in s.recruited || c in s.accepting ==> c in s.mem)
    && (forall c :: c in s.holders || c in s.queued ==> c in s.mem)
    && (forall c :: c in s.known.handed || c in s.known.latched ==> c in s.mem)
    && (forall c :: c in s.loaded ==> c in s.accepting)
  }

  /** The accepting thread is done with c. */
  function Accepted(s: State, c: Ptr): State {
    s.(accepting := s.accepting - {c}, loaded := s.loaded - {c})
  }

  ghost function StepRecruit(s: State, spare: Ptr): State {
    if s.recycled != [] then
      s.(recycled := s.recycled[1..], recruited := s.recruited + {s.recycled[0]})
    else
      s.(mem := s.mem[spare := Client(0, 0, false)], recruited := s.recruited + {spare})
  }

  ghost function StepUnrecruit(s: State, c: Ptr): State {
    s.(mem := s.mem[c := Client(-1, 0, false)], recycled := s.recycled + [c], recruited := s.recruited - {c})
  }

  ghost function StepHash(s: State, c: Ptr): State
    requires c in s.mem
  {
    s.(mem := s.mem[c := s.mem[c].(id := s.nextId)], hash := s.hash[s.nextId := c], nextId := s.nextId + 1,
       recruited := s.recruited - {c}, accepting := s.accepting + {c})
  }

  ghost function StepDrop(s: State, c: Ptr): State
    requires c in s.mem
  {
    if s.mem[c].invalid then s
    else
      var was := s.mem[c];
      s.(mem := s.mem[c := was.(invalid := true, ref := was.ref - 1)], hash := s.hash - {was.id}, dead := s.dead + [c])
  }

  ghost function StepCull(s: State): State
    requires forall c :: c in s.dead ==> c in s.mem
  {
    var idle := Select(s.dead, s.mem, true);
    s.(mem := Zeroed(s.mem, idle), dead := Select(s.dead, s.mem, false), recycled := s.recycled + idle)
  }

  ghost function Step(s: State, e: Event): State
    requires Tables(s) && Enabled(s, e)
  {
    match e
    case Recruit(spare) => StepRecruit(s, spare)
    case Unrecruit(c) => StepUnrecruit(s, c)
    case AcceptHash(c) => StepHash(s, c)
    case AcceptLoad(c) => s.(loaded := s.loaded[c := s.mem[c].ref])
    case AcceptStore(c) => Accepted(s.(mem := s.mem[c := s.mem[c].(ref := s.loaded[c] + 1)]), c)
    case Overwritten(c, locked) => Accepted(Step(s, locked), c)
    case RefById(id) =>
      if id !in s.hash || s.mem[s.hash[id]].invalid then s
      else s.(mem := AddRef(s.mem, s.hash[id], 1), holders := s.holders + multiset{s.hash[id]})
    case Release(c) => s.(mem := AddRef(s.mem, c, -1), holders := s.holders - multiset{c})
    case Drop(c) => StepDrop(s, c)
    case Cull => StepCull(s)
    case QueueBeside(c) => s.(mem := AddRef(s.mem, c, 1), queued := s.queued + multiset{c})
    case QueueHeld(c) =>
      s.(holders := s.holders - multiset{c}, queued := s.queued + multiset{c}, known := HandsOver(s.known, c))
    case Forget(c) => s.(known := Forgets(s.known, c))
    case Latch(c) => s.(known := Latches(s.known, c))
    case QueueMore(c) =>
      s.(mem := AddRef(s.mem, c, 1), queued := s.queued + multiset{c}, known := Redirects(s.known, c))
    case Sent(c) => s.(mem := AddRef(s.mem, c, -1), queued := s.queued - multiset{c})
  }

  /** A structure is in exactly one place; its count is its epoll reference while it is live,
    * less the one the accepting thread has yet to add, and its holders and queued sends; and
    * one that may be reused has none of these. */
  ghost predicate Sound(s: State, c: Ptr)
    requires c in s.mem
  {
    && One(Live(s, c)) + One(c in s.dead) + One(c in s.recycled) + One(c in s.recruited) == 1
    && (s.mem[c].invalid <==> c in s.dead)
    && s.mem[c].ref == One(Live(s, c)) - One(c in s.accepting) + s.holders[c] + s.queued[c]
    && (c in s.recycled || c in s.recruited ==> s.holders[c] == 0 && s.queued[c] == 0 && c !in s.accepting)
  }

  ghost predicate Inv(s: State) {
    && Tables(s)
    && Distinct(s.dead) && Distinct(s.recycled)
    && forall c :: c in s.mem ==> Sound(s, c)
  }

  /** The windows in which the code relies on the order of events. The epoll reference is added to
    * a count that was read before another thread changed it; or another thread changes the count
    * it read before, and its write buries the epoll reference. A dead client is culled while the
    * accepting thread has yet to add its epoll reference and one other reference is outstanding.
    * And `redirect_client` queues on a client whose reference its caller has handed to a send, which
    * has been recycled since. */
  ghost predicate Clean(s: State, e: Event) {
    match e
    case AcceptStore(c) => c in s.loaded && c in s.mem && s.loaded[c] == s.mem[c].ref
    case Overwritten(_, _) => false
    case Cull => forall c :: c in s.dead && c in s.accepting ==> s.holders[c] + s.queued[c] != 1
    case QueueMore(c) => c !in s.recycled && c !in s.recruited
    case _ => true
  }
}
