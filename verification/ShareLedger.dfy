/** The account of shares submitted on an SV2 channel (`src/generator.c`): 32-bit sequence
  * numbers that wrap, a table of shares awaiting an answer, and batched acknowledgements. A run
  * goes on over reconnects, which start the numbers anew and forget the table.
  */
module ShareLedger {
  import opened Basics

  const HALF := 0x8000_0000

  /** A share in the table: the sequence number on the wire and the difficulty it was submitted at.
    * `index` counts the submissions of all connections without wrapping, for the model alone. */
  datatype Share = Share(seqno: nat, diff: int, index: nat)

  /** How many sequence numbers were taken, and how many before this connection; the shares sent but
    * not yet in the table, and the table; then all shares ever in the table, those credited, and
    * those a lost connection took with it. */
  datatype State = State(taken: nat, base: nat, flying: set<nat>, pending: seq<Share>,
                         tracked: seq<Share>, accepted: seq<Share>, rejected: seq<Share>, lost: seq<Share>)

  datatype Event =
    | Take
    | SendFailed(index: nat)
    | Insert(index: nat, diff: int)
    | Success(last: nat)
    | Error(seqno: nat)
    | Free

  /** (int32_t)(a - b) of two 32-bit numbers. */
  function SignedDifference(a: int, b: int): int {
    var d := (a - b) % U32;
    if d < HALF then d else d - U32
  }

  predicate Covered(last: nat, x: Share) {
    SignedDifference(last, x.seqno) >= 0
  }

  /** The shares of a table that a batched Success covers, or those it does not. */
  function Select(table: seq<Share>, last: nat, covered: bool): seq<Share> {
    if table == [] then []
    else
      var rest := Select(table[..|table| - 1], last, covered);
      var x := table[|table| - 1];
      if Covered(last, x) == covered then rest + [x] else rest
  }

  /** The first share with this sequence number, or the size of the table. */
  function Find(table: seq<Share>, seqno: nat): (i: nat)
    ensures i <= |table| && (i < |table| ==> table[i].seqno == seqno)
    ensures forall k :: 0 <= k < i ==> table[k].seqno != seqno
  {
    if table == [] || table[0].seqno == seqno then 0 else 1 + Find(table[1..], seqno)
  }

  function Step(s: State, e: Event): State {
    match e
    case Take => s.(taken := s.taken + 1, flying := s.flying + {s.taken})
    case SendFailed(index) => s.(flying := s.flying - {index})
    case Insert(index, diff) =>
      var x := Share((index - s.base) % U32, diff, index);
      s.(flying := s.flying - {index}, pending := s.pending + [x], tracked := s.tracked + [x])
    case Success(last) =>
      s.(pending := Select(s.pending, last, false), accepted := s.accepted + Select(s.pending, last, true))
    case Error(seqno) =>
      var i := Find(s.pending, seqno);
      if i == |s.pending| then s
      else s.(pending := s.pending[..i] + s.pending[i + 1..], rejected := s.rejected + [s.pending[i]])
    case Free => s.(base := s.taken, flying := {}, pending := [], lost := s.lost + s.pending)
  }

  const EMPTY := State(0, 0, {}, [], [], [], [], [])

  ghost predicate Enabled(s: State, e: Event) {
    && (e.SendFailed? ==> e.index in s.flying)
    && (e.Insert? ==> e.index in s.flying)
  }

  type Bag = multiset<Share>

  predicate AddsUp(all: Bag, pending: Bag, accepted: Bag, rejected: Bag, lost: Bag) {
    all == pending + accepted + rejected + lost
  }

  /** Every share ever in the table is in exactly one place, as it was submitted. */
  ghost predicate Balanced(s: State) {
    AddsUp(multiset(s.tracked), multiset(s.pending), multiset(s.accepted), multiset(s.rejected), multiset(s.lost))
  }

  /** No two are the same submission. */
  ghost predicate Numbered(s: State) {
    && s.base <= s.taken
    && (forall i :: 0 <= i < |s.tracked| ==> s.tracked[i].index < s.taken)
    && (forall i :: 0 <= i < |s.tracked| ==> s.tracked[i].index !in s.flying)
    && (forall i, j :: 0 <= i < j < |s.tracked| ==> s.tracked[i].index != s.tracked[j].index)
    && (forall t :: t in s.flying ==> s.base <= t < s.taken)
  }

  /** Each share in the table has the number this connection gave it. */
  ghost predicate Stamped(s: State) {
    forall x :: x in s.pending ==> s.base <= x.index && x.seqno == (x.index - s.base) % U32
  }

  ghost predicate Inv(s: State) {
    Balanced(s) && Numbered(s) && Stamped(s)
  }

  lemma {:induction false} SelectSplits(table: seq<Share>, last: nat)
    ensures multiset(table) == multiset(Select(table, last, true)) + multiset(Select(table, last, false))
    ensures forall x :: x in Select(table, last, true) <==> x in table && Covered(last, x)
    ensures forall x :: x in Select(table, last, false) <==> x in table && !Covered(last, x)
  {
    hide Covered;
    if table != [] {
      var n := |table| - 1;
      SelectSplits(table[..n], last);
      assert table == table[..n] + [table[n]];
    }
  }

  lemma RemovalSplits(table: seq<Share>, i: nat)
    requires i < |table|
    ensures multiset(table) == multiset(table[..i] + table[i + 1..]) + multiset([table[i]])
  {
    assert table == table[..i] + [table[i]] + table[i + 1..];
  }

  lemma OneMore(all: Bag, p: Bag, a: Bag, r: Bag, l: Bag, x: Bag)
    requires AddsUp(all, p, a, r, l)
    ensures AddsUp(all + x, p + x, a, r, l)
  {
  }

  lemma OneRejected(all: Bag, p: Bag, a: Bag, r: Bag, l: Bag, x: Bag)
    requires AddsUp(all, p + x, a, r, l)
    ensures AddsUp(all, p, a, r + x, l)
  {
  }

  lemma SomeAccepted(all: Bag, p: Bag, a: Bag, r: Bag, l: Bag, x: Bag)
    requires AddsUp(all, x + p, a, r, l)
    ensures AddsUp(all, p, a + x, r, l)
  {
  }

  lemma AllLost(all: Bag, p: Bag, a: Bag, r: Bag, l: Bag)
    requires AddsUp(all, p, a, r, l)
    ensures AddsUp(all, multiset{}, a, r, l + p)
  {
  }

  lemma InsertBalanced(s: State, index: nat, diff: int)
    requires Inv(s) && index in s.flying
    ensures Balanced(Step(s, Insert(index, diff))) && Stamped(Step(s, Insert(index, diff)))
  {
    hide Numbered, AddsUp;
    var x := Share((index - s.base) % U32, diff, index);
    InRange(s, index);
    assert multiset(s.tracked + [x]) == multiset(s.tracked) + multiset{x};
    assert multiset(s.pending + [x]) == multiset(s.pending) + multiset{x};
    OneMore(multiset(s.tracked), multiset(s.pending), multiset(s.accepted), multiset(s.rejected), multiset(s.lost), multiset{x});
  }

  lemma InRange(s: State, index: nat)
    requires Numbered(s) && index in s.flying
    ensures s.base <= index < s.taken
  {
  }

  lemma SuccessBalanced(s: State, last: nat)
    requires Balanced(s) && Stamped(s)
    ensures Balanced(Step(s, Success(last))) && Stamped(Step(s, Success(last)))
  {
    hide Select, Covered, Find, AddsUp;
    SelectSplits(s.pending, last);
    var kept, credit := Select(s.pending, last, false), Select(s.pending, last, true);
    assert multiset(s.accepted + credit) == multiset(s.accepted) + multiset(credit);
    SomeAccepted(multiset(s.tracked), multiset(kept), multiset(s.accepted), multiset(s.rejected), multiset(s.lost), multiset(credit));
  }

  lemma ErrorBalanced(s: State, seqno: nat)
    requires Balanced(s) && Stamped(s)
    ensures Balanced(Step(s, Error(seqno))) && Stamped(Step(s, Error(seqno)))
  {
    hide Find, AddsUp, Stamped;
    var i := Find(s.pending, seqno);
    if i < |s.pending| {
      var x, rest := s.pending[i], s.pending[..i] + s.pending[i + 1..];
      RemovalSplits(s.pending, i);
      assert multiset(s.rejected + [x]) == multiset(s.rejected) + multiset([x]);
      OneRejected(multiset(s.tracked), multiset(rest), multiset(s.accepted), multiset(s.rejected), multiset(s.lost), multiset([x]));
      StillStamped(s, Step(s, Error(seqno)), i);
    }
  }

  lemma StillStamped(s: State, t: State, i: nat)
    requires Stamped(s) && i < |s.pending|
    requires t.base == s.base && t.pending == s.pending[..i] + s.pending[i + 1..]
    ensures Stamped(t)
  {
  }

  lemma InvKept(s: State, e: Event)
    requires Inv(s) && Enabled(s, e)
    ensures Inv(Step(s, e))
  {
    hide Select, Covered, Find, Balanced, Stamped;
    match e
    case Insert(index, diff) => InsertBalanced(s, index, diff);
    case Success(last) => SuccessBalanced(s, last);
    case Error(seqno) => ErrorBalanced(s, seqno);
    case Free => FreeBalanced(s);
    case _ => SameBalance(s, Step(s, e));
  }

  lemma SameBalance(s: State, t: State)
    requires Balanced(s) && Stamped(s) && t == s.(taken := t.taken, flying := t.flying)
    ensures Balanced(t) && Stamped(t)
  {
  }

  /** A connection that goes away loses the shares it still awaits an answer for, and credits none. */
  lemma FreeBalanced(s: State)
    requires Balanced(s)
    ensures var t := Step(s, Free);
            && Balanced(t) && Stamped(t) && t.pending == []
            && t.lost == s.lost + s.pending && t.accepted == s.accepted && t.rejected == s.rejected
  {
    hide AddsUp;
    assert multiset(s.lost + s.pending) == multiset(s.lost) + multiset(s.pending);
    AllLost(multiset(s.tracked), multiset(s.pending), multiset(s.accepted), multiset(s.rejected), multiset(s.lost));
  }

  /** The states of a run of enabled steps. */
  ghost predicate Runs(states: seq<State>, events: seq<Event>) {
    && |states| == |events| + 1 && states[0] == EMPTY
    && forall k :: 0 <= k < |events| ==> Enabled(states[k], events[k]) && states[k + 1] == Step(states[k], events[k])
  }

  /** In every run, each share that was in the table is in exactly one of pending, accepted, rejected
    * and lost, once, at its submit-time difficulty. */
  lemma {:induction false} EveryStateBalanced(states: seq<State>, events: seq<Event>, k: nat)
    requires Runs(states, events) && k < |states|
    ensures Inv(states[k])
  {
    hide Step, Inv;
    if k == 0 {
      EmptyBalanced();
    } else {
      EveryStateBalanced(states, events, k - 1);
      InvKept(states[k - 1], events[k - 1]);
    }
  }

  lemma EmptyBalanced()
    ensures Inv(EMPTY)
  {
  }

  lemma InOnePlace(s: State, x: Share)
    requires Inv(s) && x in s.tracked
    ensures multiset(s.pending)[x] + multiset(s.accepted)[x] + multiset(s.rejected)[x] + multiset(s.lost)[x] == 1
  {
    TrackedOnce(s.tracked, x);
    assert multiset(s.tracked)[x] == 1;
  }

  lemma {:induction false} TrackedOnce(table: seq<Share>, x: Share)
    requires x in table && forall i, j :: 0 <= i < j < |table| ==> table[i].index != table[j].index
    ensures multiset(table)[x] == 1
  {
    var i :| 0 <= i < |table| && table[i] == x;
    RemovalSplits(table, i);
    var others := table[..i] + table[i + 1..];
    assert forall k :: 0 <= k < |others| ==> others[k] == table[if k < i then k else k + 1];
    assert x !in others;
    assert multiset(others)[x] == 0;
  }

  // ----- which shares a batch covers -----

  /** All sequence numbers outstanding are among the last 2^31 taken. */
  ghost predicate Window(s: State) {
    forall x :: x in s.pending ==> s.taken - x.index <= 0x8000_0000
  }

  /** Within the window the signed difference of two wrapped numbers has the sign of the
    * difference of the numbers. */
  lemma WrapKeepsOrder(last: int, index: int)
    requires -0x8000_0000 < last - index < 0x8000_0000
    ensures SignedDifference(last % U32, index % U32) == last - index
  {
    var a, b := last % U32, index % U32;
    assert a - b == last - index + U32 * (index / U32 - last / U32);
    Congruent(a - b, last - index, index / U32 - last / U32);
    if last >= index {
      assert (last - index) % U32 == last - index;
    } else {
      assert (last - index) % U32 == last - index + U32;
    }
  }

  /** In general it is the number congruent to the difference that 32 bits hold with a sign. */
  lemma SignedDifferenceIs(a: int, b: int)
    ensures -0x8000_0000 <= SignedDifference(a, b) < 0x8000_0000
    ensures SignedDifference(a, b) % 0x1_0000_0000 == (a - b) % 0x1_0000_0000
  {
    var d := (a - b) % U32;
    Congruent(d, a - b, -((a - b) / U32));
    Congruent(d - U32, d, -1);
  }

  lemma Congruent(a: int, b: int, k: int)
    requires a == b + U32 * k
    ensures a % U32 == b % U32
  {
  }

  /** A batched Success up to the share with index `last` of this connection credits exactly the
    * pending shares submitted no later, however often the sequence has wrapped. */
  lemma BatchIsExact(s: State, last: nat, x: Share)
    requires Inv(s) && Window(s) && s.base <= last < s.taken && s.taken - last <= 0x8000_0000
    requires x in s.pending
    ensures var t := Step(s, Success((last - s.base) % U32));
            && (x in t.accepted <==> x.index <= last)
            && (x in t.pending <==> x.index > last)
  {
    hide Select, SignedDifference;
    PendingTracked(s, x);
    SelectSplits(s.pending, (last - s.base) % U32);
    WrapKeepsOrder(last - s.base, x.index - s.base);
    InOnePlace(s, x);
    assert multiset(s.pending)[x] >= 1;
  }

  lemma PendingTracked(s: State, x: Share)
    requires Inv(s) && x in s.pending
    ensures x in s.tracked && s.base <= x.index < s.taken && x.seqno == (x.index - s.base) % U32
    ensures x.index !in s.flying
  {
    assert multiset(s.tracked)[x] >= 1;
    var i :| 0 <= i < |s.tracked| && s.tracked[i] == x;
  }

  /** An Error for a share rejects it exactly when it is in the table; one that comes between the
    * send and the insert is lost. */
  lemma ErrorRejectsIffPending(s: State, index: nat)
    requires Inv(s) && Window(s) && s.base <= index < s.taken && s.taken - index <= 0x8000_0000
    ensures var t := Step(s, Error((index - s.base) % U32));
            var here := exists x :: x in s.pending && x.index == index;
            (here ==> t.rejected != s.rejected && t.rejected[|t.rejected| - 1].index == index) && (!here ==> t == s)
  {
    hide Find, SignedDifference;
    var i := Find(s.pending, (index - s.base) % U32);
    if i < |s.pending| {
      var x := s.pending[i];
      PendingTracked(s, x);
      SameNumber(x.index - s.base, index - s.base);
    }
    forall x | x in s.pending && x.index == index ensures i < |s.pending| {
      PendingTracked(s, x);
      var k :| 0 <= k < |s.pending| && s.pending[k] == x;
    }
  }

  lemma SameNumber(a: int, b: int)
    requires a % U32 == b % U32 && -0x8000_0000 < a - b < 0x8000_0000
    ensures a == b
  {
    WrapKeepsOrder(a, b);
  }

  /** A share is sent, the pool's Error for it arrives, the share enters the table, and a Success
    * covers it. */
  function EarlyError(diff: int): seq<Event> {
    [Take, Error(0), Insert(0, diff), Success(0)]
  }

  /** So a rejected share can end up credited as accepted. */
  lemma EarlyErrorIsLost(diff: int)
    ensures exists states: seq<State> :: Runs(states, EarlyError(diff))
                          && states[4].accepted == [Share(0, diff, 0)] && states[4].rejected == []
  {
    var x := Share(0, diff, 0);
    var s1 := State(1, 0, {0}, [], [], [], [], []);
    var s3 := State(1, 0, {}, [x], [x], [], [], []);
    var s4 := State(1, 0, {}, [], [x], [x], [], []);
    var states := [EMPTY, s1, s1, s3, s4];
    assert Step(EMPTY, Take) == s1;
    assert Step(s1, Error(0)) == s1;
    assert Step(s1, Insert(0, diff)) == s3;
    CoversItself(x);
    assert Step(s3, Success(0)) == s4;
    assert Runs(states, EarlyError(diff));
    assert states[4].accepted == [Share(0, diff, 0)];
  }

  lemma CoversItself(x: Share)
    requires x.seqno == 0
    ensures Select([x], 0, true) == [x] && Select([x], 0, false) == []
  {
    assert [x][..0] == [];
  }

  // ----- the table in place -----

  lemma SelectNext(table: seq<Share>, last: nat, covered: bool, i: nat)
    requires i < |table|
    ensures Select(table[..i + 1], last, covered)
         == Select(table[..i], last, covered) + if Covered(last, table[i]) == covered then [table[i]] else []
  {
    assert table[..i + 1][..i] == table[..i];
  }

  class Ledger {
    var nextSeq: nat
    var pending: seq<Share>
    var accepted: seq<Share>
    var rejected: seq<Share>
    var taken: nat
    ghost var base: nat
    ghost var flying: set<nat>
    ghost var tracked: seq<Share>
    ghost var lost: seq<Share>

    ghost function View(): State
      reads this
    {
      State(taken, base, flying, pending, tracked, accepted, rejected, lost)
    }

    ghost predicate Valid()
      reads this
    {
      Inv(View()) && nextSeq == (taken - base) % U32
    }

    constructor ()
      ensures Valid() && View() == EMPTY
    {
      nextSeq, pending, accepted, rejected, taken := 0, [], [], [], 0;
      base, flying, tracked, lost := 0, {}, [], [];
    }

    /** The sequence number of the next submission, under the send lock. */
    method TakeNumber() returns (seqno: nat, index: nat)
      requires Valid()
      modifies this
      ensures Valid() && View() == Step(old(View()), Take) && index in flying
      ensures seqno == (index - base) % U32
    {
      hide Inv;
      InvKept(View(), Take);
      index, seqno := taken, nextSeq;
      nextSeq := (nextSeq + 1) % U32;
      taken, flying := taken + 1, flying + {index};
    }

    /** What was sent is tracked, at the difficulty the channel has now. */
    method Track(seqno: nat, diff: int, index: nat)
      requires Valid() && index in flying && seqno == (index - base) % U32
      modifies this
      ensures Valid() && View() == Step(old(View()), Insert(index, diff))
    {
      hide Inv;
      InvKept(View(), Insert(index, diff));
      var x := Share(seqno, diff, index);
      pending, tracked, flying := pending + [x], tracked + [x], flying - {index};
    }

    /** A SubmitShares.Success frame: unlink all it covers, then credit them. */
    method SubmitSuccess(last: nat) returns (credited: nat)
      requires Valid()
      modifies this
      ensures Valid() && View() == Step(old(View()), Success(last))
      ensures credited == |accepted| - |old(accepted)|
    {
      hide Inv, Select, Covered;
      InvKept(View(), Success(last));
      var table, credit, kept := pending, [], [];
      assert table[..0] == [];
      SelectNone(last);
      for i := 0 to |table|
        invariant View() == old(View()) && nextSeq == old(nextSeq)
        invariant credit == Select(table[..i], last, true) && kept == Select(table[..i], last, false)
      {
        SelectNext(table, last, true, i);
        SelectNext(table, last, false, i);
        var x := table[i];
        if Covered(last, x) {
          credit := credit + [x];
        } else {
          kept := kept + [x];
        }
      }
      assert table[..|table|] == table;
      pending := kept;
      accepted := accepted + credit;
      credited := |credit|;
    }

    /** A SubmitShares.Error frame. */
    method SubmitError(seqno: nat) returns (found: bool)
      requires Valid()
      modifies this
      ensures Valid() && View() == Step(old(View()), Error(seqno))
      ensures found <==> |rejected| > |old(rejected)|
    {
      hide Inv, Find;
      InvKept(View(), Error(seqno));
      var i := 0;
      while i < |pending| && pending[i].seqno != seqno
        invariant i <= |pending| && forall k :: 0 <= k < i ==> pending[k].seqno != seqno
      {
        i := i + 1;
      }
      FoundFirst(pending, seqno, i);
      found := i < |pending|;
      if found {
        rejected := rejected + [pending[i]];
        pending := pending[..i] + pending[i + 1..];
      }
    }

    /** The account's part of `sv2_proxy_free`, and the zeroed channel that takes over. */
    method Forget()
      requires Valid()
      modifies this
      ensures Valid() && View() == Step(old(View()), Free)
    {
      hide Inv;
      InvKept(View(), Free);
      base, flying, lost := taken, {}, lost + pending;
      pending, nextSeq := [], 0;
    }
  }

  lemma SelectNone(last: nat)
    ensures Select([], last, true) == [] && Select([], last, false) == []
  {
  }

  lemma FoundFirst(table: seq<Share>, seqno: nat, i: nat)
    requires i <= |table| && (i < |table| ==> table[i].seqno == seqno)
    requires forall k :: 0 <= k < i ==> table[k].seqno != seqno
    ensures Find(table, seqno) == i
  {
    hide Find;
    var j := Find(table, seqno);
  }
}
