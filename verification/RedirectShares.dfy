/** The in-flight submits the redirector (`src/connector.c`) keeps of a client: how they expire, how
  * they are bounded, and which reply earns a redirect.
  */
module RedirectShares {
  import opened Basics

  const TTL := 120
  const MAX_CLIENT := 64
  const MAX_GLOBAL := 4096

  type Address = nat

  datatype Share = Share(submitted: int, id: int)

  /** A client instance; it is in the hash until it is dropped, and once recycled it is `gone` and its
    * number is not used again. */
  datatype Client = Client(address: Address, authorised: bool, redirected: bool, shares: seq<Share>, nshares: int,
                           hashed: bool, gone: bool)

  /** What is left of a list when the expired submits at its head are gone. */
  function Fresh(shares: seq<Share>, now: int): (r: seq<Share>)
    ensures |r| <= |shares| && r == shares[|shares| - |r|..]
    ensures r != [] ==> now <= r[0].submitted + TTL
  {
    if shares == [] || now <= shares[0].submitted + TTL then shares else Fresh(shares[1..], now)
  }

  ghost predicate Ascending(shares: seq<Share>) {
    forall i, j :: 0 <= i < j < |shares| ==> shares[i].submitted <= shares[j].submitted
  }

  lemma FreshStep(shares: seq<Share>, now: int)
    requires shares != [] && now > shares[0].submitted + TTL
    ensures Fresh(shares, now) == Fresh(shares[1..], now)
  {
  }

  lemma FreshStops(shares: seq<Share>, now: int)
    requires shares == [] || now <= shares[0].submitted + TTL
    ensures Fresh(shares, now) == shares
  {
  }

  lemma InTail(shares: seq<Share>, s: Share)
    requires shares != []
    ensures s in shares <==> s == shares[0] || s in shares[1..]
  {
    assert shares == [shares[0]] + shares[1..];
  }

  lemma NoneExpired(shares: seq<Share>, now: int)
    requires Ascending(shares) && shares != [] && now <= shares[0].submitted + TTL
    ensures forall s :: s in shares ==> now <= s.submitted + TTL
  {
    forall s | s in shares ensures now <= s.submitted + TTL {
      var i :| 0 <= i < |shares| && shares[i] == s;
    }
  }

  lemma TailAscends(shares: seq<Share>)
    requires Ascending(shares) && shares != []
    ensures Ascending(shares[1..])
  {
  }

  /** In a list that was filled in the order of time, those are exactly the expired ones. */
  lemma {:induction false} FreshDropsExpired(shares: seq<Share>, now: int, s: Share)
    requires Ascending(shares)
    ensures s in Fresh(shares, now) <==> s in shares && now <= s.submitted + TTL
  {
    hide Ascending, Fresh;
    if shares == [] {
      FreshStops(shares, now);
    } else if now <= shares[0].submitted + TTL {
      FreshStops(shares, now);
      NoneExpired(shares, now);
    } else {
      FreshStep(shares, now);
      TailAscends(shares);
      FreshDropsExpired(shares[1..], now, s);
      InTail(shares, s);
    }
  }

  ghost predicate DistinctIds(shares: seq<Share>) {
    forall i, j :: 0 <= i < j < |shares| ==> shares[i].id != shares[j].id
  }

  predicate Has(shares: seq<Share>, id: int) {
    exists i :: 0 <= i < |shares| && shares[i].id == id
  }

  function Newest(shares: seq<Share>, n: nat): seq<Share> {
    if |shares| <= n then shares else shares[|shares| - n..]
  }

  /** The submits of a client after it sends one, when `others` are in flight elsewhere. */
  function AfterSubmit(client: Client, others: nat, id: int, now: int): seq<Share> {
    if !client.authorised || client.redirected then client.shares
    else
      var young := Fresh(client.shares, now);
      if Has(young, id) then young
      else
        var room := Newest(young, MAX_CLIENT - 1);
        if others + |room| >= MAX_GLOBAL then room else room + [Share(now, id)]
  }

  function Without(shares: seq<Share>, id: int): seq<Share> {
    if shares == [] then []
    else if shares[0].id == id then shares[1..]
    else [shares[0]] + Without(shares[1..], id)
  }

  /** The submits of a client after a reply for `id`, and whether it earns a redirect. */
  function AfterReply(client: Client, id: int, accepted: bool, now: int): (seq<Share>, bool) {
    if !client.authorised || client.redirected then (client.shares, false)
    else
      var young := Fresh(client.shares, now);
      if !Has(young, id) then (young, false)
      else if accepted then ([], true)
      else (Without(young, id), false)
  }

  lemma {:induction false} WithoutAt(shares: seq<Share>, id: int, i: nat)
    requires i < |shares| && shares[i].id == id && forall k :: 0 <= k < i ==> shares[k].id != id
    ensures Without(shares, id) == shares[..i] + shares[i + 1..]
  {
    if i > 0 {
      WithoutAt(shares[1..], id, i - 1);
    }
  }

  function IndexOf(shares: seq<Share>, id: int): (i: nat)
    requires Has(shares, id)
    ensures i < |shares| && shares[i].id == id && forall k :: 0 <= k < i ==> shares[k].id != id
  {
    if shares[0].id == id then 0
    else
      assert forall k :: 0 < k < |shares| ==> shares[k] == shares[1..][k - 1];
      1 + IndexOf(shares[1..], id)
  }

  /** A reply takes the one submit of its id off the list. */
  lemma WithoutOne(shares: seq<Share>, id: int)
    requires DistinctIds(shares) && Has(shares, id)
    ensures |Without(shares, id)| == |shares| - 1 && DistinctIds(Without(shares, id)) && !Has(Without(shares, id), id)
  {
    hide Without;
    var i := IndexOf(shares, id);
    WithoutAt(shares, id, i);
  }

  // ----- the lists after a submit and after a reply -----

  lemma FreshDistinct(shares: seq<Share>, now: int)
    requires DistinctIds(shares)
    ensures DistinctIds(Fresh(shares, now))
  {
  }

  lemma NewestDistinct(shares: seq<Share>, n: nat)
    requires DistinctIds(shares)
    ensures DistinctIds(Newest(shares, n)) && |Newest(shares, n)| <= n && |Newest(shares, n)| <= |shares|
    ensures forall id :: !Has(shares, id) ==> !Has(Newest(shares, n), id)
  {
  }

  lemma AppendDistinct(shares: seq<Share>, s: Share)
    requires DistinctIds(shares) && !Has(shares, s.id)
    ensures DistinctIds(shares + [s])
  {
  }

  lemma SubmitBounds(client: Client, others: nat, id: int, now: int)
    requires DistinctIds(client.shares) && |client.shares| <= MAX_CLIENT && others + |client.shares| <= MAX_GLOBAL
    ensures var r := AfterSubmit(client, others, id, now);
            DistinctIds(r) && |r| <= MAX_CLIENT && others + |r| <= MAX_GLOBAL
  {
    hide DistinctIds, Fresh, Newest, Has;
    FreshDistinct(client.shares, now);
    var young := Fresh(client.shares, now);
    NewestDistinct(young, MAX_CLIENT - 1);
    if !Has(young, id) {
      AppendDistinct(Newest(young, MAX_CLIENT - 1), Share(now, id));
    }
  }

  /** Unless the lists are full, an eligible client's submit is on record afterwards, whatever it
    * had in flight; and a repeat of an id leaves the record it has. */
  lemma SubmitIsRecorded(client: Client, others: nat, id: int, now: int)
    requires client.authorised && !client.redirected && |client.shares| <= MAX_CLIENT
    requires others + MAX_CLIENT <= MAX_GLOBAL
    ensures Has(AfterSubmit(client, others, id, now), id)
  {
    var young := Fresh(client.shares, now);
    if !Has(young, id) {
      var room := Newest(young, MAX_CLIENT - 1);
      assert (room + [Share(now, id)])[|room|].id == id;
    }
  }

  lemma ReplyBounds(client: Client, id: int, accepted: bool, now: int)
    requires DistinctIds(client.shares)
    ensures var r := AfterReply(client, id, accepted, now).0; DistinctIds(r) && |r| <= |client.shares|
  {
    FreshDistinct(client.shares, now);
    var young := Fresh(client.shares, now);
    if Has(young, id) {
      WithoutOne(young, id);
    }
  }

  // ----- what a reply leaves -----

  /** The records of other ids. */
  function OtherIds(shares: seq<Share>, id: int): seq<Share> {
    if shares == [] then []
    else if shares[|shares| - 1].id == id then OtherIds(shares[..|shares| - 1], id)
    else OtherIds(shares[..|shares| - 1], id) + [shares[|shares| - 1]]
  }

  /** Record k is the first that is not older than 120 seconds, or there is none. */
  predicate FirstYoung(shares: seq<Share>, k: nat, now: int) {
    && k <= |shares| && (forall j :: 0 <= j < k ==> now > shares[j].submitted + 120)
    && (k < |shares| ==> now <= shares[k].submitted + 120)
  }

  /** From the first young record on, those of other ids, in their order. */
  ghost predicate OthersLeft(was: seq<Share>, after: seq<Share>, id: int, now: int) {
    exists k: nat :: FirstYoung(was, k, now) && after == OtherIds(was[k..], id)
  }

  lemma {:induction false} FreshIsFromFirstYoung(shares: seq<Share>, now: int) returns (k: nat)
    ensures FirstYoung(shares, k, now) && Fresh(shares, now) == shares[k..]
  {
    hide Fresh;
    if shares == [] || now <= shares[0].submitted + TTL {
      FreshStops(shares, now);
      k := 0;
    } else {
      FreshStep(shares, now);
      var n := FreshIsFromFirstYoung(shares[1..], now);
      k := n + 1;
      forall j | 0 <= j < k ensures now > shares[j].submitted + 120 {
        assert j > 0 ==> shares[j] == shares[1..][j - 1];
      }
    }
  }

  lemma OtherIdsLast(shares: seq<Share>, id: int)
    ensures shares == [] ==> OtherIds(shares, id) == []
    ensures shares != [] ==>
              var init, last := shares[..|shares| - 1], shares[|shares| - 1];
              OtherIds(shares, id) == OtherIds(init, id) + if last.id == id then [] else [last]
  {
  }

  lemma {:induction false} OtherIdsOfNone(shares: seq<Share>, id: int)
    requires forall k :: 0 <= k < |shares| ==> shares[k].id != id
    ensures OtherIds(shares, id) == shares
  {
    hide OtherIds;
    OtherIdsLast(shares, id);
    if shares != [] {
      OtherIdsOfNone(shares[..|shares| - 1], id);
    }
  }

  lemma {:induction false} OtherIdsOfOne(shares: seq<Share>, id: int, i: nat)
    requires i < |shares| && shares[i].id == id && forall k :: 0 <= k < |shares| && k != i ==> shares[k].id != id
    ensures OtherIds(shares, id) == shares[..i] + shares[i + 1..]
    decreases |shares|
  {
    hide OtherIds;
    OtherIdsLast(shares, id);
    var n := |shares| - 1;
    if i == n {
      OtherIdsOfNone(shares[..n], id);
    } else {
      OtherIdsOfOne(shares[..n], id, i);
      assert shares[..n][..i] == shares[..i];
      assert shares[..n][i + 1..] + [shares[n]] == shares[i + 1..];
    }
  }

  lemma WithoutIsOthers(shares: seq<Share>, id: int)
    requires DistinctIds(shares)
    ensures Without(shares, id) == OtherIds(shares, id)
  {
    hide Without;
    if Has(shares, id) {
      var i := IndexOf(shares, id);
      WithoutAt(shares, id, i);
      OtherIdsOfOne(shares, id, i);
    } else {
      WithoutNone(shares, id);
      OtherIdsOfNone(shares, id);
    }
  }

  /** A submit of an eligible client leaves the list from its first young record on as it is, if its id is
    * there already; and otherwise the last 63 of those records at most, in their order, and the new one
    * behind them, unless 4096 are in flight in all. */
  lemma SubmitLeaves(client: Client, others: nat, id: int, now: int) returns (k: nat, m: nat)
    requires client.authorised && !client.redirected
    ensures FirstYoung(client.shares, k, now)
    ensures m == if |client.shares| - k > 63 then |client.shares| - 63 else k
    ensures var young := client.shares[k..];
            var room := client.shares[m..];
            AfterSubmit(client, others, id, now)
              == if Has(young, id) then young
                 else if others + |room| >= 4096 then room
                 else room + [Share(now, id)]
  {
    hide Fresh, Has;
    k := FreshIsFromFirstYoung(client.shares, now);
    m := if |client.shares| - k > 63 then |client.shares| - 63 else k;
    assert client.shares[k..][m - k..] == client.shares[m..];
  }

  /** Whatever a reply says, its submit is off the list afterwards: if it earns a redirect nothing is left,
    * and otherwise every record of another id from the first young one on, in its order. */
  lemma ReplyLeaves(client: Client, id: int, accepted: bool, now: int)
    requires DistinctIds(client.shares) && client.authorised && !client.redirected
    ensures var (after, earns) := AfterReply(client, id, accepted, now);
            && !Has(after, id) && (earns ==> after == [])
            && (!earns ==> OthersLeft(client.shares, after, id, now))
  {
    hide Fresh, Without, OtherIds;
    var k := FreshIsFromFirstYoung(client.shares, now);
    var young := client.shares[k..];
    FreshDistinct(client.shares, now);
    WithoutIsOthers(young, id);
    if Has(young, id) {
      WithoutOne(young, id);
    } else {
      WithoutNone(young, id);
    }
  }

  // What may happen to a client between two replies.
  datatype Doing = Submits(id: int, others: nat, now: int) | Replied(id: int, accepted: bool, now: int) | Swept(now: int)

  function Does(client: Client, d: Doing): Client {
    client.(shares := match d
                      case Submits(id, others, now) => AfterSubmit(client, others, id, now)
                      case Replied(id, accepted, now) => AfterReply(client, id, accepted, now).0
                      case Swept(now) => Fresh(client.shares, now))
  }

  function DoesAll(client: Client, ds: seq<Doing>): Client
    decreases |ds|
  {
    if ds == [] then client else DoesAll(Does(client, ds[0]), ds[1..])
  }

  lemma SuffixWithout(shares: seq<Share>, id: int, k: nat)
    requires !Has(shares, id) && k <= |shares|
    ensures !Has(shares[k..], id)
  {
  }

  lemma LessWithout(shares: seq<Share>, id: int, other: int)
    requires !Has(shares, id)
    ensures !Has(Without(shares, other), id)
  {
    hide Without;
    if Has(shares, other) {
      var i := IndexOf(shares, other);
      WithoutAt(shares, other, i);
    } else {
      WithoutNone(shares, other);
    }
  }

  lemma StaysOff(client: Client, id: int, d: Doing)
    requires !Has(client.shares, id) && (d.Submits? ==> d.id != id)
    ensures !Has(Does(client, d).shares, id)
  {
    hide Fresh, Without, Newest;
    var young := Fresh(client.shares, d.now);
    SuffixWithout(client.shares, id, |client.shares| - |young|);
    match d
    case Submits(other, others, now) => NewestStaysOff(young, id, Share(now, other));
    case Replied(other, accepted, now) => LessWithout(young, id, other);
    case Swept(now) =>
  }

  lemma NewestStaysOff(young: seq<Share>, id: int, s: Share)
    requires !Has(young, id) && s.id != id
    ensures !Has(Newest(young, MAX_CLIENT - 1), id) && !Has(Newest(young, MAX_CLIENT - 1) + [s], id)
  {
  }

  lemma {:induction false} StaysOffThrough(client: Client, id: int, ds: seq<Doing>)
    requires !Has(client.shares, id) && forall d: Doing :: d in ds && d.Submits? ==> d.id != id
    ensures !Has(DoesAll(client, ds).shares, id)
    decreases |ds|
  {
    hide Has, Does;
    if ds != [] {
      StaysOff(client, id, ds[0]);
      StaysOffThrough(Does(client, ds[0]), id, ds[1..]);
    }
  }

  /** One submit earns at most one redirect, and none once it has been rejected: until the client submits
    * its id again, no second reply to it does. */
  lemma SecondReplyEarnsNothing(client: Client, id: int, accepted: bool, now: int, ds: seq<Doing>, again: bool, later: int)
    requires DistinctIds(client.shares) && client.authorised && !client.redirected
    requires forall d: Doing :: d in ds && d.Submits? ==> d.id != id
    ensures !AfterReply(DoesAll(Does(client, Replied(id, accepted, now)), ds), id, again, later).1
  {
    hide Fresh, Without, Has, DoesAll, DistinctIds;
    ReplyLeaves(client, id, accepted, now);
    var answered := Does(client, Replied(id, accepted, now));
    StaysOffThrough(answered, id, ds);
    StaysOff(DoesAll(answered, ds), id, Swept(later));
  }

  // ----- what earns a redirect -----

  /** The submit is on the list, and it or one before it is young: expiry stops at the first young
    * record. */
  ghost predicate Shielded(shares: seq<Share>, id: int, now: int) {
    exists i, j :: 0 <= j <= i < |shares| && shares[i].id == id && now <= shares[j].submitted + TTL
  }

  /** The submit is on the list and was sent at most 120 seconds ago. */
  ghost predicate OnRecord(shares: seq<Share>, id: int, now: int) {
    exists s :: s in shares && s.id == id && now <= s.submitted + TTL
  }

  lemma {:induction false} FreshShielded(shares: seq<Share>, id: int, now: int)
    ensures Has(Fresh(shares, now), id) <==> Shielded(shares, id, now)
  {
    if shares == [] {
    } else if now <= shares[0].submitted + TTL {
      FreshStops(shares, now);
      HeadShields(shares, id, now);
    } else {
      FreshStep(shares, now);
      FreshShielded(shares[1..], id, now);
      TailShielded(shares, id, now);
    }
  }

  lemma HeadShields(shares: seq<Share>, id: int, now: int)
    requires shares != [] && now <= shares[0].submitted + TTL
    ensures Has(shares, id) <==> Shielded(shares, id, now)
  {
    if Has(shares, id) {
      var i :| 0 <= i < |shares| && shares[i].id == id;
      assert 0 <= 0 <= i;
    }
  }

  lemma TailShielded(shares: seq<Share>, id: int, now: int)
    requires shares != [] && now > shares[0].submitted + TTL
    ensures Shielded(shares[1..], id, now) <==> Shielded(shares, id, now)
  {
    var rest := shares[1..];
    if Shielded(shares, id, now) {
      var i, j :| 0 <= j <= i < |shares| && shares[i].id == id && now <= shares[j].submitted + TTL;
      assert rest[i - 1] == shares[i] && rest[j - 1] == shares[j];
    }
    if Shielded(rest, id, now) {
      var i, j :| 0 <= j <= i < |rest| && rest[i].id == id && now <= rest[j].submitted + TTL;
      assert rest[i] == shares[i + 1] && rest[j] == shares[j + 1];
    }
  }

  /** A reply earns a redirect exactly when it accepts a submit that is on the list, not older than
    * 120 seconds or behind one that is not, of a client that is authorised and not yet redirected. */
  lemma ReplyEarns(client: Client, id: int, accepted: bool, now: int)
    ensures AfterReply(client, id, accepted, now).1 <==>
            accepted && client.authorised && !client.redirected && Shielded(client.shares, id, now)
  {
    hide Fresh, Has, Without, Shielded;
    FreshShielded(client.shares, id, now);
  }

  /** In a list filled in the order of time nothing old is behind anything young. */
  lemma ShieldedInOrder(shares: seq<Share>, id: int, now: int)
    requires Ascending(shares)
    ensures Shielded(shares, id, now) <==> OnRecord(shares, id, now)
  {
    if Shielded(shares, id, now) {
      var i, j :| 0 <= j <= i < |shares| && shares[i].id == id && now <= shares[j].submitted + TTL;
      assert shares[i] in shares && shares[j].submitted <= shares[i].submitted;
    }
    if OnRecord(shares, id, now) {
      var s :| s in shares && s.id == id && now <= s.submitted + TTL;
      var i :| 0 <= i < |shares| && shares[i] == s;
      assert 0 <= i <= i < |shares|;
    }
  }

  /** When the clock is set back between two submits, the second is behind one with a later time:
    * expiry stops before it, and its reply earns a redirect 240 seconds after its time. */
  lemma StaleRecordEarns(client: Client, others: nat)
    requires client.authorised && !client.redirected && client.shares == [] && others + 2 <= MAX_GLOBAL
    ensures var one := client.(shares := AfterSubmit(client, others, 1, 200));
            var two := one.(shares := AfterSubmit(one, others, 2, 10));
            two.shares == [Share(200, 1), Share(10, 2)]
            && AfterReply(two, 2, true, 250).1 && !OnRecord(two.shares, 2, 250)
  {
    hide Fresh, Newest, Has, Shielded, AfterSubmit;
    Appended(client, others, 1, 200);
    assert client.shares + [Share(200, 1)] == [Share(200, 1)];
    var one := client.(shares := [Share(200, 1)]);
    Appended(one, others, 2, 10);
    var two := one.(shares := [Share(200, 1)] + [Share(10, 2)]);
    ReplyEarns(two, 2, true, 250);
    assert two.shares[1].id == 2 && 250 <= two.shares[0].submitted + TTL;
    assert Shielded(two.shares, 2, 250) by {
      StillShielded(two.shares);
    }
  }

  lemma StillShielded(shares: seq<Share>)
    requires |shares| == 2 && shares[1].id == 2 && 250 <= shares[0].submitted + TTL
    ensures Shielded(shares, 2, 250)
  {
    assert 0 <= 0 <= 1 < |shares|;
  }

  lemma Appended(client: Client, others: nat, id: int, now: int)
    requires client.authorised && !client.redirected && |client.shares| < MAX_CLIENT && others + |client.shares| < MAX_GLOBAL
    requires client.shares != [] ==> now <= client.shares[0].submitted + TTL
    requires forall k :: 0 <= k < |client.shares| ==> client.shares[k].id != id
    ensures AfterSubmit(client, others, id, now) == client.shares + [Share(now, id)]
  {
    FreshStops(client.shares, now);
  }

  // ----- lists in the order of time -----

  /** The list is in the order of time and nothing on it is later than t. */
  ghost predicate UpTo(shares: seq<Share>, t: int) {
    Ascending(shares) && forall s :: s in shares ==> s.submitted <= t
  }

  lemma SuffixUpTo(shares: seq<Share>, k: nat, t: int)
    requires UpTo(shares, t) && k <= |shares|
    ensures UpTo(shares[k..], t)
  {
  }

  lemma {:induction false} WithoutUpTo(shares: seq<Share>, id: int, t: int)
    requires UpTo(shares, t)
    ensures UpTo(Without(shares, id), t)
  {
    if Has(shares, id) {
      var i := IndexOf(shares, id);
      WithoutAt(shares, id, i);
    } else {
      WithoutNone(shares, id);
    }
  }

  lemma {:induction false} WithoutNone(shares: seq<Share>, id: int)
    requires !Has(shares, id)
    ensures Without(shares, id) == shares
  {
    if shares != [] {
      assert forall k :: 0 <= k < |shares[1..]| ==> shares[1..][k] == shares[k + 1];
      WithoutNone(shares[1..], id);
    }
  }

  lemma AppendUpTo(shares: seq<Share>, t: int, s: Share)
    requires UpTo(shares, t) && t <= s.submitted
    ensures UpTo(shares + [s], s.submitted)
  {
    forall x | x in shares + [s] ensures x.submitted <= s.submitted {
    }
  }

  lemma LaterUpTo(shares: seq<Share>, t: int, u: int)
    requires UpTo(shares, t) && t <= u
    ensures UpTo(shares, u)
  {
  }

  lemma EmptyUpTo(t: int)
    ensures UpTo([], t)
  {
  }

  lemma FreshUpTo(shares: seq<Share>, now: int, t: int)
    requires UpTo(shares, t)
    ensures UpTo(Fresh(shares, now), t)
  {
    hide UpTo;
    SuffixUpTo(shares, |shares| - |Fresh(shares, now)|, t);
  }

  /** Submits keep a list in order while the clock is not set back. */
  lemma SubmitUpTo(client: Client, others: nat, id: int, now: int, t: int)
    requires UpTo(client.shares, t) && t <= now
    ensures UpTo(AfterSubmit(client, others, id, now), now)
  {
    hide UpTo, Fresh, Has;
    LaterUpTo(client.shares, t, now);
    FreshUpTo(client.shares, now, now);
    var young := Fresh(client.shares, now);
    var room := Newest(young, MAX_CLIENT - 1);
    SuffixUpTo(young, |young| - |room|, now);
    assert room == young[|young| - |room|..];
    AppendUpTo(room, now, Share(now, id));
  }

  lemma ReplyUpTo(client: Client, id: int, accepted: bool, now: int, t: int)
    requires UpTo(client.shares, t)
    ensures UpTo(AfterReply(client, id, accepted, now).0, t)
  {
    hide UpTo, Fresh, Has, Without;
    FreshUpTo(client.shares, now, t);
    WithoutUpTo(Fresh(client.shares, now), id, t);
    EmptyUpTo(t);
  }
}
