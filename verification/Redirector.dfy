/** The redirector (`src/connector.c`): in-flight submits of miners on the way to a protected
  * server, bounded per client and in all, and the latch that redirects a client once.
  */
module Redirector {
  import opened Basics
  import opened RedirectShares

  function Total(clients: seq<Client>): nat {
    if clients == [] then 0 else Total(clients[..|clients| - 1]) + |clients[|clients| - 1].shares|
  }

  lemma {:induction false} TotalUpdate(clients: seq<Client>, c: nat, client: Client)
    requires c < |clients|
    ensures Total(clients[c := client]) == Total(clients) - |clients[c].shares| + |client.shares|
  {
    var n := |clients| - 1;
    if c < n {
      TotalUpdate(clients[..n], c, client);
      assert clients[c := client][..n] == clients[..n][c := client];
    } else {
      assert clients[c := client][..n] == clients[..n];
    }
  }

  // ----- the state -----

  /** Everything the connector's lock guards here, and what the threads have done with it:
    * `winners` have latched a redirect they have yet to announce, `told` have been sent one,
    * and `earned` had an accepted submit of theirs answered while authorised. */
  datatype State = State(clients: seq<Client>, inFlight: int, redirects: map<Address, nat>,
                         winners: set<nat>, told: multiset<nat>, earned: set<nat>)

  ghost predicate ClientSound(s: State, c: nat)
    requires c < |s.clients|
  {
    var client := s.clients[c];
    && |client.shares| == client.nshares <= MAX_CLIENT && DistinctIds(client.shares)
    && (client.gone || client.redirected || !client.authorised ==> client.shares == [])
    && s.told[c] + One(c in s.winners) == One(client.redirected)
    && (client.redirected ==> Traced(s, client.address))
  }

  /** Someone at this address earned it. */
  ghost predicate Traced(s: State, a: Address) {
    exists c :: c in s.earned && c < |s.clients| && s.clients[c].address == a
  }

  ghost predicate Inv(s: State) {
    && s.inFlight == Total(s.clients) <= MAX_GLOBAL
    && (forall c :: 0 <= c < |s.clients| ==> ClientSound(s, c))
    && (forall c :: c in s.earned || c in s.winners || c in s.told ==> c < |s.clients|)
    && (forall a :: a in s.redirects ==> Traced(s, a))
  }

  /** s with another list of submits for client c. */
  function SetShares(s: State, c: nat, shares: seq<Share>): State
    requires c < |s.clients|
  {
    s.(clients := s.clients[c := s.clients[c].(shares := shares, nshares := |shares|)],
       inFlight := s.inFlight - |s.clients[c].shares| + |shares|)
  }

  lemma OtherSound(s: State, t: State, c: nat, d: nat)
    requires d < |s.clients| == |t.clients| && d != c && ClientSound(s, d) && t.clients[d] == s.clients[d]
    requires t.told[d] == s.told[d] && (d in t.winners <==> d in s.winners)
    requires forall a :: Traced(s, a) ==> Traced(t, a)
    ensures ClientSound(t, d)
  {
    hide Traced;
  }

  /** Addresses stay traced while clients keep theirs. */
  lemma TraceKept(s: State, t: State)
    requires |s.clients| <= |t.clients| && s.earned <= t.earned
    requires forall d :: 0 <= d < |s.clients| ==> t.clients[d].address == s.clients[d].address
    ensures forall a :: Traced(s, a) ==> Traced(t, a)
  {
  }

  lemma SharesInv(s: State, c: nat, shares: seq<Share>)
    requires Inv(s) && c < |s.clients|
    requires |shares| <= MAX_CLIENT && DistinctIds(shares) && Total(s.clients) - |s.clients[c].shares| + |shares| <= MAX_GLOBAL
    requires s.clients[c].gone || s.clients[c].redirected || !s.clients[c].authorised ==> shares == []
    ensures Inv(SetShares(s, c, shares))
  {
    hide Total, DistinctIds, Traced;
    var t := SetShares(s, c, shares);
    TotalUpdate(s.clients, c, t.clients[c]);
    TraceKept(s, t);
    forall d | 0 <= d < |t.clients| && d != c ensures ClientSound(t, d) {
      OtherSound(s, t, c, d);
    }
    assert ClientSound(s, c);
  }

  /** A client changes in everything but its address and its submits. */
  lemma ClientInv(s: State, t: State, c: nat)
    requires Inv(s) && c < |s.clients| && |t.clients| == |s.clients|
    requires t.clients == s.clients[c := t.clients[c]] && t.inFlight == s.inFlight
    requires t.clients[c].shares == s.clients[c].shares && t.clients[c].address == s.clients[c].address
    requires s.earned <= t.earned && (forall d :: d in t.earned ==> d < |s.clients|)
    requires forall d :: d != c ==> t.told[d] == s.told[d] && (d in t.winners <==> d in s.winners)
    requires forall a :: a in t.redirects ==> a in s.redirects || Traced(s, a)
    requires ClientSound(t, c)
    ensures Inv(t)
  {
    hide Total, DistinctIds, Traced;
    TotalUpdate(s.clients, c, t.clients[c]);
    TraceKept(s, t);
    forall d | 0 <= d < |t.clients| && d != c ensures ClientSound(t, d) {
      OtherSound(s, t, c, d);
    }
    forall d | d in t.told ensures d < |t.clients| {
      if d != c {
        assert t.told[d] == s.told[d];
      }
    }
  }

  // ----- lists in the order of time -----

  /** When each client sent its last submit, and for which the clock was set back between two. */
  datatype Clock = Clock(latest: map<nat, int>, setBack: set<nat>)

  function Ticked(k: Clock, c: nat, now: int): Clock {
    Clock(k.latest[c := now], if c in k.latest && k.latest[c] > now then k.setBack + {c} else k.setBack)
  }

  ghost predicate ListInOrder(shares: seq<Share>, k: Clock, c: nat) {
    if c in k.latest then UpTo(shares, k.latest[c]) else shares == []
  }

  /** The list of every other client is in the order of time. */
  ghost predicate InOrder(clients: seq<Client>, k: Clock) {
    forall c :: 0 <= c < |clients| && c !in k.setBack ==> ListInOrder(clients[c].shares, k, c)
  }

  lemma InOrderWith(clients: seq<Client>, k: Clock, c: nat, client: Client)
    requires InOrder(clients, k) && c < |clients|
    requires c !in k.setBack ==> ListInOrder(client.shares, k, c)
    ensures InOrder(clients[c := client], k)
  {
    hide ListInOrder;
  }

  lemma InOrderTicked(clients: seq<Client>, k: Clock, c: nat, client: Client, now: int)
    requires InOrder(clients, k) && c < |clients|
    requires c !in Ticked(k, c, now).setBack ==> UpTo(client.shares, now)
    ensures InOrder(clients[c := client], Ticked(k, c, now))
  {
    hide UpTo;
    forall d | 0 <= d < |clients| && d != c && d !in k.setBack ensures ListInOrder(clients[d].shares, Ticked(k, c, now), d) {
      assert ListInOrder(clients[d].shares, k, d);
    }
  }

  // ----- the connector's part -----

  class Redirector {
    const urls: nat
    var clients: seq<Client>
    var inFlight: int
    var redirects: map<Address, nat>
    var turn: nat
    ghost var winners: set<nat>
    ghost var told: multiset<nat>
    ghost var earned: set<nat>
    ghost var clock: Clock

    ghost function View(): State
      reads this
    {
      State(clients, inFlight, redirects, winners, told, earned)
    }

    ghost predicate Valid()
      reads this
    {
      && Inv(View()) && turn < urls && (forall a :: a in redirects ==> redirects[a] < urls)
      && InOrder(clients, clock)
    }

    constructor (urls: nat)
      requires urls > 0
      ensures Valid() && clients == [] && clock == Clock(map[], {}) && this.urls == urls
    {
      this.urls := urls;
      clients, inFlight, redirects, turn, winners, told, earned := [], 0, map[], 0, {}, multiset{}, {};
      clock := Clock(map[], {});
    }

    /** `__unlink_redir_share` for the i-th submit of a client. */
    method Unlink(c: nat, i: nat)
      requires c < |clients| && i < |clients[c].shares| && |clients[c].shares| == clients[c].nshares <= inFlight
      modifies this`clients, this`inFlight
      ensures View() == SetShares(old(View()), c, old(clients[c].shares[..i] + clients[c].shares[i + 1..]))
    {
      var client := clients[c];
      var nshares := client.nshares;
      if nshares > 0 {
        nshares := nshares - 1;
      }
      if inFlight > 0 {
        inFlight := inFlight - 1;
      }
      clients := clients[c := client.(shares := client.shares[..i] + client.shares[i + 1..], nshares := nshares)];
    }

    /** Of the head of the list, as the loops that empty it from the front call it. */
    method UnlinkHead(c: nat, ghost s: State)
      requires c < |clients| && clients[c].shares != [] && |clients[c].shares| == clients[c].nshares <= inFlight
      requires c < |s.clients| && View() == SetShares(s, c, clients[c].shares)
      modifies this`clients, this`inFlight
      ensures c < |clients| && clients[c].shares == old(clients[c].shares)[1..]
      ensures |clients[c].shares| == clients[c].nshares <= inFlight
      ensures View() == SetShares(s, c, clients[c].shares)
    {
      hide SetShares;
      ghost var shares := clients[c].shares;
      Kept(View(), c, shares[1..]);
      Unlink(c, 0);
      assert shares[..0] + shares[1..] == shares[1..];
      SetTwice(s, c, shares, shares[1..]);
    }

    /** `__expire_redir_shares`. */
    method Expire(c: nat, now: int)
      requires c < |clients| && |clients[c].shares| == clients[c].nshares <= inFlight
      modifies this`clients, this`inFlight
      ensures View() == SetShares(old(View()), c, Fresh(old(clients[c].shares), now))
    {
      hide Fresh, SetShares;
      ghost var s, all := View(), clients[c].shares;
      SameShares(s, c);
      while clients[c].shares != [] && now > clients[c].shares[0].submitted + TTL
        invariant c < |clients| && |clients[c].shares| == clients[c].nshares <= inFlight
        invariant View() == SetShares(s, c, clients[c].shares)
        invariant Fresh(clients[c].shares, now) == Fresh(all, now)
        decreases |clients[c].shares|
      {
        FreshStep(clients[c].shares, now);
        UnlinkHead(c, s);
      }
      FreshStops(clients[c].shares, now);
    }

    /** The head of the list goes until fewer than n are left. */
    method MakeRoom(c: nat, n: nat)
      requires c < |clients| && |clients[c].shares| == clients[c].nshares <= inFlight && n > 0
      modifies this`clients, this`inFlight
      ensures View() == SetShares(old(View()), c, Newest(old(clients[c].shares), n - 1))
    {
      hide Newest, SetShares;
      ghost var s, all := View(), clients[c].shares;
      SameShares(s, c);
      NewestAll(all);
      while clients[c].nshares >= n && clients[c].shares != []
        invariant c < |clients| && |clients[c].shares| == clients[c].nshares <= inFlight
        invariant View() == SetShares(s, c, clients[c].shares)
        invariant clients[c].shares == Newest(all, |clients[c].shares|)
        invariant |clients[c].shares| <= |all| && (|clients[c].shares| >= n - 1 || |clients[c].shares| == |all|)
        decreases |clients[c].shares|
      {
        NewestStep(all, clients[c].shares);
        UnlinkHead(c, s);
      }
      NewestEnough(all, n - 1);
    }

    /** `__free_redir_shares`. */
    method FreeShares(c: nat)
      requires c < |clients| && |clients[c].shares| == clients[c].nshares <= inFlight
      modifies this`clients, this`inFlight
      ensures View() == SetShares(old(View()), c, [])
    {
      hide SetShares;
      ghost var s := View();
      SameShares(s, c);
      while clients[c].shares != []
        invariant c < |clients| && |clients[c].shares| == clients[c].nshares <= inFlight
        invariant View() == SetShares(s, c, clients[c].shares)
        decreases |clients[c].shares|
      {
        UnlinkHead(c, s);
      }
    }

    method Find(c: nat, id: int) returns (i: nat)
      requires c < |clients|
      ensures i <= |clients[c].shares| && forall k :: 0 <= k < i ==> clients[c].shares[k].id != id
      ensures i < |clients[c].shares| ==> clients[c].shares[i].id == id
      ensures i < |clients[c].shares| <==> Has(clients[c].shares, id)
    {
      i := 0;
      while i < |clients[c].shares| && clients[c].shares[i].id != id
        invariant i <= |clients[c].shares| && forall k :: 0 <= k < i ==> clients[c].shares[k].id != id
      {
        i := i + 1;
      }
    }

    /** `parse_redirector_share`, for a mining.submit with this id. */
    method Submit(c: nat, id: int, now: int)
      requires Valid() && c < |clients| && !clients[c].gone
      modifies this`clients, this`inFlight, this`clock
      ensures Valid() && clock == Ticked(old(clock), c, now)
      ensures var s := old(View());
              var others := s.inFlight - |s.clients[c].shares|;
              others >= 0 && View() == SetShares(s, c, AfterSubmit(s.clients[c], others, id, now))
    {
      hide Inv, InOrder, AfterSubmit;
      ghost var s := View();
      Bounds(s, c);
      SubmitInv(s, c, id, now);
      SubmitInOrder(s, clock, c, id, now);
      Record(c, id, now);
      clock := Ticked(clock, c, now);
    }

    method Record(c: nat, id: int, now: int)
      requires c < |clients| && |clients[c].shares| == clients[c].nshares <= inFlight <= MAX_GLOBAL
      requires clients[c].nshares <= MAX_CLIENT
      modifies this`clients, this`inFlight
      ensures var s := old(View());
              View() == SetShares(s, c, AfterSubmit(s.clients[c], s.inFlight - |s.clients[c].shares|, id, now))
    {
      hide Fresh, Newest, SetShares;
      ghost var s := View();
      SameShares(s, c);
      if !clients[c].authorised || clients[c].redirected {
        return;
      }
      Expire(c, now);
      ghost var young := Fresh(s.clients[c].shares, now);
      Kept(s, c, young);
      var i := Find(c, id);
      if i < |clients[c].shares| {
        return;
      }
      MakeRoom(c, MAX_CLIENT);
      ghost var room := Newest(young, MAX_CLIENT - 1);
      SetTwice(s, c, young, room);
      Kept(s, c, room);
      if inFlight >= MAX_GLOBAL {
        return;
      }
      Append(c, Share(now, id));
      SetTwice(s, c, room, room + [Share(now, id)]);
    }

    method Append(c: nat, x: Share)
      requires c < |clients| && |clients[c].shares| == clients[c].nshares
      modifies this`clients, this`inFlight
      ensures View() == SetShares(old(View()), c, old(clients[c].shares) + [x])
    {
      clients := clients[c := clients[c].(shares := clients[c].shares + [x], nshares := clients[c].nshares + 1)];
      inFlight := inFlight + 1;
    }

    /** `test_redirector_shares`, for a reply with this id. Unless the clock was set back between two
      * submits of the client, a redirect is earned exactly by the acceptance of one that was sent
      * within 120 seconds. */
    method TestReply(c: nat, id: int, accepted: bool, now: int) returns (redirect: bool)
      requires Valid() && c < |clients| && !clients[c].gone
      modifies this`clients, this`inFlight, this`earned
      ensures Valid()
      ensures var s := old(View());
              var (shares, earns) := AfterReply(s.clients[c], id, accepted, now);
              redirect == earns && View() == SetShares(s, c, shares).(earned := if earns then s.earned + {c} else s.earned)
      ensures redirect ==> Traced(View(), clients[c].address)
      ensures old(clients[c]).authorised && !old(clients[c]).redirected ==>
                && !Has(clients[c].shares, id) && (redirect ==> clients[c].shares == [])
                && (!redirect ==> OthersLeft(old(clients[c].shares), clients[c].shares, id, now))
      ensures var client := old(clients[c]);
              && (redirect <==> accepted && client.authorised && !client.redirected && Shielded(client.shares, id, now))
              && (c !in clock.setBack ==>
                    (redirect <==> accepted && client.authorised && !client.redirected && OnRecord(client.shares, id, now)))
    {
      hide Inv, InOrder, AfterReply, Shielded, OnRecord, Traced, OthersLeft, Has;
      ghost var s, client := View(), clients[c];
      Bounds(s, c);
      if client.authorised && !client.redirected {
        ReplyLeaves(client, id, accepted, now);
      }
      ReplyInv(s, c, id, accepted, now);
      ReplyEarns(client, id, accepted, now);
      ReplyInOrder(s, clock, c, id, accepted, now);
      redirect := Answer(c, id, accepted, now);
      if redirect {
        earned := earned + {c};
      }
    }

    method Answer(c: nat, id: int, accepted: bool, now: int) returns (redirect: bool)
      requires c < |clients| && |clients[c].shares| == clients[c].nshares <= inFlight
      modifies this`clients, this`inFlight
      ensures var s := old(View());
              var (shares, earns) := AfterReply(s.clients[c], id, accepted, now);
              redirect == earns && View() == SetShares(s, c, shares)
    {
      hide Fresh, Without, SetShares;
      ghost var s := View();
      SameShares(s, c);
      redirect := false;
      if !clients[c].authorised || clients[c].redirected {
        return;
      }
      Expire(c, now);
      ghost var young := Fresh(s.clients[c].shares, now);
      Kept(s, c, young);
      var i := Find(c, id);
      if i == |clients[c].shares| {
        return;
      }
      WithoutAt(young, id, i);
      Unlink(c, i);
      SetTwice(s, c, young, Without(young, id));
      Kept(s, c, Without(young, id));
      if accepted {
        FreeShares(c);
        SetTwice(s, c, Without(young, id), []);
        redirect := true;
      }
    }

    /** `redirect_matches`: this address has been redirected before. */
    method Matches(c: nat) returns (redirect: bool)
      requires Valid() && c < |clients|
      ensures redirect <==> clients[c].address in redirects
      ensures redirect ==> Traced(View(), clients[c].address)
    {
      redirect := clients[c].address in redirects;
    }

    /** The locked head of `redirect_client`: only one caller wins, once. */
    method Latch(c: nat) returns (won: bool)
      requires Valid() && c < |clients| && Traced(View(), clients[c].address)
      modifies this`clients, this`inFlight, this`winners
      ensures Valid() && won == (old(clients[c].authorised && !clients[c].redirected && !clients[c].gone))
      ensures won ==> c !in old(winners) && c !in told
      ensures View() == if won then Latched(old(View()), c) else old(View())
    {
      hide Inv, InOrder, Traced, SetShares;
      ghost var s := View();
      won := clients[c].authorised && !clients[c].redirected && !clients[c].gone;
      if !won {
        return;
      }
      Bounds(s, c);
      LatchedInv(s, clock, c);
      FreeShares(c);
      SetTwice(s, c, [], []);
      clients := clients[c := clients[c].(redirected := true)];
      winners := winners + {c};
    }

    /** `add_redirect`, and the client.reconnect queued for the winner. */
    method Announce(c: nat) returns (url: nat)
      requires Valid() && c in winners
      modifies this`redirects, this`turn, this`winners, this`told
      ensures Valid() && url < urls && c < |clients|
      ensures var a := clients[c].address;
              && redirects == (if a in old(redirects) then old(redirects) else old(redirects)[a := old(turn)])
              && url == redirects[a]
              && turn == (if a in old(redirects) then old(turn) else if old(turn) + 1 < urls then old(turn) + 1 else 0)
      ensures told == old(told) + multiset{c} && told[c] == 1 && winners == old(winners) - {c}
    {
      hide Traced, Total, DistinctIds;
      AnnounceInv(View(), c, turn);
      var a := clients[c].address;
      if a !in redirects {
        redirects := redirects[a := turn];
        turn := turn + 1;
        if turn >= urls {
          turn := 0;
        }
      }
      url := redirects[a];
      winners, told := winners - {c}, told + multiset{c};
    }

    /** An authorisation result on its way to the client: the first to succeed drops what was submitted
      * before it, and authorises unless the client is redirected. */
    method AuthResult(c: nat, ok: bool)
      requires Valid() && c < |clients| && !clients[c].gone
      modifies this`clients, this`inFlight
      ensures Valid()
      ensures View() == if ok && !old(clients[c].redirected) then Authorised(old(View()), c) else old(View())
    {
      hide Inv, InOrder, SetShares;
      ghost var s := View();
      Bounds(s, c);
      SameShares(s, c);
      if !clients[c].authorised && ok {
        FreeShares(c);
      }
      if !clients[c].redirected && ok {
        AuthorisedInv(s, clock, c);
        clients := clients[c := clients[c].(authorised := true)];
      }
    }

    /** A drop takes the client out of the hash; what it has in flight stays until it is recycled. */
    method Drop(c: nat)
      requires Valid() && c < |clients|
      modifies this`clients
      ensures Valid() && clients == old(clients)[c := old(clients)[c].(hashed := false)]
    {
      hide Inv, InOrder;
      UnhashedInv(View(), clock, c);
      clients := clients[c := clients[c].(hashed := false)];
    }

    /** `__recycle_client`: what the instance had in flight is taken off the account. */
    method Recycle(c: nat)
      requires Valid() && c < |clients| && !clients[c].gone
      modifies this`clients, this`inFlight
      ensures Valid() && View() == Recycled(old(View()), c)
    {
      hide Inv, InOrder;
      ghost var s := View();
      Bounds(s, c);
      RecycledInv(s, clock, c);
      var client := clients[c];
      var left := inFlight - |client.shares|;
      inFlight := if left < 0 then 0 else left;
      clients := clients[c := client.(shares := [], nshares := 0, hashed := false, gone := true)];
      ghost var t := SetShares(s, c, []);
      assert View() == t.(clients := t.clients[c := t.clients[c].(hashed := false, gone := true)]);
    }

    /** A client is accepted. */
    method Admit(address: Address) returns (c: nat)
      requires Valid()
      modifies this`clients
      ensures Valid() && c == |old(clients)| && clients == old(clients) + [Client(address, false, false, [], 0, true, false)]
    {
      hide Inv;
      AdmitInv(View(), Client(address, false, false, [], 0, true, false));
      EmptyUpTo(if |clients| in clock.latest then clock.latest[|clients|] else 0);
      c := |clients|;
      clients := clients + [Client(address, false, false, [], 0, true, false)];
    }

    method ExpireOne(c: nat, now: int)
      requires Valid() && c < |clients|
      modifies this`clients, this`inFlight
      ensures Valid() && clients == old(clients)[c := Expired(old(clients)[c], now)]
    {
      hide Inv, InOrder, Fresh;
      Bounds(View(), c);
      ExpiredInv(View(), clock, c, now);
      Expire(c, now);
    }

    /** `expire_redirector_shares`, over the clients of the hash. */
    method ExpireAll(now: int)
      requires Valid()
      modifies this`clients, this`inFlight
      ensures Valid() && ExpiredTo(old(clients), clients, |clients|, now)
      ensures forall d :: 0 <= d < |clients| && clients[d].hashed && d !in clock.setBack ==>
                OnlyExpiredGo(old(clients)[d], clients[d], now)
    {
      hide Inv, InOrder, ExpiredTo, OnlyExpiredGo, Expired, Fresh, SetShares;
      ghost var was := clients;
      ExpiredNone(was, now);
      for c := 0 to |clients|
        invariant Valid() && |clients| == |was| && ExpiredTo(was, clients, c, now)
      {
        ExpiredNext(was, clients, c, now);
        if clients[c].hashed {
          ExpireOne(c, now);
        }
      }
      InOrderExpires(was, clients, clock, now);
    }
  }

  /** A client without its expired submits. */
  function Expired(client: Client, now: int): Client {
    client.(shares := Fresh(client.shares, now), nshares := |Fresh(client.shares, now)|)
  }

  /** Of the first n clients those in the hash have lost their expired submits, and nothing else has
    * changed. */
  ghost predicate ExpiredTo(was: seq<Client>, clients: seq<Client>, n: nat, now: int) {
    && n <= |was| == |clients|
    && (forall d :: 0 <= d < n ==> clients[d] == if was[d].hashed then Expired(was[d], now) else was[d])
    && (forall d :: n <= d < |was| ==> clients[d] == was[d])
  }

  /** No submit goes but those sent more than 120 seconds ago, and all of those do. */
  ghost predicate OnlyExpiredGo(was: Client, client: Client, now: int) {
    forall x :: x in client.shares <==> x in was.shares && now <= x.submitted + TTL
  }

  lemma InOrderExpires(was: seq<Client>, clients: seq<Client>, k: Clock, now: int)
    requires InOrder(was, k) && ExpiredTo(was, clients, |was|, now)
    ensures forall d :: 0 <= d < |clients| && clients[d].hashed && d !in k.setBack ==> OnlyExpiredGo(was[d], clients[d], now)
  {
    hide InOrder, Fresh;
    forall d, x | 0 <= d < |clients| && clients[d].hashed && d !in k.setBack
      ensures x in clients[d].shares <==> x in was[d].shares && now <= x.submitted + TTL
    {
      Ordered(was, k, d);
      FreshDropsExpired(was[d].shares, now, x);
    }
  }

  /** s with client c latched for a redirect it has yet to be told of. */
  function Latched(s: State, c: nat): State
    requires c < |s.clients|
  {
    var t := SetShares(s, c, []);
    t.(clients := t.clients[c := t.clients[c].(redirected := true)], winners := s.winners + {c})
  }

  /** s with client c authorised: what it submitted before is forgotten. */
  function Authorised(s: State, c: nat): State
    requires c < |s.clients|
  {
    var t := if s.clients[c].authorised then s else SetShares(s, c, []);
    t.(clients := t.clients[c := t.clients[c].(authorised := true)])
  }

  /** s with instance c recycled. */
  function Recycled(s: State, c: nat): State
    requires c < |s.clients|
  {
    var t := SetShares(s, c, []);
    t.(clients := t.clients[c := t.clients[c].(hashed := false, gone := true)])
  }

  lemma ExpiredNone(was: seq<Client>, now: int)
    ensures ExpiredTo(was, was, 0, now)
  {
  }

  lemma ExpiredNext(was: seq<Client>, clients: seq<Client>, c: nat, now: int)
    requires ExpiredTo(was, clients, c, now) && c < |was|
    ensures c < |clients|
    ensures clients[c].hashed ==> ExpiredTo(was, clients[c := Expired(clients[c], now)], c + 1, now)
    ensures !clients[c].hashed ==> ExpiredTo(was, clients, c + 1, now)
  {
    hide Expired;
  }

  /** What SetShares changes and what it leaves. */
  ghost predicate SetFor(s: State, c: nat, shares: seq<Share>) {
    && c < |s.clients|
    && var t := SetShares(s, c, shares);
    && |t.clients| == |s.clients| && t.clients[c] == s.clients[c].(shares := shares, nshares := |shares|)
    && (forall d :: 0 <= d < |s.clients| && d != c ==> t.clients[d] == s.clients[d])
    && t.inFlight == s.inFlight - |s.clients[c].shares| + |shares| && t.earned == s.earned
  }

  lemma SameShares(s: State, c: nat)
    requires c < |s.clients| && |s.clients[c].shares| == s.clients[c].nshares
    ensures SetShares(s, c, s.clients[c].shares) == s
  {
    assert s.clients[c := s.clients[c]] == s.clients;
  }

  lemma SetTwice(s: State, c: nat, a: seq<Share>, b: seq<Share>)
    requires c < |s.clients|
    ensures c < |SetShares(s, c, a).clients| && SetFor(s, c, b)
    ensures SetShares(SetShares(s, c, a), c, b) == SetShares(s, c, b)
  {
  }

  lemma Bounds(s: State, c: nat)
    requires Inv(s) && c < |s.clients|
    ensures |s.clients[c].shares| == s.clients[c].nshares <= s.inFlight <= MAX_GLOBAL
    ensures |s.clients[c].shares| <= MAX_CLIENT && DistinctIds(s.clients[c].shares) && DistinctIds([])
    ensures s.inFlight == Total(s.clients)
    ensures s.clients[c].gone || s.clients[c].redirected || !s.clients[c].authorised ==> s.clients[c].shares == []
  {
    assert ClientSound(s, c);
    var none := s.clients[c].(shares := []);
    TotalUpdate(s.clients, c, none);
  }

  lemma EarnedInv(s: State, c: nat)
    requires Inv(s) && c < |s.clients|
    ensures Inv(s.(earned := s.earned + {c})) && Traced(s.(earned := s.earned + {c}), s.clients[c].address)
  {
    hide Total, DistinctIds, Traced;
    var t := s.(earned := s.earned + {c});
    TraceKept(s, t);
    EarnerTraced(t, c);
    assert ClientSound(s, c);
    assert s.clients == s.clients[c := s.clients[c]];
    assert ClientSound(t, c);
    ClientInv(s, t, c);
  }

  lemma EarnerTraced(s: State, c: nat)
    requires c in s.earned && c < |s.clients|
    ensures Traced(s, s.clients[c].address)
  {
  }

  lemma LatchInv(s: State, c: nat)
    requires Inv(s) && c < |s.clients| && s.clients[c].shares == [] && !s.clients[c].redirected
    requires Traced(s, s.clients[c].address)
    ensures c !in s.winners && c !in s.told
    ensures Inv(s.(clients := s.clients[c := s.clients[c].(redirected := true)], winners := s.winners + {c}))
  {
    hide Total, DistinctIds, Traced;
    var t := s.(clients := s.clients[c := s.clients[c].(redirected := true)], winners := s.winners + {c});
    assert ClientSound(s, c);
    TraceKept(s, t);
    ClientInv(s, t, c);
  }

  lemma AnnounceInv(s: State, c: nat, url: nat)
    requires Inv(s) && c in s.winners
    ensures c < |s.clients| && s.told[c] == 0
    ensures var a := s.clients[c].address;
            Inv(s.(redirects := if a in s.redirects then s.redirects else s.redirects[a := url],
                   winners := s.winners - {c}, told := s.told + multiset{c}))
  {
    hide Total, DistinctIds, Traced;
    var a := s.clients[c].address;
    var t := s.(redirects := if a in s.redirects then s.redirects else s.redirects[a := url],
                winners := s.winners - {c}, told := s.told + multiset{c});
    assert ClientSound(s, c);
    TraceKept(s, t);
    assert s.clients == s.clients[c := s.clients[c]];
    ClientInv(s, t, c);
  }

  lemma AuthInv(s: State, c: nat)
    requires Inv(s) && c < |s.clients| && !s.clients[c].gone
    ensures Inv(s.(clients := s.clients[c := s.clients[c].(authorised := true)]))
  {
    hide Total, DistinctIds, Traced;
    var t := s.(clients := s.clients[c := s.clients[c].(authorised := true)]);
    assert ClientSound(s, c);
    TraceKept(s, t);
    ClientInv(s, t, c);
  }

  lemma GoneInv(s: State, c: nat)
    requires Inv(s) && c < |s.clients| && s.clients[c].shares == []
    ensures Inv(s.(clients := s.clients[c := s.clients[c].(hashed := false, gone := true)]))
  {
    hide Total, DistinctIds, Traced;
    var t := s.(clients := s.clients[c := s.clients[c].(hashed := false, gone := true)]);
    assert ClientSound(s, c);
    TraceKept(s, t);
    ClientInv(s, t, c);
  }

  // ----- the invariant after each call -----

  /** What Set leaves of the list it is given. */
  lemma Kept(s: State, c: nat, shares: seq<Share>)
    requires c < |s.clients| && |s.clients[c].shares| == s.clients[c].nshares <= s.inFlight
    ensures var t := SetShares(s, c, shares);
            && c < |t.clients| && t.clients[c].shares == shares && |shares| == t.clients[c].nshares <= t.inFlight
            && t.inFlight == s.inFlight - |s.clients[c].shares| + |shares|
  {
  }

  lemma SubmitInv(s: State, c: nat, id: int, now: int)
    requires Inv(s) && c < |s.clients| && !s.clients[c].gone
    ensures s.inFlight - |s.clients[c].shares| >= 0
    ensures Inv(SetShares(s, c, AfterSubmit(s.clients[c], s.inFlight - |s.clients[c].shares|, id, now)))
  {
    hide Inv, Fresh, Newest, Has, DistinctIds, SetShares;
    Bounds(s, c);
    SubmitBounds(s.clients[c], s.inFlight - |s.clients[c].shares|, id, now);
    SharesInv(s, c, AfterSubmit(s.clients[c], s.inFlight - |s.clients[c].shares|, id, now));
  }

  lemma SubmitInOrder(s: State, k: Clock, c: nat, id: int, now: int)
    requires c < |s.clients| && s.inFlight - |s.clients[c].shares| >= 0 && InOrder(s.clients, k)
    ensures InOrder(SetShares(s, c, AfterSubmit(s.clients[c], s.inFlight - |s.clients[c].shares|, id, now)).clients, Ticked(k, c, now))
  {
    hide UpTo, InOrder, AfterSubmit;
    var shares := AfterSubmit(s.clients[c], s.inFlight - |s.clients[c].shares|, id, now);
    if c !in Ticked(k, c, now).setBack {
      TickedUpTo(s.clients, k, c, now);
      SubmitUpTo(s.clients[c], s.inFlight - |s.clients[c].shares|, id, now, now);
    }
    InOrderTicked(s.clients, k, c, s.clients[c].(shares := shares, nshares := |shares|), now);
  }

  lemma TickedUpTo(clients: seq<Client>, k: Clock, c: nat, now: int)
    requires InOrder(clients, k) && c < |clients| && c !in Ticked(k, c, now).setBack
    ensures UpTo(clients[c].shares, now)
  {
    hide UpTo;
    assert ListInOrder(clients[c].shares, k, c);
    if c in k.latest {
      LaterUpTo(clients[c].shares, k.latest[c], now);
    } else {
      EmptyUpTo(now);
    }
  }

  /** A list shortened by an order-keeping rule keeps the order of all. */
  lemma ShorterInOrder(s: State, k: Clock, c: nat, shares: seq<Share>)
    requires InOrder(s.clients, k) && c < |s.clients| && |shares| <= |s.clients[c].shares|
    requires forall t :: UpTo(s.clients[c].shares, t) ==> UpTo(shares, t)
    ensures InOrder(SetShares(s, c, shares).clients, k)
  {
    hide UpTo;
    InOrderWith(s.clients, k, c, s.clients[c].(shares := shares, nshares := |shares|));
  }

  lemma ReplyInv(s: State, c: nat, id: int, accepted: bool, now: int)
    requires Inv(s) && c < |s.clients| && !s.clients[c].gone
    ensures var (shares, earns) := AfterReply(s.clients[c], id, accepted, now);
            var t := SetShares(s, c, shares).(earned := if earns then s.earned + {c} else s.earned);
            Inv(t) && (earns ==> c < |t.clients| && Traced(t, t.clients[c].address))
  {
    hide Inv, AfterReply, DistinctIds, Traced, SetShares;
    var (shares, earns) := AfterReply(s.clients[c], id, accepted, now);
    Bounds(s, c);
    ReplyBounds(s.clients[c], id, accepted, now);
    NoReply(s.clients[c], id, accepted, now);
    SharesInv(s, c, shares);
    SetTwice(s, c, [], shares);
    if earns {
      EarnedInv(SetShares(s, c, shares), c);
    }
  }

  lemma NoReply(client: Client, id: int, accepted: bool, now: int)
    ensures client.redirected || !client.authorised ==> AfterReply(client, id, accepted, now).0 == client.shares
  {
  }

  /** In the order of time, what earns a redirect is a recent submit; and a reply keeps the order. */
  lemma ReplyInOrder(s: State, k: Clock, c: nat, id: int, accepted: bool, now: int)
    requires InOrder(s.clients, k) && c < |s.clients| && DistinctIds(s.clients[c].shares)
    ensures c !in k.setBack ==> (Shielded(s.clients[c].shares, id, now) <==> OnRecord(s.clients[c].shares, id, now))
    ensures InOrder(SetShares(s, c, AfterReply(s.clients[c], id, accepted, now).0).clients, k)
  {
    hide UpTo, AfterReply, Shielded, OnRecord, DistinctIds, Ascending, InOrder, SetShares;
    if c !in k.setBack {
      Ordered(s.clients, k, c);
      ShieldedInOrder(s.clients[c].shares, id, now);
    }
    ReplyBounds(s.clients[c], id, accepted, now);
    forall t | UpTo(s.clients[c].shares, t) ensures UpTo(AfterReply(s.clients[c], id, accepted, now).0, t) {
      ReplyUpTo(s.clients[c], id, accepted, now, t);
    }
    ShorterInOrder(s, k, c, AfterReply(s.clients[c], id, accepted, now).0);
  }

  lemma Ordered(clients: seq<Client>, k: Clock, c: nat)
    requires InOrder(clients, k) && c < |clients| && c !in k.setBack
    ensures Ascending(clients[c].shares)
  {
    assert ListInOrder(clients[c].shares, k, c);
  }

  lemma NoneInOrder(s: State, k: Clock, c: nat)
    requires InOrder(s.clients, k) && c < |s.clients|
    ensures InOrder(SetShares(s, c, []).clients, k)
  {
    hide UpTo, InOrder, SetShares;
    forall t ensures UpTo([], t) {
      EmptyUpTo(t);
    }
    ShorterInOrder(s, k, c, []);
  }

  lemma SameListsInOrder(s: seq<Client>, t: seq<Client>, k: Clock)
    requires InOrder(s, k) && |t| == |s| && forall c :: 0 <= c < |s| ==> t[c].shares == s[c].shares
    ensures InOrder(t, k)
  {
    hide ListInOrder;
  }

  lemma LatchedInv(s: State, k: Clock, c: nat)
    requires Inv(s) && c < |s.clients| && !s.clients[c].redirected && Traced(s, s.clients[c].address)
    requires InOrder(s.clients, k)
    ensures c !in s.winners && c !in s.told
    ensures Inv(Latched(s, c)) && InOrder(Latched(s, c).clients, k)
  {
    hide Inv, InOrder, Traced;
    Bounds(s, c);
    SharesInv(s, c, []);
    TraceKept(s, SetShares(s, c, []));
    LatchInv(SetShares(s, c, []), c);
    NoneInOrder(s, k, c);
    SameListsInOrder(SetShares(s, c, []).clients, Latched(s, c).clients, k);
  }

  lemma AuthorisedInv(s: State, k: Clock, c: nat)
    requires Inv(s) && c < |s.clients| && !s.clients[c].gone && InOrder(s.clients, k)
    ensures Inv(Authorised(s, c)) && InOrder(Authorised(s, c).clients, k)
  {
    hide Inv, InOrder;
    Bounds(s, c);
    SameShares(s, c);
    SharesInv(s, c, []);
    var t := if s.clients[c].authorised then s else SetShares(s, c, []);
    AuthInv(t, c);
    NoneInOrder(s, k, c);
    SameListsInOrder(t.clients, Authorised(s, c).clients, k);
  }

  lemma RecycledInv(s: State, k: Clock, c: nat)
    requires Inv(s) && c < |s.clients| && InOrder(s.clients, k)
    ensures Inv(Recycled(s, c)) && InOrder(Recycled(s, c).clients, k)
  {
    hide Inv, InOrder;
    Bounds(s, c);
    SharesInv(s, c, []);
    GoneInv(SetShares(s, c, []), c);
    NoneInOrder(s, k, c);
    SameListsInOrder(SetShares(s, c, []).clients, Recycled(s, c).clients, k);
  }

  lemma UnhashedInv(s: State, k: Clock, c: nat)
    requires Inv(s) && c < |s.clients| && InOrder(s.clients, k)
    ensures var t := s.(clients := s.clients[c := s.clients[c].(hashed := false)]); Inv(t) && InOrder(t.clients, k)
  {
    hide Total, DistinctIds, Traced, InOrder;
    var t := s.(clients := s.clients[c := s.clients[c].(hashed := false)]);
    assert ClientSound(s, c);
    TraceKept(s, t);
    ClientInv(s, t, c);
    SameListsInOrder(s.clients, t.clients, k);
  }

  lemma ExpiredInv(s: State, k: Clock, c: nat, now: int)
    requires Inv(s) && c < |s.clients| && InOrder(s.clients, k)
    ensures var t := SetShares(s, c, Fresh(s.clients[c].shares, now));
            Inv(t) && InOrder(t.clients, k)
  {
    hide Inv, InOrder, UpTo, DistinctIds, Fresh, SetShares;
    var shares := s.clients[c].shares;
    Bounds(s, c);
    FreshDistinct(shares, now);
    SharesInv(s, c, Fresh(shares, now));
    forall t | UpTo(shares, t) ensures UpTo(Fresh(shares, now), t) {
      FreshUpTo(shares, now, t);
    }
    ShorterInOrder(s, k, c, Fresh(shares, now));
  }

  lemma NewestAll(all: seq<Share>)
    ensures Newest(all, |all|) == all
  {
  }

  lemma NewestStep(all: seq<Share>, shares: seq<Share>)
    requires shares == Newest(all, |shares|) && shares != []
    ensures shares[1..] == Newest(all, |shares| - 1)
  {
  }

  lemma NewestEnough(all: seq<Share>, n: nat)
    ensures |all| <= n ==> Newest(all, n) == Newest(all, |all|)
  {
  }

  lemma AdmitInv(s: State, client: Client)
    requires Inv(s) && client == Client(client.address, false, false, [], 0, true, false)
    ensures Inv(s.(clients := s.clients + [client]))
  {
    hide Traced, DistinctIds;
    var t := s.(clients := s.clients + [client]);
    assert t.clients[..|s.clients|] == s.clients;
    TraceKept(s, t);
    Empty();
    forall c | 0 <= c < |t.clients| ensures ClientSound(t, c) {
      if c < |s.clients| {
        assert ClientSound(s, c);
      }
    }
  }

  lemma Empty()
    ensures DistinctIds([])
  {
  }
}
