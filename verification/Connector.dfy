/** The connector's sections under its lock (`src/connector.c`), each computing one step of
  * `ClientLifecycle` on its tables.
  */
module Connector {
  import opened Basics
  import opened ClientLifecycle
  import opened ClientRuns

  lemma SelectNext(list: seq<Ptr>, mem: map<Ptr, Client>, idle: bool, i: nat)
    requires i < |list| && forall c :: c in list ==> c in mem
    ensures Select(list[..i + 1], mem, idle)
         == Select(list[..i], mem, idle) + if (mem[list[i]].ref == 0) == idle then [list[i]] else []
  {
    assert list[..i + 1][..i] == list[..i];
  }

  lemma ZeroedNext(mem: map<Ptr, Client>, list: seq<Ptr>, c: Ptr)
    requires c in mem
    ensures Zeroed(mem, list)[c := Client(-1, 0, false)] == Zeroed(mem, list + [c])
  {
  }

  /** Zeroing clients without references leaves who has some. */
  lemma ZeroedKeeps(mem: map<Ptr, Client>, idle: seq<Ptr>, c: Ptr)
    requires c in mem && forall d :: d in idle ==> d in mem && mem[d].ref == 0
    ensures c in Zeroed(mem, idle) && (Zeroed(mem, idle)[c].ref == 0 <==> mem[c].ref == 0)
  {
  }

  lemma SelectNone(mem: map<Ptr, Client>)
    ensures Select([], mem, true) == [] == Select([], mem, false)
  {
  }

  lemma ZeroedNone(mem: map<Ptr, Client>)
    ensures Zeroed(mem, []) == mem
  {
  }

  class Connector {
    var mem: map<Ptr, Client>
    var hash: map<int, Ptr>
    var dead: seq<Ptr>
    var recycled: seq<Ptr>
    var nextId: int
    ghost var recruited: set<Ptr>
    ghost var accepting: set<Ptr>
    ghost var loaded: map<Ptr, int>
    ghost var holders: multiset<Ptr>
    ghost var queued: multiset<Ptr>
    ghost var known: Known

    ghost function View(): State
      reads this
    {
      State(mem, hash, dead, recycled, nextId, recruited, accepting, loaded, holders, queued, known)
    }

    constructor ()
      ensures View() == NOBODY
    {
      mem, hash, dead, recycled, nextId := map[], map[], [], [], 0;
      recruited, accepting, loaded, holders, queued := {}, {}, map[], multiset{}, multiset{};
      known := NOTHING;
    }

    /** `recruit_client`: the first structure to reuse, or a new one. */
    method RecruitClient(spare: Ptr) returns (c: Ptr)
      requires Tables(View()) && spare !in mem
      modifies this`mem, this`recycled, this`recruited
      ensures View() == Step(old(View()), Recruit(spare)) && c in recruited
    {
      hide Tables;
      if recycled != [] {
        c := recycled[0];
        recycled := recycled[1..];
      } else {
        c := spare;
        mem := mem[c := Client(0, 0, false)];
      }
      recruited := recruited + {c};
    }

    /** `recycle_client`, for a connection that was not accepted after all. */
    method RecycleClient(c: Ptr)
      requires Tables(View()) && c in recruited
      modifies this`mem, this`recycled, this`recruited
      ensures View() == Step(old(View()), Unrecruit(c))
    {
      hide Tables;
      mem, recycled := mem[c := Client(-1, 0, false)], recycled + [c];
      recruited := recruited - {c};
    }

    /** The locked part of `accept_client`. */
    method HashClient(c: Ptr) returns (id: int)
      requires Tables(View()) && c in recruited
      modifies this`mem, this`hash, this`nextId, this`recruited, this`accepting
      ensures View() == Step(old(View()), AcceptHash(c)) && id == old(nextId)
    {
      assert c in mem;
      hide Tables;
      id := nextId;
      mem := mem[c := mem[c].(id := id)];
      hash, nextId := hash[id := c], id + 1;
      recruited, accepting := recruited - {c}, accepting + {c};
    }

    /** Its unlocked part, the reference for the client's presence in the epoll list, reads the
      * count... */
    method ReadCount(c: Ptr) returns (count: int)
      requires Tables(View()) && c in accepting && c !in loaded
      modifies this`loaded
      ensures View() == Step(old(View()), AcceptLoad(c))
      ensures c in loaded && loaded[c] == count
    {
      assert c in mem;
      hide Tables;
      count := mem[c].ref;
      loaded := loaded[c := count];
    }

    /** ...and writes it back with one more. */
    method WriteCount(c: Ptr, count: int)
      requires Tables(View()) && c in loaded && loaded[c] == count
      modifies this`mem, this`accepting, this`loaded
      ensures View() == Step(old(View()), AcceptStore(c))
    {
      assert c in mem;
      hide Tables;
      mem := mem[c := mem[c].(ref := count + 1)];
      accepting, loaded := accepting - {c}, loaded - {c};
    }

    /** `ref_client_by_id`. */
    method RefClientById(id: int) returns (found: bool, c: Ptr)
      requires Tables(View())
      modifies this`mem, this`holders
      ensures View() == Step(old(View()), RefById(id))
      ensures found <==> id in hash && !old(mem)[hash[id]].invalid
      ensures found ==> c in holders && mem[c].id == id
    {
      found, c := id in hash, 0;
      if found {
        c := hash[id];
        if mem[c].invalid {
          found := false;
        } else {
          mem := mem[c := mem[c].(ref := mem[c].ref + 1)];
          holders := holders + multiset{c};
        }
      }
    }

    /** `dec_instance_ref` by a thread that holds one. */
    method DecRef(c: Ptr)
      requires Tables(View()) && c in holders
      modifies this`mem, this`holders
      ensures View() == Step(old(View()), Release(c))
    {
      assert c in mem;
      hide Tables;
      mem := mem[c := mem[c].(ref := mem[c].ref - 1)];
      holders := holders - multiset{c};
    }

    /** `inc_instance_ref`, for a send queued beside the reference of the caller. */
    method IncRefForSend(c: Ptr)
      requires Tables(View()) && c in holders
      modifies this`mem, this`queued
      ensures View() == Step(old(View()), QueueBeside(c))
    {
      assert c in mem;
      hide Tables;
      mem := mem[c := mem[c].(ref := mem[c].ref + 1)];
      queued := queued + multiset{c};
    }

    /** `inc_instance_ref` in `redirect_client`, for a client it has latched after its caller handed
      * the reference to a send. */
    method IncRefForRedirect(c: Ptr)
      requires Tables(View()) && c in known.latched
      modifies this`mem, this`queued, this`known
      ensures View() == Step(old(View()), QueueMore(c))
    {
      assert c in mem;
      hide Tables, Redirects;
      mem := mem[c := mem[c].(ref := mem[c].ref + 1)];
      queued, known := queued + multiset{c}, Redirects(known, c);
    }

    /** The end of `clear_sender_send`: the reference of a send that is done. */
    method DecRefOfSend(c: Ptr)
      requires Tables(View()) && c in queued
      modifies this`mem, this`queued
      ensures View() == Step(old(View()), Event.Sent(c))
    {
      assert c in mem;
      hide Tables;
      mem := mem[c := mem[c].(ref := mem[c].ref - 1)];
      queued := queued - multiset{c};
    }

    /** `__drop_client`: the first to invalidate a client unhashes it and drops its epoll reference. */
    method DropClient(c: Ptr) returns (dropped: bool)
      requires Tables(View()) && Enabled(View(), Drop(c))
      modifies this`mem, this`hash, this`dead
      ensures View() == Step(old(View()), Drop(c))
      ensures dropped <==> !old(mem)[c].invalid
    {
      hide Tables, Enabled;
      MayDrop(View(), c);
      dropped := !mem[c].invalid;
      if dropped {
        hash, dead := hash - {mem[c].id}, dead + [c];
        mem := mem[c := mem[c].(invalid := true, ref := mem[c].ref - 1)];
      }
    }

    /** The walk over the dead clients. */
    method SweepDead(list: seq<Ptr>) returns (kept: seq<Ptr>)
      requires forall c :: c in list ==> c in mem
      modifies this`mem, this`recycled
      ensures mem == Zeroed(old(mem), Select(list, old(mem), true))
      ensures recycled == old(recycled) + Select(list, old(mem), true) && kept == Select(list, old(mem), false)
    {
      hide Select, Zeroed;
      ghost var was := mem;
      ZeroedNone(mem);
      SelectNone(was);
      assert list[..0] == [];
      kept := [];
      for i := 0 to |list|
        invariant mem == Zeroed(was, Select(list[..i], was, true))
        invariant recycled == old(recycled) + Select(list[..i], was, true)
        invariant kept == Select(list[..i], was, false)
      {
        var c := list[i];
        SelectNext(list, was, true, i);
        SelectNext(list, was, false, i);
        ghost var idle := Select(list[..i], was, true);
        ZeroedKeeps(was, idle, c);
        if mem[c].ref == 0 {
          ZeroedNext(was, idle, c);
          assert old(recycled) + (idle + [c]) == old(recycled) + idle + [c];
          mem := mem[c := Client(-1, 0, false)];
          recycled := recycled + [c];
        } else {
          assert idle + [] == idle;
          kept := kept + [c];
        }
      }
      assert list[..|list|] == list;
    }

    /** The cull at the end of `finish_invalidate_client`. */
    method CullDead()
      requires Tables(View())
      modifies this`mem, this`dead, this`recycled
      ensures View() == Step(old(View()), Event.Cull)
    {
      DeadInMemory(View());
      hide Select, Zeroed, Tables;
      var kept := SweepDead(dead);
      dead := kept;
    }

    /** `drop_all_clients`, under one lock: every live client loses its epoll reference, once. */
    method DropAll()
      requires Inv(View())
      modifies this`mem, this`hash, this`dead
      ensures Inv(View()) && hash == map[] && AllDropped(old(View()), View())
    {
      hide Inv, Step, AllDropped, Dropping;
      ghost var s := View();
      DroppingStarts(s);
      while |hash| > 0
        invariant Inv(View()) && Dropping(s, View())
        decreases |hash|
      {
        InvTables(View());
        var id := SomeId();
        var c := hash[id];
        DropsOne(s, View(), c);
        var dropped := DropClient(c);
      }
      DroppingEnds(s, View());
    }

    /** Any id of the table. */
    method SomeId() returns (id: int)
      requires |hash| > 0
      ensures id in hash
    {
      SomeEntry(hash);
      id :| id in hash;
    }
  }

  lemma SomeEntry(m: map<int, Ptr>)
    ensures |m| > 0 ==> exists id :: id in m
  {
    if forall id :: id !in m {
      assert m == map[];
    }
  }

  /** What a bulk drop has done when `t` is reached: to each client that is no longer live. */
  ghost predicate Dropping(s: State, t: State) {
    && t == s.(mem := t.mem, hash := t.hash, dead := t.dead) && t.mem.Keys == s.mem.Keys
    && forall c :: c in s.mem ==>
         && (Live(t, c) ==> Live(s, c) && t.mem[c] == s.mem[c])
         && (!Live(t, c) ==> t.mem[c] == if Live(s, c) then s.mem[c].(invalid := true, ref := s.mem[c].ref - 1) else s.mem[c])
  }

  ghost predicate AllDropped(s: State, t: State) {
    && t == s.(mem := t.mem, hash := map[], dead := t.dead) && t.mem.Keys == s.mem.Keys
    && forall c :: c in s.mem ==>
         t.mem[c] == if Live(s, c) then s.mem[c].(invalid := true, ref := s.mem[c].ref - 1) else s.mem[c]
  }

  lemma DroppingStarts(s: State)
    ensures Dropping(s, s)
  {
  }

  lemma DroppingEnds(s: State, t: State)
    requires Dropping(s, t) && |t.hash| == 0
    ensures t.hash == map[] && AllDropped(s, t)
  {
    assert t.hash.Keys == {};
    assert t.hash == map[];
  }

  lemma DropsOne(s: State, t: State, c: Ptr)
    requires Inv(t) && Dropping(s, t) && c in t.mem && t.mem[c].id in t.hash && t.hash[t.mem[c].id] == c
    ensures Enabled(t, Drop(c)) && Tables(t) && !t.mem[c].invalid
    ensures var r := Step(t, Drop(c)); Inv(r) && Dropping(s, r) && |r.hash| < |t.hash|
  {
    hide Inv, Dropping, Tables;
    InvTables(t);
    LiveIsBusy(t, c);
    DropSound(t, c);
    FewerHashed(t.hash, t.mem[c].id);
    DropsLive(s, t, c);
  }

  lemma FewerHashed(hash: map<int, Ptr>, id: int)
    requires id in hash
    ensures |hash - {id}| < |hash|
  {
    assert (hash - {id}).Keys == hash.Keys - {id};
    assert |hash.Keys| == |hash| && |(hash - {id}).Keys| == |hash - {id}|;
  }

  lemma DropsLive(s: State, t: State, c: Ptr)
    requires Tables(t) && Dropping(s, t) && c in t.mem && Live(t, c) && !t.mem[c].invalid
    ensures Dropping(s, StepDrop(t, c))
  {
    var r := StepDrop(t, c);
    forall d | d in s.mem && d != c ensures Live(r, d) <==> Live(t, d) {
    }
  }

  lemma MayDrop(s: State, c: Ptr)
    requires Tables(s) && Enabled(s, Drop(c))
    ensures c in s.mem
  {
  }
}
