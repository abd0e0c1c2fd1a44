/** What the sections of the connector do for a client, from the hash to its reuse: ids are never given twice,
  * a client is found by its id from the moment it is hashed until it is dropped, and is taken up for reuse by
  * the first cull that finds it dead and unreferenced.
  */
module ClientEffects {
  import opened Basics
  import opened ClientLifecycle
  import opened ClientRuns

  /** A run of enabled steps, the windows included. */
  ghost predicate AnyRun(run: seq<State>, events: seq<Event>) {
    && |run| == |events| + 1
    && forall k :: 0 <= k < |events| ==>
         && Tables(run[k]) && Enabled(run[k], events[k]) && run[k + 1] == Step(run[k], events[k])
  }

  lemma NextIdGrows(s: State, e: Event)
    requires Tables(s) && Enabled(s, e)
    ensures Step(s, e).nextId == s.nextId + One(e.AcceptHash?)
    decreases e, 0
  {
    hide Tables;
    if e.Overwritten? {
      NextIdGrows(s, e.locked);
    }
  }

  lemma {:induction false} NextIdsGrow(run: seq<State>, events: seq<Event>, i: nat, j: nat)
    requires AnyRun(run, events) && i <= j < |run|
    ensures run[i].nextId <= run[j].nextId
    decreases j
  {
    hide Tables, Enabled, Step;
    if i < j {
      NextIdsGrow(run, events, i, j - 1);
      NextIdGrows(run[j - 1], events[j - 1]);
    }
  }

  /** A hashed client has an id no client before it had, whatever became of those. */
  lemma IdsAreNew(run: seq<State>, events: seq<Event>, i: nat, j: nat, c: Ptr, d: Ptr)
    requires AnyRun(run, events) && i < j < |events| && events[i] == AcceptHash(c) && events[j] == AcceptHash(d)
    ensures c in run[i + 1].mem && d in run[j + 1].mem && run[i + 1].mem[c].id < run[j + 1].mem[d].id
  {
    hide Tables, Step;
    assert Enabled(run[i], events[i]) && Enabled(run[j], events[j]);
    HashGives(run[i], c);
    HashGives(run[j], d);
    NextIdsGrow(run, events, i + 1, j);
  }

  lemma HashGives(s: State, c: Ptr)
    requires Tables(s) && c in s.recruited
    ensures var r := Step(s, AcceptHash(c));
            && c in r.mem && r.mem[c].id == s.nextId && r.nextId == s.nextId + 1
            && s.nextId in r.hash && r.hash[s.nextId] == c
  {
  }

  /** A reference by id is taken on the client with this id, if it is hashed, and on none otherwise. */
  lemma FoundById(s: State, id: int)
    requires Inv(s)
    ensures var r := Step(s, RefById(id));
            && (id !in s.hash ==> r == s)
            && (id in s.hash ==>
                  var c := s.hash[id];
                  && c in s.mem && s.mem[c].id == id && r.holders == s.holders + multiset{c}
                  && r.mem == s.mem[c := s.mem[c].(ref := s.mem[c].ref + 1)])
  {
    hide Inv, Tables, Step;
    InvTables(s);
    if id in s.hash {
      HashedIsValid(s, id);
    }
    TakesById(s, id);
  }

  lemma TakesById(s: State, id: int)
    requires Tables(s) && (id in s.hash ==> s.hash[id] in s.mem && !s.mem[s.hash[id]].invalid)
    ensures Step(s, RefById(id)) ==
              if id !in s.hash then s
              else s.(mem := AddRef(s.mem, s.hash[id], 1), holders := s.holders + multiset{s.hash[id]})
  {
    hide Tables;
  }

  lemma HashedIsValid(s: State, id: int)
    requires Inv(s) && id in s.hash
    ensures s.hash[id] in s.mem && s.mem[s.hash[id]].id == id && !s.mem[s.hash[id]].invalid
  {
    hide Distinct;
    assert Live(s, s.hash[id]);
    assert Sound(s, s.hash[id]);
  }

  /** The first drop of a client takes it, and no other, out of the hash and puts it last on the dead list; a
    * second drop does nothing. */
  lemma DropUnhashes(s: State, c: Ptr)
    requires Inv(s) && Enabled(s, Drop(c)) && c in s.mem
    ensures var r := Step(s, Drop(c));
            && (s.mem[c].invalid ==> r == s)
            && (!s.mem[c].invalid ==>
                  && Live(s, c) && r.hash == s.hash - {s.mem[c].id} && r.dead == s.dead + [c]
                  && c in r.mem && r.mem[c] == Client(s.mem[c].id, s.mem[c].ref - 1, true)
                  && forall d :: d in s.mem && d != c ==> d in r.mem && r.mem[d] == s.mem[d])
  {
    assert Sound(s, c);
  }

  /** A cull takes up for reuse exactly the dead clients without references, emptied, and leaves the others and
    * all that are not dead as they are. */
  lemma CullRecycles(s: State)
    requires Inv(s)
    ensures var r := Step(s, Cull);
            && (forall c :: c in s.dead && s.mem[c].ref == 0 ==>
                  c in r.recycled && c !in r.dead && c in r.mem && r.mem[c] == Client(-1, 0, false))
            && (forall c :: c in s.dead && s.mem[c].ref != 0 ==> c in r.dead && c in r.mem && r.mem[c] == s.mem[c])
            && (forall c :: c in s.mem && c !in s.dead ==> c !in r.dead && c in r.mem && r.mem[c] == s.mem[c])
            && (forall c :: c in s.recycled ==> c in r.recycled)
            && r.hash == s.hash && r.holders == s.holders && r.queued == s.queued
  {
    hide Sound, Distinct;
  }

  /** So no client stays dead for want of a cull: one that nothing refers to is gone after the next. */
  lemma UnreferencedIsRecycled(run: seq<State>, events: seq<Event>, k: nat, c: Ptr)
    requires CleanRun(run, events) && k < |events| && events[k].Cull?
    requires c in run[k].dead && c !in run[k].accepting && run[k].holders[c] == 0 && run[k].queued[c] == 0
    ensures c in run[k + 1].recycled && c !in run[k + 1].dead
  {
    assert |run| == |events| + 1;
    hide Tables, Distinct, Step, CleanRun;
    EveryStateSound(run, events, k);
    assert Tables(run[k]) && run[k + 1] == Step(run[k], events[k]) by {
      AtStep(run, events, k);
    }
    assert c in run[k].mem by {
      DeadInMemory(run[k], c);
    }
    assert Sound(run[k], c);
    CullRecycles(run[k]);
  }

  lemma AtStep(run: seq<State>, events: seq<Event>, k: nat)
    requires CleanRun(run, events) && k < |events|
    ensures Tables(run[k]) && Enabled(run[k], events[k]) && run[k + 1] == Step(run[k], events[k])
  {
    hide Tables, Step, Enabled;
  }

  lemma DeadInMemory(s: State, c: Ptr)
    requires Tables(s) && c in s.dead
    ensures c in s.mem
  {
  }

  /** The next client accepted gets the structure that has waited longest for reuse, before any new one; a
    * structure given back unused waits behind the others, emptied. So nothing is lost between the two lists. */
  lemma ReuseComesAround(s: State, spare: Ptr, c: Ptr)
    requires Tables(s) && spare !in s.mem && c in s.recruited
    ensures var r := Step(s, Recruit(spare));
            && (s.recycled != [] ==>
                  && r.recycled == s.recycled[1..] && r.recruited == s.recruited + {s.recycled[0]} && r.mem == s.mem)
            && (s.recycled == [] ==>
                  && r.recycled == [] && r.recruited == s.recruited + {spare} && r.mem == s.mem[spare := Client(0, 0, false)])
    ensures var r := Step(s, Unrecruit(c));
            && r.recycled == s.recycled + [c] && r.recruited == s.recruited - {c} && r.mem == s.mem[c := Client(-1, 0, false)]
  {
    hide Tables;
  }
}
