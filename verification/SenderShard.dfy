/** The sender thread's shard as `src/connector.c` keeps it, and what any interleaving of its
  * visits with queueing and dropping by other threads keeps.
  */
module SenderShard {
  import opened Basics
  import opened SendQueue

  /** The shard's list, the sends queued behind its back, and how far the current pass has come. */
  datatype Lists = Lists(sends: seq<Send>, pending: seq<Send>, pos: nat, next: nat)

  ghost predicate Inv(cipher: Cipher, clients: map<Ptr, Client>, wires: map<Ptr, Wire>, q: Lists) {
    && SerialsBelow(q.sends + q.pending, q.next)
    && SendsOf(q.sends + q.pending, clients)
    && Latched(clients, q.sends)
    && Passed(clients, q.sends, q.pos)
    && AllSound(cipher, clients, wires, q.sends + q.pending)
  }

  ghost predicate Orderly(clients: map<Ptr, Client>, q: Lists) {
    && SerialsBelow(q.sends + q.pending, q.next)
    && SendsOf(q.sends + q.pending, clients)
    && Latched(clients, q.sends)
    && Passed(clients, q.sends, q.pos)
  }

  lemma Joined(a: seq<Send>, b: seq<Send>, clients: map<Ptr, Client>, next: nat)
    requires SerialsBelow(a + b, next) && SendsOf(a + b, clients)
    ensures SerialsBelow(a, next) && SendsOf(a, clients)
  {
    assert forall i :: 0 <= i < |a| ==> (a + b)[i] == a[i];
  }

  // ----- queueing and dropping -----

  lemma QueuedOrderly(clients: map<Ptr, Client>, q: Lists, x: Send, client: Client)
    requires Orderly(clients, q) && x.client in clients && WellFormed(x) && x.serial == q.next
    requires client == clients[x.client].(queuedBytes := client.queuedBytes)
    ensures Orderly(clients[x.client := client], q.(pending := q.pending + [x], next := q.next + 1))
  {
    assert q.sends + (q.pending + [x]) == q.sends + q.pending + [x];
  }

  lemma QueuedInv(cipher: Cipher, clients: map<Ptr, Client>, wires: map<Ptr, Wire>, q: Lists, x: Send)
    requires Inv(cipher, clients, wires, q)
    requires x.client in clients && WellFormed(x) && x.ofs == 0 && x.serial == q.next
    ensures x.client in wires
    ensures var c := x.client;
            Inv(cipher, clients[c := clients[c].(queuedBytes := clients[c].queuedBytes + x.qlen)],
                wires[c := wires[c].(log := wires[c].log + [Message(x.buf, x.encrypt)])],
                q.(pending := q.pending + [x], next := q.next + 1))
  {
    hide SerialsBelow, SendsOf, Latched, Passed, Sound, WellFormed;
    var c := x.client;
    var list := q.sends + q.pending;
    assert q.sends + (q.pending + [x]) == list + [x];
    QueuedOrderly(clients, q, x, clients[c].(queuedBytes := clients[c].queuedBytes + x.qlen));
    QueuedSound(cipher, c, clients[c], wires[c], list, x);
    forall d | d in clients && d != c ensures Sound(cipher, d, clients[d], wires[d], list + [x]) {
      OthersQueued(cipher, d, clients[d], wires[d], list, x);
    }
  }

  lemma DroppedInv(cipher: Cipher, clients: map<Ptr, Client>, wires: map<Ptr, Wire>, q: Lists, c: Ptr)
    requires Inv(cipher, clients, wires, q) && c in clients
    ensures Inv(cipher, clients[c := clients[c].(invalid := true)], wires, q)
  {
    hide SerialsBelow, Sound, WellFormed;
    DroppedSound(cipher, c, clients[c], wires[c], q.sends + q.pending);
  }

  lemma SplicedInv(cipher: Cipher, clients: map<Ptr, Client>, wires: map<Ptr, Wire>, q: Lists)
    requires Inv(cipher, clients, wires, q)
    ensures Inv(cipher, clients, wires, q.(sends := q.sends + q.pending, pending := [], pos := 0))
  {
    hide SerialsBelow, SendsOf, Sound, AllSound;
    var list := q.sends + q.pending;
    assert list + [] == list;
    forall c | c in clients && clients[c].sending.Some? && !clients[c].invalid
      ensures exists i :: LatchedAt(list, c, clients[c].sending.value, i)
    {
      var i :| LatchedAt(q.sends, c, clients[c].sending.value, i);
      assert LatchedAt(list, c, clients[c].sending.value, i);
    }
  }

  lemma AdmittedInv(cipher: Cipher, clients: map<Ptr, Client>, wires: map<Ptr, Wire>, q: Lists, c: Ptr)
    requires Inv(cipher, clients, wires, q) && c !in clients
    ensures Inv(cipher, clients[c := Client(false, None, 0, None, 0)], wires[c := Wire([], [])], q)
  {
    hide SerialsBelow, Sound;
    var list := q.sends + q.pending;
    NewSound(cipher, c, list);
  }

  lemma NewSound(cipher: Cipher, c: Ptr, list: seq<Send>)
    requires forall i :: 0 <= i < |list| ==> list[i].client != c
    ensures Sound(cipher, c, Client(false, None, 0, None, 0), Wire([], []), list)
  {
    NoneOf(cipher, c, list, 0);
  }

  // ----- a visit -----

  lemma SkippedInv(cipher: Cipher, clients: map<Ptr, Client>, wires: map<Ptr, Wire>, q: Lists)
    requires Inv(cipher, clients, wires, q) && q.pos < |q.sends| && Blocked(clients, q.sends[q.pos].client)
    ensures Inv(cipher, clients, wires, q.(pos := q.pos + 1))
  {
    hide SerialsBelow, SendsOf, Latched, AllSound;
  }

  /** q with the send at its position replaced, or gone. */
  function Put(q: Lists, y: seq<Send>): (r: Lists)
    requires q.pos < |q.sends|
  {
    q.(sends := q.sends[..q.pos] + y + q.sends[q.pos + 1..])
  }

  lemma PutSplits(q: Lists, y: seq<Send>)
    requires q.pos < |q.sends|
    ensures q.sends + q.pending == q.sends[..q.pos] + [q.sends[q.pos]] + (q.sends[q.pos + 1..] + q.pending)
    ensures Put(q, y).sends + q.pending == q.sends[..q.pos] + y + (q.sends[q.pos + 1..] + q.pending)
  {
  }

  lemma WroteOrderly(clients: map<Ptr, Client>, q: Lists, y: Send, client: Client)
    requires Orderly(clients, q) && q.pos < |q.sends|
    requires var x := q.sends[q.pos];
             && y.client == x.client && y.serial == x.serial && WellFormed(y)
             && client.sending == Some(x.serial) && x.client in clients && !clients[x.client].invalid
             && forall i :: 0 <= i < q.pos ==> q.sends[i].client != x.client
    ensures Orderly(clients[y.client := client], Put(q, [y]))
  {
    var c := y.client;
    var r := Put(q, [y]);
    var now := clients[c := client];
    var list := r.sends + r.pending;
    assert forall i :: 0 <= i < |list| ==>
      list[i].client == (q.sends + q.pending)[i].client && list[i].serial == (q.sends + q.pending)[i].serial;
    assert LatchedAt(r.sends, c, y.serial, q.pos);
    forall d | d in now && now[d].sending.Some? && !now[d].invalid
      ensures exists i :: LatchedAt(r.sends, d, now[d].sending.value, i)
    {
      if d != c {
        var i :| LatchedAt(q.sends, d, clients[d].sending.value, i);
        assert LatchedAt(r.sends, d, now[d].sending.value, i);
      }
    }
  }

  lemma WroteInv(cipher: Cipher, clients: map<Ptr, Client>, wires: map<Ptr, Wire>, q: Lists, y: Send, blocked: Option<int>)
    requires Inv(cipher, clients, wires, q) && q.pos < |q.sends|
    requires var x := q.sends[q.pos]; var c := x.client;
             && c in clients && c in wires && WellFormed(x) && !clients[c].invalid
             && (forall i :: 0 <= i < q.pos ==> q.sends[i].client != c)
             && var sent := if x.encrypt then cipher(c, clients[c].nonce, x.buf) else x.buf;
             && y == x.(buf := sent, encrypt := false, ofs := y.ofs) && x.ofs <= y.ofs <= |sent|
    ensures var x := q.sends[q.pos]; var c := x.client;
            Inv(cipher, clients[c := clients[c].(sending := Some(x.serial), blockedSince := blocked,
                                                 nonce := clients[c].nonce + if x.encrypt then 1 else 0)],
                wires[c := Wire(wires[c].written + y.buf[x.ofs..y.ofs], wires[c].log)], Put(q, [y]))
  {
    hide SerialsBelow, SendsOf, Latched, Passed, Sound, Put;
    var x := q.sends[q.pos];
    var c := x.client;
    var encrypted := clients[c].(nonce := clients[c].nonce + if x.encrypt then 1 else 0);
    var client := encrypted.(sending := Some(x.serial), blockedSince := blocked);
    var wire := Wire(wires[c].written + y.buf[x.ofs..y.ofs], wires[c].log);
    var a, b := q.sends[..q.pos], q.sends[q.pos + 1..] + q.pending;
    WroteOrderly(clients, q, y, client);
    PutSplits(q, [y]);
    PutKeeps(q, [y]);
    var ready := x.(buf := y.buf, encrypt := false);
    if x.encrypt {
      EncryptedSound(cipher, c, clients[c], wires[c], a, x, b);
    }
    assert encrypted == clients[c].(nonce := encrypted.nonce);
    WroteSound(cipher, c, encrypted, wires[c], a, ready, y, b);
    SendingIrrelevant(cipher, c, encrypted, client, wire, a + [y] + b);
    forall d | d in clients && d != c ensures Sound(cipher, d, clients[d], wires[d], a + [y] + b) {
      OthersSound(cipher, d, clients[d], wires[d], a, x, [y], b);
    }
  }

  lemma PutKeeps(q: Lists, y: seq<Send>)
    requires q.pos < |q.sends|
    ensures Put(q, y) == q.(sends := Put(q, y).sends)
  {
  }

  lemma SendingIrrelevant(cipher: Cipher, c: Ptr, client: Client, other: Client, wire: Wire, list: seq<Send>)
    requires Sound(cipher, c, client, wire, list)
    requires other.invalid == client.invalid && other.queuedBytes == client.queuedBytes && other.nonce == client.nonce
    ensures Sound(cipher, c, other, wire, list)
  {
  }

  lemma ClearedOrderly(clients: map<Ptr, Client>, q: Lists, client: Client)
    requires Orderly(clients, q) && q.pos < |q.sends|
    requires var c := q.sends[q.pos].client;
             && c in clients && client.invalid == clients[c].invalid && client.sending == None
             && (!client.invalid ==> forall i :: 0 <= i < q.pos ==> q.sends[i].client != c)
    ensures Orderly(clients[q.sends[q.pos].client := client], Put(q, []))
  {
    var c := q.sends[q.pos].client;
    var r := Put(q, []);
    var now := clients[c := client];
    var list, was := r.sends + r.pending, q.sends + q.pending;
    assert forall i :: 0 <= i < |list| ==> list[i] == was[if i < q.pos then i else i + 1];
    forall d | d in now && now[d].sending.Some? && !now[d].invalid
      ensures exists i :: LatchedAt(r.sends, d, now[d].sending.value, i)
    {
      if d != c {
        var i: nat :| LatchedAt(q.sends, d, clients[d].sending.value, i);
        assert LatchedAt(r.sends, d, now[d].sending.value, if i < q.pos then i else i - 1);
      }
    }
  }

  lemma ClearedInv(cipher: Cipher, clients: map<Ptr, Client>, wires: map<Ptr, Wire>, q: Lists)
    requires Inv(cipher, clients, wires, q) && q.pos < |q.sends|
    requires var x := q.sends[q.pos]; var c := x.client;
             && c in clients && c in wires && WellFormed(x)
             && (clients[c].invalid || (x.ofs == |x.buf| && !x.encrypt && forall i :: 0 <= i < q.pos ==> q.sends[i].client != c))
    ensures var x := q.sends[q.pos]; var c := x.client;
            && clients[c].queuedBytes >= x.qlen
            && Inv(cipher, clients[c := clients[c].(sending := None, queuedBytes := clients[c].queuedBytes - x.qlen)], wires, Put(q, []))
  {
    hide SerialsBelow, SendsOf, Latched, Passed, Sound, Put;
    var x := q.sends[q.pos];
    var c := x.client;
    var a, b := q.sends[..q.pos], q.sends[q.pos + 1..] + q.pending;
    PutSplits(q, []);
    PutKeeps(q, []);
    ClearedSound(cipher, c, clients[c], wires[c], a, x, b);
    var less := clients[c].(queuedBytes := clients[c].queuedBytes - x.qlen);
    ClearedOrderly(clients, q, less.(sending := None));
    assert a + [] + b == a + b;
    SendingIrrelevant(cipher, c, less, less.(sending := None), wires[c], a + b);
    forall d | d in clients && d != c ensures Sound(cipher, d, clients[d], wires[d], a + b) {
      OthersSound(cipher, d, clients[d], wires[d], a, x, [], b);
    }
  }

  /** A client with nothing outstanding has had every message, and owes nothing. */
  lemma AllDelivered(cipher: Cipher, clients: map<Ptr, Client>, wires: map<Ptr, Wire>, q: Lists, c: Ptr)
    requires Inv(cipher, clients, wires, q) && c in clients && !clients[c].invalid
    requires forall i :: 0 <= i < |q.sends + q.pending| ==> (q.sends + q.pending)[i].client != c
    ensures wires[c].written == Stream(cipher, c, wires[c].log) && clients[c].queuedBytes == 0
    ensures clients[c].nonce == Encryptions(wires[c].log)
  {
    hide SerialsBelow, SendsOf, Latched, Passed, Stream, Encryptions;
    NoneOf(cipher, c, q.sends + q.pending, clients[c].nonce);
  }

  // ----- what the socket says -----

  /** What a write comes back with: so many bytes taken, at most those offered, or an error. */
  datatype Answer = Took(count: nat) | WouldBlock | WriteError

  /** What a visit meets with: the answers to its writes, in order, and whether the cipher fails. */
  datatype Socket = Socket(write: nat -> Answer, cipherFails: bool)

  function AtMost(n: nat, most: nat): nat {
    if n < most then n else most
  }

  /** How many of so many bytes are taken from the k-th write on, until one takes nothing. */
  function Taken(left: nat, write: nat -> Answer, k: nat): (n: nat)
    ensures n <= left
    decreases left
  {
    if left == 0 || !write(k).Took? || write(k).count == 0 then 0
    else
      var n := AtMost(write(k).count, left);
      n + Taken(left - n, write, k + 1)
  }

  /** Whether the write that takes nothing fails. */
  predicate Fails(left: nat, write: nat -> Answer, k: nat)
    decreases left
  {
    left > 0 &&
    match write(k)
    case Took(count) => count > 0 && Fails(left - AtMost(count, left), write, k + 1)
    case WouldBlock => false
    case WriteError => true
  }

  // ----- what a visit does -----

  /** How an attempt ends: all is written, the socket takes no more for now, it has taken nothing for
    * too long, or it fails. */
  datatype Verdict = Done | Again | Expired | Failed

  datatype Cause = CipherFailed | TimedOut | WriteFailed

  /** How a visit to a send ends: its client was dropped before, another send of the client holds the
    * latch, all bytes are written, the socket takes none after the one before `upTo`, or the client
    * is dropped there. */
  datatype Outcome = Gone | Waits | Sent | Short(upTo: nat) | Broken(upTo: nat, cause: Cause)

  /** The bytes a send puts on the wire. */
  function OnTheWire(cipher: Cipher, client: Client, x: Send): seq<Byte> {
    if x.encrypt then cipher(x.client, client.nonce, x.buf) else x.buf
  }

  /** How a visit ends, told by what it meets with. */
  function Ending(cipher: Cipher, client: Client, x: Send, now: int, socket: Socket): Outcome
    requires WellFormed(x)
  {
    if client.invalid then Gone
    else if client.sending.Some? && client.sending.value != x.serial then Waits
    else if x.encrypt && socket.cipherFails then Broken(x.ofs, CipherFailed)
    else
      var size := |OnTheWire(cipher, client, x)|;
      var left := if x.ofs < size then size - x.ofs else 0;
      var taken := Taken(left, socket.write, 0);
      if taken == left then Sent
      else if taken == 0 && Overdue(client.blockedSince, now) then Broken(x.ofs, TimedOut)
      else if Fails(left, socket.write, 0) then Broken(x.ofs + taken, WriteFailed)
      else Short(x.ofs + taken)
  }

  /** A client whose send has gone from the list: the latch is free and the account reversed. */
  function ClearedOf(client: Client, x: Send): Client {
    client.(sending := None, queuedBytes := client.queuedBytes - x.qlen)
  }

  function Count(x: Send): nat {
    if x.encrypt then 1 else 0
  }

  /** Since when the client's socket has taken nothing, if an attempt stops before byte `upTo`. */
  function BlockedFrom(client: Client, x: Send, upTo: nat, now: int): Option<int> {
    if upTo > x.ofs || client.blockedSince.None? then Some(now) else client.blockedSince
  }

  /** The socket has taken nothing since a time 60 seconds ago or longer. */
  predicate Overdue(since: Option<int>, now: int) {
    since.Some? && now - since.value >= 60
  }

  /** What a visit does to the client's side and what to its wire; no other client is concerned. */
  ghost predicate Served(cipher: Cipher, client: Client, wire: Wire, x: Send, now: int,
                         after: Client, wireAfter: Wire, outcome: Outcome)
  {
    var bytes := OnTheWire(cipher, client, x);
    var turn := !client.invalid && (client.sending.None? || client.sending.value == x.serial);
    match outcome
    case Gone => client.invalid && after == ClearedOf(client, x) && wireAfter == wire
    case Waits => !client.invalid && !turn && after == client && wireAfter == wire
    case Sent =>
      && turn && x.ofs <= |bytes| && wireAfter == Wire(wire.written + bytes[x.ofs..], wire.log)
      && after == ClearedOf(client, x).(nonce := client.nonce + Count(x),
                                        blockedSince := if x.ofs < |bytes| then None else client.blockedSince)
    case Short(upTo) =>
      && turn && x.ofs <= upTo < |bytes| && wireAfter == Wire(wire.written + bytes[x.ofs..upTo], wire.log)
      && (upTo == x.ofs ==> !Overdue(client.blockedSince, now))
      && after == client.(sending := Some(x.serial), nonce := client.nonce + Count(x),
                          blockedSince := BlockedFrom(client, x, upTo, now))
    case Broken(upTo, cause) =>
      && turn && x.ofs <= upTo <= |bytes| && wireAfter == Wire(wire.written + bytes[x.ofs..upTo], wire.log)
      && (cause == CipherFailed ==> x.encrypt && upTo == x.ofs)
      && (cause == TimedOut ==> upTo == x.ofs < |bytes| && Overdue(client.blockedSince, now))
      && (cause == WriteFailed ==> upTo < |bytes| && (upTo == x.ofs ==> !Overdue(client.blockedSince, now)))
      && after == ClearedOf(client, x).(invalid := true, nonce := after.nonce, blockedSince := after.blockedSince)
  }

  /** The list after it: the send is gone, passed over, or passed over with less to write. */
  function ListAfter(cipher: Cipher, client: Client, q: Lists, outcome: Outcome): Lists
    requires q.pos < |q.sends|
  {
    var x := q.sends[q.pos];
    match outcome
    case Waits => q.(pos := q.pos + 1)
    case Short(upTo) =>
      Put(q, [x.(buf := OnTheWire(cipher, client, x), encrypt := false, ofs := upTo)]).(pos := q.pos + 1)
    case _ => Put(q, [])
  }

  ghost predicate Visited(cipher: Cipher, clients: map<Ptr, Client>, wires: map<Ptr, Wire>, q: Lists, now: int,
                          clientsAfter: map<Ptr, Client>, wiresAfter: map<Ptr, Wire>, after: Lists, outcome: Outcome)
  {
    && q.pos < |q.sends|
    && var x := q.sends[q.pos]; var c := x.client;
    && c in clients && c in wires && c in clientsAfter && c in wiresAfter
    && Served(cipher, clients[c], wires[c], x, now, clientsAfter[c], wiresAfter[c], outcome)
    && clientsAfter == clients[c := clientsAfter[c]] && wiresAfter == wires[c := wiresAfter[c]]
    && after == ListAfter(cipher, clients[c], q, outcome)
  }

  /** An attempt that takes nothing is given up exactly when the client is overdue, and only then. */
  predicate InTime(verdict: Verdict, from: nat, upTo: nat, since: Option<int>, now: int) {
    && (verdict == Expired ==> upTo == from && Overdue(since, now))
    && (verdict == Again || verdict == Failed ==> upTo == from ==> !Overdue(since, now))
  }

  /** What an attempt at a send x does, when it leaves y. */
  ghost predicate Attempted(cipher: Cipher, clients: map<Ptr, Client>, wires: map<Ptr, Wire>, x: Send, now: int,
                            verdict: Verdict, y: Send, clientsAfter: map<Ptr, Client>, wiresAfter: map<Ptr, Wire>)
  {
    var c := x.client;
    && c in clients && c in wires && c in clientsAfter
    && var client := clients[c]; var after := clientsAfter[c];
    && y == x.(buf := OnTheWire(cipher, client, x), encrypt := false, ofs := y.ofs) && x.ofs <= y.ofs <= |y.buf|
    && (verdict == Done <==> y.ofs == |y.buf|)
    && after == client.(sending := Some(x.serial), nonce := client.nonce + Count(x), blockedSince := after.blockedSince)
    && (verdict == Done ==> after.blockedSince == if x.ofs < |y.buf| then None else client.blockedSince)
    && (verdict == Again ==> after.blockedSince == BlockedFrom(client, x, y.ofs, now))
    && InTime(verdict, x.ofs, y.ofs, client.blockedSince, now)
    && clientsAfter == clients[c := after]
    && wiresAfter == wires[c := Wire(wires[c].written + y.buf[x.ofs..y.ofs], wires[c].log)]
  }

  /** What is taken and how it ends are the socket's answers. */
  predicate Answered(since: Option<int>, x: Send, y: Send, now: int, write: nat -> Answer, verdict: Verdict) {
    && x.ofs <= |y.buf|
    && var left := |y.buf| - x.ofs;
    && y.ofs == x.ofs + Taken(left, write, 0)
    && verdict == if y.ofs == |y.buf| then Done
                  else if y.ofs == x.ofs && Overdue(since, now) then Expired
                  else if Fails(left, write, 0) then Failed
                  else Again
  }

  lemma AttemptEnds(cipher: Cipher, client: Client, x: Send, y: Send, now: int, socket: Socket, verdict: Verdict)
    requires WellFormed(x) && !client.invalid && (client.sending.None? || client.sending.value == x.serial)
    requires !(x.encrypt && socket.cipherFails) && y.buf == OnTheWire(cipher, client, x)
    requires Answered(client.blockedSince, x, y, now, socket.write, verdict)
    ensures Ending(cipher, client, x, now, socket)
         == match verdict
            case Done => Sent
            case Again => Short(y.ofs)
            case Expired => Broken(y.ofs, TimedOut)
            case Failed => Broken(y.ofs, WriteFailed)
  {
    hide Taken, Fails, OnTheWire, Overdue;
  }

  lemma AttemptServes(cipher: Cipher, clients: map<Ptr, Client>, wires: map<Ptr, Wire>, q: Lists, now: int,
                      verdict: Verdict, y: Send, clientsAfter: map<Ptr, Client>, wiresAfter: map<Ptr, Wire>)
    requires q.pos < |q.sends| && q.sends[q.pos].client in clients
    requires var x := q.sends[q.pos]; var client := clients[x.client];
             !client.invalid && (client.sending.None? || client.sending.value == x.serial)
    requires Attempted(cipher, clients, wires, q.sends[q.pos], now, verdict, y, clientsAfter, wiresAfter)
    ensures var x := q.sends[q.pos]; var c := x.client; var after := clientsAfter[c];
            && (verdict == Done ==> Visited(cipher, clients, wires, q, now, clients[c := ClearedOf(after, y)], wiresAfter, Put(q, []), Sent))
            && (verdict == Again ==> Visited(cipher, clients, wires, q, now, clientsAfter, wiresAfter,
                                             Put(q, [y]).(pos := q.pos + 1), Short(y.ofs)))
            && (verdict == Expired || verdict == Failed ==>
                  Visited(cipher, clients, wires, q, now, clients[c := ClearedOf(after.(invalid := true), y)], wiresAfter,
                          Put(q, []), Broken(y.ofs, if verdict == Expired then TimedOut else WriteFailed)))
  {
    hide Put;
  }

  lemma PutTwice(q: Lists, y: Send)
    requires q.pos < |q.sends|
    ensures Put(q, [y]).pos == q.pos < |Put(q, [y]).sends| && Put(q, [y]).sends[q.pos] == y
    ensures forall i :: 0 <= i < q.pos ==> Put(q, [y]).sends[i] == q.sends[i]
    ensures Put(Put(q, [y]), []) == Put(q, [])
    ensures Put(q, [y]) == q.(sends := Put(q, [y]).sends) && Put(q, []) == q.(sends := Put(q, []).sends)
  {
    var r := Put(q, [y]);
    assert r.sends[..q.pos] == q.sends[..q.pos] && r.sends[q.pos + 1..] == q.sends[q.pos + 1..];
  }

  /** Over any number of visits: nobody comes or goes, no message is forgotten, what is written stays
    * written, a dropped client stays dropped and its wire as it is, and only `who` are concerned. */
  ghost predicate Onward(clients: map<Ptr, Client>, wires: map<Ptr, Wire>,
                         clientsAfter: map<Ptr, Client>, wiresAfter: map<Ptr, Wire>, who: set<Ptr>)
  {
    && clientsAfter.Keys == clients.Keys && wiresAfter.Keys == wires.Keys
    && (forall c :: c in wires ==> wiresAfter[c].log == wires[c].log && wires[c].written <= wiresAfter[c].written)
    && (forall c :: c in clients && c in wires && clients[c].invalid ==> clientsAfter[c].invalid && wiresAfter[c] == wires[c])
    && (forall c :: c in clients && c !in who ==> clientsAfter[c] == clients[c])
    && (forall c :: c in wires && c !in who ==> wiresAfter[c] == wires[c])
  }

  ghost predicate Concerns(sends: seq<Send>, who: set<Ptr>) {
    forall i :: 0 <= i < |sends| ==> sends[i].client in who
  }

  lemma OnwardStarts(clients: map<Ptr, Client>, wires: map<Ptr, Wire>, who: set<Ptr>)
    ensures Onward(clients, wires, clients, wires, who)
  {
  }

  lemma OnwardOnce(client: Client, wire: Wire, after: Client, wireAfter: Wire, cipher: Cipher, x: Send, now: int, outcome: Outcome)
    requires Served(cipher, client, wire, x, now, after, wireAfter, outcome)
    ensures wireAfter.log == wire.log && wire.written <= wireAfter.written
    ensures client.invalid ==> after.invalid && wireAfter == wire
  {
  }

  /** A visit goes on from where the ones before it got. */
  lemma OnwardNext(cipher: Cipher, was: map<Ptr, Client>, wiresWere: map<Ptr, Wire>,
                   clients: map<Ptr, Client>, wires: map<Ptr, Wire>, q: Lists, now: int,
                   clientsAfter: map<Ptr, Client>, wiresAfter: map<Ptr, Wire>, after: Lists, outcome: Outcome, who: set<Ptr>)
    requires Onward(was, wiresWere, clients, wires, who) && Concerns(q.sends, who)
    requires Visited(cipher, clients, wires, q, now, clientsAfter, wiresAfter, after, outcome)
    ensures Onward(was, wiresWere, clientsAfter, wiresAfter, who) && Concerns(after.sends, who)
  {
    hide Served, OnTheWire;
    var c := q.sends[q.pos].client;
    OnwardOnce(clients[c], wires[c], clientsAfter[c], wiresAfter[c], cipher, q.sends[q.pos], now, outcome);
  }

  lemma Shorter(cipher: Cipher, clients: map<Ptr, Client>, wires: map<Ptr, Wire>, q: Lists, now: int,
                clientsAfter: map<Ptr, Client>, wiresAfter: map<Ptr, Wire>, after: Lists, outcome: Outcome)
    requires Visited(cipher, clients, wires, q, now, clientsAfter, wiresAfter, after, outcome)
    ensures after.pending == q.pending && |after.sends| - after.pos == |q.sends| - q.pos - 1
  {
    hide Served;
  }

  /** The turn of a send whose first write takes nothing: an error breaks the connection, a full socket keeps
    * the send waiting, and either breaks it once nothing has been taken for 60 seconds. */
  lemma NothingTaken(cipher: Cipher, client: Client, x: Send, now: int, socket: Socket)
    requires WellFormed(x) && !client.invalid && (client.sending.None? || client.sending.value == x.serial)
    requires !(x.encrypt && socket.cipherFails) && x.ofs < |OnTheWire(cipher, client, x)|
    requires !socket.write(0).Took? || socket.write(0).count == 0
    ensures Ending(cipher, client, x, now, socket)
         == if client.blockedSince.Some? && now - client.blockedSince.value >= 60 then Broken(x.ofs, TimedOut)
            else if socket.write(0) == WriteError then Broken(x.ofs, WriteFailed)
            else Short(x.ofs)
  {
    hide OnTheWire;
  }

  // ----- sockets that take everything -----

  ghost predicate TakesAll(socket: Socket) {
    !socket.cipherFails && forall k :: socket.write(k).Took? && socket.write(k).count > 0
  }

  ghost predicate AllTake(sockets: nat -> Socket) {
    forall i :: TakesAll(sockets(i))
  }

  lemma {:induction false} TakenWhole(left: nat, socket: Socket, k: nat)
    requires TakesAll(socket)
    ensures Taken(left, socket.write, k) == left
    decreases left
  {
    if left > 0 {
      TakenWhole(left - AtMost(socket.write(k).count, left), socket, k + 1);
    }
  }

  /** The first send of the list is not held up by a latch: it goes, to the socket or with its client. */
  lemma HeadGoes(cipher: Cipher, clients: map<Ptr, Client>, wires: map<Ptr, Wire>, q: Lists, now: int, sockets: nat -> Socket,
                 i: nat, clientsAfter: map<Ptr, Client>, wiresAfter: map<Ptr, Wire>, after: Lists, outcome: Outcome)
    requires AllTake(sockets) && Inv(cipher, clients, wires, q) && q.pos == 0
    requires Visited(cipher, clients, wires, q, now, clientsAfter, wiresAfter, after, outcome) && WellFormed(q.sends[0])
    requires outcome == Ending(cipher, clients[q.sends[0].client], q.sends[0], now, sockets(i))
    ensures after.pos == 0
  {
    hide Served, OnTheWire, Put, Taken, Fails, SerialsBelow, SendsOf, AllSound, Passed, TakesAll;
    var x := q.sends[0];
    var client := clients[x.client];
    assert TakesAll(sockets(i));
    TakesIt(sockets(i));
    var size := |OnTheWire(cipher, client, x)|;
    TakenWhole(if x.ofs < size then size - x.ofs else 0, sockets(i), 0);
    if !client.invalid && client.sending.Some? {
      var at :| LatchedAt(q.sends, x.client, client.sending.value, at);
      assert at == 0;
    }
    PutTwice(q, x);
  }

  lemma TakesIt(socket: Socket)
    requires TakesAll(socket)
    ensures !socket.cipherFails
  {
  }

  // ----- the shard -----

  class Shard {
    const cipher: Cipher
    var clients: map<Ptr, Client>
    var sends: seq<Send>
    var pending: seq<Send>
    ghost var wires: map<Ptr, Wire>
    var pos: nat
    var next: nat

    ghost function Queues(): Lists
      reads this
    {
      Lists(sends, pending, pos, next)
    }

    ghost predicate Valid()
      reads this
    {
      Inv(cipher, clients, wires, Queues())
    }

    constructor (cipher: Cipher)
      ensures Valid() && clients == map[] && this.cipher == cipher
    {
      this.cipher := cipher;
      clients, wires, sends, pending, pos, next := map[], map[], [], [], 0, 0;
    }

    /** A newly accepted client of this shard. */
    method Admit(c: Ptr)
      requires Valid() && c !in clients
      modifies this`clients, this`wires
      ensures Valid()
      ensures clients == old(clients)[c := Client(false, None, 0, None, 0)] && wires == old(wires)[c := Wire([], [])]
    {
      hide Inv;
      AdmittedInv(cipher, clients, wires, Queues(), c);
      clients := clients[c := Client(false, None, 0, None, 0)];
      wires := wires[c := Wire([], [])];
    }

    /** The locked part of `queue_sender_send`; `over` asks for the client to be dropped. */
    method QueueSend(c: Ptr, buf: seq<Byte>, encrypt: bool, limit: int) returns (over: bool)
      requires Valid() && c in clients
      modifies this`clients, this`wires, this`pending, this`next
      ensures Valid() && c in old(wires)
      ensures clients == old(clients)[c := old(clients)[c].(queuedBytes := old(clients)[c].queuedBytes + |buf|)]
      ensures wires == old(wires)[c := old(wires)[c].(log := old(wires)[c].log + [Message(buf, encrypt)])]
      ensures pending == old(pending) + [Send(old(next), c, buf, 0, |buf|, encrypt)] && next == old(next) + 1
      ensures over <==> clients[c].queuedBytes > limit && !clients[c].invalid
    {
      hide Inv;
      var x := Send(next, c, buf, 0, |buf|, encrypt);
      QueuedInv(cipher, clients, wires, Queues(), x);
      clients := clients[c := clients[c].(queuedBytes := clients[c].queuedBytes + x.qlen)];
      wires := wires[c := wires[c].(log := wires[c].log + [Message(buf, encrypt)])];
      pending, next := pending + [x], next + 1;
      over := clients[c].queuedBytes > limit && !clients[c].invalid;
    }

    /** Any thread drops the client. */
    method Drop(c: Ptr)
      requires Valid() && c in clients
      modifies this`clients
      ensures Valid() && clients == old(clients)[c := old(clients)[c].(invalid := true)]
    {
      hide Inv;
      DroppedInv(cipher, clients, wires, Queues(), c);
      clients := clients[c := clients[c].(invalid := true)];
    }

    /** The end of a pass of `sender`: what was queued meanwhile joins the list. */
    method Splice()
      requires Valid() && pos == |sends|
      modifies this`sends, this`pending, this`pos
      ensures Valid() && sends == old(sends + pending) && pending == [] && pos == 0
    {
      hide Inv;
      SplicedInv(cipher, clients, wires, Queues());
      sends, pending, pos := sends + pending, [], 0;
    }

    /** The write loop of `send_sender_send`, on a socket that answers its writes like this. */
    method WriteOut(x: Send, since: Option<int>, now: int, write: nat -> Answer)
      returns (y: Send, verdict: Verdict, blocked: Option<int>)
      requires WellFormed(x)
      ensures y == x.(ofs := y.ofs) && y.ofs == x.ofs + Taken(|x.buf| - x.ofs, write, 0) <= |x.buf|
      ensures verdict == Done <==> y.ofs == |x.buf|
      ensures verdict == Done ==> blocked == if x.ofs < |x.buf| then None else since
      ensures verdict == Again ==> blocked == if y.ofs > x.ofs || since.None? then Some(now) else since
      ensures verdict == Expired <==> y.ofs == x.ofs < |x.buf| && Overdue(since, now)
      ensures verdict == Failed <==> Fails(|x.buf| - x.ofs, write, 0) && !(y.ofs == x.ofs && Overdue(since, now))
      ensures InTime(verdict, x.ofs, y.ofs, since, now)
    {
      y, blocked := x, since;
      var k := 0;
      while y.ofs < |y.buf|
        invariant y == x.(ofs := y.ofs) && x.ofs <= y.ofs <= |x.buf|
        invariant blocked == if y.ofs > x.ofs then None else since
        invariant y.ofs + Taken(|x.buf| - y.ofs, write, k) == x.ofs + Taken(|x.buf| - x.ofs, write, 0)
        invariant Fails(|x.buf| - y.ofs, write, k) <==> Fails(|x.buf| - x.ofs, write, 0)
        decreases |y.buf| - y.ofs
      {
        var answer := write(k);
        var ret := if answer.Took? then AtMost(answer.count, |y.buf| - y.ofs) else -1;
        if ret < 1 {
          if blocked.Some? && now - blocked.value >= BLOCKED_LIMIT {
            return y, Expired, blocked;
          }
          if answer.WouldBlock? || ret == 0 {
            blocked := if blocked.None? then Some(now) else blocked;
            return y, Again, blocked;
          }
          return y, Failed, blocked;
        }
        y := y.(ofs := y.ofs + ret);
        blocked := None;
        k := k + 1;
      }
      verdict := Done;
    }

    /** `clear_sender_send` and the removal from the list; the clamp at zero has nothing to do. */
    method Clear()
      requires Valid() && pos < |sends|
      requires var x := sends[pos]; var c := x.client;
               && c in clients && c in wires && WellFormed(x)
               && (clients[c].invalid || (x.ofs == |x.buf| && !x.encrypt && forall i :: 0 <= i < pos ==> sends[i].client != c))
      modifies this`clients, this`sends
      ensures Valid() && sends == Put(old(Queues()), []).sends
      ensures var x := old(sends)[pos]; clients == old(clients)[x.client := ClearedOf(old(clients)[x.client], x)]
    {
      hide Inv;
      var x := sends[pos];
      var c := x.client;
      ClearedInv(cipher, clients, wires, Queues());
      var left := clients[c].queuedBytes - x.qlen;
      if left < 0 {
        left := 0;
      }
      clients := clients[c := clients[c].(sending := None, queuedBytes := left)];
      assert sends[..pos] + [] + sends[pos + 1..] == sends[..pos] + sends[pos + 1..];
      sends := sends[..pos] + sends[pos + 1..];
    }

    /** The latch, the encryption and the write of a send whose turn it is. */
    method Attempt(now: int, write: nat -> Answer) returns (verdict: Verdict, y: Send)
      requires Valid() && pos < |sends|
      requires var x := sends[pos]; var c := x.client;
               && c in clients && c in wires && WellFormed(x) && !clients[c].invalid
               && (forall i :: 0 <= i < pos ==> sends[i].client != c)
      modifies this`clients, this`wires, this`sends
      ensures Valid() && sends == Put(old(Queues()), [y]).sends
      ensures Attempted(cipher, old(clients), old(wires), old(sends)[pos], now, verdict, y, clients, wires)
      ensures Answered(old(clients)[y.client].blockedSince, old(sends)[pos], y, now, write, verdict)
    {
      hide Inv, Taken, Fails, Overdue, InTime;
      var x := sends[pos];
      var c := x.client;
      var buf, nonce := x.buf, clients[c].nonce;
      if x.encrypt {
        buf, nonce := cipher(c, nonce, x.buf), nonce + 1;
      }
      var blocked;
      y, verdict, blocked := WriteOut(x.(buf := buf, encrypt := false), clients[c].blockedSince, now, write);
      WroteInv(cipher, clients, wires, Queues(), y, blocked);
      clients := clients[c := clients[c].(sending := Some(x.serial), blockedSince := blocked, nonce := nonce)];
      wires := wires[c := Wire(wires[c].written + y.buf[x.ofs..y.ofs], wires[c].log)];
      sends := sends[..pos] + [y] + sends[pos + 1..];
    }

    /** `send_sender_send` for the next send of the pass, and what the loop does with its answer. */
    method Visit(now: int, socket: Socket) returns (outcome: Outcome)
      requires Valid() && pos < |sends|
      modifies this`clients, this`wires, this`sends, this`pos
      ensures Valid()
      ensures Visited(cipher, old(clients), old(wires), old(Queues()), now, clients, wires, Queues(), outcome)
      ensures var x := old(sends)[old(pos)];
              WellFormed(x) && outcome == Ending(cipher, old(clients)[x.client], x, now, socket)
    {
      hide Inv;
      var x := sends[pos];
      var c := x.client;
      Member();
      if clients[c].invalid {
        Clear();
        return Gone;
      }
      if clients[c].sending.Some? && clients[c].sending.value != x.serial {
        SkippedInv(cipher, clients, wires, Queues());
        pos := pos + 1;
        return Waits;
      }
      First();
      if x.encrypt && socket.cipherFails {
        Drop(c);
        Clear();
        return Broken(x.ofs, CipherFailed);
      }
      outcome := Serve(now, socket);
    }

    /** The turn of a send: its bytes go out, as far as the socket takes them. */
    method Serve(now: int, socket: Socket) returns (outcome: Outcome)
      requires Valid() && pos < |sends|
      requires var x := sends[pos]; var c := x.client;
               && c in clients && c in wires && WellFormed(x) && !clients[c].invalid
               && (clients[c].sending.None? || clients[c].sending.value == x.serial)
               && (forall i :: 0 <= i < pos ==> sends[i].client != c) && !(x.encrypt && socket.cipherFails)
      modifies this`clients, this`wires, this`sends, this`pos
      ensures Valid()
      ensures Visited(cipher, old(clients), old(wires), old(Queues()), now, clients, wires, Queues(), outcome)
      ensures var x := old(sends)[old(pos)];
              WellFormed(x) && outcome == Ending(cipher, old(clients)[x.client], x, now, socket)
    {
      hide Inv, Visited, Put, OnTheWire, Count, BlockedFrom, InTime, Answered, Ending;
      ghost var was, wiresWere, q := clients, wires, Queues();
      var verdict, y := Attempt(now, socket.write);
      AttemptEnds(cipher, was[y.client], q.sends[q.pos], y, now, socket, verdict);
      PutTwice(q, y);
      AttemptServes(cipher, was, wiresWere, q, now, verdict, y, clients, wires);
      ghost var after := clients[y.client];
      match verdict {
        case Done =>
          Clear();
          assert clients == was[y.client := ClearedOf(after, y)];
          return Sent;
        case Again =>
          SkippedInv(cipher, clients, wires, Queues());
          pos := pos + 1;
          return Short(y.ofs);
        case _ =>
          Drop(y.client);
          Clear();
          assert clients == was[y.client := ClearedOf(after.(invalid := true), y)];
          return Broken(y.ofs, if verdict == Expired then TimedOut else WriteFailed);
      }
    }

    lemma Member()
      requires Valid() && pos < |sends|
      ensures sends[pos].client in clients && sends[pos].client in wires && WellFormed(sends[pos])
    {
      assert (sends + pending)[pos] == sends[pos];
    }

    lemma First()
      requires Valid() && pos < |sends| && sends[pos].client in clients
      requires var client := clients[sends[pos].client];
               !client.invalid && (client.sending.None? || client.sending.value == sends[pos].serial)
      ensures forall i :: 0 <= i < pos ==> sends[i].client != sends[pos].client
    {
      Joined(sends, pending, clients, next);
      FirstOfClient(clients, sends, pos, next);
    }

    /** One pass of the sender over its list, its visits meeting with these sockets. If all of them take what
      * they are offered, nothing of the list is left. */
    method Pass(now: int, sockets: nat -> Socket)
      requires Valid() && pos == 0
      modifies this`clients, this`wires, this`sends, this`pending, this`pos
      ensures Valid() && pos == 0 && pending == []
      ensures Onward(old(clients), old(wires), clients, wires, set x | x in old(sends) :: x.client)
      ensures |sends| >= |old(pending)| && sends[|sends| - |old(pending)|..] == old(pending)
      ensures AllTake(sockets) ==> sends == old(pending)
    {
      hide Inv, Onward, Visited, AllTake;
      var visits := 0;
      ghost var who := set x | x in sends :: x.client;
      OnwardStarts(clients, wires, who);
      while pos < |sends|
        invariant Valid() && pending == old(pending)
        invariant Onward(old(clients), old(wires), clients, wires, who) && Concerns(sends, who)
        invariant AllTake(sockets) ==> pos == 0
        decreases |sends| - pos
      {
        ghost var was, wiresWere, q := clients, wires, Queues();
        var outcome := Visit(now, sockets(visits));
        if AllTake(sockets) {
          HeadGoes(cipher, was, wiresWere, q, now, sockets, visits, clients, wires, Queues(), outcome);
        }
        visits := visits + 1;
        OnwardNext(cipher, old(clients), old(wires), was, wiresWere, q, now, clients, wires, Queues(), outcome, who);
        Shorter(cipher, was, wiresWere, q, now, clients, wires, Queues(), outcome);
      }
      Ended();
      Splice();
    }

    lemma Ended()
      requires Valid()
      ensures pos <= |sends|
    {
    }
  }
}
