/** One sender shard of the connector (`src/connector.c`): its list of pending sends, the latch
  * that keeps one message of a client on the wire at a time, short writes, and the account of
  * queued bytes. Queueing and dropping by other threads may come between any two visits of the
  * shard's own thread to its list.
  */
module SendQueue {
  import opened Basics

  type Ptr = nat

  const BLOCKED_LIMIT := 60

  // A message as it is queued: plain text to be encrypted, or bytes to send as they are.
  datatype Message = Message(bytes: seq<Byte>, encrypt: bool)

  /** `sender_send`: buf[ofs..] is still to be written. */
  datatype Send = Send(serial: nat, client: Ptr, buf: seq<Byte>, ofs: nat, qlen: nat, encrypt: bool)

  // The sending side of a client; `nonce` counts the texts its cipher has encrypted.
  datatype Client = Client(invalid: bool, sending: Option<nat>, queuedBytes: int, blockedSince: Option<int>, nonce: nat)

  // All a client's socket has taken, and all that was queued for it.
  datatype Wire = Wire(written: seq<Byte>, log: seq<Message>)

  // A client's cipher: what its k-th plain text is sent as.
  type Cipher = (Ptr, nat, seq<Byte>) -> seq<Byte>

  // ----- what goes over the wire -----

  /** The messages of client c, each as it is sent, in the order they were queued. */
  function Stream(cipher: Cipher, c: Ptr, log: seq<Message>): seq<Byte> {
    if log == [] then []
    else
      var last := log[|log| - 1];
      var before := log[..|log| - 1];
      Stream(cipher, c, before) + if last.encrypt then cipher(c, Encryptions(before), last.bytes) else last.bytes
  }

  function Encryptions(log: seq<Message>): nat {
    if log == [] then 0 else Encryptions(log[..|log| - 1]) + if log[|log| - 1].encrypt then 1 else 0
  }

  predicate WellFormed(x: Send) {
    x.ofs <= |x.buf| && (x.encrypt ==> x.ofs == 0)
  }

  /** What the sends of client c in a list still have to put on the wire, with k texts encrypted. */
  function Left(cipher: Cipher, c: Ptr, list: seq<Send>, k: nat): seq<Byte> {
    if list == [] then []
    else
      var x := list[0];
      if x.client != c then Left(cipher, c, list[1..], k)
      else if x.encrypt then cipher(c, k, x.buf) + Left(cipher, c, list[1..], k + 1)
      else x.buf[if x.ofs <= |x.buf| then x.ofs else 0..] + Left(cipher, c, list[1..], k)
  }

  function ToEncrypt(c: Ptr, list: seq<Send>): nat {
    if list == [] then 0
    else (if list[0].client == c && list[0].encrypt then 1 else 0) + ToEncrypt(c, list[1..])
  }

  function Queued(c: Ptr, list: seq<Send>): nat {
    if list == [] then 0
    else (if list[0].client == c then list[0].qlen else 0) + Queued(c, list[1..])
  }

  lemma {:induction false} LeftSum(cipher: Cipher, c: Ptr, a: seq<Send>, b: seq<Send>, k: nat)
    ensures Left(cipher, c, a + b, k) == Left(cipher, c, a, k) + Left(cipher, c, b, k + ToEncrypt(c, a))
    decreases |a|
  {
    if a == [] {
      assert a + b == b;
    } else {
      LeftSum(cipher, c, a[1..], b, if a[0].client == c && a[0].encrypt then k + 1 else k);
      assert (a + b)[1..] == a[1..] + b && (a + b)[0] == a[0];
    }
  }

  lemma {:induction false} CountSum(c: Ptr, a: seq<Send>, b: seq<Send>)
    ensures ToEncrypt(c, a + b) == ToEncrypt(c, a) + ToEncrypt(c, b)
    ensures Queued(c, a + b) == Queued(c, a) + Queued(c, b)
    decreases |a|
  {
    if a == [] {
      assert a + b == b;
    } else {
      CountSum(c, a[1..], b);
      assert (a + b)[1..] == a[1..] + b && (a + b)[0] == a[0];
    }
  }

  lemma ListSum(cipher: Cipher, c: Ptr, a: seq<Send>, b: seq<Send>, k: nat)
    ensures Left(cipher, c, a + b, k) == Left(cipher, c, a, k) + Left(cipher, c, b, k + ToEncrypt(c, a))
    ensures ToEncrypt(c, a + b) == ToEncrypt(c, a) + ToEncrypt(c, b)
    ensures Queued(c, a + b) == Queued(c, a) + Queued(c, b)
  {
    LeftSum(cipher, c, a, b, k);
    CountSum(c, a, b);
  }

  lemma {:induction false} NoneOf(cipher: Cipher, c: Ptr, list: seq<Send>, k: nat)
    requires forall i :: 0 <= i < |list| ==> list[i].client != c
    ensures Left(cipher, c, list, k) == [] && ToEncrypt(c, list) == 0 && Queued(c, list) == 0
  {
    if list != [] {
      NoneOf(cipher, c, list[1..], k);
    }
  }

  lemma OneOf(cipher: Cipher, c: Ptr, x: Send, k: nat)
    requires WellFormed(x)
    ensures Left(cipher, c, [x], k) == if x.client != c then [] else if x.encrypt then cipher(c, k, x.buf) else x.buf[x.ofs..]
    ensures ToEncrypt(c, [x]) == if x.client == c && x.encrypt then 1 else 0
    ensures Queued(c, [x]) == if x.client == c then x.qlen else 0
  {
    assert [x][1..] == [];
  }

  /** Around one send: the list before it, the send, and the list behind it. */
  lemma Around(cipher: Cipher, c: Ptr, a: seq<Send>, x: Send, b: seq<Send>, k: nat)
    requires WellFormed(x)
    ensures Left(cipher, c, a + [x] + b, k) == Left(cipher, c, a, k) + Left(cipher, c, [x], k + ToEncrypt(c, a))
                                             + Left(cipher, c, b, k + ToEncrypt(c, a) + ToEncrypt(c, [x]))
    ensures ToEncrypt(c, a + [x] + b) == ToEncrypt(c, a) + ToEncrypt(c, [x]) + ToEncrypt(c, b)
    ensures Queued(c, a + [x] + b) == Queued(c, a) + Queued(c, [x]) + Queued(c, b)
  {
    hide Left, ToEncrypt, Queued;
    ListSum(cipher, c, a + [x], b, k);
    ListSum(cipher, c, a, [x], k);
  }

  // ----- the books of a client -----

  /** Bytes written and bytes left make up all messages queued, in queue order and each encrypted
    * once; a dropped client has had a prefix of them. The account is the sum of what is queued. */
  ghost predicate Sound(cipher: Cipher, c: Ptr, client: Client, wire: Wire, list: seq<Send>) {
    && client.queuedBytes == Queued(c, list)
    && (!client.invalid ==> wire.written + Left(cipher, c, list, client.nonce) == Stream(cipher, c, wire.log))
    && (!client.invalid ==> Encryptions(wire.log) == client.nonce + ToEncrypt(c, list))
    && wire.written <= Stream(cipher, c, wire.log)
  }

  /** A send of another client may change or go without consequence for c. */
  lemma OthersSound(cipher: Cipher, c: Ptr, client: Client, wire: Wire, a: seq<Send>, x: Send, y: seq<Send>, b: seq<Send>)
    requires Sound(cipher, c, client, wire, a + [x] + b)
    requires WellFormed(x) && x.client != c && |y| <= 1 && (y != [] ==> WellFormed(y[0]) && y[0].client != c)
    ensures Sound(cipher, c, client, wire, a + y + b)
  {
    hide Left, ToEncrypt, Queued, Stream, Encryptions, WellFormed;
    var k := client.nonce;
    Around(cipher, c, a, x, b, k);
    OneOf(cipher, c, x, k + ToEncrypt(c, a));
    if y == [] {
      assert a + y + b == a + b;
      ListSum(cipher, c, a, b, k);
    } else {
      assert y == [y[0]];
      Around(cipher, c, a, y[0], b, k);
      OneOf(cipher, c, y[0], k + ToEncrypt(c, a));
    }
  }

  /** The first send of c is encrypted in place. */
  lemma EncryptedSound(cipher: Cipher, c: Ptr, client: Client, wire: Wire, a: seq<Send>, x: Send, b: seq<Send>)
    requires Sound(cipher, c, client, wire, a + [x] + b) && !client.invalid && x.encrypt
    requires WellFormed(x) && x.client == c && forall i :: 0 <= i < |a| ==> a[i].client != c
    ensures Sound(cipher, c, client.(nonce := client.nonce + 1), wire,
                  a + [x.(buf := cipher(c, client.nonce, x.buf), encrypt := false)] + b)
  {
    hide Left, ToEncrypt, Queued, Stream, Encryptions;
    var k := client.nonce;
    var y := x.(buf := cipher(c, k, x.buf), encrypt := false);
    NoneOf(cipher, c, a, k);
    Around(cipher, c, a, x, b, k);
    OneOf(cipher, c, x, k);
    NoneOf(cipher, c, a, k + 1);
    Around(cipher, c, a, y, b, k + 1);
    OneOf(cipher, c, y, k + 1);
  }

  /** The first send of c puts some of its bytes on the wire. */
  lemma WroteSound(cipher: Cipher, c: Ptr, client: Client, wire: Wire, a: seq<Send>, x: Send, y: Send, b: seq<Send>)
    requires Sound(cipher, c, client, wire, a + [x] + b) && !client.invalid && !x.encrypt
    requires WellFormed(x) && x.client == c && forall i :: 0 <= i < |a| ==> a[i].client != c
    requires y == x.(ofs := y.ofs) && x.ofs <= y.ofs <= |x.buf|
    ensures Sound(cipher, c, client, Wire(wire.written + x.buf[x.ofs..y.ofs], wire.log), a + [y] + b)
  {
    hide Left, ToEncrypt, Queued, Stream, Encryptions;
    var k := client.nonce;
    NoneOf(cipher, c, a, k);
    Around(cipher, c, a, x, b, k);
    OneOf(cipher, c, x, k);
    Around(cipher, c, a, y, b, k);
    OneOf(cipher, c, y, k);
    Regroup(wire.written, x.buf, x.ofs, y.ofs, Left(cipher, c, b, k));
  }

  lemma Regroup(written: seq<Byte>, buf: seq<Byte>, i: nat, j: nat, tail: seq<Byte>)
    requires i <= j <= |buf|
    ensures written + ([] + buf[i..] + tail) == written + buf[i..j] + ([] + buf[j..] + tail)
    ensures written + buf[i..j] <= written + buf[i..j] + ([] + buf[j..] + tail)
  {
    assert buf[i..] == buf[i..j] + buf[j..];
  }

  /** A send of c goes: one that is all written, or any if the client is dropped. */
  lemma ClearedSound(cipher: Cipher, c: Ptr, client: Client, wire: Wire, a: seq<Send>, x: Send, b: seq<Send>)
    requires Sound(cipher, c, client, wire, a + [x] + b) && WellFormed(x) && x.client == c
    requires client.invalid || (x.ofs == |x.buf| && !x.encrypt)
    ensures client.queuedBytes >= x.qlen
    ensures Sound(cipher, c, client.(queuedBytes := client.queuedBytes - x.qlen), wire, a + b)
  {
    hide Left, ToEncrypt, Queued, Stream, Encryptions;
    var k := client.nonce;
    Around(cipher, c, a, x, b, k);
    OneOf(cipher, c, x, k + ToEncrypt(c, a));
    ListSum(cipher, c, a, b, k);
  }

  lemma DroppedSound(cipher: Cipher, c: Ptr, client: Client, wire: Wire, list: seq<Send>)
    requires Sound(cipher, c, client, wire, list)
    ensures Sound(cipher, c, client.(invalid := true), wire, list)
  {
  }

  lemma QueuedSound(cipher: Cipher, c: Ptr, client: Client, wire: Wire, list: seq<Send>, x: Send)
    requires Sound(cipher, c, client, wire, list) && WellFormed(x) && x.client == c && x.ofs == 0
    ensures Sound(cipher, c, client.(queuedBytes := client.queuedBytes + x.qlen),
                  wire.(log := wire.log + [Message(x.buf, x.encrypt)]), list + [x])
  {
    hide Left, ToEncrypt, Queued, Stream, Encryptions;
    var k := client.nonce;
    ListSum(cipher, c, list, [x], k);
    OneOf(cipher, c, x, k + ToEncrypt(c, list));
    var m := Message(x.buf, x.encrypt);
    var log := wire.log + [m];
    StreamGrows(cipher, c, wire.log, m);
    var tail := Left(cipher, c, [x], k + ToEncrypt(c, list));
    assert x.buf[0..] == x.buf;
    if !client.invalid {
      assert wire.written + (Left(cipher, c, list, k) + tail) == wire.written + Left(cipher, c, list, k) + tail;
    }
  }

  lemma StreamGrows(cipher: Cipher, c: Ptr, log: seq<Message>, m: Message)
    ensures Stream(cipher, c, log + [m]) == Stream(cipher, c, log) + if m.encrypt then cipher(c, Encryptions(log), m.bytes) else m.bytes
    ensures Encryptions(log + [m]) == Encryptions(log) + if m.encrypt then 1 else 0
  {
    assert (log + [m])[..|log|] == log;
  }

  lemma OthersQueued(cipher: Cipher, c: Ptr, client: Client, wire: Wire, list: seq<Send>, x: Send)
    requires Sound(cipher, c, client, wire, list) && WellFormed(x) && x.client != c
    ensures Sound(cipher, c, client, wire, list + [x])
  {
    hide Left, ToEncrypt, Queued, Stream, Encryptions;
    ListSum(cipher, c, list, [x], client.nonce);
    OneOf(cipher, c, x, client.nonce + ToEncrypt(c, list));
  }

  // ----- the shard -----

  ghost predicate SerialsBelow(list: seq<Send>, next: nat) {
    && (forall i :: 0 <= i < |list| ==> list[i].serial < next)
    && (forall i, j :: 0 <= i < j < |list| ==> list[i].serial != list[j].serial)
  }

  ghost predicate SendsOf(list: seq<Send>, clients: map<Ptr, Client>) {
    forall i :: 0 <= i < |list| ==> list[i].client in clients && WellFormed(list[i])
  }

  /** The latch names the first send of its client. */
  ghost predicate Latched(clients: map<Ptr, Client>, sends: seq<Send>) {
    forall c :: c in clients && clients[c].sending.Some? && !clients[c].invalid ==>
                  exists i :: LatchedAt(sends, c, clients[c].sending.value, i)
  }

  ghost predicate LatchedAt(sends: seq<Send>, c: Ptr, serial: nat, i: nat) {
    i < |sends| && sends[i].client == c && sends[i].serial == serial && forall j :: 0 <= j < i ==> sends[j].client != c
  }

  ghost predicate Blocked(clients: map<Ptr, Client>, c: Ptr) {
    c in clients && (clients[c].invalid || clients[c].sending.Some?)
  }

  /** What the current pass has gone past stays behind a latch or belongs to a dropped client. */
  ghost predicate Passed(clients: map<Ptr, Client>, sends: seq<Send>, pos: nat) {
    && pos <= |sends|
    && forall i :: 0 <= i < pos ==> Blocked(clients, sends[i].client)
  }

  ghost predicate AllSound(cipher: Cipher, clients: map<Ptr, Client>, wires: map<Ptr, Wire>, list: seq<Send>) {
    && wires.Keys == clients.Keys
    && forall c :: c in clients ==> Sound(cipher, c, clients[c], wires[c], list)
  }

  lemma FirstOfClient(clients: map<Ptr, Client>, sends: seq<Send>, pos: nat, next: nat)
    requires SerialsBelow(sends, next) && SendsOf(sends, clients) && Latched(clients, sends) && Passed(clients, sends, pos)
    requires pos < |sends|
    requires var client := clients[sends[pos].client];
             !client.invalid && (client.sending.None? || client.sending.value == sends[pos].serial)
    ensures forall i :: 0 <= i < pos ==> sends[i].client != sends[pos].client
  {
    var c := sends[pos].client;
    if clients[c].sending.Some? {
      var i :| LatchedAt(sends, c, clients[c].sending.value, i);
    }
  }
}
