/** Lines read from an upstream socket (`read_socket_line` in `src/ckpool.c`): one buffer that
  * grows by pages, and two offsets whose meaning depends on whether a line was handed out last.
  */
module SocketLines {
  import opened Basics
  import opened LineFraming

  const MAX_SOCKBUF := 64 * 1024 * 1024
  const READ_SIZE := PAGESIZE - 4

  /** The lines of s and what is behind the last newline. */
  function Lines(s: seq<Byte>): seq<seq<Byte>>
    decreases |s|
  {
    var n := FirstNewline(s);
    if n == |s| then [] else [s[..n]] + Lines(s[n + 1..])
  }

  /** Lines put together again. */
  function Joined(lines: seq<seq<Byte>>): seq<Byte> {
    if lines == [] then [] else Joined(lines[..|lines| - 1]) + lines[|lines| - 1] + [NL]
  }

  ghost predicate Unbroken(lines: seq<seq<Byte>>) {
    forall i :: 0 <= i < |lines| ==> NL !in lines[i]
  }

  lemma {:induction false} JoinedCons(line: seq<Byte>, lines: seq<seq<Byte>>)
    ensures Joined([line] + lines) == line + [NL] + Joined(lines)
    decreases |lines|
  {
    if lines == [] {
      assert [line] + lines == [line] && [line][..0] == [];
      assert Joined([line]) == [] + line + [NL];
    } else {
      var n := |lines| - 1;
      JoinedCons(line, lines[..n]);
      assert ([line] + lines)[..n + 1] == [line] + lines[..n];
      var a, b, c := line + [NL], Joined(lines[..n]), lines[n];
      assert a + b + c + [NL] == a + (b + c + [NL]);
    }
  }

  /** Lines without a newline, joined, are the newline split of any stream they begin. */
  lemma {:induction false} JoinIsSplit(lines: seq<seq<Byte>>, rest: seq<Byte>)
    requires Unbroken(lines)
    ensures Lines(Joined(lines) + rest) == lines + Lines(rest)
    decreases |lines|
  {
    hide FirstNewline, Lines, Joined, Unbroken;
    if lines == [] {
      JoinedNone();
      assert [] + rest == rest && lines + Lines(rest) == Lines(rest);
    } else {
      var line, later := lines[0], lines[1..];
      assert lines == [line] + later;
      UnbrokenCons(line, later);
      JoinedCons(line, later);
      var tail := Joined(later) + rest;
      assert Joined(lines) + rest == line + [NL] + tail;
      LinesCons(line, tail);
      JoinIsSplit(later, rest);
      assert [line] + (later + Lines(rest)) == lines + Lines(rest);
    }
  }

  lemma JoinedNone()
    ensures Joined([]) == []
  {
  }

  lemma UnbrokenCons(line: seq<Byte>, lines: seq<seq<Byte>>)
    ensures Unbroken([line] + lines) ==> NL !in line && Unbroken(lines)
  {
    if Unbroken([line] + lines) {
      assert ([line] + lines)[0] == line;
      assert forall i :: 0 <= i < |lines| ==> ([line] + lines)[i + 1] == lines[i];
    }
  }

  lemma LinesCons(line: seq<Byte>, tail: seq<Byte>)
    requires NL !in line
    ensures Lines(line + [NL] + tail) == [line] + Lines(tail)
  {
    hide FirstNewline;
    var s := line + [NL] + tail;
    assert forall i :: 0 <= i < |line| ==> s[i] == line[i];
    FirstNewlineIs(s, |line|);
    assert s[..|line|] == line && s[|line| + 1..] == tail;
  }

  /** The first line of what is pending joins the lines before it. */
  lemma LineTaken(lines: seq<seq<Byte>>, pending: seq<Byte>, n: nat)
    requires Unbroken(lines) && n == FirstNewline(pending) && n < |pending|
    ensures Unbroken(lines + [pending[..n]])
    ensures Joined(lines) + pending == Joined(lines + [pending[..n]]) + pending[n + 1..]
  {
    hide Joined;
    var line := pending[..n];
    assert pending == line + [NL] + pending[n + 1..];
    JoinedSnoc(lines, line);
    assert Joined(lines) + pending == Joined(lines) + line + [NL] + pending[n + 1..];
  }

  lemma JoinedSnoc(lines: seq<seq<Byte>>, line: seq<Byte>)
    ensures Joined(lines + [line]) == Joined(lines) + line + [NL]
  {
    assert (lines + [line])[..|lines|] == lines;
  }

  function RoundUpPage(n: nat): (r: nat)
    ensures n <= r < n + PAGESIZE && r % PAGESIZE == 0
  {
    if n % PAGESIZE == 0 then n else n + (PAGESIZE - n % PAGESIZE)
  }

  // ----- what the socket says -----

  /** What one wait of `read_socket_line` meets with: a descriptor that is gone, a timeout that is spent, the
    * answer of select, and then what each recv brings, nothing being the end of what is there now. */
  datatype Wait = Wait(closed: bool, expired: bool, select: int, recv: nat -> seq<Byte>)

  /** A recv brings no more than it is asked for. */
  ghost predicate Bounded(recv: nat -> seq<Byte>) {
    forall k :: |recv(k)| <= READ_SIZE
  }

  ghost predicate AllBounded(waits: nat -> Wait) {
    forall i :: Bounded(waits(i).recv)
  }

  /** All that is there now, from the k-th recv on, unless that is more than there is room for. */
  function Burst(recv: nat -> seq<Byte>, k: nat, room: nat): (r: Option<seq<Byte>>)
    ensures r.Some? ==> |r.value| <= room
    decreases room
  {
    if recv(k) == [] then Some([])
    else if |recv(k)| > room then None
    else
      Behind(recv(k), Burst(recv, k + 1, room - |recv(k)|))
  }

  /** More behind what is there already. */
  function Behind(got: seq<Byte>, more: Option<seq<Byte>>): Option<seq<Byte>> {
    if more.None? then None else Some(got + more.value)
  }

  /** Room left in the largest buffer, with its closing NUL. */
  function RoomFor(pending: seq<Byte>): nat {
    if |pending| + 1 > MAX_SOCKBUF then 0 else MAX_SOCKBUF - 1 - |pending|
  }

  /** A newline has come, or the wait is over without one, or the connection is. */
  datatype Heard = Line(pending: seq<Byte>) | Silence(pending: seq<Byte>) | Broken

  /** What waiting for a newline comes to, from the i-th wait on. */
  function Hear(waits: nat -> Wait, i: nat, pending: seq<Byte>): (h: Heard)
    ensures !h.Broken? ==> pending <= h.pending && (h.Line? <==> NL in h.pending)
    decreases RoomFor(pending)
  {
    if NL in pending then Line(pending)
    else
      var w := waits(i);
      if w.closed then Broken
      else if w.expired then Silence(pending)
      else if w.select < 1 then if w.select < 0 then Broken else Silence(pending)
      else
        var got := Burst(w.recv, 0, RoomFor(pending));
        if got.None? || got.value == [] then Broken else Hear(waits, i + 1, pending + got.value)
  }

  /** What a call comes to: first all that is there, then the waits. */
  function HearAll(recv: nat -> seq<Byte>, waits: nat -> Wait, pending: seq<Byte>): Heard {
    var got := Burst(recv, 0, RoomFor(pending));
    if got.None? then Broken else Hear(waits, 0, pending + got.value)
  }

  lemma BurstStep(recv: nat -> seq<Byte>, k: nat, room: nat)
    ensures recv(k) == [] ==> Burst(recv, k, room) == Some([])
    ensures recv(k) != [] && |recv(k)| > room ==> Burst(recv, k, room) == None
    ensures recv(k) != [] && |recv(k)| <= room ==>
              Burst(recv, k, room) == Behind(recv(k), Burst(recv, k + 1, room - |recv(k)|))
  {
  }

  /** What comes in pieces is all there, if there is room for it. */
  lemma {:induction false} PiecesGathered(recv: nat -> seq<Byte>, k: nat, n: nat, room: nat, pieces: seq<seq<Byte>>)
    requires k + |pieces| == n && recv(n) == []
    requires forall i :: 0 <= i < |pieces| ==> recv(k + i) == pieces[i] != []
    ensures Burst(recv, k, room) == if |Flatten(pieces)| <= room then Some(Flatten(pieces)) else None
    decreases |pieces|
  {
    hide Burst;
    BurstStep(recv, k, room);
    if pieces != [] {
      FlattenFirst(pieces);
      assert recv(k + 0) == pieces[0];
      if |pieces[0]| <= room {
        forall i | 0 <= i < |pieces| - 1 ensures recv(k + 1 + i) == pieces[1..][i] != [] {
          assert recv(k + (i + 1)) == pieces[i + 1];
        }
        PiecesGathered(recv, k + 1, n, room - |pieces[0]|, pieces[1..]);
      }
    }
  }

  /** From the i-th wait on, the connection stays and each wait brings one of these, none of them empty, and
    * room is left for all of them. */
  ghost predicate Brings(waits: nat -> Wait, i: nat, pending: seq<Byte>, gets: seq<seq<Byte>>)
    decreases |gets|
  {
    gets == [] ||
    (&& !waits(i).closed && !waits(i).expired && waits(i).select >= 1 && gets[0] != []
     && Burst(waits(i).recv, 0, RoomFor(pending)) == Some(gets[0])
     && Brings(waits, i + 1, pending + gets[0], gets[1..]))
  }

  /** A line is heard as soon as its newline is there, and no sooner. */
  lemma {:induction false} LineIsHeard(waits: nat -> Wait, i: nat, pending: seq<Byte>, gets: seq<seq<Byte>>)
    requires Brings(waits, i, pending, gets)
    requires gets != [] ==> NL in gets[|gets| - 1]
    requires gets == [] ==> NL in pending
    requires gets != [] ==> NL !in pending && forall k :: 0 <= k < |gets| - 1 ==> NL !in gets[k]
    ensures Hear(waits, i, pending) == Line(pending + Flatten(gets))
    decreases |gets|
  {
    hide Burst, Hear, RoomFor;
    HearStep(waits, i, pending);
    if gets == [] {
      assert pending + [] == pending;
    } else {
      FlattenFirst(gets);
      assert pending + Flatten(gets) == pending + gets[0] + Flatten(gets[1..]);
      if |gets| == 1 {
        assert gets[1..] == [] && pending + gets[0] + [] == pending + gets[0];
        HearStep(waits, i + 1, pending + gets[0]);
      } else {
        LineIsHeard(waits, i + 1, pending + gets[0], gets[1..]);
      }
    }
  }

  lemma HearStep(waits: nat -> Wait, i: nat, pending: seq<Byte>)
    ensures NL in pending ==> Hear(waits, i, pending) == Line(pending)
    ensures NL !in pending ==>
              var w := waits(i);
              var got := Burst(w.recv, 0, RoomFor(pending));
              Hear(waits, i, pending) ==
                if w.closed then Broken
                else if w.expired then Silence(pending)
                else if w.select < 1 then if w.select < 0 then Broken else Silence(pending)
                else if got.None? || got.value == [] then Broken
                else Hear(waits, i + 1, pending + got.value)
  {
    hide Burst;
  }

  class ConnSock {
    var buf: array?<Byte>
    var bufofs: nat
    var buflen: nat
    ghost var stream: seq<Byte>
    ghost var lines: seq<seq<Byte>>

    /** Room for what is buffered and for a closing NUL. */
    ghost predicate Fits()
      reads this, buf
    {
      && (buf == null ==> bufofs == 0 && buflen == 0)
      && (buf != null ==> bufofs + buflen < buf.Length <= MAX_SOCKBUF)
    }

    /** The bytes not handed out yet. */
    ghost function Pending(): seq<Byte>
      requires Fits()
      reads this, buf
    {
      if buf == null then [] else if buflen > 0 then buf[bufofs..bufofs + buflen] else buf[..bufofs]
    }

    ghost predicate Valid()
      reads this, buf
    {
      Fits() && Unbroken(lines) && stream == Joined(lines) + Pending()
    }

    constructor ()
      ensures Valid() && stream == [] && lines == []
    {
      buf, bufofs, buflen, stream, lines := null, 0, 0, [], [];
    }

    /** `clear_bufline`: what is pending moves to the front. */
    method ClearBufline()
      requires Fits()
      modifies this`buf, this`bufofs, this`buflen, buf
      ensures Fits() && buf != null && (buf == old(buf) || fresh(buf)) && buflen == 0
      ensures Pending() == old(Pending())
    {
      if buf == null {
        buf := new Byte[PAGESIZE](_ => 0);
        assert buf[..bufofs] == [];
      } else if buflen > 0 {
        ghost var pending := Pending();
        forall k | 0 <= k < buflen {
          buf[k] := buf[k + bufofs];
        }
        assert buf[..buflen] == pending;
        forall k | buflen <= k < buflen + bufofs {
          buf[k] := 0;
        }
        assert buf[..buflen] == pending;
        bufofs := buflen;
        buflen := 0;
        buf[bufofs] := 0;
        assert buf[..bufofs] == pending;
      }
    }

    /** `add_buflen`. */
    method AddBuflen(chunk: seq<Byte>) returns (ok: bool)
      requires Fits() && buf != null && buflen == 0 && |chunk| <= READ_SIZE
      modifies this`buf, this`bufofs, buf
      ensures Fits() && buf != null && (buf == old(buf) || fresh(buf))
      ensures ok <==> old(bufofs) + |chunk| + 1 <= MAX_SOCKBUF
      ensures Pending() == if ok then old(Pending()) + chunk else old(Pending())
      ensures bufofs == if ok then old(bufofs) + |chunk| else old(bufofs)
    {
      if bufofs + |chunk| + 1 > MAX_SOCKBUF {
        return false;
      }
      var size := RoundUpPage(bufofs + |chunk| + 1);
      if buf.Length < size {
        Grow(size);
      }
      Store(chunk);
      ok := true;
    }

    method Store(chunk: seq<Byte>)
      requires buf != null && bufofs + |chunk| < buf.Length
      modifies this`bufofs, buf
      ensures bufofs == old(bufofs) + |chunk| && buf[..bufofs] == old(buf[..bufofs]) + chunk
    {
      ghost var before := buf[..bufofs];
      forall k | 0 <= k < |chunk| {
        buf[bufofs + k] := chunk[k];
      }
      bufofs := bufofs + |chunk|;
      buf[bufofs] := 0;
      assert buf[..bufofs] == before + chunk;
    }

    /** realloc. */
    method Grow(size: nat)
      requires buf != null && bufofs < buf.Length < size <= MAX_SOCKBUF
      modifies this`buf
      ensures buf != null && fresh(buf) && buf.Length == size && buf[..bufofs] == old(buf[..bufofs])
    {
      var grown := new Byte[size](_ => 0);
      forall k | 0 <= k < buf.Length {
        grown[k] := buf[k];
      }
      assert grown[..bufofs] == buf[..bufofs];
      buf := grown;
    }

    /** `recv_available`: all the socket has now, unless that is too much. */
    method RecvAvailable(recv: nat -> seq<Byte>) returns (len: int, ghost got: seq<Byte>)
      requires Fits() && buf != null && buflen == 0 && Bounded(recv)
      modifies this`buf, this`bufofs, buf
      ensures Fits() && buf != null && (buf == old(buf) || fresh(buf))
      ensures var burst := Burst(recv, 0, RoomFor(old(Pending())));
              (len < 0 <==> burst.None?) && (burst.Some? ==> got == burst.value)
      ensures len < 0 || len == |got|
      ensures Pending() == old(Pending()) + got && bufofs == old(bufofs) + |got|
    {
      hide Burst;
      len, got := 0, [];
      var k := 0;
      ghost var room := RoomFor(Pending());
      assert Pending() + got == Pending();
      BehindNothing(Burst(recv, 0, room));
      while true
        invariant Fits() && buf != null && (buf == old(buf) || fresh(buf)) && buflen == 0
        invariant len == |got| && Pending() == old(Pending()) + got && bufofs == old(bufofs) + |got|
        invariant |got| <= room == RoomFor(old(Pending()))
        invariant Burst(recv, 0, room) == Behind(got, Burst(recv, k, room - |got|))
        decreases MAX_SOCKBUF - bufofs
      {
        var chunk := recv(k);
        BurstStep(recv, k, room - |got|);
        if chunk == [] {
          assert got + [] == got;
          return;
        }
        var ok := AddBuflen(chunk);
        if !ok {
          len := -1;
          return;
        }
        assert old(Pending()) + got + chunk == old(Pending()) + (got + chunk);
        Chunked(recv, k, room - |got|, got);
        got, len, k := got + chunk, len + |chunk|, k + 1;
      }
    }

    /** memchr over what is buffered. */
    method FindEol() returns (n: nat)
      requires Fits() && buf != null && buflen == 0
      ensures n == FirstNewline(Pending()) && n <= bufofs
    {
      hide FirstNewline;
      n := 0;
      while n < bufofs && buf[n] != NL
        invariant n <= bufofs && forall i :: 0 <= i < n ==> buf[i] != NL
      {
        n := n + 1;
      }
      FirstNewlineIs(Pending(), n);
    }

    /** `empty_buffer` and the release of the buffer, after an error. */
    method Reset()
      modifies this
      ensures Valid() && stream == [] && lines == []
    {
      buf, bufofs, buflen, stream, lines := null, 0, 0, [], [];
    }

    /** The line up to the newline at n is handed out in place. */
    method TakeLine(n: nat)
      requires Valid() && buf != null && buflen == 0 && n == FirstNewline(Pending()) && n < bufofs
      modifies this`bufofs, this`buflen, this`lines, buf
      ensures Valid() && stream == old(stream) && lines == old(lines) + [old(Pending())[..n]]
      ensures Pending() == old(Pending())[n + 1..]
      ensures n < buf.Length && buf[..n] == old(Pending())[..n] && buf[n] == 0
    {
      hide Joined, Unbroken, FirstNewline;
      ghost var pending := Pending();
      LineTaken(lines, pending, n);
      buflen := bufofs - n - 1;
      bufofs := if buflen > 0 then n + 1 else 0;
      buf[n] := 0;
      assert Pending() == pending[n + 1..];
      assert buf[..n] == pending[..n];
      lines := lines + [pending[..n]];
    }

    /** A buffer that starts with what is pending. */
    ghost predicate Ready()
      reads this, buf
    {
      Valid() && buf != null && buflen == 0
    }

    /** What the socket has now joins the stream, or ends it. */
    method Receive(recv: nat -> seq<Byte>) returns (len: int)
      requires Ready() && Bounded(recv)
      modifies this`buf, this`bufofs, this`stream, buf
      ensures Fits() && (buf == old(buf) || fresh(buf))
      ensures var burst := Burst(recv, 0, RoomFor(old(Pending())));
              && (len < 0 <==> burst.None?)
              && (burst.Some? ==>
                    && Ready() && len == |burst.value| && bufofs == old(bufofs) + len
                    && Pending() == old(Pending()) + burst.value)
    {
      hide Joined, Unbroken, Burst;
      ghost var got;
      len, got := RecvAvailable(recv);
      if len >= 0 {
        assert stream + got == Joined(lines) + Pending();
        stream := stream + got;
      }
    }

    /** The wait for a newline: what is read, until there is one, or there will not be. */
    method Await(waits: nat -> Wait) returns (ret: int, n: nat)
      requires Ready() && AllBounded(waits)
      modifies this`buf, this`bufofs, this`stream, buf
      ensures Fits() && (buf == old(buf) || fresh(buf))
      ensures var heard := Hear(waits, 0, old(Pending()));
              && (ret < 0 <==> heard.Broken?) && (ret > 0 <==> heard.Line?)
              && (ret >= 0 ==> Ready() && Pending() == heard.pending && n == FirstNewline(Pending()))
    {
      hide FirstNewline, Joined, Unbroken, Burst, Hear, RoomFor;
      var i := 0;
      n := FindEol();
      HasNewline(Pending());
      HearStep(waits, i, Pending());
      while n == bufofs
        invariant Ready() && (buf == old(buf) || fresh(buf)) && n == FirstNewline(Pending()) && n <= bufofs
        invariant n < bufofs <==> NL in Pending()
        invariant Hear(waits, i, Pending()) == Hear(waits, 0, old(Pending()))
        decreases MAX_SOCKBUF - bufofs
      {
        HearStep(waits, i, Pending());
        var w := waits(i);
        if w.closed {
          return -1, n;
        }
        if w.expired {
          return 0, n;
        }
        ret := w.select;
        if ret < 1 {
          return;
        }
        assert Bounded(w.recv);
        var len := Receive(w.recv);
        if len < 1 {
          return -1, n;
        }
        n := FindEol();
        HasNewline(Pending());
        i := i + 1;
      }
      HearStep(waits, i, Pending());
      ret := 1;
    }

    /** Both reads of `read_socket_line`. */
    method Fill(recv: nat -> seq<Byte>, waits: nat -> Wait) returns (ret: int, n: nat)
      requires Ready() && Bounded(recv) && AllBounded(waits)
      modifies this`buf, this`bufofs, this`stream, buf
      ensures var heard := HearAll(recv, waits, old(Pending()));
              && (ret < 0 <==> heard.Broken?) && (ret > 0 <==> heard.Line?)
              && (ret >= 0 ==>
                    Ready() && (buf == old(buf) || fresh(buf)) && Pending() == heard.pending && n == FirstNewline(Pending()))
    {
      hide FirstNewline, Joined, Unbroken, Burst, Hear, RoomFor;
      n := 0;
      ret := Receive(recv);
      if ret >= 0 {
        ret, n := Await(waits);
      }
    }

    /** `read_socket_line`. `got` tells an empty line from none, which `ret` alone does not. What comes of it
      * is what the socket says: all it has joins what is pending, until there is a line to hand out. */
    method ReadSocketLine(recv: nat -> seq<Byte>, waits: nat -> Wait) returns (ret: int, ghost got: bool)
      requires Valid() && Bounded(recv) && AllBounded(waits)
      modifies this, buf
      ensures Valid()
      ensures var heard := HearAll(recv, waits, old(Pending()));
              && (ret < 0 <==> heard.Broken?) && (got <==> heard.Line?)
              && (heard.Line? ==>
                    var n := FirstNewline(heard.pending);
                    n < |heard.pending| && lines == old(lines) + [heard.pending[..n]] && Pending() == heard.pending[n + 1..])
              && (heard.Silence? ==> ret == 0 && lines == old(lines) && Pending() == heard.pending && NL !in Pending())
              && (!heard.Broken? ==>
                    old(Pending()) <= heard.pending && stream == old(stream) + heard.pending[|old(Pending())|..])
      ensures ret < 0 ==> stream == [] && lines == []
      ensures got ==> buf != null && 0 <= ret < buf.Length && buf[..ret] == lines[|old(lines)|] && buf[ret] == 0
    {
      hide FirstNewline, Joined, Unbroken, HearAll;
      got := false;
      ghost var was := Pending();
      HeardGrows(recv, waits, was);
      ClearBufline();
      var n;
      ret, n := Fill(recv, waits);
      if ret < 0 {
        Reset();
        return;
      }
      HasNewline(Pending());
      StreamGrows(old(stream), lines, was, Pending());
      if ret > 0 {
        ret, got := n, true;
        TakeLine(n);
      }
    }
  }

  lemma HeardGrows(recv: nat -> seq<Byte>, waits: nat -> Wait, pending: seq<Byte>)
    ensures var h := HearAll(recv, waits, pending);
            !h.Broken? ==> pending <= h.pending && (h.Line? <==> NL in h.pending)
  {
    hide Burst, RoomFor, Hear;
  }

  lemma StreamGrows(stream: seq<Byte>, lines: seq<seq<Byte>>, was: seq<Byte>, pending: seq<Byte>)
    requires stream == Joined(lines) + was && was <= pending
    ensures Joined(lines) + pending == stream + pending[|was|..]
  {
    hide Joined;
    assert pending == was + pending[|was|..];
  }

  lemma BehindNothing(more: Option<seq<Byte>>)
    ensures Behind([], more) == more
  {
    assert more.Some? ==> [] + more.value == more.value;
  }

  lemma Chunked(recv: nat -> seq<Byte>, k: nat, room: nat, got: seq<Byte>)
    requires recv(k) != [] && |recv(k)| <= room
    ensures Behind(got, Burst(recv, k, room)) == Behind(got + recv(k), Burst(recv, k + 1, room - |recv(k)|))
  {
    hide Burst;
    BurstStep(recv, k, room);
    var rest := Burst(recv, k + 1, room - |recv(k)|);
    if rest.Some? {
      assert got + (recv(k) + rest.value) == got + recv(k) + rest.value;
    }
  }

  lemma HasNewline(s: seq<Byte>)
    ensures FirstNewline(s) < |s| <==> NL in s
  {
  }
}
