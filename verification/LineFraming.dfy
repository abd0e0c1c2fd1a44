/** Newline framing of the miner connections of `src/connector.c` (`parse_client_msg`): what is
  * read does not depend on how the bytes arrive in pieces.
  */
module LineFraming {
  import opened Basics

  const NL: Byte := 10

  const MAX_MSGSIZE := 1024
  const PAGESIZE := 4096

  // ---------------------------------------------------------------- specification

  /** Where the first newline of s is, or |s|. */
  function FirstNewline(s: seq<Byte>): (n: nat)
    ensures n <= |s| && (n < |s| ==> s[n] == NL) && forall i :: 0 <= i < n ==> s[i] != NL
  {
    if s == [] || s[0] == NL then 0 else 1 + FirstNewline(s[1..])
  }

  lemma FirstNewlineIs(s: seq<Byte>, n: nat)
    requires n <= |s| && (n < |s| ==> s[n] == NL) && forall i :: 0 <= i < n ==> s[i] != NL
    ensures FirstNewline(s) == n
  {
  }

  /** What a stream of bytes amounts to: the messages dispatched, the bytes still waiting for
    * their newline, and whether the connection is kept. */
  datatype Framing = Framing(messages: seq<seq<Byte>>, rest: seq<Byte>, alive: bool)

  /** The newline split of s up to the first line that is too long or not valid.  An
    * unfinished line that is too long already ends the connection as well. */
  function Frame(valid: seq<Byte> -> bool, s: seq<Byte>): Framing
    decreases |s|
  {
    var n := FirstNewline(s);
    if n == |s| then Framing([], s, |s| <= MAX_MSGSIZE)
    else if n + 1 > MAX_MSGSIZE || !valid(s[..n + 1]) then Framing([], s, false)
    else var later := Frame(valid, s[n + 1..]);
         later.(messages := [s[..n + 1]] + later.messages)
  }

  function Prepend(messages: seq<seq<Byte>>, f: Framing): Framing {
    f.(messages := messages + f.messages)
  }

  /** The definition of Frame, one line at a time. */
  lemma FrameStep(valid: seq<Byte> -> bool, s: seq<Byte>, n: nat)
    requires n == FirstNewline(s)
    ensures n == |s| ==> Frame(valid, s) == Framing([], s, |s| <= MAX_MSGSIZE)
    ensures n < |s| && (n + 1 > MAX_MSGSIZE || !valid(s[..n + 1])) ==> Frame(valid, s) == Framing([], s, false)
    ensures n < |s| && n + 1 <= MAX_MSGSIZE && valid(s[..n + 1]) ==>
              Frame(valid, s) == Prepend([s[..n + 1]], Frame(valid, s[n + 1..]))
  {
    hide FirstNewline;
  }

  lemma NewlineOfSum(s: seq<Byte>, t: seq<Byte>)
    ensures FirstNewline(s) < |s| ==> FirstNewline(s + t) == FirstNewline(s)
    ensures FirstNewline(s) == |s| ==> FirstNewline(s + t) >= |s|
  {
    var n := FirstNewline(s);
    if n < |s| {
      FirstNewlineIs(s + t, n);
    } else {
      assert forall i :: 0 <= i < |s| ==> (s + t)[i] == s[i];
    }
  }

  /** What framing s and then t behind its rest amounts to. */
  ghost predicate SplitsAt(valid: seq<Byte> -> bool, s: seq<Byte>, t: seq<Byte>) {
    var a, whole := Frame(valid, s), Frame(valid, s + t);
    if a.alive then whole == Prepend(a.messages, Frame(valid, a.rest + t))
    else whole.messages == a.messages && !whole.alive
  }

  /** Framing a stream in two parts is framing it in one, whether the cut falls between lines
    * or inside one, and nothing after the end of a connection changes what it dispatched. */
  lemma {:induction false} FrameSplit(valid: seq<Byte> -> bool, s: seq<Byte>, t: seq<Byte>)
    ensures SplitsAt(valid, s, t)
    decreases |s|
  {
    hide Frame, FirstNewline;
    var n, m := FirstNewline(s), FirstNewline(s + t);
    NewlineOfSum(s, t);
    FrameStep(valid, s, n);
    FrameStep(valid, s + t, m);
    if n < |s| {
      var line, tail := s[..n + 1], s[n + 1..];
      assert (s + t)[..n + 1] == line && (s + t)[n + 1..] == tail + t;
      if n + 1 <= MAX_MSGSIZE && valid(line) {
        FrameSplit(valid, tail, t);
        var a := Frame(valid, tail);
        assert [line] + (a.messages + Frame(valid, a.rest + t).messages)
            == [line] + a.messages + Frame(valid, a.rest + t).messages;
      }
    } else if |s| <= MAX_MSGSIZE {
      assert [] + Frame(valid, s + t).messages == Frame(valid, s + t).messages;
    }
  }

  /** A line as a miner may send it: it ends in its only newline, is at most 1024 bytes long with it, and is
    * valid. */
  predicate GoodLine(valid: seq<Byte> -> bool, line: seq<Byte>) {
    && 1 <= |line| <= 1024 && line[|line| - 1] == NL && (forall i :: 0 <= i < |line| - 1 ==> line[i] != NL)
    && valid(line)
  }

  lemma LineFirst(line: seq<Byte>, more: seq<Byte>)
    requires line != [] && line[|line| - 1] == NL && forall i :: 0 <= i < |line| - 1 ==> line[i] != NL
    ensures FirstNewline(line + more) == |line| - 1
    ensures (line + more)[..|line|] == line && (line + more)[|line|..] == more
  {
    FirstNewlineIs(line + more, |line| - 1);
  }

  /** Good lines are dispatched as they are, and what is behind them is framed by itself. */
  lemma {:induction false} GoodLinesPass(valid: seq<Byte> -> bool, lines: seq<seq<Byte>>, more: seq<Byte>)
    requires forall line :: line in lines ==> GoodLine(valid, line)
    ensures Frame(valid, Flatten(lines) + more) == Prepend(lines, Frame(valid, more))
    decreases |lines|
  {
    hide Frame, FirstNewline, GoodLine;
    if lines == [] {
      assert Flatten(lines) + more == more;
      assert [] + Frame(valid, more).messages == Frame(valid, more).messages;
    } else {
      var n := |lines| - 1;
      var line := lines[n];
      GoodLinesPass(valid, lines[..n], line + more);
      assert Flatten(lines) + more == Flatten(lines[..n]) + (line + more);
      assert GoodLine(valid, lines[n]);
      OneGoodLine(valid, line, more);
      var later := Frame(valid, more).messages;
      assert lines[..n] + ([line] + later) == lines + later;
    }
  }

  lemma OneGoodLine(valid: seq<Byte> -> bool, line: seq<Byte>, more: seq<Byte>)
    requires GoodLine(valid, line)
    ensures Frame(valid, line + more) == Prepend([line], Frame(valid, more))
  {
    hide Frame, FirstNewline;
    LineFirst(line, more);
    FrameStep(valid, line + more, |line| - 1);
  }

  /** So a stream of good lines is kept as long as it likes, an unfinished line of up to 1024 bytes waiting
    * behind them; a longer one, or a line that is not good, ends it there, whatever comes after. */
  lemma StreamOfLines(valid: seq<Byte> -> bool, lines: seq<seq<Byte>>, rest: seq<Byte>, more: seq<Byte>)
    requires forall line :: line in lines ==> GoodLine(valid, line)
    ensures NL !in rest ==>
              Frame(valid, Flatten(lines) + rest) == Framing(lines, rest, |rest| <= 1024)
    ensures rest != [] && rest[|rest| - 1] == NL && (forall i :: 0 <= i < |rest| - 1 ==> rest[i] != NL)
            && !GoodLine(valid, rest) ==>
              var f := Frame(valid, Flatten(lines) + (rest + more)); f.messages == lines && !f.alive
  {
    hide Frame, FirstNewline;
    if NL !in rest {
      GoodLinesPass(valid, lines, rest);
      FirstNewlineIs(rest, |rest|);
      FrameStep(valid, rest, |rest|);
      assert lines + [] == lines;
    }
    if rest != [] && rest[|rest| - 1] == NL && (forall i :: 0 <= i < |rest| - 1 ==> rest[i] != NL) && !GoodLine(valid, rest) {
      GoodLinesPass(valid, lines, rest + more);
      LineFirst(rest, more);
      FrameStep(valid, rest + more, |rest| - 1);
      assert lines + [] == lines;
    }
  }

  // ---------------------------------------------------------------- miner connections

  /** The connection is as the framing f of its bytes says. */
  ghost predicate Framed(dispatched: seq<seq<Byte>>, alive: bool, buf: array<Byte>, bufofs: nat, f: Framing)
    reads buf
  {
    && alive == f.alive && dispatched == f.messages
    && (alive ==> bufofs <= MAX_MSGSIZE && bufofs <= buf.Length && buf[..bufofs] == f.rest)
  }

  lemma IsFramed(dispatched: seq<seq<Byte>>, alive: bool, buf: array<Byte>, bufofs: nat, f: Framing)
    requires bufofs <= buf.Length && f == Prepend(dispatched, Framing([], buf[..bufofs], alive))
    requires alive ==> bufofs <= MAX_MSGSIZE
    ensures Framed(dispatched, alive, buf, bufofs, f)
  {
  }

  lemma PrependTwice(sent: seq<seq<Byte>>, line: seq<Byte>, f: Framing)
    ensures Prepend(sent, Prepend([line], f)) == Prepend(sent + [line], f)
  {
    assert sent + ([line] + f.messages) == sent + [line] + f.messages;
  }

  /** A connected miner: the receive buffer and its fill level.  `stream` is all that has been
    * read from the socket, `dispatched` all that has been handed to the stratifier. */
  class Client {
    const valid: seq<Byte> -> bool
    const buf: array<Byte>
    var bufofs: nat
    var alive: bool
    var dispatched: seq<seq<Byte>>
    ghost var stream: seq<Byte>

    ghost predicate Valid()
      reads this, buf
    {
      && buf.Length == PAGESIZE
      && Framed(dispatched, alive, buf, bufofs, Frame(valid, stream))
    }

    constructor (valid: seq<Byte> -> bool)
      ensures Valid() && fresh(buf) && stream == [] && this.valid == valid
    {
      this.valid := valid;
      buf := new Byte[PAGESIZE];
      bufofs, alive, dispatched := 0, true, [];
      stream := [];
    }

    /** The non-blocking read: up to MAX_MSGSIZE bytes behind what is buffered, and a NUL. */
    method Fill(chunk: seq<Byte>)
      requires bufofs <= MAX_MSGSIZE && |chunk| <= MAX_MSGSIZE && buf.Length == PAGESIZE
      modifies this`bufofs, buf
      ensures bufofs == old(bufofs) + |chunk|
      ensures buf[..bufofs] == old(buf[..bufofs]) + chunk
    {
      forall k | 0 <= k < |chunk| {
        buf[bufofs + k] := chunk[k];
      }
      ghost var before := old(buf[..bufofs]);
      bufofs := bufofs + |chunk|;
      buf[bufofs] := 0;
      assert buf[..bufofs] == before + chunk;
    }

    /** memchr over the filled part. */
    method FindNewline() returns (n: nat)
      requires bufofs <= buf.Length
      ensures n == FirstNewline(buf[..bufofs])
    {
      n := 0;
      while n < bufofs && buf[n] != NL
        invariant n <= bufofs && forall i :: 0 <= i < n ==> buf[i] != NL
      {
        n := n + 1;
      }
      FirstNewlineIs(buf[..bufofs], n);
    }

    /** memmove the bytes behind a dispatched line to the front. */
    method Shift(n: nat)
      requires n <= bufofs < buf.Length
      modifies this`bufofs, buf
      ensures bufofs == old(bufofs) - n
      ensures buf[..bufofs] == old(buf[n..bufofs])
    {
      bufofs := bufofs - n;
      ghost var tail := old(buf[n..bufofs]);
      forall k | 0 <= k < bufofs {
        buf[k] := buf[k + n];
      }
      assert buf[..bufofs] == tail;
      buf[bufofs] := 0;
      assert buf[..bufofs] == tail;
    }

    /** The `reparse` loop and the overload check behind it: whatever is in the buffer is
      * framed, line by line, in place. */
    method Reparse()
      requires buf.Length == PAGESIZE && bufofs <= 2 * MAX_MSGSIZE && alive
      modifies this`bufofs, this`alive, this`dispatched, buf
      ensures Framed(dispatched, alive, buf, bufofs, Prepend(old(dispatched), Frame(valid, old(buf[..bufofs]))))
    {
      hide Frame, FirstNewline, Framed;
      ghost var all := Prepend(dispatched, Frame(valid, buf[..bufofs]));
      while true
        invariant bufofs <= 2 * MAX_MSGSIZE && alive
        invariant Prepend(dispatched, Frame(valid, buf[..bufofs])) == all
        decreases bufofs
      {
        ghost var now := buf[..bufofs];
        var n := FindNewline();
        FrameStep(valid, now, n);
        if n == bufofs {
          if bufofs > MAX_MSGSIZE {
            alive := false;
          }
          IsFramed(dispatched, alive, buf, bufofs, all);
          return;
        }
        var line := buf[..n + 1];
        assert now[..n + 1] == line;
        if n + 1 > MAX_MSGSIZE || !valid(line) {
          alive := false;
          IsFramed(dispatched, alive, buf, bufofs, all);
          return;
        }
        assert now[n + 1..] == buf[n + 1..bufofs];
        PrependTwice(dispatched, line, Frame(valid, now[n + 1..]));
        dispatched := dispatched + [line];
        Shift(n + 1);
      }
    }

    /** One successful read of `parse_client_msg` and all that follows from it. */
    method Receive(chunk: seq<Byte>)
      requires Valid() && alive && |chunk| <= MAX_MSGSIZE
      modifies this, buf
      ensures Valid() && stream == old(stream) + chunk
    {
      FrameSplit(valid, stream, chunk);
      Fill(chunk);
      Reparse();
      stream := stream + chunk;
    }
  }

  lemma {:induction false} FlattenSplit(chunks: seq<seq<Byte>>, i: nat)
    requires i <= |chunks|
    ensures exists later :: Flatten(chunks) == Flatten(chunks[..i]) + later
    decreases |chunks|
  {
    if i < |chunks| {
      FlattenSplit(chunks[..|chunks| - 1], i);
      assert chunks[..|chunks| - 1][..i] == chunks[..i];
      var later :| Flatten(chunks[..|chunks| - 1]) == Flatten(chunks[..i]) + later;
      assert Flatten(chunks) == Flatten(chunks[..i]) + (later + chunks[|chunks| - 1]);
    } else {
      assert chunks[..i] == chunks;
      assert Flatten(chunks) == Flatten(chunks) + [];
    }
  }

  /** Two miners that send the same bytes have the same messages dispatched and the same fate,
    * whatever pieces the bytes are read in. */
  method ReceiveAll(valid: seq<Byte> -> bool, chunks: seq<seq<Byte>>) returns (messages: seq<seq<Byte>>, alive: bool)
    requires forall i :: 0 <= i < |chunks| ==> |chunks[i]| <= MAX_MSGSIZE
    ensures messages == Frame(valid, Flatten(chunks)).messages
    ensures alive == Frame(valid, Flatten(chunks)).alive
  {
    var client := new Client(valid);
    for i := 0 to |chunks|
      invariant client.Valid() && fresh(client) && fresh(client.buf) && client.alive && client.valid == valid
      invariant client.stream == Flatten(chunks[..i])
    {
      assert chunks[..i + 1][..i] == chunks[..i];
      client.Receive(chunks[i]);
      if !client.alive {
        FlattenSplit(chunks, i + 1);
        ghost var later :| Flatten(chunks) == Flatten(chunks[..i + 1]) + later;
        FrameSplit(valid, Flatten(chunks[..i + 1]), later);
        return client.dispatched, false;
      }
    }
    assert chunks[..|chunks|] == chunks;
    return client.dispatched, client.alive;
  }
}
