/** The resumable reading of share logs (`api/ckpool_api_server.go`): height directories, files
  * and lines are walked forward from a cursor, and the cursor returned is where the walk stopped.
  */
module ShareCursor {
  import opened Basics
  import opened CursorText
  import opened LineFraming

  type Name = string

  datatype File = File(name: Name, bytes: seq<Byte>)
  datatype Dir = Dir(name: Name, files: seq<File>)

  /** What a line is worth to the caller: nothing if it is blank, malformed or another user's. */
  type Parser<!R> = seq<Byte> -> Option<R>

  // ----- the stream of records -----

  function RecordOf<R>(parse: Parser<R>, line: seq<Byte>): seq<R> {
    var r := parse(line);
    if r.Some? then [r.value] else []
  }

  /** The records of the complete lines of b. */
  function Records<R>(parse: Parser<R>, b: seq<Byte>): seq<R>
    decreases |b|
  {
    var n := FirstNewline(b);
    if n == |b| then []
    else RecordOf(parse, b[..n + 1]) + Records(parse, b[n + 1..])
  }

  function RecordsOfFiles<R>(parse: Parser<R>, files: seq<File>): seq<R> {
    if files == [] then []
    else RecordsOfFiles(parse, files[..|files| - 1]) + Records(parse, files[|files| - 1].bytes)
  }

  function RecordsOfDirs<R>(parse: Parser<R>, dirs: seq<Dir>): seq<R> {
    if dirs == [] then []
    else RecordsOfDirs(parse, dirs[..|dirs| - 1]) + RecordsOfFiles(parse, dirs[|dirs| - 1].files)
  }

  ghost predicate AtLine(b: seq<Byte>, i: int) {
    0 <= i <= |b| && (i == 0 || b[i - 1] == NL)
  }

  lemma RecordsStep<R>(parse: Parser<R>, b: seq<Byte>, n: nat)
    requires n == FirstNewline(b)
    ensures n == |b| ==> Records(parse, b) == []
    ensures n < |b| ==> Records(parse, b) == RecordOf(parse, b[..n + 1]) + Records(parse, b[n + 1..])
  {
    hide FirstNewline, RecordOf;
  }

  /** A stream cut behind a newline loses nothing to the cut. */
  lemma {:induction false} RecordsSum<R>(parse: Parser<R>, a: seq<Byte>, b: seq<Byte>)
    requires AtLine(a, |a|)
    ensures Records(parse, a + b) == Records(parse, a) + Records(parse, b)
    decreases |a|
  {
    hide Records, RecordOf, FirstNewline;
    if a == [] {
      assert a + b == b;
      RecordsStep(parse, a, FirstNewline(a));
    } else {
      var n := FirstNewline(a);
      assert a[|a| - 1] == NL && n < |a|;
      FirstNewlineIs(a + b, n);
      RecordsStep(parse, a, n);
      RecordsStep(parse, a + b, n);
      assert (a + b)[..n + 1] == a[..n + 1] && (a + b)[n + 1..] == a[n + 1..] + b;
      RecordsSum(parse, a[n + 1..], b);
    }
  }

  lemma RecordsUpTo<R>(parse: Parser<R>, b: seq<Byte>, i: nat, j: nat)
    requires i <= j <= |b| && AtLine(b, i)
    ensures Records(parse, b[..j]) == Records(parse, b[..i]) + Records(parse, b[i..j])
  {
    hide Records;
    assert b[..j] == b[..i] + b[i..j];
    RecordsSum(parse, b[..i], b[i..j]);
  }

  /** The last n of a list, which is what a bootstrap read keeps. */
  function Last<R>(s: seq<R>, n: nat): seq<R> {
    if |s| <= n then s else s[|s| - n..]
  }

  lemma LastAppend<R>(s: seq<R>, r: R, n: nat)
    requires n > 0
    ensures Last(s + [r], n) == if |Last(s, n)| < n then Last(s, n) + [r] else Last(s, n)[1..] + [r]
  {
  }

  // ----- positions -----

  /** All records of the tree before a position: a file of a directory, and an offset in it. */
  function BeforeAt<R>(parse: Parser<R>, tree: seq<Dir>, di: nat, fi: nat, off: nat): seq<R>
    requires di < |tree| && fi <= |tree[di].files|
    requires fi < |tree[di].files| ==> off <= |tree[di].files[fi].bytes|
  {
    RecordsOfDirs(parse, tree[..di]) + RecordsOfFiles(parse, tree[di].files[..fi])
    + if fi < |tree[di].files| then Records(parse, tree[di].files[fi].bytes[..off]) else []
  }

  ghost predicate DistinctNames(tree: seq<Dir>) {
    && (forall i, j :: 0 <= i < j < |tree| ==> tree[i].name != tree[j].name)
    && forall d :: 0 <= d < |tree| ==> DistinctFiles(tree[d].files)
  }

  ghost predicate DistinctFiles(files: seq<File>) {
    && (forall i, j :: 0 <= i < j < |files| ==> files[i].name != files[j].name)
    && forall i :: 0 <= i < |files| ==> files[i].name != ""
  }

  /** The cursor stands at a line of a file of the tree, or at the start of a directory. */
  ghost predicate Stands(tree: seq<Dir>, c: Cursor, di: nat, fi: nat) {
    && di < |tree| && tree[di].name == c.dir && fi <= |tree[di].files|
    && (c.file == "" ==> fi == 0 && c.offset == 0)
    && (c.file != "" ==> fi < |tree[di].files| && tree[di].files[fi].name == c.file && AtLine(tree[di].files[fi].bytes, c.offset))
  }

  ghost predicate ValidCursor(tree: seq<Dir>, c: Cursor) {
    exists di, fi :: Stands(tree, c, di, fi)
  }

  /** All records before a cursor. */
  ghost function Before<R>(parse: Parser<R>, tree: seq<Dir>, c: Cursor): seq<R>
    requires ValidCursor(tree, c)
  {
    var di, fi :| Stands(tree, c, di, fi);
    BeforeAt(parse, tree, di, fi, c.offset)
  }

  lemma StandsOnce(tree: seq<Dir>, c: Cursor, di: nat, fi: nat, dj: nat, fj: nat)
    requires DistinctNames(tree) && Stands(tree, c, di, fi) && Stands(tree, c, dj, fj)
    ensures di == dj && fi == fj
  {
    assert DistinctFiles(tree[di].files);
  }

  lemma BeforeIs<R>(parse: Parser<R>, tree: seq<Dir>, c: Cursor, di: nat, fi: nat)
    requires DistinctNames(tree) && Stands(tree, c, di, fi)
    ensures ValidCursor(tree, c) && Before(parse, tree, c) == BeforeAt(parse, tree, di, fi, c.offset)
  {
    hide RecordsOfDirs, RecordsOfFiles, Records, DistinctNames;
    var dj, fj :| Stands(tree, c, dj, fj) && Before(parse, tree, c) == BeforeAt(parse, tree, dj, fj, c.offset);
    StandsOnce(tree, c, di, fi, dj, fj);
  }

  // ----- where a poll resumes -----

  /** The directory of the cursor is there, and so is its file, if it names one. */
  ghost predicate InTree(tree: seq<Dir>, c: Cursor) {
    exists d :: 0 <= d < |tree| && tree[d].name == c.dir && (c.file == "" || HasFile(tree[d], c.file))
  }

  predicate HasFile(dir: Dir, name: Name) {
    exists f :: 0 <= f < |dir.files| && dir.files[f].name == name
  }

  lemma StandingIsInTree(tree: seq<Dir>, c: Cursor)
    requires ValidCursor(tree, c)
    ensures InTree(tree, c)
  {
    var di: nat, fi: nat :| Stands(tree, c, di, fi);
    assert c.file != "" ==> tree[di].files[fi].name == c.file;
  }

  /** The order of names, character by character. */
  predicate Less(a: Name, b: Name) {
    b != [] && (a == [] || a[0] < b[0] || (a[0] == b[0] && Less(a[1..], b[1..])))
  }

  /** Directory i is the first that is not below a name, or the last of all. */
  ghost predicate FirstFrom(tree: seq<Dir>, name: Name, i: nat) {
    && i < |tree| && (forall j :: 0 <= j < i ==> Less(tree[j].name, name))
    && (Less(tree[i].name, name) ==> i == |tree| - 1)
  }

  /** `resolveCursorStart`: the cursor itself, or if its file is gone the start of a directory. */
  method ResolveStart(tree: seq<Dir>, c: Cursor) returns (start: Option<Cursor>)
    ensures InTree(tree, c) ==> start == Some(c)
    ensures !InTree(tree, c) && tree == [] ==> start == None
    ensures !InTree(tree, c) && tree != [] ==>
              exists i: nat :: FirstFrom(tree, c.dir, i) && start == Some(Cursor(tree[i].name, "", 0))
  {
    hide Less;
    var found := Stat(tree, c);
    if found {
      return Some(c);
    }
    for i := 0 to |tree|
      invariant forall j :: 0 <= j < i ==> Less(tree[j].name, c.dir)
    {
      if !Less(tree[i].name, c.dir) {
        assert FirstFrom(tree, c.dir, i);
        return Some(Cursor(tree[i].name, "", 0));
      }
    }
    if tree != [] {
      assert FirstFrom(tree, c.dir, |tree| - 1);
      return Some(Cursor(tree[|tree| - 1].name, "", 0));
    }
    return None;
  }

  method Stat(tree: seq<Dir>, c: Cursor) returns (found: bool)
    ensures found <==> InTree(tree, c)
  {
    for d := 0 to |tree|
      invariant forall k :: 0 <= k < d ==> !(tree[k].name == c.dir && (c.file == "" || HasFile(tree[k], c.file)))
    {
      if tree[d].name == c.dir && (c.file == "" || HasFile(tree[d], c.file)) {
        return true;
      }
    }
    return false;
  }

  /** A poll whose cursor has been pruned from the log starts behind nothing but directories below the
    * cursor's: it skips no record that a poll from the cursor could have delivered. */
  lemma PrunedSkipsNothing<R>(parse: Parser<R>, tree: seq<Dir>, c: Cursor, i: nat)
    requires DistinctNames(tree) && FirstFrom(tree, c.dir, i)
    ensures ValidCursor(tree, Cursor(tree[i].name, "", 0))
    ensures Before(parse, tree, Cursor(tree[i].name, "", 0)) == RecordsOfDirs(parse, tree[..i])
    ensures forall d :: d in tree[..i] ==> Less(d.name, c.dir)
  {
    hide RecordsOfDirs, Records, DistinctNames, Less;
    var start := Cursor(tree[i].name, "", 0);
    assert Stands(tree, start, i, 0);
    BeforeIs(parse, tree, start, i, 0);
    NoRecords(parse);
    assert tree[i].files[..0] == [];
    assert tree[i].files != [] ==> tree[i].files[0].bytes[..0] == [];
  }

  // ----- a log that grows -----

  /** Only the newest file grows; files are added behind it, and directories behind its directory. */
  ghost predicate Grows(a: seq<Dir>, b: seq<Dir>) {
    && |a| <= |b|
    && (forall i :: 0 <= i < |a| - 1 ==> b[i] == a[i])
    && (a != [] ==> b[|a| - 1].name == a[|a| - 1].name && FilesGrow(a[|a| - 1].files, b[|a| - 1].files))
  }

  ghost predicate FilesGrow(a: seq<File>, b: seq<File>) {
    && |a| <= |b|
    && (forall j :: 0 <= j < |a| - 1 ==> b[j] == a[j])
    && (a != [] ==> b[|a| - 1].name == a[|a| - 1].name && a[|a| - 1].bytes <= b[|a| - 1].bytes)
  }

  lemma GrownStands(a: seq<Dir>, b: seq<Dir>, c: Cursor, di: nat, fi: nat)
    requires Grows(a, b) && Stands(a, c, di, fi)
    ensures Stands(b, c, di, fi)
    ensures b[..di] == a[..di] && b[di].files[..fi] == a[di].files[..fi]
    ensures fi < |a[di].files| && c.file != "" ==> b[di].files[fi].bytes[..c.offset] == a[di].files[fi].bytes[..c.offset]
  {
    if di == |a| - 1 && c.file != "" {
      assert FilesGrow(a[di].files, b[di].files);
      if fi == |a[di].files| - 1 {
        assert a[di].files[fi].bytes <= b[di].files[fi].bytes;
      }
    }
  }

  /** What is before a cursor stays what it was while the log grows, and the cursor is still found
    * there: an idle cursor resumes without loss. */
  lemma BeforeIsStable<R>(parse: Parser<R>, a: seq<Dir>, b: seq<Dir>, c: Cursor)
    requires Grows(a, b) && ValidCursor(a, c) && DistinctNames(a) && DistinctNames(b)
    ensures ValidCursor(b, c) && Before(parse, b, c) == Before(parse, a, c)
    ensures InTree(b, c)
  {
    hide RecordsOfDirs, RecordsOfFiles, Grows, DistinctNames, Stands, InTree;
    var di, fi :| Stands(a, c, di, fi);
    GrownStands(a, b, c, di, fi);
    BeforeIs(parse, a, c, di, fi);
    BeforeIs(parse, b, c, di, fi);
    SameAtStart(parse, a, b, c, di, fi);
    StandingIsInTree(b, c);
  }

  lemma SameAtStart<R>(parse: Parser<R>, a: seq<Dir>, b: seq<Dir>, c: Cursor, di: nat, fi: nat)
    requires Stands(a, c, di, fi) && Stands(b, c, di, fi)
    requires b[..di] == a[..di] && b[di].files[..fi] == a[di].files[..fi]
    requires fi < |a[di].files| && c.file != "" ==> b[di].files[fi].bytes[..c.offset] == a[di].files[fi].bytes[..c.offset]
    ensures BeforeAt(parse, b, di, fi, c.offset) == BeforeAt(parse, a, di, fi, c.offset)
  {
    hide RecordsOfDirs, RecordsOfFiles, Records;
    if c.file == "" {
      NoRecords(parse);
      assert fi < |a[di].files| ==> a[di].files[fi].bytes[..0] == [];
      assert fi < |b[di].files| ==> b[di].files[fi].bytes[..0] == [];
    }
  }

  lemma NoRecords<R>(parse: Parser<R>)
    ensures Records(parse, []) == []
  {
  }

  // ----- polls -----

  /** What one forward poll promises: the batch is what lies between the two cursors. */
  ghost predicate Polled<R>(parse: Parser<R>, tree: seq<Dir>, c: Cursor, batch: seq<R>, next: Cursor) {
    && ValidCursor(tree, c) && ValidCursor(tree, next)
    && Before(parse, tree, next) == Before(parse, tree, c) + batch
  }

  /** A chain of polls, each from the cursor of the one before, on a log that grows meanwhile. */
  ghost predicate Chained<R>(parse: Parser<R>, trees: seq<seq<Dir>>, cursors: seq<Cursor>, batches: seq<seq<R>>) {
    && |cursors| == |batches| + 1 == |trees| + 1
    && (forall k :: 0 <= k < |trees| ==> DistinctNames(trees[k]))
    && (forall k :: 0 < k < |trees| ==> Grows(trees[k - 1], trees[k]))
    && (forall k :: 0 <= k < |trees| ==> Polled(parse, trees[k], cursors[k], batches[k], cursors[k + 1]))
  }

  /** Chained polls deliver every record between the first cursor and the last, once and in log
    * order, whatever limits, timeouts, torn lines, new files and rollovers came between. */
  lemma {:induction false} PollsDeliverAll<R>(parse: Parser<R>, trees: seq<seq<Dir>>, cursors: seq<Cursor>, batches: seq<seq<R>>)
    requires Chained(parse, trees, cursors, batches) && trees != []
    ensures Polled(parse, trees[|trees| - 1], cursors[0], Flatten(batches), cursors[|trees|])
    decreases |trees|
  {
    hide Before, Grows, DistinctNames, ValidCursor;
    var n := |trees| - 1;
    var start := cursors[0];
    assert Polled(parse, trees[n], cursors[n], batches[n], cursors[n + 1]);
    if n == 0 {
      assert batches[..0] == [] && Flatten<R>([]) == [];
      assert Before(parse, trees[0], start) + batches[0] == Before(parse, trees[0], start) + ([] + batches[0]);
    } else {
      PollsDeliverAll(parse, trees[..n], cursors[..n + 1], batches[..n]);
      assert Grows(trees[n - 1], trees[n]);
      BeforeIsStable(parse, trees[n - 1], trees[n], start);
      BeforeIsStable(parse, trees[n - 1], trees[n], cursors[n]);
      var all := Before(parse, trees[n], start);
      assert all + Flatten(batches[..n]) + batches[n] == all + (Flatten(batches[..n]) + batches[n]);
    }
  }

  // ----- how long a scan takes -----

  /** The complete lines of b. */
  function Lines(b: seq<Byte>): nat
    decreases |b|
  {
    var n := FirstNewline(b);
    if n == |b| then 0 else 1 + Lines(b[n + 1..])
  }

  /** How often the context is looked at on the way from an offset to the end of a file, from a position to
    * the end of a directory, and from there to the end of the log: before each line and before the end of
    * a file, and before each file and each directory. */
  function FileWork(bytes: seq<Byte>, off: nat): nat
    requires off <= |bytes|
  {
    Lines(bytes[off..]) + 1
  }

  function DirWork(files: seq<File>, fi: nat, off: nat): nat
    requires fi < |files| ==> off <= |files[fi].bytes|
    decreases |files| - fi
  {
    if fi >= |files| then 0 else 1 + FileWork(files[fi].bytes, off) + DirWork(files, fi + 1, 0)
  }

  function TreeWork(tree: seq<Dir>, di: nat, fi: nat, off: nat): nat
    requires di < |tree| && fi < |tree[di].files| ==> off <= |tree[di].files[fi].bytes|
    decreases |tree| - di
  {
    if di >= |tree| then 0 else 1 + DirWork(tree[di].files, fi, off) + TreeWork(tree, di + 1, 0, 0)
  }

  /** From a cursor to the end of the log. */
  ghost function Work(tree: seq<Dir>, c: Cursor): nat
    requires ValidCursor(tree, c)
  {
    var di, fi :| Stands(tree, c, di, fi);
    TreeWork(tree, di, fi, c.offset)
  }

  lemma WorkIs(tree: seq<Dir>, c: Cursor, di: nat, fi: nat)
    requires DistinctNames(tree) && Stands(tree, c, di, fi)
    ensures ValidCursor(tree, c) && Work(tree, c) == TreeWork(tree, di, fi, c.offset)
  {
    hide TreeWork, DistinctNames;
    var dj, fj :| Stands(tree, c, dj, fj) && Work(tree, c) == TreeWork(tree, dj, fj, c.offset);
    StandsOnce(tree, c, di, fi, dj, fj);
  }

  lemma LinesStep(b: seq<Byte>, n: nat)
    requires n == FirstNewline(b)
    ensures Lines(b) == if n == |b| then 0 else 1 + Lines(b[n + 1..])
  {
    hide FirstNewline;
  }

  lemma DirWorkStep(files: seq<File>, fi: nat, off: nat)
    requires fi < |files| ==> off <= |files[fi].bytes|
    ensures fi < |files| ==> DirWork(files, fi, off) == 1 + FileWork(files[fi].bytes, off) + DirWork(files, fi + 1, 0)
    ensures fi >= |files| ==> DirWork(files, fi, off) == 0
  {
    hide FileWork;
  }

  lemma TreeWorkStep(tree: seq<Dir>, di: nat, fi: nat, off: nat)
    requires di < |tree| && fi < |tree[di].files| ==> off <= |tree[di].files[fi].bytes|
    ensures di < |tree| ==> TreeWork(tree, di, fi, off) == 1 + DirWork(tree[di].files, fi, off) + TreeWork(tree, di + 1, 0, 0)
    ensures di >= |tree| ==> TreeWork(tree, di, fi, off) == 0
  {
    hide DirWork;
  }

  // ----- the scan -----

  /** The read loop of `readShareLines`. `checks` is how often the context is found alive; `all`
    * is every match so far, of which a bootstrap read keeps the last `limit`. */
  method ReadShareLines<R>(parse: Parser<R>, bytes: seq<Byte>, offset: nat, records: seq<R>, limit: nat, tailMode: bool,
                           checks: nat, ghost all: seq<R>)
    returns (records': seq<R>, end: nat, limitHit: bool, checks': nat, expired: bool)
    requires limit > 0 && records == (if tailMode then Last(all, limit) else all) && (tailMode || |all| < limit)
    requires offset <= |bytes|
    ensures offset <= end <= |bytes| && (AtLine(bytes, offset) ==> AtLine(bytes, end))
    ensures var more := all + Records(parse, bytes[offset..end]);
            && records' == (if tailMode then Last(more, limit) else more)
            && (limitHit <==> !tailMode && |more| >= limit) && (!tailMode ==> |more| <= limit)
    ensures !limitHit && !expired ==> Records(parse, bytes[end..]) == []
    ensures expired ==> checks < FileWork(bytes, offset) && !limitHit
    ensures !expired && !limitHit ==> checks == checks' + FileWork(bytes, offset)
  {
    hide Records, Last, RecordOf, FirstNewline, Lines;
    records', end, limitHit, checks', expired := records, offset, false, checks, false;
    ghost var more := all;
    assert bytes[offset..end] == [];
    NoRecords(parse);
    while true
      invariant offset <= end <= |bytes| && (AtLine(bytes, offset) ==> AtLine(bytes, end))
      invariant end > offset ==> bytes[end - 1] == NL
      invariant more == all + Records(parse, bytes[offset..end])
      invariant records' == (if tailMode then Last(more, limit) else more) && (tailMode || |more| < limit)
      invariant checks' + Lines(bytes[offset..]) == checks + Lines(bytes[end..])
      decreases |bytes| - end
    {
      if checks' == 0 {
        expired := true;
        return;
      }
      checks' := checks' - 1;
      var n := FirstNewline(bytes[end..]);
      RecordsStep(parse, bytes[end..], n);
      LinesStep(bytes[end..], n);
      assert n < |bytes[end..]| ==> bytes[end..][n + 1..] == bytes[end + n + 1..];
      if n == |bytes[end..]| {
        return;
      }
      var line := bytes[end..][..n + 1];
      OneMore(parse, bytes, offset, end, n);
      ghost var before := more;
      end := end + n + 1;
      more := all + Records(parse, bytes[offset..end]);
      assert more == before + RecordOf(parse, line);
      var r := parse(line);
      MatchOrNot(parse, line, before);
      if r.Some? {
        records', limitHit := Collect(records', r.value, limit, tailMode, before);
        if limitHit {
          return;
        }
      }
    }
  }

  lemma MatchOrNot<R>(parse: Parser<R>, line: seq<Byte>, before: seq<R>)
    ensures before + RecordOf(parse, line) == if parse(line).Some? then before + [parse(line).value] else before
  {
  }

  /** What the callback of `scanShares` does with a match. */
  method Collect<R>(records: seq<R>, r: R, limit: nat, tailMode: bool, ghost before: seq<R>)
    returns (records': seq<R>, limitHit: bool)
    requires limit > 0 && records == (if tailMode then Last(before, limit) else before) && (tailMode || |before| < limit)
    ensures records' == if tailMode then Last(before + [r], limit) else before + [r]
    ensures limitHit <==> !tailMode && |before + [r]| >= limit
  {
    hide Last;
    if tailMode {
      assert (before + [r])[..|before|] == before;
      records' := AppendBounded(records, r, limit, before + [r]);
      limitHit := false;
    } else {
      records' := records + [r];
      limitHit := |records'| >= limit;
    }
  }

  lemma OneMore<R>(parse: Parser<R>, bytes: seq<Byte>, i: nat, j: nat, n: nat)
    requires i <= j <= |bytes| && (j > i ==> bytes[j - 1] == NL)
    requires n == FirstNewline(bytes[j..]) && n < |bytes| - j
    ensures bytes[j + n] == NL
    ensures Records(parse, bytes[i..j + n + 1]) == Records(parse, bytes[i..j]) + RecordOf(parse, bytes[j..][..n + 1])
  {
    hide Records, RecordOf, FirstNewline;
    var line := bytes[j..][..n + 1];
    assert bytes[i..j + n + 1] == bytes[i..j] + line;
    RecordsSum(parse, bytes[i..j], line);
    FirstNewlineIs(line, n);
    RecordsStep(parse, line, n);
    NoRecords(parse);
    assert line[..n + 1] == line && line[n + 1..] == [];
  }

  /** `appendBounded`. */
  method AppendBounded<R>(records: seq<R>, r: R, limit: nat, ghost all: seq<R>) returns (kept: seq<R>)
    requires limit > 0 && all != [] && all[|all| - 1] == r && records == Last(all[..|all| - 1], limit)
    ensures kept == Last(all, limit)
  {
    LastAppend(all[..|all| - 1], r, limit);
    assert all[..|all| - 1] + [r] == all;
    if |records| < limit {
      return records + [r];
    }
    return records[1..] + [r];
  }

  // ----- moving along the tree -----

  lemma FileRead<R>(parse: Parser<R>, tree: seq<Dir>, di: nat, fi: nat, off: nat, end: nat)
    requires di < |tree| && fi < |tree[di].files| && off <= end <= |tree[di].files[fi].bytes|
    requires AtLine(tree[di].files[fi].bytes, off)
    ensures BeforeAt(parse, tree, di, fi, end)
         == BeforeAt(parse, tree, di, fi, off) + Records(parse, tree[di].files[fi].bytes[off..end])
  {
    hide RecordsOfDirs, RecordsOfFiles, Records;
    RecordsUpTo(parse, tree[di].files[fi].bytes, off, end);
  }

  lemma FileDone<R>(parse: Parser<R>, tree: seq<Dir>, di: nat, fi: nat, end: nat)
    requires di < |tree| && fi < |tree[di].files| && AtLine(tree[di].files[fi].bytes, end)
    requires Records(parse, tree[di].files[fi].bytes[end..]) == []
    ensures BeforeAt(parse, tree, di, fi + 1, 0) == BeforeAt(parse, tree, di, fi, end)
  {
    hide RecordsOfDirs, Records;
    var files := tree[di].files;
    var bytes := files[fi].bytes;
    assert files[..fi + 1][..fi] == files[..fi];
    RecordsUpTo(parse, bytes, end, |bytes|);
    assert bytes[..|bytes|] == bytes && bytes[end..|bytes|] == bytes[end..];
    NoRecords(parse);
    assert fi + 1 < |files| ==> files[fi + 1].bytes[..0] == [];
  }

  lemma DirDone<R>(parse: Parser<R>, tree: seq<Dir>, di: nat)
    requires di < |tree|
    ensures BeforeAt(parse, tree, di, |tree[di].files|, 0) == RecordsOfDirs(parse, tree[..di + 1])
    ensures BeforeAt(parse, tree, di, 0, 0) == RecordsOfDirs(parse, tree[..di])
  {
    hide Records;
    var files := tree[di].files;
    assert tree[..di + 1][..di] == tree[..di] && files[..|files|] == files && files[..0] == [];
    NoRecords(parse);
    assert files != [] ==> files[0].bytes[..0] == [];
  }

  /** c stands at a position before which the tree has these records. */
  ghost predicate Reached<R>(parse: Parser<R>, tree: seq<Dir>, c: Cursor, di: nat, fi: nat, before: seq<R>) {
    Stands(tree, c, di, fi) && BeforeAt(parse, tree, di, fi, c.offset) == before
  }

  lemma ReachedAt<R>(parse: Parser<R>, tree: seq<Dir>, di: nat, fi: nat, end: nat, before: seq<R>)
    requires di < |tree| && fi < |tree[di].files| && DistinctFiles(tree[di].files)
    requires AtLine(tree[di].files[fi].bytes, end) && BeforeAt(parse, tree, di, fi, end) == before
    ensures Reached(parse, tree, Cursor(tree[di].name, tree[di].files[fi].name, end), di, fi, before)
  {
    hide BeforeAt;
    assert tree[di].files[fi].name != "";
  }

  lemma LineInside(b: seq<Byte>, i: int)
    requires AtLine(b, i)
    ensures 0 <= i <= |b|
  {
  }

  lemma Longer<R>(base: seq<R>, all: seq<R>, more: seq<R>)
    ensures base + all + more == base + (all + more) && all <= all + more
  {
  }

  /** One file, from an offset in it. */
  method ScanFile<R>(parse: Parser<R>, tree: seq<Dir>, di: nat, fi: nat, off: nat, records: seq<R>, limit: nat,
                     tailMode: bool, checks: nat, ghost base: seq<R>, ghost all: seq<R>)
    returns (records': seq<R>, next: Cursor, limitHit: bool, checks': nat, expired: bool, ghost all': seq<R>)
    requires limit > 0 && records == (if tailMode then Last(all, limit) else all) && (tailMode || |all| < limit)
    requires di < |tree| && DistinctFiles(tree[di].files) && fi < |tree[di].files|
    requires AtLine(tree[di].files[fi].bytes, off) && BeforeAt(parse, tree, di, fi, off) == base + all
    ensures all <= all' && records' == (if tailMode then Last(all', limit) else all')
    ensures (limitHit <==> !tailMode && |all'| >= limit) && (!tailMode ==> |all'| <= limit)
    ensures Reached(parse, tree, next, di, fi, base + all')
    ensures !limitHit && !expired ==> BeforeAt(parse, tree, di, fi + 1, 0) == base + all'
    ensures off <= |tree[di].files[fi].bytes|
    ensures expired ==> checks < FileWork(tree[di].files[fi].bytes, off) && !limitHit
    ensures !expired && !limitHit ==> checks == checks' + FileWork(tree[di].files[fi].bytes, off)
  {
    hide FileWork, Records, RecordsOfFiles, RecordsOfDirs, Last, BeforeAt, DistinctFiles, Reached, AtLine;
    var file := tree[di].files[fi];
    var end;
    LineInside(file.bytes, off);
    records', end, limitHit, checks', expired := ReadShareLines(parse, file.bytes, off, records, limit, tailMode, checks, all);
    ghost var more := Records(parse, file.bytes[off..end]);
    all' := all + more;
    FileRead(parse, tree, di, fi, off, end);
    Longer(base, all, more);
    next := Cursor(tree[di].name, file.name, end);
    ReachedAt(parse, tree, di, fi, end, base + all');
    if !limitHit && !expired {
      FileDone(parse, tree, di, fi, end);
    }
  }

  /** The files of one directory, from a position in it. */
  method ScanDir<R>(parse: Parser<R>, tree: seq<Dir>, di: nat, fileIdx: nat, firstOffset: nat, start: Cursor,
                    records: seq<R>, limit: nat, tailMode: bool, checks: nat, ghost base: seq<R>, ghost all: seq<R>)
    returns (records': seq<R>, next: Cursor, limitHit: bool, checks': nat, expired: bool, ghost all': seq<R>, ghost fi': nat)
    requires limit > 0 && records == (if tailMode then Last(all, limit) else all) && (tailMode || |all| < limit)
    requires di < |tree| && DistinctFiles(tree[di].files) && fileIdx <= |tree[di].files|
    requires fileIdx < |tree[di].files| ==> AtLine(tree[di].files[fileIdx].bytes, firstOffset)
    requires BeforeAt(parse, tree, di, fileIdx, firstOffset) == base + all
    ensures all <= all' && records' == (if tailMode then Last(all', limit) else all')
    ensures (limitHit <==> !tailMode && |all'| >= limit) && (!tailMode ==> |all'| <= limit)
    ensures !limitHit && !expired ==> base + all' == RecordsOfDirs(parse, tree[..di + 1])
    ensures (next == start && all' == all) || Reached(parse, tree, next, di, fi', base + all')
    ensures fileIdx < |tree[di].files| ==> firstOffset <= |tree[di].files[fileIdx].bytes|
    ensures expired ==> checks < DirWork(tree[di].files, fileIdx, firstOffset) && !limitHit
    ensures !expired && !limitHit ==> checks == checks' + DirWork(tree[di].files, fileIdx, firstOffset)
  {
    hide DirWork, FileWork, Records, RecordsOfFiles, RecordsOfDirs, Last, BeforeAt, DistinctFiles, Reached, FirstNewline, RecordOf, Stands;
    records', next, limitHit, checks', expired, all', fi' := records, start, false, checks, false, all, 0;
    var fi: nat, off: nat := fileIdx, firstOffset;
    var files := tree[di].files;
    while fi < |files|
      invariant fi <= |files| && all <= all' && records' == (if tailMode then Last(all', limit) else all')
      invariant tailMode || |all'| < limit
      invariant (fi < |files| ==> AtLine(files[fi].bytes, off)) && !limitHit && !expired
      invariant BeforeAt(parse, tree, di, fi, off) == base + all'
      invariant (next == start && all' == all) || Reached(parse, tree, next, di, fi', base + all')
      invariant checks' + DirWork(files, fileIdx, firstOffset) == checks + DirWork(files, fi, off)
    {
      DirWorkStep(files, fi, off);
      if checks' == 0 {
        expired := true;
        return;
      }
      checks' := checks' - 1;
      records', next, limitHit, checks', expired, all' :=
        ScanFile(parse, tree, di, fi, off, records', limit, tailMode, checks', base, all');
      fi' := fi;
      if limitHit || expired {
        return;
      }
      fi, off := fi + 1, 0;
      StartsAtLine(files, fi);
    }
    DirWorkStep(files, fi, off);
    FilesEnd(parse, tree, di, off);
    DirDone(parse, tree, di);
  }

  lemma StartsAtLine(files: seq<File>, fi: nat)
    ensures fi < |files| ==> AtLine(files[fi].bytes, 0)
  {
  }

  /** Behind the last file the offset says nothing. */
  lemma FilesEnd<R>(parse: Parser<R>, tree: seq<Dir>, di: nat, off: nat)
    requires di < |tree|
    ensures BeforeAt(parse, tree, di, |tree[di].files|, off) == BeforeAt(parse, tree, di, |tree[di].files|, 0)
  {
  }

  /** Where a listing has this name, or its length. */
  method FindName(names: seq<Name>, name: Name) returns (i: nat)
    ensures i <= |names| && (i < |names| ==> names[i] == name)
    ensures forall k :: 0 <= k < i ==> names[k] != name
  {
    i := 0;
    while i < |names| && names[i] != name
      invariant i <= |names| && forall k :: 0 <= k < i ==> names[k] != name
    {
      i := i + 1;
    }
  }

  /** Where the walk starts: the directory and the file of the cursor, by name. */
  method Locate(tree: seq<Dir>, start: Cursor) returns (di: nat, fi: nat, off: nat)
    requires DistinctNames(tree) && ValidCursor(tree, start)
    ensures Stands(tree, start, di, fi) && off == start.offset
  {
    hide DistinctNames, ValidCursor;
    var dirs := seq(|tree|, i requires 0 <= i < |tree| => tree[i].name);
    di := FindName(dirs, start.dir);
    assert forall k :: 0 <= k < di ==> tree[k].name == dirs[k];
    fi, off := 0, 0;
    if di < |tree| && start.file != "" {
      var files := tree[di].files;
      var names := seq(|files|, i requires 0 <= i < |files| => files[i].name);
      var i := FindName(names, start.file);
      assert forall k :: 0 <= k < i ==> files[k].name == names[k];
      if i < |files| {
        fi, off := i, start.offset;
      }
    }
    StartFound(tree, start, di, fi, off);
  }

  /** `scanShares` from a cursor of the tree. A forward read stops at the limit and returns all it
    * passed; a bootstrap read goes on and keeps the last ones. */
  method ScanShares<R>(parse: Parser<R>, tree: seq<Dir>, start: Cursor, limit: nat, tailMode: bool, checks: nat)
    returns (records: seq<R>, next: Cursor, expired: bool, ghost all: seq<R>)
    requires limit > 0 && DistinctNames(tree) && ValidCursor(tree, start)
    ensures Polled(parse, tree, start, all, next)
    ensures records == (if tailMode then Last(all, limit) else all) && (!tailMode ==> |records| <= limit)
    ensures !expired && (tailMode || |records| < limit) ==> Before(parse, tree, next) == RecordsOfDirs(parse, tree)
    ensures expired ==> checks < Work(tree, start)
    ensures tailMode || |records| < limit ==> (expired <==> checks < Work(tree, start))
  {
    hide Work, TreeWork, DirWork, Records, RecordsOfFiles, RecordsOfDirs, Last, BeforeAt, ValidCursor, Before, FirstNewline, RecordOf;
    var dirIdx, fileIdx, firstOffset := Locate(tree, start);
    BeforeIs(parse, tree, start, dirIdx, fileIdx);
    WorkIs(tree, start, dirIdx, fileIdx);
    ghost var base := BeforeAt(parse, tree, dirIdx, fileIdx, firstOffset);
    records, next, all := [], start, [];
    LastNone<R>(limit);
    expired := false;
    var left: nat := checks;
    ghost var ndi: nat, nfi: nat := dirIdx, fileIdx;
    var di := dirIdx;
    while di < |tree|
      invariant dirIdx <= di <= |tree| && records == (if tailMode then Last(all, limit) else all) && (tailMode || |all| < limit)
      invariant Reached(parse, tree, next, ndi, nfi, base + all)
      invariant di == dirIdx ==> all == [] && next == start
      invariant di > dirIdx ==> base + all == RecordsOfDirs(parse, tree[..di])
      invariant !expired
      invariant di == dirIdx ==> left == checks
      invariant di > dirIdx ==> left + Work(tree, start) == checks + TreeWork(tree, di, 0, 0)
    {
      TreeWorkStep(tree, di, if di == dirIdx then fileIdx else 0, if di == dirIdx then firstOffset else 0);
      if left == 0 {
        expired := true;
        break;
      }
      left := left - 1;
      DirDone(parse, tree, di);
      var fi, off := if di == dirIdx then fileIdx else 0, if di == dirIdx then firstOffset else 0;
      StartsAtLine(tree[di].files, 0);
      ghost var was, had, fi' := next, all, 0;
      var limitHit;
      records, next, limitHit, left, expired, all, fi' :=
        ScanDir(parse, tree, di, fi, off, next, records, limit, tailMode, left, base, all);
      if !(next == was && all == had) {
        ndi, nfi := di, fi';
      }
      if limitHit || expired {
        break;
      }
      di := di + 1;
    }
    if di == |tree| {
      TreeWorkStep(tree, di, 0, 0);
    }
    assert Reached(parse, tree, next, ndi, nfi, base + all);
    BeforeIs(parse, tree, next, ndi, nfi);
    assert tree[..|tree|] == tree;
  }

  lemma LastNone<R>(n: nat)
    ensures Last<R>([], n) == []
  {
  }

  lemma StartFound(tree: seq<Dir>, c: Cursor, di: nat, fi: nat, off: nat)
    requires ValidCursor(tree, c) && DistinctNames(tree)
    requires di <= |tree| && (di < |tree| ==> tree[di].name == c.dir) && forall k :: 0 <= k < di ==> tree[k].name != c.dir
    requires di < |tree| && c.file != "" && (exists k :: 0 <= k < |tree[di].files| && tree[di].files[k].name == c.file) ==>
               fi < |tree[di].files| && tree[di].files[fi].name == c.file && off == c.offset
    requires c.file == "" ==> fi == 0 && off == 0
    ensures Stands(tree, c, di, fi) && off == c.offset && fi <= |tree[di].files|
  {
    var dj, fj :| Stands(tree, c, dj, fj);
  }
}
