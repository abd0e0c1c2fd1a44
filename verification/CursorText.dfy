/** The text of a share cursor (`encodeCursor`, `decodeCursor` in `api/ckpool_api_server.go`),
  * inside its base64 wrapping.
  */
module CursorText {
  import opened Basics

  // A height directory, a file in it, and an offset; the file "" is the start of the directory.
  datatype Cursor = Cursor(dir: string, file: string, offset: nat)

  const BAR := '|'
  const MAX_INT64 := 0x7fff_ffff_ffff_ffff

  function DigitChar(d: nat): char
    requires d < 10
  {
    '0' + d as char
  }

  predicate IsDigit(c: char) {
    '0' <= c <= '9'
  }

  function Decimal(n: nat): (s: string)
    ensures s != [] && forall i :: 0 <= i < |s| ==> IsDigit(s[i])
  {
    if n < 10 then [DigitChar(n)] else Decimal(n / 10) + [DigitChar(n % 10)]
  }

  function DigitsValue(s: string): nat
    requires forall i :: 0 <= i < |s| ==> IsDigit(s[i])
  {
    if s == [] then 0
    else
      var last := s[|s| - 1];
      assert IsDigit(last);
      DigitsValue(s[..|s| - 1]) * 10 + (last as int - '0' as int)
  }

  predicate AllDigits(s: string) {
    s != [] && forall i :: 0 <= i < |s| ==> IsDigit(s[i])
  }

  /** `strconv.ParseInt(s, 10, 64)`, for the values that are not negative. */
  function ParseOffset(s: string): Option<nat> {
    var digits := if s != [] && (s[0] == '+' || s[0] == '-') then s[1..] else s;
    if !AllDigits(digits) then None
    else
      var v := DigitsValue(digits);
      if s[0] == '-' && v > 0 then None
      else if v > MAX_INT64 then None
      else Some(v)
  }

  predicate HeightDir(s: string) {
    |s| == 8 && forall i :: 0 <= i < |s| ==> IsDigit(s[i]) || 'a' <= s[i] <= 'f'
  }

  function FirstBar(s: string): (n: nat)
    ensures n <= |s| && (n < |s| ==> s[n] == BAR) && forall i :: 0 <= i < n ==> s[i] != BAR
  {
    if s == [] || s[0] == BAR then 0 else 1 + FirstBar(s[1..])
  }

  function Encode(c: Cursor): string {
    c.dir + [BAR] + c.file + [BAR] + Decimal(c.offset)
  }

  /** Two cuts at a bar; what is behind the second may hold more. */
  function Decode(s: string): Option<Cursor> {
    var i := FirstBar(s);
    if i == |s| then None
    else
      var rest := s[i + 1..];
      var j := FirstBar(rest);
      if j == |rest| || !HeightDir(s[..i]) then None
      else
        var offset := ParseOffset(rest[j + 1..]);
        if offset.None? then None else Some(Cursor(s[..i], rest[..j], offset.value))
  }

  lemma {:induction false} DecimalValue(n: nat)
    ensures DigitsValue(Decimal(n)) == n
  {
    if n >= 10 {
      DecimalValue(n / 10);
      assert (Decimal(n / 10) + [DigitChar(n % 10)])[..|Decimal(n / 10)|] == Decimal(n / 10);
    } else {
      assert [DigitChar(n)][..0] == [];
    }
  }

  lemma FirstBarIs(a: string, b: string)
    requires forall i :: 0 <= i < |a| ==> a[i] != BAR
    ensures FirstBar(a + [BAR] + b) == |a|
  {
    var s := a + [BAR] + b;
    assert s[|a|] == BAR && forall i :: 0 <= i < |a| ==> s[i] == a[i];
  }

  ghost predicate NoBar(s: string) {
    forall i :: 0 <= i < |s| ==> s[i] != BAR
  }

  /** Only cursors of this shape are ever decoded. */
  lemma DecodedShape(s: string)
    ensures var c := Decode(s);
            c.Some? ==> HeightDir(c.value.dir) && NoBar(c.value.file) && c.value.offset <= MAX_INT64
  {
    hide FirstBar, HeightDir, AllDigits, DigitsValue;
  }

  lemma OffsetText(n: nat)
    ensures ParseOffset(Decimal(n)) == if n <= MAX_INT64 then Some(n) else None
  {
    hide Decimal;
    DecimalValue(n);
    assert IsDigit(Decimal(n)[0]);
  }

  lemma Cuts(dir: string, file: string, digits: string)
    requires NoBar(dir) && NoBar(file)
    ensures var s := dir + [BAR] + file + [BAR] + digits;
            var i := FirstBar(s);
            && i == |dir| && s[..i] == dir
            && var rest := s[i + 1..];
            FirstBar(rest) == |file| && |file| < |rest| && rest[..|file|] == file && rest[|file| + 1..] == digits
  {
    hide FirstBar;
    var s := dir + [BAR] + file + [BAR] + digits;
    var rest := file + [BAR] + digits;
    assert s == dir + [BAR] + rest;
    FirstBarIs(dir, rest);
    assert s[|dir| + 1..] == rest;
    FirstBarIs(file, digits);
  }

  lemma HeightHasNoBar(dir: string)
    requires HeightDir(dir)
    ensures NoBar(dir)
  {
  }

  /** A cursor survives the trip exactly when its directory is a height, its file name has no bar
    * and its offset fits: all the server's own cursors, the idle "dir||0" among them. */
  lemma RoundTrip(c: Cursor)
    ensures Decode(Encode(c)) == Some(c) <==> HeightDir(c.dir) && NoBar(c.file) && c.offset <= MAX_INT64
  {
    hide FirstBar, Decimal, ParseOffset, HeightDir, NoBar;
    DecodedShape(Encode(c));
    if HeightDir(c.dir) && NoBar(c.file) {
      HeightHasNoBar(c.dir);
      Cuts(c.dir, c.file, Decimal(c.offset));
      OffsetText(c.offset);
    }
  }
}
