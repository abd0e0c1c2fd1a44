/** Positional numbers: the value of a big-endian digit string in any base, and the facts
  * about it that the address codecs rest on. */
module Digits {

  function Pow(base: nat, n: nat): nat {
    if n == 0 then 1 else base * Pow(base, n - 1)
  }

  ghost predicate AreDigits(base: nat, s: seq<nat>) {
    forall i :: 0 <= i < |s| ==> s[i] < base
  }

  /** The number that s denotes, most significant digit first. */
  function Value(base: nat, s: seq<nat>): nat {
    if s == [] then 0 else Value(base, s[..|s| - 1]) * base + s[|s| - 1]
  }

  lemma MulMonotone(a: nat, b: nat, c: nat)
    ensures a <= b ==> a * c <= b * c
  {
    if a <= b {
      assert b * c == a * c + (b - a) * c;
    }
  }

  lemma {:induction false} PowPositive(base: nat, n: nat)
    requires base > 0
    ensures Pow(base, n) > 0
  {
    if n > 0 {
      PowPositive(base, n - 1);
    }
  }

  lemma {:induction false} PowMonotone(base: nat, a: nat, b: nat)
    requires base > 0 && a <= b
    ensures Pow(base, a) <= Pow(base, b)
  {
    if a < b {
      PowMonotone(base, a, b - 1);
      assert Pow(base, b - 1) <= base * Pow(base, b - 1);
    }
  }

  lemma {:induction false} PowAdd(base: nat, a: nat, b: nat)
    ensures Pow(base, a + b) == Pow(base, a) * Pow(base, b)
  {
    if a > 0 {
      PowAdd(base, a - 1, b);
      assert base * (Pow(base, a - 1) * Pow(base, b)) == base * Pow(base, a - 1) * Pow(base, b);
    }
  }

  lemma ValueSnoc(base: nat, s: seq<nat>, d: nat)
    ensures Value(base, s + [d]) == Value(base, s) * base + d
  {
    assert (s + [d])[..|s|] == s;
  }

  lemma ConsStep(d: nat, p: nat, v: nat, base: nat, last: nat)
    ensures (d * p + v) * base + last == d * (base * p) + (v * base + last)
  {
    assert (d * p + v) * base == d * p * base + v * base;
    assert d * p * base == d * (base * p);
  }

  /** A new most significant digit. */
  lemma {:induction false} ValueCons(base: nat, d: nat, s: seq<nat>)
    ensures Value(base, [d] + s) == d * Pow(base, |s|) + Value(base, s)
  {
    if s == [] {
      ValueSnoc(base, [], d);
      assert [] + [d] == [d] + s;
    } else {
      var init, last := s[..|s| - 1], s[|s| - 1];
      ValueCons(base, d, init);
      assert [d] + s == ([d] + init) + [last];
      ValueSnoc(base, [d] + init, last);
      ConsStep(d, Pow(base, |init|), Value(base, init), base, last);
    }
  }

  lemma BoundStep(v: nat, p: nat, base: nat, last: nat)
    requires v < p && last < base
    ensures v * base + last < base * p
  {
    MulMonotone(v + 1, p, base);
    assert (v + 1) * base == v * base + base;
  }

  lemma {:induction false} ValueBound(base: nat, s: seq<nat>)
    requires AreDigits(base, s)
    ensures Value(base, s) < Pow(base, |s|)
  {
    if s != [] {
      var init := s[..|s| - 1];
      ValueBound(base, init);
      BoundStep(Value(base, init), Pow(base, |init|), base, s[|s| - 1]);
    }
  }

  /** Digit strings of one length denote different numbers. */
  lemma {:induction false} ValueInjective(base: nat, a: seq<nat>, b: seq<nat>)
    requires AreDigits(base, a) && AreDigits(base, b) && |a| == |b|
    requires Value(base, a) == Value(base, b)
    ensures a == b
  {
    if a != [] {
      var ia, ib := a[..|a| - 1], b[..|b| - 1];
      LastDigit(base, Value(base, ia), a[|a| - 1], Value(base, ib), b[|b| - 1]);
      ValueInjective(base, ia, ib);
      assert a == ia + [a[|a| - 1]] && b == ib + [b[|b| - 1]];
    }
  }

  lemma LastDigit(base: nat, x: nat, d: nat, y: nat, e: nat)
    requires d < base && e < base && x * base + d == y * base + e
    ensures x == y && d == e
  {
    MulMonotone(x + 1, y, base);
    MulMonotone(y + 1, x, base);
  }

  /** Appending digits never makes a number smaller. */
  lemma {:induction false} ValuePrefix(base: nat, s: seq<nat>, i: nat)
    requires base > 0 && i <= |s|
    ensures Value(base, s[..i]) <= Value(base, s)
  {
    if i < |s| {
      ValuePrefix(base, s[..|s| - 1], i);
      assert s[..|s| - 1][..i] == s[..i];
      assert Value(base, s[..|s| - 1]) <= Value(base, s[..|s| - 1]) * base;
    } else {
      assert s[..i] == s;
    }
  }

  /** Leading zero digits do not count. */
  lemma {:induction false} ValueLeadingZeros(base: nat, n: nat, s: seq<nat>)
    ensures Value(base, seq(n, _ => 0) + s) == Value(base, s)
  {
    if n == 0 {
      assert seq(0, _ => 0) + s == s;
    } else {
      ValueLeadingZeros(base, n - 1, s);
      assert seq(n, _ => 0) + s == [0] + (seq(n - 1, _ => 0) + s);
      ValueCons(base, 0, seq(n - 1, _ => 0) + s);
    }
  }
}
