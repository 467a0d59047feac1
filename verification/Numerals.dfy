/** Positional numerals, most significant digit first, over any base of at least two. */
module Numerals {

  function Pow(base: nat, e: nat): nat {
    if e == 0 then 1 else base * Pow(base, e - 1)
  }

  lemma {:induction false} PowPositive(base: nat, e: nat)
    requires base >= 1
    ensures Pow(base, e) >= 1
  {
    if e > 0 {
      PowPositive(base, e - 1);
    }
  }

  lemma {:induction false} PowAdd(base: nat, d: nat, e: nat)
    ensures Pow(base, d + e) == Pow(base, d) * Pow(base, e)
  {
    if d > 0 {
      PowAdd(base, d - 1, e);
      MulAssociative(base, Pow(base, d - 1), Pow(base, e));
    }
  }

  lemma MulAssociative(a: int, b: int, c: int)
    ensures a * (b * c) == (a * b) * c
  {
  }

  lemma {:induction false} PowMonotone(base: nat, d: nat, e: nat)
    requires base >= 1 && d <= e
    ensures Pow(base, d) <= Pow(base, e)
  {
    if d < e {
      PowMonotone(base, d, e - 1);
      PowPositive(base, e - 1);
    }
  }

  predicate Digits(ds: seq<nat>, base: nat) {
    forall i :: 0 <= i < |ds| ==> ds[i] < base
  }

  function Value(ds: seq<nat>, base: nat): nat {
    if ds == [] then 0 else Value(ds[..|ds| - 1], base) * base + ds[|ds| - 1]
  }

  lemma ValueSnoc(ds: seq<nat>, d: nat, base: nat)
    ensures Value(ds + [d], base) == Value(ds, base) * base + d
  {
  }

  /** A leading digit weighs its position. */
  lemma {:induction false} ValueCons(d: nat, ds: seq<nat>, base: nat)
    ensures Value([d] + ds, base) == d * Pow(base, |ds|) + Value(ds, base)
    decreases |ds|
  {
    if ds == [] {
      assert [d] + ds == [] + [d];
      ValueSnoc([], d, base);
    } else {
      var front, last := ds[..|ds| - 1], ds[|ds| - 1];
      assert ds == front + [last] && [d] + ds == ([d] + front) + [last];
      calc {
        Value([d] + ds, base);
        { ValueSnoc([d] + front, last, base); }
        Value([d] + front, base) * base + last;
        { ValueCons(d, front, base); }
        (d * Pow(base, |front|) + Value(front, base)) * base + last;
        { Distribute(d, Pow(base, |front|), Value(front, base), base); }
        d * (base * Pow(base, |front|)) + Value(front, base) * base + last;
        { ValueSnoc(front, last, base); }
        d * (base * Pow(base, |front|)) + Value(ds, base);
        { assert |ds| == |front| + 1; }
        d * Pow(base, |ds|) + Value(ds, base);
      }
    }
  }

  lemma Distribute(d: int, p: int, v: int, base: int)
    ensures (d * p + v) * base == d * (base * p) + v * base
  {
  }

  lemma {:induction false} ValueBelow(ds: seq<nat>, base: nat)
    requires Digits(ds, base) && base >= 1
    ensures Value(ds, base) < Pow(base, |ds|)
  {
    if ds != [] {
      var front := ds[..|ds| - 1];
      ValueBelow(front, base);
      Shift(Value(front, base), Pow(base, |front|), ds[|ds| - 1], base);
    }
  }

  lemma Shift(v: nat, p: nat, d: nat, base: nat)
    requires v < p && d < base
    ensures v * base + d < base * p
  {
    MulStep(v, p, base);
  }

  /** Prefixes never exceed the whole. */
  lemma {:induction false} ValuePrefix(ds: seq<nat>, n: nat, base: nat)
    requires n <= |ds| && base >= 1
    ensures Value(ds[..n], base) <= Value(ds, base)
    decreases |ds|
  {
    if n < |ds| {
      var front := ds[..|ds| - 1];
      ValuePrefix(front, n, base);
      assert front[..n] == ds[..n];
      assert Value(front, base) <= Value(front, base) * base;
    } else {
      assert ds[..n] == ds;
    }
  }

  /** Numerals of one length are determined by their value. */
  lemma {:induction false} ValueInjective(ds: seq<nat>, es: seq<nat>, base: nat)
    requires Digits(ds, base) && Digits(es, base) && |ds| == |es| && base >= 1
    requires Value(ds, base) == Value(es, base)
    ensures ds == es
  {
    if ds != [] {
      var n := |ds| - 1;
      DivRem(Value(ds[..n], base), ds[n], Value(es[..n], base), es[n], base);
      ValueInjective(ds[..n], es[..n], base);
      assert ds == ds[..n] + [ds[n]] && es == es[..n] + [es[n]];
    }
  }

  lemma DivRem(a: nat, d: nat, b: nat, e: nat, base: nat)
    requires d < base && e < base && a * base + d == b * base + e
    ensures a == b && d == e
  {
    if a < b {
      MulStep(a, b, base);
    } else if b < a {
      MulStep(b, a, base);
    }
  }

  /** Quotient and remainder from a decomposition. */
  lemma DivUnique(x: nat, q: nat, r: nat, m: nat)
    requires r < m && x == q * m + r
    ensures x / m == q && x % m == r
  {
    assert x == (x / m) * m + x % m;
    DivRem(x / m, x % m, q, r, m);
  }

  lemma MulStep(a: nat, b: nat, base: nat)
    requires a < b
    ensures a * base + base <= b * base
  {
    assert a * base + base == (a + 1) * base;
    MulMonotone(a + 1, b, base);
  }

  lemma MulMonotone(a: nat, b: nat, base: nat)
    requires a <= b
    ensures a * base <= b * base
  {
  }

  /** Canonical: no leading zero, and zero itself is one digit. */
  predicate Canonical(ds: seq<nat>) {
    ds != [] && (|ds| > 1 ==> ds[0] != 0)
  }

  /** A canonical numeral of n digits is at least base^(n-1), unless it is zero. */
  lemma CanonicalAtLeast(ds: seq<nat>, base: nat)
    requires Canonical(ds) && ds[0] != 0 && base >= 1
    ensures Pow(base, |ds| - 1) <= Value(ds, base)
  {
  }

  /** Canonical numerals are determined by their value. */
  lemma CanonicalUnique(ds: seq<nat>, es: seq<nat>, base: nat)
    requires Digits(ds, base) && Digits(es, base) && Canonical(ds) && Canonical(es) && base >= 2
    requires Value(ds, base) == Value(es, base)
    ensures ds == es
  {
    if |ds| < |es| {
      Longer(ds, es, base);
    } else if |es| < |ds| {
      Longer(es, ds, base);
    } else {
      ValueInjective(ds, es, base);
    }
  }

  lemma Longer(ds: seq<nat>, es: seq<nat>, base: nat)
    requires Digits(ds, base) && Digits(es, base) && Canonical(ds) && Canonical(es) && base >= 2
    requires |ds| < |es|
    ensures Value(ds, base) < Value(es, base)
  {
    CanonicalAtLeast(es, base);
    ValueBelow(ds, base);
    PowMonotone(base, |ds|, |es| - 1);
  }

  /** Leading zeros removed, keeping at least one digit. */
  function Trim(ds: seq<nat>): (r: seq<nat>)
    requires ds != []
    ensures Canonical(r)
  {
    if |ds| > 1 && ds[0] == 0 then Trim(ds[1..]) else ds
  }

  lemma {:induction false} TrimKeepsValue(ds: seq<nat>, base: nat)
    requires ds != [] && Digits(ds, base) && base >= 1
    ensures Value(Trim(ds), base) == Value(ds, base) && Digits(Trim(ds), base)
  {
    if |ds| > 1 && ds[0] == 0 {
      assert ds == [0] + ds[1..];
      ValueCons(0, ds[1..], base);
      TrimKeepsValue(ds[1..], base);
    }
  }
}
