/**
The part of PostgreSQL's numeric arithmetic that the ULID migration runs on: dividing a whole number by
16 and truncating the quotient. Division first picks a number of decimal places and rounds to it, so for
large numbers the quotient is rounded to a whole number before truncation sees it (select_div_scale and
div_var in PostgreSQL's numeric.c).
*/
module PgNumeric {
  import opened Common
  import opened Numerals

  /** A numeric with a whole value, displayed with `scale` decimal places. */
  datatype Numeric = Numeric(value: nat, scale: nat)

  const MIN_SIGNIFICANT := 16
  const NBASE := 10000
  const BASE_DIGITS := 4

  /** Numbers are stored in base 10000: the position of the leading digit, and that digit. */
  function Weight(n: nat): nat {
    if n < NBASE then 0 else 1 + Weight(n / NBASE)
  }

  function FirstDigit(n: nat): nat {
    if n < NBASE then n else FirstDigit(n / NBASE)
  }

  /** The estimated weight of n / 16: one less unless the leading digit of n is above 16. */
  function QuotientWeight(n: nat): int {
    Weight(n) - Weight(16) - if FirstDigit(n) <= FirstDigit(16) then 1 else 0
  }

  /** At least 16 significant digits, and no fewer decimal places than the operand shows. */
  function DivScale(n: Numeric): nat {
    Max(MIN_SIGNIFICANT - QuotientWeight(n.value) * BASE_DIGITS, n.scale)
  }

  /** trunc(n / 16): round half up at the chosen scale, then drop the decimal places. */
  function TruncDiv16(n: Numeric): Numeric {
    var unit := Pow(10, DivScale(n));
    PowPositive(10, DivScale(n));
    Numeric((n.value * unit + 8) / 16 / unit, 0)
  }

  const ROUNDING: nat := 170_000_000_000_000_000

  /** From 17 * 10^16 on, an operand without decimal places gets a quotient without decimal places. */
  lemma ScaleOf(v: nat)
    ensures if v >= ROUNDING then DivScale(Numeric(v, 0)) == 0 else DivScale(Numeric(v, 0)) >= 4
  {
    var a := v / NBASE;
    var b := a / NBASE;
    var c := b / NBASE;
    var d := c / NBASE;
    Unfold(v);
    Unfold(a);
    Unfold(b);
    Unfold(c);
    if v >= NBASE && a >= NBASE && b >= NBASE && c >= NBASE {
      assert d < NBASE ==> (d > 16 <==> v >= ROUNDING);
    }
  }

  lemma Unfold(n: nat)
    ensures n >= NBASE ==> Weight(n) == 1 + Weight(n / NBASE) && FirstDigit(n) == FirstDigit(n / NBASE)
    ensures n < NBASE ==> Weight(n) == 0 && FirstDigit(n) == n
  {
  }

  lemma Multiple(e: nat) returns (k: nat)
    requires e >= 4
    ensures k >= 1 && Pow(10, e) == 16 * k
  {
    k := 625 * Pow(10, e - 4);
    PowPositive(10, e - 4);
    assert Pow(10, 4) == 10000;
    PowAdd(10, 4, e - 4);
  }

  /** With four decimal places the quotient is exact: sixteenths have no more. */
  lemma ExactQuotient(v: nat, unit: nat, k: nat)
    requires k >= 1 && unit == 16 * k
    ensures (v * unit + 8) / 16 / unit == v / 16
  {
    var q, r := v / 16, v % 16;
    Regroup(v, k);
    DivUnique(v * unit + 8, v * k, 8, 16);
    assert v * k == q * unit + r * k by { Regroup(q, k); Split(16 * q, r, k); }
    MulStep(r, 16, k);
    DivUnique(v * k, q, r * k, unit);
  }

  lemma Regroup(v: nat, k: nat)
    ensures v * (16 * k) == (v * k) * 16 == (16 * v) * k
  {
  }

  lemma Split(a: nat, b: nat, k: nat)
    ensures (a + b) * k == a * k + b * k
  {
  }

  lemma TruncDivAt(n: Numeric)
    requires DivScale(n) >= 4
    ensures TruncDiv16(n) == Numeric(n.value / 16, 0)
  {
    var k := Multiple(DivScale(n));
    ExactQuotient(n.value, Pow(10, DivScale(n)), k);
  }

  /** What the step does to a whole number: rounded to the nearest sixteenth part if large, else exact. */
  lemma TruncDivWhole(v: nat)
    ensures TruncDiv16(Numeric(v, 0)) == Numeric(if v >= ROUNDING then (v + 8) / 16 else v / 16, 0)
  {
    ScaleOf(v);
    if v < ROUNDING { TruncDivAt(Numeric(v, 0)); }
  }

  /** An operand that shows four or more decimal places is divided exactly. */
  lemma TruncDivScaled(v: nat, scale: nat)
    requires scale >= 4
    ensures TruncDiv16(Numeric(v, scale)) == Numeric(v / 16, 0)
  {
    TruncDivAt(Numeric(v, scale));
  }
}
