/** The migration function that turns 26-character ULID keys into UUIDs. */
module Ulid {
  import opened Common
  import opened Numerals
  import opened PgNumeric
  import opened Uuid

  datatype UlidError = BadLength | BadChar

  /** upper() of one character; outside ASCII only dotless i and long s have an upper case inside it. */
  function Upper(c: char): char {
    if 'a' <= c <= 'z' then (c as int - 32) as char
    else if c == '\U{131}' then 'I'
    else if c == '\U{17F}' then 'S'
    else c
  }

  /** Position in Crockford's Base32 alphabet: digits, then A to Z without I, L, O and U. */
  function Crockford(c: char): Option<nat> {
    var n := c as int;
    if '0' <= c <= '9' then Some(n - '0' as int)
    else if 'A' <= c <= 'H' then Some(n - 'A' as int + 10)
    else if 'J' <= c <= 'K' then Some(n - 'J' as int + 18)
    else if 'M' <= c <= 'N' then Some(n - 'M' as int + 20)
    else if 'P' <= c <= 'T' then Some(n - 'P' as int + 22)
    else if 'V' <= c <= 'Z' then Some(n - 'V' as int + 27)
    else None
  }

  predicate Valid(s: string) {
    forall i :: 0 <= i < |s| ==> Crockford(Upper(s[i])).Some?
  }

  predicate IsUlid(s: string) {
    |s| == 26 && Valid(s)
  }

  function Indices(s: string): (ds: seq<nat>)
    requires Valid(s)
    ensures |ds| == |s| && Digits(ds, 32)
  {
    seq(|s|, i requires 0 <= i < |s| => Crockford(Upper(s[i])).value)
  }

  function Val(s: string): nat
    requires Valid(s)
  {
    Value(Indices(s), 32)
  }

  // ----- the two loops -----

  /** First loop: the Base32 value, digit by digit. */
  method Accumulate(s: string) returns (acc: Option<nat>)
    ensures acc.Some? <==> Valid(s)
    ensures Valid(s) ==> acc.value == Val(s)
  {
    var n := 0;
    for i := 0 to |s|
      invariant Valid(s[..i]) && n == Val(s[..i])
    {
      var idx := Crockford(Upper(s[i]));
      if idx.None? {
        return None;
      }
      assert s[..i + 1] == s[..i] + [s[i]];
      assert Indices(s[..i + 1]) == Indices(s[..i]) + [idx.value];
      ValueSnoc(Indices(s[..i]), idx.value, 32);
      n := n * 32 + idx.value;
    }
    assert s[..|s|] == s;
    acc := Some(n);
  }

  /** power(2::numeric, 128) shows 16 decimal places on PostgreSQL 15, and its remainder inherits them. */
  const POWER_SCALE: nat := 16

  /** How much the j-th pass adds to the exact quotient: from the second pass on, large numbers are rounded. */
  function Carry(j: nat, w: nat): nat {
    if j > 0 && w >= ROUNDING && w % 16 >= 8 then 1 else 0
  }

  function Pass(j: nat, w: nat): nat {
    w / 16 + Carry(j, w)
  }

  /** What is left of `v` before pass `j` of the second loop. */
  function Work(v: nat, j: nat): nat {
    if j == 0 then v else Pass(j - 1, Work(v, j - 1))
  }

  /** The number whose hexadecimal digits the first `n` passes write. */
  function Written(v: nat, n: nat): nat {
    if n == 0 then 0 else Written(v, n - 1) + (Work(v, n - 1) % 16) * Pow(16, n - 1)
  }

  lemma OnePass(v: nat, j: nat)
    ensures TruncDiv16(Numeric(Work(v, j), if j == 0 then POWER_SCALE else 0)) == Numeric(Work(v, j + 1), 0)
  {
    if j == 0 { TruncDivScaled(v, POWER_SCALE); } else { TruncDivWhole(Work(v, j)); }
  }

  lemma PrependHex(d: nat, h: string)
    requires d < 16 && AllHex(h)
    ensures AllHex([HexSymbol(d)] + h) && HexValue([HexSymbol(d)] + h) == HexValue(h) + d * Pow(16, |h|)
  {
    assert HexDigits([HexSymbol(d)] + h) == [d] + HexDigits(h);
    ValueCons(d, HexDigits(h), 16);
  }

  /** Second loop: 32 hexadecimal digits, last one first. */
  method ToHex(value: nat) returns (hex: string)
    requires value < LIMIT
    ensures |hex| == 32 && LowerHex(hex) && AllHex(hex) && HexValue(hex) == Written(value, 32)
  {
    var work := Numeric(value, POWER_SCALE);
    hex := "";
    for j := 0 to 32
      invariant |hex| == j && LowerHex(hex) && AllHex(hex) && HexValue(hex) == Written(value, j)
      invariant work == Numeric(Work(value, j), if j == 0 then POWER_SCALE else 0)
    {
      PrependHex(work.value % 16, hex);
      OnePass(value, j);
      hex := [HexSymbol(work.value % 16)] + hex;
      work := TruncDiv16(work);
    }
  }

  /** The number of the UUID a ULID is migrated to. */
  function Migrated(s: string): nat
    requires Valid(s)
  {
    Written(Val(s) % LIMIT, 32)
  }

  method UlidToUuid(s: string) returns (r: Result<nat, UlidError>)
    ensures r == Err(BadLength) <==> |s| != 26
    ensures r.Ok? <==> IsUlid(s)
    ensures IsUlid(s) ==> r.value == Migrated(s)
  {
    if |s| != 26 {
      return Err(BadLength);
    }
    var acc := Accumulate(s);
    if acc.None? {
      return Err(BadChar);
    }
    var hex := ToHex(acc.value % LIMIT);
    HyphenatedValue(hex);
    r := Ok(FromText(Hyphenate(hex)).value);
  }

  // ----- when the digits written are those of the number -----

  /** The weight of all rounding carries. */
  function Carries(v: nat, n: nat): nat {
    if n == 0 then 0 else Carries(v, n - 1) + Carry(n - 1, Work(v, n - 1)) * Pow(16, n)
  }

  /** What is written and what is left make up the number and its carries. */
  lemma {:induction false} Balance(v: nat, n: nat)
    ensures Written(v, n) + Work(v, n) * Pow(16, n) == v + Carries(v, n)
  {
    if n > 0 {
      Balance(v, n - 1);
      BalanceStep(Work(v, n - 1), Carry(n - 1, Work(v, n - 1)), Pow(16, n - 1));
    }
  }

  lemma BalanceStep(w: nat, c: nat, p: nat)
    ensures (w % 16) * p + (w / 16 + c) * (16 * p) == w * p + c * (16 * p)
  {
    var q, r := w / 16, w % 16;
    assert w == 16 * q + r;
    assert (16 * q + r) * p == q * (16 * p) + r * p;
    assert (q + c) * (16 * p) == q * (16 * p) + c * (16 * p);
  }

  lemma {:induction false} WrittenBelow(v: nat, n: nat)
    ensures Written(v, n) < Pow(16, n)
  {
    if n > 0 {
      WrittenBelow(v, n - 1);
      MulMonotone(Work(v, n - 1) % 16, 15, Pow(16, n - 1));
    }
  }

  /** `v` without its last `j` hexadecimal digits. */
  function Shifted(v: nat, j: nat): nat {
    if j == 0 then v else Shifted(v, j - 1) / 16
  }

  /** No digit that decides a rounding is 8 or more. */
  ghost predicate NoRoundingUp(v: nat) {
    forall j :: 1 <= j < 32 && Shifted(v, j) >= ROUNDING ==> Shifted(v, j) % 16 < 8
  }

  lemma {:induction false} ExactSoFar(v: nat, n: nat)
    requires n <= 32 && (NoRoundingUp(v) || Carries(v, n) == 0)
    ensures Work(v, n) == Shifted(v, n) && Carries(v, n) == 0
  {
    if n > 0 {
      PowPositive(16, n);
      if Carries(v, n) == 0 && Carry(n - 1, Work(v, n - 1)) == 1 { assert false; }
      ExactSoFar(v, n - 1);
    }
  }

  /** What is left never outgrows the digits still to be written by more than one. */
  lemma {:induction false} WorkBelow(v: nat, n: nat)
    requires v < LIMIT && n <= 32
    ensures Work(v, n) <= Pow(16, 32 - n)
  {
    if n == 0 { LimitIsPower(); } else { WorkBelow(v, n - 1); }
  }

  lemma {:induction false} CarriesBelow(v: nat, n: nat)
    ensures Carries(v, n) < 2 * Pow(16, n)
  {
    if n > 0 { CarriesBelow(v, n - 1); }
  }

  /** A number below the limit that comes out as it was has taken no carry on the way. */
  lemma NothingCarried(v: nat, n: nat)
    requires v < LIMIT && n == 32 && Written(v, n) == v
    ensures Carries(v, n) == 0
  {
    LimitIsPower();
    Balance(v, n);
    WorkBelow(v, n - 1);
    CarriesBelow(v, n - 1);
    ZeroMultiple(Work(v, n), Pow(16, n), Carries(v, n));
  }

  lemma NothingRounded(v: nat, n: nat)
    requires n == 32 && Carries(v, n) == 0
    ensures NoRoundingUp(v)
  {
    forall j | 1 <= j < 32 && Shifted(v, j) >= ROUNDING ensures Shifted(v, j) % 16 < 8 {
      CarriesGrow(v, j + 1, n);
      ExactSoFar(v, j + 1);
      ExactSoFar(v, j);
    }
  }

  lemma ExactIfUnrounded(v: nat, n: nat)
    requires v < LIMIT && n == 32 && NoRoundingUp(v)
    ensures Written(v, n) == v
  {
    LimitIsPower();
    Balance(v, n);
    WrittenBelow(v, n);
    ExactSoFar(v, n);
    ZeroMultiple(Work(v, n), Pow(16, n), v - Written(v, n));
  }

  /** The migration writes the number itself exactly when no rounding goes up. */
  lemma WrittenExactIff(v: nat)
    requires v < LIMIT
    ensures Written(v, 32) == v <==> NoRoundingUp(v)
  {
    if NoRoundingUp(v) {
      ExactIfUnrounded(v, 32);
    } else if Written(v, 32) == v {
      NothingCarried(v, 32);
      NothingRounded(v, 32);
    }
  }

  lemma ZeroMultiple(w: nat, m: nat, c: nat)
    requires w * m == c < m
    ensures c == 0
  {
    if w >= 1 { MulMonotone(1, w, m); }
  }

  lemma {:induction false} CarriesGrow(v: nat, m: nat, n: nat)
    requires m <= n
    ensures Carries(v, m) <= Carries(v, n)
    decreases n
  {
    if m < n { CarriesGrow(v, m, n - 1); }
  }

  // ----- which numbers stay distinct -----

  /** A pass loses nothing: the digit written and what is left determine what was there. */
  lemma PassInjective(j: nat, w: nat, x: nat)
    requires w % 16 == x % 16 && w / 16 + Carry(j, w) == x / 16 + Carry(j, x)
    ensures w == x
  {
  }

  lemma {:induction false} WrittenInjective(v: nat, u: nat, n: nat)
    requires Written(v, n) == Written(u, n) && Work(v, n) == Work(u, n)
    ensures v == u
  {
    if n > 0 {
      var p := Pow(16, n - 1);
      WrittenBelow(v, n - 1);
      WrittenBelow(u, n - 1);
      DivRem(Work(v, n - 1) % 16, Written(v, n - 1), Work(u, n - 1) % 16, Written(u, n - 1), p);
      PassInjective(n - 1, Work(v, n - 1), Work(u, n - 1));
      WrittenInjective(v, u, n - 1);
    }
  }

  lemma {:induction false} WorkMonotone(v: nat, u: nat, n: nat)
    requires v <= u
    ensures Work(v, n) <= Work(u, n)
  {
    if n > 0 { WorkMonotone(v, u, n - 1); }
  }

  /** The least number whose rounding carries run out of the top digit. */
  const OVERFLOW: nat := 0xffffffffffffff777777777777777780

  /** Fourteen digits f and then `k` digits 7. */
  function Sevens(k: nat): nat {
    if k == 0 then 0xffffffffffffff else 16 * Sevens(k - 1) + 7
  }

  lemma {:induction false} SevensLarge(k: nat)
    ensures Sevens(k) >= 0xffffffffffffff && (k > 0 ==> Sevens(k) >= ROUNDING)
  {
    if k > 0 { SevensLarge(k - 1); }
  }

  lemma OverflowSpelled()
    ensures OVERFLOW == 16 * (Sevens(17) + 1)
  {
    assert Sevens(4) == 0xffffffffffffff7777;
    assert Sevens(8) == 0xffffffffffffff77777777 by { assert Sevens(6) == 0xffffffffffffff777777; }
    assert Sevens(10) == 0xffffffffffffff7777777777;
    assert Sevens(12) == 0xffffffffffffff777777777777;
    assert Sevens(14) == 0xffffffffffffff77777777777777;
    assert Sevens(16) == 0xffffffffffffff7777777777777777;
  }

  lemma PassSeven(j: nat, a: nat, e: nat)
    requires j > 0 && e <= 1 && 16 * a + 7 >= ROUNDING
    ensures Pass(j, 16 * a + 7 + e) == a + e && (16 * a + 7 + e) % 16 == 7 + e
  {
  }

  /** Just below the overflow every 7 is rounded down; at the overflow every 8 is rounded up. */
  lemma {:induction false} OverflowPasses(v: nat, top: nat, e: nat, j: nat)
    requires e <= 1 && v / 16 == Sevens(top) + e && 1 <= j <= top + 1
    ensures Work(v, j) == Sevens(top + 1 - j) + e
  {
    if j > 1 {
      OverflowPasses(v, top, e, j - 1);
      SevensLarge(top + 2 - j);
      PassSeven(j - 1, Sevens(top + 1 - j), e);
    }
  }

  /** Below the rounding bound the passes are exact. */
  lemma {:induction false} SmallTail(v: nat, j: nat, n: nat)
    requires Work(v, j) < ROUNDING
    ensures Work(v, j + n) == Shifted(Work(v, j), n) <= Work(v, j)
  {
    if n > 0 { SmallTail(v, j, n - 1); }
  }

  lemma {:induction false} ShiftedPower(n: nat, i: nat)
    requires i <= n
    ensures Shifted(Pow(16, n), i) == Pow(16, n - i)
  {
    if i > 0 { ShiftedPower(n, i - 1); }
  }

  lemma {:induction false} ShiftedMonotone(v: nat, u: nat, n: nat)
    requires v <= u
    ensures Shifted(v, n) <= Shifted(u, n)
  {
    if n > 0 { ShiftedMonotone(v, u, n - 1); }
  }

  lemma {:induction false} ShiftedBelow(v: nat, n: nat)
    requires v < Pow(16, n)
    ensures Shifted(v, n) == 0
  {
    if n > 0 { ShiftedInside(v, n); ShiftedBelow(v / 16, n - 1); }
  }

  lemma {:induction false} ShiftedInside(v: nat, n: nat)
    requires n > 0
    ensures Shifted(v, n) == Shifted(v / 16, n - 1)
  {
    if n > 1 { ShiftedInside(v, n - 1); }
  }

  lemma Power14()
    ensures Pow(16, 14) == 0x100000000000000
  {
    assert Pow(16, 7) == 0x10000000 by { assert Pow(16, 4) == 0x10000; }
    PowAdd(16, 7, 7);
  }

  lemma OverflowEnds()
    ensures Work(OVERFLOW - 1, 32) == 0 && Work(OVERFLOW, 32) == 1
  {
    OverflowSpelled();
    Power14();
    OverflowPasses(OVERFLOW - 1, 17, 0, 18);
    SmallTail(OVERFLOW - 1, 18, 14);
    ShiftedBelow(0xffffffffffffff, 14);
    OverflowPasses(OVERFLOW, 17, 1, 18);
    SmallTail(OVERFLOW, 18, 14);
    ShiftedPower(14, 14);
  }

  /** A carry leaves the top digit exactly from there on. */
  lemma CarriedOutIff(v: nat)
    requires v < LIMIT
    ensures Work(v, 32) == if v < OVERFLOW then 0 else 1
  {
    OverflowEnds();
    WorkBelow(v, 32);
    Threshold(v, OVERFLOW, 32);
  }

  lemma Threshold(v: nat, edge: nat, n: nat)
    requires edge >= 1 && Work(edge - 1, n) == 0 && Work(edge, n) == 1 && Work(v, n) <= 1
    ensures Work(v, n) == if v < edge then 0 else 1
  {
    if v < edge { WorkMonotone(v, edge - 1, n); } else { WorkMonotone(edge, v, n); }
  }

  /** Distinct numbers on the same side of the overflow are written differently. */
  lemma SameSideDistinct(v: nat, u: nat)
    requires v < LIMIT && u < LIMIT && (v < OVERFLOW <==> u < OVERFLOW)
    ensures Written(v, 32) == Written(u, 32) <==> v == u
  {
    CarriedOutIff(v);
    CarriedOutIff(u);
    if Written(v, 32) == Written(u, 32) { WrittenInjective(v, u, 32); }
  }

  function Eights(n: nat): nat {
    if n == 0 then 0 else 16 * Eights(n - 1) + 8
  }

  /** The number that `k` roundings up of a digit 8 turn into `m` digits 8. */
  function Before(m: nat, k: nat): (w: nat)
    requires m > 0
    ensures w > 0
  {
    if k == 0 then Eights(m) else 16 * (Before(m, k - 1) - 1) + 8
  }

  /** A number below the overflow that is written like it. */
  const PARTNER: nat := 0x888888888888877780

  lemma PartnerSpelled()
    ensures PARTNER == 16 * Before(14, 3) && Eights(14) < ROUNDING
    ensures Before(14, 1) >= ROUNDING && Before(14, 2) >= ROUNDING && Before(14, 3) >= ROUNDING
  {
    assert Eights(4) == 0x8888 && Eights(6) == 0x888888;
    assert Eights(8) == 0x88888888 && Eights(10) == 0x8888888888 && Eights(12) == 0x888888888888;
    assert Before(14, 1) == 0x888888888888878 && Before(14, 2) == 0x8888888888888778;
  }

  /** The shape of the partner: `k` roundings up, then exact passes over `m` digits 8. */
  ghost predicate RoundsUp(v: nat, m: nat, k: nat) {
    && m > 0 && v == 16 * Before(m, k) && Eights(m) < ROUNDING
    && forall i :: 1 <= i <= k ==> Before(m, i) >= ROUNDING
  }

  lemma {:induction false} RoundUpPasses(v: nat, m: nat, k: nat, j: nat)
    requires RoundsUp(v, m, k) && 1 <= j <= k + 1
    ensures Work(v, j) == Before(m, k + 1 - j)
  {
    if j > 1 {
      RoundUpPasses(v, m, k, j - 1);
      assert Before(m, k + 2 - j) == 16 * (Before(m, k + 1 - j) - 1) + 8;
    }
  }

  lemma {:induction false} EightsPasses(v: nat, j: nat, m: nat, n: nat)
    requires Work(v, j) == Eights(m) < ROUNDING && n <= m
    ensures Work(v, j + n) == Eights(m - n) <= Eights(m)
  {
    if n > 0 { EightsPasses(v, j, m, n - 1); }
  }

  lemma LastDigit(a: nat, d: nat)
    requires d < 16
    ensures (16 * a + d) % 16 == d
  {
  }

  lemma OverflowDigits(v: nat, top: nat, j: nat)
    requires v == 16 * (Sevens(top) + 1) && j <= top
    ensures Work(v, j) % 16 == if j == 0 then 0 else 8
  {
    if j == 0 {
      LastDigit(Sevens(top) + 1, 0);
    } else {
      OverflowPasses(v, top, 1, j);
      LastDigit(Sevens(top - j), 8);
    }
  }

  lemma OverflowZeros(v: nat, top: nat, i: nat)
    requires v == 16 * (Sevens(top) + 1) && i < 14
    ensures Work(v, top + 1 + i) % 16 == 0
  {
    Power14();
    OverflowPasses(v, top, 1, top + 1);
    SmallTail(v, top + 1, i);
    ShiftedPower(14, i);
    LastDigit(Pow(16, 13 - i), 0);
  }

  lemma PartnerDigits(v: nat, m: nat, k: nat, j: nat)
    requires RoundsUp(v, m, k) && j <= k + m
    ensures Work(v, j) % 16 == if j == 0 then 0 else 8
  {
    if j == 0 {
      LastDigit(Before(m, k), 0);
    } else if j <= k {
      RoundUpPasses(v, m, k, j);
      LastDigit(Before(m, k - j) - 1, 8);
    } else {
      RoundUpPasses(v, m, k, k + 1);
      EightsPasses(v, k + 1, m, j - k - 1);
      LastDigit(Eights(m + k - j), 8);
    }
  }

  lemma PartnerZeros(v: nat, m: nat, k: nat, i: nat)
    requires RoundsUp(v, m, k)
    ensures Work(v, k + m + 1 + i) % 16 == 0
  {
    RoundUpPasses(v, m, k, k + 1);
    EightsPasses(v, k + 1, m, m);
    SmallTail(v, k + 1 + m, i);
  }

  lemma {:induction false} SameWritten(v: nat, u: nat, n: nat)
    requires forall j :: 0 <= j < n ==> Work(v, j) % 16 == Work(u, j) % 16
    ensures Written(v, n) == Written(u, n)
  {
    if n > 0 { SameWritten(v, u, n - 1); }
  }

  /** Both are written as a run of digits 8 and a 0. */
  lemma WrittenAlike(v: nat, u: nat, m: nat, k: nat)
    requires RoundsUp(v, m, k) && u == 16 * (Sevens(k + m) + 1)
    ensures Written(v, k + m + 15) == Written(u, k + m + 15)
  {
    forall j | 0 <= j < k + m + 15 ensures Work(v, j) % 16 == Work(u, j) % 16 {
      if j <= k + m {
        OverflowDigits(u, k + m, j);
        PartnerDigits(v, m, k, j);
      } else {
        OverflowZeros(u, k + m, j - k - m - 1);
        PartnerZeros(v, m, k, j - k - m - 1);
      }
    }
    SameWritten(v, u, k + m + 15);
  }

  lemma OverflowCollides()
    ensures PARTNER < OVERFLOW && Written(PARTNER, 32) == Written(OVERFLOW, 32)
  {
    PartnerSpelled();
    OverflowSpelled();
    WrittenAlike(PARTNER, OVERFLOW, 14, 3);
  }

  ghost predicate DistinctBelow(bound: nat) {
    forall v, u :: 0 <= v < bound && 0 <= u < bound && Written(v, 32) == Written(u, 32) ==> v == u
  }

  /** The migration keeps all numbers below a bound distinct exactly when the bound is at most the overflow. */
  lemma DistinctBelowIff(bound: nat)
    requires bound <= LIMIT
    ensures DistinctBelow(bound) <==> bound <= OVERFLOW
  {
    if bound <= OVERFLOW {
      forall v, u | 0 <= v < bound && 0 <= u < bound && Written(v, 32) == Written(u, 32) ensures v == u {
        SameSideDistinct(v, u);
      }
    } else {
      OverflowCollides();
    }
  }

  /** What was left before pass `j` if the pass wrote `d` and left `w`. */
  function Undo(j: nat, d: nat, w: nat): Option<nat> {
    var plain := 16 * w + d;
    if Carry(j, plain) == 0 then Some(plain)
    else if w > 0 && Carry(j, plain - 16) == 1 then Some(plain - 16)
    else None
  }

  lemma UndoPass(j: nat, x: nat)
    ensures Undo(j, x % 16, Pass(j, x)) == Some(x)
  {
    var plain := 16 * Pass(j, x) + x % 16;
    if Carry(j, x) == 0 {
      assert plain == x;
    } else {
      assert plain == x + 16 && (x + 16) % 16 == x % 16;
      assert Carry(j, plain) == 1;
    }
  }

  lemma PassUndone(j: nat, d: nat, w: nat)
    requires d < 16 && Undo(j, d, w).Some?
    ensures var x := Undo(j, d, w).value; x % 16 == d && Pass(j, x) == w
  {
    var x := Undo(j, d, w).value;
    assert x == 16 * w + d || x == 16 * (w - 1) + d;
  }

  /** Undoing the passes back to `j` from nothing left after `n` of them, with the digits that `u` gets. */
  function Unwound(u: nat, n: nat, j: nat): Option<nat>
    requires j <= n
    decreases n - j
  {
    if j == n then Some(0) else
      match Unwound(u, n, j + 1)
      case None => None
      case Some(w) => Undo(j, Work(u, j) % 16, w)
  }

  /** Passes `j` to `n` write the same digits. */
  ghost predicate DigitsAlike(v: nat, u: nat, j: nat, n: nat) {
    forall k :: j <= k < n ==> Work(v, k) % 16 == Work(u, k) % 16
  }

  lemma {:induction false} UnwoundIff(v: nat, u: nat, n: nat, j: nat)
    requires j <= n && Work(v, n) == 0
    ensures Unwound(u, n, j) == Some(Work(v, j)) <==>
            DigitsAlike(v, u, j, n)
    decreases n - j
  {
    if j < n {
      UnwoundIff(v, u, n, j + 1);
      var next := Unwound(u, n, j + 1);
      if DigitsAlike(v, u, j, n) {
        assert Work(v, j) % 16 == Work(u, j) % 16 && DigitsAlike(v, u, j + 1, n);
        UndoPass(j, Work(v, j));
      } else if next.Some? && Undo(j, Work(u, j) % 16, next.value) == Some(Work(v, j)) {
        PassUndone(j, Work(u, j) % 16, next.value);
      }
    }
  }

  lemma {:induction false} SameDigits(v: nat, u: nat, n: nat, j: nat)
    requires j < n && Written(v, n) == Written(u, n)
    ensures Work(v, j) % 16 == Work(u, j) % 16
  {
    WrittenBelow(v, n - 1);
    WrittenBelow(u, n - 1);
    DivRem(Work(v, n - 1) % 16, Written(v, n - 1), Work(u, n - 1) % 16, Written(u, n - 1), Pow(16, n - 1));
    if j < n - 1 { SameDigits(v, u, n - 1, j); }
  }

  lemma AlikeIff(v: nat, u: nat, n: nat)
    ensures Written(v, n) == Written(u, n) <==> DigitsAlike(v, u, 0, n)
  {
    if Written(v, n) == Written(u, n) {
      forall k | 0 <= k < n ensures Work(v, k) % 16 == Work(u, k) % 16 { SameDigits(v, u, n, k); }
    } else if DigitsAlike(v, u, 0, n) {
      SameWritten(v, u, n);
    }
  }

  lemma UnwoundTwin(v: nat, u: nat, n: nat)
    requires Work(v, n) == 0
    ensures Written(v, n) == Written(u, n) <==> Unwound(u, n, 0) == Some(v)
  {
    UnwoundIff(v, u, n, 0);
    AlikeIff(v, u, n);
  }

  /** The number below the overflow that is written like `u`, if there is one. */
  function TwinOf(u: nat): Option<nat> {
    Unwound(u, 32, 0)
  }

  predicate Twins(v: nat, u: nat) {
    || (v < OVERFLOW <= u && TwinOf(u) == Some(v))
    || (u < OVERFLOW <= v && TwinOf(v) == Some(u))
  }

  /** Two numbers are written alike exactly when they are equal or one beyond the overflow and its twin. */
  lemma WrittenAlikeIff(v: nat, u: nat)
    requires v < LIMIT && u < LIMIT
    ensures Written(v, 32) == Written(u, 32) <==> v == u || Twins(v, u)
  {
    CarriedOutIff(v);
    CarriedOutIff(u);
    if v < OVERFLOW <= u {
      UnwoundTwin(v, u, 32);
    } else if u < OVERFLOW <= v {
      UnwoundTwin(u, v, 32);
    } else {
      SameSideDistinct(v, u);
    }
  }

  // ----- which keys stay distinct -----

  lemma LimitIs32Power()
    ensures LIMIT == 8 * Pow(32, 25)
  {
    assert Pow(32, 5) == 33554432;
    PowAdd(32, 5, 5);
    PowAdd(32, 10, 10);
    PowAdd(32, 20, 5);
  }

  lemma TopDigit(ds: seq<nat>)
    requires |ds| == 26 && Digits(ds, 32)
    ensures Value(ds[1..], 32) < Pow(32, 25)
    ensures Value(ds, 32) % LIMIT == (ds[0] % 8) * Pow(32, 25) + Value(ds[1..], 32)
  {
    assert ds == [ds[0]] + ds[1..];
    ValueCons(ds[0], ds[1..], 32);
    ValueBelow(ds[1..], 32);
    LimitIs32Power();
    Wrap(ds[0], Value(ds[1..], 32), Pow(32, 25));
  }

  /** Taking the value modulo 2^128 drops the top digit's two high bits. */
  lemma Wrap(d: nat, v: nat, p: nat)
    requires v < p
    ensures (d * p + v) % (8 * p) == (d % 8) * p + v
  {
    var q, r := d / 8, d % 8;
    var low := r * p + v;
    assert d == 8 * q + r;
    assert (8 * q + r) * p + v == q * (8 * p) + low;
    assert low < 8 * p by { MulMonotone(r + 1, 8, p); assert (r + 1) * p == r * p + p; }
    DivUnique(d * p + v, q, low, 8 * p);
  }

  /** Two ULIDs have one value modulo 2^128 exactly when they agree after the first symbol, and there modulo 8. */
  lemma SameValueIff(s: string, t: string)
    requires IsUlid(s) && IsUlid(t)
    ensures Val(s) % LIMIT == Val(t) % LIMIT <==>
            Indices(s)[1..] == Indices(t)[1..] && Indices(s)[0] % 8 == Indices(t)[0] % 8
  {
    var ds, es := Indices(s), Indices(t);
    TopDigit(ds);
    TopDigit(es);
    if Val(s) % LIMIT == Val(t) % LIMIT {
      DivRem(ds[0] % 8, Value(ds[1..], 32), es[0] % 8, Value(es[1..], 32), Pow(32, 25));
      ValueInjective(ds[1..], es[1..], 32);
    }
  }

  /** A ULID is migrated to its own value exactly when no rounding goes up. */
  lemma MigratedExactIff(s: string)
    requires IsUlid(s)
    ensures Migrated(s) == Val(s) % LIMIT <==> NoRoundingUp(Val(s) % LIMIT)
  {
    WrittenExactIff(Val(s) % LIMIT);
  }

  /** Two ULIDs get one UUID exactly when they have one value modulo 2^128 or their values are twins. */
  lemma CollideIff(s: string, t: string)
    requires IsUlid(s) && IsUlid(t)
    ensures Migrated(s) == Migrated(t) <==>
            || (Indices(s)[1..] == Indices(t)[1..] && Indices(s)[0] % 8 == Indices(t)[0] % 8)
            || Twins(Val(s) % LIMIT, Val(t) % LIMIT)
  {
    WrittenAlikeIff(Val(s) % LIMIT, Val(t) % LIMIT);
    SameValueIff(s, t);
  }

  function UpperAll(s: string): (r: string)
    ensures |r| == |s|
  {
    seq(|s|, i requires 0 <= i < |s| => Upper(s[i]))
  }

  lemma IndicesInjective(s: string, t: string)
    requires Valid(s) && Valid(t) && Indices(s) == Indices(t)
    ensures UpperAll(s) == UpperAll(t)
  {
    forall i | 0 <= i < |s| ensures Upper(s[i]) == Upper(t[i]) { assert Indices(s)[i] == Indices(t)[i]; }
  }

  /** Distinct keys stay distinct: on ULIDs that fit 128 bits and lie below the overflow, up to letter case. */
  lemma MigrationInjective(s: string, t: string)
    requires IsUlid(s) && IsUlid(t) && Indices(s)[0] <= 7 && Indices(t)[0] <= 7
    requires Val(s) % LIMIT < OVERFLOW && Val(t) % LIMIT < OVERFLOW
    requires Migrated(s) == Migrated(t)
    ensures UpperAll(s) == UpperAll(t)
  {
    CollideIff(s, t);
    SameIndices(s, t);
  }

  lemma SameIndices(s: string, t: string)
    requires IsUlid(s) && IsUlid(t) && Indices(s)[0] <= 7 && Indices(t)[0] <= 7
    requires Indices(s)[1..] == Indices(t)[1..] && Indices(s)[0] % 8 == Indices(t)[0] % 8
    ensures UpperAll(s) == UpperAll(t)
  {
    assert Indices(s) == [Indices(s)[0]] + Indices(s)[1..] && Indices(t) == [Indices(t)[0]] + Indices(t)[1..];
    IndicesInjective(s, t);
  }

  // ----- ULIDs on which it fails -----

  /** The value of the first `n` digits, computed from the left. */
  function Horner(ds: seq<nat>, n: nat): nat
    requires n <= |ds|
  {
    if n == 0 then 0 else Horner(ds, n - 1) * 32 + ds[n - 1]
  }

  lemma {:induction false} HornerIsValue(ds: seq<nat>, n: nat)
    requires n <= |ds|
    ensures Horner(ds, n) == Value(ds[..n], 32)
  {
    if n > 0 {
      HornerIsValue(ds, n - 1);
      assert ds[..n] == ds[..n - 1] + [ds[n - 1]];
      ValueSnoc(ds[..n - 1], ds[n - 1], 32);
    }
  }

  lemma ValueOf(s: string, ds: seq<nat>, v: nat)
    requires Valid(s) && Indices(s) == ds && Horner(ds, |ds|) == v
    ensures Val(s) == v
  {
    HornerIsValue(ds, |ds|);
    assert ds[..|ds|] == ds;
  }

  const ROUNDED := "01J2GV5GYMWQV0E619795NRVBY"
  const ROUNDED_DIGITS: seq<nat> :=
    [0, 1, 18, 2, 16, 27, 5, 16, 30, 20, 28, 23, 27, 0, 14, 6, 1, 9, 7, 9, 5, 21, 24, 27, 11, 30]

  lemma RoundedDigits()
    ensures IsUlid(ROUNDED) && Indices(ROUNDED) == ROUNDED_DIGITS
  {
    var s, ds := ROUNDED, ROUNDED_DIGITS;
    forall i | 0 <= i < 26 ensures Crockford(Upper(s[i])) == Some(ds[i]) {
      if i < 9 { assert s[i] == "01J2GV5GY"[i]; }
    }
  }

  lemma RoundedHalf()
    ensures Horner(ROUNDED_DIGITS, 16) == 0x64286cb0f5397d81c6
  {
    var ds := ROUNDED_DIGITS;
    assert Horner(ds, 4) == 0x642 && Horner(ds, 8) == 0x64286cb0 && Horner(ds, 12) == 0x64286cb0f5397;
  }

  lemma RoundedHorner()
    ensures Horner(ROUNDED_DIGITS, 26) == 0x0190a1b2c3d4e5f60718293a4b5c6d7e
  {
    var ds := ROUNDED_DIGITS;
    RoundedHalf();
    assert Horner(ds, 20) == 0x64286cb0f5397d81c60a4e9;
    assert Horner(ds, 24) == 0x64286cb0f5397d81c60a4e92d71b;
  }

  /** A third digit from the right that is 8 or more is rounded up. */
  lemma ThirdDigitRounds(s: string, v: nat, high: nat, d: nat, low: nat)
    requires IsUlid(s) && Val(s) == v < LIMIT && v == 256 * (16 * high + d) + low && low < 256
    requires 16 * high + d >= ROUNDING && 8 <= d < 16
    ensures Migrated(s) != Val(s)
  {
    assert Shifted(v, 1) == v / 16;
    assert Shifted(v, 2) == v / 16 / 16 == 16 * high + d;
    WrittenExactIff(v);
  }

  /** A ULID of the year 2024 that is not migrated to its own value. */
  lemma RoundedUlid()
    ensures IsUlid(ROUNDED) && Val(ROUNDED) == 0x0190a1b2c3d4e5f60718293a4b5c6d7e
    ensures Migrated(ROUNDED) != Val(ROUNDED)
  {
    RoundedDigits();
    RoundedHorner();
    ValueOf(ROUNDED, ROUNDED_DIGITS, 0x0190a1b2c3d4e5f60718293a4b5c6d7e);
    ThirdDigitRounds(ROUNDED, 0x0190a1b2c3d4e5f60718293a4b5c6d7e, 0x0190a1b2c3d4e5f60718293a4b5c6, 0xd, 0x7e);
  }

  /** A digit f that is rounded up into a run of digits f leaves a power of 16, and nothing but zeros to write. */
  lemma {:induction false} TopPasses(v: nat, n: nat, j: nat)
    requires n >= 2 && v == Pow(16, n) - 16 && Pow(16, n - 1) - 1 >= ROUNDING && 2 <= j <= n
    ensures Work(v, j) == Pow(16, n - j)
  {
    if j == 2 {
      assert Pow(16, n) == 16 * Pow(16, n - 1) && Pow(16, n - 1) == 16 * Pow(16, n - 2);
      assert Work(v, 1) == Pow(16, n - 1) - 1;
      assert Work(v, 1) == 16 * (Pow(16, n - 2) - 1) + 15;
    } else {
      TopPasses(v, n, j - 1);
      assert Pow(16, n - j + 1) == 16 * Pow(16, n - j) + 0;
      LastDigit(Pow(16, n - j), 0);
    }
  }

  lemma {:induction false} TopWritten(v: nat, n: nat, m: nat)
    requires n >= 2 && v == Pow(16, n) - 16 && Pow(16, n - 1) - 1 >= ROUNDING && 2 <= m <= n
    ensures Written(v, m) == 0xf0
  {
    if m == 2 {
      assert Pow(16, n) == 16 * Pow(16, n - 1) && Pow(16, n - 1) == 16 * Pow(16, n - 2);
      LastDigit(Pow(16, n - 1) - 1, 0);
      assert Work(v, 1) == Pow(16, n - 1) - 1;
      LastDigit(Pow(16, n - 2) - 1, 15);
      assert Pow(16, 1) == 16 && Written(v, 1) == 0;
    } else {
      TopWritten(v, n, m - 1);
      TopPasses(v, n, m - 1);
      LastDigit(Pow(16, n - m), 0);
      assert Pow(16, n - m + 1) == 16 * Pow(16, n - m);
    }
  }

  const TOP := "7ZZZZZZZZZZZZZZZZZZZZZZZZG"
  const LOW := "0000000000000000000000007G"

  lemma {:induction false} TopHorner(ds: seq<nat>, n: nat)
    requires 1 <= n <= |ds| && ds[0] == 7 && forall i :: 1 <= i < n ==> ds[i] == 31
    ensures Horner(ds, n) == 8 * Pow(32, n - 1) - 1
  {
    if n > 1 { TopHorner(ds, n - 1); }
  }

  lemma {:induction false} LowHorner(ds: seq<nat>, n: nat)
    requires n <= |ds| && forall i :: 0 <= i < n ==> ds[i] == 0
    ensures Horner(ds, n) == 0
  {
    if n > 0 { LowHorner(ds, n - 1); }
  }

  predicate IsTop(s: string) {
    |s| == 26 && s[0] == '7' && s[25] == 'G' && forall i :: 1 <= i < 25 ==> s[i] == 'Z'
  }

  predicate IsLow(s: string) {
    |s| == 26 && s[24] == '7' && s[25] == 'G' && forall i :: 0 <= i < 24 ==> s[i] == '0'
  }

  lemma TopValue(s: string)
    requires IsTop(s)
    ensures IsUlid(s) && Val(s) == LIMIT - 16
  {
    assert Valid(s);
    TopHorner(Indices(s), 25);
    LimitIs32Power();
    assert Pow(32, 25) == 32 * Pow(32, 24);
    ValueOf(s, Indices(s), LIMIT - 16);
  }

  lemma LowValue(s: string)
    requires IsLow(s)
    ensures IsUlid(s) && Val(s) == 0xf0
  {
    assert Valid(s);
    LowHorner(Indices(s), 24);
    assert Horner(Indices(s), 25) == 7;
    ValueOf(s, Indices(s), 0xf0);
  }

  lemma TopMigrated(s: string)
    requires IsUlid(s) && Val(s) == LIMIT - 16
    ensures Migrated(s) == 0xf0
  {
    LimitIsPower();
    assert Pow(16, 32) == 16 * Pow(16, 31);
    TopWritten(LIMIT - 16, 32, 32);
  }

  lemma LowMigrated(s: string)
    requires IsUlid(s) && Val(s) == 0xf0
    ensures Migrated(s) == 0xf0
  {
    SmallExact(0xf0);
  }

  /** Two ULIDs that fit 128 bits, on either side of the overflow, with one UUID. */
  lemma CollidingUlids()
    ensures IsUlid(TOP) && IsUlid(LOW) && TOP[0] == '7' && LOW[0] == '0'
    ensures Migrated(TOP) == Migrated(LOW) == 0xf0
  {
    TopValue(TOP);
    TopMigrated(TOP);
    LowValue(LOW);
    LowMigrated(LOW);
  }

  lemma SmallExact(v: nat)
    requires v < ROUNDING
    ensures Written(v, 32) == v
  {
    forall j | 1 <= j < 32 ensures Shifted(v, j) < ROUNDING { ShiftedSmaller(v, j); }
    WrittenExactIff(v);
  }

  lemma {:induction false} ShiftedSmaller(v: nat, j: nat)
    ensures Shifted(v, j) <= v
  {
    if j > 0 { ShiftedSmaller(v, j - 1); }
  }
}
