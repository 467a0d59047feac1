/** Public identifiers: UUIDs written in Base62, and the parser that accepts either text form. */
module Base62 {
  import opened Common
  import opened Numerals
  import opened Text
  import opened Uuid

  datatype ParseError = Empty | InvalidChar | Overflow

  /** The alphabet: digits, then upper case, then lower case. */
  function Symbol(d: nat): char
    requires d < 62
  {
    if d < 10 then ('0' as int + d) as char
    else if d < 36 then ('A' as int + d - 10) as char
    else ('a' as int + d - 36) as char
  }

  function Index(c: char): Option<nat> {
    if '0' <= c <= '9' then Some(c as int - '0' as int)
    else if 'A' <= c <= 'Z' then Some(c as int - 'A' as int + 10)
    else if 'a' <= c <= 'z' then Some(c as int - 'a' as int + 36)
    else None
  }

  /** The 62 symbols are the ASCII letters and digits in ASCII order, and nothing else is one. */
  lemma AlphabetInOrder(d: nat, e: nat, c: char)
    requires d < e < 62
    ensures Symbol(d) < Symbol(e) && Index(Symbol(d)) == Some(d) && Index(Symbol(e)) == Some(e)
    ensures Index(c).Some? <==> '0' <= c <= '9' || 'A' <= c <= 'Z' || 'a' <= c <= 'z'
  {
  }

  predicate Valid(s: string) {
    forall i :: 0 <= i < |s| ==> Index(s[i]).Some?
  }

  function Indices(s: string): (ds: seq<nat>)
    requires Valid(s)
    ensures |ds| == |s| && Digits(ds, 62)
  {
    seq(|s|, i requires 0 <= i < |s| => Index(s[i]).value)
  }

  function Val(s: string): nat
    requires Valid(s)
  {
    Value(Indices(s), 62)
  }

  lemma IndicesInjective(s: string, t: string)
    requires Valid(s) && Valid(t) && Indices(s) == Indices(t)
    ensures s == t
  {
    forall i | 0 <= i < |s| ensures s[i] == t[i] { assert Indices(s)[i] == Indices(t)[i]; }
  }

  /** `s` is the canonical Base62 spelling of `u`. */
  ghost predicate Spells(s: string, u: nat) {
    Valid(s) && Canonical(Indices(s)) && Val(s) == u
  }

  lemma SpellingUnique(s: string, t: string, u: nat)
    requires Spells(s, u) && Spells(t, u)
    ensures s == t
  {
    CanonicalUnique(Indices(s), Indices(t), 62);
    IndicesInjective(s, t);
  }

  lemma LimitBelow62Power()
    ensures LIMIT <= Pow(62, 22)
  {
    assert Pow(62, 5) == 916132832;
    assert Pow(62, 6) == 62 * Pow(62, 5);
    PowAdd(62, 5, 6);
    PowAdd(62, 11, 11);
  }

  /** Canonical spellings of 128-bit numbers have at most 22 characters. */
  lemma SpellingLength(s: string, u: nat)
    requires Spells(s, u) && u < LIMIT
    ensures |s| <= 22
  {
    if |s| > 22 {
      CanonicalAtLeast(Indices(s), 62);
      PowMonotone(62, 22, |s| - 1);
      LimitBelow62Power();
    }
  }

  // ----- encoding -----

  method UuidToBase62(u: nat) returns (s: string)
    requires u < LIMIT
    ensures Spells(s, u) && |s| <= 22
  {
    if u == 0 {
      s := [Symbol(0)];
      assert Indices(s) == [0];
      return;
    }
    var n, out := u, "";
    ghost var ds: seq<nat> := [];
    while n > 0
      invariant Partway(u, n, out, ds)
    {
      var r := n % 62;
      OneMoreDigit(u, n, out, ds);
      ds := [r] + ds;
      n, out := n / 62, out + [Symbol(r)];
    }
    s := Reversed(out);
    SpelledBack(ds);
    SpellingLength(s, u);
  }

  /** `out` holds, backwards, the digits `ds` already split off `u`; `n` is what remains. */
  ghost predicate Partway(u: nat, n: nat, out: string, ds: seq<nat>) {
    && Digits(ds, 62) && Reversed(out) == Spelled(ds)
    && u == n * Pow(62, |ds|) + Value(ds, 62)
    && (n == 0 ==> Canonical(ds))
  }

  lemma OneMoreDigit(u: nat, n: nat, out: string, ds: seq<nat>)
    requires Partway(u, n, out, ds) && n > 0
    ensures Partway(u, n / 62, out + [Symbol(n % 62)], [n % 62] + ds)
  {
    var c := Symbol(n % 62);
    DigitStep(n, ds);
    assert Reversed(out + [c]) == [c] + Reversed(out);
    assert Spelled([n % 62] + ds) == [c] + Spelled(ds);
  }

  function Spelled(ds: seq<nat>): (s: string)
    requires Digits(ds, 62)
    ensures |s| == |ds|
  {
    seq(|ds|, i requires 0 <= i < |ds| => Symbol(ds[i]))
  }

  lemma SpelledBack(ds: seq<nat>)
    requires Digits(ds, 62)
    ensures Valid(Spelled(ds)) && Indices(Spelled(ds)) == ds
  {
  }

  /** One division step moves the remainder into the digits. */
  lemma DigitStep(n: nat, ds: seq<nat>)
    ensures n * Pow(62, |ds|) + Value(ds, 62) == (n / 62) * Pow(62, |ds| + 1) + Value([n % 62] + ds, 62)
  {
    ValueCons(n % 62, ds, 62);
    Carry(n, Pow(62, |ds|));
  }

  lemma Carry(n: nat, p: nat)
    ensures n * p == (n / 62) * (62 * p) + (n % 62) * p
  {
  }

  function Reversed(s: string): (r: string)
    ensures |r| == |s| && forall i :: 0 <= i < |s| ==> r[i] == s[|s| - 1 - i]
  {
    if s == "" then "" else Reversed(s[1..]) + [s[0]]
  }

  // ----- decoding -----

  /** The first character at which the scan stops: an unknown one, or one that takes the value past 128 bits. */
  ghost predicate StopsAt(t: string, i: nat, e: ParseError) {
    && i < |t| && Valid(t[..i]) && Val(t[..i]) < LIMIT
    && (e == InvalidChar ==> Index(t[i]).None?)
    && (e == Overflow ==> Valid(t[..i + 1]) && Val(t[..i + 1]) >= LIMIT)
    && e != Empty
  }

  method Base62ToUuid(s: string) returns (r: Result<nat, ParseError>)
    ensures var t := Strip(s);
            && (r.Ok? <==> t != "" && Valid(t) && Val(t) < LIMIT)
            && (r.Ok? ==> r.value == Val(t))
            && (r == Err(Empty) <==> t == "")
            && (r.Err? && r.error != Empty ==> exists i :: StopsAt(t, i, r.error))
  {
    var t := Strip(s);
    if t == "" {
      return Err(Empty);
    }
    var n := 0;
    for i := 0 to |t|
      invariant Valid(t[..i]) && n == Val(t[..i]) && n < LIMIT
    {
      var idx := Index(t[i]);
      if idx.None? {
        assert StopsAt(t, i, InvalidChar);
        return Err(InvalidChar);
      }
      assert t[..i + 1] == t[..i] + [t[i]];
      assert Indices(t[..i + 1]) == Indices(t[..i]) + [idx.value];
      ValueSnoc(Indices(t[..i]), idx.value, 62);
      n := n * 62 + idx.value;
      if n >= LIMIT {
        PrefixOverflows(t, i + 1);
        assert StopsAt(t, i, Overflow);
        return Err(Overflow);
      }
    }
    assert t[..|t|] == t;
    r := Ok(n);
  }

  /** Once a prefix is past 128 bits, so is every valid continuation: the early exit rejects nothing else. */
  lemma PrefixOverflows(t: string, n: nat)
    requires n <= |t| && Valid(t[..n]) && Val(t[..n]) >= LIMIT
    ensures Valid(t) ==> Val(t) >= LIMIT
  {
    if Valid(t) {
      ValuePrefix(Indices(t), n, 62);
      assert Indices(t)[..n] == Indices(t[..n]);
    }
  }

  // ----- the public parser -----

  /** `parse_public_id_value` on a string: UUID text if it reads as one, else Base62. */
  method ParsePublicId(v: string) returns (r: Result<nat, ParseError>)
    ensures var t := Strip(v);
            && (t == "" ==> r == Err(Empty))
            && (t != "" && FromText(t).Some? ==> r == Ok(FromText(t).value))
            && (FromText(t) == None ==>
                  && (r.Ok? <==> t != "" && Valid(t) && Val(t) < LIMIT)
                  && (r.Ok? ==> r.value == Val(t)))
  {
    var t := Strip(v);
    if t == "" {
      return Err(Empty);
    }
    var uuid := FromText(t);
    if uuid.Some? {
      return Ok(uuid.value);
    }
    StripTwice(v);
    r := Base62ToUuid(t);
  }

  lemma SpellingHasNoSpace(s: string)
    requires Valid(s)
    ensures Strip(s) == s
  {
  }

  /** Every UUID survives encoding and decoding, and the public parser never mistakes its spelling for UUID text. */
  method RoundTrip(u: nat) returns (s: string, decoded: Result<nat, ParseError>, parsed: Result<nat, ParseError>)
    requires u < LIMIT
    ensures Spells(s, u) && decoded == Ok(u) && parsed == Ok(u)
  {
    s := UuidToBase62(u);
    SpellingHasNoSpace(s);
    TooShort(s);
    decoded := Base62ToUuid(s);
    parsed := ParsePublicId(s);
  }

  /** Re-encoding what was decoded gives the text back without surrounding space and leading zeros. */
  method Normalise(s: string) returns (t: string)
    requires var r := Strip(s); r != "" && Valid(r) && Val(r) < LIMIT
    ensures Valid(t) && Indices(t) == Trim(Indices(Strip(s)))
  {
    var r := Base62ToUuid(s);
    t := UuidToBase62(r.value);
    ghost var ds := Indices(Strip(s));
    TrimKeepsValue(ds, 62);
    CanonicalUnique(Indices(t), Trim(ds), 62);
  }
}
