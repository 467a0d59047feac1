/** UUIDs as 128-bit numbers and their text forms (section 4 of RFC 9562). */
module Uuid {
  import opened Common
  import opened Numerals
  import opened Text

  const LIMIT: nat := 0x1_0000_0000_0000_0000_0000_0000_0000_0000  // 2^128

  lemma LimitIsPower()
    ensures LIMIT == Pow(16, 32)
  {
    assert Pow(16, 4) == 0x1_0000;
    PowAdd(16, 4, 4);
    PowAdd(16, 8, 8);
    PowAdd(16, 16, 16);
  }

  // ----- hexadecimal -----

  function HexSymbol(d: nat): char
    requires d < 16
  {
    if d < 10 then ('0' as int + d) as char else ('a' as int + d - 10) as char
  }

  function HexDigit(c: char): Option<nat> {
    if '0' <= c <= '9' then Some(c as int - '0' as int)
    else if 'a' <= c <= 'f' then Some(c as int - 'a' as int + 10)
    else if 'A' <= c <= 'F' then Some(c as int - 'A' as int + 10)
    else None
  }

  predicate AllHex(s: string) {
    forall i :: 0 <= i < |s| ==> HexDigit(s[i]).Some?
  }

  function HexDigits(s: string): (ds: seq<nat>)
    requires AllHex(s)
    ensures |ds| == |s| && Digits(ds, 16)
  {
    seq(|s|, i requires 0 <= i < |s| => HexDigit(s[i]).value)
  }

  function HexValue(s: string): nat
    requires AllHex(s)
  {
    Value(HexDigits(s), 16)
  }

  /** The last `n` hexadecimal digits of `u`. */
  function Hex(u: nat, n: nat): (s: string)
    ensures |s| == n
    ensures forall c :: c in s ==> '0' <= c <= '9' || 'a' <= c <= 'f'
    decreases n
  {
    if n == 0 then "" else Hex(u / 16, n - 1) + [HexSymbol(u % 16)]
  }

  lemma {:induction false} HexRoundTrip(u: nat, n: nat)
    requires u < Pow(16, n)
    ensures AllHex(Hex(u, n)) && HexValue(Hex(u, n)) == u
    decreases n
  {
    if n > 0 {
      HexRoundTrip(u / 16, n - 1);
      var front := Hex(u / 16, n - 1);
      assert HexDigits(Hex(u, n)) == HexDigits(front) + [u % 16];
      ValueSnoc(HexDigits(front), u % 16, 16);
    }
  }

  // ----- text forms -----

  /** The canonical 8-4-4-4-12 layout. */
  function Hyphenate(h: string): string
    requires |h| == 32
  {
    h[..8] + "-" + h[8..12] + "-" + h[12..16] + "-" + h[16..20] + "-" + h[20..]
  }

  /** `str(uuid)`. */
  function ToText(u: nat): string {
    Hyphenate(Hex(u, 32))
  }

  function StripBraces(s: string): (r: string)
    ensures |r| <= |s|
  {
    if s == "" then ""
    else if s[0] == '{' || s[0] == '}' then StripBraces(s[1..])
    else if s[|s| - 1] == '{' || s[|s| - 1] == '}' then StripBraces(s[..|s| - 1])
    else s
  }

  function Bare(s: string): (r: string)
    ensures |r| <= |s|
  {
    RemoveAll(StripBraces(RemoveAll(RemoveAll(s, "urn:"), "uuid:")), "-")
  }

  /** What `int(text, 16)` reads digits from: without surrounding space, plus sign and 0x prefix. */
  function IntBody(s: string): (r: string)
    ensures |r| <= |s|
  {
    StripShorter(s);
    var t := Strip(s);
    var u := if t != "" && t[0] == '+' then t[1..] else t;
    if |u| >= 2 && u[0] == '0' && (u[1] == 'x' || u[1] == 'X') then
      if |u| >= 3 && u[2] == '_' then u[3..] else u[2..]
    else u
  }

  /** Underscores stand singly between digits. */
  predicate Grouped(s: string) {
    && s != "" && s[0] != '_' && s[|s| - 1] != '_'
    && forall i :: 0 <= i < |s| - 1 ==> s[i] != '_' || s[i + 1] != '_'
  }

  /** `int(text, 16)` for text without a minus sign. */
  function HexInt(s: string): Option<nat> {
    var digits := RemoveAll(IntBody(s), "_");
    if Grouped(IntBody(s)) && AllHex(digits) then Some(HexValue(digits)) else None
  }

  /** `UUID(text)`: prefixes, braces and hyphens dropped, then 32 characters that read as a hexadecimal number. */
  function FromText(s: string): Option<nat> {
    var h := Bare(s);
    if |h| == 32 then HexInt(h) else None
  }

  /** What is read is a 128-bit number. */
  lemma FromTextBelow(s: string)
    requires FromText(s).Some?
    ensures FromText(s).value < LIMIT
  {
    LimitIsPower();
    var digits := RemoveAll(IntBody(Bare(s)), "_");
    ValueBelow(HexDigits(digits), 16);
    PowMonotone(16, |digits|, 32);
  }

  /** A text of fewer than 32 characters is never taken for a UUID. */
  lemma TooShort(s: string)
    requires |s| < 32
    ensures FromText(s) == None
  {
  }

  lemma {:induction false} RemoveFromConcat(a: string, b: string)
    ensures RemoveAll(a + b, "-") == RemoveAll(a, "-") + RemoveAll(b, "-")
    decreases |a|
  {
    if a == "" {
      assert a + b == b;
    } else {
      RemoveFromConcat(a[1..], b);
      assert (a + b)[1..] == a[1..] + b && (a + b)[..1] == a[..1] == [a[0]];
    }
  }

  lemma RemoveHyphens(a: string, b: string)
    requires '-' !in a
    ensures RemoveAll(a + "-" + b, "-") == a + RemoveAll(b, "-")
  {
    assert a + "-" + b == a + ("-" + b);
    RemoveFromConcat(a, "-" + b);
    RemoveFromConcat("-", b);
    assert "-"[..1] == "-" && "-"[1..] == "";
    assert RemoveAll("-", "-") == "";
    RemoveNothing(a, "-");
  }

  ghost predicate LowerHex(s: string) {
    forall c :: c in s ==> '0' <= c <= '9' || 'a' <= c <= 'f'
  }

  lemma HyphenatedSymbols(h: string, x: char)
    requires |h| == 32 && LowerHex(h) && x in Hyphenate(h)
    ensures x == '-' || '0' <= x <= '9' || 'a' <= x <= 'f'
  {
    var s := Hyphenate(h);
    var i :| 0 <= i < |s| && s[i] == x;
    assert s[i] == '-' || s[i] in h;
  }

  lemma HyphenatedPieces(h: string)
    requires |h| == 32 && LowerHex(h)
    ensures RemoveAll(Hyphenate(h), "-") == h
  {
    var a, b, c, d, e := h[..8], h[8..12], h[12..16], h[16..20], h[20..];
    assert '-' !in h;
    forall x | x in a || x in b || x in c || x in d || x in e ensures x in h { }
    var s3 := d + "-" + e;
    var s2 := c + "-" + s3;
    var s1 := b + "-" + s2;
    assert Hyphenate(h) == a + "-" + s1;
    RemoveHyphens(a, s1);
    RemoveHyphens(b, s2);
    RemoveHyphens(c, s3);
    RemoveHyphens(d, e);
    RemoveNothing(e, "-");
    assert h == a + (b + (c + (d + e)));
  }

  /** Reading back the canonical layout recovers its digits. */
  lemma BareHyphenated(h: string)
    requires |h| == 32 && LowerHex(h)
    ensures Bare(Hyphenate(h)) == h
  {
    var s := Hyphenate(h);
    forall x | x in s ensures x != 'u' && x != '{' && x != '}' { HyphenatedSymbols(h, x); }
    RemoveNothing(s, "urn:");
    RemoveNothing(s, "uuid:");
    assert s[0] in s && s[|s| - 1] in s;
    HyphenatedPieces(h);
  }

  /** Plain digits are read as they stand. */
  lemma PlainHexInt(h: string)
    requires h != "" && LowerHex(h)
    ensures AllHex(h) && HexInt(h) == Some(HexValue(h))
  {
    forall i | 0 <= i < |h| ensures HexDigit(h[i]).Some? && h[i] != '_' && h[i] != 'x' { assert h[i] in h; }
    assert h[0] in h && h[|h| - 1] in h;
    assert Strip(h) == h && IntBody(h) == h;
    RemoveNothing(h, "_");
  }

  lemma HyphenatedValue(h: string)
    requires |h| == 32 && LowerHex(h)
    ensures AllHex(h) && FromText(Hyphenate(h)) == Some(HexValue(h))
  {
    BareHyphenated(h);
    PlainHexInt(h);
  }

  /** Printing a UUID and parsing the text gives the UUID back. */
  lemma TextRoundTrip(u: nat)
    requires u < LIMIT
    ensures FromText(ToText(u)) == Some(u)
  {
    LimitIsPower();
    HexRoundTrip(u, 32);
    HyphenatedValue(Hex(u, 32));
  }
}
