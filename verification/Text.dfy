/** Python-style text handling: whitespace, `strip`, `split`, and removal of substrings. */
module Text {

  /** The characters `str.strip` and `str.split` treat as whitespace. */
  predicate IsSpace(c: char) {
    var n := c as int;
    0x09 <= n <= 0x0D || 0x1C <= n <= 0x20 || n == 0x85 || n == 0xA0 || n == 0x1680 ||
    0x2000 <= n <= 0x200A || n == 0x2028 || n == 0x2029 || n == 0x202F || n == 0x205F || n == 0x3000
  }

  function StripLeft(s: string): string {
    if s != "" && IsSpace(s[0]) then StripLeft(s[1..]) else s
  }

  function StripRight(s: string): string {
    if s != "" && IsSpace(s[|s| - 1]) then StripRight(s[..|s| - 1]) else s
  }

  function Strip(s: string): string {
    StripRight(StripLeft(s))
  }

  lemma StripShorter(s: string)
    ensures |Strip(s)| <= |s|
  {
    StripLeftShorter(s);
    StripRightEnds(StripLeft(s));
  }

  lemma {:induction false} StripLeftShorter(s: string)
    ensures |StripLeft(s)| <= |s|
  {
    if s != "" && IsSpace(s[0]) {
      StripLeftShorter(s[1..]);
    }
  }

  lemma {:induction false} StripTwice(s: string)
    ensures Strip(Strip(s)) == Strip(s)
  {
    StripLeftEnds(s);
    StripRightEnds(StripLeft(s));
  }

  lemma {:induction false} StripLeftEnds(s: string)
    ensures var r := StripLeft(s); r == "" || !IsSpace(r[0])
  {
    if s != "" && IsSpace(s[0]) {
      StripLeftEnds(s[1..]);
    }
  }

  lemma {:induction false} StripRightEnds(s: string)
    ensures var r := StripRight(s); r <= s && (r == "" || !IsSpace(r[|r| - 1]))
  {
    if s != "" && IsSpace(s[|s| - 1]) {
      StripRightEnds(s[..|s| - 1]);
    }
  }

  // ----- split, for any notion of separator -----

  predicate Solid(s: string, sep: char -> bool) {
    forall i :: 0 <= i < |s| ==> !sep(s[i])
  }

  /** Length of the leading run free of separators. */
  function WordLength(s: string, sep: char -> bool): (n: nat)
    ensures n <= |s|
    ensures Solid(s[..n], sep)
    ensures n < |s| ==> sep(s[n])
  {
    if s == "" || sep(s[0]) then 0
    else
      var m := WordLength(s[1..], sep);
      assert s[..m + 1] == [s[0]] + s[1..][..m];
      m + 1
  }

  /** The maximal separator-free runs, in order: `raw.split()` when `sep` is IsSpace. */
  function Split(s: string, sep: char -> bool): (words: seq<string>)
    decreases |s|
  {
    if s == "" then []
    else if sep(s[0]) then Split(s[1..], sep)
    else var n := WordLength(s, sep); [s[..n]] + Split(s[n..], sep)
  }

  /** s[i..j] has a separator, or an end of `s`, on both sides and none inside. */
  ghost predicate RunAt(s: string, sep: char -> bool, i: nat, j: nat) {
    && i < j <= |s| && Solid(s[i..j], sep)
    && (i == 0 || sep(s[i - 1]))
    && (j == |s| || sep(s[j]))
  }

  ghost predicate WordAt(s: string, sep: char -> bool, i: nat, j: nat, w: string) {
    RunAt(s, sep, i, j) && s[i..j] == w
  }

  ghost predicate IsWord(s: string, sep: char -> bool, w: string) {
    exists i: nat, j: nat :: WordAt(s, sep, i, j, w)
  }

  /** Dropping everything up to and including a separator keeps the words that start later. */
  lemma DropPrefix(s: string, sep: char -> bool, n: nat, w: string)
    requires 0 < n <= |s| && sep(s[n - 1])
    requires forall i: nat, j: nat :: i < n && RunAt(s, sep, i, j) ==> s[i..j] != w
    ensures IsWord(s, sep, w) <==> IsWord(s[n..], sep, w)
  {
    if IsWord(s, sep, w) {
      var i: nat, j: nat :| WordAt(s, sep, i, j, w);
      assert n <= i;
      assert s[n..][i - n..j - n] == s[i..j];
      assert WordAt(s[n..], sep, i - n, j - n, w);
    }
    if IsWord(s[n..], sep, w) {
      var i: nat, j: nat :| WordAt(s[n..], sep, i, j, w);
      assert s[n..][i..j] == s[n + i..n + j];
      assert WordAt(s, sep, n + i, n + j, w);
    }
  }

  /** Within the first word there is only that word. */
  lemma OnlyFirstWord(s: string, sep: char -> bool, i: nat, j: nat)
    requires s != "" && !sep(s[0]) && RunAt(s, sep, i, j) && i <= WordLength(s, sep)
    ensures i == 0 && j == WordLength(s, sep)
  {
  }

  /** Splitting yields exactly the words. */
  lemma {:induction false} SplitIsWords(s: string, sep: char -> bool, w: string)
    ensures w in Split(s, sep) <==> IsWord(s, sep, w)
    decreases |s|
  {
    if s != "" {
      if sep(s[0]) {
        DropPrefix(s, sep, 1, w);
        SplitIsWords(s[1..], sep, w);
      } else {
        SplitFirst(s, sep, w);
      }
    }
  }

  lemma {:induction false} SplitFirst(s: string, sep: char -> bool, w: string)
    requires s != "" && !sep(s[0])
    ensures w in Split(s, sep) <==> IsWord(s, sep, w)
    decreases |s|, 0
  {
    var n := WordLength(s, sep);
    assert RunAt(s, sep, 0, n) && s[0..n] == s[..n];
    if w == s[..n] {
      assert WordAt(s, sep, 0, n, w);
    } else if n < |s| {
      forall i: nat, j: nat | i < n + 1 && RunAt(s, sep, i, j) ensures s[i..j] != w { OnlyFirstWord(s, sep, i, j); }
      DropPrefix(s, sep, n + 1, w);
      assert s[n..][1..] == s[n + 1..];
      SplitIsWords(s[n + 1..], sep, w);
    } else {
      forall i: nat, j: nat | RunAt(s, sep, i, j) ensures s[i..j] != w { OnlyFirstWord(s, sep, i, j); }
      assert s[n..] == "";
    }
  }

  lemma LastSeparator(s: string, sep: char -> bool, w: string)
    requires s != "" && sep(s[|s| - 1])
    ensures IsWord(s[..|s| - 1], sep, w) <==> IsWord(s, sep, w)
  {
    var n := |s| - 1;
    if IsWord(s, sep, w) {
      var i: nat, j: nat :| WordAt(s, sep, i, j, w);
      forall k | i <= k < j ensures !sep(s[k]) { assert s[i..j][k - i] == s[k]; }
      assert s[..n][i..j] == s[i..j];
      assert WordAt(s[..n], sep, i, j, w);
    }
    if IsWord(s[..n], sep, w) {
      var i: nat, j: nat :| WordAt(s[..n], sep, i, j, w);
      assert s[..n][i..j] == s[i..j];
      assert WordAt(s, sep, i, j, w);
    }
  }

  lemma {:induction false} StripRightKeepsWords(s: string, w: string)
    ensures IsWord(StripRight(s), IsSpace, w) <==> IsWord(s, IsSpace, w)
  {
    if s != "" && IsSpace(s[|s| - 1]) {
      LastSeparator(s, IsSpace, w);
      StripRightKeepsWords(s[..|s| - 1], w);
    }
  }

  lemma {:induction false} StripLeftKeepsWords(s: string, w: string)
    ensures IsWord(StripLeft(s), IsSpace, w) <==> IsWord(s, IsSpace, w)
  {
    if s != "" && IsSpace(s[0]) {
      SplitIsWords(s, IsSpace, w);
      SplitIsWords(s[1..], IsSpace, w);
      StripLeftKeepsWords(s[1..], w);
    }
  }

  /** Stripping changes no word. */
  lemma StripKeepsWords(s: string, w: string)
    ensures IsWord(Strip(s), IsSpace, w) <==> IsWord(s, IsSpace, w)
  {
    StripLeftKeepsWords(s, w);
    StripRightKeepsWords(StripLeft(s), w);
  }

  // ----- str.replace(sub, "") -----

  /** Every non-overlapping occurrence of `sub`, taken from the left, removed. */
  function RemoveAll(s: string, sub: string): (r: string)
    requires sub != ""
    ensures |r| <= |s|
    ensures forall c :: c in r ==> c in s
    decreases |s|
  {
    if |s| < |sub| then s
    else if s[..|sub|] == sub then RemoveAll(s[|sub|..], sub)
    else [s[0]] + RemoveAll(s[1..], sub)
  }

  /** Nothing is removed when the substring's first character does not occur. */
  lemma {:induction false} RemoveNothing(s: string, sub: string)
    requires sub != "" && sub[0] !in s
    ensures RemoveAll(s, sub) == s
    decreases |s|
  {
    if |s| >= |sub| {
      assert s[0] in s;
      RemoveNothing(s[1..], sub);
    }
  }
}
