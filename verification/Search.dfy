/**
Post search: a query is split into words, each word is turned into an escaped ILIKE pattern, and a
post matches when every pattern matches its title, its content or one of its hashtags.
LIKE follows section 9.7.1 of the PostgreSQL manual with backslash as the escape character; ILIKE
compares after folding case with a given `fold`, which may change lengths and look at neighbouring
characters.
*/
module Search {
  import opened Text

  type Fold = string -> string

  type CharFold = char -> string

  // ----- LIKE -----

  predicate Like(p: string, s: string)
    decreases |p|, |s|
  {
    if p == "" then s == ""
    else if p[0] == '%' then Like(p[1..], s) || (s != "" && Like(p, s[1..]))
    else if p[0] == '_' then s != "" && Like(p[1..], s[1..])
    else if p[0] == '\\' then |p| > 1 && s != "" && s[0] == p[1] && Like(p[2..], s[1..])
    else s != "" && s[0] == p[0] && Like(p[1..], s[1..])
  }

  function Folded(fold: CharFold, s: string): string {
    if s == "" then "" else fold(s[0]) + Folded(fold, s[1..])
  }

  predicate ILike(fold: Fold, p: string, s: string) {
    Like(fold(p), fold(s))
  }

  predicate IsSpecial(c: char) {
    c == '\\' || c == '%' || c == '_'
  }

  /** Folding a pattern is making the pattern of the folded token. */
  ghost predicate KeepsPatterns(fold: Fold) {
    forall t :: fold("%" + Escaped(t) + "%") == "%" + Escaped(fold(t)) + "%"
  }

  function PerCharacter(fold: CharFold): Fold {
    s => Folded(fold, s)
  }

  /** A folding that neither creates nor destroys a pattern character. */
  ghost predicate KeepsSpecials(fold: CharFold) {
    forall c :: if IsSpecial(c) then fold(c) == [c] else Plain(fold(c))
  }

  predicate Plain(s: string) {
    forall i :: 0 <= i < |s| ==> !IsSpecial(s[i])
  }

  function AsciiLower(c: char): string {
    if 'A' <= c <= 'Z' then [(c as int + 32) as char] else [c]
  }

  lemma AsciiLowerKeepsSpecials()
    ensures KeepsSpecials(AsciiLower)
  {
  }

  // ----- escaping -----

  /** `s.replace(c, with)` for a single character. */
  function Replace(s: string, c: char, with: string): string {
    if s == "" then "" else (if s[0] == c then with else [s[0]]) + Replace(s[1..], c, with)
  }

  /** The three replacements in the order the code makes them. */
  function EscapeToken(token: string): string {
    Replace(Replace(Replace(token, '\\', "\\\\"), '%', "\\%"), '_', "\\_")
  }

  function EscapedChar(c: char): string {
    if IsSpecial(c) then ['\\', c] else [c]
  }

  /** What they are meant to do: put a backslash before every pattern character. */
  function Escaped(token: string): string {
    if token == "" then "" else EscapedChar(token[0]) + Escaped(token[1..])
  }

  lemma {:induction false} ReplaceConcat(s: string, t: string, c: char, with: string)
    ensures Replace(s + t, c, with) == Replace(s, c, with) + Replace(t, c, with)
  {
    if s == "" {
      assert s + t == t;
    } else {
      assert (s + t)[0] == s[0] && (s + t)[1..] == s[1..] + t;
      ReplaceConcat(s[1..], t, c, with);
      var head := if s[0] == c then with else [s[0]];
      var x, y := Replace(s[1..], c, with), Replace(t, c, with);
      assert head + (x + y) == head + x + y;
    }
  }

  lemma ReplaceShort(a: char, c: char, with: string)
    ensures Replace([a], c, with) == if a == c then with else [a]
    ensures Replace(['\\', a], c, with) ==
            (if '\\' == c then with else ['\\']) + (if a == c then with else [a])
  {
  }

  /** Replacing in sequence escapes each character once: the backslashes come first. */
  lemma {:induction false} EscapeIsPerCharacter(token: string)
    ensures EscapeToken(token) == Escaped(token)
  {
    if token != "" {
      var a, rest := token[0], token[1..];
      var s1 := Replace(rest, '\\', "\\\\");
      var s2 := Replace(s1, '%', "\\%");
      EscapeIsPerCharacter(rest);
      var h1 := if a == '\\' then "\\\\" else [a];
      assert Replace(token, '\\', "\\\\") == h1 + s1;
      ReplaceConcat(h1, s1, '%', "\\%");
      ReplaceShort(a, '%', "\\%");
      var h2 := if a == '%' then "\\%" else h1;
      assert Replace(h1, '%', "\\%") == h2;
      ReplaceConcat(h2, s2, '_', "\\_");
      ReplaceShort(a, '_', "\\_");
      assert Replace(h2, '_', "\\_") == if IsSpecial(a) then ['\\', a] else [a];
    }
  }

  // ----- what the patterns mean -----

  lemma OneCharacter(c: char, q: string, s: string)
    ensures Like(EscapedChar(c) + q, s) <==> s != "" && s[0] == c && Like(q, s[1..])
  {
  }

  /** An escaped token followed by `q` matches exactly the strings that start with the token. */
  lemma {:induction false} EscapedIsLiteral(t: string, q: string, s: string)
    ensures Like(Escaped(t) + q, s) <==> t <= s && Like(q, s[|t|..])
  {
    if t == "" {
      assert Escaped(t) + q == q;
    } else {
      var rest := Escaped(t[1..]) + q;
      assert Escaped(t) + q == EscapedChar(t[0]) + rest;
      OneCharacter(t[0], rest, s);
      if s != "" {
        EscapedIsLiteral(t[1..], q, s[1..]);
        assert t <= s <==> t[0] == s[0] && t[1..] <= s[1..];
        assert t <= s ==> s[1..][|t[1..]|..] == s[|t|..];
      }
    }
  }

  lemma {:induction false} PercentMatchesAll(s: string)
    ensures Like("%", s)
  {
    if s != "" {
      PercentMatchesAll(s[1..]);
    }
    assert "%"[1..] == "";
  }

  lemma {:induction false} LeadingPercent(q: string, s: string)
    ensures Like("%" + q, s) <==> exists i :: 0 <= i <= |s| && Like(q, s[i..])
    decreases |s|
  {
    var p := "%" + q;
    assert p[1..] == q && s[0..] == s;
    if s == "" {
      assert forall i :: 0 <= i <= |s| ==> s[i..] == s;
    } else {
      LeadingPercent(q, s[1..]);
      assert forall i :: 0 <= i <= |s[1..]| ==> s[1..][i..] == s[i + 1..];
      if i :| 0 <= i <= |s| && Like(q, s[i..]) && i > 0 {
        assert s[1..][i - 1..] == s[i..];
      }
    }
  }

  ghost predicate OccursAt(t: string, s: string, i: nat) {
    i <= |s| && t <= s[i..]
  }

  ghost predicate Occurs(t: string, s: string) {
    exists i: nat :: OccursAt(t, s, i)
  }

  lemma EscapedContains(t: string, s: string)
    ensures Like("%" + Escaped(t) + "%", s) <==> Occurs(t, s)
  {
    assert "%" + Escaped(t) + "%" == "%" + (Escaped(t) + "%");
    LeadingPercent(Escaped(t) + "%", s);
    forall i: nat | i <= |s|
      ensures Like(Escaped(t) + "%", s[i..]) <==> OccursAt(t, s, i)
    {
      EscapedIsLiteral(t, "%", s[i..]);
      if t <= s[i..] {
        PercentMatchesAll(s[i..][|t|..]);
      }
    }
  }

  lemma {:induction false} FoldConcat(fold: CharFold, s: string, t: string)
    ensures Folded(fold, s + t) == Folded(fold, s) + Folded(fold, t)
  {
    if s == "" {
      assert s + t == t;
    } else {
      assert (s + t)[0] == s[0] && (s + t)[1..] == s[1..] + t;
      FoldConcat(fold, s[1..], t);
    }
  }

  lemma {:induction false} EscapeConcat(s: string, t: string)
    ensures Escaped(s + t) == Escaped(s) + Escaped(t)
  {
    if s == "" {
      assert s + t == t;
    } else {
      assert (s + t)[0] == s[0] && (s + t)[1..] == s[1..] + t;
      EscapeConcat(s[1..], t);
    }
  }

  lemma {:induction false} PlainNeedsNoEscape(s: string)
    requires Plain(s)
    ensures Escaped(s) == s
  {
    if s != "" {
      PlainNeedsNoEscape(s[1..]);
      assert s == [s[0]] + s[1..];
    }
  }

  lemma FoldEscapedChar(fold: CharFold, c: char)
    requires KeepsSpecials(fold)
    ensures Folded(fold, EscapedChar(c)) == Escaped(fold(c))
  {
    if IsSpecial(c) {
      assert IsSpecial('\\') && EscapedChar(c)[1..] == [c] && [c][1..] == "";
      assert Folded(fold, [c]) == [c];
    } else {
      assert [c][1..] == "";
      PlainNeedsNoEscape(fold(c));
    }
  }

  /** Folding an escaped token is escaping the folded token. */
  lemma {:induction false} FoldEscaped(fold: CharFold, t: string)
    requires KeepsSpecials(fold)
    ensures Folded(fold, Escaped(t)) == Escaped(Folded(fold, t))
  {
    if t != "" {
      FoldEscaped(fold, t[1..]);
      FoldConcat(fold, EscapedChar(t[0]), Escaped(t[1..]));
      FoldEscapedChar(fold, t[0]);
      EscapeConcat(fold(t[0]), Folded(fold, t[1..]));
    }
  }

  /** Foldings that take each character on its own and leave the pattern characters alone are of that kind. */
  lemma PerCharacterKeepsPatterns(fold: CharFold)
    requires KeepsSpecials(fold)
    ensures KeepsPatterns(PerCharacter(fold))
  {
    forall t ensures Folded(fold, "%" + Escaped(t) + "%") == "%" + Escaped(Folded(fold, t)) + "%" {
      assert IsSpecial('%') && "%"[1..] == "" && Folded(fold, "%") == "%";
      FoldConcat(fold, "%" + Escaped(t), "%");
      FoldConcat(fold, "%", Escaped(t));
      FoldEscaped(fold, t);
    }
  }

  function Pattern(token: string): string {
    "%" + EscapeToken(token) + "%"
  }

  /** Translation theorem: a token's pattern matches a text exactly when the token occurs in it, case aside. */
  lemma PatternMeansOccurrence(fold: Fold, token: string, text: string)
    requires KeepsPatterns(fold)
    ensures ILike(fold, Pattern(token), text) <==> Occurs(fold(token), fold(text))
  {
    EscapeIsPerCharacter(token);
    EscapedContains(fold(token), fold(text));
  }

  // ----- the search filter -----

  datatype Post = Post(title: string, content: string, hashtags: set<string>)

  predicate TokenClause(fold: Fold, token: string, post: Post) {
    var pattern := Pattern(token);
    || ILike(fold, pattern, post.title)
    || ILike(fold, pattern, post.content)
    || exists tag :: tag in post.hashtags && ILike(fold, pattern, tag)
  }

  /** `s.lstrip("#")`. */
  function DropHashes(s: string): string {
    if s != "" && s[0] == '#' then DropHashes(s[1..]) else s
  }

  /** The WHERE clause of the list query; no query text, no restriction. `lower` is Python's str.lower. */
  predicate Matches(fold: Fold, lower: Fold, query: string, post: Post) {
    var raw := Strip(query);
    if raw == "" then true
    else if raw[0] == '#' then
      var tag := lower(Strip(DropHashes(raw)));
      tag != "" && tag in post.hashtags
    else forall token :: token in Split(raw, IsSpace) ==> TokenClause(fold, token, post)
  }

  ghost predicate OccursInPost(fold: Fold, word: string, post: Post) {
    || Occurs(fold(word), fold(post.title))
    || Occurs(fold(word), fold(post.content))
    || exists tag :: tag in post.hashtags && Occurs(fold(word), fold(tag))
  }

  lemma {:induction false} HashesDropped(s: string, n: nat)
    requires n <= |s| && (forall i :: 0 <= i < n ==> s[i] == '#') && (n == |s| || s[n] != '#')
    ensures DropHashes(s) == s[n..]
    decreases n
  {
    if n > 0 {
      HashesDropped(s[1..], n - 1);
      assert s[1..][n - 1..] == s[n..];
    } else {
      assert s[0..] == s;
    }
  }

  /** The query, stripped, starts with exactly `n` hash signs. */
  ghost predicate TagQuery(query: string, n: nat) {
    var raw := Strip(query);
    1 <= n <= |raw| && (forall i :: 0 <= i < n ==> raw[i] == '#') && (n == |raw| || raw[n] != '#')
  }

  /** A tag query selects exactly the posts that carry the tag, whole and in lower case, and nothing without one. */
  lemma TagQueryMeaning(fold: Fold, lower: Fold, query: string, n: nat, post: Post)
    requires TagQuery(query, n)
    ensures var tag := lower(Strip(Strip(query)[n..]));
            Matches(fold, lower, query, post) <==> tag != "" && exists t :: t in post.hashtags && t == tag
    ensures n == |Strip(query)| && lower("") == "" ==> !Matches(fold, lower, query, post)
  {
    HashesDropped(Strip(query), n);
  }

  /** A plain query selects exactly the posts in which every word of the query occurs somewhere. */
  lemma PlainQueryMeaning(fold: Fold, lower: Fold, query: string, post: Post)
    requires KeepsPatterns(fold)
    requires var raw := Strip(query); raw == "" || raw[0] != '#'
    ensures Matches(fold, lower, query, post) <==>
            forall w :: IsWord(query, IsSpace, w) ==> OccursInPost(fold, w, post)
  {
    var raw := Strip(query);
    forall w
      ensures TokenClause(fold, w, post) <==> OccursInPost(fold, w, post)
      ensures w in Split(raw, IsSpace) <==> IsWord(query, IsSpace, w)
    {
      PatternMeansOccurrence(fold, w, post.title);
      PatternMeansOccurrence(fold, w, post.content);
      forall tag | tag in post.hashtags { PatternMeansOccurrence(fold, w, tag); }
      SplitIsWords(raw, IsSpace, w);
      StripKeepsWords(query, w);
    }
  }
}
