/** Finite sets of ids listed in ascending or descending order. */
module Ordering {
  import opened Common

  /** `x` is listed before `y`: larger first when `down`, smaller first otherwise. */
  predicate Before(down: bool, x: int, y: int) {
    if down then x > y else x < y
  }

  ghost predicate Sorted(down: bool, s: seq<int>) {
    forall i, j :: 0 <= i < j < |s| ==> Before(down, s[i], s[j])
  }

  function Elements(s: seq<int>): set<int> {
    set x | x in s
  }

  /** `s` lists every member of `ids` once, in order. */
  ghost predicate IsListing(down: bool, ids: set<int>, s: seq<int>) {
    Sorted(down, s) && Elements(s) == ids && |s| == |ids|
  }

  ghost predicate IsFirst(down: bool, ids: set<int>, x: int) {
    x in ids && forall y :: y in ids && y != x ==> Before(down, x, y)
  }

  ghost function First(down: bool, ids: set<int>): (x: int)
    requires ids != {}
    ensures IsFirst(down, ids, x)
  {
    assert exists x :: IsFirst(down, ids, x) by { var x := FirstExists(down, ids); }
    var x :| IsFirst(down, ids, x);
    x
  }

  /** ORDER BY id. */
  ghost function Listing(down: bool, ids: set<int>): seq<int>
    decreases |ids|
  {
    if ids == {} then [] else
      var x := First(down, ids);
      [x] + Listing(down, ids - {x})
  }

  lemma {:induction false} ListingOrdered(down: bool, ids: set<int>)
    ensures IsListing(down, ids, Listing(down, ids))
    decreases |ids|
  {
    if ids != {} {
      var x := First(down, ids);
      ListingOrdered(down, ids - {x});
      assert ids == ids - {x} + {x};
      Prepend(down, x, Listing(down, ids - {x}), ids - {x});
    }
  }

  /** The member listed first. */
  method FindFirst(down: bool, ids: set<int>) returns (x: int)
    requires ids != {}
    ensures IsFirst(down, ids, x)
  {
    ghost var w := Pick(ids);
    x :| x in ids;
    var todo := ids - {x};
    while todo != {}
      invariant todo <= ids && x in ids && x !in todo
      invariant forall y :: y in ids && y != x && y !in todo ==> Before(down, x, y)
      decreases |todo|
    {
      w := Pick(todo);
      var y :| y in todo;
      todo := todo - {y};
      if Before(down, y, x) {
        x := y;
      }
    }
  }

  /** Lists a set in order by repeatedly taking what comes first. */
  method OrderBy(down: bool, ids: set<int>) returns (s: seq<int>)
    ensures s == Listing(down, ids)
  {
    var todo := ids;
    s := [];
    while todo != {}
      invariant todo <= ids
      invariant IsListing(down, ids - todo, s)
      invariant forall x, y :: x in s && y in todo ==> Before(down, x, y)
      decreases |todo|
    {
      var x := FindFirst(down, todo);
      Append(down, s, ids - todo, x);
      assert ids - (todo - {x}) == ids - todo + {x};
      s := s + [x];
      todo := todo - {x};
    }
    assert ids - todo == ids;
    ListingOrdered(down, ids);
    SortedUnique(down, s, Listing(down, ids));
  }

  lemma Append(down: bool, s: seq<int>, ids: set<int>, x: int)
    requires IsListing(down, ids, s) && x !in ids && forall y :: y in s ==> Before(down, y, x)
    ensures IsListing(down, ids + {x}, s + [x])
  {
  }

  lemma {:induction false} FirstExists(down: bool, ids: set<int>) returns (x: int)
    requires ids != {}
    ensures IsFirst(down, ids, x)
    decreases |ids|
  {
    x := Pick(ids);
    var rest := ids - {x};
    assert forall y :: y in ids ==> y == x || y in rest;
    if rest != {} {
      var y := FirstExists(down, rest);
      x := if Before(down, x, y) then x else y;
    }
  }

  lemma Prepend(down: bool, x: int, s: seq<int>, ids: set<int>)
    requires Sorted(down, s) && Elements(s) == ids && IsFirst(down, ids + {x}, x) && x !in ids
    ensures Sorted(down, [x] + s) && Elements([x] + s) == ids + {x}
  {
  }

  /** Sorted listings with the same members are the same. */
  lemma {:induction false} SortedUnique(down: bool, s: seq<int>, t: seq<int>)
    requires Sorted(down, s) && Sorted(down, t) && Elements(s) == Elements(t)
    ensures s == t
    decreases |s|
  {
    if s == [] {
      assert forall i :: 0 <= i < |t| ==> t[i] in Elements(t);
    } else {
      assert s[0] in Elements(s) && s[0] in t;
      assert t[0] in Elements(t) && t[0] in s;
      assert s[0] == t[0];
      TailElements(down, s);
      TailElements(down, t);
      SortedUnique(down, s[1..], t[1..]);
    }
  }

  lemma TailElements(down: bool, s: seq<int>)
    requires s != [] && Sorted(down, s)
    ensures Elements(s[1..]) == Elements(s) - {s[0]}
  {
  }

  /** The members listed strictly after `c`. */
  function After(down: bool, ids: set<int>, c: int): set<int> {
    set x | x in ids && Before(down, c, x)
  }

  /** Cutting a listing at one of its members leaves the listing of what comes after that member. */
  lemma CutListing(down: bool, ids: set<int>, k: nat)
    requires k < |Listing(down, ids)|
    ensures var l := Listing(down, ids); Listing(down, After(down, ids, l[k])) == l[k + 1..]
  {
    var l := Listing(down, ids);
    var rest := l[k + 1..];
    var later := After(down, ids, l[k]);
    ListingOrdered(down, ids);
    ListingOrdered(down, later);
    forall x | x in later ensures x in rest {
      assert x in Elements(l);
      var i :| 0 <= i < |l| && l[i] == x;
      assert i > k;
      assert rest[i - k - 1] == x;
    }
    forall x | x in rest ensures x in later {
      var i :| 0 <= i < |rest| && rest[i] == x;
      assert l[k + 1 + i] == x && x in Elements(l);
    }
    assert Elements(rest) == later;
    SortedUnique(down, Listing(down, later), rest);
  }

  lemma CutElements(down: bool, ids: set<int>, k: nat)
    requires k < |Listing(down, ids)|
    ensures var l := Listing(down, ids); l[k] in ids && After(down, ids, l[k]) == ids - Elements(l[..k + 1])
    ensures var l := Listing(down, ids); Elements(l[..k + 1]) <= ids
  {
    var l := Listing(down, ids);
    ListingOrdered(down, ids);
    assert l[k] in Elements(l);
    forall x | x in l[..k + 1] ensures x in ids && !Before(down, l[k], x) {
      var i :| 0 <= i < k + 1 && l[i] == x;
      assert x in Elements(l);
    }
    forall x | x in ids && !Before(down, l[k], x) ensures x in l[..k + 1] {
      assert x in Elements(l);
      var i :| 0 <= i < |l| && l[i] == x;
      assert i <= k;
      assert l[..k + 1][i] == x;
    }
  }

  /** A non-empty head of a listing: its last id is the cursor to the rest. */
  lemma HeadOfListing(down: bool, ids: set<int>, n: nat, head: seq<int>)
    requires head == Take(Listing(down, ids), n) && head != []
    ensures |head| <= n && Elements(head) <= ids && head[|head| - 1] in ids
    ensures After(down, ids, head[|head| - 1]) == ids - Elements(head)
    ensures head + Listing(down, ids - Elements(head)) == Listing(down, ids)
    ensures |head| < n ==> Listing(down, ids - Elements(head)) == []
    ensures |ids - Elements(head)| < |ids|
  {
    CutListing(down, ids, |head| - 1);
    CutElements(down, ids, |head| - 1);
  }

  /** Listing what comes first and then what comes after it. */
  lemma ListingOfUnion(down: bool, a: set<int>, b: set<int>)
    requires forall x, y :: x in a && y in b ==> Before(down, x, y)
    ensures Listing(down, a + b) == Listing(down, a) + Listing(down, b)
  {
    ListingOrdered(down, a);
    ListingOrdered(down, b);
    ListingOrdered(down, a + b);
    SortedConcat(down, Listing(down, a), Listing(down, b));
    SortedUnique(down, Listing(down, a + b), Listing(down, a) + Listing(down, b));
  }

  lemma SortedConcat(down: bool, s: seq<int>, t: seq<int>)
    requires Sorted(down, s) && Sorted(down, t)
    requires forall x, y :: x in Elements(s) && y in Elements(t) ==> Before(down, x, y)
    ensures Sorted(down, s + t) && Elements(s + t) == Elements(s) + Elements(t)
  {
  }
}
