/**
The trending list: a ranking cut to a pool that is cached for everybody, from which each reader's
blocked authors are removed before the list is cut to its length.
*/
module Trending {
  import opened Common

  const MAX_LIMIT := 10
  const POOL_SIZE := MAX_LIMIT * 3

  datatype Item = Item(id: int, author: Option<int>)

  /** A post whose author is gone is never blocked. */
  predicate Allowed(item: Item, blocked: set<int>) {
    item.author.None? || item.author.value !in blocked
  }

  function Filter(items: seq<Item>, blocked: set<int>): seq<Item> {
    if items == [] then [] else
      (if Allowed(items[0], blocked) then [items[0]] else []) + Filter(items[1..], blocked)
  }

  function Pool(ranking: seq<Item>): seq<Item> {
    Take(ranking, POOL_SIZE)
  }

  /** What a reader gets: `blocked` is empty for an anonymous reader. */
  function FromPool(ranking: seq<Item>, blocked: set<int>, limit: nat): seq<Item> {
    Take(Filter(Pool(ranking), blocked), limit)
  }

  /** What the reader would get without the pool. */
  function Direct(ranking: seq<Item>, blocked: set<int>, limit: nat): seq<Item> {
    Take(Filter(ranking, blocked), limit)
  }

  lemma {:induction false} FilterConcat(a: seq<Item>, b: seq<Item>, blocked: set<int>)
    ensures Filter(a + b, blocked) == Filter(a, blocked) + Filter(b, blocked)
  {
    if a == [] {
      assert a + b == b;
    } else {
      var first := if Allowed(a[0], blocked) then [a[0]] else [];
      var x, y := Filter(a[1..], blocked), Filter(b, blocked);
      assert (a + b)[1..] == a[1..] + b && (a + b)[0] == a[0];
      FilterConcat(a[1..], b, blocked);
      assert Filter(a + b, blocked) == first + Filter(a[1..] + b, blocked);
      assert first + (x + y) == first + x + y;
    }
  }

  lemma {:induction false} FilterLength(items: seq<Item>, blocked: set<int>)
    ensures |items| == |Filter(items, blocked)| + |Removed(items, blocked)|
  {
    if items != [] { FilterLength(items[1..], blocked); }
  }

  /** The items a reader's blocks take away. */
  function Removed(items: seq<Item>, blocked: set<int>): seq<Item> {
    if items == [] then [] else
      (if Allowed(items[0], blocked) then [] else [items[0]]) + Removed(items[1..], blocked)
  }

  /** An allowed item comes right after the allowed items that precede it in the ranking. */
  lemma FilterKeepsPlace(items: seq<Item>, blocked: set<int>, i: nat)
    requires i < |items| && Allowed(items[i], blocked)
    ensures var place := |Filter(items[..i], blocked)|;
            place < |Filter(items, blocked)| && Filter(items, blocked)[place] == items[i]
  {
    var before, rest := items[..i], items[i..];
    assert items == before + rest;
    FilterConcat(before, rest, blocked);
  }

  /** What is shown is in the ranking and not by a blocked author, and everything of that kind is shown. */
  lemma {:induction false} FilterAllows(items: seq<Item>, blocked: set<int>, item: Item)
    ensures item in Filter(items, blocked) <==>
            item in items && (item.author.None? || item.author.value !in blocked)
  {
    if items != [] { FilterAllows(items[1..], blocked, item); }
  }

  lemma PoolSplits(ranking: seq<Item>, blocked: set<int>)
    ensures Filter(ranking, blocked) == Filter(Pool(ranking), blocked) + Filter(ranking[|Pool(ranking)|..], blocked)
  {
    assert ranking == Pool(ranking) + ranking[|Pool(ranking)|..];
    FilterConcat(Pool(ranking), ranking[|Pool(ranking)|..], blocked);
  }

  /** The pool's answer is always a beginning of the direct answer: in order, and with nothing wrong in it. */
  lemma PoolAnswerIsPrefix(ranking: seq<Item>, blocked: set<int>, limit: nat)
    ensures FromPool(ranking, blocked, limit) <= Direct(ranking, blocked, limit)
  {
    PoolSplits(ranking, blocked);
  }

  /** It is the whole direct answer exactly when the pool can fill it or nothing allowed was left outside. */
  lemma PoolAnswerExact(ranking: seq<Item>, blocked: set<int>, limit: nat)
    ensures FromPool(ranking, blocked, limit) == Direct(ranking, blocked, limit) <==>
            |Filter(Pool(ranking), blocked)| >= limit || Filter(ranking[|Pool(ranking)|..], blocked) == []
  {
    PoolSplits(ranking, blocked);
  }

  /** In particular when the pool holds the whole ranking, or at most 30 - limit of its entries are blocked. */
  lemma PoolAnswerEnough(ranking: seq<Item>, blocked: set<int>, limit: nat)
    requires |ranking| <= 30 || |Removed(Pool(ranking), blocked)| <= 30 - limit
    ensures FromPool(ranking, blocked, limit) == Direct(ranking, blocked, limit)
  {
    FilterLength(Pool(ranking), blocked);
    PoolAnswerExact(ranking, blocked, limit);
  }

  /** The length of the answer, so a short answer is explained by blocks and nothing else. */
  lemma AnswerLength(ranking: seq<Item>, blocked: set<int>, limit: nat)
    ensures var left := |Pool(ranking)| - |Removed(Pool(ranking), blocked)|;
            |FromPool(ranking, blocked, limit)| == if limit < left then limit else left
  {
    FilterLength(Pool(ranking), blocked);
  }

  lemma {:induction false} NobodyBlocked(items: seq<Item>)
    ensures Filter(items, {}) == items
  {
    if items != [] { NobodyBlocked(items[1..]); }
  }
}
