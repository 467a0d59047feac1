/**
The image sweep: eligible rows are fetched in id order, batch by batch after the last id seen; each
object is deleted from storage first, and only rows whose object went away are deleted.
*/
module KeysetCleanup {
  import opened Common
  import opened Ordering

  datatype Image = Image(fileKey: string, eligible: bool)

  function Eligible(rows: map<int, Image>): set<int> {
    set id | id in rows && rows[id].eligible
  }

  function Remaining(rows: map<int, Image>, after: Option<int>): set<int> {
    if after.None? then Eligible(rows) else After(false, Eligible(rows), after.value)
  }

  class Media {
    var rows: map<int, Image>
    var attempts: seq<int>  // storage deletions requested, in order

    /** SELECT ... WHERE eligible AND id > after ORDER BY id LIMIT limit. */
    method Fetch(after: Option<int>, limit: nat) returns (batch: seq<int>)
      ensures batch == Take(Listing(false, Remaining(rows, after)), limit)
    {
      var listed := OrderBy(false, Remaining(rows, after));
      batch := Take(listed, limit);
    }

    /** One storage request per image; a failure only keeps the image off the deletable list. */
    method DeleteObjects(batch: seq<int>, failing: set<int>) returns (deletable: set<int>)
      modifies this`attempts
      ensures attempts == old(attempts) + batch && deletable == Elements(batch) - failing
    {
      deletable := {};
      for i := 0 to |batch|
        invariant attempts == old(attempts) + batch[..i]
        invariant deletable == Elements(batch[..i]) - failing
      {
        attempts := attempts + [batch[i]];
        assert batch[..i + 1] == batch[..i] + [batch[i]];
        if batch[i] !in failing {
          deletable := deletable + {batch[i]};
        }
      }
      assert batch[..|batch|] == batch;
    }

    /** One round on a non-empty batch: objects first, then the rows whose object went away. */
    method Process(batch: seq<int>, failing: set<int>) returns (deleted: nat)
      modifies this
      ensures attempts == old(attempts) + batch
      ensures rows == old(rows) - (Elements(batch) - failing)
      ensures deleted == |old(rows).Keys * (Elements(batch) - failing)|
    {
      var deletable := DeleteObjects(batch, failing);
      deleted := 0;
      if deletable != {} {
        deleted := |rows.Keys * deletable|;
        rows := rows - deletable;
      } else {
        assert rows - {} == rows && rows.Keys * {} == {};
      }
    }

    /**
    The whole sweep: every eligible image is attempted exactly once, in id order, whatever fails
    before it; exactly the rows whose object was deleted disappear, and their number is returned.
    */
    method Sweep(batchSize: nat, failing: set<int>) returns (total: nat)
      requires batchSize >= 1
      modifies this
      ensures attempts == old(attempts) + Listing(false, Eligible(old(rows)))
      ensures rows == old(rows) - (Eligible(old(rows)) - failing)
      ensures total == |Eligible(old(rows)) - failing|
      ensures forall id :: id in attempts[|old(attempts)|..] <==> id in old(rows) && old(rows)[id].eligible
      ensures forall id :: id in rows <==> id in old(rows) && (!old(rows)[id].eligible || id in failing)
    {
      ghost var start, wanted := rows, attempts + Listing(false, Eligible(rows));
      ghost var left := Eligible(start);
      var last: Option<int> := None;
      total := 0;
      StartOfSweep(start, failing);
      while true
        invariant left == Remaining(start, last) && left <= Eligible(start)
        invariant rows == Swept(start, left, failing)
        invariant total == |Eligible(start) - left - failing|
        invariant attempts + Listing(false, left) == wanted
        decreases |left|
      {
        LeftOver(start, last, failing);
        var batch := Fetch(last, batchSize);
        if batch == [] {
          break;
        }
        HeadOfListing(false, left, batchSize, batch);
        BatchDone(start, left, Elements(batch), failing);
        AfterTwice(start, last, batch[|batch| - 1]);
        last := Some(batch[|batch| - 1]);
        Join(attempts, batch, Listing(false, left - Elements(batch)));
        var deleted := Process(batch, failing);
        total := total + deleted;
        left := left - Elements(batch);
        if |batch| < batchSize {
          break;
        }
      }
      EndOfSweep(start, left, failing);
      SweepMeans(start, old(attempts), failing);
    }
  }

  /** The rows left when every eligible image outside `left` was attempted. */
  function Swept(start: map<int, Image>, left: set<int>, failing: set<int>): map<int, Image> {
    start - (Eligible(start) - left - failing)
  }

  lemma StartOfSweep(start: map<int, Image>, failing: set<int>)
    ensures Swept(start, Eligible(start), failing) == start
    ensures |Eligible(start) - Eligible(start) - failing| == 0
  {
  }

  lemma EndOfSweep(start: map<int, Image>, left: set<int>, failing: set<int>)
    requires Listing(false, left) == []
    ensures Swept(start, left, failing) == start - (Eligible(start) - failing)
    ensures Eligible(start) - left - failing == Eligible(start) - failing
  {
  }

  /** Row by row: who is attempted, and who stays. */
  lemma SweepMeans(start: map<int, Image>, before: seq<int>, failing: set<int>)
    ensures var attempts := before + Listing(false, Eligible(start));
            forall id :: id in attempts[|before|..] <==> id in start && start[id].eligible
    ensures var rows := start - (Eligible(start) - failing);
            forall id :: id in rows <==> id in start && (!start[id].eligible || id in failing)
  {
    var listed := Listing(false, Eligible(start));
    ListingOrdered(false, Eligible(start));
    assert (before + listed)[|before|..] == listed;
    assert forall id :: id in listed <==> id in Elements(listed);
  }

  /** Rows already deleted were all at or before the cursor: what is left to do does not depend on them. */
  lemma LeftOver(start: map<int, Image>, last: Option<int>, failing: set<int>)
    ensures var left := Remaining(start, last); Remaining(Swept(start, left, failing), last) == left
  {
  }

  lemma Join(a: seq<int>, b: seq<int>, c: seq<int>)
    ensures a + b + c == a + (b + c)
  {
  }

  lemma AfterTwice(start: map<int, Image>, last: Option<int>, next: int)
    requires next in Remaining(start, last)
    ensures Remaining(start, Some(next)) == After(false, Remaining(start, last), next)
  {
  }

  /** A batch adds its own successes to the earlier ones. */
  lemma BatchDone(start: map<int, Image>, left: set<int>, batch: set<int>, failing: set<int>)
    requires batch <= left <= Eligible(start)
    ensures var rows := Swept(start, left, failing);
            && Swept(start, left - batch, failing) == rows - (batch - failing)
            && |Eligible(start) - (left - batch) - failing|
               == |Eligible(start) - left - failing| + |rows.Keys * (batch - failing)|
  {
    var before, here := Eligible(start) - left - failing, batch - failing;
    assert Eligible(start) - (left - batch) - failing == before + here;
    assert here <= start.Keys;
    DeleteInTwoParts(start, before, here);
  }

  lemma DeleteInTwoParts(start: map<int, Image>, before: set<int>, here: set<int>)
    requires before !! here && here <= start.Keys
    ensures |before + here| == |before| + |here|
    ensures (start - before).Keys * here == here
    ensures start - (before + here) == start - before - here
  {
    assert (start - before).Keys == start.Keys - before;
  }
}
