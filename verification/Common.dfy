/** Failure-carrying values shared by the models. */
module Common {

  datatype Option<+T> = None | Some(value: T)

  datatype Result<+T, +E> = Ok(value: T) | Err(error: E)

  /** What became of a command: carried out, without effect, or carried out without the caller knowing. */
  datatype Outcome = Answered | Failed | AnswerLost

  function Max(a: int, b: int): (r: int)
    ensures r >= a && r >= b && (r == a || r == b)
  {
    if a < b then b else a
  }

  /** The first `n` elements, or all of them: a slice or a LIMIT. */
  function Take<T>(s: seq<T>, n: nat): seq<T> {
    if n < |s| then s[..n] else s
  }

  lemma Pick<T>(s: set<T>) returns (x: T)
    requires s != {}
    ensures x in s
  {
    x :| x in s;
  }

  lemma {:induction false} Unused(ids: set<int>) returns (x: int)
    ensures x !in ids && forall y :: y in ids ==> y < x
    decreases |ids|
  {
    x := 0;
    if ids != {} {
      var y := Pick(ids);
      var rest := Unused(ids - {y});
      x := Max(rest, y + 1);
      assert forall z :: z in ids ==> z == y || z in ids - {y};
    }
  }
}
