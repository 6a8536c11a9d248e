/** Eager `Select(f).ToList()` over a sequence whose projection may throw:
    the projections run front to back and the first exception ends the
    whole traversal. */
module Linq {
  import opened Wrappers

  function Select<A, B, E>(xs: seq<A>, f: A -> Result<B, E>): (r: Result<seq<B>, E>)
    ensures r.Success? <==> forall i :: 0 <= i < |xs| ==> f(xs[i]).Success?
    ensures r.Success? ==> |r.value| == |xs|
    ensures r.Success? ==> forall i :: 0 <= i < |xs| ==> f(xs[i]) == Success(r.value[i])
    ensures r.Failure? ==>
      exists i :: 0 <= i < |xs| && f(xs[i]) == Failure(r.error) && FirstFailure(xs, f, i)
  {
    if |xs| == 0 then Success([])
    else
      var head :- f(xs[0]);
      var tail := Select(xs[1..], f);
      if tail.Failure? then
        FailureInTail(xs, f, tail.error);
        Failure(tail.error)
      else
        assert forall i :: 1 <= i < |xs| ==> xs[i] == xs[1..][i - 1];
        Success([head] + tail.value)
  }

  /** Every element before index `i` is projected without an exception. */
  ghost predicate FirstFailure<A, B, E>(xs: seq<A>, f: A -> Result<B, E>, i: int)
    requires 0 <= i <= |xs|
  {
    forall k :: 0 <= k < i ==> f(xs[k]).Success?
  }

  /** A first failure in `xs[1..]` behind a successful head is a first failure in `xs`. */
  lemma FailureInTail<A, B, E>(xs: seq<A>, f: A -> Result<B, E>, e: E)
    requires |xs| > 0 && f(xs[0]).Success?
    requires exists i :: 0 <= i < |xs| - 1 && f(xs[1..][i]) == Failure(e) && FirstFailure(xs[1..], f, i)
    ensures exists i :: 0 <= i < |xs| && f(xs[i]) == Failure(e) && FirstFailure(xs, f, i)
  {
    var i :| 0 <= i < |xs| - 1 && f(xs[1..][i]) == Failure(e) && FirstFailure(xs[1..], f, i);
    assert f(xs[i + 1]) == Failure(e);
    forall k | 0 <= k < i + 1
      ensures f(xs[k]).Success?
    {
      if k > 0 {
        assert xs[k] == xs[1..][k - 1];
      }
    }
  }
}
