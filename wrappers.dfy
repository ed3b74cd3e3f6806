/** Failure-compatible result type used for the exceptions the modelled code raises. */
module Wrappers {

  datatype Option<+T> = None | Some(value: T)

  datatype Result<+T, +E> = Success(value: T) | Failure(error: E) {

    predicate IsFailure() {
      Failure?
    }

    function PropagateFailure<U>(): Result<U, E>
      requires Failure?
    {
      Failure(error)
    }

    function Extract(): T
      requires Success?
    {
      value
    }
  }

  /** Applying f to every element in order, stopping at the first failure: what a Python
      loop that appends f(x) for each x does when f may raise. */
  function MapResult<A, B, E>(xs: seq<A>, f: A -> Result<B, E>): (r: Result<seq<B>, E>)
    ensures r.Success? ==> |r.value| == |xs|
  {
    if |xs| == 0 then Success([])
    else
      var init :- MapResult(xs[..|xs| - 1], f);
      var last :- f(xs[|xs| - 1]);
      Success(init + [last])
  }

  /** On success, the i-th result is f of the i-th element. */
  lemma {:induction false} MapResultAt<A, B, E>(xs: seq<A>, f: A -> Result<B, E>, i: nat)
    requires MapResult(xs, f).Success? && i < |xs|
    ensures f(xs[i]) == Success(MapResult(xs, f).value[i])
  {
    if i < |xs| - 1 {
      MapResultAt(xs[..|xs| - 1], f, i);
    }
  }

  /** The map succeeds exactly when f succeeds on every element. */
  lemma {:induction false} MapResultSucceeds<A, B, E>(xs: seq<A>, f: A -> Result<B, E>)
    ensures MapResult(xs, f).Success? <==> forall i :: 0 <= i < |xs| ==> f(xs[i]).Success?
  {
    if |xs| > 0 {
      var init := xs[..|xs| - 1];
      MapResultSucceeds(init, f);
      assert forall i :: 0 <= i < |init| ==> init[i] == xs[i];
    }
  }

  /** A failure on a prefix is the failure of the whole map. */
  lemma {:induction false} MapResultStops<A, B, E>(xs: seq<A>, f: A -> Result<B, E>, n: nat)
    requires 0 < n <= |xs|
    requires MapResult(xs[..n], f).Failure?
    ensures MapResult(xs, f) == Failure(MapResult(xs[..n], f).error)
  {
    if n < |xs| {
      assert xs[..|xs| - 1][..n] == xs[..n];
      MapResultStops(xs[..|xs| - 1], f, n);
    } else {
      assert xs[..n] == xs;
    }
  }

  /** One more element: the map of a longer prefix from the map of the shorter one. */
  lemma MapResultStep<A, B, E>(xs: seq<A>, f: A -> Result<B, E>, i: nat)
    requires i < |xs|
    ensures MapResult(xs[..i + 1], f) ==
      match MapResult(xs[..i], f)
      case Failure(e) => Failure(e)
      case Success(init) => match f(xs[i]) case Failure(e) => Failure(e) case Success(b) => Success(init + [b])
  {
    assert xs[..i + 1][..i] == xs[..i];
  }

  /** The same, with the prefix given as a sequence. */
  lemma MapResultPrefixFails<A, B, E>(xs: seq<A>, prefix: seq<A>, f: A -> Result<B, E>)
    requires prefix <= xs && 0 < |prefix|
    requires MapResult(prefix, f).Failure?
    ensures MapResult(xs, f) == Failure(MapResult(prefix, f).error)
  {
    assert xs[..|prefix|] == prefix;
    MapResultStops(xs, f, |prefix|);
  }
}
