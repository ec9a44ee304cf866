/** Option and Result, and the traversal that applies a fallible step to every
    element of a sequence in order, stopping at the first failure (the shape of
    every loop in the modelled code that may throw part way through). */
module Wrappers {

  datatype Option<+T> = None | Some(value: T)

  datatype Result<+R, +E> = Success(value: R) | Failure(error: E)

  /** Applies `f` to `xs[0]`, `xs[1]`, ... in order; the first failure aborts
      the whole traversal and is its result. */
  function Traverse<X, Y, E>(xs: seq<X>, f: X -> Result<Y, E>): (r: Result<seq<Y>, E>)
    ensures r.Success? <==> forall i | 0 <= i < |xs| :: f(xs[i]).Success?
    ensures r.Success? ==> |r.value| == |xs|
    ensures r.Success? ==> forall i | 0 <= i < |xs| :: r.value[i] == f(xs[i]).value
    ensures r.Failure? ==>
      exists j | 0 <= j < |xs| ::
        f(xs[j]) == Failure(r.error) && forall i | 0 <= i < j :: f(xs[i]).Success?
    decreases |xs|
  {
    if xs == [] then Success([])
    else
      match f(xs[0])
      case Failure(e) => Failure(e)
      case Success(y) =>
        var rest := Traverse(xs[1..], f);
        match rest
        case Failure(e) =>
          assert forall i | 1 <= i < |xs| :: xs[1..][i - 1] == xs[i];
          Failure(e)
        case Success(ys) =>
          assert forall i | 1 <= i < |xs| :: xs[1..][i - 1] == xs[i];
          Success([y] + ys)
  }

  /** When a step fails at index `j` and every earlier step succeeds, the
      traversal fails with exactly that step's error. */
  lemma TraverseFirstFailure<X, Y, E>(xs: seq<X>, f: X -> Result<Y, E>, j: nat)
    requires j < |xs| && f(xs[j]).Failure?
    requires forall i | 0 <= i < j :: f(xs[i]).Success?
    ensures Traverse(xs, f) == Failure(f(xs[j]).error)
  {
    var r := Traverse(xs, f);
    assert r.Failure?;
    var k :| 0 <= k < |xs| && f(xs[k]) == Failure(r.error) && forall i | 0 <= i < k :: f(xs[i]).Success?;
  }
}
