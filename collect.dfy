/** Applying a fallible step to every element of a sequence in turn,
    stopping at the first failure: the shape of every checking loop of the
    front end. */
module Collect {
  import opened Wrappers

  /** The results of `step` on `xs`, appended to `acc`, or the first
      failure. */
  function CollectAll<X, T, E>(step: X -> Result<T, E>, acc: seq<T>, xs: seq<X>): Result<seq<T>, E>
    decreases |xs|
  {
    if xs == [] then Success(acc)
    else match step(xs[0])
      case Failure(e) => Failure(e)
      case Success(y) => CollectAll(step, acc + [y], xs[1..])
  }

  /** The fold succeeds exactly when every step succeeds, and then appends
      one result per element, in order; otherwise it reports the failure
      of the first element that fails. */
  lemma {:induction false} CollectAllMeaning<X, T, E>(step: X -> Result<T, E>, acc: seq<T>, xs: seq<X>)
    ensures CollectAll(step, acc, xs).Success? ==>
      var r := CollectAll(step, acc, xs).value;
      |r| == |acc| + |xs| && r[..|acc|] == acc &&
      forall i :: 0 <= i < |xs| ==> step(xs[i]) == Success(r[|acc| + i])
    ensures CollectAll(step, acc, xs).Failure? ==>
      exists k :: 0 <= k < |xs| && step(xs[k]) == Failure(CollectAll(step, acc, xs).error) &&
        (forall i :: 0 <= i < k ==> step(xs[i]).Success?)
    decreases |xs|
  {
    if xs != [] && step(xs[0]).Success? {
      var y := step(xs[0]).value;
      CollectAllMeaning(step, acc + [y], xs[1..]);
      if CollectAll(step, acc, xs).Success? {
        var r := CollectAll(step, acc, xs).value;
        assert r[..|acc| + 1][..|acc|] == r[..|acc|];
        forall i | 0 <= i < |xs|
          ensures step(xs[i]) == Success(r[|acc| + i])
        {
          if i > 0 {
            assert xs[i] == xs[1..][i - 1];
          }
        }
      } else {
        var k :| 0 <= k < |xs| - 1 && step(xs[1..][k]) == Failure(CollectAll(step, acc, xs).error) &&
          (forall i :: 0 <= i < k ==> step(xs[1..][i]).Success?);
        assert step(xs[k + 1]) == Failure(CollectAll(step, acc, xs).error);
        assert forall i :: 1 <= i < k + 1 ==> xs[i] == xs[1..][i - 1];
      }
    }
  }
}
