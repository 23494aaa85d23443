/** Option and Result, the failure-compatible wrappers the other modules use for
    Python's None and for the exceptions a function raises. */
module Results {

  datatype Option<+T> = None | Some(value: T)

  datatype Result<+T, +E> = Success(value: T) | Failure(error: E) {

    predicate IsFailure() {
      Failure?
    }

    function PropagateFailure<U>(): Result<U, E>
      requires Failure?
    {
      Failure(error)
    }

    function Extract(): T
      requires Success?
    {
      value
    }
  }

  /** Applying `f` to every element in order, stopping at the first failure (a list
      comprehension whose element expression can raise). */
  function MapAll<A, B, E>(xs: seq<A>, f: A -> Result<B, E>): Result<seq<B>, E> {
    if xs == [] then Success([])
    else
      var front :- MapAll(xs[..|xs| - 1], f);
      var y :- f(xs[|xs| - 1]);
      Success(front + [y])
  }

  /** One element more, as a loop over the elements takes it. */
  lemma MapAllStep<A, B, E>(xs: seq<A>, f: A -> Result<B, E>, i: nat)
    requires i < |xs| && MapAll(xs[..i], f).Success?
    ensures MapAll(xs[..i + 1], f) ==
      if f(xs[i]).Failure? then Failure(f(xs[i]).error) else Success(MapAll(xs[..i], f).value + [f(xs[i]).value])
  {
    assert xs[..i + 1][..i] == xs[..i];
  }

  /** Once a prefix fails, the whole mapping fails the same way. */
  lemma {:induction false} MapAllFailureSticks<A, B, E>(xs: seq<A>, f: A -> Result<B, E>, k: nat)
    requires k <= |xs| && MapAll(xs[..k], f).Failure?
    ensures MapAll(xs, f) == MapAll(xs[..k], f)
    decreases |xs| - k
  {
    if k < |xs| {
      assert xs[..k + 1][..k] == xs[..k];
      MapAllFailureSticks(xs, f, k + 1);
    } else {
      assert xs[..k] == xs;
    }
  }

  /** The mapping fails exactly when `f` fails on some element, and then with the error
      of the first such element. */
  lemma {:induction false} MapAllFails<A, B, E>(xs: seq<A>, f: A -> Result<B, E>)
    ensures MapAll(xs, f).Failure? <==> exists i :: 0 <= i < |xs| && f(xs[i]).Failure?
    ensures MapAll(xs, f).Failure? ==>
      exists i :: 0 <= i < |xs| && f(xs[i]) == Failure(MapAll(xs, f).error) &&
                  (forall j :: 0 <= j < i ==> f(xs[j]).Success?)
  {
    if xs != [] {
      var n := |xs| - 1;
      var front := xs[..n];
      MapAllFails(front, f);
      assert forall i :: 0 <= i < n ==> front[i] == xs[i];
      if MapAll(front, f).Success? && f(xs[n]).Success? {
        forall i | 0 <= i < |xs|
          ensures f(xs[i]).Success?
        {
          if i < n {
            assert xs[i] == front[i];
          }
        }
      }
    }
  }

  /** A successful mapping holds `f` of each element, in order. */
  lemma {:induction false} MapAllAt<A, B, E>(xs: seq<A>, f: A -> Result<B, E>, i: nat)
    requires MapAll(xs, f).Success? && i < |xs|
    ensures |MapAll(xs, f).value| == |xs|
    ensures f(xs[i]) == Success(MapAll(xs, f).value[i])
  {
    var n := |xs| - 1;
    var front := xs[..n];
    if i < n {
      MapAllAt(front, f, i);
      assert xs[i] == front[i];
    } else if n > 0 {
      MapAllAt(front, f, n - 1);
    }
  }
}
