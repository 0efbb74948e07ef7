/** Option and Result, the two failure-carrying types the model uses for
    missing cells (pandas NaN) and for raised exceptions, and Outcome, the
    files a step wrote before it raised. */
module Wrappers {

  datatype Option<+T> = None | Some(value: T)

  datatype Result<+T, +E> = Success(value: T) | Failure(error: E) {

    predicate IsFailure() {
      Failure?
    }

    function PropagateFailure<U>(): Result<U, E>
      requires Failure?
    {
      Failure(error)
    }

    function Extract(): T
      requires Success?
    {
      value
    }
  }

  /** What a step that writes files leaves behind: the files written, in
      order, and the exception that ended it, if one did. Files written
      before the exception stay written. */
  datatype Outcome<W, E> = Outcome(files: seq<W>, error: Option<E>)

  /** `first`, then `next` unless `first` raised. */
  function Then<W, E>(first: Outcome<W, E>, next: Outcome<W, E>): (r: Outcome<W, E>)
    ensures first.error.Some? ==> r == first
    ensures first.error.None? ==> r.files == first.files + next.files && r.error == next.error
  {
    if first.error.Some? then first else Outcome(first.files + next.files, next.error)
  }

  /** The steps in turn, stopping at the first that raises. */
  function Chain<W, E>(steps: seq<Outcome<W, E>>): Outcome<W, E>
    decreases |steps|
  {
    if steps == [] then Outcome([], None)
    else Then(Chain(steps[..|steps| - 1]), steps[|steps| - 1])
  }

  /** One more step extends the chain of a prefix. */
  lemma ChainStep<W, E>(steps: seq<Outcome<W, E>>, i: nat)
    requires i < |steps|
    ensures Chain(steps[..i + 1]) == Then(Chain(steps[..i]), steps[i])
  {
    assert steps[..i + 1][..i] == steps[..i];
  }

  /** A chain raises exactly when one of its steps does, and then with the
      error of the first step that raises, after which nothing runs. */
  lemma {:induction false} ChainError<W, E>(steps: seq<Outcome<W, E>>)
    ensures Chain(steps).error.None? <==> forall k :: 0 <= k < |steps| ==> steps[k].error.None?
    ensures Chain(steps).error.Some? ==> exists k :: (0 <= k < |steps| && Chain(steps).error == steps[k].error
      && forall j :: 0 <= j < k ==> steps[j].error.None?)
    decreases |steps|
  {
    if steps != [] {
      var n := |steps| - 1;
      var front := steps[..n];
      ChainError(front);
      assert forall k :: 0 <= k < n ==> front[k] == steps[k];
      if Chain(front).error.Some? {
        var k :| 0 <= k < n && Chain(front).error == front[k].error
          && forall j :: 0 <= j < k ==> front[j].error.None?;
        assert Chain(steps).error == steps[k].error;
      }
    }
  }

  /** The files of all the steps, in order. */
  function AllFiles<W, E>(steps: seq<Outcome<W, E>>): seq<W>
    decreases |steps|
  {
    if steps == [] then [] else AllFiles(steps[..|steps| - 1]) + steps[|steps| - 1].files
  }

  /** When no step raises, the chain writes the files of every step, in order. */
  lemma {:induction false} ChainAllSucceed<W, E>(steps: seq<Outcome<W, E>>)
    requires forall k :: 0 <= k < |steps| ==> steps[k].error.None?
    ensures Chain(steps) == Outcome(AllFiles(steps), None)
    decreases |steps|
  {
    if steps != [] {
      var n := |steps| - 1;
      assert forall k :: 0 <= k < n ==> steps[..n][k] == steps[k];
      ChainAllSucceed(steps[..n]);
    }
  }

  /** Once a prefix of the chain has raised, the later steps change nothing. */
  lemma {:induction false} ChainStopped<W, E>(steps: seq<Outcome<W, E>>, k: nat)
    requires k <= |steps| && (k == |steps| || Chain(steps[..k]).error.Some?)
    ensures Chain(steps) == Chain(steps[..k])
    decreases |steps|
  {
    if k < |steps| {
      var n := |steps| - 1;
      assert steps[..n][..k] == steps[..k];
      ChainStopped(steps[..n], k);
    } else {
      assert steps[..k] == steps;
    }
  }

  /** When every step writes exactly one file, the files of the steps are
      those files, one per step, in order. */
  lemma {:induction false} AllFilesSingle<W, E>(steps: seq<Outcome<W, E>>)
    requires forall k :: 0 <= k < |steps| ==> |steps[k].files| == 1
    ensures |AllFiles(steps)| == |steps|
    ensures forall k :: 0 <= k < |steps| ==> AllFiles(steps)[k] == steps[k].files[0]
    decreases |steps|
  {
    if steps != [] {
      var n := |steps| - 1;
      assert forall k :: 0 <= k < n ==> steps[..n][k] == steps[k];
      AllFilesSingle(steps[..n]);
    }
  }
}
