/**
 * A loop that applies a step which may raise to each item in turn and
 * collects the values: the first step that raises ends the loop with its
 * error. Every serialiser of the model that can hit a missing key is such a
 * loop, so its properties are proved once here.
 */
module Results {
  import opened Wrappers

  /** The value of `f` on each item in order, or the error of the first item on which it fails. */
  function Collect<T, R, E>(xs: seq<T>, f: T -> Result<R, E>): Result<seq<R>, E>
  {
    if xs == [] then Success([])
    else
      var before :- Collect(xs[..|xs| - 1], f);
      var last :- f(xs[|xs| - 1]);
      Success(before + [last])
  }

  /** When every step succeeds, so does the loop. */
  lemma {:induction false} CollectSucceeds<T, R, E>(xs: seq<T>, f: T -> Result<R, E>)
    requires forall i :: 0 <= i < |xs| ==> f(xs[i]).Success?
    ensures Collect(xs, f).Success?
  {
    if xs != [] {
      var n := |xs| - 1;
      var front := xs[..n];
      forall i | 0 <= i < n ensures f(front[i]).Success? {
        assert front[i] == xs[i];
      }
      CollectSucceeds(front, f);
      assert f(xs[n]).Success?;
    }
  }

  /** On success there is one value per item, the item's own, in item order. */
  lemma {:induction false} CollectParts<T, R, E>(xs: seq<T>, f: T -> Result<R, E>)
    requires Collect(xs, f).Success?
    ensures var parts := Collect(xs, f).value;
      |parts| == |xs| && forall i :: 0 <= i < |xs| ==> Success(parts[i]) == f(xs[i])
  {
    if xs != [] {
      var n := |xs| - 1;
      CollectParts(xs[..n], f);
      var before := Collect(xs[..n], f).value;
      var parts := Collect(xs, f).value;
      assert parts == before + [f(xs[n]).value];
      forall i | 0 <= i < |xs|
        ensures Success(parts[i]) == f(xs[i])
      {
        if i < n {
          assert xs[..n][i] == xs[i];
        }
      }
    }
  }

  /** The loop succeeds exactly when every step does. */
  lemma CollectSucceedsIff<T, R, E>(xs: seq<T>, f: T -> Result<R, E>)
    ensures Collect(xs, f).Success? <==> forall i :: 0 <= i < |xs| ==> f(xs[i]).Success?
  {
    if forall i :: 0 <= i < |xs| ==> f(xs[i]).Success? {
      CollectSucceeds(xs, f);
    } else if Collect(xs, f).Success? {
      CollectParts(xs, f);
    }
  }

  /** Once a prefix fails, the whole loop fails with the same error, whatever follows. */
  lemma {:induction false} CollectFails<T, R, E>(xs: seq<T>, f: T -> Result<R, E>, j: nat)
    requires j <= |xs| && Collect(xs[..j], f).Failure?
    ensures Collect(xs, f) == Collect(xs[..j], f)
  {
    if j < |xs| {
      var n := |xs| - 1;
      assert xs[..n][..j] == xs[..j];
      CollectFails(xs[..n], f, j);
    } else {
      assert xs[..j] == xs;
    }
  }

  /** One more successful step appends its value. */
  lemma CollectStep<T, R, E>(xs: seq<T>, f: T -> Result<R, E>, j: nat, parts: seq<R>)
    requires j < |xs| && Collect(xs[..j], f) == Success(parts) && f(xs[j]).Success?
    ensures Collect(xs[..j + 1], f) == Success(parts + [f(xs[j]).value])
  {
    assert xs[..j + 1][..j] == xs[..j];
  }

  /** A failing step after a successful prefix ends the whole loop with its error. */
  lemma CollectStops<T, R, E>(xs: seq<T>, f: T -> Result<R, E>, j: nat)
    requires j < |xs| && Collect(xs[..j], f).Success? && f(xs[j]).Failure?
    ensures Collect(xs, f) == Failure(f(xs[j]).error)
  {
    assert xs[..j + 1][..j] == xs[..j];
    CollectFails(xs, f, j + 1);
  }

  /** A failing loop reports the error of the first item whose step fails. */
  lemma {:induction false} CollectFirstFailure<T, R, E>(xs: seq<T>, f: T -> Result<R, E>)
    requires Collect(xs, f).Failure?
    ensures exists k :: (0 <= k < |xs| && f(xs[k]).Failure? && Collect(xs, f).error == f(xs[k]).error
      && forall i :: 0 <= i < k ==> f(xs[i]).Success?)
  {
    var n := |xs| - 1;
    var front := xs[..n];
    if Collect(front, f).Failure? {
      CollectFirstFailure(front, f);
      var k :| 0 <= k < |front| && f(front[k]).Failure? && Collect(front, f).error == f(front[k]).error
        && forall i :: 0 <= i < k ==> f(front[i]).Success?;
      assert front[k] == xs[k];
      forall i | 0 <= i < k ensures f(xs[i]).Success? {
        assert front[i] == xs[i];
      }
    } else {
      CollectParts(front, f);
      forall i | 0 <= i < n ensures f(xs[i]).Success? {
        assert front[i] == xs[i];
      }
    }
  }
}
