/** The two Rust standard-library containers the conversion works on, and the
    few combinators of theirs that the library and its tests rely on. */
module Core {

  /** Rust's `Option<T>`: zero or one value. */
  datatype Option<T> = None | Some(value: T)

  /** Rust's `Result<T, E>`: a success value or a failure value. */
  datatype Result<T, E> = Ok(value: T) | Err(error: E)

  /** `Option::ok_or_else`: keeps a present value, and builds the error with
      `err` only when the value is absent. */
  function OkOrElse<T, E>(o: Option<T>, err: () -> E): (r: Result<T, E>)
    ensures r.Ok? <==> o.Some?
    ensures o.Some? ==> r.value == o.value
    ensures o.None? ==> r.error == err()
  {
    match o
    case Some(v) => Ok(v)
    case None => Err(err())
  }

  /** `Result::ok`: keeps a success value and drops the failure value. */
  function ResultOk<T, E>(res: Result<T, E>): (o: Option<T>)
    ensures o.Some? <==> res.Ok?
    ensures res.Ok? ==> o.value == res.value
  {
    match res
    case Ok(v) => Some(v)
    case Err(_) => None
  }

  /** `i` is the position of the first failure in `xs`. */
  ghost predicate IsFirstErr<T, E>(xs: seq<Result<T, E>>, i: int) {
    && 0 <= i < |xs|
    && xs[i].Err?
    && forall j :: 0 <= j < i ==> xs[j].Ok?
  }

  /** `Iterator::collect` into `Result<Vec<T>, E>`: the success values in
      order when every element succeeds, otherwise the first failure, after
      which no further element is looked at. */
  function Collect<T, E>(xs: seq<Result<T, E>>): (r: Result<seq<T>, E>)
    ensures r.Ok? <==> forall i :: 0 <= i < |xs| ==> xs[i].Ok?
    ensures r.Ok? ==> |r.value| == |xs|
    ensures r.Ok? ==> forall i :: 0 <= i < |xs| ==> r.value[i] == xs[i].value
  {
    if xs == [] then Ok([])
    else match xs[0]
      case Err(e) => Err(e)
      case Ok(v) =>
        match Collect(xs[1..])
        case Err(e) => Err(e)
        case Ok(vs) =>
          assert forall i :: 1 <= i < |xs| ==> xs[i] == xs[1..][i - 1];
          Ok([v] + vs)
  }

  /** A failed collection carries exactly the error of the first failing element. */
  lemma {:induction false} CollectFirstErr<T, E>(xs: seq<Result<T, E>>, i: int)
    requires IsFirstErr(xs, i)
    ensures Collect(xs) == Err(xs[i].error)
  {
    if i > 0 {
      assert xs[0].Ok?;
      assert IsFirstErr(xs[1..], i - 1) by {
        forall j | 0 <= j < i - 1 ensures xs[1..][j].Ok? {
          assert xs[1..][j] == xs[j + 1];
        }
      }
      CollectFirstErr(xs[1..], i - 1);
    }
  }

  /** Every failed collection has a first failing element. */
  lemma {:induction false} CollectErrHasFirstErr<T, E>(xs: seq<Result<T, E>>)
    requires Collect(xs).Err?
    ensures exists i :: IsFirstErr(xs, i)
  {
    if xs[0].Err? {
      assert IsFirstErr(xs, 0);
    } else {
      CollectErrHasFirstErr(xs[1..]);
      var i :| IsFirstErr(xs[1..], i);
      assert IsFirstErr(xs, i + 1) by {
        forall j | 0 <= j < i + 1 ensures xs[j].Ok? {
          if j > 0 { assert xs[j] == xs[1..][j - 1]; }
        }
      }
    }
  }

  /** Collection short-circuits: nothing after the first failure can change
      the outcome. */
  lemma CollectShortCircuits<T, E>(xs: seq<Result<T, E>>, ys: seq<Result<T, E>>, i: int)
    requires IsFirstErr(xs, i)
    requires i < |ys| && xs[..i + 1] == ys[..i + 1]
    ensures Collect(xs) == Collect(ys)
  {
    assert IsFirstErr(ys, i) by {
      assert ys[i] == ys[..i + 1][i] == xs[..i + 1][i] == xs[i];
      forall j | 0 <= j < i ensures ys[j].Ok? {
        assert ys[j] == ys[..i + 1][j] == xs[..i + 1][j] == xs[j];
      }
    }
    CollectFirstErr(xs, i);
    CollectFirstErr(ys, i);
  }
}
