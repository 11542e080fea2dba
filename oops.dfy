/** The `Oops<T>` extension trait: turn an absent value or a failure into an
    `io::Result<T>` whose error is of kind `Other` and carries a message given
    by the caller, either eagerly (`oops`) or through a producer that is run
    only on the failure path (`lazy_oops`).

    A message producer is a partial arrow `() --> string`. A producer that
    would panic is one whose precondition is `false`; the lazy operations only
    demand the producer's precondition on the failure path, so a panicking
    producer is fine wherever the value is present. */
module Oops {
  import opened Core
  import opened Io

  // ---------------------------------------------------------------------------
  // impl Oops<T> for Option<T>
  // ---------------------------------------------------------------------------

  /** `Option::oops`: a present value is kept; an absent one becomes the error
      `io::Error::new(ErrorKind::Other, msg)`, of kind `Other` with message
      exactly `msg`. */
  function OptionOops<T>(o: Option<T>, msg: string): (r: IoResult<T>)
    ensures r.Ok? <==> o.Some?
    ensures o.Some? ==> r.value == o.value
    ensures r.Err? ==> r.error.kind == Other && r.error.message == msg
  {
    OkOrElse(o, () => Error(Other, msg))
  }

  /** `Option::lazy_oops`: like `OptionOops` with the message produced by
      `lazyMsg`, which is needed (and may only be called) when `o` is absent. */
  function OptionLazyOops<T>(o: Option<T>, lazyMsg: () --> string): (r: IoResult<T>)
    requires o.None? ==> lazyMsg.requires()
    ensures r.Ok? <==> o.Some?
    ensures o.Some? ==> r.value == o.value
    ensures o.None? ==> r.error.kind == Other && r.error.message == lazyMsg()
  {
    match o
    case Some(x) => Ok(x)
    case None => OptionOops(o, lazyMsg())
  }

  /** `Option::lazy_oops` with its calls of `lazyMsg` counted: none when the
      value is present, exactly one when it is absent. */
  method OptionLazyOopsCounted<T>(o: Option<T>, lazyMsg: () --> string) returns (r: IoResult<T>, ghost calls: nat)
    requires o.None? ==> lazyMsg.requires()
    ensures calls == if o.Some? then 0 else 1
    ensures r == OptionLazyOops(o, lazyMsg)
  {
    match o {
      case Some(x) =>
        r, calls := Ok(x), 0;
      case None =>
        var msg := lazyMsg();
        calls := 1;
        r := OptionOops(o, msg);
    }
  }

  // ---------------------------------------------------------------------------
  // impl Oops<T> for Result<T, E>
  // ---------------------------------------------------------------------------

  /** `Result::oops`: a success value is kept; any failure, whatever its value,
      becomes an error of kind `Other` whose message is exactly `msg`. */
  function ResultOops<T, E>(res: Result<T, E>, msg: string): (r: IoResult<T>)
    ensures r.Ok? <==> res.Ok?
    ensures res.Ok? ==> r.value == res.value
    ensures r.Err? ==> r.error.kind == Other && r.error.message == msg
  {
    OptionOops(ResultOk(res), msg)
  }

  /** `Result::lazy_oops`: like `ResultOops` with the message produced by
      `lazyMsg`, which is needed (and may only be called) on failure. */
  function ResultLazyOops<T, E>(res: Result<T, E>, lazyMsg: () --> string): (r: IoResult<T>)
    requires res.Err? ==> lazyMsg.requires()
    ensures r.Ok? <==> res.Ok?
    ensures res.Ok? ==> r.value == res.value
    ensures res.Err? ==> r.error.kind == Other && r.error.message == lazyMsg()
  {
    match res
    case Ok(x) => Ok(x)
    case Err(_) => ResultOops(res, lazyMsg())
  }

  /** `Result::lazy_oops` with its calls of `lazyMsg` counted: none on success,
      exactly one on failure. */
  method ResultLazyOopsCounted<T, E>(res: Result<T, E>, lazyMsg: () --> string) returns (r: IoResult<T>, ghost calls: nat)
    requires res.Err? ==> lazyMsg.requires()
    ensures calls == if res.Ok? then 0 else 1
    ensures r == ResultLazyOops(res, lazyMsg)
  {
    match res {
      case Ok(x) =>
        r, calls := Ok(x), 0;
      case Err(_) =>
        var msg := lazyMsg();
        calls := 1;
        r := ResultOops(res, msg);
    }
  }

  // ---------------------------------------------------------------------------
  // Properties relating the operations
  // ---------------------------------------------------------------------------

  /** On `Result`, `lazy_oops` behaves as `lazy_oops` on the `Option` that
      `ok()` leaves: the two matches agree. */
  lemma ResultLazyOopsMatchesOption<T, E>(res: Result<T, E>, lazyMsg: () --> string)
    requires res.Err? ==> lazyMsg.requires()
    ensures ResultLazyOops(res, lazyMsg) == OptionLazyOops(ResultOk(res), lazyMsg)
  {
  }

  /** The failure value is dropped: two failures give the same error, so
      nothing of `e1` or `e2` can be read back from the output. */
  lemma ResultOopsForgetsError<T, E>(e1: E, e2: E, msg: string)
    ensures ResultOops<T, E>(Err(e1), msg) == ResultOops<T, E>(Err(e2), msg)
    ensures ResultOops<T, E>(Err(e1), msg) == Err(Error(Other, msg))
  {
  }

  /** On the success path the message plays no part. */
  lemma OopsIgnoresMessageOnSuccess<T, E>(v: T, m1: string, m2: string)
    ensures OptionOops(Some(v), m1) == OptionOops(Some(v), m2) == Ok(v)
    ensures ResultOops<T, E>(Ok(v), m1) == ResultOops<T, E>(Ok(v), m2) == Ok(v)
  {
  }

  /** Lazy and eager conversion agree for every producer that can run. */
  lemma OptionLazyAgreesWithEager<T>(o: Option<T>, lazyMsg: () --> string)
    requires lazyMsg.requires()
    ensures OptionLazyOops(o, lazyMsg) == OptionOops(o, lazyMsg())
  {
  }

  /** Lazy and eager conversion agree for every producer that can run. */
  lemma ResultLazyAgreesWithEager<T, E>(res: Result<T, E>, lazyMsg: () --> string)
    requires lazyMsg.requires()
    ensures ResultLazyOops(res, lazyMsg) == ResultOops(res, lazyMsg())
  {
  }

  /** On success the producer is irrelevant: any two producers, even ones that
      cannot run, give the same result. */
  lemma LazyIgnoresProducerOnSuccess<T, E>(v: T, f: () --> string, g: () --> string)
    ensures OptionLazyOops(Some(v), f) == OptionLazyOops(Some(v), g) == Ok(v)
    ensures ResultLazyOops<T, E>(Ok(v), f) == ResultLazyOops<T, E>(Ok(v), g) == Ok(v)
  {
  }
}
