# oops, modelled in Dafny

`oops` is a Rust library with one extension trait, `Oops<T>`. It turns an
absent value (`Option<T>`) or a failure (`Result<T, E>`) into a
`std::io::Result<T>`. Every failure becomes an `io::Error` of kind `Other`
that carries a message the caller supplies. The trait has two operations:

- `oops(msg)` takes the message eagerly;
- `lazy_oops(f)` takes a message producer and calls it only on the failure path.

On `Result`, `oops` goes through `.ok()`, so the original failure value is dropped.

The model:

- `core.dfy` (module `Core`) holds Rust's `Option` and `Result` and the
  standard combinators the library uses: `ok_or_else`, `Result::ok`, and
  `collect` into a `Result` of a sequence.
- `io.dfy` (module `Io`) holds `io::Error` as a record of an `ErrorKind` and a
  message. It also defines `IoResult<T>`, which is `Result<T, Error>` just as
  `io::Result<T>` is in Rust.
- `oops.dfy` (module `Oops`) holds the two `impl` blocks of the trait as
  functions, with the lemmas that relate them.
- `usage.dfy` (module `OopsUsage`) holds the helpers and scenarios of the
  library's tests and documentation: `third_element`, `parse_batch`, the
  `for_each` loop of `test_oops_lazy`, and the asserted outcomes.

A message producer is a partial arrow `() --> string`. A closure that panics,
such as `|| panic!(..)`, is a producer whose precondition is `false`. The lazy
operations require the producer's precondition only on the failure path. So
the verifier accepts a panicking producer wherever the value is present, and
that proves the producer is not called there. The methods
`OptionLazyOopsCounted` and `ResultLazyOopsCounted` also count the calls with a
ghost counter: zero on success, one on failure. "No call on success" is
enforced by the verifier, through the producer's precondition. "Exactly one call
on failure" is only the counter's bookkeeping: the counter is set next to the
single call in the body, and it is not checked against the calls made.

`third_element` takes index 3, the fourth element, even though its name and
message speak of the third. The library's own tests assert that `[1, 2, 3]`
gives an error, so the model keeps index 3 as the intended behaviour.

## Model

| member | source | states |
|---|---|---|
| `Core.OkOrElse` | src/lib.rs:9 | `ok_or_else` is `Ok` exactly when the option is present, keeps the value, and otherwise returns the error the closure builds |
| `Core.ResultOk` | src/lib.rs:22 | `.ok()` is present exactly on success, keeps the success value, and drops the failure value |
| `Core.Collect` | src/lib.rs:91-100 | collecting into a `Result` succeeds exactly when every element succeeds, and then yields the elements' values in order and with the same length |
| `Core.CollectFirstErr` | src/lib.rs:91-100 | a collection whose first failure is at `i` returns exactly that element's error |
| `Core.CollectErrHasFirstErr` | src/lib.rs:91-100 | every failed collection has a first failing element |
| `Core.CollectShortCircuits` | src/lib.rs:91-100 | two inputs that agree up to and including the first failure collect to the same result, so later elements never matter |
| `Oops.OptionOops` | src/lib.rs:8-10 | `Some(v).oops(m)` is `Ok(v)`; `None.oops(m)` is `io::Error::new(ErrorKind::Other, m)`: an error of kind `Other` whose message is exactly `m` |
| `Oops.OptionLazyOops` | src/lib.rs:12-17 | `Some(v).lazy_oops(f)` is `Ok(v)` and does not need `f` to be callable; `None.lazy_oops(f)` is an `Other` error whose message is `f()` |
| `Oops.OptionLazyOopsCounted` | src/lib.rs:12-17 | records no producer call for `Some` (enforced by the producer's precondition) and one recorded call for `None`, and returns the `lazy_oops` result |
| `Oops.ResultOops` | src/lib.rs:21-23 | `Ok(v).oops(m)` is `Ok(v)`; `Err(e).oops(m)` is an `Other` error whose message is exactly `m`, whatever `e` is |
| `Oops.ResultLazyOops` | src/lib.rs:25-30 | `Ok(v).lazy_oops(f)` is `Ok(v)` and does not need `f` to be callable; `Err(_).lazy_oops(f)` is an `Other` error whose message is `f()` |
| `Oops.ResultLazyOopsCounted` | src/lib.rs:25-30 | records no producer call for `Ok` (enforced by the producer's precondition) and one recorded call for `Err`, and returns the `lazy_oops` result |
| `Oops.ResultLazyOopsMatchesOption` | src/lib.rs:25-30 | `r.lazy_oops(f)` equals `r.ok().lazy_oops(f)` for every result `r` and every producer that can run on failure: the match on `Result` agrees with the match on `Option` |
| `Oops.ResultOopsForgetsError` | src/lib.rs:53-59 | two failures with different values convert to the same `Other` error with message `m`, so the failure value cannot be recovered from the output |
| `Oops.OopsIgnoresMessageOnSuccess` | src/lib.rs:8-10 | on `Some(v)` or `Ok(v)`, `oops` returns `Ok(v)` for every message |
| `Oops.OptionLazyAgreesWithEager` | src/lib.rs:12-17 | for every producer that can run, `o.lazy_oops(f)` equals `o.oops(f())` |
| `Oops.ResultLazyAgreesWithEager` | src/lib.rs:25-30 | for every producer that can run, `r.lazy_oops(f)` equals `r.oops(f())` |
| `Oops.LazyIgnoresProducerOnSuccess` | src/lib.rs:13-14 | on `Some(v)` or `Ok(v)`, `lazy_oops` returns `Ok(v)` with any two producers, including ones that cannot run |
| `OopsUsage.Nth` | src/lib.rs:47 | `nth(n)` is present exactly when `n` is below the length, and is then the element at index `n` |
| `OopsUsage.ThirdElement` | src/lib.rs:37-39 | `third_element(s)` is `Ok(s[3])` exactly when `s` has more than three elements, and otherwise the `Other` error "No third element" |
| `OopsUsage.ParseOne` | src/lib.rs:94-98 | one element of `parse_batch` is `Ok` exactly when it parses, then holding the parsed value; otherwise it is the `Other` error whose message is the one formatted for that element and the whole slice |
| `OopsUsage.ParseAll` | src/lib.rs:92-98 | the `iter().map(..)` step of `parse_batch` applies the per-element conversion `ParseOne` to each element, in order, keeping the slice's length |
| `OopsUsage.ParseBatch` | src/lib.rs:91-100 | `parse_batch` succeeds exactly when every element parses, and then returns the parsed values in order and with the slice's length |
| `OopsUsage.ParseBatchFirstFailure` | src/lib.rs:91-100 | when element `i` is the first that does not parse, `parse_batch` fails with the `Other` error whose message is the one formatted for element `i` and the whole slice |
| `OopsUsage.ParseBatchErrHasFirstFailure` | src/lib.rs:91-100 | every failed `parse_batch` has a first element that does not parse |
| `OopsUsage.FormatEachOnOk` | src/lib.rs:68-72 | converting `Ok(())` lazily for each `v` below `n` gives `Ok(())` every time and never calls a producer |
| `OopsUsage.TestOops` | src/lib.rs:42-50 | `None.oops("_")` is an error, and neither `[1, 2]` nor `[1, 2, 3]` has an element at index 3 |
| `OopsUsage.TestOopsResult` | src/lib.rs:53-59 | `Err("hello world").oops("oh no")` is exactly the `Other` error "oh no" |
| `OopsUsage.TestOopsLazy` | src/lib.rs:62-80 | a panicking producer on `Ok(())` gives `Ok(())`; on `Err(())` the producer's "oh no" becomes an `Other` error |
| `OopsUsage.TestDoc` | src/lib.rs:83-116 | with "lo" the first unparsable element of `["2", "3", "7", "lo", "11"]`, `parse_batch` fails with the message for "lo", whatever happens to "11" |

## Left out

- Ownership and moves (`self` consumed) and `FnOnce`: the container is a value. `FnOnce`'s at-most-once guarantee is not modelled. What the model does establish is that a producer that cannot run is accepted on success, so it is never called there, and that on failure the message is `f()`. The ghost counter records the intended count (0 on success, 1 on failure) but is not tied to the calls made.
- `panic!` (src/lib.rs:65): modelled as a producer whose precondition is `false`, not as an abort.
- `std::io::Error` internals (its boxed payload, `Display`, `source`): the error is a record of a kind and a message.
- `ErrorKind`: only six of Rust's kinds are listed; the library only ever builds `Other`.
- `format!` (src/lib.rs:70, src/lib.rs:97): a string function passed as a parameter.
- `str::parse::<usize>` (src/lib.rs:95): a parser function passed as a parameter. `usize` is modelled as `nat`, with no upper bound.
- Iterator state for `iter()`, `nth`, `map`, `collect` and `for_each`: modelled as sequence indexing, a sequence comprehension and a recursive short-circuiting `Collect`.
- Laziness of `map` inside `parse_batch`: the model says that the parse results of elements after the first failure cannot affect the result (`Core.CollectShortCircuits`, `OopsUsage.TestDoc`). Their text still reaches the failure message, because the whole slice is passed to `format`. It does not count parser or producer calls inside `parse_batch`.
- `OopsUsage.ThirdElement`: returns the element itself rather than a reference to it (`&usize`).
- The second copy of `third_element` (src/lib.rs:86-89) is the same as the first and is modelled by the same function.
