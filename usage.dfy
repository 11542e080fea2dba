/** The library's own usage: the helpers its tests and documentation define and
    the scenarios those tests assert. `usize` values are natural numbers; the
    string parser and `format!` are function parameters. */
module OopsUsage {
  import opened Core
  import opened Io
  import opened Oops

  /** `iter().nth(n)`: the element at index `n`, if there is one. */
  function Nth<T>(s: seq<T>, n: nat): (o: Option<T>)
    ensures o.Some? <==> n < |s|
    ensures o.Some? ==> o.value == s[n]
  {
    if n < |s| then Some(s[n]) else None
  }

  /** `third_element`: despite its name it takes index 3, the fourth element,
      so a slice of three elements has none. */
  function ThirdElement(slice: seq<nat>): (r: IoResult<nat>)
    ensures r.Ok? <==> |slice| > 3
    ensures r.Ok? ==> r.value == slice[3]
    ensures r.Err? ==> r.error == Error(Other, "No third element")
  {
    OptionOops(Nth(slice, 3), "No third element")
  }

  /** One element of `parse_batch`: parse `v`, and on failure describe it with
      `format`, called only then. */
  function ParseOne<PE>(v: string, slice: seq<string>, parse: string -> Result<nat, PE>,
                        format: (string, seq<string>) -> string): (r: IoResult<nat>)
    ensures r.Ok? <==> parse(v).Ok?
    ensures r.Ok? ==> r.value == parse(v).value
    ensures r.Err? ==> r.error == Error(Other, format(v, slice))
  {
    ResultLazyOops(parse(v), () => format(v, slice))
  }

  /** The `map` of `parse_batch`: `ParseOne` applied to every element. */
  function ParseAll<PE>(slice: seq<string>, parse: string -> Result<nat, PE>,
                        format: (string, seq<string>) -> string): (r: seq<IoResult<nat>>)
    ensures |r| == |slice|
    ensures forall i :: 0 <= i < |slice| ==> r[i] == ParseOne(slice[i], slice, parse, format)
  {
    seq(|slice|, i requires 0 <= i < |slice| => ParseOne(slice[i], slice, parse, format))
  }

  /** `parse_batch`: succeeds exactly when every element parses, and then holds
      the parsed values in order; otherwise it carries the error of the first
      element that does not parse (see `ParseBatchFirstFailure`). */
  function ParseBatch<PE>(slice: seq<string>, parse: string -> Result<nat, PE>,
                          format: (string, seq<string>) -> string): (r: IoResult<seq<nat>>)
    ensures r.Ok? <==> forall i :: 0 <= i < |slice| ==> parse(slice[i]).Ok?
    ensures r.Ok? ==> |r.value| == |slice|
    ensures r.Ok? ==> forall i :: 0 <= i < |slice| ==> r.value[i] == parse(slice[i]).value
  {
    var xs := ParseAll(slice, parse, format);
    assert forall i :: 0 <= i < |slice| ==> xs[i].Ok? == parse(slice[i]).Ok?;
    Collect(xs)
  }

  /** `i` is the first position of `slice` that `parse` rejects. */
  ghost predicate IsFirstParseFailure<PE>(slice: seq<string>, parse: string -> Result<nat, PE>, i: int) {
    && 0 <= i < |slice|
    && parse(slice[i]).Err?
    && forall j :: 0 <= j < i ==> parse(slice[j]).Ok?
  }

  /** A failed batch reports, with kind `Other`, the formatted message of its
      first unparsable element, and of no other. */
  lemma ParseBatchFirstFailure<PE>(slice: seq<string>, parse: string -> Result<nat, PE>,
                                   format: (string, seq<string>) -> string, i: int)
    requires IsFirstParseFailure(slice, parse, i)
    ensures ParseBatch(slice, parse, format) == Err(Error(Other, format(slice[i], slice)))
  {
    var xs := ParseAll(slice, parse, format);
    assert IsFirstErr(xs, i) by {
      assert xs[i].Err?;
      forall j | 0 <= j < i ensures xs[j].Ok? {
        assert xs[j] == ParseOne(slice[j], slice, parse, format);
      }
    }
    CollectFirstErr(xs, i);
  }

  /** Every failed batch has a first unparsable element. */
  lemma ParseBatchErrHasFirstFailure<PE>(slice: seq<string>, parse: string -> Result<nat, PE>,
                                         format: (string, seq<string>) -> string)
    requires ParseBatch(slice, parse, format).Err?
    ensures exists i :: IsFirstParseFailure(slice, parse, i)
  {
    var xs := ParseAll(slice, parse, format);
    CollectErrHasFirstErr(xs);
    var i :| IsFirstErr(xs, i);
    assert IsFirstParseFailure(slice, parse, i) by {
      assert xs[i] == ParseOne(slice[i], slice, parse, format);
      forall j | 0 <= j < i ensures parse(slice[j]).Ok? {
        assert xs[j] == ParseOne(slice[j], slice, parse, format);
      }
    }
  }

  /** The loop of `test_oops_lazy`: for every `v` below `n`, `Ok(())` is
      converted with a producer that formats `v`; every conversion unwraps and
      no producer is ever called. */
  method FormatEachOnOk(n: nat, format: nat -> string) returns (results: seq<IoResult<()>>, ghost calls: nat)
    ensures |results| == n
    ensures forall i :: 0 <= i < n ==> results[i] == Ok(())
    ensures calls == 0
  {
    results, calls := [], 0;
    for v := 0 to n
      invariant |results| == v
      invariant forall i :: 0 <= i < v ==> results[i] == Ok(())
      invariant calls == 0
    {
      var r, c := ResultLazyOopsCounted<(), ()>(Ok(()), () => format(v));
      calls := calls + c;
      results := results + [r];
    }
  }

  // ---------------------------------------------------------------------------
  // The test scenarios
  // ---------------------------------------------------------------------------

  /** `test_oops`: `None` converts to an error, and neither a two- nor a
      three-element slice has an element at index 3. */
  lemma TestOops()
    ensures OptionOops<()>(None, "_").Err?
    ensures OptionOops(Nth([1, 2], 3), "No 3rd element").Err?
    ensures ThirdElement([1, 2, 3]).Err?
    ensures ThirdElement([1, 2, 3]).error == Error(Other, "No third element")
  {
  }

  /** `test_oops_result`: the failure "hello world" becomes an `Other` error
      that says "oh no" and nothing about "hello world". */
  lemma TestOopsResult()
    ensures ResultOops<(), string>(Err("hello world"), "oh no") == Err(Error(Other, "oh no"))
  {
  }

  /** `test_oops_lazy`: a producer that panics is harmless on `Ok(())`, and the
      producer's message is used on `Err(())`. */
  lemma TestOopsLazy()
    ensures ResultLazyOops<(), ()>(Ok(()), () requires false => "Impossibru") == Ok(())
    ensures ResultLazyOops<(), ()>(Err(()), () => "oh no") == Err(Error(Other, "oh no"))
  {
  }

  /** `test_doc`: with a parser that accepts "2", "3" and "7" and rejects "lo",
      the batch fails with the message formatted for "lo", whatever the parser
      does with "11". */
  lemma TestDoc<PE>(parse: string -> Result<nat, PE>, format: (string, seq<string>) -> string)
    requires parse("2").Ok? && parse("3").Ok? && parse("7").Ok? && parse("lo").Err?
    ensures ParseBatch(["2", "3", "7", "lo", "11"], parse, format)
              == Err(Error(Other, format("lo", ["2", "3", "7", "lo", "11"])))
    ensures ThirdElement([1, 2, 3]).Err? && ThirdElement([1, 2, 3]).error.kind == Other
  {
    var slice := ["2", "3", "7", "lo", "11"];
    ParseBatchFirstFailure(slice, parse, format, 3);
  }
}
