/** The page script's result objects: `ok(v)` is `{ok: v}` and `err(v)` is
    `{err: v}`. A result counts as a success only when its `ok` payload is
    truthy, so `ok("")` is treated like a failure by every combinator and is
    passed on unchanged. Payloads are strings: no other kind of value is
    ever wrapped by the script. */
module Results {
  import opened Js

  datatype Result = Ok(value: string) | Err(error: string)

  /** `isOk(r)` as a condition: `r["ok"]` is truthy, which an `ok` with
      an empty payload is not. */
  predicate IsOk(r: Result)
    ensures IsOk(r) <==> r.Ok? && r.value != ""
  {
    Truthy(OkField(r))
  }

  /** `isErr(r)` as a condition: `r["err"]` is truthy. */
  predicate IsErr(r: Result)
    ensures IsErr(r) <==> r.Err? && r.error != ""
    ensures IsErr(r) ==> !IsOk(r)
  {
    Truthy(ErrField(r))
  }

  /** `r["ok"]` */
  function OkField(r: Result): Value {
    if r.Ok? then Str(r.value) else Undefined
  }

  /** `r["err"]`: `undefined` for an `ok` result. */
  function ErrField(r: Result): Value {
    if r.Err? then Str(r.error) else Undefined
  }

  /** `mapOk(r, f)`: only a non-empty `ok` payload is mapped, and the
      result is then always an `ok`. */
  function MapOk(r: Result, f: string -> string): (res: Result)
    ensures r.Ok? && r.value != "" ==> res == Ok(f(r.value))
    ensures r.Err? || r.value == "" ==> res == r
    ensures res.Err? ==> res == r
  {
    if IsOk(r) then Ok(f(r.value)) else r
  }

  /** `flatMapOk(r, f)`: a non-empty `ok` payload is handed to `f`; an
      error or `ok("")` is passed on as it is. */
  function FlatMapOk(r: Result, f: string -> Result): (res: Result)
    ensures r.Ok? && r.value != "" ==> res == f(r.value)
    ensures r.Err? || r.value == "" ==> res == r
  {
    if IsOk(r) then f(r.value) else r
  }

  /** `bindChain(initialResult, ...fns)`: `flatMapOk` folded over `fns` from
      the left. A result that is no success goes through untouched. */
  function BindChain(r: Result, fns: seq<string -> Result>): (res: Result)
    ensures !IsOk(r) ==> res == r
    ensures IsOk(res) ==> IsOk(r)
    decreases |fns|
  {
    if |fns| == 0 then r else BindChain(FlatMapOk(r, fns[0]), fns[1..])
  }

  // ---------------------------------------------------------------------
  // Lemmas

  /** Success is exactly a non-empty `ok` payload; a failure is never a
      success and an `err` with a non-empty message is a failure. */
  lemma IsOkMeaning(r: Result)
    ensures IsOk(r) <==> r.Ok? && r.value != ""
    ensures IsErr(r) <==> r.Err? && r.error != ""
    ensures !(IsOk(r) && IsErr(r))
  {
  }

  /** `mapOk` is `flatMapOk` with a step that always wraps in `ok`. */
  lemma MapOkIsFlatMap(r: Result, f: string -> string)
    ensures MapOk(r, f) == FlatMapOk(r, v => Ok(f(v)))
  {
  }

  /** Mapping twice is mapping once by the composition only when the first
      function never yields the empty string: an empty intermediate payload
      stops the second map. */
  lemma MapOkCompose(r: Result, f: string -> string, g: string -> string)
    requires forall v :: f(v) != ""
    ensures MapOk(MapOk(r, f), g) == MapOk(r, v => g(f(v)))
  {
  }

  /** The composition law fails as soon as `f` can return "". */
  lemma MapOkComposeFailsOnEmpty()
    ensures MapOk(MapOk(Ok("a"), v => ""), v => "b") == Ok("")
    ensures MapOk(Ok("a"), v => "b") == Ok("b")
  {
  }

  /** `ok` is a right identity of `flatMapOk`, and `flatMapOk` is
      associative. */
  lemma FlatMapOkLaws(r: Result, f: string -> Result, g: string -> Result)
    ensures FlatMapOk(r, v => Ok(v)) == r
    ensures FlatMapOk(FlatMapOk(r, f), g) == FlatMapOk(r, v => FlatMapOk(f(v), g))
  {
  }

  /** `ok` is a left identity only for a non-empty value. */
  lemma FlatMapOkLeftIdentity(v: string, f: string -> Result)
    ensures v != "" ==> FlatMapOk(Ok(v), f) == f(v)
    ensures v == "" ==> FlatMapOk(Ok(v), f) == Ok("")
  {
  }

  /** Chaining over a concatenation is chaining twice. */
  lemma {:induction false} BindChainAppend(r: Result, a: seq<string -> Result>, b: seq<string -> Result>)
    ensures BindChain(r, a + b) == BindChain(BindChain(r, a), b)
    decreases |a|
  {
    if |a| == 0 {
      assert a + b == b;
    } else {
      assert (a + b)[0] == a[0];
      assert (a + b)[1..] == a[1..] + b;
      BindChainAppend(FlatMapOk(r, a[0]), a[1..], b);
    }
  }

  /** Once a step's result is no success, the chain's final result is that
      result: the steps after it are never applied. */
  lemma BindChainShortCircuit(r: Result, fns: seq<string -> Result>, k: nat)
    requires k <= |fns|
    requires !IsOk(BindChain(r, fns[..k]))
    ensures BindChain(r, fns) == BindChain(r, fns[..k])
  {
    assert fns == fns[..k] + fns[k..];
    BindChainAppend(r, fns[..k], fns[k..]);
  }

  /** A validator step either hands its input back as `ok` or fails. */
  predicate KeepsOrFails(f: string -> Result, v: string) {
    f(v) == Ok(v) || f(v).Err?
  }

  /** Reference meaning of a validator chain on `v`: the result of the first
      step that fails on `v`, or `ok(v)` if none does. */
  function FirstFailure(v: string, fns: seq<string -> Result>): (r: Result)
    ensures r == Ok(v) || r.Err?
    decreases |fns|
  {
    if |fns| == 0 then Ok(v)
    else if fns[0](v).Err? then fns[0](v)
    else FirstFailure(v, fns[1..])
  }

  lemma FirstFailureCons(v: string, f: string -> Result, rest: seq<string -> Result>)
    ensures FirstFailure(v, [f] + rest) == if f(v).Err? then f(v) else FirstFailure(v, rest)
  {
    assert ([f] + rest)[1..] == rest;
  }

  /** Every step of `fns` keeps or fails on `v`. */
  predicate AllKeepOrFail(fns: seq<string -> Result>, v: string)
    decreases |fns|
  {
    |fns| == 0 || (KeepsOrFails(fns[0], v) && AllKeepOrFail(fns[1..], v))
  }

  lemma AllKeepOrFailCons(f: string -> Result, rest: seq<string -> Result>, v: string)
    ensures AllKeepOrFail([f] + rest, v) <==> KeepsOrFails(f, v) && AllKeepOrFail(rest, v)
  {
    assert ([f] + rest)[1..] == rest;
  }

  /** On a non-empty input and steps that keep or fail, `bindChain` returns
      the first failure, or the input itself. */
  lemma {:induction false} BindChainIsFirstFailure(v: string, fns: seq<string -> Result>)
    requires v != ""
    requires AllKeepOrFail(fns, v)
    ensures BindChain(Ok(v), fns) == FirstFailure(v, fns)
    decreases |fns|
  {
    if |fns| > 0 {
      if fns[0](v).Err? {
        assert !IsOk(fns[0](v));
      } else {
        BindChainIsFirstFailure(v, fns[1..]);
      }
    }
  }
}
