/** Error codes, results and the small collection helpers every module shares. */
module Kernel {

  type byte = b: int | 0 <= b < 256

  const U64_LIMIT: nat := 0x1_0000_0000_0000_0000

  type u64 = n: nat | n < U64_LIMIT

  /** The error kinds the modelled functions return (src/error.rs). */
  datatype KernelError =
    | InvalidArgument
    | ParseError
    | LengthOverflow
    | InvalidProfile

  datatype Option<+T> = None | Some(value: T)

  datatype Result<+T> = Ok(value: T) | Err(error: KernelError) {
    predicate IsFailure() {
      Err?
    }

    function PropagateFailure<U>(): Result<U>
      requires Err?
    {
      Err(error)
    }

    function Extract(): T
      requires Ok?
    {
      value
    }
  }

  /** The result of a check that only passes or fails. */
  datatype Outcome = Pass | Fail(error: KernelError) {
    predicate IsFailure() {
      Fail?
    }

    function PropagateFailure<U>(): Result<U>
      requires Fail?
    {
      Err(error)
    }
  }

  /** `if !condition { return Err(error) }`, written `:- Check(condition, error)`. */
  function Check(condition: bool, error: KernelError): Outcome {
    if condition then Pass else Fail(error)
  }

  /** No element occurs twice. */
  predicate NoDuplicates<T(==)>(s: seq<T>) {
    forall i, j | 0 <= i < j < |s| :: s[i] != s[j]
  }

  lemma Associative<T>(a: seq<T>, b: seq<T>, c: seq<T>)
    ensures (a + b) + c == a + (b + c)
  {
  }

  function Max(a: nat, b: nat): nat {
    if a < b then b else a
  }

  /** Applies a fallible reader to every element and stops at the first failure. */
  function MapResult<T, U>(f: T -> Result<U>, s: seq<T>): (r: Result<seq<U>>)
    ensures r.Ok? ==> |r.value| == |s| && forall i | 0 <= i < |s| :: f(s[i]) == Ok(r.value[i])
    ensures r.Err? ==> exists i | 0 <= i < |s| :: f(s[i]).Err?
  {
    if s == [] then Ok([])
    else
      var head :- f(s[0]);
      var tail :- MapResult(f, s[1..]);
      Ok([head] + tail)
  }

  /** The list read is the one whose every element is read. */
  lemma MapResultIs<T, U>(f: T -> Result<U>, s: seq<T>, r: seq<U>)
    ensures MapResult(f, s) == Ok(r) <==> |r| == |s| && forall i | 0 <= i < |s| :: f(s[i]) == Ok(r[i])
  {
    hide MapResult;
    var m := MapResult(f, s);
    if |r| == |s| && forall i | 0 <= i < |s| :: f(s[i]) == Ok(r[i]) {
      assert m.Ok?;
      assert m.value == r;
    }
  }
}
