/**
 * Outcomes shared by the whole model: optional values, and the Java exceptions
 * the modelled code raises, carried in a `Result` instead of being thrown.
 */
module Faults {

  datatype Option<+T> = None | Some(value: T)

  /** The unchecked Java exceptions the modelled code can raise. */
  datatype Unchecked =
    | StringIndexOutOfBounds   // String.substring or String.charAt outside the string
    | ArrayIndexOutOfBounds    // indexing past the end of the array String.split returned
    | IndexOutOfBounds         // List.get on an empty list
    | NumberFormat             // Integer.valueOf or Double.valueOf on text they reject
    | IllegalArgument          // SecureRandom.nextInt or nextDouble with a bound that is not positive; HttpStatus.valueOf on an unknown code

  /** What a failed operation raised. */
  datatype Fault =
    | InvalidResponseBody(message: string)   // the template expander's own checked exception
    | Runtime(cause: Unchecked)

  datatype Result<+T> = Success(value: T) | Failure(error: Fault)

  /**
   * `f` applied to each element in order, as a loop that stops at the first
   * exception does.
   */
  function MapAll<T, U>(xs: seq<T>, f: T -> Result<U>): Result<seq<U>>
    decreases |xs|
  {
    if xs == [] then Success([])
    else
      match MapAll(xs[..|xs| - 1], f)
      case Failure(e) => Failure(e)
      case Success(done) =>
        match f(xs[|xs| - 1])
        case Failure(e) => Failure(e)
        case Success(y) => Success(done + [y])
  }

  /** The loop completes exactly when every element succeeds, and then collects their values in order. */
  lemma {:induction false} MapAllMeaning<T, U>(xs: seq<T>, f: T -> Result<U>)
    ensures MapAll(xs, f).Success? <==> forall k :: 0 <= k < |xs| ==> f(xs[k]).Success?
    ensures MapAll(xs, f).Success? ==>
      |MapAll(xs, f).value| == |xs| && forall k :: 0 <= k < |xs| ==> f(xs[k]) == Success(MapAll(xs, f).value[k])
    decreases |xs|
  {
    if xs != [] {
      var n := |xs| - 1;
      assert forall i :: 0 <= i < n ==> xs[..n][i] == xs[i];
      MapAllMeaning(xs[..n], f);
    }
  }

  lemma {:induction false} MapAllEach<T, U>(xs: seq<T>, ys: seq<U>, f: T -> Result<U>)
    requires |xs| == |ys|
    requires forall k :: 0 <= k < |xs| ==> f(xs[k]) == Success(ys[k])
    ensures MapAll(xs, f) == Success(ys)
    decreases |xs|
  {
    if xs != [] {
      var n := |xs| - 1;
      assert forall i :: 0 <= i < n ==> xs[..n][i] == xs[i] && ys[..n][i] == ys[i];
      MapAllEach(xs[..n], ys[..n], f);
      assert ys[..n] + [ys[n]] == ys;
    }
  }

  /** Two functions that agree on every element give the same loop result. */
  lemma {:induction false} MapAllAgree<T, U>(xs: seq<T>, f: T -> Result<U>, g: T -> Result<U>)
    requires forall k :: 0 <= k < |xs| ==> f(xs[k]) == g(xs[k])
    ensures MapAll(xs, f) == MapAll(xs, g)
    decreases |xs|
  {
    if xs != [] {
      var n := |xs| - 1;
      assert forall i :: 0 <= i < n ==> xs[..n][i] == xs[i];
      MapAllAgree(xs[..n], f, g);
    }
  }

  /** The loop fails with the exception of the first element that fails. */
  lemma {:induction false} MapAllFirstFailure<T, U>(xs: seq<T>, n: nat, f: T -> Result<U>)
    requires n < |xs|
    requires forall k :: 0 <= k < n ==> f(xs[k]).Success?
    requires f(xs[n]).Failure?
    ensures MapAll(xs, f) == Failure(f(xs[n]).error)
    decreases |xs|
  {
    var last := |xs| - 1;
    assert forall i :: 0 <= i < last ==> xs[..last][i] == xs[i];
    if n < last {
      MapAllFirstFailure(xs[..last], n, f);
    } else {
      var ys := seq(last, i requires 0 <= i < last => f(xs[i]).value);
      MapAllEach(xs[..last], ys, f);
    }
  }
}
