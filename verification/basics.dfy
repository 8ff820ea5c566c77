/** Optional values and success/failure results used throughout the model.
    A Python `None`, a missing dictionary key or a raised exception becomes
    one of these instead of a precondition. */
module Basics {

  datatype Option<+T> = None | Some(value: T) {
    /** The wrapped value, or `default` when there is none. */
    function GetOr(default: T): T {
      match this
      case Some(v) => v
      case None => default
    }
  }

  datatype Result<+R, +E> = Success(value: R) | Failure(error: E)

  function Min(a: int, b: int): int { if a <= b then a else b }

  function Max(a: int, b: int): int { if a >= b then a else b }

  /** The position of the first element of `xs`, from `i` on, that
      satisfies `p`: a `for` loop that breaks at the first hit. */
  function FirstFrom<T>(xs: seq<T>, p: T -> bool, i: nat): (r: Option<nat>)
    requires i <= |xs|
    ensures r.Some? ==> i <= r.value < |xs| && p(xs[r.value])
                        && forall j :: i <= j < r.value ==> !p(xs[j])
    ensures r.None? ==> forall j :: i <= j < |xs| ==> !p(xs[j])
    decreases |xs| - i
  {
    if i == |xs| then None
    else if p(xs[i]) then Some(i)
    else FirstFrom(xs, p, i + 1)
  }

  /** The position of the last element of `xs` that satisfies `p`: a loop
      that overwrites its answer on every hit. */
  function LastOf<T>(xs: seq<T>, p: T -> bool): (r: Option<nat>)
    ensures r.Some? ==> r.value < |xs| && p(xs[r.value])
                        && forall j :: r.value < j < |xs| ==> !p(xs[j])
    ensures r.None? ==> forall j :: 0 <= j < |xs| ==> !p(xs[j])
  {
    if xs == [] then None
    else if p(xs[|xs| - 1]) then Some(|xs| - 1)
    else LastOf(xs[..|xs| - 1], p)
  }

  /** One more element at the end changes the first hit only when there
      was none before. */
  lemma {:induction false} FirstFromAppend<T>(xs: seq<T>, x: T, p: T -> bool, i: nat)
    requires i <= |xs|
    ensures FirstFrom(xs + [x], p, i) ==
      if FirstFrom(xs, p, i).Some? then FirstFrom(xs, p, i)
      else if p(x) then Some(|xs|) else None
    decreases |xs| - i
  {
    if i < |xs| {
      assert (xs + [x])[i] == xs[i];
      if !p(xs[i]) {
        FirstFromAppend(xs, x, p, i + 1);
      }
    } else {
      assert (xs + [x])[i] == x;
    }
  }

  /** One more element at the end is the last hit if it satisfies `p`. */
  lemma LastOfAppend<T>(xs: seq<T>, x: T, p: T -> bool)
    ensures LastOf(xs + [x], p) == if p(x) then Some(|xs|) else LastOf(xs, p)
  {
    assert (xs + [x])[..|xs|] == xs;
  }
}
