/** Types and units shared by the whole model. */
module Basics {
  datatype Option<+T> = None | Some(value: T)

  datatype Result<+T, +E> = Ok(value: T) | Err(error: E)

  /** Times and durations are counted in nanoseconds, as Go's time.Duration does. */
  const SECOND: int := 1_000_000_000
  const MINUTE: int := 60 * SECOND
  const MAX_INT64: int := 0x7FFF_FFFF_FFFF_FFFF

  /** An interval range in minutes; the source puts no bound on either end here. */
  datatype Range = Range(min: int, max: int)

  /** The sum of the weights that `f` gives to the elements of `s`. */
  ghost function Sum<T>(s: seq<T>, f: T -> nat): nat {
    if s == [] then 0 else Sum(s[..|s| - 1], f) + f(s[|s| - 1])
  }

  lemma {:induction false} SumUpdate<T>(s: seq<T>, i: nat, x: T, f: T -> nat)
    requires i < |s|
    ensures Sum(s[i := x], f) + f(s[i]) == Sum(s, f) + f(x)
  {
    var last := |s| - 1;
    if i == last {
      assert s[i := x][..last] == s[..last];
    } else {
      assert s[i := x][..last] == s[..last][i := x];
      SumUpdate(s[..last], i, x, f);
    }
  }

  lemma SumPush<T>(s: seq<T>, x: T, f: T -> nat)
    ensures Sum(s + [x], f) == Sum(s, f) + f(x)
  {
    assert (s + [x])[..|s|] == s;
  }
}
