/**
 Small building blocks shared by the overlay's modules: an optional value
 (JavaScript's `null`/`undefined` versus a value) and the order-preserving
 `Array.prototype.filter` that the roster kick and the notification dismissal
 both use.
 */
module Basics {

  /** A value that may be absent (`null` or `undefined` in the overlay). */
  datatype Option<+T> = None | Some(value: T) {

    /** The value, or `default` when absent: the overlay's `x || default` on a non-falsy `x`. */
    function GetOr(default: T): T {
      match this
      case Some(v) => v
      case None => default
    }
  }

  /** The number of occurrences of `x` in `xs`. */
  ghost function Count<T>(xs: seq<T>, x: T): nat {
    multiset(xs)[x]
  }

  /**
   Keeps, in order, exactly the elements of `xs` that satisfy `keep`
   (`xs.filter(keep)`).
   */
  function Filter<T>(xs: seq<T>, keep: T -> bool): (r: seq<T>)
    ensures |r| <= |xs|
    ensures forall i :: 0 <= i < |r| ==> keep(r[i])
    decreases |xs|
  {
    if |xs| == 0 then []
    else
      var rest := Filter(xs[1..], keep);
      if keep(xs[0]) then [xs[0]] + rest else rest
  }

  /** Filtering a concatenation filters each part: the survivors keep their relative order. */
  lemma {:induction false} FilterAppend<T>(a: seq<T>, b: seq<T>, keep: T -> bool)
    ensures Filter(a + b, keep) == Filter(a, keep) + Filter(b, keep)
    decreases |a|
  {
    if |a| == 0 {
      assert a + b == b;
    } else {
      assert (a + b)[1..] == a[1..] + b;
      FilterAppend(a[1..], b, keep);
    }
  }

  /** An element that survives the filter occurs exactly as often as before; a removed one not at all. */
  lemma {:induction false} FilterCount<T>(xs: seq<T>, keep: T -> bool, x: T)
    ensures keep(x) ==> Count(Filter(xs, keep), x) == Count(xs, x)
    ensures !keep(x) ==> Count(Filter(xs, keep), x) == 0
    decreases |xs|
  {
    if |xs| != 0 {
      assert xs == [xs[0]] + xs[1..];
      FilterCount(xs[1..], keep, x);
    }
  }

  /** When every element is kept, filtering changes nothing. */
  lemma {:induction false} FilterKeepsAll<T>(xs: seq<T>, keep: T -> bool)
    requires forall i :: 0 <= i < |xs| ==> keep(xs[i])
    ensures Filter(xs, keep) == xs
    decreases |xs|
  {
    if |xs| != 0 {
      FilterKeepsAll(xs[1..], keep);
    }
  }
}
