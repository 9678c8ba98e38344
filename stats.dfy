/** Arithmetic mean and minimum of a list of scores, over the reals.
    The probe computes these with numpy's `mean` and `min`; here they are
    exact, without floating-point rounding. */
module Stats {

  /** Sum of all scores. */
  function Sum(xs: seq<real>): real
  {
    if xs == [] then 0.0 else xs[0] + Sum(xs[1..])
  }

  /** Arithmetic mean of a non-empty list of scores. */
  function Mean(xs: seq<real>): real
    requires |xs| > 0
  {
    Sum(xs) / (|xs| as real)
  }

  /** Smallest score of a non-empty list: it occurs in the list and no
      score is below it. */
  function Min(xs: seq<real>): (m: real)
    requires |xs| > 0
    ensures m in xs
    ensures forall x :: x in xs ==> m <= x
  {
    if |xs| == 1 then xs[0]
    else
      var rest := Min(xs[1..]);
      assert forall x :: x in xs ==> x == xs[0] || x in xs[1..];
      if xs[0] <= rest then xs[0] else rest
  }

  /** Every score lies between lo and hi. */
  ghost predicate Within(xs: seq<real>, lo: real, hi: real)
  {
    forall x :: x in xs ==> lo <= x <= hi
  }

  lemma WithinJoin(xs: seq<real>, ys: seq<real>, lo: real, hi: real)
    requires Within(xs, lo, hi) && Within(ys, lo, hi)
    ensures Within(xs + ys, lo, hi)
  {
  }

  lemma {:induction false} SumAppend(xs: seq<real>, ys: seq<real>)
    ensures Sum(xs + ys) == Sum(xs) + Sum(ys)
  {
    if xs == [] {
      assert xs + ys == ys;
    } else {
      assert (xs + ys)[1..] == xs[1..] + ys;
      SumAppend(xs[1..], ys);
    }
  }

  /** A sum of n scores in [lo, hi] lies in [n*lo, n*hi]. */
  lemma {:induction false} SumBounds(xs: seq<real>, lo: real, hi: real)
    requires Within(xs, lo, hi)
    ensures (|xs| as real) * lo <= Sum(xs) <= (|xs| as real) * hi
  {
    if xs != [] {
      assert xs[0] in xs;
      assert Within(xs[1..], lo, hi) by {
        forall x | x in xs[1..] ensures lo <= x <= hi {
          assert x in xs;
        }
      }
      SumBounds(xs[1..], lo, hi);
      var n := |xs[1..]| as real;
      assert (|xs| as real) == n + 1.0;
      assert (n + 1.0) * lo == n * lo + lo;
      assert (n + 1.0) * hi == n * hi + hi;
    }
  }

  /** The mean of scores in [lo, hi] lies in [lo, hi]. */
  lemma MeanBounds(xs: seq<real>, lo: real, hi: real)
    requires |xs| > 0
    requires Within(xs, lo, hi)
    ensures lo <= Mean(xs) <= hi
  {
    SumBounds(xs, lo, hi);
    var n := |xs| as real;
    assert n > 0.0;
    assert lo == (n * lo) / n;
    assert hi == (n * hi) / n;
  }

  /** For scores in [0, 1], 0 <= min <= mean <= 1. */
  lemma MinMeanOrder(xs: seq<real>)
    requires |xs| > 0
    requires Within(xs, 0.0, 1.0)
    ensures 0.0 <= Min(xs) <= Mean(xs) <= 1.0
  {
    var m := Min(xs);
    assert Within(xs, m, 1.0);
    MeanBounds(xs, m, 1.0);
  }

  /** The mean does not depend on the order in which two lists are joined. */
  lemma MeanSwap(xs: seq<real>, ys: seq<real>)
    requires |xs + ys| > 0
    ensures Mean(xs + ys) == Mean(ys + xs)
  {
    SumAppend(xs, ys);
    SumAppend(ys, xs);
  }
}
