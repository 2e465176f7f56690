/** Summary statistics of a price list, as the comparison computes them: the running
    sum of a left-to-right reduction starting at 0, its mean, and the extreme values.
    Values are unrounded reals; the two-decimal formatting is not modelled. */
module PriceStats {

  /** Left-to-right sum starting from 0, the order a reduction over the list uses.
      Non-negative values give a non-negative sum. */
  function Sum(xs: seq<real>): (s: real)
    ensures (forall i :: 0 <= i < |xs| ==> 0.0 <= xs[i]) ==> 0.0 <= s
  {
    if |xs| == 0 then 0.0 else Sum(xs[..|xs| - 1]) + xs[|xs| - 1]
  }

  /** Smallest value of a non-empty list: attained by some element and below every element. */
  function MinOf(xs: seq<real>): (m: real)
    requires |xs| > 0
    ensures m in xs
    ensures forall i :: 0 <= i < |xs| ==> m <= xs[i]
  {
    if |xs| == 1 then xs[0]
    else
      var rest := MinOf(xs[..|xs| - 1]);
      if xs[|xs| - 1] < rest then xs[|xs| - 1] else rest
  }

  /** Largest value of a non-empty list: attained by some element and above every element. */
  function MaxOf(xs: seq<real>): (m: real)
    requires |xs| > 0
    ensures m in xs
    ensures forall i :: 0 <= i < |xs| ==> xs[i] <= m
  {
    if |xs| == 1 then xs[0]
    else
      var rest := MaxOf(xs[..|xs| - 1]);
      if xs[|xs| - 1] > rest then xs[|xs| - 1] else rest
  }

  /** Arithmetic mean of a non-empty list: it lies between the smallest and the largest
      value, and a list of equal values has that value as its mean. */
  function Average(xs: seq<real>): (a: real)
    requires |xs| > 0
    ensures MinOf(xs) <= a <= MaxOf(xs)
    ensures (forall i :: 0 <= i < |xs| ==> xs[i] == xs[0]) ==> a == xs[0]
  {
    var lo, hi := MinOf(xs), MaxOf(xs);
    SumBounds(xs, lo, hi);
    DivideBounds(Sum(xs), |xs| as real, lo, hi);
    Sum(xs) / (|xs| as real)
  }

  /** If every element lies in [lo, hi], the sum lies in [n lo, n hi]. */
  lemma {:induction false} SumBounds(xs: seq<real>, lo: real, hi: real)
    requires forall i :: 0 <= i < |xs| ==> lo <= xs[i] <= hi
    ensures (|xs| as real) * lo <= Sum(xs) <= (|xs| as real) * hi
  {
    if |xs| > 0 {
      var init := xs[..|xs| - 1];
      assert forall i :: 0 <= i < |init| ==> init[i] == xs[i];
      SumBounds(init, lo, hi);
      assert (|xs| as real) * lo == (|init| as real) * lo + lo;
      assert (|xs| as real) * hi == (|init| as real) * hi + hi;
    }
  }

  /** Dividing a total in [n lo, n hi] by a positive n gives a value in [lo, hi]. */
  lemma DivideBounds(total: real, n: real, lo: real, hi: real)
    requires n > 0.0 && n * lo <= total <= n * hi
    ensures lo <= total / n <= hi
  {
  }

  /** If every element lies in [lo, hi], so does the mean. */
  lemma AverageWithin(xs: seq<real>, lo: real, hi: real)
    requires |xs| > 0
    requires forall i :: 0 <= i < |xs| ==> lo <= xs[i] <= hi
    ensures lo <= Average(xs) <= hi
  {
  }

  /** A list of equal values has that value as mean, minimum and maximum. */
  lemma ConstantStats(xs: seq<real>, c: real)
    requires |xs| > 0
    requires forall i :: 0 <= i < |xs| ==> xs[i] == c
    ensures Average(xs) == c && MinOf(xs) == c && MaxOf(xs) == c
  {
  }
}
