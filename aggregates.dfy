/**
 * Minimum, maximum, sum and mean over a non-empty sequence, defined from
 * the last element so that appending one element is one unfolding step.
 * These are the SQL `MIN`/`MAX` aggregates of the session model and the
 * incremental aggregates kept on a stream.
 */
module Aggregates {

  function Min(a: int, b: int): int { if a <= b then a else b }
  function Max(a: int, b: int): int { if a >= b then a else b }

  /** The least element. */
  function MinOf(xs: seq<int>): (m: int)
    requires |xs| > 0
    ensures m in xs
    ensures forall i :: 0 <= i < |xs| ==> m <= xs[i]
  {
    if |xs| == 1 then xs[0]
    else
      var init := xs[..|xs| - 1];
      assert forall i :: 0 <= i < |init| ==> init[i] == xs[i];
      Min(MinOf(init), xs[|xs| - 1])
  }

  /** The greatest element. */
  function MaxOf(xs: seq<int>): (m: int)
    requires |xs| > 0
    ensures m in xs
    ensures forall i :: 0 <= i < |xs| ==> xs[i] <= m
  {
    if |xs| == 1 then xs[0]
    else
      var init := xs[..|xs| - 1];
      assert forall i :: 0 <= i < |init| ==> init[i] == xs[i];
      Max(MaxOf(init), xs[|xs| - 1])
  }

  function SumOf(xs: seq<real>): real {
    if xs == [] then 0.0 else SumOf(xs[..|xs| - 1]) + xs[|xs| - 1]
  }

  /** The arithmetic mean. */
  function MeanOf(xs: seq<real>): real
    requires |xs| > 0
  {
    SumOf(xs) / (|xs| as real)
  }

  /** Appending one element moves the minimum only down to that element. */
  lemma MinOfAppend(xs: seq<int>, x: int)
    requires |xs| > 0
    ensures MinOf(xs + [x]) == Min(MinOf(xs), x)
  {
    assert (xs + [x])[..|xs|] == xs;
  }

  lemma MaxOfAppend(xs: seq<int>, x: int)
    requires |xs| > 0
    ensures MaxOf(xs + [x]) == Max(MaxOf(xs), x)
  {
    assert (xs + [x])[..|xs|] == xs;
  }

  lemma SumOfAppend(xs: seq<real>, x: real)
    ensures SumOf(xs + [x]) == SumOf(xs) + x
  {
    assert (xs + [x])[..|xs|] == xs;
  }

  /**
   * The incremental mean `avg + (x - avg) / (n + 1)` of the stream
   * aggregator is the mean of the sequence with `x` appended, whenever
   * `avg` was the mean of the `n` earlier elements.
   */
  lemma {:induction false} RunningMean(xs: seq<real>, avg: real, x: real)
    requires |xs| > 0 && avg == MeanOf(xs)
    ensures avg + (x - avg) / ((|xs| + 1) as real) == MeanOf(xs + [x])
  {
    var n := |xs| as real;
    var s := SumOf(xs);
    SumOfAppend(xs, x);
    assert |xs + [x]| as real == n + 1.0;
    assert s == avg * n by {
      assert avg == s / n;
    }
    calc {
      avg + (x - avg) / (n + 1.0);
      (avg * (n + 1.0) + (x - avg)) / (n + 1.0);
      (avg * n + x) / (n + 1.0);
      (s + x) / (n + 1.0);
      MeanOf(xs + [x]);
    }
  }

  /** The mean of a single value is that value. */
  lemma MeanOfOne(x: real)
    ensures MeanOf([x]) == x
  {
    assert [x][..0] == [];
    assert SumOf([x]) == x;
  }
}
