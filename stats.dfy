/**
 * The stream reductions over one sensor's values: DoubleStream average(), min() and
 * max(), each followed by orElse(0) so that an empty list gives 0.
 */
module Stats {

  function Sum(xs: seq<real>): real
  {
    if xs == [] then 0.0 else Sum(xs[..|xs| - 1]) + xs[|xs| - 1]
  }

  /** average().orElse(0): the arithmetic mean, or 0 for no values. */
  function Mean(xs: seq<real>): (m: real)
    ensures xs == [] ==> m == 0.0
    ensures xs != [] ==> m * |xs| as real == Sum(xs)
  {
    if xs == [] then 0.0 else Sum(xs) / |xs| as real
  }

  /** The smallest of a non-empty list, folded from the left as DoubleStream.min does. */
  function Least(xs: seq<real>): (m: real)
    requires xs != []
    ensures m in xs
    ensures forall i :: 0 <= i < |xs| ==> m <= xs[i]
  {
    if |xs| == 1 then xs[0]
    else
      var m := Least(xs[..|xs| - 1]);
      if xs[|xs| - 1] < m then xs[|xs| - 1] else m
  }

  /** The largest of a non-empty list, folded from the left as DoubleStream.max does. */
  function Greatest(xs: seq<real>): (m: real)
    requires xs != []
    ensures m in xs
    ensures forall i :: 0 <= i < |xs| ==> xs[i] <= m
  {
    if |xs| == 1 then xs[0]
    else
      var m := Greatest(xs[..|xs| - 1]);
      if xs[|xs| - 1] > m then xs[|xs| - 1] else m
  }

  /** min().orElse(0). */
  function Min(xs: seq<real>): (m: real)
    ensures xs == [] ==> m == 0.0
    ensures xs != [] ==> m in xs && forall i :: 0 <= i < |xs| ==> m <= xs[i]
  {
    if xs == [] then 0.0 else Least(xs)
  }

  /** max().orElse(0). */
  function Max(xs: seq<real>): (m: real)
    ensures xs == [] ==> m == 0.0
    ensures xs != [] ==> m in xs && forall i :: 0 <= i < |xs| ==> xs[i] <= m
  {
    if xs == [] then 0.0 else Greatest(xs)
  }

  // ----- Lemmas -------------------------------------------------------------------

  /** A sum of n values, each at least lo and at most hi, lies between lo * n and hi * n. */
  lemma {:induction false} SumBounds(xs: seq<real>, lo: real, hi: real)
    requires forall i :: 0 <= i < |xs| ==> lo <= xs[i] <= hi
    ensures lo * |xs| as real <= Sum(xs) <= hi * |xs| as real
  {
    if xs != [] {
      var init := xs[..|xs| - 1];
      assert forall i :: 0 <= i < |init| ==> init[i] == xs[i];
      SumBounds(init, lo, hi);
      assert lo * |xs| as real == lo * |init| as real + lo;
      assert hi * |xs| as real == hi * |init| as real + hi;
    }
  }

  /** A total bounded by lo * n and hi * n, divided by n, lies between lo and hi. */
  lemma DivideBounds(lo: real, hi: real, total: real, n: real)
    requires n > 0.0
    requires lo * n <= total <= hi * n
    ensures lo <= total / n <= hi
  {
  }

  /** The mean of a non-empty list lies between its minimum and its maximum. */
  lemma MeanBetweenMinAndMax(xs: seq<real>)
    requires xs != []
    ensures Min(xs) <= Mean(xs) <= Max(xs)
  {
    SumBounds(xs, Min(xs), Max(xs));
    DivideBounds(Min(xs), Max(xs), Sum(xs), |xs| as real);
  }

  /** When every value is the same, so are the mean, the minimum and the maximum. */
  lemma {:induction false} ConstantValues(xs: seq<real>, c: real)
    requires xs != [] && forall i :: 0 <= i < |xs| ==> xs[i] == c
    ensures Mean(xs) == c && Min(xs) == c && Max(xs) == c
  {
    SumBounds(xs, c, c);
    MeanBetweenMinAndMax(xs);
  }

  /** The worked example of values 10, 20 and 30: average 20, minimum 10, maximum 30. */
  lemma ThreeValues()
    ensures Mean([10.0, 20.0, 30.0]) == 20.0
    ensures Min([10.0, 20.0, 30.0]) == 10.0 && Max([10.0, 20.0, 30.0]) == 30.0
  {
    var xs := [10.0, 20.0, 30.0];
    assert xs[..2] == [10.0, 20.0] && xs[..2][..1] == [10.0];
    assert Sum(xs[..2][..1]) == 10.0;
    assert Sum(xs[..2]) == 30.0;
    assert Sum(xs) == 60.0;
  }
}
