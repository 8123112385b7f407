/** Column aggregates with the null semantics of polars and pandas: `sum` and `mean`
    skip nulls, the mean of a column with no present value is null, and `fillna(0)`
    turns a null into zero. */
module Stats {
  import opened Wrappers

  function Sum(xs: seq<real>): real {
    if xs == [] then 0.0 else xs[0] + Sum(xs[1..])
  }

  lemma {:induction false} SumAppend(a: seq<real>, b: seq<real>)
    ensures Sum(a + b) == Sum(a) + Sum(b)
  {
    if a == [] {
      assert a + b == b;
    } else {
      assert (a + b)[1..] == a[1..] + b;
      SumAppend(a[1..], b);
    }
  }

  /** A sum of values lying in [lo, hi] lies between |xs| * lo and |xs| * hi. */
  lemma {:induction false} SumBounds(xs: seq<real>, lo: real, hi: real)
    requires forall i :: 0 <= i < |xs| ==> lo <= xs[i] <= hi
    ensures (|xs| as real) * lo <= Sum(xs) <= (|xs| as real) * hi
  {
    if xs != [] {
      SumBounds(xs[1..], lo, hi);
    }
  }

  function Mean(xs: seq<real>): real
    requires |xs| > 0
  {
    Sum(xs) / (|xs| as real)
  }

  /** The mean of values lying in [lo, hi] lies in [lo, hi]. */
  lemma MeanBounds(xs: seq<real>, lo: real, hi: real)
    requires |xs| > 0
    requires forall i :: 0 <= i < |xs| ==> lo <= xs[i] <= hi
    ensures lo <= Mean(xs) <= hi
  {
    SumBounds(xs, lo, hi);
    var n := |xs| as real;
    assert Mean(xs) * n == Sum(xs);
  }

  lemma {:induction false} SumNonNegative(xs: seq<real>)
    requires forall i :: 0 <= i < |xs| ==> xs[i] >= 0.0
    ensures Sum(xs) >= 0.0
  {
    if xs != [] {
      SumNonNegative(xs[1..]);
    }
  }

  /** The mean of non-negative values is non-negative. */
  lemma MeanNonNegative(xs: seq<real>)
    requires |xs| > 0
    requires forall i :: 0 <= i < |xs| ==> xs[i] >= 0.0
    ensures Mean(xs) >= 0.0
  {
    SumNonNegative(xs);
  }

  /** The present values of a nullable column, in order (`drop_nulls`). */
  function Present(xs: seq<Option<real>>): (r: seq<real>)
    ensures |r| <= |xs|
    ensures forall x :: x in r <==> Some(x) in xs
  {
    if xs == [] then []
    else if xs[0].Some? then [xs[0].value] + Present(xs[1..])
    else Present(xs[1..])
  }

  predicate AllMissing(xs: seq<Option<real>>) {
    forall i :: 0 <= i < |xs| ==> xs[i].None?
  }

  lemma PresentEmpty(xs: seq<Option<real>>)
    ensures Present(xs) == [] <==> AllMissing(xs)
  {
    if !AllMissing(xs) {
      var i :| 0 <= i < |xs| && xs[i].Some?;
      assert xs[i].value in Present(xs);
    }
  }

  lemma {:induction false} PresentAppend(a: seq<Option<real>>, b: seq<Option<real>>)
    ensures Present(a + b) == Present(a) + Present(b)
  {
    if a == [] {
      assert a + b == b;
    } else {
      assert (a + b)[1..] == a[1..] + b;
      PresentAppend(a[1..], b);
    }
  }

  /** `fillna(0)`. */
  function FillZero(xs: seq<Option<real>>): seq<real> {
    if xs == [] then [] else [xs[0].GetOr(0.0)] + FillZero(xs[1..])
  }

  /** Summing with nulls filled by zero is summing the present values. */
  lemma {:induction false} SumFillZero(xs: seq<Option<real>>)
    ensures Sum(FillZero(xs)) == Sum(Present(xs))
  {
    if xs != [] {
      SumFillZero(xs[1..]);
    }
  }

  /** `Series.mean()`: the mean of the present values, null when none is present. */
  function MeanOpt(xs: seq<Option<real>>): (r: Option<real>)
    ensures r.None? <==> AllMissing(xs)
  {
    PresentEmpty(xs);
    var p := Present(xs);
    if p == [] then None else Some(Mean(p))
  }

  /** When every present value lies in [lo, hi], so does their mean. */
  lemma MeanOptBounds(xs: seq<Option<real>>, lo: real, hi: real)
    requires forall i :: 0 <= i < |xs| && xs[i].Some? ==> lo <= xs[i].value <= hi
    ensures MeanOpt(xs).Some? ==> lo <= MeanOpt(xs).value <= hi
  {
    var p := Present(xs);
    if p != [] {
      forall k | 0 <= k < |p| ensures lo <= p[k] <= hi {
        assert p[k] in p;
        var i :| 0 <= i < |xs| && xs[i] == Some(p[k]);
      }
      MeanBounds(p, lo, hi);
    }
  }

  /** The mean of non-negative present values is non-negative. */
  lemma MeanOptNonNegative(xs: seq<Option<real>>)
    requires forall i :: 0 <= i < |xs| && xs[i].Some? ==> xs[i].value >= 0.0
    ensures MeanOpt(xs).Some? ==> MeanOpt(xs).value >= 0.0
  {
    var p := Present(xs);
    if p != [] {
      forall k | 0 <= k < |p| ensures p[k] >= 0.0 {
        assert p[k] in p;
        var i :| 0 <= i < |xs| && xs[i] == Some(p[k]);
      }
      MeanNonNegative(p);
    }
  }

  /** The number of present values (`drop_nulls().len()`, `notna().sum()`). */
  function CountPresent(xs: seq<Option<real>>): (n: nat)
    ensures n <= |xs|
    ensures n == 0 <==> AllMissing(xs)
  {
    PresentEmpty(xs);
    |Present(xs)|
  }
}
