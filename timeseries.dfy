/** `create_time_series`: the panel collapsed to one row per survey year, ascending, with
    the yearly means and counts, the counterfactual savings line fitted on the 2016-2019
    rows, and the running total of the yearly mean excess. */
module TimeSeries {
  import opened Wrappers
  import opened Stats
  import opened Grouping
  import opened Panel
  import opened Excess
  import opened LeastSquares

  /** The aggregates of one `survey_year` group. */
  datatype Summary = Summary(
    year: int,
    avgIncome: Option<real>,
    avgSavings: Option<real>,
    avgExcess: Option<real>,
    nHouseholds: nat,
    nWithIncome: nat)

  /** A row of the yearly time series. */
  datatype YearlyRow = YearlyRow(summary: Summary, counterfactual: Option<real>, cumulativeExcess: Option<real>)

  function Years(ys: seq<Summary>): (r: seq<int>)
    ensures |r| == |ys| && forall i :: 0 <= i < |ys| ==> r[i] == ys[i].year
  {
    seq(|ys|, i requires 0 <= i < |ys| => ys[i].year)
  }

  /** The aggregates of the households surveyed in year y: the means skip nulls and are
      null when nothing is present; `n_with_income` is zero exactly when the mean income
      is null. */
  function SummarizeYear(panel: seq<Household>, y: int): (s: Summary)
    ensures s.year == y
    ensures s.nHouseholds == CountKey(Keys(panel, YearOf), y)
    ensures s.nWithIncome <= s.nHouseholds
    ensures s.nWithIncome == 0 <==> s.avgIncome.None?
    ensures s.avgIncome.None? <==> forall h :: h in panel && YearOf(h) == y ==> h.row.income.None?
    ensures s.avgExcess.None? <==> forall h :: h in panel && YearOf(h) == y ==> h.excess.None?
  {
    var group := RowsWithKey(panel, YearOf, y);
    GroupSize(panel, YearOf, y);
    var incomes, excess := IncomeColumn(group), ExcessColumn(group);
    assert AllMissing(incomes) <==> forall h :: h in panel && YearOf(h) == y ==> h.row.income.None? by {
      assert forall h :: h in group <==> h in panel && YearOf(h) == y;
      assert forall i :: 0 <= i < |group| ==> incomes[i] == group[i].row.income;
    }
    assert AllMissing(excess) <==> forall h :: h in panel && YearOf(h) == y ==> h.excess.None? by {
      assert forall h :: h in group <==> h in panel && YearOf(h) == y;
      assert forall i :: 0 <= i < |group| ==> excess[i] == group[i].excess;
    }
    Summary(y, MeanOpt(incomes), MeanOpt(SavingsColumn(group)), MeanOpt(excess), |group|, CountPresent(incomes))
  }

  /** `group_by('survey_year').agg(...).sort('survey_year')`: one row per year that occurs in
      the panel, in strictly ascending order, each with at least one household. */
  function Aggregate(panel: seq<Household>): (ys: seq<Summary>)
    ensures StrictlyIncreasing(Years(ys))
    ensures forall y :: y in Years(ys) <==> exists i :: 0 <= i < |panel| && YearOf(panel[i]) == y
    ensures forall i :: 0 <= i < |ys| ==> ys[i] == SummarizeYear(panel, ys[i].year)
    ensures forall i :: 0 <= i < |ys| ==> ys[i].nHouseholds >= 1
  {
    var keys := Keys(panel, YearOf);
    var years := DistinctSorted(keys);
    var ys := SummarizeAll(panel, years);
    assert Years(ys) == years;
    forall i | 0 <= i < |ys| ensures ys[i].nHouseholds >= 1 {
      CountKeyPresent(keys, years[i]);
    }
    ys
  }

  /** The aggregates of the given years, in the same order. */
  function SummarizeAll(panel: seq<Household>, years: seq<int>): (ys: seq<Summary>)
    ensures |ys| == |years|
    ensures forall i :: 0 <= i < |ys| ==> ys[i] == SummarizeYear(panel, years[i])
  {
    seq(|years|, i requires 0 <= i < |years| => SummarizeYear(panel, years[i]))
  }

  function TotalHouseholds(ys: seq<Summary>): nat {
    if ys == [] then 0 else ys[0].nHouseholds + TotalHouseholds(ys[1..])
  }

  lemma {:induction false} TotalIsGroupSizes(ys: seq<Summary>, keys: seq<int>)
    requires forall i :: 0 <= i < |ys| ==> ys[i].nHouseholds == CountKey(keys, ys[i].year)
    ensures TotalHouseholds(ys) == GroupSizes(Years(ys), keys)
  {
    if ys != [] {
      TotalIsGroupSizes(ys[1..], keys);
      assert Years(ys)[1..] == Years(ys[1..]);
    }
  }

  /** Every household is counted in exactly one yearly row. */
  lemma {:induction false} AggregateCountsEveryHousehold(panel: seq<Household>)
    ensures TotalHouseholds(Aggregate(panel)) == |panel|
  {
    var ys, keys := Aggregate(panel), Keys(panel, YearOf);
    TotalIsGroupSizes(ys, keys);
    forall x | x in keys ensures x in Years(ys) {
      var i :| 0 <= i < |keys| && keys[i] == x;
      assert YearOf(panel[i]) == x;
    }
    GroupSizesTotal(Years(ys), keys);
  }

  /** With non-negative household excess, every yearly mean excess is non-negative. */
  lemma {:induction false} AggregateExcessNonNegative(panel: seq<Household>)
    requires ExcessNonNegative(panel)
    ensures forall i :: 0 <= i < |Aggregate(panel)| && AvgExcessColumn(Aggregate(panel))[i].Some? ==>
      AvgExcessColumn(Aggregate(panel))[i].value >= 0.0
  {
    var ys := Aggregate(panel);
    forall i | 0 <= i < |ys| && ys[i].avgExcess.Some? ensures ys[i].avgExcess.value >= 0.0 {
      var group := RowsWithKey(panel, YearOf, ys[i].year);
      var col := ExcessColumn(group);
      forall k | 0 <= k < |col| && col[k].Some? ensures col[k].value >= 0.0 {
        assert group[k] in panel;
        var j :| 0 <= j < |panel| && panel[j] == group[k];
      }
      MeanOptNonNegative(col);
    }
  }

  /** The number of yearly rows in the 2016-2019 window. */
  function CountInWindow(ys: seq<Summary>): nat {
    if ys == [] then 0 else (if InBaselineWindow(ys[0].year) then 1 else 0) + CountInWindow(ys[1..])
  }

  /** A yearly row the trend is fitted on: a 2016-2019 row whose mean savings is not null. */
  predicate TrendRow(s: Summary) {
    InBaselineWindow(s.year) && s.avgSavings.Some?
  }

  /** The (year, mean savings) points the trend is fitted on: the 2016-2019 rows whose mean
      savings is not null, in order. */
  function TrendPoints(ys: seq<Summary>): (ps: seq<Point>)
    ensures |ps| <= CountInWindow(ys)
    ensures forall k :: 0 <= k < |ps| ==> 2016.0 <= ps[k].x < 2020.0
    ensures StrictlyIncreasing(Years(ys)) ==> forall k :: 0 <= k < |ps| ==> ys[0].year as real <= ps[k].x
    ensures forall i :: 0 <= i < |ys| && InBaselineWindow(ys[i].year) && ys[i].avgSavings.Some? ==>
      Point(ys[i].year as real, ys[i].avgSavings.value) in ps
    ensures StrictlyIncreasing(Years(ys)) ==> IncreasingX(ps)
  {
    if ys == [] then []
    else
      var rest := TrendPoints(ys[1..]);
      assert Years(ys)[1..] == Years(ys[1..]);
      assert forall i :: 1 <= i < |ys| ==> ys[1..][i - 1] == ys[i];
      if TrendRow(ys[0]) then [PointOf(ys[0])] + rest else rest
  }

  /** The point a trend row contributes: its year against its mean savings. */
  function PointOf(s: Summary): Point
    requires s.avgSavings.Some?
  {
    Point(s.year as real, s.avgSavings.value)
  }

  function PointsOf(ys: seq<Summary>): (ps: seq<Point>)
    requires forall i :: 0 <= i < |ys| ==> ys[i].avgSavings.Some?
    ensures |ps| == |ys| && forall i :: 0 <= i < |ys| ==> ps[i] == PointOf(ys[i])
  {
    seq(|ys|, i requires 0 <= i < |ys| => PointOf(ys[i]))
  }

  /** The trend rows all have a mean savings. */
  lemma TrendRowsHaveSavings(ys: seq<Summary>)
    ensures forall i :: 0 <= i < |Filter(ys, TrendRow)| ==> Filter(ys, TrendRow)[i].avgSavings.Some?
  {
    var rows := Filter(ys, TrendRow);
    forall i | 0 <= i < |rows| ensures rows[i].avgSavings.Some? {
      assert rows[i] in rows;
    }
  }

  /** The trend points are the mask-then-take of the source: keep the trend rows, then take
      each one's (year, mean savings). */
  lemma {:induction false} TrendPointsMaskThenTake(ys: seq<Summary>)
    ensures forall i :: 0 <= i < |Filter(ys, TrendRow)| ==> Filter(ys, TrendRow)[i].avgSavings.Some?
    ensures TrendPoints(ys) == PointsOf(Filter(ys, TrendRow))
  {
    TrendRowsHaveSavings(ys);
    if ys != [] {
      TrendPointsMaskThenTake(ys[1..]);
      var rows, tail := Filter(ys, TrendRow), Filter(ys[1..], TrendRow);
      if TrendRow(ys[0]) {
        assert rows == [ys[0]] + tail;
        assert PointsOf(rows) == [PointOf(ys[0])] + PointsOf(tail);
      } else {
        assert rows == tail;
      }
    }
  }

  /** So there are exactly as many points as trend rows, and every point is the point of a
      trend row. */
  lemma TrendPointsAreTrendRows(ys: seq<Summary>)
    ensures |TrendPoints(ys)| == |Filter(ys, TrendRow)|
    ensures forall k :: 0 <= k < |TrendPoints(ys)| ==>
      exists i :: 0 <= i < |ys| && TrendRow(ys[i]) && TrendPoints(ys)[k] == PointOf(ys[i])
  {
    TrendPointsMaskThenTake(ys);
    var rows, ps := Filter(ys, TrendRow), TrendPoints(ys);
    forall k | 0 <= k < |ps|
      ensures exists i :: 0 <= i < |ys| && TrendRow(ys[i]) && ps[k] == PointOf(ys[i])
    {
      assert rows[k] in rows;
      var i :| 0 <= i < |ys| && ys[i] == rows[k];
      assert ps[k] == PointOf(ys[i]);
    }
  }

  /** The fitted counterfactual line: fitted only when at least two 2016-2019 rows have a
      mean savings; its residuals on those points sum to zero and are orthogonal to the
      years. */
  function Trend(ys: seq<Summary>): (fit: Option<Line>)
    requires StrictlyIncreasing(Years(ys))
    ensures fit.Some? <==> |Filter(ys, TrendRow)| >= 2
    ensures fit.Some? <==> |TrendPoints(ys)| >= 2
    ensures fit.Some? ==> ResidualSum(TrendPoints(ys), fit.value) == 0.0
    ensures fit.Some? ==> ResidualMoment(TrendPoints(ys), fit.value) == 0.0
  {
    TrendPointsAreTrendRows(ys);
    if CountInWindow(ys) >= 2 then
      var pts := TrendPoints(ys);
      if |pts| >= 2 then Some(FitLine(pts)) else None
    else None
  }

  /** No other line fits the 2016-2019 mean savings better than the counterfactual trend. */
  lemma {:induction false} TrendIsLeastSquares(ys: seq<Summary>, m: Line)
    requires StrictlyIncreasing(Years(ys))
    requires Trend(ys).Some?
    ensures SquaredError(TrendPoints(ys), Trend(ys).value) <= SquaredError(TrendPoints(ys), m)
  {
    FitLineIsLeastSquares(TrendPoints(ys), m);
  }

  /** `coef[0] * survey_year + coef[1]`, or null when no line was fitted. */
  function Counterfactual(fit: Option<Line>, year: int): (r: Option<real>)
    ensures r.Some? <==> fit.Some?
    ensures r.Some? ==> Residual(Point(year as real, r.value), fit.value) == 0.0
  {
    match fit
    case None => None
    case Some(l) => Some(l.slope * (year as real) + l.intercept)
  }

  /** `cum_sum` started from acc: null where the input is null, otherwise acc plus the sum
      of the present values up to and including that position. */
  function CumulativeFrom(xs: seq<Option<real>>, acc: real): (cs: seq<Option<real>>)
    ensures |cs| == |xs|
    ensures forall i :: 0 <= i < |xs| ==> (cs[i].None? <==> xs[i].None?)
    ensures forall i {:trigger cs[i]} :: 0 <= i < |xs| && xs[i].Some? ==> cs[i].value == acc + Sum(Present(xs[..i + 1]))
  {
    if xs == [] then []
    else
      var next := if xs[0].Some? then acc + xs[0].value else acc;
      var rest := CumulativeFrom(xs[1..], next);
      var cs := [if xs[0].Some? then Some(next) else None] + rest;
      CumulativeStep(xs, acc, rest, cs);
      cs
  }

  /** One step of `CumulativeFrom`: the running totals of the tail, started from the head's
      total, extend to running totals of the whole column. */
  lemma {:induction false} CumulativeStep(xs: seq<Option<real>>, acc: real, rest: seq<Option<real>>, cs: seq<Option<real>>)
    requires xs != [] && |rest| == |xs| - 1
    requires cs == [if xs[0].Some? then Some(acc + xs[0].value) else None] + rest
    requires forall j :: 0 <= j < |rest| ==> (rest[j].None? <==> xs[1..][j].None?)
    requires forall j {:trigger rest[j]} :: 0 <= j < |rest| && xs[1..][j].Some? ==>
      rest[j].value == (if xs[0].Some? then acc + xs[0].value else acc) + Sum(Present(xs[1..][..j + 1]))
    ensures |cs| == |xs|
    ensures forall i :: 0 <= i < |xs| ==> (cs[i].None? <==> xs[i].None?)
    ensures forall i {:trigger cs[i]} :: 0 <= i < |xs| && xs[i].Some? ==> cs[i].value == acc + Sum(Present(xs[..i + 1]))
  {
    PrefixPresent(xs);
    assert cs[1..] == rest;
    forall i | 0 <= i < |xs|
      ensures cs[i].None? <==> xs[i].None?
    {
      if i > 0 {
        assert cs[i] == rest[i - 1] && xs[1..][i - 1] == xs[i];
      }
    }
    forall i | 0 <= i < |xs| && xs[i].Some?
      ensures cs[i].value == acc + Sum(Present(xs[..i + 1]))
    {
      if i == 0 {
        assert xs[..1] == [xs[0]];
        assert Present([xs[0]]) == [xs[0].value];
        assert Sum([xs[0].value]) == xs[0].value + Sum([]);
      } else {
        assert cs[i] == cs[1..][i - 1] == rest[i - 1];
        assert xs[1..][i - 1] == xs[i];
        assert xs[1..][..i - 1 + 1] == xs[1..][..i];
      }
    }
  }

  /** The present values of a prefix of length i + 1 are the head's, then those of the tail's
      prefix of length i. */
  lemma {:induction false} PrefixPresent(xs: seq<Option<real>>)
    requires xs != []
    ensures forall i :: 1 <= i < |xs| ==>
      Sum(Present(xs[..i + 1])) == (if xs[0].Some? then xs[0].value else 0.0) + Sum(Present(xs[1..][..i]))
  {
    forall i | 1 <= i < |xs|
      ensures Sum(Present(xs[..i + 1])) == (if xs[0].Some? then xs[0].value else 0.0) + Sum(Present(xs[1..][..i]))
    {
      assert xs[..i + 1] == [xs[0]] + xs[1..][..i];
      PresentAppend([xs[0]], xs[1..][..i]);
      if xs[0].Some? {
        assert Present([xs[0]]) == [xs[0].value];
      } else {
        assert Present([xs[0]]) == [];
      }
      SumAppend(Present([xs[0]]), Present(xs[1..][..i]));
    }
  }

  /** The `avg_excess_savings` column of the yearly rows. */
  function AvgExcessColumn(ys: seq<Summary>): (xs: seq<Option<real>>)
    ensures |xs| == |ys| && forall i :: 0 <= i < |ys| ==> xs[i] == ys[i].avgExcess
  {
    seq(|ys|, i requires 0 <= i < |ys| => ys[i].avgExcess)
  }

  /** The columns `create_time_series` adds to the yearly rows: the counterfactual on every
      row or on none (on every row exactly when at least two 2016-2019 rows have a mean
      savings), and the running sum of mean excess, null only where the year's mean excess
      is null. */
  function WithTrendAndCumulative(ys: seq<Summary>): (ts: seq<YearlyRow>)
    requires StrictlyIncreasing(Years(ys))
    ensures |ts| == |ys|
    ensures forall i :: 0 <= i < |ts| ==> ts[i].summary == ys[i]
    ensures forall i :: 0 <= i < |ts| ==> ts[i].counterfactual == Counterfactual(Trend(ys), ys[i].year)
    ensures forall i :: 0 <= i < |ts| ==> (ts[i].counterfactual.Some? <==> |TrendPoints(ys)| >= 2)
    ensures forall i :: 0 <= i < |ts| ==> (ts[i].cumulativeExcess.None? <==> ys[i].avgExcess.None?)
    ensures forall i {:trigger ts[i]} :: 0 <= i < |ts| && ys[i].avgExcess.Some? ==>
      ts[i].cumulativeExcess.value == Sum(Present(AvgExcessColumn(ys)[..i + 1]))
  {
    var fit := Trend(ys);
    var cs := CumulativeFrom(AvgExcessColumn(ys), 0.0);
    seq(|ys|, i requires 0 <= i < |ys| => YearlyRow(ys[i], Counterfactual(fit, ys[i].year), cs[i]))
  }

  /** `create_time_series`: the yearly rows of the panel in strictly ascending year order,
      with the trend and cumulative columns. */
  function CreateTimeSeries(panel: seq<Household>): (ts: seq<YearlyRow>)
    ensures ts == WithTrendAndCumulative(Aggregate(panel))
    ensures forall i, j :: 0 <= i < j < |ts| ==> ts[i].summary.year < ts[j].summary.year
  {
    WithTrendAndCumulative(Aggregate(panel))
  }

  /** With non-negative values, the sum of the present values of a prefix grows with the
      prefix. */
  lemma {:induction false} PrefixSumMonotone(xs: seq<Option<real>>, i: nat, j: nat)
    requires forall k :: 0 <= k < |xs| && xs[k].Some? ==> xs[k].value >= 0.0
    requires i <= j <= |xs|
    ensures Sum(Present(xs[..i])) <= Sum(Present(xs[..j]))
  {
    var a, b := xs[..i], xs[i..j];
    assert xs[..j] == a + b;
    PresentAppend(a, b);
    SumAppend(Present(a), Present(b));
    var pb := Present(b);
    forall k | 0 <= k < |pb| ensures pb[k] >= 0.0 {
      assert pb[k] in pb;
      var m :| 0 <= m < |b| && b[m] == Some(pb[k]);
      assert b[m] == xs[i + m];
    }
    SumNonNegative(pb);
  }

  /** Once the values are non-negative, the running sum never decreases from one non-null
      position to a later one. */
  lemma {:induction false} CumulativeMonotone(xs: seq<Option<real>>, i: nat, j: nat)
    requires forall k :: 0 <= k < |xs| && xs[k].Some? ==> xs[k].value >= 0.0
    requires i < j < |xs| && xs[i].Some? && xs[j].Some?
    ensures CumulativeFrom(xs, 0.0)[i].value <= CumulativeFrom(xs, 0.0)[j].value
  {
    calc {
      CumulativeFrom(xs, 0.0)[i].value;
    ==
      Sum(Present(xs[..i + 1]));
    <= { PrefixSumMonotone(xs, i + 1, j + 1); }
      Sum(Present(xs[..j + 1]));
    ==
      CumulativeFrom(xs, 0.0)[j].value;
    }
  }

  /** Cumulative excess in the time series is non-decreasing across non-null years when
      every household's excess is non-negative (as `calculate_excess_savings` ensures). */
  lemma {:induction false} TimeSeriesCumulativeMonotone(panel: seq<Household>, i: nat, j: nat)
    requires ExcessNonNegative(panel)
    requires i < j < |CreateTimeSeries(panel)|
    requires CreateTimeSeries(panel)[i].cumulativeExcess.Some?
    requires CreateTimeSeries(panel)[j].cumulativeExcess.Some?
    ensures CreateTimeSeries(panel)[i].cumulativeExcess.value <= CreateTimeSeries(panel)[j].cumulativeExcess.value
  {
    var ys := Aggregate(panel);
    var ts, xs := WithTrendAndCumulative(ys), AvgExcessColumn(ys);
    AggregateExcessNonNegative(panel);
    calc {
      ts[i].cumulativeExcess.value;
    ==
      Sum(Present(xs[..i + 1]));
    <= { MeanExcessPrefixMonotone(Aggregate(panel), i, j); }
      Sum(Present(xs[..j + 1]));
    ==
      ts[j].cumulativeExcess.value;
    }
  }

  /** The running sum of non-negative yearly mean excess grows with the year index. */
  lemma {:induction false} MeanExcessPrefixMonotone(ys: seq<Summary>, i: nat, j: nat)
    requires forall k :: 0 <= k < |ys| && AvgExcessColumn(ys)[k].Some? ==> AvgExcessColumn(ys)[k].value >= 0.0
    requires i < j < |ys|
    ensures Sum(Present(AvgExcessColumn(ys)[..i + 1])) <= Sum(Present(AvgExcessColumn(ys)[..j + 1]))
  {
    PrefixSumMonotone(AvgExcessColumn(ys), i + 1, j + 1);
  }

  /** The running total over yearly mean excesses of 0, 2000 and 400 ends at 2400. */
  lemma CumulativeScenario()
    ensures CumulativeFrom([Some(0.0), Some(2000.0), Some(400.0)], 0.0)[2] == Some(2400.0)
  {
    var xs := [Some(0.0), Some(2000.0), Some(400.0)];
    assert xs[..3] == xs;
    assert Present(xs[2..]) == [400.0];
    assert Present(xs[1..]) == [2000.0, 400.0];
    assert Present(xs) == [0.0, 2000.0, 400.0];
  }
}
