/** The statistics the analysis dashboard computes from the saved tables: the period means
    of the yearly table with their change from the 2016-2019 baseline, the income coverage
    of the panel, the per-decile summary of the post-2020 households, and the bottom/top
    three decile split. */
module Analysis {
  import opened Wrappers
  import opened Text
  import opened Stats
  import opened Grouping
  import opened Panel
  import opened TimeSeries

  // ---------------------------------------------------------------------------
  // Period statistics

  /** `is_between(2016, 2019)`, both ends included. */
  predicate BaselineYear(r: YearlyRow) {
    2016 <= r.summary.year <= 2019
  }

  /** `is_between(2020, 2021)`. */
  predicate PandemicYear(r: YearlyRow) {
    2020 <= r.summary.year <= 2021
  }

  predicate PostYear(r: YearlyRow) {
    r.summary.year >= 2022
  }

  /** No yearly row falls in two of the three windows, and every row from 2016 on falls in one. */
  lemma WindowsPartition(r: YearlyRow)
    ensures !(BaselineYear(r) && PandemicYear(r))
    ensures !(BaselineYear(r) && PostYear(r))
    ensures !(PandemicYear(r) && PostYear(r))
    ensures r.summary.year >= 2016 <==> BaselineYear(r) || PandemicYear(r) || PostYear(r)
  {
  }

  function SavingsCol(rows: seq<YearlyRow>): (xs: seq<Option<real>>)
    ensures |xs| == |rows| && forall i :: 0 <= i < |rows| ==> xs[i] == rows[i].summary.avgSavings
  {
    seq(|rows|, i requires 0 <= i < |rows| => rows[i].summary.avgSavings)
  }

  function IncomeCol(rows: seq<YearlyRow>): (xs: seq<Option<real>>)
    ensures |xs| == |rows| && forall i :: 0 <= i < |rows| ==> xs[i] == rows[i].summary.avgIncome
  {
    seq(|rows|, i requires 0 <= i < |rows| => rows[i].summary.avgIncome)
  }

  function ExcessCol(rows: seq<YearlyRow>): (xs: seq<Option<real>>)
    ensures |xs| == |rows| && forall i :: 0 <= i < |rows| ==> xs[i] == rows[i].summary.avgExcess
  {
    seq(|rows|, i requires 0 <= i < |rows| => rows[i].summary.avgExcess)
  }

  /** The mean savings of the rows of a window: null exactly when no row of the window has a
      mean savings (in particular when the window is empty). */
  function WindowSavings(yearly: seq<YearlyRow>, inWindow: YearlyRow -> bool): (m: Option<real>)
    ensures m.None? <==> forall r :: r in yearly && inWindow(r) ==> r.summary.avgSavings.None?
  {
    var rows := Filter(yearly, inWindow);
    var xs := SavingsCol(rows);
    assert AllMissing(xs) <==> forall r :: r in yearly && inWindow(r) ==> r.summary.avgSavings.None? by {
      assert forall r :: r in rows <==> r in yearly && inWindow(r);
    }
    MeanOpt(xs)
  }

  /** `change_from_baseline` as written: `period - baseline if baseline else None`. A null or
      zero baseline gives null; a non-zero baseline with a null period mean makes Python
      subtract a float from `None`, which raises `TypeError`. */
  function ChangeFromBaselineAsWritten(period: Option<real>, baseline: Option<real>): (r: Result<Option<real>, string>)
    ensures r.Failure? <==> baseline.Some? && baseline.value != 0.0 && period.None?
  {
    if baseline.None? || baseline.value == 0.0 then Success(None)
    else if period.None? then Failure("TypeError")
    else Success(Some(period.value - baseline.value))
  }

  /** `change_from_baseline` as intended: the difference from a non-null, non-zero baseline,
      null whenever either side is missing. */
  function ChangeFromBaseline(period: Option<real>, baseline: Option<real>): (r: Option<real>)
    ensures r.Some? <==> baseline.Some? && baseline.value != 0.0 && period.Some?
    ensures r.Some? ==> baseline.value + r.value == period.value
  {
    if baseline.None? || baseline.value == 0.0 || period.None? then None
    else Some(period.value - baseline.value)
  }

  /** Wherever the written expression succeeds, the intended one gives the same value. */
  lemma ChangeFromBaselineAgrees(period: Option<real>, baseline: Option<real>)
    ensures ChangeFromBaselineAsWritten(period, baseline).Success? ==>
      ChangeFromBaselineAsWritten(period, baseline).value == ChangeFromBaseline(period, baseline)
  {
  }

  /** A yearly table with baseline rows but no 2020-2021 row: the written expression fails. */
  lemma ChangeFromBaselineFailsWithoutPandemicRows()
    ensures var yearly := [YearlyRow(Summary(2016, Some(20000.0), Some(1600.0), Some(0.0), 1, 1), None, Some(0.0))];
      && WindowSavings(yearly, PandemicYear) == None
      && WindowSavings(yearly, BaselineYear).Some?
      && ChangeFromBaselineAsWritten(WindowSavings(yearly, PandemicYear), WindowSavings(yearly, BaselineYear)).Failure?
  {
    var yearly := [YearlyRow(Summary(2016, Some(20000.0), Some(1600.0), Some(0.0), 1, 1), None, Some(0.0))];
    assert Filter(yearly, BaselineYear) == yearly;
    assert SavingsCol(yearly) == [Some(1600.0)];
    assert Present([Some(1600.0)]) == [1600.0];
    assert Mean([1600.0]) == 1600.0;
  }

  datatype BaselineStats = BaselineStats(savings: Option<real>, income: Option<real>)

  datatype PeriodStats = PeriodStats(
    savings: Option<real>,
    income: Option<real>,
    excess: Option<real>,
    changeFromBaseline: Option<real>)

  datatype DataQuality = DataQuality(totalObs: nat, obsWithIncome: nat, coverageRate: real)

  datatype Statistics = Statistics(
    baseline: BaselineStats,
    pandemic: PeriodStats,
    post: PeriodStats,
    quality: DataQuality)

  /** `coverage_rate`: the share of observations with an income, in percent, and 0 for an
      empty panel. */
  function CoverageRate(total: nat, withIncome: nat): (r: real)
    ensures withIncome <= total ==> 0.0 <= r <= 100.0
    ensures r == 0.0 <==> total == 0 || withIncome == 0
    ensures total > 0 && withIncome == total ==> r == 100.0
  {
    if total > 0 then
      var share := (withIncome as real) / (total as real);
      assert withIncome <= total ==> share <= 1.0;
      assert withIncome > 0 ==> share > 0.0;
      share * 100.0
    else 0.0
  }

  /** The data-quality block: every observation, those with an income, and the coverage,
      which is 0 exactly when no observation has an income. */
  function Quality(panel: seq<Household>): (q: DataQuality)
    ensures q.totalObs == |panel|
    ensures q.obsWithIncome <= q.totalObs
    ensures 0.0 <= q.coverageRate <= 100.0
    ensures q.coverageRate == 0.0 <==> forall i :: 0 <= i < |panel| ==> panel[i].row.income.None?
  {
    var withIncome := CountPresent(IncomeColumn(panel));
    DataQuality(|panel|, withIncome, CoverageRate(|panel|, withIncome))
  }

  function PeriodOf(yearly: seq<YearlyRow>, inWindow: YearlyRow -> bool, baselineSavings: Option<real>): PeriodStats {
    var rows := Filter(yearly, inWindow);
    var savings := WindowSavings(yearly, inWindow);
    PeriodStats(savings, MeanOpt(IncomeCol(rows)), MeanOpt(ExcessCol(rows)), ChangeFromBaseline(savings, baselineSavings))
  }

  /** `calculate_statistics`, with the intended `change_from_baseline`: each period's change is
      defined exactly when both its own mean savings and a non-zero baseline exist, and then
      adds back to the period's savings. */
  function CalculateStatistics(yearly: seq<YearlyRow>, panel: seq<Household>): (s: Statistics)
    ensures s.baseline.savings.None? <==>
      forall r :: r in yearly && BaselineYear(r) ==> r.summary.avgSavings.None?
    ensures s.pandemic.savings.None? <==>
      forall r :: r in yearly && PandemicYear(r) ==> r.summary.avgSavings.None?
    ensures s.post.savings.None? <==>
      forall r :: r in yearly && PostYear(r) ==> r.summary.avgSavings.None?
    ensures s.pandemic.changeFromBaseline.Some? <==>
      s.pandemic.savings.Some? && s.baseline.savings.Some? && s.baseline.savings.value != 0.0
    ensures s.pandemic.changeFromBaseline.Some? ==>
      s.baseline.savings.value + s.pandemic.changeFromBaseline.value == s.pandemic.savings.value
    ensures s.post.changeFromBaseline.Some? <==>
      s.post.savings.Some? && s.baseline.savings.Some? && s.baseline.savings.value != 0.0
    ensures s.post.changeFromBaseline.Some? ==>
      s.baseline.savings.value + s.post.changeFromBaseline.value == s.post.savings.value
    ensures s.quality == Quality(panel)
  {
    var baseRows := Filter(yearly, BaselineYear);
    var baseline := BaselineStats(WindowSavings(yearly, BaselineYear), MeanOpt(IncomeCol(baseRows)));
    Statistics(
      baseline,
      PeriodOf(yearly, PandemicYear, baseline.savings),
      PeriodOf(yearly, PostYear, baseline.savings),
      Quality(panel))
  }

  // ---------------------------------------------------------------------------
  // Per-decile summary

  /** The rows `analyze_by_decile` keeps: surveyed from 2020, with an income and a decile. */
  predicate InDecileSample(h: Household) {
    YearOf(h) >= 2020 && h.row.income.Some? && h.row.decile.Some?
  }

  function DecileKey(h: Household): int {
    if h.row.decile.Some? then h.row.decile.value else 0
  }

  datatype DecileRow = DecileRow(
    decile: nat,
    avgIncome: Option<real>,
    avgSavings: Option<real>,
    avgExcess: Option<real>,
    nHouseholds: nat)

  /** The aggregates of the sample rows in decile d. */
  function SummarizeDecile(sample: seq<Household>, d: nat): (r: DecileRow)
    ensures r.decile == d
    ensures r.nHouseholds == CountKey(Keys(sample, DecileKey), d)
  {
    var group := RowsWithKey(sample, DecileKey, d);
    GroupSize(sample, DecileKey, d);
    DecileRow(d, MeanOpt(IncomeColumn(group)), MeanOpt(SavingsColumn(group)), MeanOpt(ExcessColumn(group)), |group|)
  }

  function SummarizeDeciles(sample: seq<Household>, ds: seq<int>): (rows: seq<DecileRow>)
    requires forall i :: 0 <= i < |ds| ==> ds[i] >= 0
    ensures |rows| == |ds|
    ensures forall i :: 0 <= i < |rows| ==> rows[i] == SummarizeDecile(sample, ds[i])
  {
    if ds == [] then [] else [SummarizeDecile(sample, ds[0])] + SummarizeDeciles(sample, ds[1..])
  }

  function DecilesOf(rows: seq<DecileRow>): (r: seq<int>)
    ensures |r| == |rows| && forall i :: 0 <= i < |rows| ==> r[i] == rows[i].decile
  {
    seq(|rows|, i requires 0 <= i < |rows| => rows[i].decile as int)
  }

  /** `group_by('income_decile').agg(...).sort('income_decile')` on the sample: one row per
      decile key present, strictly ascending, each with at least one household. */
  function DecileTable(sample: seq<Household>): (rows: seq<DecileRow>)
    ensures StrictlyIncreasing(DecilesOf(rows))
    ensures forall d :: d in DecilesOf(rows) <==> d in Keys(sample, DecileKey)
    ensures forall i :: 0 <= i < |rows| ==> rows[i] == SummarizeDecile(sample, rows[i].decile)
    ensures forall i :: 0 <= i < |rows| ==> rows[i].nHouseholds >= 1
  {
    var keys := Keys(sample, DecileKey);
    var ds := DistinctSorted(keys);
    assert forall i :: 0 <= i < |ds| ==> ds[i] >= 0 by {
      forall i | 0 <= i < |ds| ensures ds[i] >= 0 {
        assert ds[i] in keys;
      }
    }
    var rows := SummarizeDeciles(sample, ds);
    assert DecilesOf(rows) == ds;
    forall i | 0 <= i < |rows| ensures rows[i].nHouseholds >= 1 {
      CountKeyPresent(keys, ds[i]);
    }
    rows
  }

  /** `analyze_by_decile`: null when fewer than 100 sample rows remain; otherwise one row per
      decile present in the sample, in strictly ascending decile order, each with at least
      one household. */
  function AnalyzeByDecile(panel: seq<Household>): (r: Option<seq<DecileRow>>)
    ensures r.None? <==> |Filter(panel, InDecileSample)| < 100
    ensures r.Some? ==> StrictlyIncreasing(DecilesOf(r.value))
    ensures r.Some? ==> forall d :: d in DecilesOf(r.value) <==>
      exists h :: h in panel && InDecileSample(h) && h.row.decile == Some(d)
    ensures r.Some? ==> forall i :: 0 <= i < |r.value| ==>
      r.value[i] == SummarizeDecile(Filter(panel, InDecileSample), r.value[i].decile)
    ensures r.Some? ==> forall i :: 0 <= i < |r.value| ==> r.value[i].nHouseholds >= 1
  {
    var sample := Filter(panel, InDecileSample);
    if |sample| < 100 then None
    else
      var rows := DecileTable(sample);
      SampleKeys(panel);
      Some(rows)
  }

  /** The decile keys of the sample are the deciles of the panel's sample households. */
  lemma {:induction false} SampleKeys(panel: seq<Household>)
    ensures forall d :: d in Keys(Filter(panel, InDecileSample), DecileKey) <==>
      exists h :: h in panel && InDecileSample(h) && h.row.decile == Some(d)
  {
    var sample := Filter(panel, InDecileSample);
    var keys := Keys(sample, DecileKey);
    forall d ensures d in keys <==> exists h :: h in panel && InDecileSample(h) && h.row.decile == Some(d) {
      if d in keys {
        var i :| 0 <= i < |keys| && keys[i] == d;
        assert sample[i] in sample;
      }
      if exists h :: h in panel && InDecileSample(h) && h.row.decile == Some(d) {
        var h :| h in panel && InDecileSample(h) && h.row.decile == Some(d);
        assert h in sample;
        var i :| 0 <= i < |sample| && sample[i] == h;
        assert keys[i] == d;
      }
    }
  }

  function TotalDecileHouseholds(rows: seq<DecileRow>): nat {
    if rows == [] then 0 else rows[0].nHouseholds + TotalDecileHouseholds(rows[1..])
  }

  lemma {:induction false} DecileTotalIsGroupSizes(rows: seq<DecileRow>, keys: seq<int>)
    requires forall i :: 0 <= i < |rows| ==> rows[i].nHouseholds == CountKey(keys, rows[i].decile)
    ensures TotalDecileHouseholds(rows) == GroupSizes(DecilesOf(rows), keys)
  {
    if rows != [] {
      DecileTotalIsGroupSizes(rows[1..], keys);
      assert DecilesOf(rows)[1..] == DecilesOf(rows[1..]);
    }
  }

  /** The decile rows account for every sample household exactly once. */
  lemma {:induction false} AnalyzeByDecileCountsSample(panel: seq<Household>)
    requires AnalyzeByDecile(panel).Some?
    ensures TotalDecileHouseholds(AnalyzeByDecile(panel).value) == |Filter(panel, InDecileSample)|
  {
    var sample := Filter(panel, InDecileSample);
    DecileTableCountsSample(sample);
  }

  lemma {:induction false} DecileTableCountsSample(sample: seq<Household>)
    ensures TotalDecileHouseholds(DecileTable(sample)) == |sample|
  {
    var rows, keys := DecileTable(sample), Keys(sample, DecileKey);
    DecileTotalIsGroupSizes(rows, keys);
    GroupSizesTotal(DecilesOf(rows), keys);
  }

  // ---------------------------------------------------------------------------
  // Bottom / top three deciles

  /** `str.contains('D[1-3]', regex=True)`: the label holds `D1`, `D2` or `D3` anywhere,
      that is, the pattern `D[1-3]` matches at some position. */
  predicate InBottomAsWritten(name: string)
    ensures InBottomAsWritten(name) <==> exists i, c :: c in "123" && OccursAt(name, ['D', c], i)
  {
    ContainsAt(name, "D1");
    ContainsAt(name, "D2");
    ContainsAt(name, "D3");
    Contains(name, "D1") || Contains(name, "D2") || Contains(name, "D3")
  }

  /** `str.contains('D[8-9]|D10', regex=True)`: one of the pattern's two branches matches at
      some position. */
  predicate InTopAsWritten(name: string)
    ensures InTopAsWritten(name) <==>
      (exists i, c :: c in "89" && OccursAt(name, ['D', c], i)) || (exists i :: OccursAt(name, "D10", i))
  {
    ContainsAt(name, "D8");
    ContainsAt(name, "D9");
    ContainsAt(name, "D10");
    Contains(name, "D8") || Contains(name, "D9") || Contains(name, "D10")
  }

  /** The ten decile labels, written out. */
  lemma LabelLiteral(d: nat)
    requires 1 <= d <= 10
    ensures Label(d) == ["D1", "D2", "D3", "D4", "D5", "D6", "D7", "D8", "D9", "D10"][d - 1]
  {
    if d == 1 {
      assert Label(1) == "D1";
    } else if d == 2 {
      assert Label(2) == "D2";
    } else if d == 3 {
      assert Label(3) == "D3";
    } else if d == 4 {
      assert Label(4) == "D4";
    } else if d == 5 {
      assert Label(5) == "D5";
    } else if d == 6 {
      assert Label(6) == "D6";
    } else if d == 7 {
      assert Label(7) == "D7";
    } else if d == 8 {
      assert Label(8) == "D8";
    } else if d == 9 {
      assert Label(9) == "D9";
    } else if d == 10 {
      assert Label(10) == "D10";
    }
  }

  /** Over the ten labels, the written bottom filter selects D1, D2, D3 and also D10. */
  lemma BottomAsWrittenLabels(d: nat)
    requires 1 <= d <= 10
    ensures InBottomAsWritten(Label(d)) <==> d <= 3 || d == 10
  {
    LabelLiteral(d);
    if d < 10 {
      var c := Label(d)[1];
      assert Label(d) == ['D', c];
      ContainsPair('D', c, "D1");
      ContainsPair('D', c, "D2");
      ContainsPair('D', c, "D3");
      ContainsPair('D', c, "D8");
      ContainsPair('D', c, "D9");
      NotContainsLonger(Label(d), "D10");
    } else {
      assert Label(d) == "D10";
      assert StartsWith("D10", "D1") && StartsWith("D10", "D10");
    }
  }

  /** The written top filter selects exactly D8, D9 and D10. */
  lemma TopAsWrittenLabels(d: nat)
    requires 1 <= d <= 10
    ensures InTopAsWritten(Label(d)) <==> d >= 8
  {
    LabelLiteral(d);
    if d < 10 {
      var c := Label(d)[1];
      assert Label(d) == ['D', c];
      ContainsPair('D', c, "D1");
      ContainsPair('D', c, "D2");
      ContainsPair('D', c, "D3");
      ContainsPair('D', c, "D8");
      ContainsPair('D', c, "D9");
      NotContainsLonger(Label(d), "D10");
    } else {
      assert Label(d) == "D10";
      assert StartsWith("D10", "D1") && StartsWith("D10", "D10");
    }
  }

  /** The two written groups overlap: D10 is averaged into both. */
  lemma BottomAndTopOverlapOnD10()
    ensures InBottomAsWritten(Label(10)) && InTopAsWritten(Label(10))
  {
    BottomAsWrittenLabels(10);
    TopAsWrittenLabels(10);
  }

  /** The bottom three deciles, D1 to D3. */
  predicate InBottom(d: nat) {
    1 <= d <= 3
  }

  /** The top three deciles, D8 to D10. */
  predicate InTop(d: nat) {
    8 <= d <= 10
  }

  /** The intended groups are disjoint; they agree with the written filters except that D10
      leaves the bottom group. */
  lemma BottomTopSplit(d: nat)
    requires 1 <= d <= 10
    ensures !(InBottom(d) && InTop(d))
    ensures InBottom(d) <==> InBottomAsWritten(Label(d)) && d != 10
    ensures InTop(d) <==> InTopAsWritten(Label(d))
  {
    BottomAsWrittenLabels(d);
    TopAsWrittenLabels(d);
  }

  predicate BottomRow(r: DecileRow) {
    InBottom(r.decile)
  }

  predicate TopRow(r: DecileRow) {
    InTop(r.decile)
  }

  function AvgExcessOf(rows: seq<DecileRow>): (xs: seq<Option<real>>)
    ensures |xs| == |rows| && forall i :: 0 <= i < |rows| ==> xs[i] == rows[i].avgExcess
  {
    seq(|rows|, i requires 0 <= i < |rows| => rows[i].avgExcess)
  }

  /** The mean `avg_excess` of the bottom and of the top three deciles, split by decile
      number; a decile row lies in at most one of the two groups. */
  function BottomTopExcess(rows: seq<DecileRow>): (r: (Option<real>, Option<real>))
    ensures r.0 == MeanOpt(AvgExcessOf(Filter(rows, BottomRow)))
    ensures r.1 == MeanOpt(AvgExcessOf(Filter(rows, TopRow)))
    ensures r.0.None? <==> forall x :: x in rows && BottomRow(x) ==> x.avgExcess.None?
    ensures r.1.None? <==> forall x :: x in rows && TopRow(x) ==> x.avgExcess.None?
    ensures forall x :: x in Filter(rows, BottomRow) ==> x !in Filter(rows, TopRow)
  {
    var bottom, top := Filter(rows, BottomRow), Filter(rows, TopRow);
    assert forall x :: x in bottom <==> x in rows && BottomRow(x);
    assert forall x :: x in top <==> x in rows && TopRow(x);
    (MeanOpt(AvgExcessOf(bottom)), MeanOpt(AvgExcessOf(top)))
  }

  predicate BottomRowAsWritten(r: DecileRow) {
    InBottomAsWritten(Label(r.decile))
  }

  predicate TopRowAsWritten(r: DecileRow) {
    InTopAsWritten(Label(r.decile))
  }

  /** `bottom_3` and `top_3` as written: the mean `avg_excess` of the rows whose label
      matches `D[1-3]`, and of those whose label matches `D[8-9]|D10`. */
  function BottomTopExcessAsWritten(rows: seq<DecileRow>): (r: (Option<real>, Option<real>))
    ensures r.0 == MeanOpt(AvgExcessOf(Filter(rows, BottomRowAsWritten)))
    ensures r.1 == MeanOpt(AvgExcessOf(Filter(rows, TopRowAsWritten)))
    ensures r.0.None? <==> forall x :: x in rows && BottomRowAsWritten(x) ==> x.avgExcess.None?
  {
    var bottom := Filter(rows, BottomRowAsWritten);
    assert forall x :: x in bottom <==> x in rows && BottomRowAsWritten(x);
    (MeanOpt(AvgExcessOf(bottom)), MeanOpt(AvgExcessOf(Filter(rows, TopRowAsWritten))))
  }

  /** On rows labelled D1 to D10, the written top mean is the intended one, and so is the
      written bottom mean unless a D10 row is present. */
  lemma BottomTopExcessAsWrittenAgrees(rows: seq<DecileRow>)
    requires forall x :: x in rows ==> 1 <= x.decile <= 10
    ensures BottomTopExcessAsWritten(rows).1 == BottomTopExcess(rows).1
    ensures (forall x :: x in rows ==> x.decile != 10) ==>
      BottomTopExcessAsWritten(rows).0 == BottomTopExcess(rows).0
  {
    forall x | x in rows ensures TopRowAsWritten(x) == TopRow(x) {
      BottomTopSplit(x.decile);
    }
    FilterAgree(rows, TopRowAsWritten, TopRow);
    if forall x :: x in rows ==> x.decile != 10 {
      forall x | x in rows ensures BottomRowAsWritten(x) == BottomRow(x) {
        BottomTopSplit(x.decile);
      }
      FilterAgree(rows, BottomRowAsWritten, BottomRow);
    }
  }

  /** With D1 at 100 and D10 at 900, the written bottom mean is 500 where the intended one
      is 100: D10's excess enters the bottom group as well as the top one. */
  lemma BottomExcessAsWrittenExample()
    ensures var rows := [DecileRow(1, None, None, Some(100.0), 60), DecileRow(10, None, None, Some(900.0), 60)];
      BottomTopExcessAsWritten(rows) == (Some(500.0), Some(900.0)) &&
      BottomTopExcess(rows) == (Some(100.0), Some(900.0))
  {
    var d1, d10 := DecileRow(1, None, None, Some(100.0), 60), DecileRow(10, None, None, Some(900.0), 60);
    ExampleGroups(d1, d10);
    assert AvgExcessOf([d1, d10]) == [Some(100.0), Some(900.0)];
    assert AvgExcessOf([d1]) == [Some(100.0)] && AvgExcessOf([d10]) == [Some(900.0)];
    ExampleMeans();
  }

  /** Which groups the D1 and D10 rows fall in, as written and as intended. */
  lemma ExampleGroups(d1: DecileRow, d10: DecileRow)
    requires d1.decile == 1 && d10.decile == 10
    ensures Filter([d1, d10], BottomRowAsWritten) == [d1, d10]
    ensures Filter([d1, d10], TopRowAsWritten) == [d10]
    ensures Filter([d1, d10], BottomRow) == [d1]
    ensures Filter([d1, d10], TopRow) == [d10]
  {
    BottomAsWrittenLabels(1);
    BottomAsWrittenLabels(10);
    TopAsWrittenLabels(1);
    TopAsWrittenLabels(10);
    assert [d1, d10][1..] == [d10];
  }

  lemma ExampleMeans()
    ensures MeanOpt([Some(100.0), Some(900.0)]) == Some(500.0)
    ensures MeanOpt([Some(100.0)]) == Some(100.0) && MeanOpt([Some(900.0)]) == Some(900.0)
  {
    assert Present([Some(100.0), Some(900.0)]) == [100.0, 900.0];
    assert Present([Some(100.0)]) == [100.0] && Present([Some(900.0)]) == [900.0];
    assert Sum([100.0, 900.0]) == 1000.0;
  }
}
