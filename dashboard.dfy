/** The two computations of the Streamlit dashboard that are not plotting: the yearly table
    spread over four quarter rows per year, and the regression sample with its per-decile
    summary (households in a decile with more than 50 sample rows, with their mean excess,
    mean income and savings rate). The regressions themselves are not modelled. */
module Dashboard {
  import opened Wrappers
  import opened Text
  import opened Stats
  import opened Grouping
  import opened Panel
  import opened TimeSeries

  // ---------------------------------------------------------------------------
  // Quarterly view

  /** One row of the quarterly view. */
  datatype QuarterRow = QuarterRow(
    quarter: string,
    year: int,
    avgSavings: Option<real>,
    counterfactual: Option<real>,
    excess: Option<real>,
    cumulative: Option<real>)

  /** The label of quarter q of a year, such as `2016Q1`. */
  function QuarterLabel(year: int, q: nat): (name: string)
    ensures 1 <= q <= 9 ==> |name| >= 3 && name[|name| - 2..] == ['Q', DigitChar(q)]
    ensures 1 <= q <= 9 ==> ParseInt(name[..|name| - 2]) == Some(year)
  {
    var name := IntToString(year) + "Q" + NatToString(q);
    if 1 <= q <= 9 then
      assert NatToString(q) == [DigitChar(q)];
      assert name[..|name| - 2] == IntToString(year);
      ParseIntToString(year);
      name
    else name
  }

  /** Two quarters (1 to 4) get the same label only when they are the same quarter of the
      same year. */
  lemma QuarterLabelInjective(y1: int, q1: nat, y2: int, q2: nat)
    requires 1 <= q1 <= 4 && 1 <= q2 <= 4
    requires QuarterLabel(y1, q1) == QuarterLabel(y2, q2)
    ensures y1 == y2 && q1 == q2
  {
    var l1, l2 := QuarterLabel(y1, q1), QuarterLabel(y2, q2);
    assert NatToString(q1) == [DigitChar(q1)] && NatToString(q2) == [DigitChar(q2)];
    assert l1[|l1| - 1] == DigitChar(q1) && l2[|l2| - 1] == DigitChar(q2);
    assert DigitValue(DigitChar(q1)) == q1 && DigitValue(DigitChar(q2)) == q2;
    assert l1[..|l1| - 2] == IntToString(y1);
    assert l2[..|l2| - 2] == IntToString(y2);
    IntToStringInjective(y1, y2);
  }

  /** Quarter q of a yearly row: the year's values copied unchanged, with no interpolation. */
  function Quarter(row: YearlyRow, q: nat): (r: QuarterRow)
    ensures r.quarter == QuarterLabel(row.summary.year, q) && r.year == row.summary.year
    ensures r.avgSavings == row.summary.avgSavings && r.counterfactual == row.counterfactual
    ensures r.excess == row.summary.avgExcess && r.cumulative == row.cumulativeExcess
  {
    QuarterRow(QuarterLabel(row.summary.year, q), row.summary.year, row.summary.avgSavings,
               row.counterfactual, row.summary.avgExcess, row.cumulativeExcess)
  }

  /** Row k of `quarters` is quarter k % 4 + 1 of yearly row k / 4. */
  predicate QuarterlyPrefix(yearly: seq<YearlyRow>, quarters: seq<QuarterRow>) {
    forall k :: 0 <= k < |quarters| ==> k / 4 < |yearly| && quarters[k] == Quarter(yearly[k / 4], k % 4 + 1)
  }

  /** `prepare_quarterly_view`: four rows per yearly row, in the input order; row k is
      quarter k % 4 + 1 of yearly row k / 4. */
  method PrepareQuarterlyView(yearly: seq<YearlyRow>) returns (quarters: seq<QuarterRow>)
    ensures |quarters| == 4 * |yearly|
    ensures forall k :: 0 <= k < |quarters| ==> quarters[k] == Quarter(yearly[k / 4], k % 4 + 1)
  {
    quarters := [];
    var i := 0;
    while i < |yearly|
      invariant 0 <= i <= |yearly|
      invariant |quarters| == 4 * i
      invariant QuarterlyPrefix(yearly, quarters)
    {
      var row := yearly[i];
      var q := 1;
      while q < 5
        invariant 1 <= q <= 5
        invariant |quarters| == 4 * i + q - 1
        invariant QuarterlyPrefix(yearly, quarters)
      {
        QuarterlyPrefixSnoc(yearly, quarters, i, q);
        quarters := quarters + [Quarter(row, q)];
        q := q + 1;
      }
      i := i + 1;
    }
    assert QuarterlyPrefix(yearly, quarters);
  }

  /** Appending quarter q of yearly row i at position 4i + q - 1 keeps the layout. */
  lemma QuarterlyPrefixSnoc(yearly: seq<YearlyRow>, quarters: seq<QuarterRow>, i: nat, q: nat)
    requires QuarterlyPrefix(yearly, quarters)
    requires i < |yearly| && 1 <= q <= 4 && |quarters| == 4 * i + q - 1
    ensures QuarterlyPrefix(yearly, quarters + [Quarter(yearly[i], q)])
  {
    var next := quarters + [Quarter(yearly[i], q)];
    forall k | 0 <= k < |next|
      ensures k / 4 < |yearly| && next[k] == Quarter(yearly[k / 4], k % 4 + 1)
    {
      if k < |quarters| {
        assert next[k] == quarters[k];
      } else {
        QuarterIndex(i, q);
      }
    }
  }

  /** Position 4i + q - 1 of the quarterly view is quarter q of yearly row i. */
  lemma QuarterIndex(i: nat, q: nat)
    requires 1 <= q <= 4
    ensures (4 * i + q - 1) / 4 == i && (4 * i + q - 1) % 4 + 1 == q
  {
  }

  /** When the yearly rows are in strictly ascending year order (as `create_time_series`
      leaves them), no two rows of the quarterly view share a label. */
  lemma QuarterLabelsDistinct(yearly: seq<YearlyRow>, quarters: seq<QuarterRow>, k: nat, l: nat)
    requires forall i, j :: 0 <= i < j < |yearly| ==> yearly[i].summary.year < yearly[j].summary.year
    requires |quarters| == 4 * |yearly|
    requires forall k :: 0 <= k < |quarters| ==> quarters[k] == Quarter(yearly[k / 4], k % 4 + 1)
    requires k < l < |quarters|
    ensures quarters[k].quarter != quarters[l].quarter
  {
    if quarters[k].quarter == quarters[l].quarter {
      QuarterLabelInjective(yearly[k / 4].summary.year, k % 4 + 1, yearly[l / 4].summary.year, l % 4 + 1);
      assert false;
    }
  }

  /** The label `prepare_quarterly_view` builds when pandas hands `iterrows` a row of an
      all-numeric table: the row becomes a float Series and the year prints as `2016.0`. */
  function QuarterLabelAsWritten(year: int, q: nat, upcast: bool): string {
    (if upcast then IntToString(year) + ".0" else IntToString(year)) + "Q" + NatToString(q)
  }

  /** The yearly table is all-numeric once the counterfactual line is fitted; without a fit
      the counterfactual column holds only nulls, which pandas keeps as an object column. */
  predicate AllNumeric(yearly: seq<YearlyRow>) {
    exists i :: 0 <= i < |yearly| && yearly[i].counterfactual.Some?
  }

  /** With a fitted counterfactual, every label of the as-written quarterly view differs
      from the intended `<year>Q<q>`. */
  lemma QuarterLabelAsWrittenDiffers(yearly: seq<YearlyRow>, k: nat)
    requires AllNumeric(yearly) && k < |yearly|
    ensures forall q :: 1 <= q <= 4 ==>
      QuarterLabelAsWritten(yearly[k].summary.year, q, AllNumeric(yearly)) != QuarterLabel(yearly[k].summary.year, q)
  {
    forall q | 1 <= q <= 4
      ensures QuarterLabelAsWritten(yearly[k].summary.year, q, true) != QuarterLabel(yearly[k].summary.year, q)
    {
      var y := yearly[k].summary.year;
      assert |QuarterLabelAsWritten(y, q, true)| == |QuarterLabel(y, q)| + 2;
    }
  }

  /** A one-year table with a counterfactual value: its first quarter is labelled
      `2016.0Q1` instead of `2016Q1`. */
  lemma QuarterLabelAsWrittenExample()
    ensures var yearly := [YearlyRow(Summary(2016, Some(20000.0), Some(1600.0), Some(0.0), 1, 1), Some(1600.0), Some(0.0))];
      && QuarterLabelAsWritten(2016, 1, AllNumeric(yearly)) == "2016.0Q1"
      && QuarterLabel(2016, 1) == "2016Q1"
  {
    var yearly := [YearlyRow(Summary(2016, Some(20000.0), Some(1600.0), Some(0.0), 1, 1), Some(1600.0), Some(0.0))];
    assert yearly[0].counterfactual.Some?;
    assert NatToString(2) == "2" && NatToString(0) == "0" && NatToString(1) == "1" && NatToString(6) == "6";
    assert NatToString(20) == "20";
    assert NatToString(201) == "201";
    assert NatToString(2016) == "2016";
  }

  // ---------------------------------------------------------------------------
  // Regression sample and decile summary

  /** The rows `run_regressions` keeps: both `gross_income` and `excess_savings` present. */
  predicate InRegressionSample(h: Household) {
    h.row.income.Some? && h.excess.Some?
  }

  /** The regression sample holds exactly the panel rows with both values present. */
  function RegressionSample(panel: seq<Household>): (sample: seq<Household>)
    ensures |sample| <= |panel|
    ensures forall h :: h in sample <==> h in panel && h.row.income.Some? && h.excess.Some?
  {
    Filter(panel, InRegressionSample)
  }

  /** `df[df['income_decile'] == f'D{d}']`: the rows whose decile label is `D<d>`, which are
      exactly the rows of decile d. */
  function RowsLabelled(sample: seq<Household>, d: nat): (rows: seq<Household>)
    ensures forall h :: h in rows <==> h in sample && h.row.decile == Some(d)
  {
    var rows := Filter(sample, (h: Household) => h.row.decile.Some? && Label(h.row.decile.value) == Label(d));
    forall h | h in rows ensures h.row.decile == Some(d) {
      LabelInjective(h.row.decile.value, d);
    }
    rows
  }

  /** `(avg_excess / avg_income * 100) if avg_income > 0 else 0`. */
  function SavingsRate(avgExcess: real, avgIncome: real): (r: real)
    ensures avgIncome > 0.0 ==> r * avgIncome == avgExcess * 100.0
    ensures avgIncome <= 0.0 ==> r == 0.0
    ensures avgExcess >= 0.0 ==> r >= 0.0
  {
    if avgIncome > 0.0 then avgExcess / avgIncome * 100.0 else 0.0
  }

  datatype DecileResult = DecileResult(decile: nat, avgExcess: real, avgIncome: real, savingsRate: real)

  /** The summary of one decile's rows, all of them in the regression sample: both means
      exist because every row has both values. */
  function DecileResultOf(rows: seq<Household>, d: nat): (r: DecileResult)
    requires |rows| > 0
    requires forall h :: h in rows ==> InRegressionSample(h)
    ensures r.decile == d
  {
    assert rows[0] in rows && InRegressionSample(rows[0]);
    assert ExcessColumn(rows)[0].Some? && IncomeColumn(rows)[0].Some?;
    var e := MeanOpt(ExcessColumn(rows)).value;
    var inc := MeanOpt(IncomeColumn(rows)).value;
    DecileResult(d, e, inc, SavingsRate(e, inc))
  }

  /** A decile's summary holds the means of its rows' excess and income, and `SavingsRate`
      of the two; its mean excess is non-negative when every excess in it is. */
  lemma DecileResultRate(rows: seq<Household>, d: nat)
    requires |rows| > 0
    requires forall h :: h in rows ==> InRegressionSample(h)
    ensures Some(DecileResultOf(rows, d).avgExcess) == MeanOpt(ExcessColumn(rows))
    ensures Some(DecileResultOf(rows, d).avgIncome) == MeanOpt(IncomeColumn(rows))
    ensures DecileResultOf(rows, d).savingsRate ==
      SavingsRate(DecileResultOf(rows, d).avgExcess, DecileResultOf(rows, d).avgIncome)
    ensures ExcessNonNegative(rows) ==> DecileResultOf(rows, d).avgExcess >= 0.0
  {
    assert rows[0] in rows && InRegressionSample(rows[0]);
    assert ExcessColumn(rows)[0].Some? && IncomeColumn(rows)[0].Some?;
    var e, inc := MeanOpt(ExcessColumn(rows)).value, MeanOpt(IncomeColumn(rows)).value;
    assert DecileResultOf(rows, d) == DecileResult(d, e, inc, SavingsRate(e, inc));
    if ExcessNonNegative(rows) {
      MeanOptNonNegative(ExcessColumn(rows));
    }
  }

  /** The deciles 1 .. n-1 the summary loop keeps: those with more than 50 sample rows. */
  function QualifyingDeciles(sample: seq<Household>, n: nat): (ds: seq<nat>)
    requires 1 <= n <= 11
    ensures forall i :: 0 <= i < |ds| ==> |RowsLabelled(sample, ds[i])| > 50
    decreases n
  {
    if n == 1 then []
    else
      var prev := QualifyingDeciles(sample, n - 1);
      if |RowsLabelled(sample, n - 1)| > 50 then prev + [n - 1] else prev
  }

  /** The results the summary loop has collected before decile n: the summary of each
      qualifying decile's rows, in the order of the deciles. */
  function DecileResults(sample: seq<Household>, n: nat): (results: seq<DecileResult>)
    requires 1 <= n <= 11
    requires forall h :: h in sample ==> InRegressionSample(h)
  {
    var ds := QualifyingDeciles(sample, n);
    seq(|ds|, i requires 0 <= i < |ds| => DecileResultOf(RowsLabelled(sample, ds[i]), ds[i]))
  }

  function ResultDeciles(results: seq<DecileResult>): (ds: seq<int>)
    ensures |ds| == |results| && forall i :: 0 <= i < |results| ==> ds[i] == results[i].decile
  {
    seq(|results|, i requires 0 <= i < |results| => results[i].decile as int)
  }

  /** Each step of the loop appends the summary of decile n when it has more than 50 rows. */
  lemma DecileResultsStep(sample: seq<Household>, n: nat)
    requires 1 <= n <= 10
    requires forall h :: h in sample ==> InRegressionSample(h)
    ensures |RowsLabelled(sample, n)| > 50 ==>
      DecileResults(sample, n + 1) == DecileResults(sample, n) + [DecileResultOf(RowsLabelled(sample, n), n)]
    ensures |RowsLabelled(sample, n)| <= 50 ==> DecileResults(sample, n + 1) == DecileResults(sample, n)
  {
    var prev, next := DecileResults(sample, n), DecileResults(sample, n + 1);
    if |RowsLabelled(sample, n)| > 50 {
      assert QualifyingDeciles(sample, n + 1) == QualifyingDeciles(sample, n) + [n];
      assert next == prev + [DecileResultOf(RowsLabelled(sample, n), n)];
    } else {
      assert QualifyingDeciles(sample, n + 1) == QualifyingDeciles(sample, n);
    }
  }

  /** What `run_regressions` returns, the fitted models aside. */
  datatype RegressionOutcome =
    | NotEnoughData
    | Fitted(n: nat, deciles: Option<seq<DecileResult>>)

  /** `run_regressions` without the model fits: fewer than 100 sample rows give no result;
      otherwise the sample size and the decile summary, absent when no decile qualifies. */
  method RunRegressions(panel: seq<Household>) returns (outcome: RegressionOutcome)
    ensures outcome.NotEnoughData? <==> |RegressionSample(panel)| < 100
    ensures outcome.Fitted? ==> outcome.n == |RegressionSample(panel)|
    ensures outcome.Fitted? ==>
      var results := DecileResults(RegressionSample(panel), 11);
      outcome.deciles == if results == [] then None else Some(results)
  {
    var sample := RegressionSample(panel);
    if |sample| < 100 {
      return NotEnoughData;
    }
    var results := [];
    var d := 1;
    while d < 11
      invariant 1 <= d <= 11
      invariant results == DecileResults(sample, d)
    {
      var rows := RowsLabelled(sample, d);
      DecileResultsStep(sample, d);
      if |rows| > 50 {
        results := results + [DecileResultOf(rows, d)];
      }
      d := d + 1;
    }
    outcome := Fitted(|sample|, if results == [] then None else Some(results));
  }

  /** The kept deciles are strictly ascending and lie in 1 .. n-1. */
  lemma {:induction false} QualifyingAscending(sample: seq<Household>, n: nat)
    requires 1 <= n <= 11
    ensures StrictlyIncreasing(QualifyingDeciles(sample, n))
    ensures forall i :: 0 <= i < |QualifyingDeciles(sample, n)| ==> 1 <= QualifyingDeciles(sample, n)[i] < n
    decreases n
  {
    if n > 1 {
      QualifyingAscending(sample, n - 1);
    }
  }

  /** A decile is kept exactly when it lies in 1 .. n-1 and more than 50 sample rows carry
      its label. */
  lemma {:induction false} QualifyingComplete(sample: seq<Household>, n: nat, d: nat)
    requires 1 <= n <= 11
    ensures d in QualifyingDeciles(sample, n) <==> 1 <= d < n && |RowsLabelled(sample, d)| > 50
    decreases n
  {
    if n > 1 {
      QualifyingComplete(sample, n - 1, d);
      QualifyingAscending(sample, n - 1);
    }
  }

  /** The decile summary: its deciles are the qualifying ones, strictly ascending, and each
      entry summarises the rows of its own decile. */
  lemma DecileResultsShape(sample: seq<Household>)
    requires forall h :: h in sample ==> InRegressionSample(h)
    ensures StrictlyIncreasing(ResultDeciles(DecileResults(sample, 11)))
    ensures forall d :: d in ResultDeciles(DecileResults(sample, 11)) <==>
      1 <= d <= 10 && |RowsLabelled(sample, d)| > 50
    ensures forall i :: 0 <= i < |DecileResults(sample, 11)| ==>
      DecileResults(sample, 11)[i] == DecileResultOf(RowsLabelled(sample, DecileResults(sample, 11)[i].decile), DecileResults(sample, 11)[i].decile)
  {
    var results, ds := DecileResults(sample, 11), QualifyingDeciles(sample, 11);
    assert ResultDeciles(results) == ds;
    QualifyingAscending(sample, 11);
    forall d ensures d in ds <==> 1 <= d <= 10 && |RowsLabelled(sample, d)| > 50 {
      QualifyingComplete(sample, 11, d);
    }
  }

  /** With non-negative excess savings in the panel, every reported savings rate is
      non-negative. */
  lemma SavingsRatesNonNegative(panel: seq<Household>, i: nat)
    requires ExcessNonNegative(panel)
    requires i < |DecileResults(RegressionSample(panel), 11)|
    ensures DecileResults(RegressionSample(panel), 11)[i].savingsRate >= 0.0
  {
    var sample := RegressionSample(panel);
    var r := DecileResults(sample, 11)[i];
    var rows := RowsLabelled(sample, QualifyingDeciles(sample, 11)[i]);
    assert r == DecileResultOf(rows, r.decile);
    DecileResultRate(rows, r.decile);
    forall j | 0 <= j < |rows| && rows[j].excess.Some? ensures rows[j].excess.value >= 0.0 {
      assert rows[j] in rows;
      var k :| 0 <= k < |panel| && panel[k] == rows[j];
    }
  }
}
