/** The savings estimate of `calculate_excess_savings`: a regime-dependent savings rate
    applied to income, one pre-pandemic baseline for the whole run chosen through a
    three-step fallback chain, excess savings clipped at zero, and the extrapolation of
    the post-2020 sample mean to a national total. */
module Excess {
  import opened Wrappers
  import opened Stats
  import opened Panel
  import opened Grouping

  /** The savings rate of a row: the pandemic rate while `pandemic_period` is set, else the
      post-pandemic rate while `post_2020` is set, else the pre-pandemic rate. */
  function Rate(c: Cleaned, cfg: Config): (r: real)
    ensures r == cfg.pandemicRate || r == cfg.postRate || r == cfg.preRate
    ensures NonNegativeRates(cfg) ==> r >= 0.0
  {
    if c.pandemicPeriod == 1 then cfg.pandemicRate
    else if c.post2020 == 1 then cfg.postRate
    else cfg.preRate
  }

  predicate FlagsOfYear(c: Cleaned) {
    RegimeFlags(c.pandemicPeriod, c.post2020, c.prePandemic) == Flags(c.year)
  }

  /** With the flags derived from the year, the rate is 18% in 2020-2021, 10% from 2022
      and 8% before 2020. */
  lemma SourceRateByYear(c: Cleaned)
    requires FlagsOfYear(c)
    ensures 2020 <= c.year <= 2021 ==> Rate(c, SourceConfig) == 0.18
    ensures c.year >= 2022 ==> Rate(c, SourceConfig) == 0.10
    ensures c.year < 2020 ==> Rate(c, SourceConfig) == 0.08
  {
  }

  /** `estimated_savings`: income times the rate, null exactly where income is null. */
  function EstimatedSavings(c: Cleaned, cfg: Config): (r: Option<real>)
    ensures r.None? <==> c.income.None?
    ensures NonNegativeRates(cfg) && c.income.Some? && c.income.value >= 0.0 ==> r.value >= 0.0
  {
    match c.income
    case None => None
    case Some(x) => Some(x * Rate(c, cfg))
  }

  predicate InBaselineWindow(year: int) {
    2016 <= year < 2020
  }

  predicate BeforePandemic(year: int) {
    year < 2020
  }

  /** The estimated savings of the rows whose year is in the window, nulls included. */
  function EstimatesIn(rows: seq<Cleaned>, cfg: Config, window: int -> bool): (es: seq<Option<real>>)
    ensures |es| <= |rows|
    ensures AllMissing(es) <==> forall i :: 0 <= i < |rows| && window(rows[i].year) ==> rows[i].income.None?
  {
    if rows == [] then []
    else if window(rows[0].year) then
      var rest := EstimatesIn(rows[1..], cfg, window);
      assert AllMissing(rest) <==> forall i :: 1 <= i < |rows| && window(rows[i].year) ==> rows[i].income.None? by {
        assert forall i :: 1 <= i < |rows| ==> rows[1..][i - 1] == rows[i];
      }
      var es := [EstimatedSavings(rows[0], cfg)] + rest;
      assert AllMissing(es) <==> es[0].None? && AllMissing(rest) by {
        if AllMissing(es) {
          forall k | 0 <= k < |rest| ensures rest[k].None? {
            assert es[k + 1] == rest[k];
          }
        }
        if es[0].None? && AllMissing(rest) {
          forall k | 0 <= k < |es| ensures es[k].None? {
            if k > 0 {
              assert es[k] == rest[k - 1];
            }
          }
        }
      }
      es
    else
      var rest := EstimatesIn(rows[1..], cfg, window);
      assert forall i :: 1 <= i < |rows| ==> rows[1..][i - 1] == rows[i];
      rest
  }

  lemma {:induction false} EstimatesInAppend(a: seq<Cleaned>, b: seq<Cleaned>, cfg: Config, window: int -> bool)
    ensures EstimatesIn(a + b, cfg, window) == EstimatesIn(a, cfg, window) + EstimatesIn(b, cfg, window)
  {
    if a == [] {
      assert a + b == b;
    } else {
      assert (a + b)[1..] == a[1..] + b;
      EstimatesInAppend(a[1..], b, cfg, window);
    }
  }

  /** The run's single baseline: the mean non-null estimated savings of 2016-2019; if no row
      there has an income, the mean over every pre-2020 row; if none of those has one
      either, the configured default. It never fails. */
  function Baseline(rows: seq<Cleaned>, cfg: Config): (b: real)
    ensures (exists i :: 0 <= i < |rows| && InBaselineWindow(rows[i].year) && rows[i].income.Some?) ==>
      b == Mean(Present(EstimatesIn(rows, cfg, InBaselineWindow)))
    ensures (forall i :: 0 <= i < |rows| && InBaselineWindow(rows[i].year) ==> rows[i].income.None?) &&
            (exists i :: 0 <= i < |rows| && BeforePandemic(rows[i].year) && rows[i].income.Some?) ==>
      b == Mean(Present(EstimatesIn(rows, cfg, BeforePandemic)))
    ensures (forall i :: 0 <= i < |rows| && BeforePandemic(rows[i].year) ==> rows[i].income.None?) ==>
      b == cfg.defaultBaseline
  {
    var window := Present(EstimatesIn(rows, cfg, InBaselineWindow));
    PresentEmpty(EstimatesIn(rows, cfg, InBaselineWindow));
    PresentEmpty(EstimatesIn(rows, cfg, BeforePandemic));
    if |window| > 0 then
      Mean(window)
    else
      var pre := Present(EstimatesIn(rows, cfg, BeforePandemic));
      if |pre| > 0 then Mean(pre) else cfg.defaultBaseline
  }

  /** Rows from 2020 on never move the baseline. */
  lemma BaselineIgnoresLaterYears(rows: seq<Cleaned>, later: seq<Cleaned>, cfg: Config)
    requires forall i :: 0 <= i < |later| ==> later[i].year >= 2020
    ensures Baseline(rows + later, cfg) == Baseline(rows, cfg)
  {
    EstimatesInAppend(rows, later, cfg, InBaselineWindow);
    EstimatesInAppend(rows, later, cfg, BeforePandemic);
    LaterRowsOutsideWindows(later, cfg);
    assert EstimatesIn(rows, cfg, InBaselineWindow) + [] == EstimatesIn(rows, cfg, InBaselineWindow);
    assert EstimatesIn(rows, cfg, BeforePandemic) + [] == EstimatesIn(rows, cfg, BeforePandemic);
  }

  lemma {:induction false} LaterRowsOutsideWindows(later: seq<Cleaned>, cfg: Config)
    requires forall i :: 0 <= i < |later| ==> later[i].year >= 2020
    ensures EstimatesIn(later, cfg, InBaselineWindow) == []
    ensures EstimatesIn(later, cfg, BeforePandemic) == []
  {
    if later != [] {
      LaterRowsOutsideWindows(later[1..], cfg);
    }
  }

  /** With non-negative rates, incomes and default, the baseline is non-negative. */
  lemma BaselineNonNegative(rows: seq<Cleaned>, cfg: Config)
    requires NonNegativeRates(cfg) && cfg.defaultBaseline >= 0.0
    requires forall i :: 0 <= i < |rows| && rows[i].income.Some? ==> rows[i].income.value >= 0.0
    ensures Baseline(rows, cfg) >= 0.0
  {
    EstimatesNonNegative(rows, cfg, InBaselineWindow);
    EstimatesNonNegative(rows, cfg, BeforePandemic);
    var w := Present(EstimatesIn(rows, cfg, InBaselineWindow));
    var p := Present(EstimatesIn(rows, cfg, BeforePandemic));
    PresentNonNegative(EstimatesIn(rows, cfg, InBaselineWindow));
    PresentNonNegative(EstimatesIn(rows, cfg, BeforePandemic));
    if |w| > 0 {
      MeanNonNegative(w);
    } else if |p| > 0 {
      MeanNonNegative(p);
    }
  }

  lemma {:induction false} EstimatesNonNegative(rows: seq<Cleaned>, cfg: Config, window: int -> bool)
    requires NonNegativeRates(cfg)
    requires forall i :: 0 <= i < |rows| && rows[i].income.Some? ==> rows[i].income.value >= 0.0
    ensures forall k :: 0 <= k < |EstimatesIn(rows, cfg, window)| && EstimatesIn(rows, cfg, window)[k].Some? ==>
      EstimatesIn(rows, cfg, window)[k].value >= 0.0
  {
    if rows != [] {
      EstimatesNonNegative(rows[1..], cfg, window);
    }
  }

  lemma PresentNonNegative(xs: seq<Option<real>>)
    requires forall k :: 0 <= k < |xs| && xs[k].Some? ==> xs[k].value >= 0.0
    ensures forall k :: 0 <= k < |Present(xs)| ==> Present(xs)[k] >= 0.0
  {
    forall k | 0 <= k < |Present(xs)| ensures Present(xs)[k] >= 0.0 {
      assert Present(xs)[k] in Present(xs);
      var i :| 0 <= i < |xs| && xs[i] == Some(Present(xs)[k]);
    }
  }

  /** `(estimated - baseline).clip(lower_bound=0)`: the least non-negative value not below
      estimated - baseline, and null exactly where the estimate is null. */
  function ClipExcess(est: Option<real>, baseline: real): (r: Option<real>)
    ensures r.None? <==> est.None?
    ensures r.Some? ==> r.value >= 0.0 && r.value >= est.value - baseline
    ensures r.Some? ==> r.value == 0.0 || r.value == est.value - baseline
  {
    match est
    case None => None
    case Some(e) => Some(if e - baseline < 0.0 then 0.0 else e - baseline)
  }

  /** The panel with `estimated_savings` and `excess_savings`: every row is measured against
      the same baseline, excess is never negative and is null exactly where income is. */
  function CalculateExcessSavings(rows: seq<Cleaned>, cfg: Config): (r: seq<Household>)
    ensures |r| == |rows|
    ensures forall i :: 0 <= i < |rows| ==> r[i].row == rows[i] && r[i].estimated == EstimatedSavings(rows[i], cfg)
    ensures forall i :: 0 <= i < |rows| ==> r[i].excess == ClipExcess(r[i].estimated, Baseline(rows, cfg))
    ensures forall i :: 0 <= i < |rows| ==> (r[i].excess.None? <==> rows[i].income.None?)
    ensures forall i :: 0 <= i < |rows| && r[i].excess.Some? ==> r[i].excess.value >= 0.0
  {
    var b := Baseline(rows, cfg);
    seq(|rows|, i requires 0 <= i < |rows| =>
      var est := EstimatedSavings(rows[i], cfg);
      Household(rows[i], est, ClipExcess(est, b)))
  }

  // ---------------------------------------------------------------------------
  // National scaling

  datatype Scaling = Scaling(
    sampleMeanExcess: real,
    nationalTotal: real,
    benchmarkTotal: real,
    scalingFactor: real)

  predicate PostPandemic(h: Household) {
    h.row.year >= 2020
  }

  predicate PostPandemicWithExcess(h: Household) {
    h.row.year >= 2020 && h.excess.Some?
  }

  /** `total_excess_sample`: the rows from 2020 on, their `excess_savings` with the nulls
      dropped, summed. */
  function SampleTotal(panel: seq<Household>): real {
    Sum(Present(ExcessColumn(Filter(panel, PostPandemic))))
  }

  /** `n_sample`: the number of rows from 2020 on whose excess is not null. */
  function SampleSize(panel: seq<Household>): nat {
    |Filter(panel, PostPandemicWithExcess)|
  }

  /** The non-null excess savings of the rows from 2020 on, in panel order. */
  function PostPandemicExcess(panel: seq<Household>): (xs: seq<real>)
    ensures |xs| == 0 <==> forall i :: 0 <= i < |panel| && panel[i].row.year >= 2020 ==> panel[i].excess.None?
    ensures (forall i :: 0 <= i < |panel| && panel[i].excess.Some? ==> panel[i].excess.value >= 0.0) ==>
      forall k :: 0 <= k < |xs| ==> xs[k] >= 0.0
    ensures xs == Present(ExcessColumn(Filter(panel, PostPandemic)))
  {
    if panel == [] then []
    else
      var rest := PostPandemicExcess(panel[1..]);
      assert forall i :: 1 <= i < |panel| ==> panel[1..][i - 1] == panel[i];
      var tail := Filter(panel[1..], PostPandemic);
      assert ExcessColumn([panel[0]] + tail) == [panel[0].excess] + ExcessColumn(tail);
      if panel[0].row.year >= 2020 && panel[0].excess.Some? then [panel[0].excess.value] + rest
      else rest
  }

  /** The post-2020 sample has `n_sample` values. */
  lemma {:induction false} PostPandemicExcessSize(panel: seq<Household>)
    ensures |PostPandemicExcess(panel)| == SampleSize(panel)
  {
    if panel != [] {
      PostPandemicExcessSize(panel[1..]);
      if PostPandemicWithExcess(panel[0]) {
        assert Filter(panel, PostPandemicWithExcess) == [panel[0]] + Filter(panel[1..], PostPandemicWithExcess);
      }
    }
  }

  /** The national extrapolation: the mean post-2020 excess (`total_excess_sample / n_sample`)
      times the number of households, and the factor that takes that total to the benchmark
      (1 when the total is not positive). No estimate exists when `n_sample` is 0. */
  function NationalScaling(panel: seq<Household>, cfg: Config): (r: Option<Scaling>)
    ensures r.None? <==> SampleSize(panel) == 0
    ensures r.None? <==> forall i :: 0 <= i < |panel| && panel[i].row.year >= 2020 ==> panel[i].excess.None?
    ensures r.Some? ==> r.value.sampleMeanExcess == SampleTotal(panel) / (SampleSize(panel) as real)
    ensures r.Some? ==> r.value.sampleMeanExcess == Mean(PostPandemicExcess(panel))
    ensures r.Some? ==> r.value == ScaledTo(r.value.sampleMeanExcess, cfg)
  {
    var xs := PostPandemicExcess(panel);
    PostPandemicExcessSize(panel);
    if |xs| == 0 then None else Some(ScaledTo(Sum(xs) / (|xs| as real), cfg))
  }

  /** The national total for a sample mean, and the factor that takes it to the benchmark. */
  function ScaledTo(avg: real, cfg: Config): (s: Scaling)
    ensures s.sampleMeanExcess == avg && s.benchmarkTotal == cfg.benchmarkTotal
    ensures s.nationalTotal == avg * cfg.nationalHouseholds
    ensures s.nationalTotal > 0.0 ==> s.scalingFactor * s.nationalTotal == cfg.benchmarkTotal
    ensures s.nationalTotal <= 0.0 ==> s.scalingFactor == 1.0
  {
    var total := avg * cfg.nationalHouseholds;
    Scaling(avg, total, cfg.benchmarkTotal, if total > 0.0 then cfg.benchmarkTotal / total else 1.0)
  }

  /** Excess is never negative, so neither is the sample mean nor, for a non-negative
      household count, the national total. */
  lemma NationalScalingNonNegative(panel: seq<Household>, cfg: Config)
    requires forall i :: 0 <= i < |panel| && panel[i].excess.Some? ==> panel[i].excess.value >= 0.0
    requires cfg.nationalHouseholds >= 0.0
    ensures NationalScaling(panel, cfg).Some? ==>
      NationalScaling(panel, cfg).value.sampleMeanExcess >= 0.0 &&
      NationalScaling(panel, cfg).value.nationalTotal >= 0.0
  {
    var xs := PostPandemicExcess(panel);
    if |xs| > 0 {
      MeanNonNegative(xs);
    }
  }

  // ---------------------------------------------------------------------------
  // Worked examples

  /** One household surveyed in 2016, 2020 and 2022, with an income of 20000 each time and
      the flags its years imply. */
  function ScenarioRows(): seq<Cleaned> {
    [Cleaned(Some(1.0), 2016, "2016", Some(20000.0), 0, 0, 1, None),
     Cleaned(Some(1.0), 2020, "2020", Some(20000.0), 1, 1, 0, None),
     Cleaned(Some(1.0), 2022, "2022", Some(20000.0), 0, 1, 0, None)]
  }

  /** The baseline is 8% of 20000; the pandemic row saves 3600 and keeps 2000 of excess,
      the post-pandemic row saves 2000 and keeps 400. */
  lemma ThreeYearScenario()
    ensures Baseline(ScenarioRows(), SourceConfig) == 1600.0
    ensures var r := CalculateExcessSavings(ScenarioRows(), SourceConfig);
      && r[0].estimated == Some(1600.0) && r[0].excess == Some(0.0)
      && r[1].estimated == Some(3600.0) && r[1].excess == Some(2000.0)
      && r[2].estimated == Some(2000.0) && r[2].excess == Some(400.0)
  {
    var rows := ScenarioRows();
    var es := EstimatesIn(rows, SourceConfig, InBaselineWindow);
    assert EstimatesIn(rows[2..], SourceConfig, InBaselineWindow) == [];
    assert EstimatesIn(rows[1..], SourceConfig, InBaselineWindow) == [];
    assert es == [Some(1600.0)];
    assert Present(es) == [1600.0];
    assert Mean([1600.0]) == 1600.0;
  }

  /** A sample mean excess of 1000 per household over 28 million households gives a national
      total of 28 billion and a factor of 200/28 to the benchmark. */
  lemma NationalScalingScenario()
    ensures var panel := [Household(Cleaned(Some(1.0), 2020, "2020", Some(20000.0), 1, 1, 0, None), Some(3600.0), Some(1000.0))];
      NationalScaling(panel, SourceConfig) == Some(Scaling(1000.0, 28000000000.0, 200000000000.0, 200.0 / 28.0))
  {
    var panel := [Household(Cleaned(Some(1.0), 2020, "2020", Some(20000.0), 1, 1, 0, None), Some(3600.0), Some(1000.0))];
    assert PostPandemicExcess(panel[1..]) == [];
    assert PostPandemicExcess(panel) == [1000.0];
  }
}
