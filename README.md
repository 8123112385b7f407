# UK pandemic excess savings: a verified model of the estimation pipeline

This project models the computational core of a small analysis of the Bank of England NMG
household survey. The analysis estimates how much "excess" saving UK households built up
during and after the COVID-19 pandemic.

- **Loader** (`load_nmg_smart.py`):
  - finds columns by case-insensitive keyword;
  - sums each row's `qincomefreev2_n_*` income sources in place, keeping "every source
    missing" (null) apart from "summed to 0";
  - maps sheet names to survey years, with both 2025 waves mapping to 2025;
  - skips sheets that fail to load and concatenates the rest.
- **Cleaning and estimation** (`load_nmg_smart.py`):
  - regime flags and income deciles over the whole panel;
  - a savings-rate proxy of 18% / 10% / 8%;
  - one pre-pandemic baseline, chosen through a three-step fallback chain;
  - excess savings clipped at zero;
  - the national extrapolation and its scaling factor.
- **Yearly time series** (`load_nmg_smart.py`): one row per survey year in ascending order,
  with means and counts, a least-squares counterfactual line fitted on 2016-2019, and the
  running total of mean excess.
- **Analysis page** (`new_revised.py`): period statistics with their change from the
  baseline, income coverage, the per-decile table, and the bottom/top three-decile split.
- **Dashboard** (`app.py`): the quarterly view, plus the regression sample and per-decile
  summary loop of `run_regressions`. The model fits themselves are not modelled.

Monetary values are `real`. Every nullable column is an `Option`. The policy constants
(0.18, 0.10, 0.08, a default baseline of 2000, 28,000,000 households and a £200bn benchmark)
are the fields of `Panel.SourceConfig`.

Modules, one per file:

| file | module | role |
|---|---|---|
| `wrappers.dfy` | `Wrappers` | `Option` and `Result` |
| `text.dfy` | `Text` | ASCII lower-casing, substring search, decimal rendering and parsing |
| `stats.dfy` | `Stats` | null-skipping sum and mean, `fillna(0)` |
| `grouping.dfy` | `Grouping` | filters and group-by over integer keys |
| `panel.dfy` | `Panel` | row datatypes, regime flags, deciles, labels, constants |
| `excess.dfy` | `Excess` | `calculate_excess_savings` |
| `loader.dfy` | `Loader` | `find_columns`, `sum_income_sources`, the sheet loop, `load_and_clean_nmg` |
| `leastsquares.dfy` | `LeastSquares` | closed-form least-squares line and its optimality |
| `timeseries.dfy` | `TimeSeries` | `create_time_series` |
| `analysis.dfy` | `Analysis` | `calculate_statistics`, `analyze_by_decile`, the bottom/top split |
| `dashboard.dfy` | `Dashboard` | `prepare_quarterly_view`, `run_regressions` without the fits |

Polars' `cum_sum` (load_nmg_smart.py:256-258) leaves a null at a null position and sums the
present values; `TimeSeries.CumulativeFrom` models that.

## Model

| member | source | states |
|---|---|---|
| Text.ParseIntToString | load_nmg_smart.py:58 | `int(str(n)) == n`: parsing a rendered year gives the year back |
| Text.IntToStringInjective | load_nmg_smart.py:58 | distinct years render to distinct strings |
| Text.ContainsPair | new_revised.py:454-455 | in a two-letter label, a two-letter pattern is found only as the whole label |
| Text.ContainsAt | new_revised.py:454-455 | `needle in hay` holds exactly when the needle occurs at some position of the label |
| Text.NotContainsLonger | new_revised.py:454-455 | a pattern longer than the label is never found (`D10` is not in `D1`) |
| Stats.MeanOpt | new_revised.py:49-50 | a column mean is null exactly when every value of the column is null |
| Stats.MeanOptBounds | new_revised.py:57-59 | the mean of present values in [lo, hi] lies in [lo, hi] |
| Stats.MeanOptNonNegative | load_nmg_smart.py:215-217 | the mean of non-negative present values is non-negative |
| Stats.SumFillZero | load_nmg_smart.py:26 | summing after `fillna(0)` equals summing the present values |
| Stats.CountPresent | load_nmg_smart.py:220 | `drop_nulls().len()` is at most the row count, and 0 exactly when all values are null |
| Grouping.Filter | load_nmg_smart.py:146-149 | a filter keeps exactly the rows satisfying the predicate, never more rows than it was given |
| Grouping.DistinctSorted | load_nmg_smart.py:215-221 | group keys are strictly ascending, one per key that occurs |
| Grouping.GroupSize | load_nmg_smart.py:219 | `pl.len()` of a group is the number of rows carrying its key |
| Grouping.GroupSizesTotal | new_revised.py:114-119 | groups for all occurring keys partition the rows: their sizes add up to the row count |
| Panel.Flags | load_nmg_smart.py:95-105 | `pandemic_period` = 1 iff 2020 ≤ y ≤ 2021, `post_2020` = 1 iff y ≥ 2020, `pre_pandemic` = 1 iff y < 2020; all are 0/1, and exactly one of `pre_pandemic` and `post_2020` is set |
| Panel.DecileOf | load_nmg_smart.py:108-112 | every decile lies in 1..10 |
| Panel.DecileOfMonotone | load_nmg_smart.py:108-112 | a higher income never gets a lower decile |
| Panel.DecileOfMinimum | load_nmg_smart.py:108-112 | the lowest income is in decile 1 |
| Panel.AssignDeciles | load_nmg_smart.py:108-112 | the decile is null exactly where the income is null, and otherwise lies in 1..10 |
| Panel.AssignDecilesMonotone | load_nmg_smart.py:108-112 | deciles order households by income across all years together |
| Panel.LabelInjective | load_nmg_smart.py:110 | the labels `D1`..`D10` name distinct deciles |
| Panel.Clean | load_nmg_smart.py:85-112 | cleaning keeps the id, year, wave and income of every row, adds the flags of its year and the decile from the whole panel |
| Excess.Rate | load_nmg_smart.py:136-143 | the rate is one of the three configured rates, and non-negative when they all are |
| Excess.SourceRateByYear | load_nmg_smart.py:136-143 | with year-derived flags, the rate is 0.18 for 2020-2021, 0.10 from 2022 and 0.08 before 2020 |
| Excess.EstimatedSavings | load_nmg_smart.py:136-143 | `estimated_savings` is null iff income is null, and non-negative for non-negative income and rates |
| Excess.EstimatesIn | load_nmg_smart.py:146-149 | a window holds no estimate exactly when none of its rows has an income |
| Excess.Baseline | load_nmg_smart.py:145-160 | the 2016-2019 mean when some row there has an income; else the pre-2020 mean when some pre-2020 row has one; else the default 2000; it never fails |
| Excess.BaselineIgnoresLaterYears | load_nmg_smart.py:145-160 | rows from 2020 on never change the baseline |
| Excess.BaselineNonNegative | load_nmg_smart.py:145-160 | with non-negative incomes, rates and default, the baseline is non-negative |
| Excess.ClipExcess | load_nmg_smart.py:165-169 | `clip(lower_bound=0)`: null iff the estimate is null, never negative, and equal to 0 or to estimate − baseline |
| Excess.CalculateExcessSavings | load_nmg_smart.py:123-169 | every row is measured against the one baseline; its excess is null iff its income is null and is never negative |
| Excess.ThreeYearScenario | load_nmg_smart.py:136-169 | incomes of 20000 in 2016, 2020 and 2022 give a baseline of 1600 and excess of 0, 2000 and 400 |
| Excess.PostPandemicExcess | load_nmg_smart.py:190-197 | the sample is the present `excess_savings` of the rows from 2020 on, in panel order; it is empty exactly when none of them has one, and non-negative when every excess is |
| Excess.PostPandemicExcessSize | load_nmg_smart.py:190-197 | the sample has one value per row from 2020 on with an excess |
| Excess.ScaledTo | load_nmg_smart.py:199-206 | total = mean × households; factor × total = benchmark when total > 0, else factor = 1 |
| Excess.NationalScaling | load_nmg_smart.py:186-210 | no estimate exactly when no row from 2020 on has an excess; otherwise the sample mean is the total of those excesses over their count, and the national figures are `ScaledTo` that mean |
| Excess.NationalScalingNonNegative | load_nmg_smart.py:199-201 | the sample mean and the national total are non-negative |
| Excess.NationalScalingScenario | load_nmg_smart.py:199-206 | a mean excess of 1000 gives a national total of 28bn and a factor of 200/28 |
| Loader.MatchingColumns | load_nmg_smart.py:10-18 | a column is returned iff its lower-cased name contains some lower-cased keyword |
| Loader.MatchingColumnsAppend | load_nmg_smart.py:14-17 | matches keep the original column order |
| Loader.FindColumns | load_nmg_smart.py:10-18 | the loop returns exactly the matching columns, in column order |
| Loader.IncomeColumns | load_nmg_smart.py:22 | a column is an income source iff its lower-cased name contains `qincomefreev2_n_` |
| Loader.IncomeColumnsFound | load_nmg_smart.py:22 | the income-source search is `find_columns` with the one keyword |
| Loader.TotalIncomeNotASource | load_nmg_smart.py:22-26 | the written `total_hh_income` column is never one of its own sources |
| Loader.RowIncome | load_nmg_smart.py:20-33 | a row's income is null iff every source is missing, otherwise the sum of the present sources |
| Loader.ZeroIncomeIsNotNull | load_nmg_smart.py:26-29 | a row whose present sources are all 0 gets income 0, not null |
| Loader.FillThenMask | load_nmg_smart.py:26-29 | filling with the zero-filled sum and then nulling all-missing rows gives each row its `RowIncome` |
| Loader.Frame.constructor | load_nmg_smart.py:51 | the frame holds the sheet as read |
| Loader.Frame.SumIncomeSources | load_nmg_smart.py:20-33 | in place: every row gets its `RowIncome` (all null without sources), and the column is added once |
| Loader.Waves2025 | load_nmg_smart.py:54-56 | `March 2025` and `September 2025` both map to 2025 |
| Loader.SheetYear | load_nmg_smart.py:54-59 | a sheet's year is 2025 or its name parsed as an integer, and every name that parses gets a year |
| Loader.NumericSheet | load_nmg_smart.py:57-59 | a four-digit sheet name maps to that year |
| Loader.LoadOne | load_nmg_smart.py:50-71 | a sheet contributes one table iff it could be read and its name converts to a year |
| Loader.LoadedSheets | load_nmg_smart.py:48-71 | at most one table per sheet, and every collected table comes from loading some sheet |
| Loader.LoadedSheetsAppend | load_nmg_smart.py:49-71 | a failing sheet is skipped and the sheets after it still load |
| Loader.LoadedSheetsEmpty | load_nmg_smart.py:48-73 | nothing is collected exactly when every sheet fails |
| Loader.LoadSheets | load_nmg_smart.py:48-71 | the loop collects exactly the sheets that load, in sheet order |
| Loader.LoadAndClean | load_nmg_smart.py:35-120 | fails when no sheet loads, or when no loaded sheet has `subsid`; otherwise returns the cleaned, savings-annotated panel |
| LeastSquares.SpreadPositive | load_nmg_smart.py:235-242 | two or more distinct years give a positive spread, so the fit is defined |
| LeastSquares.FitLine | load_nmg_smart.py:242 | residuals of the fitted line sum to 0 and are orthogonal to the years |
| LeastSquares.FitLineIsLeastSquares | load_nmg_smart.py:242 | no line has a smaller squared error than the fitted one |
| LeastSquares.SquaredErrorSplit | load_nmg_smart.py:242 | any line's squared error is the fit's plus a cross term plus a non-negative gap |
| TimeSeries.SummarizeYear | load_nmg_smart.py:215-221 | `n_households` counts the year's rows; `n_with_income` ≤ `n_households`, and is 0 iff `avg_income` is null iff no row has an income |
| TimeSeries.Aggregate | load_nmg_smart.py:215-221 | one row per year that occurs, strictly ascending, each with at least one household |
| TimeSeries.AggregateCountsEveryHousehold | load_nmg_smart.py:215-221 | the `n_households` values add up to the number of panel rows |
| TimeSeries.AggregateExcessNonNegative | load_nmg_smart.py:217 | with non-negative household excess, every yearly mean excess is non-negative |
| TimeSeries.TrendPoints | load_nmg_smart.py:224-238 | the points lie in 2016-2019 in increasing year order, and every 2016-2019 row with a mean savings gives one |
| TimeSeries.PointsOf | load_nmg_smart.py:233-238 | one point (year, mean savings) per row, in row order |
| TimeSeries.TrendPointsMaskThenTake | load_nmg_smart.py:224-238 | the points are exactly those of the 2016-2019 rows with a mean savings, in row order |
| TimeSeries.TrendPointsAreTrendRows | load_nmg_smart.py:224-238 | there is one point per qualifying row, and every point comes from a qualifying row |
| TimeSeries.Trend | load_nmg_smart.py:230-253 | a line is fitted iff at least two 2016-2019 rows have a mean savings, and it satisfies the normal equations |
| TimeSeries.Counterfactual | load_nmg_smart.py:243-253 | a counterfactual exists iff a line was fitted, and it lies on that line at the row's year |
| TimeSeries.TrendIsLeastSquares | load_nmg_smart.py:242 | the counterfactual line fits the 2016-2019 savings at least as well as any other line |
| TimeSeries.CumulativeFrom | load_nmg_smart.py:256-258 | `cum_sum`: null where the input is null, otherwise the sum of the present values so far |
| TimeSeries.CumulativeStep | load_nmg_smart.py:256-258 | running totals of the tail, started after the head, are running totals of the whole column |
| TimeSeries.CumulativeMonotone | load_nmg_smart.py:256-258 | with non-negative values, the running total never decreases |
| TimeSeries.CumulativeScenario | load_nmg_smart.py:256-258 | yearly means of 0, 2000 and 400 give a cumulative excess of 2400 |
| TimeSeries.WithTrendAndCumulative | load_nmg_smart.py:224-258 | the counterfactual is on every row or on none, and the cumulative excess is null only where the mean excess is |
| TimeSeries.CreateTimeSeries | load_nmg_smart.py:214-260 | the yearly table is the aggregate in strictly ascending year order, with trend and cumulative columns |
| TimeSeries.TimeSeriesCumulativeMonotone | load_nmg_smart.py:256-258 | in the saved table, `cumulative_excess` never decreases across years |
| Analysis.WindowsPartition | new_revised.py:45-64 | the baseline, pandemic and post windows are pairwise disjoint and cover every year from 2016 |
| Analysis.WindowSavings | new_revised.py:45-68 | a window's mean savings is null exactly when no row of the window has one |
| Analysis.ChangeFromBaselineAsWritten | new_revised.py:84-90 | the written expression raises exactly when the baseline is non-zero and the period mean is null |
| Analysis.ChangeFromBaselineFailsWithoutPandemicRows | new_revised.py:53-84 | a table with a 2016 row and no 2020-2021 row makes the written expression raise |
| Analysis.ChangeFromBaseline | new_revised.py:84-90 | the change exists iff both means exist and the baseline is non-zero, and baseline + change = period mean |
| Analysis.ChangeFromBaselineAgrees | new_revised.py:84-90 | wherever the written expression succeeds, it gives the intended value |
| Analysis.CoverageRate | new_revised.py:71-73 | the coverage lies in [0, 100], is 0 iff the panel is empty or no row has an income, and is 100 when every row has one |
| Analysis.Quality | new_revised.py:70-73 | `obs_with_income` ≤ `total_obs`; the coverage is 0 exactly when no observation has an income |
| Analysis.CalculateStatistics | new_revised.py:41-97 | each period mean is null iff no row in its window has a mean savings; each change is defined iff both means exist and the baseline is non-zero, and then adds back to the period's mean |
| Analysis.SummarizeDecile | new_revised.py:114-118 | a decile row counts exactly the sample rows of that decile |
| Analysis.DecileTable | new_revised.py:114-119 | one row per decile present, strictly ascending, each with at least one household |
| Analysis.AnalyzeByDecile | new_revised.py:100-121 | null iff fewer than 100 post-2020 rows have an income and a decile; otherwise the decile table of those rows |
| Analysis.SampleKeys | new_revised.py:104-108 | the sample's deciles are exactly the deciles of post-2020 rows with income and decile |
| Analysis.DecileTableCountsSample | new_revised.py:114-119 | the group sizes of any sample's decile table add up to that sample's size |
| Analysis.AnalyzeByDecileCountsSample | new_revised.py:114-119 | the `n_households` values add up to the sample size |
| Analysis.InBottomAsWritten | new_revised.py:454 | the label matches when `D` followed by 1, 2 or 3 occurs at some position |
| Analysis.InTopAsWritten | new_revised.py:455 | the label matches when `D8`, `D9` or `D10` occurs at some position |
| Analysis.BottomAsWrittenLabels | new_revised.py:454 | the written bottom filter selects D1, D2, D3 and also D10 |
| Analysis.TopAsWrittenLabels | new_revised.py:455 | the written top filter selects exactly D8, D9 and D10 |
| Analysis.BottomAndTopOverlapOnD10 | new_revised.py:454-455 | D10 falls in both written groups |
| Analysis.BottomTopSplit | new_revised.py:454-455 | the intended groups are disjoint; they agree with the written filters except that D10 leaves the bottom group |
| Analysis.BottomTopExcess | new_revised.py:454-455 | the corrected split by decile number: each group's mean is the mean of its rows' `avg_excess` (deciles 1-3 and 8-10), null iff none has one; no row is in both groups |
| Analysis.BottomTopExcessAsWritten | new_revised.py:454-455 | the written split: each mean is the mean of `avg_excess` over the rows whose label the written pattern matches |
| Analysis.BottomTopExcessAsWrittenAgrees | new_revised.py:454-455 | the written top mean always equals the corrected one, and the bottom means agree when no D10 row is present |
| Analysis.BottomExcessAsWrittenExample | new_revised.py:454-455 | D1 = 100 and D10 = 900 give a written bottom mean of 500, where the corrected mean is 100 |
| Dashboard.Quarter | app.py:58-65 | a quarter row copies the year and its four values unchanged (no interpolation) under the label `<year>Q<q>` |
| Dashboard.PrepareQuarterlyView | app.py:49-67 | four rows per yearly row, in input order; row k is quarter k mod 4 + 1 of yearly row k div 4 |
| Dashboard.QuarterLabel | app.py:59 | `<year>Q<q>` ends in `Q` and the quarter digit, and the part before parses back to the year |
| Dashboard.QuarterLabelInjective | app.py:59 | two quarter labels are equal only for the same quarter of the same year |
| Dashboard.QuarterLabelsDistinct | app.py:54-65 | for yearly rows in ascending year order, no two quarter rows share a label |
| Dashboard.QuarterLabelAsWrittenDiffers | app.py:55-59 | with a fitted counterfactual, every written label differs from `<year>Q<q>` |
| Dashboard.QuarterLabelAsWrittenExample | app.py:55-59 | a one-year table with a counterfactual gets `2016.0Q1` where `2016Q1` is meant |
| Dashboard.RegressionSample | app.py:79 | the sample is exactly the rows with both `gross_income` and `excess_savings` present |
| Dashboard.RowsLabelled | app.py:115 | matching the label `D{d}` keeps exactly the sample rows of decile d |
| Dashboard.DecileResultOf | app.py:116-124 | a summary carries the decile it was computed for |
| Dashboard.SavingsRate | app.py:123 | rate × income = excess × 100 when income > 0, else 0; non-negative for non-negative excess |
| Dashboard.DecileResultRate | app.py:117-124 | a decile's mean excess and mean income are the column means of its rows, its savings rate is `SavingsRate` of the two, and its mean excess is non-negative when every excess in its rows is |
| Dashboard.QualifyingDeciles | app.py:114-116 | every kept decile has more than 50 sample rows |
| Dashboard.QualifyingAscending | app.py:114 | kept deciles are strictly ascending and lie in 1..10 |
| Dashboard.QualifyingComplete | app.py:114-116 | a decile is kept iff it lies in 1..10 and has more than 50 sample rows |
| Dashboard.DecileResultsStep | app.py:115-124 | each pass of the loop appends its decile's summary exactly when the decile qualifies |
| Dashboard.DecileResultsShape | app.py:113-126 | the summary's deciles are the qualifying ones, ascending, each entry summarising its own decile's rows |
| Dashboard.RunRegressions | app.py:74-128 | no result below 100 sample rows; otherwise the sample size and the decile summary, null when no decile qualifies |
| Dashboard.SavingsRatesNonNegative | app.py:123 | with non-negative excess in the panel, every reported savings rate is non-negative |

## Left out

- Reading the workbook, the Parquet and CSV files, `os.makedirs`, and every `print`. A
  sheet arrives as a `Loader.SheetInput` whose table is absent when reading raised. The
  tables the analysis and dashboard read are parameters.
- The per-period means printed inside `calculate_excess_savings` (load_nmg_smart.py:171-184).
  They are only printed.
- The statsmodels OLS fits and log transforms of `run_regressions` (app.py:85-110), and the
  exception path around them. These are a foreign library with floating-point logarithms.
- Streamlit layout, caching and every Plotly chart. These are display code.
- Floating point. All arithmetic is on `real`, so rounding in means, in the fit and in the
  scaling factor is not modelled.
- Panel.DecileOf: polars `qcut(10, allow_duplicates=True)` is modelled by rank: the decile is
  1 + ⌊10·(number of lower incomes)/N⌋. The model proves monotonicity, the range 1..10 and
  null-iff-no-income. It does not reproduce polars' quantile interpolation at the bin
  edges, nor the balanced-bin-size property.
- LeastSquares.FitLine: `np.polyfit` is modelled by the closed-form least-squares line over
  reals, not by its numerical algorithm.
- Text.ParseInt: Python's `int(sheet)` also accepts surrounding whitespace, `+` and digit
  underscores. The model accepts only an optional `-` followed by decimal digits.
- Text.Lower: only ASCII letters are lower-cased. Python's `str.lower` also folds other
  Unicode letters.
- Analysis.DecileTable: rows are ordered by decile number. The source sorts the categorical
  `income_decile` column, and the order polars gives categories is not modelled.
- Missing pandas values: NaN and `None` are both modelled as an absent value.
- The panel's `household_id` is carried as an optional number and never interpreted.
- Dashboard.PrepareQuarterlyView: the quarterly `year` column holds the integer year. The
  float upcast of the written code appears only in the label model
  (`Dashboard.QuarterLabelAsWritten`).

## Findings

| source | as written | input that shows it | evidently intended | confidence | as-written member | corrected member |
|---|---|---|---|---|---|---|
| new_revised.py:454 | the bottom group is the rows whose label matches the regex `D[1-3]` anywhere | the D10 row: `D10` contains `D1`, so D10 is averaged into both the bottom and the top group | bottom = D1, D2, D3 only | high; not executed | Analysis.BottomExcessAsWrittenExample | Analysis.BottomTopExcess |
| new_revised.py:84-90 | `period_savings - baseline_savings if baseline_savings else None` | a yearly table with a 2016 row and no 2020-2021 row: the pandemic mean is `None`, and `None - 1600.0` raises `TypeError` | null change when either mean is missing | medium; not executed | Analysis.ChangeFromBaselineFailsWithoutPandemicRows | Analysis.ChangeFromBaseline |
| app.py:55-59 | `f"{year}Q{q}"` with `year` read from `iterrows` | a yearly table with a fitted counterfactual is all-numeric, so each row comes back as a float Series and the label is `2016.0Q1` | `2016Q1` | medium; not executed | Dashboard.QuarterLabelAsWrittenExample | Dashboard.QuarterLabelInjective |
