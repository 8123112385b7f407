/** The canonical household panel: the observation each loaded sheet row becomes, the
    regime flags and income deciles added to it, the savings columns added after that,
    and the policy constants of the estimate. */
module Panel {
  import opened Wrappers
  import opened Stats
  import Text

  /** One household in one survey wave after the sheets are reconciled
      (`subsid`, `survey_year`, `survey_wave`, `total_hh_income`). */
  datatype Observation = Observation(
    householdId: Option<real>,
    year: int,
    wave: string,
    income: Option<real>)

  /** An observation with its regime flags (0/1 integers) and its income decile. */
  datatype Cleaned = Cleaned(
    householdId: Option<real>,
    year: int,
    wave: string,
    income: Option<real>,
    pandemicPeriod: int,
    post2020: int,
    prePandemic: int,
    decile: Option<nat>)

  /** A cleaned row with its estimated and excess savings: one row of the saved panel. */
  datatype Household = Household(row: Cleaned, estimated: Option<real>, excess: Option<real>)

  /** The policy constants of the estimate: the three savings rates, the baseline used when
      no pre-pandemic savings exist, the number of UK households and the external
      benchmark total. */
  datatype Config = Config(
    pandemicRate: real,
    postRate: real,
    preRate: real,
    defaultBaseline: real,
    nationalHouseholds: real,
    benchmarkTotal: real)

  const SourceConfig: Config := Config(0.18, 0.10, 0.08, 2000.0, 28000000.0, 200000000000.0)

  /** A rate configuration whose rates cannot turn a non-negative income negative. */
  predicate NonNegativeRates(cfg: Config) {
    cfg.pandemicRate >= 0.0 && cfg.postRate >= 0.0 && cfg.preRate >= 0.0
  }

  function Flag(b: bool): int {
    if b then 1 else 0
  }

  datatype RegimeFlags = RegimeFlags(pandemicPeriod: int, post2020: int, prePandemic: int)

  /** The three period indicators as pure functions of the survey year. */
  function Flags(year: int): (f: RegimeFlags)
    ensures f.pandemicPeriod == 1 <==> 2020 <= year <= 2021
    ensures f.post2020 == 1 <==> year >= 2020
    ensures f.prePandemic == 1 <==> year < 2020
    ensures f.pandemicPeriod in {0, 1} && f.post2020 in {0, 1} && f.prePandemic in {0, 1}
    ensures f.prePandemic + f.post2020 == 1
    ensures f.pandemicPeriod == 1 ==> f.post2020 == 1
  {
    RegimeFlags(Flag(2020 <= year <= 2021), Flag(year >= 2020), Flag(year < 2020))
  }

  // ---------------------------------------------------------------------------
  // Income deciles, computed over every non-null income of the whole panel

  /** How many of xs lie strictly below x. */
  function CountBelow(xs: seq<real>, x: real): (n: nat)
    ensures n <= |xs|
    ensures x in xs ==> n < |xs|
  {
    if xs == [] then 0 else (if xs[0] < x then 1 else 0) + CountBelow(xs[1..], x)
  }

  lemma {:induction false} CountBelowMonotone(xs: seq<real>, x: real, y: real)
    requires x <= y
    ensures CountBelow(xs, x) <= CountBelow(xs, y)
  {
    if xs != [] {
      CountBelowMonotone(xs[1..], x, y);
    }
  }

  lemma {:induction false} CountBelowMinimum(xs: seq<real>, x: real)
    requires forall i :: 0 <= i < |xs| ==> x <= xs[i]
    ensures CountBelow(xs, x) == 0
  {
    if xs != [] {
      CountBelowMinimum(xs[1..], x);
    }
  }

  lemma DivMonotone(a: nat, b: nat, n: nat)
    requires a <= b && n > 0
    ensures a / n <= b / n
  {
    var qa, qb := a / n, b / n;
    assert qa * n <= a;
    assert b < (qb + 1) * n;
    assert qa * n < (qb + 1) * n;
  }

  /** The decile of income x among all incomes xs: its rank-based quantile group, 1 for the
      lowest incomes up to 10 for the highest. */
  function DecileOf(xs: seq<real>, x: real): (d: nat)
    requires x in xs
    ensures 1 <= d <= 10
  {
    var c := CountBelow(xs, x);
    DivBelowTen(10 * c, |xs|);
    1 + (10 * c) / |xs|
  }

  lemma DivBelowTen(a: nat, n: nat)
    requires a < 10 * n
    ensures a / n < 10
  {
    var q := a / n;
    assert q * n <= a;
    assert (10 - q) * n > 0;
  }

  /** A higher income never gets a lower decile. */
  lemma DecileOfMonotone(xs: seq<real>, x: real, y: real)
    requires x in xs && y in xs && x <= y
    ensures DecileOf(xs, x) <= DecileOf(xs, y)
  {
    CountBelowMonotone(xs, x, y);
    DivMonotone(10 * CountBelow(xs, x), 10 * CountBelow(xs, y), |xs|);
  }

  /** The lowest income is in decile 1. */
  lemma DecileOfMinimum(xs: seq<real>, x: real)
    requires x in xs
    requires forall i :: 0 <= i < |xs| ==> x <= xs[i]
    ensures DecileOf(xs, x) == 1
  {
    CountBelowMinimum(xs, x);
  }

  function Incomes(obs: seq<Observation>): (xs: seq<Option<real>>)
    ensures |xs| == |obs|
    ensures forall i :: 0 <= i < |obs| ==> xs[i] == obs[i].income
  {
    seq(|obs|, i requires 0 <= i < |obs| => obs[i].income)
  }

  /** `qcut(10)` over the whole panel's incomes: null where the income is null. */
  function AssignDeciles(obs: seq<Observation>): (ds: seq<Option<nat>>)
    ensures |ds| == |obs|
    ensures forall i :: 0 <= i < |obs| ==> (ds[i].None? <==> obs[i].income.None?)
    ensures forall i :: 0 <= i < |obs| && ds[i].Some? ==> 1 <= ds[i].value <= 10
  {
    var xs := Present(Incomes(obs));
    seq(|obs|, i requires 0 <= i < |obs| =>
      match obs[i].income
      case None => None
      case Some(x) =>
        assert Incomes(obs)[i] == Some(x);
        Some(DecileOf(xs, x)))
  }

  /** Deciles order households by income across all years together. */
  lemma AssignDecilesMonotone(obs: seq<Observation>, i: nat, j: nat)
    requires i < |obs| && j < |obs|
    requires obs[i].income.Some? && obs[j].income.Some?
    requires obs[i].income.value <= obs[j].income.value
    ensures AssignDeciles(obs)[i].value <= AssignDeciles(obs)[j].value
  {
    var xs := Present(Incomes(obs));
    assert Incomes(obs)[i] == obs[i].income && Incomes(obs)[j] == obs[j].income;
    DecileOfMonotone(xs, obs[i].income.value, obs[j].income.value);
  }

  /** The decile label `D1` .. `D10`. */
  function Label(d: nat): string {
    "D" + Text.NatToString(d)
  }

  lemma LabelInjective(d: nat, e: nat)
    requires Label(d) == Label(e)
    ensures d == e
  {
    assert Label(d)[1..] == Text.NatToString(d);
    assert Label(e)[1..] == Text.NatToString(e);
    Text.ParseNatToString(d);
    Text.ParseNatToString(e);
  }

  /** Adds the regime flags and the deciles to every observation
      (the `with_columns` steps of `load_and_clean_nmg`). */
  function Clean(obs: seq<Observation>): (rows: seq<Cleaned>)
    ensures |rows| == |obs|
    ensures forall i :: 0 <= i < |obs| ==>
      && rows[i].householdId == obs[i].householdId
      && rows[i].year == obs[i].year
      && rows[i].wave == obs[i].wave
      && rows[i].income == obs[i].income
      && RegimeFlags(rows[i].pandemicPeriod, rows[i].post2020, rows[i].prePandemic) == Flags(obs[i].year)
      && rows[i].decile == AssignDeciles(obs)[i]
  {
    var ds := AssignDeciles(obs);
    seq(|obs|, i requires 0 <= i < |obs| =>
      var f := Flags(obs[i].year);
      Cleaned(obs[i].householdId, obs[i].year, obs[i].wave, obs[i].income,
              f.pandemicPeriod, f.post2020, f.prePandemic, ds[i]))
  }

  // ---------------------------------------------------------------------------
  // Columns of the saved panel

  function YearOf(h: Household): int {
    h.row.year
  }

  function IncomeColumn(rows: seq<Household>): (xs: seq<Option<real>>)
    ensures |xs| == |rows| && forall i :: 0 <= i < |rows| ==> xs[i] == rows[i].row.income
  {
    seq(|rows|, i requires 0 <= i < |rows| => rows[i].row.income)
  }

  function SavingsColumn(rows: seq<Household>): (xs: seq<Option<real>>)
    ensures |xs| == |rows| && forall i :: 0 <= i < |rows| ==> xs[i] == rows[i].estimated
  {
    seq(|rows|, i requires 0 <= i < |rows| => rows[i].estimated)
  }

  function ExcessColumn(rows: seq<Household>): (xs: seq<Option<real>>)
    ensures |xs| == |rows| && forall i :: 0 <= i < |rows| ==> xs[i] == rows[i].excess
  {
    seq(|rows|, i requires 0 <= i < |rows| => rows[i].excess)
  }

  /** Every present excess is non-negative (what `CalculateExcessSavings` guarantees). */
  predicate ExcessNonNegative(rows: seq<Household>) {
    forall i :: 0 <= i < |rows| && rows[i].excess.Some? ==> rows[i].excess.value >= 0.0
  }
}
