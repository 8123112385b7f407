/** The loader of `load_nmg_smart.py`: keyword search over column names, the per-row sum
    of the `qincomefreev2_n_*` income sources (null when every source is missing), the
    sheet-name to survey-year mapping, and the sheet loop that skips sheets that fail and
    concatenates the rest into the cleaned, savings-annotated panel. */
module Loader {
  import opened Wrappers
  import opened Text
  import opened Stats
  import opened Panel
  import opened Excess

  /** A raw sheet row: column name to cell, a missing key or a null cell read as null. */
  type Row = map<string, Option<real>>

  datatype RawSheet = RawSheet(columns: seq<string>, rows: seq<Row>)

  function Cell(row: Row, c: string): Option<real> {
    if c in row then row[c] else None
  }

  // ---------------------------------------------------------------------------
  // find_columns

  /** Some keyword, lower-cased, occurs in the lower-cased column name. */
  predicate MatchesAny(col: string, keywords: seq<string>) {
    exists kw :: kw in keywords && Contains(Lower(col), Lower(kw))
  }

  /** The columns matching some keyword, in their original order. */
  function MatchingColumns(columns: seq<string>, keywords: seq<string>): (r: seq<string>)
    ensures forall c :: c in r <==> c in columns && MatchesAny(c, keywords)
  {
    if columns == [] then []
    else if MatchesAny(columns[0], keywords) then [columns[0]] + MatchingColumns(columns[1..], keywords)
    else MatchingColumns(columns[1..], keywords)
  }

  /** Matching distributes over concatenation: the result keeps the column order. */
  lemma {:induction false} MatchingColumnsAppend(a: seq<string>, b: seq<string>, keywords: seq<string>)
    ensures MatchingColumns(a + b, keywords) == MatchingColumns(a, keywords) + MatchingColumns(b, keywords)
  {
    if a == [] {
      assert a + b == b;
    } else {
      assert (a + b)[1..] == a[1..] + b;
      MatchingColumnsAppend(a[1..], b, keywords);
    }
  }

  /** `find_columns`: scans the columns once, appending each one that matches. */
  method FindColumns(columns: seq<string>, keywords: seq<string>) returns (matches: seq<string>)
    ensures matches == MatchingColumns(columns, keywords)
  {
    matches := [];
    for i := 0 to |columns|
      invariant matches == MatchingColumns(columns[..i], keywords)
    {
      var colLower := Lower(columns[i]);
      var hit := exists kw :: kw in keywords && Contains(colLower, Lower(kw));
      MatchingColumnsAppend(columns[..i], [columns[i]], keywords);
      assert columns[..i + 1] == columns[..i] + [columns[i]];
      if hit {
        matches := matches + [columns[i]];
      }
    }
    assert columns[..|columns|] == columns;
  }

  // ---------------------------------------------------------------------------
  // sum_income_sources

  const IncomeKeyword: string := "qincomefreev2_n_"
  const TotalIncome: string := "total_hh_income"
  const HouseholdIdColumn: string := "subsid"

  /** The income-source columns: those whose lower-cased name contains the keyword. */
  function IncomeColumns(columns: seq<string>): (r: seq<string>)
    ensures forall c :: c in r <==> c in columns && Contains(Lower(c), IncomeKeyword)
  {
    if columns == [] then []
    else if Contains(Lower(columns[0]), IncomeKeyword) then [columns[0]] + IncomeColumns(columns[1..])
    else IncomeColumns(columns[1..])
  }

  lemma {:induction false} LowerOfLowerCase(s: string)
    requires forall i :: 0 <= i < |s| ==> !('A' <= s[i] <= 'Z')
    ensures Lower(s) == s
  {
    if s != [] {
      LowerOfLowerCase(s[1..]);
    }
  }

  lemma KeywordIsLowerCase()
    ensures Lower(IncomeKeyword) == IncomeKeyword
  {
    var s := IncomeKeyword;
    forall i | 0 <= i < |s| ensures !('A' <= s[i] <= 'Z') {
      assert 'a' <= s[i] <= 'z' || '0' <= s[i] <= '9' || s[i] == '_';
    }
    LowerOfLowerCase(s);
  }

  /** The income columns are exactly what `find_columns` returns for the income keyword. */
  lemma {:induction false} IncomeColumnsFound(columns: seq<string>)
    ensures IncomeColumns(columns) == MatchingColumns(columns, [IncomeKeyword])
  {
    if columns != [] {
      IncomeColumnsFound(columns[1..]);
      KeywordIsLowerCase();
      assert MatchesAny(columns[0], [IncomeKeyword]) <==> Contains(Lower(columns[0]), IncomeKeyword) by {
        if MatchesAny(columns[0], [IncomeKeyword]) {
          var kw :| kw in [IncomeKeyword] && Contains(Lower(columns[0]), Lower(kw));
        }
      }
    }
  }

  /** The total column is never one of its own sources. */
  lemma TotalIncomeNotASource(columns: seq<string>)
    ensures TotalIncome !in IncomeColumns(columns)
  {
    NotContainsLonger(Lower(TotalIncome), IncomeKeyword);
  }

  function SourceCells(row: Row, cols: seq<string>): (cells: seq<Option<real>>)
    ensures |cells| == |cols|
    ensures forall i :: 0 <= i < |cols| ==> cells[i] == Cell(row, cols[i])
  {
    seq(|cols|, i requires 0 <= i < |cols| => Cell(row, cols[i]))
  }

  /** A row's total income: null when the sheet has no income column or every source of the
      row is missing; otherwise the sum of the present sources, missing ones counting 0. */
  function RowIncome(row: Row, incomeCols: seq<string>): (r: Option<real>)
    ensures r.None? <==> forall c :: c in incomeCols ==> Cell(row, c).None?
    ensures r.Some? ==> r.value == Sum(Present(SourceCells(row, incomeCols)))
  {
    var cells := SourceCells(row, incomeCols);
    SumFillZero(cells);
    assert AllMissing(cells) <==> forall c :: c in incomeCols ==> Cell(row, c).None? by {
      forall c | c in incomeCols && AllMissing(cells) ensures Cell(row, c).None? {
        var i :| 0 <= i < |incomeCols| && incomeCols[i] == c;
        assert cells[i] == Cell(row, c);
      }
    }
    if incomeCols == [] then None
    else if AllMissing(cells) then None
    else Some(Sum(FillZero(cells)))
  }

  /** A row with a present source whose present sources are all zero has income 0, not null. */
  lemma ZeroIncomeIsNotNull(row: Row, incomeCols: seq<string>, c: string)
    requires c in incomeCols && Cell(row, c).Some?
    requires forall d :: d in incomeCols && Cell(row, d).Some? ==> Cell(row, d).value == 0.0
    ensures RowIncome(row, incomeCols) == Some(0.0)
  {
    var cells := SourceCells(row, incomeCols);
    var p := Present(cells);
    forall k | 0 <= k < |p| ensures 0.0 <= p[k] <= 0.0 {
      assert p[k] in p;
      var i :| 0 <= i < |cells| && cells[i] == Some(p[k]);
    }
    SumBounds(p, 0.0, 0.0);
  }

  /** The first step of `sum_income_sources`: the total set to the sum of the sources, with
      nulls filled by 0. */
  function FillIncome(row: Row, cols: seq<string>): Row {
    row[TotalIncome := Some(Sum(FillZero(SourceCells(row, cols))))]
  }

  /** The second step: the total set back to null where every source is missing. */
  function MaskIncome(row: Row, cols: seq<string>): Row {
    if AllMissing(SourceCells(row, cols)) then row[TotalIncome := None] else row
  }

  /** The rows with `total_hh_income` set to each row's income. */
  function IncomeRowsOf(rows: seq<Row>, cols: seq<string>): (r: seq<Row>)
    ensures |r| == |rows|
    ensures forall i :: 0 <= i < |rows| ==> r[i] == rows[i][TotalIncome := RowIncome(rows[i], cols)]
  {
    seq(|rows|, i requires 0 <= i < |rows| => rows[i][TotalIncome := RowIncome(rows[i], cols)])
  }

  function FillIncomeRows(rows: seq<Row>, cols: seq<string>): (r: seq<Row>)
    ensures |r| == |rows| && forall i :: 0 <= i < |rows| ==> r[i] == FillIncome(rows[i], cols)
  {
    seq(|rows|, i requires 0 <= i < |rows| => FillIncome(rows[i], cols))
  }

  function MaskIncomeRows(rows: seq<Row>, cols: seq<string>): (r: seq<Row>)
    ensures |r| == |rows| && forall i :: 0 <= i < |rows| ==> r[i] == MaskIncome(rows[i], cols)
  {
    seq(|rows|, i requires 0 <= i < |rows| => MaskIncome(rows[i], cols))
  }

  function NullIncomeRows(rows: seq<Row>): (r: seq<Row>)
    ensures |r| == |rows| && forall i :: 0 <= i < |rows| ==> r[i] == rows[i][TotalIncome := None]
  {
    seq(|rows|, i requires 0 <= i < |rows| => rows[i][TotalIncome := None])
  }

  /** Filling then masking gives every row its income. */
  lemma FillThenMaskRows(rows: seq<Row>, cols: seq<string>)
    requires cols != [] && TotalIncome !in cols
    ensures MaskIncomeRows(FillIncomeRows(rows, cols), cols) == IncomeRowsOf(rows, cols)
  {
    forall i | 0 <= i < |rows|
      ensures MaskIncomeRows(FillIncomeRows(rows, cols), cols)[i] == IncomeRowsOf(rows, cols)[i]
    {
      FillThenMask(rows[i], cols);
    }
  }

  lemma FillThenMask(row: Row, cols: seq<string>)
    requires cols != [] && TotalIncome !in cols
    ensures MaskIncome(FillIncome(row, cols), cols) == row[TotalIncome := RowIncome(row, cols)]
  {
    assert SourceCells(FillIncome(row, cols), cols) == SourceCells(row, cols);
  }

  /** A raw table whose columns the pipeline adds to in place (a pandas DataFrame). */
  class Frame {
    var columns: seq<string>
    var rows: seq<Row>

    constructor (sheet: RawSheet)
      ensures columns == sheet.columns && rows == sheet.rows
    {
      columns := sheet.columns;
      rows := sheet.rows;
    }

    /** `sum_income_sources`: writes `total_hh_income` into every row: first the sum of the
        sources with nulls filled by 0, then null where every source is missing; or null
        on every row when the sheet has no income column. */
    method SumIncomeSources()
      modifies this
      ensures columns == if TotalIncome in old(columns) then old(columns) else old(columns) + [TotalIncome]
      ensures rows == IncomeRowsOf(old(rows), IncomeColumns(old(columns)))
    {
      var incomeCols := IncomeColumns(columns);
      var before := rows;
      if incomeCols != [] {
        rows := FillIncomeRows(rows, incomeCols);
        rows := MaskIncomeRows(rows, incomeCols);
        TotalIncomeNotASource(columns);
        FillThenMaskRows(before, incomeCols);
      } else {
        rows := NullIncomeRows(rows);
        assert rows == IncomeRowsOf(before, incomeCols);
      }
      if TotalIncome !in columns {
        columns := columns + [TotalIncome];
      }
    }
  }

  // ---------------------------------------------------------------------------
  // load_and_clean_nmg

  /** The sheets of the workbook, in load order. */
  const YearSheets: seq<string> := ["2011", "2012", "2013", "2014", "2015", "2016", "2017", "2018",
    "2019", "2020", "2021", "2022", "2023", "2024", "March 2025", "September 2025"]

  /** `survey_year` of a sheet: 2025 for a name containing `March 2025` or `September 2025`,
      otherwise `int(name)`, which fails (and so skips the sheet) on a non-numeric name. */
  function SheetYear(sheet: string): (year: Option<int>)
    ensures year.Some? ==> year == Some(2025) || year == ParseInt(sheet)
    ensures ParseInt(sheet).Some? ==> year.Some?
  {
    if Contains(sheet, "March 2025") || Contains(sheet, "September 2025") then Some(2025)
    else ParseInt(sheet)
  }

  /** Both 2025 waves map to 2025. */
  lemma Waves2025()
    ensures SheetYear("March 2025") == Some(2025) && SheetYear("September 2025") == Some(2025)
  {
    assert StartsWith("March 2025", "March 2025");
    assert StartsWith("September 2025", "September 2025");
  }

  /** A sheet named by a four-digit year maps to that year. */
  lemma NumericSheet(y: nat)
    requires 1000 <= y < 10000
    ensures SheetYear(NatToString(y)) == Some(y)
  {
    var s := NatToString(y);
    assert |NatToString(y / 1000)| == 1;
    assert |NatToString(y / 100)| == 2 by { assert y / 100 / 10 == y / 1000; }
    assert |NatToString(y / 10)| == 3 by { assert y / 10 / 10 == y / 100; }
    NotContainsLonger(s, "March 2025");
    NotContainsLonger(s, "September 2025");
    ParseNatToString(y);
    assert IsDigit(s[0]);
  }

  /** One sheet as `read_excel` delivered it, or None when reading it raised. */
  datatype SheetInput = SheetInput(name: string, table: Option<RawSheet>)

  /** A sheet that made it into `all_data`: its columns and its observations. */
  datatype LoadedSheet = LoadedSheet(columns: seq<string>, observations: seq<Observation>)

  datatype LoadError = NoSheetLoaded | MissingColumn(column: string)

  /** The rows of a sheet after `sum_income_sources`. */
  function IncomeRows(sheet: RawSheet): (rows: seq<Row>)
    ensures |rows| == |sheet.rows|
  {
    IncomeRowsOf(sheet.rows, IncomeColumns(sheet.columns))
  }

  function SheetObservations(rows: seq<Row>, year: int, wave: string): (obs: seq<Observation>)
    ensures |obs| == |rows|
    ensures forall i :: 0 <= i < |rows| ==> obs[i] == Observation(Cell(rows[i], HouseholdIdColumn), year, wave, Cell(rows[i], TotalIncome))
  {
    seq(|rows|, i requires 0 <= i < |rows| =>
      Observation(Cell(rows[i], HouseholdIdColumn), year, wave, Cell(rows[i], TotalIncome)))
  }

  /** What one sheet contributes: nothing if reading it or converting its name failed. */
  function LoadOne(input: SheetInput): (r: seq<LoadedSheet>)
    ensures |r| <= 1
    ensures r != [] <==> input.table.Some? && SheetYear(input.name).Some?
  {
    match input.table
    case None => []
    case Some(raw) =>
      match SheetYear(input.name)
      case None => []
      case Some(year) =>
        var cols := if TotalIncome in raw.columns then raw.columns else raw.columns + [TotalIncome];
        [LoadedSheet(cols, SheetObservations(IncomeRows(raw), year, input.name))]
  }

  /** `all_data` after the sheet loop. */
  function LoadedSheets(inputs: seq<SheetInput>): (sheets: seq<LoadedSheet>)
    ensures |sheets| <= |inputs|
    ensures forall s :: s in sheets ==> exists k :: 0 <= k < |inputs| && s in LoadOne(inputs[k])
  {
    if inputs == [] then []
    else
      var front := inputs[..|inputs| - 1];
      assert forall k :: 0 <= k < |front| ==> front[k] == inputs[k];
      LoadedSheets(front) + LoadOne(inputs[|inputs| - 1])
  }

  /** The concatenation fails exactly when no sheet loaded. */
  lemma {:induction false} LoadedSheetsEmpty(inputs: seq<SheetInput>)
    ensures LoadedSheets(inputs) == [] <==> forall k :: 0 <= k < |inputs| ==> LoadOne(inputs[k]) == []
  {
    if inputs != [] {
      var front, last := inputs[..|inputs| - 1], inputs[|inputs| - 1];
      LoadedSheetsEmpty(front);
      assert LoadedSheets(inputs) == LoadedSheets(front) + LoadOne(last);
      if LoadedSheets(inputs) == [] {
        forall k | 0 <= k < |inputs| ensures LoadOne(inputs[k]) == [] {
          if k < |front| {
            assert inputs[k] == front[k];
          }
        }
      } else if LoadedSheets(front) != [] {
        var k :| 0 <= k < |front| && LoadOne(front[k]) != [];
        assert inputs[k] == front[k];
      } else {
        assert LoadOne(inputs[|inputs| - 1]) != [];
      }
    }
  }

  /** A failing sheet is skipped without stopping the sheets after it. */
  lemma {:induction false} LoadedSheetsAppend(a: seq<SheetInput>, b: seq<SheetInput>)
    ensures LoadedSheets(a + b) == LoadedSheets(a) + LoadedSheets(b)
    decreases |b|
  {
    if b == [] {
      assert a + b == a;
    } else {
      var b' := b[..|b| - 1];
      assert (a + b)[..|a + b| - 1] == a + b';
      LoadedSheetsAppend(a, b');
    }
  }

  function ConcatObservations(sheets: seq<LoadedSheet>): seq<Observation> {
    if sheets == [] then [] else sheets[0].observations + ConcatObservations(sheets[1..])
  }

  predicate HasHouseholdId(sheets: seq<LoadedSheet>) {
    exists k :: 0 <= k < |sheets| && HouseholdIdColumn in sheets[k].columns
  }

  /** The sheet loop: read, tag with year and wave, sum the income sources, append. */
  method LoadSheets(inputs: seq<SheetInput>) returns (allData: seq<LoadedSheet>)
    ensures allData == LoadedSheets(inputs)
  {
    allData := [];
    for k := 0 to |inputs|
      invariant allData == LoadedSheets(inputs[..k])
    {
      assert inputs[..k + 1][..k] == inputs[..k];
      assert LoadedSheets(inputs[..k + 1]) == LoadedSheets(inputs[..k]) + LoadOne(inputs[k]);
      var input := inputs[k];
      match input.table {
        case None =>
        case Some(raw) =>
          var year := SheetYear(input.name);
          if year.Some? {
            var df := new Frame(raw);
            df.SumIncomeSources();
            var loaded := LoadedSheet(df.columns, SheetObservations(df.rows, year.value, input.name));
            assert LoadOne(input) == [loaded];
            allData := allData + [loaded];
          }
      }
    }
    assert inputs[..|inputs|] == inputs;
  }

  /** `load_and_clean_nmg`: concatenation (which fails when no sheet loaded), the rename of
      `subsid` (which fails when no loaded sheet has it), the regime flags, the deciles over
      the whole panel, then the savings columns. */
  method LoadAndClean(inputs: seq<SheetInput>, cfg: Config) returns (r: Result<seq<Household>, LoadError>)
    ensures r == Failure(NoSheetLoaded) <==> forall k :: 0 <= k < |inputs| ==> LoadOne(inputs[k]) == []
    ensures r == Failure(MissingColumn(HouseholdIdColumn)) <==>
      LoadedSheets(inputs) != [] && !HasHouseholdId(LoadedSheets(inputs))
    ensures r.Success? ==> r.value == CalculateExcessSavings(Clean(ConcatObservations(LoadedSheets(inputs))), cfg)
  {
    var allData := LoadSheets(inputs);
    LoadedSheetsEmpty(inputs);
    if allData == [] {
      return Failure(NoSheetLoaded);
    }
    if !HasHouseholdId(allData) {
      return Failure(MissingColumn(HouseholdIdColumn));
    }
    var panel := Clean(ConcatObservations(allData));
    r := Success(CalculateExcessSavings(panel, cfg));
  }
}
