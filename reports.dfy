/**
 * The "Export CSV" action of the reports page: the report data is flattened
 * into a list of rows, and the rows are written as comma-separated lines
 * under a header line of the first row's keys. Building the download link,
 * the file name and the `alert` box are not part of the model; the alert is
 * the `NoDataAlert` outcome.
 */
module Reports {
  import opened Wrappers
  import opened JsStrings
  import opened Json

  /** A report record: its own enumerable properties, in key order */
  type Row = seq<(string, Json)>

  /** One entry of a sales analysis's `byBranch` list */
  datatype BranchTotal = BranchTotal(branch: Json, total: Json)

  /** One entry of a sales analysis's `byMonth` list */
  datatype MonthTotal = MonthTotal(month: Json, total: Json)

  /** The data shown on the active tab: nothing loaded (`null`), a list of
      records, or an object whose `details`, `byBranch` and `byMonth`
      properties may each be absent. */
  datatype ReportData =
    | NoData
    | Table(records: seq<Row>)
    | Summary(details: Option<seq<Row>>, byBranch: Option<seq<BranchTotal>>, byMonth: Option<seq<MonthTotal>>)

  /** The flattened rows, or the TypeError thrown by `data.byMonth.map` when
      an analysis has `byBranch` but no `byMonth`. */
  datatype Flattened = Flat(rows: seq<Row>) | TypeError

  /** What pressing "Export CSV" does */
  datatype Export = Nothing | NoDataAlert | Download(csv: string) | Crash

  function BranchRow(b: BranchTotal): Row {
    [("Type", JString("Branch")), ("Name", b.branch), ("Amount", b.total)]
  }

  function MonthRow(m: MonthTotal): Row {
    [("Type", JString("Month")), ("Name", m.month), ("Amount", m.total)]
  }

  /** The rows of an analysis: one per branch, then one per month. */
  function AnalysisRows(byBranch: seq<BranchTotal>, byMonth: seq<MonthTotal>): (rows: seq<Row>)
    ensures |rows| == |byBranch| + |byMonth|
  {
    seq(|byBranch|, k requires 0 <= k < |byBranch| => BranchRow(byBranch[k]))
    + seq(|byMonth|, k requires 0 <= k < |byMonth| => MonthRow(byMonth[k]))
  }

  /** The rows to export, chosen by the first case that applies: the data
      itself when it is a list, else its `details`, else the analysis rows
      when it has `byBranch`, else no rows. */
  function ExportRows(data: ReportData): (r: Flattened)
    requires !data.NoData?
    ensures data.Table? ==> r == Flat(data.records)
    ensures data.Summary? && data.details.Some? ==> r == Flat(data.details.value)
    ensures r.TypeError? <==>
      data.Summary? && data.details.None? && data.byBranch.Some? && data.byMonth.None?
    ensures data.Summary? && data.details.None? && data.byBranch.Some? && data.byMonth.Some? ==>
      r == Flat(AnalysisRows(data.byBranch.value, data.byMonth.value))
    ensures data.Summary? && data.details.None? && data.byBranch.None? ==> r == Flat([])
  {
    match data
    case Table(records) => Flat(records)
    case Summary(details, byBranch, byMonth) =>
      if details.Some? then Flat(details.value)
      else if byBranch.Some? then
        if byMonth.None? then TypeError
        else Flat(AnalysisRows(byBranch.value, byMonth.value))
      else Flat([])
  }

  function Keys(row: Row): seq<string> {
    seq(|row|, k requires 0 <= k < |row| => row[k].0)
  }

  /** A value written into a line: its text form between double quotes, with
      no escaping of quotes inside it. */
  function Cell(v: Json): string {
    "\"" + ToJsString(v) + "\""
  }

  function Cells(row: Row): seq<string> {
    seq(|row|, k requires 0 <= k < |row| => Cell(row[k].1))
  }

  /** The header line: the first row's keys joined by commas */
  function Header(row: Row): string {
    Join(Keys(row), ",")
  }

  /** One data line: the row's own values, quoted and joined by commas */
  function Line(row: Row): string {
    Join(Cells(row), ",")
  }

  function Lines(rows: seq<Row>): seq<string> {
    seq(|rows|, i requires 0 <= i < |rows| => Line(rows[i]))
  }

  /** The file: the header line followed by one line per row, joined by
      newlines. */
  function Csv(rows: seq<Row>): (csv: string)
    requires |rows| >= 1
    ensures Header(rows[0]) <= csv
  {
    Join([Header(rows[0])] + Lines(rows), "\n")
  }

  /** `handleExport`: nothing without data, an alert when there is nothing
      to export, and otherwise the CSV text of the flattened rows. */
  function HandleExport(data: ReportData): (e: Export)
    ensures e.Nothing? <==> data.NoData?
    ensures e.Crash? <==> !data.NoData? && ExportRows(data).TypeError?
    ensures e.NoDataAlert? <==> !data.NoData? && ExportRows(data) == Flat([])
    ensures e.Download? ==>
      !data.NoData? && ExportRows(data).Flat? && |ExportRows(data).rows| >= 1
      && e.csv == Csv(ExportRows(data).rows)
  {
    if data.NoData? then Nothing
    else match ExportRows(data)
      case TypeError => Crash
      case Flat(rows) => if |rows| == 0 then NoDataAlert else Download(Csv(rows))
  }

  /** The analysis rows: as many as branches and months together, each with
      the keys Type, Name and Amount; the first ones are the branches, in
      order, and the rest the months, in order. */
  lemma AnalysisRowsShape(byBranch: seq<BranchTotal>, byMonth: seq<MonthTotal>)
    ensures var rows := AnalysisRows(byBranch, byMonth);
      && |rows| == |byBranch| + |byMonth|
      && (forall k :: 0 <= k < |rows| ==> Keys(rows[k]) == ["Type", "Name", "Amount"])
      && (forall k :: 0 <= k < |byBranch| ==>
            rows[k][0].1 == JString("Branch") && rows[k][1].1 == byBranch[k].branch
            && rows[k][2].1 == byBranch[k].total)
      && (forall k :: 0 <= k < |byMonth| ==>
            rows[|byBranch| + k][0].1 == JString("Month") && rows[|byBranch| + k][1].1 == byMonth[k].month
            && rows[|byBranch| + k][2].1 == byMonth[k].total)
  {
    var rows := AnalysisRows(byBranch, byMonth);
    forall k | 0 <= k < |rows| ensures Keys(rows[k]) == ["Type", "Name", "Amount"] {
      assert |rows[k]| == 3;
      assert rows[k][0].0 == "Type" && rows[k][1].0 == "Name" && rows[k][2].0 == "Amount";
    }
  }

  /** An analysis with both lists exports its analysis rows, or alerts when
      both are empty; one with `byBranch` but no `byMonth` crashes instead of
      exporting. */
  lemma AnalysisExport(byBranch: seq<BranchTotal>, byMonth: Option<seq<MonthTotal>>)
    ensures byMonth.None? ==> HandleExport(Summary(None, Some(byBranch), byMonth)) == Crash
    ensures byMonth.Some? && |byBranch| + |byMonth.value| >= 1 ==>
      HandleExport(Summary(None, Some(byBranch), byMonth)) ==
        Download(Csv(AnalysisRows(byBranch, byMonth.value)))
    ensures byMonth.Some? && |byBranch| + |byMonth.value| == 0 ==>
      HandleExport(Summary(None, Some(byBranch), byMonth)) == NoDataAlert
  {
    if byMonth.Some? {
      AnalysisRowsShape(byBranch, byMonth.value);
    }
  }

  /** No key and no value text of the row holds a newline. */
  predicate SingleLine(row: Row) {
    forall k :: 0 <= k < |row| ==> '\n' !in row[k].0 && '\n' !in ToJsString(row[k].1)
  }

  lemma LineHasNoNewline(row: Row)
    requires SingleLine(row)
    ensures '\n' !in Line(row) && '\n' !in Header(row)
  {
    var cells := Cells(row);
    forall k | 0 <= k < |cells| ensures '\n' !in cells[k] {
      assert cells[k] == "\"" + ToJsString(row[k].1) + "\"";
    }
    JoinAvoids(cells, ",", '\n');
    JoinAvoids(Keys(row), ",", '\n');
  }

  /** With newline-free keys and values, the file reads back, line by line,
      as the header followed by exactly one line per row, in order. */
  lemma CsvLines(rows: seq<Row>)
    requires |rows| >= 1
    requires forall i :: 0 <= i < |rows| ==> SingleLine(rows[i])
    ensures Split(Csv(rows), '\n') == [Header(rows[0])] + Lines(rows)
    ensures |Split(Csv(rows), '\n')| == |rows| + 1
  {
    var parts := [Header(rows[0])] + Lines(rows);
    forall k | 0 <= k < |parts| ensures '\n' !in parts[k] {
      if k == 0 {
        LineHasNoNewline(rows[0]);
      } else {
        LineHasNoNewline(rows[k - 1]);
      }
    }
    SplitJoin(parts, '\n');
  }

  /** With comma-free values, a data line splits at its commas back into the
      row's quoted values, one per property and in order. */
  lemma LineCells(row: Row)
    requires |row| >= 1
    requires forall k :: 0 <= k < |row| ==> ',' !in ToJsString(row[k].1)
    ensures Split(Line(row), ',') == Cells(row)
  {
    var cells := Cells(row);
    forall k | 0 <= k < |cells| ensures ',' !in cells[k] {
      assert cells[k] == "\"" + ToJsString(row[k].1) + "\"";
    }
    SplitJoin(cells, ',');
  }

  /** With comma-free keys, the header splits back into the first row's keys. */
  lemma HeaderKeys(row: Row)
    requires |row| >= 1
    requires forall k :: 0 <= k < |row| ==> ',' !in row[k].0
    ensures Split(Header(row), ',') == Keys(row)
  {
    SplitJoin(Keys(row), ',');
  }
}
