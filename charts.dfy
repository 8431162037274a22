/**
 * `render_dataset`: the choice of chart from the detected date axis and the
 * numeric columns, the rows each chart is drawn from, the statistics section
 * and the preview. Rendering itself is left to the front end; this module
 * computes what is handed to it.
 */
module Charts {
  import opened Wrappers
  import opened Seqs
  import opened Tables
  import opened DateAxis

  /** The four outcomes of the decision. A line chart plots `y` against the
      date axis `x`; a histogram bins `metric`. */
  datatype Chart =
    | LineChart(x: string, y: string, points: seq<Row>)
    | NoNumericNote
    | Histogram(metric: string, values: seq<Row>)
    | NoChart

  /** What is shown for one dataset: its counts, its chart, the columns the
      statistics table describes (none: the section is not shown) and the
      preview rows. */
  datatype Section = Section(name: string, records: nat, fields: nat, chart: Chart,
                             statsColumns: seq<string>, preview: seq<Row>)

  /** A select box over `options`: the value held in the widget state under
      `key` while it is still one of the options, otherwise the first option. */
  function Selectbox(key: string, options: seq<string>, widgets: map<string, string>): (r: string)
    requires options != []
    ensures r in options
    ensures key in widgets && widgets[key] in options ==> r == widgets[key]
    ensures !(key in widgets && widgets[key] in options) ==> r == options[0]
  {
    if key in widgets && widgets[key] in options then widgets[key] else options[0]
  }

  /** Widget keys of the two select boxes (`metric_{name}`, `dist_{name}`). */
  function MetricKey(name: string): string { "metric_" + name }
  function DistKey(name: string): string { "dist_" + name }

  /** The table as rendered: the date column, when there is one, converted
      by `toDate` (`pd.to_datetime(df[date_col], errors="coerce")`, taken as
      given); without a date column the table is left as it is. */
  function Shown(t: Table, toDate: Converter): (r: Table)
    ensures r.columns == t.columns && |r.rows| == |t.rows|
    ensures t.Valid() ==> r.Valid()
    ensures FirstDateColumn(t.columns).None? ==> r == t
    ensures forall i, c :: 0 <= i < |t.rows| && c in t.rows[i] && Some(c) != FirstDateColumn(t.columns) ==>
      c in r.rows[i] && r.rows[i][c] == t.rows[i][c]
    ensures forall d, i :: FirstDateColumn(t.columns) == Some(d) && 0 <= i < |t.rows| && d in t.rows[i] ==>
      d in r.rows[i] && r.rows[i][d] == toDate(ColumnCells(t.rows, d))[i]
  {
    match FirstDateColumn(t.columns)
    case Some(d) => Coerce(t, d, toDate)
    case None => t
  }

  /** `render_dataset(name, df)` with the select-box state in `widgets`. The
      header reports the table's own row and column counts, the statistics
      cover the numeric columns, and the preview is taken from the table as
      rendered. */
  function RenderDataset(name: string, t: Table, widgets: map<string, string>, toDate: Converter): (s: Section)
    ensures s.name == name && s.records == |t.rows| && s.fields == |t.columns|
    ensures forall c :: c in s.statsColumns <==> c in t.columns && c in t.numericDtype
    ensures |s.preview| == Min(PreviewLimit, |t.rows|)
  {
    var numeric := NumericColumns(t);
    var shown := Shown(t, toDate);
    var chart :=
      match FirstDateColumn(t.columns)
      case Some(d) =>
        if numeric != [] then
          var metric := Selectbox(MetricKey(name), numeric, widgets);
          LineChart(d, metric, DropNulls(shown.rows, [d, metric]))
        else NoNumericNote
      case None =>
        if numeric != [] then
          var metric := Selectbox(DistKey(name), numeric, widgets);
          Histogram(metric, DropNulls(t.rows, [metric]))
        else NoChart;
    Section(name, |t.rows|, |t.columns|, chart, numeric, Preview(shown))
  }

  /** Some column passes the date-name test. */
  predicate HasDateName(t: Table) {
    exists c :: c in t.columns && IsDateName(c)
  }

  /** Some column has a numeric dtype. */
  predicate HasNumeric(t: Table) {
    exists c :: c in t.columns && c in t.numericDtype
  }

  lemma NumericColumnsNonEmpty(t: Table)
    ensures NumericColumns(t) != [] <==> HasNumeric(t)
  {
    if NumericColumns(t) != [] {
      assert NumericColumns(t)[0] in NumericColumns(t);
    }
  }

  /** The four outcomes, stated on the table itself; the statistics section
      is shown exactly when some column is numeric. */
  lemma ChartKind(name: string, t: Table, widgets: map<string, string>, toDate: Converter)
    ensures var s := RenderDataset(name, t, widgets, toDate);
      && (s.chart.LineChart? <==> HasDateName(t) && HasNumeric(t))
      && (s.chart.NoNumericNote? <==> HasDateName(t) && !HasNumeric(t))
      && (s.chart.Histogram? <==> !HasDateName(t) && HasNumeric(t))
      && (s.chart.NoChart? <==> !HasDateName(t) && !HasNumeric(t))
      && (s.statsColumns != [] <==> HasNumeric(t))
  {
  }

  /** A line chart is drawn against the earliest date-named column, and its
      metric is a numeric column: the one in the widget state when that is
      still numeric, otherwise the first numeric column. */
  lemma LineChartAxes(name: string, t: Table, widgets: map<string, string>, toDate: Converter)
    requires HasDateName(t) && HasNumeric(t)
    ensures RenderDataset(name, t, widgets, toDate).chart.LineChart?
    ensures var c := RenderDataset(name, t, widgets, toDate).chart;
      && IsDateName(c.x)
      && (exists i :: 0 <= i < |t.columns| && t.columns[i] == c.x && NoneBefore(t.columns, i))
      && c.y in t.columns && c.y in t.numericDtype
      && (MetricKey(name) in widgets && widgets[MetricKey(name)] in NumericColumns(t) ==> c.y == widgets[MetricKey(name)])
      && (!(MetricKey(name) in widgets && widgets[MetricKey(name)] in NumericColumns(t)) ==> c.y == NumericColumns(t)[0])
  {
    ChartKind(name, t, widgets, toDate);
    FirstDateColumnIsEarliest(t.columns);
  }

  /** A line chart's points are the converted rows whose date and metric are
      both present, in table order, each as often as it occurs in the table,
      and nothing else. */
  lemma LineChartPoints(name: string, t: Table, widgets: map<string, string>, toDate: Converter)
    requires t.Valid()
    requires HasDateName(t) && HasNumeric(t)
    ensures RenderDataset(name, t, widgets, toDate).chart.LineChart?
    ensures var c := RenderDataset(name, t, widgets, toDate).chart;
      var coerced := Coerce(t, c.x, toDate).rows;
      && IsSubsequence(c.points, coerced)
      && (forall i :: 0 <= i < |coerced| ==>
            (coerced[i] in c.points <==> coerced[i][c.x] != Null && coerced[i][c.y] != Null))
      && (forall row :: multiset(c.points)[row] ==
            if PresentIn(row, [c.x, c.y]) then multiset(coerced)[row] else 0)
      && (forall p :: p in c.points ==>
            (exists i :: 0 <= i < |t.rows| && p == SetCell(t.rows[i], c.x, toDate(ColumnCells(t.rows, c.x))[i])))
  {
    ChartKind(name, t, widgets, toDate);
    var c := RenderDataset(name, t, widgets, toDate).chart;
    assert c.x in t.columns && c.y in t.columns;
    assert c.points == DropNulls(Coerce(t, c.x, toDate).rows, [c.x, c.y]);
    ConvertedRowsKept(t, c.x, c.y, toDate);
    ConvertedRowsOrigin(t, c.x, [c.x, c.y], toDate);
  }

  /** A histogram bins the rows whose metric is present, in table order, each
      as often as it occurs, and unconverted, since there is no date column.
      Its metric is the one in the widget state when that is still numeric,
      otherwise the first numeric column. */
  lemma HistogramValues(name: string, t: Table, widgets: map<string, string>, toDate: Converter)
    requires t.Valid() && !HasDateName(t) && HasNumeric(t)
    ensures RenderDataset(name, t, widgets, toDate).chart.Histogram?
    ensures var c := RenderDataset(name, t, widgets, toDate).chart;
      && c.metric in t.columns && c.metric in t.numericDtype
      && (DistKey(name) in widgets && widgets[DistKey(name)] in NumericColumns(t) ==> c.metric == widgets[DistKey(name)])
      && (!(DistKey(name) in widgets && widgets[DistKey(name)] in NumericColumns(t)) ==> c.metric == NumericColumns(t)[0])
      && IsSubsequence(c.values, t.rows)
      && (forall i :: 0 <= i < |t.rows| ==> (t.rows[i] in c.values <==> t.rows[i][c.metric] != Null))
      && (forall row :: multiset(c.values)[row] ==
            if PresentIn(row, [c.metric]) then multiset(t.rows)[row] else 0)
  {
  }

  /** The preview is the first min(50, row count) rows in table order, on every
      branch; with a date column they show it converted, since the conversion
      happens before the preview. */
  lemma PreviewRows(name: string, t: Table, widgets: map<string, string>, toDate: Converter)
    ensures var s := RenderDataset(name, t, widgets, toDate);
      && |s.preview| == Min(PreviewLimit, |t.rows|)
      && (forall i :: 0 <= i < |s.preview| ==>
            s.preview[i] == match FirstDateColumn(t.columns)
                            case Some(d) => SetCell(t.rows[i], d, toDate(ColumnCells(t.rows, d))[i])
                            case None => t.rows[i])
  {
  }

  /** The two-row exchange-rate example: a line of `rate` against `date`
      through both rows. */
  lemma ExchangeRateExample(toDate: Converter)
    requires toDate([Text("2024-01-01"), Text("2024-01-02")]) == [Timestamp(1704067200), Timestamp(1704153600)]
    ensures var r1 := map["date" := Text("2024-01-01"), "rate" := Number(275)];
      var r2 := map["date" := Text("2024-01-02"), "rate" := Number(276)];
      var t := Table(["date", "rate"], {"rate"}, [r1, r2]);
      RenderDataset("exchange", t, map[], toDate).chart
        == LineChart("date", "rate", [r1["date" := Timestamp(1704067200)], r2["date" := Timestamp(1704153600)]])
  {
    var r1 := map["date" := Text("2024-01-01"), "rate" := Number(275)];
    var r2 := map["date" := Text("2024-01-02"), "rate" := Number(276)];
    var t := Table(["date", "rate"], {"rate"}, [r1, r2]);
    assert OccursAt(Lower("date"), "date", 0);
    HasSubstringIff(Lower("date"), "date");
    assert NumericColumns(t) == ["rate"];
    assert ColumnCells(t.rows, "date") == [Text("2024-01-01"), Text("2024-01-02")];
    var rows := Coerce(t, "date", toDate).rows;
    assert rows == [r1["date" := Timestamp(1704067200)], r2["date" := Timestamp(1704153600)]];
    assert PresentIn(rows[0], ["date", "rate"]) && PresentIn(rows[1], ["date", "rate"]);
    FilterKeepsAll(rows, (row: Row) => PresentIn(row, ["date", "rate"]));
  }

  /** A single record with neither a date-named nor a numeric column: no chart,
      no statistics, and the preview is that record. */
  lemma SingleRecordExample(toDate: Converter)
    ensures var row := map["id" := Text("UAH"), "name" := Text("Hryvnia")];
      var s := RenderDataset("currency", Table(["id", "name"], {}, [row]), map[], toDate);
      s.chart == NoChart && s.statsColumns == [] && s.preview == [row]
  {
    var row := map["id" := Text("UAH"), "name" := Text("Hryvnia")];
    var t := Table(["id", "name"], {}, [row]);
    assert Lower("id") == "id" && Lower("name") == "name";
    assert "name"[..4] == "name" && "name"[2..] == "me";
    assert !HasSubstring("name"[1..], "date");
    assert !IsDateName("id") && !IsDateName("name");
    assert t.columns[1..] == ["name"];
    assert FirstDateColumn(t.columns) == None;
  }
}
