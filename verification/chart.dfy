/**
 * The decision part of `plot_chart`: which columns are valid, which of the
 * five chart kinds is drawn and under which title. Drawing the figure and
 * exporting it is a parameter that either yields the encoded image or fails
 * with a message.
 */
module Charts {
  import opened Wrappers
  import opened Insights

  /** A column's pandas dtype, as far as `plot_chart` looks at it. */
  datatype DType = Object | NonObject

  /**
   * The uploaded table, reduced to its string-labelled columns and their
   * dtypes. A column with a non-string label can never match a name from
   * the reply, so it is left out.
   */
  type Table = map<string, DType>

  datatype ChartKind =
      /** Counts of each `(x, color)` pair, bars over `x` coloured by `color`. */
    | CountBar(x: string, color: string)
    | Scatter(x: string, y: string)
      /** The mean of `y` for each value of `x`. */
    | MeanBar(x: string, y: string)
      /** How often each value of `x` occurs. */
    | ValueCountBar(x: string)
    | Histogram(x: string)

  datatype ChartPlan = ChartPlan(kind: ChartKind, title: string)

  const InvalidColumns := "Missing or invalid columns"

  /** `insight.get("columns", [])`. */
  function ColumnList(x: Insight): seq<string> {
    if x.columns.Some? then x.columns.value else []
  }

  /** A non-empty column list every name of which is a column of the table. */
  predicate ValidColumns(t: Table, cols: seq<string>) {
    |cols| > 0 && forall i :: 0 <= i < |cols| ==> cols[i] in t
  }

  /** `if col2:` holds: there is a second name and it is not the empty string. */
  predicate HasSecond(cols: seq<string>) {
    |cols| > 1 && cols[1] != ""
  }

  /** The names that decide the chart: the first two, or the first alone. */
  function Leading(cols: seq<string>): seq<string>
    requires |cols| > 0
  {
    if HasSecond(cols) then cols[..2] else cols[..1]
  }

  /** The columns a chart kind draws, in order. */
  function Axes(k: ChartKind): seq<string> {
    match k
    case CountBar(a, b) => [a, b]
    case Scatter(a, b) => [a, b]
    case MeanBar(a, b) => [a, b]
    case ValueCountBar(a) => [a]
    case Histogram(a) => [a]
  }

  /** The dtypes a chart kind is meant for. */
  predicate Fits(t: Table, k: ChartKind) {
    match k
    case CountBar(a, b) => a in t && b in t && t[a] == Object && t[b] == Object
    case Scatter(a, b) => a in t && b in t && t[a] == NonObject && t[b] == NonObject
    case MeanBar(a, b) => a in t && b in t && t[a] != t[b]
    case ValueCountBar(a) => a in t && t[a] == Object
    case Histogram(a) => a in t && t[a] == NonObject
  }

  /** The figure title a chart kind gets. */
  function Caption(k: ChartKind): string {
    match k
    case CountBar(a, b) => a + " vs " + b
    case Scatter(a, b) => a + " vs " + b
    case MeanBar(a, b) => a + " vs " + b
    case ValueCountBar(a) => "Distribution: " + a
    case Histogram(a) => "Histogram: " + a
  }

  /**
   * The chart `plot_chart` draws for `x`: the invalid-columns error when the
   * column list is empty or names a missing column; otherwise a chart on
   * the leading columns that fits their dtypes, titled by its kind.
   */
  function SelectChart(t: Table, x: Insight): (r: Result<ChartPlan, string>)
    ensures r.Failure? <==> !ValidColumns(t, ColumnList(x))
    ensures r.Failure? ==> r.error == InvalidColumns
    ensures r.Success? ==>
      && Axes(r.value.kind) == Leading(ColumnList(x))
      && Fits(t, r.value.kind)
      && r.value.title == Caption(r.value.kind)
  {
    var cols := ColumnList(x);
    if !ValidColumns(t, cols) then Failure(InvalidColumns)
    else
      var c1 := cols[0];
      assert c1 in t;
      if HasSecond(cols) then
        var c2 := cols[1];
        assert c2 in t;
        var title := c1 + " vs " + c2;
        if t[c1] == Object && t[c2] == Object then Success(ChartPlan(CountBar(c1, c2), title))
        else if t[c1] != Object && t[c2] != Object then Success(ChartPlan(Scatter(c1, c2), title))
        else Success(ChartPlan(MeanBar(c1, c2), title))
      else if t[c1] == Object then Success(ChartPlan(ValueCountBar(c1), "Distribution: " + c1))
      else Success(ChartPlan(Histogram(c1), "Histogram: " + c1))
  }

  /** What `plot_chart` returns: the encoded image or an error message. */
  datatype ChartOutcome = ChartOutcome(chart: Option<string>, error: Option<string>)

  /**
   * `plot_chart(df, insight)`. `render` stands for building the figure,
   * exporting it as PNG and base64-encoding it; a failure there is the
   * `except` branch and its message becomes the error.
   */
  function PlotChart(t: Table, x: Insight, render: ChartPlan -> Result<string, string>): (o: ChartOutcome)
    ensures o.chart.Some? != o.error.Some?
    ensures o.error == Some(InvalidColumns) <== !ValidColumns(t, ColumnList(x))
    ensures o.chart.Some? <==>
      SelectChart(t, x).Success? && render(SelectChart(t, x).value).Success?
    ensures o.chart.Some? ==> o.chart.value == render(SelectChart(t, x).value).value
    ensures o.error.Some? && ValidColumns(t, ColumnList(x)) ==>
      o.error.value == render(SelectChart(t, x).value).error
  {
    match SelectChart(t, x)
    case Failure(e) => ChartOutcome(None, Some(e))
    case Success(plan) =>
      match render(plan)
      case Success(image) => ChartOutcome(Some(image), None)
      case Failure(msg) => ChartOutcome(None, Some(msg))
  }

  // ---------------------------------------------------------------- lemmas

  /** At most one chart kind on given leading columns fits their dtypes. */
  lemma FitsUnique(t: Table, k1: ChartKind, k2: ChartKind)
    requires Axes(k1) == Axes(k2) && Fits(t, k1) && Fits(t, k2)
    ensures k1 == k2
  {
  }

  /**
   * The selection is characterised by its contract: any chart on the
   * leading columns that fits their dtypes is the one chosen.
   */
  lemma SelectionIsTheFit(t: Table, x: Insight, k: ChartKind)
    requires ValidColumns(t, ColumnList(x))
    requires Axes(k) == Leading(ColumnList(x)) && Fits(t, k)
    ensures SelectChart(t, x) == Success(ChartPlan(k, Caption(k)))
  {
    FitsUnique(t, k, SelectChart(t, x).value.kind);
  }

  /** The insight's `chart` hint plays no part in the choice. */
  lemma ChartHintIgnored(t: Table, x: Insight, hint: Option<string>)
    ensures SelectChart(t, x.(chart := hint)) == SelectChart(t, x)
  {
  }

  /**
   * Past validation only the leading names matter: two insights whose
   * valid column lists agree on them get the same chart.
   */
  lemma OnlyLeadingColumnsDecide(t: Table, x: Insight, y: Insight)
    requires ValidColumns(t, ColumnList(x)) && ValidColumns(t, ColumnList(y))
    requires Leading(ColumnList(x)) == Leading(ColumnList(y))
    ensures SelectChart(t, x) == SelectChart(t, y)
  {
    var k := SelectChart(t, x).value.kind;
    SelectionIsTheFit(t, y, k);
  }

  /**
   * With one categorical and one numeric column the bars always group by the
   * first column and average the second, whichever of them is numeric.
   */
  lemma MixedGroupsByFirst(t: Table, x: Insight)
    requires ValidColumns(t, ColumnList(x)) && HasSecond(ColumnList(x))
    requires t[ColumnList(x)[0]] != t[ColumnList(x)[1]]
    ensures SelectChart(t, x).Success?
    ensures SelectChart(t, x).value.kind == MeanBar(ColumnList(x)[0], ColumnList(x)[1])
  {
  }

  /** Names past the second are only checked for presence. */
  lemma ExtraColumnsOnlyValidated(t: Table, x: Insight, extra: seq<string>)
    requires x.columns.Some? && |x.columns.value| >= 2 && x.columns.value[1] != ""
    ensures SelectChart(t, x.(columns := Some(x.columns.value + extra))).Success? <==>
      SelectChart(t, x).Success? && forall i :: 0 <= i < |extra| ==> extra[i] in t
    ensures SelectChart(t, x.(columns := Some(x.columns.value + extra))).Success? ==>
      SelectChart(t, x.(columns := Some(x.columns.value + extra))) == SelectChart(t, x)
  {
    var cols := x.columns.value;
    var y := x.(columns := Some(cols + extra));
    assert ColumnList(y) == cols + extra;
    assert Leading(ColumnList(y)) == Leading(cols) by {
      assert (cols + extra)[..2] == cols[..2];
    }
    assert ValidColumns(t, cols + extra) <==>
      ValidColumns(t, cols) && forall i :: 0 <= i < |extra| ==> extra[i] in t
    by {
      assert forall i :: 0 <= i < |cols| ==> (cols + extra)[i] == cols[i];
      assert forall i :: 0 <= i < |extra| ==> (cols + extra)[|cols| + i] == extra[i];
    }
    if SelectChart(t, y).Success? {
      OnlyLeadingColumnsDecide(t, y, x);
    }
  }

  /** An insight without a usable column list is never charted, whatever `render` does. */
  lemma NoColumnsNoChart(t: Table, x: Insight, render: ChartPlan -> Result<string, string>)
    requires ColumnList(x) == []
    ensures PlotChart(t, x, render) == ChartOutcome(None, Some(InvalidColumns))
  {
  }
}
