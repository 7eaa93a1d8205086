/**
 * The decisions of the `/analyze` handler: whether there is a file, which
 * loader its name selects, whether the reply yielded any insight, and that
 * only the first insight is charted. Loading the table, asking the language
 * model and rendering the chart are parameters.
 */
module Analysis {
  import opened Wrappers
  import opened Text
  import opened Insights
  import opened InsightLaws
  import opened Charts

  /** The pandas reader the file name selects. */
  datatype FileKind = Csv | Xlsx

  const NoFile := "No file uploaded"
  const Unsupported := "Unsupported file type"
  const NoInsights := "No insights extracted"

  /** The JSON answer and its HTTP status. */
  datatype Response =
      /** `{"error": message}` with the given status. */
    | Rejected(status: nat, message: string)
      /** `{"error": "No insights extracted", "raw": raw}`, status 500. */
    | Unparsed(raw: string)
      /** `{"insights": ..., "chart": ..., "error": ...}`, status 200. */
    | Answered(insights: seq<Insight>, chart: Option<string>, error: Option<string>)

  function Status(r: Response): nat {
    match r
    case Rejected(s, _) => s
    case Unparsed(_) => 500
    case Answered(_, _, _) => 200
  }

  /** No upload field, or an upload with an empty file name: `not file` holds. */
  predicate Missing(file: Option<string>) {
    file.None? || file.value == ""
  }

  /**
   * The loader for the uploaded file's name, or the 400 message. The
   * suffix test is case-sensitive and `.csv` is tried first.
   */
  function ChooseLoader(file: Option<string>): (r: Result<FileKind, string>)
    ensures r == Failure(NoFile) <==> Missing(file)
    ensures r == Success(Csv) <==> !Missing(file) && EndsWith(file.value, ".csv")
    ensures r == Success(Xlsx) <==> !Missing(file) && EndsWith(file.value, ".xlsx")
    ensures r == Failure(Unsupported) <==>
      !Missing(file) && !EndsWith(file.value, ".csv") && !EndsWith(file.value, ".xlsx")
  {
    if Missing(file) then Failure(NoFile)
    else if EndsWith(file.value, ".csv") then
      assert !EndsWith(file.value, ".xlsx") by {
        NotBothSuffixes(file.value);
      }
      Success(Csv)
    else if EndsWith(file.value, ".xlsx") then
      assert !EndsWith(file.value, ".csv") by {
        NotBothSuffixes(file.value);
      }
      Success(Xlsx)
    else Failure(Unsupported)
  }

  /** No name ends in both `.csv` and `.xlsx`: they differ in their last character. */
  lemma NotBothSuffixes(name: string)
    ensures !(EndsWith(name, ".csv") && EndsWith(name, ".xlsx"))
  {
    if EndsWith(name, ".xlsx") {
      assert name[|name| - 1] == ".xlsx"[4];
    }
  }

  /**
   * `analyze()`. `load` stands for the steps inside the `try` that can raise
   * before the model is asked: reading the upload with the chosen reader and
   * building its `describe` summary, which raises on a table without
   * columns. It fails with the exception's message. `ask` turns the loaded
   * table into the model's reply (the prompt and the API call, which
   * catches its own request errors). Its type makes two assumptions: the
   * reply is a string, and printing it succeeds. `render` draws the chart.
   */
  function Analyze(
    file: Option<string>,
    load: FileKind -> Result<Table, string>,
    ask: Table -> string,
    render: ChartPlan -> Result<string, string>): (r: Response)
    ensures Status(r) == 400 <==> ChooseLoader(file).Failure?
    ensures Status(r) == 400 ==> r.message == ChooseLoader(file).error
    ensures r.Rejected? && Status(r) == 500 <==>
      ChooseLoader(file).Success? && load(ChooseLoader(file).value).Failure?
    ensures r.Rejected? && Status(r) == 500 ==> r.message == load(ChooseLoader(file).value).error
    ensures r.Rejected? ==> Status(r) == 400 || Status(r) == 500
    ensures ChooseLoader(file).Success? && load(ChooseLoader(file).value).Success? ==>
      r.Unparsed? || r.Answered?
    ensures r.Unparsed? || r.Answered? ==>
      && ChooseLoader(file).Success?
      && load(ChooseLoader(file).value).Success?
      && var t := load(ChooseLoader(file).value).value;
         && (r.Unparsed? <==> Parse(ask(t)) == [])
         && (r.Unparsed? ==> r.raw == ask(t))
         && (r.Answered? ==>
              && r.insights == Parse(ask(t))
              && ChartOutcome(r.chart, r.error) == PlotChart(t, r.insights[0], render))
  {
    match ChooseLoader(file)
    case Failure(e) => Rejected(400, e)
    case Success(kind) =>
      match load(kind)
      case Failure(msg) => Rejected(500, msg)
      case Success(t) =>
        var reply := ask(t);
        var insights := Parse(reply);
        if insights == [] then Unparsed(reply)
        else
          var o := PlotChart(t, insights[0], render);
          Answered(insights, o.chart, o.error)
  }

  // ---------------------------------------------------------------- lemmas

  /** An upload whose name ends in `.CSV` is refused: the suffix test is case-sensitive. */
  lemma UpperCaseSuffixRefused()
    ensures ChooseLoader(Some("DATA.CSV")) == Failure(Unsupported)
  {
    assert "DATA.CSV"[4..] == ".CSV";
    assert "DATA.CSV"[3..] == "A.CSV";
  }

  /** Once a reply parses, the chart depends on its first insight alone. */
  lemma OnlyFirstInsightCharted(
    file: Option<string>,
    load: FileKind -> Result<Table, string>,
    ask1: Table -> string,
    ask2: Table -> string,
    render: ChartPlan -> Result<string, string>)
    requires ChooseLoader(file).Success? && load(ChooseLoader(file).value).Success?
    requires
      var t := load(ChooseLoader(file).value).value;
      Parse(ask1(t)) != [] && Parse(ask2(t)) != [] && Parse(ask1(t))[0] == Parse(ask2(t))[0]
    ensures Analyze(file, load, ask1, render).Answered? && Analyze(file, load, ask2, render).Answered?
    ensures Analyze(file, load, ask1, render).chart == Analyze(file, load, ask2, render).chart
    ensures Analyze(file, load, ask1, render).error == Analyze(file, load, ask2, render).error
  {
  }

  /**
   * A reply that holds no trigger line, such as the error text the model
   * call returns when the request fails, is answered with status 500 and
   * the reply itself.
   */
  lemma TriggerlessReplyUnparsed(
    file: Option<string>,
    load: FileKind -> Result<Table, string>,
    ask: Table -> string,
    render: ChartPlan -> Result<string, string>)
    requires ChooseLoader(file).Success? && load(ChooseLoader(file).value).Success?
    requires
      var reply := ask(load(ChooseLoader(file).value).value);
      forall i :: 0 <= i < |Split(reply, '\n')| ==> !IsTrigger(Strip(Split(reply, '\n')[i]))
    ensures Analyze(file, load, ask, render) == Unparsed(ask(load(ChooseLoader(file).value).value))
  {
    NoTriggerNoInsights(ask(load(ChooseLoader(file).value).value));
  }
}
