/**
 * Prompt construction of the LLM client (llm_client.py): the text rendering of a saved
 * question and the choice of prompt template. The model call itself is not modelled; the
 * template wording is a parameter, and so is `str()` of JSON numbers, lists and objects.
 */
module Llm {
  import opened Wrappers
  import opened Json
  import opened SurveyData
  import Strings
  import Seqs
  import App
  import Charts

  /** A value in an f-string: strings as they are, null and booleans as Python prints them. */
  function Render(v: Json, show: Json -> string): string {
    match v
    case Str(s) => s
    case Null => "None"
    case Bool(b) => if b then "True" else "False"
    case _ => show(v)
  }

  function EndDateText(endDate: Option<string>): string {
    if endDate.Some? then endDate.value else "None"
  }

  function SampleSizeText(n: Option<real>, show: Json -> string): string {
    if n.Some? then show(Num(n.value)) else "N/A"
  }

  function QuestionLine(metadata: Metadata, show: Json -> string): string {
    "Question: " + Render(metadata.text.GetOr(Str("Unknown")), show) + "\n"
  }

  function TypeLine(metadata: Metadata, show: Json -> string): string {
    "Type: " + Render(metadata.questionType.GetOr(Str("N/A")), show) + "\n"
  }

  function SegmentLine(segment: string): string {
    "Segment: " + segment + "\n"
  }

  function PeriodLines(months: int, endDate: Option<string>): string {
    "Time Period: " + Strings.IntToString(months) + " months ending " + EndDateText(endDate) + "\n\n"
  }

  /** The question, type, segment and time-period lines. */
  function HeaderBlock(q: App.SavedQuestion, show: Json -> string): string {
    QuestionLine(q.metadata, show) + TypeLine(q.metadata, show) + SegmentLine(q.segment) + PeriodLines(q.months, q.endDate)
  }

  function AnswerLine(a: Answer, show: Json -> string): string {
    "- " + Render(a.text.GetOr(Str("Unknown")), show) + " (ID: " + Render(a.id.GetOr(Str("N/A")), show) + ")\n"
  }

  /** One line per answer option, in order. */
  function AnswerLines(answers: seq<Answer>, show: Json -> string): string {
    Strings.Concat(answers, (a: Answer) => AnswerLine(a, show))
  }

  /** The line of one result that has a value: its answer's label and the value. */
  function ResultLine(answers: seq<Answer>, r: AnswerResult, show: Json -> string): string
    requires HasResult(r)
  {
    "- " + Render(AnswerLabel(answers, r.id), show) + ": " + show(Num(r.result.value)) + "\n"
  }

  /** What one result contributes: its line when it has a value, nothing otherwise. */
  function ResultText(answers: seq<Answer>, r: AnswerResult, show: Json -> string): string {
    if HasResult(r) then ResultLine(answers, r, show) else ""
  }

  /** The result lines of a list of results. */
  function ResultLines(results: seq<AnswerResult>, answers: seq<Answer>, show: Json -> string): string {
    Strings.Concat(results, (r: AnswerResult) => ResultText(answers, r, show))
  }

  function DateLine(p: DataPoint, show: Json -> string): string {
    "\nDate: " + Render(p.studyDate.GetOr(Str("N/A")), show) + "\n"
  }

  function SampleSizeLine(n: Option<real>, show: Json -> string): string {
    "Sample Size (N): " + SampleSizeText(n, show) + "\n"
  }

  /** One trend point: its date, sample size and result lines. */
  function PointBlock(p: DataPoint, answers: seq<Answer>, show: Json -> string): string {
    DateLine(p, show) + SampleSizeLine(p.n, show) + "Results:\n" + ResultLines(p.answerResults, answers, show)
  }

  function PointBlocks(points: seq<DataPoint>, answers: seq<Answer>, show: Json -> string): string {
    Strings.Concat(points, (p: DataPoint) => PointBlock(p, answers, show))
  }

  function DataBlock(data: QuestionData, answers: seq<Answer>, show: Json -> string): string {
    match data
    case Trend(points) => "Trend Data:\n" + PointBlocks(points, answers, show)
    case Single(p) =>
      "Single Point Data:\n" + SampleSizeLine(p.n, show) + "Results:\n" + ResultLines(p.answerResults, answers, show)
  }

  lemma AnswerLinesStep(answers: seq<Answer>, i: nat, show: Json -> string)
    requires i < |answers|
    ensures AnswerLines(answers[..i + 1], show) == AnswerLines(answers[..i], show) + AnswerLine(answers[i], show)
  {
    assert answers[..i + 1][..i] == answers[..i];
  }

  lemma ResultLinesStep(results: seq<AnswerResult>, j: nat, answers: seq<Answer>, show: Json -> string)
    requires j < |results|
    ensures ResultLines(results[..j + 1], answers, show) == ResultLines(results[..j], answers, show) + ResultText(answers, results[j], show)
  {
    assert results[..j + 1][..j] == results[..j];
  }

  lemma PointBlocksStep(points: seq<DataPoint>, i: nat, answers: seq<Answer>, show: Json -> string)
    requires i < |points|
    ensures PointBlocks(points[..i + 1], answers, show) == PointBlocks(points[..i], answers, show) + PointBlock(points[i], answers, show)
  {
    assert points[..i + 1][..i] == points[..i];
  }

  lemma ResultLinesSnoc(results: seq<AnswerResult>, r: AnswerResult, answers: seq<Answer>, show: Json -> string)
    ensures ResultLines(results + [r], answers, show) == ResultLines(results, answers, show) + ResultText(answers, r, show)
  {
    ResultLinesStep(results + [r], |results|, answers, show);
    assert (results + [r])[..|results| + 1] == results + [r];
    assert (results + [r])[..|results|] == results;
  }

  /** The text `_format_question_data` produces for a saved question. */
  function Formatted(q: App.SavedQuestion, show: Json -> string): string {
    HeaderBlock(q, show) + "Answer Options:\n" + AnswerLines(q.metadata.answers, show) + "\n"
    + DataBlock(q.data, q.metadata.answers, show)
  }

  lemma Regroup(a: string, b: string, c: string, d: string, e: string)
    ensures (((a + b) + c) + d) + e == a + (((b + c) + d) + e)
  {
  }

  method AppendResultLines(formatted: string, results: seq<AnswerResult>, answers: seq<Answer>, show: Json -> string)
    returns (r: string)
    ensures r == formatted + ResultLines(results, answers, show)
  {
    r := formatted;
    for j := 0 to |results|
      invariant r == formatted + ResultLines(results[..j], answers, show)
    {
      ResultLinesStep(results, j, answers, show);
      ghost var done := ResultLines(results[..j], answers, show);
      var result := results[j];
      if result.result.Some? {
        var answerText := AnswerLabel(answers, result.id);
        var line := "- " + Render(answerText, show) + ": " + show(Num(result.result.value)) + "\n";
        assert line == ResultText(answers, result, show);
        Seqs.AppendAssoc(formatted, done, line);
        r := r + line;
      } else {
        assert ResultText(answers, result, show) == "";
        assert done + "" == done;
      }
    }
    assert results[..|results|] == results;
  }

  method AppendPointBlocks(formatted: string, points: seq<DataPoint>, answers: seq<Answer>, show: Json -> string)
    returns (r: string)
    ensures r == formatted + PointBlocks(points, answers, show)
  {
    r := formatted;
    for i := 0 to |points|
      invariant r == formatted + PointBlocks(points[..i], answers, show)
    {
      PointBlocksStep(points, i, answers, show);
      var point := points[i];
      ghost var before := r;
      r := r + DateLine(point, show);
      r := r + SampleSizeLine(point.n, show);
      r := r + "Results:\n";
      r := AppendResultLines(r, point.answerResults, answers, show);
      Regroup(before, DateLine(point, show), SampleSizeLine(point.n, show), "Results:\n",
              ResultLines(point.answerResults, answers, show));
      Seqs.AppendAssoc(formatted, PointBlocks(points[..i], answers, show), PointBlock(point, answers, show));
    }
    assert points[..|points|] == points;
  }

  method FormatQuestionData(question: App.SavedQuestion, show: Json -> string) returns (formatted: string)
    ensures formatted == Formatted(question, show)
  {
    var metadata := question.metadata;
    var data := question.data;
    formatted := QuestionLine(metadata, show);
    formatted := formatted + TypeLine(metadata, show);
    formatted := formatted + SegmentLine(question.segment);
    formatted := formatted + PeriodLines(question.months, question.endDate);
    formatted := formatted + "Answer Options:\n";
    ghost var options := formatted;
    for i := 0 to |metadata.answers|
      invariant formatted == options + AnswerLines(metadata.answers[..i], show)
    {
      AnswerLinesStep(metadata.answers, i, show);
      var answer := metadata.answers[i];
      formatted := formatted + AnswerLine(answer, show);
      Seqs.AppendAssoc(options, AnswerLines(metadata.answers[..i], show), AnswerLine(answer, show));
    }
    assert metadata.answers[..|metadata.answers|] == metadata.answers;
    formatted := formatted + "\n";
    ghost var head := formatted;
    if data.Trend? {
      formatted := formatted + "Trend Data:\n";
      formatted := AppendPointBlocks(formatted, data.points, metadata.answers, show);
      Seqs.AppendAssoc(head, "Trend Data:\n", PointBlocks(data.points, metadata.answers, show));
    } else {
      ghost var kind := formatted;
      formatted := formatted + "Single Point Data:\n";
      formatted := formatted + SampleSizeLine(data.point.n, show);
      formatted := formatted + "Results:\n";
      formatted := AppendResultLines(formatted, data.point.answerResults, metadata.answers, show);
      Regroup(kind, "Single Point Data:\n", SampleSizeLine(data.point.n, show), "Results:\n",
              ResultLines(data.point.answerResults, metadata.answers, show));
    }
    assert formatted == head + DataBlock(data, metadata.answers, show);
  }

  /** The rendering starts with the header lines, then the answer options. */
  lemma FormattedStartsWithHeader(q: App.SavedQuestion, show: Json -> string)
    ensures var f, h := Formatted(q, show), HeaderBlock(q, show) + "Answer Options:\n" + AnswerLines(q.metadata.answers, show);
      |h| <= |f| && f[..|h|] == h
  {
  }

  /** Results without a value leave no trace in the rendering. */
  lemma {:induction false} ResultLinesIgnoreMissing(results: seq<AnswerResult>, answers: seq<Answer>, show: Json -> string)
    ensures ResultLines(results, answers, show) == ResultLines(Seqs.Filter(results, HasResult), answers, show)
  {
    if |results| > 0 {
      var init, last := results[..|results| - 1], results[|results| - 1];
      ResultLinesIgnoreMissing(init, answers, show);
      var kept := Seqs.Filter(init, HasResult);
      assert results == init + [last];
      ResultLinesSnoc(init, last, answers, show);
      assert Seqs.Filter(results, HasResult) == kept + (if HasResult(last) then [last] else []);
      if HasResult(last) {
        ResultLinesSnoc(kept, last, answers, show);
      } else {
        assert kept + [] == kept;
      }
    }
  }

  /** Rendering two runs of results renders each in turn. */
  lemma ResultLinesAppend(a: seq<AnswerResult>, b: seq<AnswerResult>, answers: seq<Answer>, show: Json -> string)
    ensures ResultLines(a + b, answers, show) == ResultLines(a, answers, show) + ResultLines(b, answers, show)
  {
    Strings.ConcatAppend(a, b, (r: AnswerResult) => ResultText(answers, r, show));
  }

  /** Rendering trend points one run after another renders each run in turn. */
  lemma PointBlocksAppend(p: seq<DataPoint>, q: seq<DataPoint>, answers: seq<Answer>, show: Json -> string)
    ensures PointBlocks(p + q, answers, show) == PointBlocks(p, answers, show) + PointBlocks(q, answers, show)
  {
    Strings.ConcatAppend(p, q, (d: DataPoint) => PointBlock(d, answers, show));
  }

  /** A row's line in the prompt: its label and its value, the chart's percentage scaled back. */
  function RowLine(row: Charts.PointRow, show: Json -> string): string {
    "- " + Render(row.answer, show) + ": " + show(Num(row.value / 100.0)) + "\n"
  }

  function RowLines(rows: seq<Charts.PointRow>, show: Json -> string): string {
    Strings.Concat(rows, (row: Charts.PointRow) => RowLine(row, show))
  }

  lemma RowLinesSnoc(rows: seq<Charts.PointRow>, row: Charts.PointRow, show: Json -> string)
    ensures RowLines(rows + [row], show) == RowLines(rows, show) + RowLine(row, show)
  {
    assert (rows + [row])[..|rows|] == rows;
  }

  lemma RowLineOfResult(answers: seq<Answer>, r: AnswerResult, show: Json -> string)
    requires HasResult(r)
    ensures RowLine(Charts.RowOf(answers, r), show) == ResultText(answers, r, show)
  {
    assert Charts.RowOf(answers, r).value / 100.0 == r.result.value;
  }

  /**
   * The prompt's result lines and the chart's rows describe the same results: one line per
   * row, in order, with the same answer label and the same value.
   */
  lemma {:induction false} ResultLinesMatchChartRows(results: seq<AnswerResult>, answers: seq<Answer>, show: Json -> string)
    ensures ResultLines(results, answers, show) == RowLines(Charts.ResultRows(results, answers), show)
  {
    if |results| > 0 {
      var init, last := results[..|results| - 1], results[|results| - 1];
      assert results == init + [last];
      ResultLinesMatchChartRows(init, answers, show);
      ResultLinesSnoc(init, last, answers, show);
      Charts.ResultRowsSnoc(init, last, answers);
      var rows := Charts.ResultRows(init, answers);
      if HasResult(last) {
        RowLineOfResult(answers, last, show);
        RowLinesSnoc(rows, Charts.RowOf(answers, last), show);
      } else {
        assert ResultText(answers, last, show) == "";
        assert rows + [] == rows;
        assert ResultLines(init, answers, show) + "" == ResultLines(init, answers, show);
      }
    }
  }

  // ---------------------------------------------------------------------------
  // Prompts
  // ---------------------------------------------------------------------------

  datatype Analysis = Comprehensive | Summary | Trends | Segments

  /** The `analysis_type` chain: anything unrecognised selects the segments template. */
  function InsightsTemplate(analysisType: string): (t: Analysis)
    ensures t == Comprehensive <==> analysisType == "comprehensive"
    ensures t == Summary <==> analysisType == "summary"
    ensures t == Trends <==> analysisType == "trends"
    ensures t == Segments <==> analysisType != "comprehensive" && analysisType != "summary" && analysisType != "trends"
  {
    if analysisType == "comprehensive" then Comprehensive
    else if analysisType == "summary" then Summary
    else if analysisType == "trends" then Trends
    else Segments
  }

  /** The rendered questions joined by blank lines. */
  function FormattedData(questions: seq<App.SavedQuestion>, show: Json -> string): string {
    Strings.Join(seq(|questions|, i requires 0 <= i < |questions| => Formatted(questions[i], show)), "\n\n")
  }

  /** `generate_insights` prompt: the selected template followed by the data. */
  function InsightsPrompt(questions: seq<App.SavedQuestion>, analysisType: string,
                          templates: Analysis -> string, show: Json -> string): string
  {
    templates(InsightsTemplate(analysisType)) + FormattedData(questions, show)
  }

  /** `generate_report` prompt: the executive template followed by the data. */
  function ReportPrompt(questions: seq<App.SavedQuestion>, template: string, show: Json -> string): string {
    template + FormattedData(questions, show)
  }

  /** No questions give the bare template; one question gives its rendering; more are separated by a blank line. */
  lemma FormattedDataShape(questions: seq<App.SavedQuestion>, q: App.SavedQuestion, show: Json -> string)
    ensures FormattedData([], show) == ""
    ensures FormattedData([q], show) == Formatted(q, show)
    ensures |questions| >= 1 ==>
      FormattedData(questions + [q], show) == FormattedData(questions, show) + "\n\n" + Formatted(q, show)
  {
    if |questions| >= 1 {
      var parts := seq(|questions|, i requires 0 <= i < |questions| => Formatted(questions[i], show));
      var qs := questions + [q];
      assert seq(|qs|, i requires 0 <= i < |qs| => Formatted(qs[i], show)) == parts + [Formatted(q, show)];
      Strings.JoinSnoc(parts, Formatted(q, show), "\n\n");
    }
    assert seq(1, i requires 0 <= i < 1 => Formatted([q][i], show)) == [Formatted(q, show)];
  }

  /** Every analysis type outside the three named ones gives the same prompt as "segments". */
  lemma UnknownAnalysisIsSegments(questions: seq<App.SavedQuestion>, analysisType: string,
                                  templates: Analysis -> string, show: Json -> string)
    requires analysisType != "comprehensive" && analysisType != "summary" && analysisType != "trends"
    ensures InsightsPrompt(questions, analysisType, templates, show) == InsightsPrompt(questions, "segments", templates, show)
  {
  }

  /** The prompt starts with the template and ends with the data. */
  lemma PromptShape(questions: seq<App.SavedQuestion>, analysisType: string, templates: Analysis -> string, show: Json -> string)
    ensures var p, t := InsightsPrompt(questions, analysisType, templates, show), templates(InsightsTemplate(analysisType));
      p[..|t|] == t && p[|t|..] == FormattedData(questions, show)
  {
  }
}
