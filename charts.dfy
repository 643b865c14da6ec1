/**
 * Chart data preparation of the question visualiser (visualization.py): flattening trend or
 * single-point data into rows, one per answer result that has a value, and choosing the axes.
 * The plotting library itself is not modelled; a figure is the data and choices handed to it.
 */
module Charts {
  import opened Wrappers
  import opened Json
  import opened SurveyData
  import Seqs

  /** A single-point row: answer label and percentage. */
  datatype PointRow = PointRow(answer: Json, value: real)

  /** A trend row: the point's study date, answer label and percentage. */
  datatype TrendRow = TrendRow(date: Json, answer: Json, value: real)

  /** The row of one result that has a value: the answer's label and the value as a percentage. */
  function RowOf(answers: seq<Answer>, r: AnswerResult): PointRow
    requires HasResult(r)
  {
    PointRow(AnswerLabel(answers, r.id), r.result.value * 100.0)
  }

  /** The rows of one list of results, skipping results whose value is missing or null. */
  function ResultRows(results: seq<AnswerResult>, answers: seq<Answer>): seq<PointRow> {
    if |results| == 0 then []
    else
      var last := results[|results| - 1];
      ResultRows(results[..|results| - 1], answers) + (if HasResult(last) then [RowOf(answers, last)] else [])
  }

  /** Rows stamped with a date. */
  function Dated(date: Json, rows: seq<PointRow>): (r: seq<TrendRow>)
    ensures |r| == |rows|
    ensures forall k :: 0 <= k < |rows| ==> r[k] == TrendRow(date, rows[k].answer, rows[k].value)
  {
    seq(|rows|, k requires 0 <= k < |rows| => TrendRow(date, rows[k].answer, rows[k].value))
  }

  /** The trend rows: each point's result rows stamped with the point's date, points in order. */
  function TrendRows(points: seq<DataPoint>, answers: seq<Answer>): seq<TrendRow> {
    if |points| == 0 then []
    else
      var last := points[|points| - 1];
      TrendRows(points[..|points| - 1], answers) + Dated(GetValue(last.studyDate), ResultRows(last.answerResults, answers))
  }

  method PrepareTrendData(data: seq<DataPoint>, metadata: Metadata) returns (rows: seq<TrendRow>)
    ensures rows == TrendRows(data, metadata.answers)
  {
    rows := [];
    for i := 0 to |data|
      invariant rows == TrendRows(data[..i], metadata.answers)
    {
      var point := data[i];
      var date := GetValue(point.studyDate);
      var results := point.answerResults;
      ghost var before := rows;
      for j := 0 to |results|
        invariant rows == before + Dated(date, ResultRows(results[..j], metadata.answers))
      {
        var result := results[j];
        assert results[..j + 1][..j] == results[..j];
        if result.result.Some? {
          var answerText := AnswerLabel(metadata.answers, result.id);
          rows := rows + [TrendRow(date, answerText, result.result.value * 100.0)];
        }
      }
      assert results[..|results|] == results;
      assert data[..i + 1][..i] == data[..i];
    }
    assert data[..|data|] == data;
  }

  method PrepareSinglePointData(data: DataPoint, metadata: Metadata) returns (rows: seq<PointRow>)
    ensures rows == ResultRows(data.answerResults, metadata.answers)
  {
    rows := [];
    var results := data.answerResults;
    for j := 0 to |results|
      invariant rows == ResultRows(results[..j], metadata.answers)
    {
      var result := results[j];
      assert results[..j + 1][..j] == results[..j];
      if result.result.Some? {
        var answerText := AnswerLabel(metadata.answers, result.id);
        rows := rows + [PointRow(answerText, result.result.value * 100.0)];
      }
    }
    assert results[..|results|] == results;
  }

  /**
   * One row per result that has a value, in order: the k-th row is the labelled percentage
   * of the k-th such result.
   */
  lemma {:induction false} ResultRowsOfKept(results: seq<AnswerResult>, answers: seq<Answer>)
    ensures var kept := Seqs.Filter(results, HasResult);
      && |ResultRows(results, answers)| == |kept|
      && forall k :: 0 <= k < |kept| ==> ResultRows(results, answers)[k] == RowOf(answers, kept[k])
  {
    if |results| > 0 {
      ResultRowsOfKept(results[..|results| - 1], answers);
    }
  }

  lemma ResultRowsSnoc(results: seq<AnswerResult>, r: AnswerResult, answers: seq<Answer>)
    ensures ResultRows(results + [r], answers) == ResultRows(results, answers) + (if HasResult(r) then [RowOf(answers, r)] else [])
  {
    assert (results + [r])[..|results|] == results;
  }

  /** Results without a value contribute nothing: dropping them first gives the same rows. */
  lemma ResultRowsIgnoreMissing(results: seq<AnswerResult>, answers: seq<Answer>)
    ensures ResultRows(results, answers) == ResultRows(Seqs.Filter(results, HasResult), answers)
  {
    var kept := Seqs.Filter(results, HasResult);
    Seqs.FilterAll(kept, HasResult);
    ResultRowsOfKept(results, answers);
    ResultRowsOfKept(kept, answers);
  }

  lemma DatedAppend(date: Json, a: seq<PointRow>, b: seq<PointRow>)
    ensures Dated(date, a + b) == Dated(date, a) + Dated(date, b)
  {
  }

  /** Trend preparation of two runs of points is the preparation of each, in order. */
  lemma {:induction false} TrendRowsAppend(p: seq<DataPoint>, q: seq<DataPoint>, answers: seq<Answer>)
    ensures TrendRows(p + q, answers) == TrendRows(p, answers) + TrendRows(q, answers)
    decreases |q|
  {
    if |q| > 0 {
      var pq := p + q;
      assert pq[..|pq| - 1] == p + q[..|q| - 1];
      TrendRowsAppend(p, q[..|q| - 1], answers);
    } else {
      assert p + q == p;
    }
  }

  /** Every trend row comes from one point: it carries that point's date and one of its result rows. */
  lemma {:induction false} TrendRowProvenance(points: seq<DataPoint>, answers: seq<Answer>, k: nat)
    requires k < |TrendRows(points, answers)|
    ensures exists i :: (0 <= i < |points|
               && TrendRows(points, answers)[k].date == GetValue(points[i].studyDate)
               && PointRow(TrendRows(points, answers)[k].answer, TrendRows(points, answers)[k].value)
                  in ResultRows(points[i].answerResults, answers))
  {
    var n := |points| - 1;
    var init := TrendRows(points[..n], answers);
    var rows := TrendRows(points, answers);
    if k < |init| {
      TrendRowProvenance(points[..n], answers, k);
      var i :| 0 <= i < n && init[k].date == GetValue(points[..n][i].studyDate)
        && PointRow(init[k].answer, init[k].value) in ResultRows(points[..n][i].answerResults, answers);
      assert points[..n][i] == points[i];
    } else {
      var own := ResultRows(points[n].answerResults, answers);
      assert rows[k] == TrendRow(GetValue(points[n].studyDate), own[k - |init|].answer, own[k - |init|].value);
      assert PointRow(rows[k].answer, rows[k].value) == own[k - |init|];
    }
  }

  datatype ChartKind = Line | Bar

  /** The data frame handed to the plot: trend rows or single-point rows. */
  datatype Frame = TrendFrame(trendRows: seq<TrendRow>) | PointFrame(pointRows: seq<PointRow>)

  /** A figure: chart kind, data, the x, y and colour columns, and the title. */
  datatype Figure = Figure(kind: ChartKind, frame: Frame, x: string, y: string, color: Option<string>, title: Json)

  /** `title or metadata.get('Text', 'Question Results')`: an empty title counts as none. */
  function ChartTitle(title: Option<string>, metadata: Metadata): (r: Json)
    ensures title.Some? && title.value != "" ==> r == Str(title.value)
    ensures (title.None? || title.value == "") && metadata.text.None? ==> r == Str("Question Results")
    ensures (title.None? || title.value == "") && metadata.text.Some? ==> r == metadata.text.value
  {
    if title.Some? && title.value != "" then Str(title.value) else metadata.text.GetOr(Str("Question Results"))
  }

  method CreateVisualization(data: QuestionData, metadata: Metadata, chartType: string, title: Option<string>)
    returns (fig: Figure)
    ensures fig.kind == (if chartType == "line" then Line else Bar)
    ensures data.Trend? ==> fig.frame == TrendFrame(TrendRows(data.points, metadata.answers))
                             && fig.x == "Date" && fig.color == Some("Answer")
    ensures data.Single? ==> fig.frame == PointFrame(ResultRows(data.point.answerResults, metadata.answers))
                              && fig.x == "Answer" && fig.color.None?
    ensures fig.y == "Value" && fig.title == ChartTitle(title, metadata)
  {
    var frame: Frame;
    var xCol: string;
    var colorCol: Option<string>;
    if data.Trend? {
      var rows := PrepareTrendData(data.points, metadata);
      frame, xCol, colorCol := TrendFrame(rows), "Date", Some("Answer");
    } else {
      var rows := PrepareSinglePointData(data.point, metadata);
      frame, xCol, colorCol := PointFrame(rows), "Answer", None;
    }
    var kind := if chartType == "line" then Line else Bar;
    fig := Figure(kind, frame, xCol, "Value", colorCol, ChartTitle(title, metadata));
  }
}
