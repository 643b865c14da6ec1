/**
 * The shapes of the Prosper API's question metadata and question data, as the dashboard reads
 * them, and the first-match answer lookup that the app, the prompt formatter and the charts
 * share. A key the API leaves out is `None`; a key present with JSON null is `Some(Null)`.
 */
module SurveyData {
  import opened Wrappers
  import opened Json

  /** One answer option of the metadata: its `ID` and `Text`. */
  datatype Answer = Answer(id: Option<Json>, text: Option<Json>)

  /** One entry of `AnswerResults`; `result` is `None` when `Result` is missing or null. */
  datatype AnswerResult = AnswerResult(id: Option<Json>, result: Option<real>)

  /** One data point: `StudyDate`, sample size `N`, and its results (a missing list is empty). */
  datatype DataPoint = DataPoint(studyDate: Option<Json>, n: Option<real>, answerResults: seq<AnswerResult>)

  /** Question metadata: `Text`, `Type`, `ID` and the answer options (a missing list is empty). */
  datatype Metadata = Metadata(text: Option<Json>, questionType: Option<Json>, id: Option<Json>, answers: seq<Answer>)

  /** The API returns a list of points for trend requests and one point otherwise. */
  datatype QuestionData = Trend(points: seq<DataPoint>) | Single(point: DataPoint)

  /** Python's `d.get(key)`: a missing key and JSON null both read as `None`. */
  function GetValue(o: Option<Json>): Json {
    o.GetOr(Null)
  }

  /** `ans.get('ID') == answer_id`. */
  predicate SameId(answer: Answer, id: Option<Json>) {
    GetValue(answer.id) == GetValue(id)
  }

  /** The position of the first answer whose id equals `id`. */
  function FindAnswer(answers: seq<Answer>, id: Option<Json>): (r: Option<nat>)
    ensures r.Some? ==> r.value < |answers| && SameId(answers[r.value], id)
    ensures r.Some? ==> forall j :: 0 <= j < r.value ==> !SameId(answers[j], id)
    ensures r.None? <==> forall j :: 0 <= j < |answers| ==> !SameId(answers[j], id)
  {
    if |answers| == 0 then None
    else if SameId(answers[0], id) then Some(0)
    else match FindAnswer(answers[1..], id)
      case None => None
      case Some(k) => Some(k + 1)
  }

  /** The label of an answer id: the first matching answer's `Text` ("Unknown" if it has none), else "Unknown". */
  function AnswerLabel(answers: seq<Answer>, id: Option<Json>): Json {
    match FindAnswer(answers, id)
    case Some(k) => answers[k].text.GetOr(Str("Unknown"))
    case None => Str("Unknown")
  }

  /** The label is taken from the first matching answer, whatever later answers say. */
  lemma AnswerLabelFirstMatch(answers: seq<Answer>, id: Option<Json>, k: nat)
    requires k < |answers| && SameId(answers[k], id)
    requires forall j :: 0 <= j < k ==> !SameId(answers[j], id)
    ensures AnswerLabel(answers, id) == answers[k].text.GetOr(Str("Unknown"))
  {
  }

  /** With no answer of that id the label is "Unknown". */
  lemma AnswerLabelNoMatch(answers: seq<Answer>, id: Option<Json>)
    requires forall j :: 0 <= j < |answers| ==> !SameId(answers[j], id)
    ensures AnswerLabel(answers, id) == Str("Unknown")
  {
  }

  /** A result without an `ID` matches the first answer without one (both read as `None`). */
  lemma MissingIdsMatch(answers: seq<Answer>)
    requires |answers| >= 1 && answers[0].id.None?
    ensures FindAnswer(answers, None) == Some(0)
  {
  }

  /** `result.get('Result') is not None`. */
  predicate HasResult(r: AnswerResult) {
    r.result.Some?
  }
}
