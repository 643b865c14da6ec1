/**
 * The dashboard's session bookkeeping (app.py): the saved-question list with duplicate
 * suppression and remove-by-text, the valid-data-point filter, the segment selector's label to
 * id mapping, credential lookup, and the login flags. Widgets and rendering are not modelled;
 * what a widget returns is a parameter.
 */
module App {
  import opened Wrappers
  import opened Json
  import opened SurveyData
  import Seqs
  import Strings
  import Prosper
  import Charts

  // ---------------------------------------------------------------------------
  // Saved questions
  // ---------------------------------------------------------------------------

  /** A saved question; `uid` and `savedAt` are the generated id and timestamp, given as inputs. */
  datatype SavedQuestion = SavedQuestion(
    uid: string, questionId: string, metadata: Metadata, data: QuestionData,
    segment: string, months: int, endDate: Option<string>, savedAt: string)

  /** Two saved questions are duplicates when they ask for the same question, segment, months and end date. */
  predicate SameRequest(a: SavedQuestion, b: SavedQuestion) {
    a.questionId == b.questionId && a.segment == b.segment && a.months == b.months && a.endDate == b.endDate
  }

  predicate AlreadySaved(saved: seq<SavedQuestion>, q: SavedQuestion) {
    exists k :: 0 <= k < |saved| && SameRequest(saved[k], q)
  }

  /** The saved list after `save_question_data`: unchanged if a duplicate exists, else `q` at the end. */
  function AfterSave(saved: seq<SavedQuestion>, q: SavedQuestion): seq<SavedQuestion> {
    if AlreadySaved(saved, q) then saved else saved + [q]
  }

  /** No two saved questions are duplicates of each other. */
  ghost predicate NoDuplicates(saved: seq<SavedQuestion>) {
    forall i, j :: 0 <= i < j < |saved| ==> !SameRequest(saved[i], saved[j])
  }

  /** Saving the same request twice stores it once. */
  lemma SaveIdempotent(saved: seq<SavedQuestion>, q: SavedQuestion, r: SavedQuestion)
    requires SameRequest(q, r)
    ensures AfterSave(AfterSave(saved, q), r) == AfterSave(saved, q)
  {
    var once := AfterSave(saved, q);
    if !AlreadySaved(saved, q) {
      assert once[|saved|] == q;
    }
    assert AlreadySaved(once, r) by {
      if AlreadySaved(saved, q) {
        var k :| 0 <= k < |saved| && SameRequest(saved[k], q);
        assert SameRequest(once[k], r);
      } else {
        assert SameRequest(once[|saved|], r);
      }
    }
  }

  /** Saving keeps the list free of duplicates, and after saving the request is present. */
  lemma SavePreservesNoDuplicates(saved: seq<SavedQuestion>, q: SavedQuestion)
    requires NoDuplicates(saved)
    ensures NoDuplicates(AfterSave(saved, q))
    ensures AlreadySaved(AfterSave(saved, q), q)
  {
    var after := AfterSave(saved, q);
    if !AlreadySaved(saved, q) {
      assert SameRequest(after[|saved|], q);
      forall i, j | 0 <= i < j < |after| ensures !SameRequest(after[i], after[j]) {
        if j == |saved| {
          assert after[i] == saved[i];
          assert !SameRequest(saved[i], q);
        }
      }
    }
  }

  /** Metadata and data play no part in duplicate detection. */
  lemma DuplicateIgnoresPayload(saved: seq<SavedQuestion>, q: SavedQuestion, metadata: Metadata, data: QuestionData)
    ensures AlreadySaved(saved, q) <==> AlreadySaved(saved, q.(metadata := metadata, data := data))
  {
    var q2 := q.(metadata := metadata, data := data);
    assert forall k :: 0 <= k < |saved| ==> (SameRequest(saved[k], q) <==> SameRequest(saved[k], q2));
  }

  /**
   * The remove-by-text filter: when every saved question has a metadata `Text`, the questions
   * whose text differs from the selection, in order; a saved question without `Text` makes the
   * comprehension fail.
   */
  function WithoutText(saved: seq<SavedQuestion>, selected: Json): Option<seq<SavedQuestion>> {
    if exists k :: 0 <= k < |saved| && saved[k].metadata.text.None? then None
    else Some(Seqs.Filter(saved, (q: SavedQuestion) => q.metadata.text != Some(selected)))
  }

  /** Removal keeps exactly the questions with another text, and nothing with the selected text remains. */
  lemma WithoutTextKeeps(saved: seq<SavedQuestion>, selected: Json, q: SavedQuestion)
    requires forall k :: 0 <= k < |saved| ==> saved[k].metadata.text.Some?
    ensures WithoutText(saved, selected).Some?
    ensures q in WithoutText(saved, selected).value <==> q in saved && q.metadata.text.value != selected
  {
    Seqs.FilterMembership(saved, (q: SavedQuestion) => q.metadata.text != Some(selected), q);
  }

  /** Removing the same text twice removes nothing more. */
  lemma WithoutTextIdempotent(saved: seq<SavedQuestion>, selected: Json)
    requires forall k :: 0 <= k < |saved| ==> saved[k].metadata.text.Some?
    ensures var once := WithoutText(saved, selected).value;
      WithoutText(once, selected) == Some(once)
  {
    var keep := (q: SavedQuestion) => q.metadata.text != Some(selected);
    var once := Seqs.Filter(saved, keep);
    forall k | 0 <= k < |once| ensures once[k].metadata.text.Some? {
      Seqs.FilterMembership(saved, keep, once[k]);
    }
    Seqs.FilterAll(once, keep);
  }

  /** A saved question without metadata `Text` makes removal fail. */
  lemma WithoutTextFails(saved: seq<SavedQuestion>, selected: Json, k: nat)
    requires k < |saved| && saved[k].metadata.text.None?
    ensures WithoutText(saved, selected).None?
  {
  }

  // ---------------------------------------------------------------------------
  // Valid data points
  // ---------------------------------------------------------------------------

  /** `N` (0 when missing) is positive, the results are non-empty, and some result has a value. */
  predicate IsValidPoint(p: DataPoint) {
    && p.n.GetOr(0.0) > 0.0
    && |p.answerResults| > 0
    && exists r :: r in p.answerResults && HasResult(r)
  }

  method ValidDataPoints(data: seq<DataPoint>) returns (validDataPoints: seq<DataPoint>)
    ensures validDataPoints == Seqs.Filter(data, IsValidPoint)
  {
    validDataPoints := [];
    for i := 0 to |data|
      invariant validDataPoints == Seqs.Filter(data[..i], IsValidPoint)
    {
      var point := data[i];
      assert data[..i + 1][..i] == data[..i];
      var anyResult := false;
      for j := 0 to |point.answerResults|
        invariant anyResult <==> exists k :: 0 <= k < j && HasResult(point.answerResults[k])
      {
        if point.answerResults[j].result.Some? {
          anyResult := true;
        }
      }
      assert anyResult <==> exists r :: r in point.answerResults && HasResult(r);
      if point.n.GetOr(0.0) > 0.0 && |point.answerResults| > 0 && anyResult {
        validDataPoints := validDataPoints + [point];
      }
    }
    assert data[..|data|] == data;
  }

  /** A point is kept exactly when it is valid. */
  lemma ValidPointsMembership(data: seq<DataPoint>, p: DataPoint)
    ensures p in Seqs.Filter(data, IsValidPoint) <==> p in data && IsValidPoint(p)
  {
    Seqs.FilterMembership(data, IsValidPoint, p);
  }

  /** Every valid point contributes at least one chart row. */
  lemma ValidPointHasChartRow(p: DataPoint, answers: seq<Answer>)
    requires IsValidPoint(p)
    ensures |Charts.ResultRows(p.answerResults, answers)| >= 1
  {
    var r :| r in p.answerResults && HasResult(r);
    Seqs.FilterMembership(p.answerResults, HasResult, r);
    Charts.ResultRowsOfKept(p.answerResults, answers);
  }

  // ---------------------------------------------------------------------------
  // Segment selector
  // ---------------------------------------------------------------------------

  /** One entry of the segment table: display name, demographic question id, answer labels to ids. */
  datatype SegmentChoice = SegmentChoice(name: string, questionId: string, answers: seq<(string, string)>)

  const GenderAnswers: seq<(string, string)> := [("Male", "0"), ("Female", "1")]
  const AgeAnswers: seq<(string, string)> :=
    [("18-24", "1"), ("25-34", "2"), ("35-44", "3"), ("45-54", "4"), ("55-64", "5"), ("65+", "6")]
  const MaritalAnswers: seq<(string, string)> :=
    [("Married", "0"), ("Living with Unmarried Partner", "1"), ("Divorced or separated", "2"), ("Widowed", "3"),
     ("Single, never married", "4")]

  const Gender := SegmentChoice("Gender", "1", GenderAnswers)
  const Age := SegmentChoice("Age", "3", AgeAnswers)
  const MaritalStatus := SegmentChoice("Marital Status", "2", MaritalAnswers)

  const CommonSegments: seq<SegmentChoice> := [Gender, Age, MaritalStatus]

  predicate IsLabel(answers: seq<(string, string)>, text: string) {
    exists k :: 0 <= k < |answers| && answers[k].0 == text
  }

  /** `answers[text]`: the id of the text's entry, the first one when a label repeats. */
  function AnswerId(answers: seq<(string, string)>, text: string): (id: string)
    requires IsLabel(answers, text)
    ensures exists k :: 0 <= k < |answers| && answers[k] == (text, id) && FirstLabel(answers, text, k)
  {
    if answers[0].0 == text then answers[0].1
    else
      var id := AnswerId(answers[1..], text);
      assert exists k :: 0 <= k < |answers| && answers[k] == (text, id) && FirstLabel(answers, text, k) by {
        var k :| 0 <= k < |answers[1..]| && answers[1..][k] == (text, id) && FirstLabel(answers[1..], text, k);
        assert answers[k + 1] == (text, id);
        FirstLabelShift(answers, text, k);
      }
      id
  }

  /** No entry before position `k` carries the label. */
  predicate FirstLabel(answers: seq<(string, string)>, text: string, k: nat) {
    forall m :: 0 <= m < k && m < |answers| ==> answers[m].0 != text
  }

  lemma FirstLabelShift(answers: seq<(string, string)>, text: string, k: nat)
    requires |answers| > 0 && answers[0].0 != text && FirstLabel(answers[1..], text, k)
    ensures FirstLabel(answers, text, k + 1)
  {
    forall m | 0 <= m < k + 1 && m < |answers| ensures answers[m].0 != text {
      if m > 0 {
        assert answers[m] == answers[1..][m - 1];
      }
    }
  }

  /** What the multiselect widgets returned: for each table entry, labels among that entry's options. */
  predicate SelectionsFit(table: seq<SegmentChoice>, selections: seq<seq<string>>) {
    |selections| == |table|
    && forall i, j :: 0 <= i < |table| && 0 <= j < |selections[i]| ==> IsLabel(table[i].answers, selections[i][j])
  }

  function AnswerIds(answers: seq<(string, string)>, labels: seq<string>): (ids: seq<string>)
    requires forall j :: 0 <= j < |labels| ==> IsLabel(answers, labels[j])
    ensures |ids| == |labels|
    ensures forall j :: 0 <= j < |labels| ==> ids[j] == AnswerId(answers, labels[j])
  {
    if |labels| == 0 then []
    else AnswerIds(answers, labels[..|labels| - 1]) + [AnswerId(answers, labels[|labels| - 1])]
  }

  /** One segment per table entry with a non-empty selection, in table order. */
  function SelectedSegments(table: seq<SegmentChoice>, selections: seq<seq<string>>): seq<Prosper.Segment>
    requires SelectionsFit(table, selections)
  {
    if |table| == 0 then []
    else
      var n := |table| - 1;
      SelectedSegments(table[..n], selections[..n])
      + (if |selections[n]| > 0 then [Prosper.Segment(table[n].questionId, AnswerIds(table[n].answers, selections[n]))] else [])
  }

  /** `SelectedSegments` on a non-empty table: the segments of all but the last entry, then the last one's. */
  lemma SelectedSegmentsUnfold(table: seq<SegmentChoice>, selections: seq<seq<string>>)
    requires SelectionsFit(table, selections) && |table| > 0
    ensures var n := |table| - 1;
      && SelectionsFit(table[..n], selections[..n])
      && SelectedSegments(table, selections) == SelectedSegments(table[..n], selections[..n])
           + (if |selections[n]| > 0 then [Prosper.Segment(table[n].questionId, AnswerIds(table[n].answers, selections[n]))] else [])
  {
  }

  /** The prefix step of `SelectedSegments`: entry `i` adds its segment when something is selected. */
  lemma SelectedSegmentsStep(table: seq<SegmentChoice>, selections: seq<seq<string>>, i: nat)
    requires SelectionsFit(table, selections) && i < |table|
    ensures SelectionsFit(table[..i], selections[..i]) && SelectionsFit(table[..i + 1], selections[..i + 1])
    ensures SelectedSegments(table[..i + 1], selections[..i + 1]) == SelectedSegments(table[..i], selections[..i])
      + (if |selections[i]| > 0 then [Prosper.Segment(table[i].questionId, AnswerIds(table[i].answers, selections[i]))] else [])
  {
    assert table[..i + 1][..i] == table[..i] && selections[..i + 1][..i] == selections[..i];
    assert SelectionsFit(table[..i + 1], selections[..i + 1]);
    SelectedSegmentsUnfold(table[..i + 1], selections[..i + 1]);
  }

  /** The inner loop of `create_segment_selector`: the id of each selected label, in order. */
  method LookupAnswerIds(answers: seq<(string, string)>, labels: seq<string>) returns (answerIds: seq<string>)
    requires forall j :: 0 <= j < |labels| ==> IsLabel(answers, labels[j])
    ensures answerIds == AnswerIds(answers, labels)
  {
    answerIds := [];
    for j := 0 to |labels|
      invariant answerIds == AnswerIds(answers, labels[..j])
    {
      assert labels[..j + 1][..j] == labels[..j];
      answerIds := answerIds + [AnswerId(answers, labels[j])];
    }
    assert labels[..|labels|] == labels;
  }

  method CreateSegmentSelector(table: seq<SegmentChoice>, selections: seq<seq<string>>) returns (selectedSegments: seq<Prosper.Segment>)
    requires SelectionsFit(table, selections)
    ensures selectedSegments == SelectedSegments(table, selections)
  {
    selectedSegments := [];
    for i := 0 to |table|
      invariant SelectionsFit(table[..i], selections[..i])
      invariant selectedSegments == SelectedSegments(table[..i], selections[..i])
    {
      SelectedSegmentsStep(table, selections, i);
      var selectedAnswers := selections[i];
      if |selectedAnswers| > 0 {
        var answerIds := LookupAnswerIds(table[i].answers, selectedAnswers);
        selectedSegments := selectedSegments + [Prosper.Segment(table[i].questionId, answerIds)];
      }
    }
    assert table[..|table|] == table && selections[..|selections|] == selections;
  }

  /** Ids and labels of a table that contain no segment-string separator. */
  predicate SeparatorFree(s: string) {
    '|' !in s && '~' !in s && '^' !in s
  }

  predicate CleanTable(table: seq<SegmentChoice>) {
    forall i :: 0 <= i < |table| ==>
      (SeparatorFree(table[i].questionId)
       && forall k :: 0 <= k < |table[i].answers| ==> SeparatorFree(table[i].answers[k].1))
  }

  lemma {:induction false} AnswerIdsClean(answers: seq<(string, string)>, labels: seq<string>)
    requires forall j :: 0 <= j < |labels| ==> IsLabel(answers, labels[j])
    requires forall k :: 0 <= k < |answers| ==> SeparatorFree(answers[k].1)
    ensures forall j :: 0 <= j < |labels| ==> SeparatorFree(AnswerIds(answers, labels)[j])
  {
    if |labels| > 0 {
      AnswerIdsClean(answers, labels[..|labels| - 1]);
    }
  }

  /** The selector's segments from a clean table serialise to a string that parses back to them. */
  lemma {:induction false} SelectedSegmentsWellFormed(table: seq<SegmentChoice>, selections: seq<seq<string>>)
    requires SelectionsFit(table, selections) && CleanTable(table)
    ensures forall k :: 0 <= k < |SelectedSegments(table, selections)| ==> Prosper.WellFormed(SelectedSegments(table, selections)[k])
  {
    if |table| > 0 {
      var n := |table| - 1;
      assert SelectionsFit(table[..n], selections[..n]);
      SelectedSegmentsWellFormed(table[..n], selections[..n]);
      if |selections[n]| > 0 {
        AnswerIdsClean(table[n].answers, selections[n]);
      }
    }
  }

  lemma SelectorRoundTrip(table: seq<SegmentChoice>, selections: seq<seq<string>>)
    requires SelectionsFit(table, selections) && CleanTable(table)
    ensures Prosper.ParseSegmentString(Prosper.SegmentString(SelectedSegments(table, selections)))
         == Some(SelectedSegments(table, selections))
  {
    SelectedSegmentsWellFormed(table, selections);
    Prosper.SegmentStringRoundTrip(SelectedSegments(table, selections));
  }

  lemma CommonSegmentsClean()
    ensures CleanTable(CommonSegments)
  {
  }

  /** The id of the entry at `k` when no earlier entry has the same label. */
  lemma {:induction false} AnswerIdAt(answers: seq<(string, string)>, k: nat)
    requires k < |answers|
    requires forall m :: 0 <= m < k ==> answers[m].0 != answers[k].0
    ensures IsLabel(answers, answers[k].0) && AnswerId(answers, answers[k].0) == answers[k].1
  {
    if k > 0 {
      assert answers[0].0 != answers[k].0;
      AnswerIdAt(answers[1..], k - 1);
    }
  }

  lemma AnswerIdsOfTwo(answers: seq<(string, string)>, a: string, b: string)
    requires IsLabel(answers, a) && IsLabel(answers, b)
    ensures AnswerIds(answers, [a]) == [AnswerId(answers, a)]
    ensures AnswerIds(answers, [a, b]) == [AnswerId(answers, a), AnswerId(answers, b)]
  {
    assert [a, b][..1] == [a] && [a][..0] == [];
  }

  lemma GenderIds()
    ensures IsLabel(GenderAnswers, "Female") && AnswerId(GenderAnswers, "Female") == "1"
  {
    assert GenderAnswers[1] == ("Female", "1");
    AnswerIdAt(GenderAnswers, 1);
  }

  lemma DifferAt(a: string, b: string, i: nat)
    requires i < |a| && i < |b| && a[i] != b[i]
    ensures a != b
  {
  }

  lemma AgeIds()
    ensures IsLabel(AgeAnswers, "25-34") && AnswerId(AgeAnswers, "25-34") == "2"
    ensures IsLabel(AgeAnswers, "35-44") && AnswerId(AgeAnswers, "35-44") == "3"
  {
    assert AgeAnswers[0].0 == "18-24" && AgeAnswers[1] == ("25-34", "2") && AgeAnswers[2] == ("35-44", "3");
    DifferAt("18-24", "25-34", 0);
    DifferAt("18-24", "35-44", 0);
    DifferAt("25-34", "35-44", 0);
    AnswerIdAt(AgeAnswers, 1);
    AnswerIdAt(AgeAnswers, 2);
  }

  lemma SelectionsFitFirstTwo(t0: SegmentChoice, t1: SegmentChoice, t2: SegmentChoice, a: string, b: string, c: string)
    requires IsLabel(t0.answers, a) && IsLabel(t1.answers, b) && IsLabel(t1.answers, c)
    ensures SelectionsFit([t0, t1, t2], [[a], [b, c], []])
  {
    var table, selections := [t0, t1, t2], [[a], [b, c], []];
    forall i, j | 0 <= i < |table| && 0 <= j < |selections[i]| ensures IsLabel(table[i].answers, selections[i][j]) {
      if i == 0 {
        assert table[i] == t0 && selections[i] == [a];
      } else {
        assert i == 1 && table[i] == t1 && selections[i] == [b, c];
      }
    }
  }

  /** Three table entries with one label of the first and two of the second selected. */
  lemma SelectedSegmentsFirstTwo(t0: SegmentChoice, t1: SegmentChoice, t2: SegmentChoice, a: string, b: string, c: string)
    requires IsLabel(t0.answers, a) && IsLabel(t1.answers, b) && IsLabel(t1.answers, c)
    ensures SelectionsFit([t0, t1, t2], [[a], [b, c], []])
    ensures SelectedSegments([t0, t1, t2], [[a], [b, c], []])
         == [Prosper.Segment(t0.questionId, [AnswerId(t0.answers, a)]),
             Prosper.Segment(t1.questionId, [AnswerId(t1.answers, b), AnswerId(t1.answers, c)])]
  {
    var table, selections := [t0, t1, t2], [[a], [b, c], []];
    SelectionsFitFirstTwo(t0, t1, t2, a, b, c);
    AnswerIdsOfTwo(t0.answers, a, a);
    AnswerIdsOfTwo(t1.answers, b, c);
    SelectedSegmentsUnfold(table, selections);
    assert table[..2] == [t0, t1] && selections[..2] == [[a], [b, c]];
    SelectedSegmentsUnfold([t0, t1], [[a], [b, c]]);
    assert [t0, t1][..1] == [t0] && [[a], [b, c]][..1] == [[a]];
    SelectedSegmentsUnfold([t0], [[a]]);
    assert [t0][..0] == [] && [[a]][..0] == [];
  }

  lemma ExampleSegments()
    ensures SelectionsFit(CommonSegments, [["Female"], ["25-34", "35-44"], []])
    ensures SelectedSegments(CommonSegments, [["Female"], ["25-34", "35-44"], []])
         == [Prosper.Segment("1", ["1"]), Prosper.Segment("3", ["2", "3"])]
  {
    GenderIds();
    AgeIds();
    assert Gender.answers == GenderAnswers && Age.answers == AgeAnswers;
    SelectedSegmentsFirstTwo(Gender, Age, MaritalStatus, "Female", "25-34", "35-44");
  }

  /** Women aged 25 to 44: the Gender and Age filters, nothing for marital status. */
  lemma SelectorExample()
    ensures SelectionsFit(CommonSegments, [["Female"], ["25-34", "35-44"], []])
    ensures Prosper.SegmentString(SelectedSegments(CommonSegments, [["Female"], ["25-34", "35-44"], []])) == "1~1|3~2^3"
  {
    ExampleSegments();
    Prosper.GenderAgeSegmentString();
  }

  // ---------------------------------------------------------------------------
  // Credentials and the session
  // ---------------------------------------------------------------------------

  datatype EnvError = MissingVariable(name: string)

  /** `get_env_var`: Streamlit secrets first, then the environment, then the default. */
  function GetEnvVar(secrets: map<string, string>, env: map<string, string>, name: string, default: Option<string>)
    : (r: Result<string, EnvError>)
    ensures name in secrets ==> r == Ok(secrets[name])
    ensures name !in secrets && name in env ==> r == Ok(env[name])
    ensures name !in secrets && name !in env ==> (r.Ok? <==> default.Some?) && (r.Ok? ==> r.value == default.value)
  {
    if name in secrets then Ok(secrets[name])
    else if name in env then Ok(env[name])
    else if default.Some? then Ok(default.value)
    else Err(MissingVariable(name))
  }

  /** `check_credentials`: both default to "admin", so the lookups never fail. */
  function CheckCredentials(secrets: map<string, string>, env: map<string, string>, username: string, password: string): bool {
    var user := GetEnvVar(secrets, env, "APP_USERNAME", Some("admin")).value;
    var pass := GetEnvVar(secrets, env, "APP_PASSWORD", Some("admin")).value;
    username == user && password == pass
  }

  /** With nothing configured, exactly admin/admin is accepted. */
  lemma DefaultCredentials(username: string, password: string)
    ensures CheckCredentials(map[], map[], username, password) <==> username == "admin" && password == "admin"
  {
  }

  /** The session state the core operations touch. */
  class Session {
    var savedQuestions: seq<SavedQuestion>
    var authenticated: bool
    var username: Option<string>

    constructor()
      ensures savedQuestions == [] && !authenticated && username.None?
    {
      savedQuestions := [];
      authenticated := false;
      username := None;
    }

    /** Appends `q` unless a duplicate is saved; `saved` tells which message the page shows. */
    method SaveQuestionData(q: SavedQuestion) returns (saved: bool)
      modifies this
      ensures savedQuestions == AfterSave(old(savedQuestions), q)
      ensures saved <==> !AlreadySaved(old(savedQuestions), q)
      ensures authenticated == old(authenticated) && username == old(username)
    {
      for i := 0 to |savedQuestions|
        invariant forall k :: 0 <= k < i ==> !SameRequest(savedQuestions[k], q)
      {
        var existing := savedQuestions[i];
        if existing.questionId == q.questionId && existing.segment == q.segment
           && existing.months == q.months && existing.endDate == q.endDate
        {
          return false;
        }
      }
      savedQuestions := savedQuestions + [q];
      return true;
    }

    /** Rebuilds the list without the selected text; a question without `Text` leaves it as it was. */
    method RemoveQuestionsWithText(selected: Json) returns (ok: bool)
      modifies this
      ensures ok <==> WithoutText(old(savedQuestions), selected).Some?
      ensures ok ==> savedQuestions == WithoutText(old(savedQuestions), selected).value
      ensures !ok ==> savedQuestions == old(savedQuestions)
      ensures authenticated == old(authenticated) && username == old(username)
    {
      var r := WithoutText(savedQuestions, selected);
      if r.Some? {
        savedQuestions := r.value;
        return true;
      }
      return false;
    }

    /** A successful login sets the flag and the user; a failed one changes nothing. */
    method Login(secrets: map<string, string>, env: map<string, string>, name: string, password: string) returns (ok: bool)
      modifies this
      ensures ok <==> CheckCredentials(secrets, env, name, password)
      ensures ok ==> authenticated && username == Some(name)
      ensures !ok ==> authenticated == old(authenticated) && username == old(username)
      ensures savedQuestions == old(savedQuestions)
    {
      ok := CheckCredentials(secrets, env, name, password);
      if ok {
        authenticated := true;
        username := Some(name);
      }
    }

    method Logout()
      modifies this
      ensures !authenticated && username.None?
      ensures savedQuestions == old(savedQuestions)
    {
      authenticated := false;
      username := None;
    }
  }
}
