/**
 * The question index of semantic_search.py: corpus normalisation, the aligned
 * embedding store, and top-k ranking by an abstract similarity score.
 */
module Search {
  import opened Wrappers
  import opened Json
  import Strings

  /** A loaded question. The code keeps an explicit `question_id` and the text as the JSON values they are. */
  datatype QuestionRecord = QuestionRecord(questionId: Json, questionText: Json)

  datatype SearchResult = SearchResult(questionId: Json, questionText: Json, similarityScore: real)

  /**
   * UnsupportedFormat is the `ValueError` for a top level that is neither object nor array;
   * MalformedEntry is the `TypeError`/`AttributeError` Python raises on an entry of the wrong shape.
   */
  datatype LoadError = UnsupportedFormat | MalformedEntry

  datatype SearchError = EmptyIndex

  /** An embedding produced by the sentence-embedding model. */
  type Vector = seq<real>

  const TextKey: string := "question_text"
  const IdKey: string := "question_id"

  // ---------------------------------------------------------------------------
  // Corpus normalisation (the two list comprehensions of load_questions)
  // ---------------------------------------------------------------------------

  /**
   * Python's `"question_text" in v`: a key test on an object, a substring test on a
   * string, an element test on a list; on null, booleans and numbers it raises TypeError.
   */
  function ContainsTextKey(v: Json): Result<bool, LoadError> {
    match v
    case Obj(f) => Ok(HasKey(f, TextKey))
    case Str(s) => Ok(Strings.IsSubstring(TextKey, s))
    case Arr(items) => Ok(Str(TextKey) in items)
    case _ => Err(MalformedEntry)
  }

  /** An entry is kept when it is an object carrying `question_text`. */
  predicate Carries(v: Json) {
    v.Obj? && HasKey(v.fields, TextKey)
  }

  /** A non-object entry that passes the `in` test makes the record construction raise. */
  predicate Malformed(v: Json) {
    ContainsTextKey(v).Err? || (!v.Obj? && ContainsTextKey(v) == Ok(true))
  }

  predicate IsCorpus(data: Json) {
    data.Obj? || data.Arr?
  }

  function Size(data: Json): nat {
    match data
    case Obj(f) => |f|
    case Arr(items) => |items|
    case _ => 0
  }

  /** The value of entry `i`: the `i`-th field's value, or the `i`-th element. */
  function EntryValue(data: Json, i: nat): Json
    requires IsCorpus(data) && i < Size(data)
  {
    if data.Obj? then data.fields[i].1 else data.items[i]
  }

  /**
   * The record an accepted entry `i` produces: in the object form the id is the key; in the
   * array form it is the entry's `question_id`, or `str(i)` counting dropped entries too.
   */
  function RecordAt(data: Json, i: nat): QuestionRecord
    requires IsCorpus(data) && i < Size(data) && Carries(EntryValue(data, i))
  {
    var f := EntryValue(data, i).fields;
    var text := Lookup(f, TextKey).value;
    if data.Obj? then QuestionRecord(Str(data.fields[i].0), text)
    else QuestionRecord(Lookup(f, IdKey).GetOr(Str(Strings.NatToString(i))), text)
  }

  /** What entry `i` contributes: an error, nothing (dropped), or one record. */
  function EntryAt(data: Json, i: nat): Result<Option<QuestionRecord>, LoadError>
    requires IsCorpus(data) && i < Size(data)
  {
    var v := EntryValue(data, i);
    match ContainsTextKey(v)
    case Err(e) => Err(e)
    case Ok(false) => Ok(None)
    case Ok(true) => if v.Obj? then Ok(Some(RecordAt(data, i))) else Err(MalformedEntry)
  }

  /** The records of the first `n` entries, evaluated left to right as the comprehension does. */
  function Records(data: Json, n: nat): Result<seq<QuestionRecord>, LoadError>
    requires IsCorpus(data) && n <= Size(data)
  {
    if n == 0 then Ok([])
    else
      match Records(data, n - 1)
      case Err(e) => Err(e)
      case Ok(rs) =>
        match EntryAt(data, n - 1)
        case Err(e) => Err(e)
        case Ok(None) => Ok(rs)
        case Ok(Some(r)) => Ok(rs + [r])
  }

  /** The normalisation of a parsed corpus into question records. */
  function Normalize(data: Json): Result<seq<QuestionRecord>, LoadError> {
    if IsCorpus(data) then Records(data, Size(data)) else Err(UnsupportedFormat)
  }

  /** The positions, among the first `n` entries, that produce a record: increasing. */
  ghost function Kept(data: Json, n: nat): (ks: seq<nat>)
    requires IsCorpus(data) && n <= Size(data)
    ensures forall a :: 0 <= a < |ks| ==> ks[a] < n && Carries(EntryValue(data, ks[a]))
    ensures forall a, b :: 0 <= a < b < |ks| ==> ks[a] < ks[b]
    ensures forall i :: 0 <= i < n && Carries(EntryValue(data, i)) ==> i in ks
  {
    if n == 0 then []
    else Kept(data, n - 1) + (if Carries(EntryValue(data, n - 1)) then [n - 1] else [])
  }

  lemma EntryAtCases(data: Json, i: nat)
    requires IsCorpus(data) && i < Size(data)
    ensures EntryAt(data, i).Err? <==> Malformed(EntryValue(data, i))
    ensures EntryAt(data, i).Ok? ==> (EntryAt(data, i).value.Some? <==> Carries(EntryValue(data, i)))
    ensures EntryAt(data, i) == Ok(Some(RecordAt(data, i))) <== Carries(EntryValue(data, i))
  {
  }

  /**
   * Normalising the first `n` entries succeeds exactly when none of them is malformed, and
   * then yields one record per kept position, in order.
   */
  lemma {:induction false} RecordsCharacterised(data: Json, n: nat)
    requires IsCorpus(data) && n <= Size(data)
    ensures Records(data, n).Ok? <==> forall i :: 0 <= i < n ==> !Malformed(EntryValue(data, i))
    ensures Records(data, n).Ok? ==>
      var rs, ks := Records(data, n).value, Kept(data, n);
      |rs| == |ks| && forall j :: 0 <= j < |rs| ==> rs[j] == RecordAt(data, ks[j])
  {
    RecordsOkIff(data, n);
    if Records(data, n).Ok? {
      RecordsFollowKept(data, n);
    }
  }

  lemma {:induction false} RecordsOkIff(data: Json, n: nat)
    requires IsCorpus(data) && n <= Size(data)
    ensures Records(data, n).Ok? <==> forall i :: 0 <= i < n ==> !Malformed(EntryValue(data, i))
  {
    if n > 0 {
      RecordsOkIff(data, n - 1);
      EntryAtCases(data, n - 1);
    }
  }

  /** Records that follow their positions still do after one more accepted position. */
  lemma FollowSnoc(data: Json, rs: seq<QuestionRecord>, ks: seq<nat>, k: nat)
    requires IsCorpus(data) && k < Size(data) && Carries(EntryValue(data, k))
    requires forall a :: 0 <= a < |ks| ==> ks[a] < Size(data) && Carries(EntryValue(data, ks[a]))
    requires |rs| == |ks| && forall j :: 0 <= j < |rs| ==> rs[j] == RecordAt(data, ks[j])
    ensures var rs', ks' := rs + [RecordAt(data, k)], ks + [k];
      |rs'| == |ks'| && forall j :: 0 <= j < |rs'| ==> rs'[j] == RecordAt(data, ks'[j])
  {
    var rs', ks' := rs + [RecordAt(data, k)], ks + [k];
    forall j | 0 <= j < |rs'| ensures rs'[j] == RecordAt(data, ks'[j]) {
      if j < |rs| {
        assert rs'[j] == rs[j] && ks'[j] == ks[j];
      }
    }
  }

  lemma {:induction false} RecordsFollowKept(data: Json, n: nat)
    requires IsCorpus(data) && n <= Size(data) && Records(data, n).Ok?
    ensures var rs, ks := Records(data, n).value, Kept(data, n);
      |rs| == |ks| && forall j :: 0 <= j < |rs| ==> rs[j] == RecordAt(data, ks[j])
  {
    if n > 0 {
      assert Records(data, n - 1).Ok?;
      RecordsFollowKept(data, n - 1);
      EntryAtCases(data, n - 1);
      var rs0, ks0 := Records(data, n - 1).value, Kept(data, n - 1);
      if Carries(EntryValue(data, n - 1)) {
        assert Records(data, n).value == rs0 + [RecordAt(data, n - 1)];
        assert Kept(data, n) == ks0 + [n - 1];
        FollowSnoc(data, rs0, ks0, n - 1);
      } else {
        assert Records(data, n).value == rs0;
        assert Kept(data, n) == ks0 + [];
      }
    }
  }

  /** Only a top level that is neither an object nor an array is an unsupported format. */
  lemma NormalizeFails(data: Json)
    ensures Normalize(data) == Err(UnsupportedFormat) <==> !IsCorpus(data)
    ensures Normalize(data).Err? && IsCorpus(data) ==> Normalize(data) == Err(MalformedEntry)
  {
    if IsCorpus(data) {
      RecordsNeverUnsupported(data, Size(data));
    }
  }

  lemma {:induction false} RecordsNeverUnsupported(data: Json, n: nat)
    requires IsCorpus(data) && n <= Size(data)
    ensures Records(data, n).Err? ==> Records(data, n).error == MalformedEntry
  {
    if n > 0 {
      RecordsNeverUnsupported(data, n - 1);
    }
  }

  /**
   * Object form: one record per key whose value is an object with `question_text`, in
   * iteration order, with the key as id and that text; other entries are dropped.
   */
  lemma ObjectForm(fields: seq<(string, Json)>, rs: seq<QuestionRecord>)
    requires Normalize(Obj(fields)) == Ok(rs)
    ensures var ks := Kept(Obj(fields), |fields|);
      && |rs| == |ks|
      && (forall j :: 0 <= j < |rs| ==>
            rs[j] == QuestionRecord(Str(fields[ks[j]].0), Lookup(fields[ks[j]].1.fields, TextKey).value))
      && (forall i :: 0 <= i < |fields| ==> (i in ks <==> Carries(fields[i].1)))
  {
    RecordsCharacterised(Obj(fields), |fields|);
  }

  /**
   * Array form: one record per element that is an object with `question_text`, in order; the
   * id is the element's `question_id` or else `str` of its position in the original array.
   */
  lemma ArrayForm(items: seq<Json>, rs: seq<QuestionRecord>)
    requires Normalize(Arr(items)) == Ok(rs)
    ensures var ks := Kept(Arr(items), |items|);
      && |rs| == |ks|
      && (forall j :: 0 <= j < |rs| ==>
            var f := items[ks[j]].fields;
            rs[j] == QuestionRecord(Lookup(f, IdKey).GetOr(Str(Strings.NatToString(ks[j]))), Lookup(f, TextKey).value))
      && (forall i :: 0 <= i < |items| ==> (i in ks <==> Carries(items[i])))
  {
    RecordsCharacterised(Arr(items), |items|);
  }

  /** In the array form, two records whose entries carry no `question_id` have different ids. */
  lemma ArrayDefaultIdsDistinct(items: seq<Json>, rs: seq<QuestionRecord>, j1: nat, j2: nat)
    requires Normalize(Arr(items)) == Ok(rs)
    requires j1 < j2 < |rs|
    requires forall i :: 0 <= i < |items| && items[i].Obj? ==> !HasKey(items[i].fields, IdKey)
    ensures rs[j1].questionId != rs[j2].questionId
  {
    ArrayForm(items, rs);
    var ks := Kept(Arr(items), |items|);
    assert rs[j1].questionId == Str(Strings.NatToString(ks[j1]));
    assert rs[j2].questionId == Str(Strings.NatToString(ks[j2]));
    if rs[j1].questionId == rs[j2].questionId {
      Strings.NatToStringInjective(ks[j1], ks[j2]);
    }
  }

  /** `[{"question_text": "A"}, {"question_text": "B"}]` loads as ids "0" and "1", in input order. */
  lemma ArrayWithoutIdsExample()
    ensures Normalize(Arr([Obj([(TextKey, Str("A"))]), Obj([(TextKey, Str("B"))])]))
         == Ok([QuestionRecord(Str("0"), Str("A")), QuestionRecord(Str("1"), Str("B"))])
  {
    var data := Arr([Obj([(TextKey, Str("A"))]), Obj([(TextKey, Str("B"))])]);
    assert data.items[0].fields[0].0 == TextKey && data.items[1].fields[0].0 == TextKey;
    assert Strings.NatToString(0) == "0" && Strings.NatToString(1) == "1";
    assert Lookup(data.items[0].fields, IdKey) == None && Lookup(data.items[1].fields, IdKey) == None;
    assert Lookup(data.items[0].fields, TextKey) == Some(Str("A"));
    assert Lookup(data.items[1].fields, TextKey) == Some(Str("B"));
    assert RecordAt(data, 0) == QuestionRecord(Str("0"), Str("A"));
    assert RecordAt(data, 1) == QuestionRecord(Str("1"), Str("B"));
    assert EntryAt(data, 0) == Ok(Some(QuestionRecord(Str("0"), Str("A"))));
    assert EntryAt(data, 1) == Ok(Some(QuestionRecord(Str("1"), Str("B"))));
    var r0, r1 := QuestionRecord(Str("0"), Str("A")), QuestionRecord(Str("1"), Str("B"));
    RecordsStep(data, 1, [], r0);
    assert [] + [r0] == [r0];
    RecordsStep(data, 2, [r0], r1);
    assert [r0] + [r1] == [r0, r1];
    assert Normalize(data) == Records(data, 2);
  }

  lemma RecordsStep(data: Json, n: nat, rs: seq<QuestionRecord>, r: QuestionRecord)
    requires IsCorpus(data) && 0 < n <= Size(data)
    requires Records(data, n - 1) == Ok(rs) && EntryAt(data, n - 1) == Ok(Some(r))
    ensures Records(data, n) == Ok(rs + [r])
  {
  }

  /** A corpus of bare strings without the key loads zero records, so a later search fails. */
  lemma BareStringsExample()
    ensures Normalize(Arr([Str("A"), Str("B")])) == Ok([])
  {
    var data := Arr([Str("A"), Str("B")]);
    assert !Strings.IsSubstring(TextKey, "A") by {
      forall i | 0 <= i <= 1 ensures !Strings.StartsWith("A"[i..], TextKey) { }
    }
    assert !Strings.IsSubstring(TextKey, "B") by {
      forall i | 0 <= i <= 1 ensures !Strings.StartsWith("B"[i..], TextKey) { }
    }
  }

  // ---------------------------------------------------------------------------
  // Top-k selection
  // ---------------------------------------------------------------------------

  /** Start index Python computes for the slice `a[start:]` of a length-`n` sequence. */
  function SliceStart(start: int, n: nat): (s: nat)
    ensures s <= n
  {
    if start < 0 then (if n + start < 0 then 0 else n + start) else (if start > n then n else start)
  }

  /** Number of indices `np.argsort(similarities)[-top_k:]` keeps. */
  function ResultCount(topK: int, n: nat): nat {
    n - SliceStart(-topK, n)
  }

  /**
   * For `top_k >= 1` the slice keeps `min(top_k, n)` indices; `top_k == 0` keeps all of
   * them (`[-0:]` is `[0:]`) and a negative `top_k` drops the `|top_k|` lowest.
   */
  lemma ResultCountCases(topK: int, n: nat)
    ensures topK >= 1 ==> ResultCount(topK, n) == (if topK < n then topK else n)
    ensures topK == 0 ==> ResultCount(topK, n) == n
    ensures topK < 0 ==> ResultCount(topK, n) == (if n + topK > 0 then n + topK else 0)
  {
  }

  /**
   * `idx` lists distinct positions of `scores`, best first, and every position left out
   * scores no higher than any position chosen. Ties may come in any order.
   */
  ghost predicate IsTopSelection(scores: seq<real>, idx: seq<nat>) {
    && (forall a :: 0 <= a < |idx| ==> idx[a] < |scores|)
    && (forall a, b :: 0 <= a < b < |idx| ==> idx[a] != idx[b])
    && (forall a, b :: 0 <= a < b < |idx| ==> scores[idx[a]] >= scores[idx[b]])
    && (forall a, i :: 0 <= a < |idx| && 0 <= i < |scores| && i !in idx ==> scores[idx[a]] >= scores[i])
  }

  ghost predicate SortedBy(scores: seq<real>, idx: seq<nat>)
    requires forall a :: 0 <= a < |idx| ==> idx[a] < |scores|
  {
    forall a, b :: 0 <= a < b < |idx| ==> scores[idx[a]] >= scores[idx[b]]
  }

  predicate Distinct(idx: seq<nat>) {
    forall a, b :: 0 <= a < b < |idx| ==> idx[a] != idx[b]
  }

  predicate Below(idx: seq<nat>, j: nat) {
    forall a :: 0 <= a < |idx| ==> idx[a] < j
  }

  /** Every position below `j` that `idx` leaves out scores no higher than any it keeps. */
  ghost predicate Dominates(scores: seq<real>, idx: seq<nat>, j: nat)
    requires j <= |scores| && Below(idx, j)
  {
    forall a, i :: 0 <= a < |idx| && 0 <= i < j && i !in idx ==> scores[idx[a]] >= scores[i]
  }

  /** The state of the bounded ranking after the first `j` positions have been considered. */
  ghost predicate RankedPrefix(scores: seq<real>, idx: seq<nat>, j: nat, count: nat) {
    && j <= |scores|
    && |idx| == (if j < count then j else count)
    && Below(idx, j)
    && Distinct(idx)
    && SortedBy(scores, idx)
    && Dominates(scores, idx, j)
    && (j <= count ==> forall i :: 0 <= i < j ==> i in idx)
  }

  function Inserted(idx: seq<nat>, p: nat, j: nat): (g: seq<nat>)
    requires p <= |idx|
    ensures |g| == |idx| + 1
    ensures forall a :: 0 <= a < |g| ==> g[a] == if a < p then idx[a] else if a == p then j else idx[a - 1]
  {
    idx[..p] + [j] + idx[p..]
  }

  lemma InsertSorted(scores: seq<real>, idx: seq<nat>, j: nat, p: nat)
    requires j < |scores| && Below(idx, |scores|) && SortedBy(scores, idx)
    requires p <= |idx|
    requires forall a :: 0 <= a < p ==> scores[idx[a]] >= scores[j]
    requires p < |idx| ==> scores[idx[p]] < scores[j]
    ensures Below(Inserted(idx, p, j), |scores|) && SortedBy(scores, Inserted(idx, p, j))
  {
    var g := Inserted(idx, p, j);
    forall a, b | 0 <= a < b < |g| ensures scores[g[a]] >= scores[g[b]] {
      if a == p {
        assert scores[idx[p]] >= scores[idx[b - 1]];
      } else if b == p {
      } else if a < p < b {
        assert scores[idx[a]] >= scores[j];
        assert scores[idx[p]] >= scores[idx[b - 1]];
      }
    }
  }

  lemma InsertDistinct(idx: seq<nat>, j: nat, p: nat)
    requires Below(idx, j) && Distinct(idx) && p <= |idx|
    ensures Below(Inserted(idx, p, j), j + 1) && Distinct(Inserted(idx, p, j))
  {
  }

  /** Where a kept position, or the inserted one, sits after the insertion. */
  lemma InsertedPosition(idx: seq<nat>, p: nat, j: nat, i: nat) returns (c: nat)
    requires p <= |idx| && (i == j || i in idx)
    ensures c < |idx| + 1 && Inserted(idx, p, j)[c] == i
  {
    c := p;
    if i != j {
      var c0 :| 0 <= c0 < |idx| && idx[c0] == i;
      c := if c0 < p then c0 else c0 + 1;
    }
  }

  /** A position the old ranking left out scores no higher than any entry of the new one. */
  lemma InsertedAboveLeftOut(scores: seq<real>, idx: seq<nat>, j: nat, p: nat, a: nat, i: nat)
    requires j < |scores| && Below(idx, j) && Dominates(scores, idx, j)
    requires p <= |idx| && a < |idx|
    requires p < |idx| ==> scores[idx[p]] < scores[j]
    requires i < j && i !in idx
    ensures scores[Inserted(idx, p, j)[a]] >= scores[i]
  {
    if a < p {
      assert scores[idx[a]] >= scores[i];
    } else if a == p {
      assert scores[idx[p]] >= scores[i];
    } else {
      assert scores[idx[a - 1]] >= scores[i];
    }
  }

  lemma InsertDominates(scores: seq<real>, idx: seq<nat>, j: nat, count: nat, p: nat)
    requires RankedPrefix(scores, idx, j, count) && j < |scores|
    requires p <= |idx| && |idx| + 1 > count
    requires forall a :: 0 <= a < p ==> scores[idx[a]] >= scores[j]
    requires p < |idx| ==> scores[idx[p]] < scores[j]
    requires Below(Inserted(idx, p, j), j + 1) && SortedBy(scores, Inserted(idx, p, j))
    ensures Below(Inserted(idx, p, j)[..count], j + 1)
    ensures Dominates(scores, Inserted(idx, p, j)[..count], j + 1)
  {
    var g := Inserted(idx, p, j);
    var next := g[..count];
    forall a, i | 0 <= a < |next| && 0 <= i < j + 1 && i !in next
      ensures scores[next[a]] >= scores[i]
    {
      assert next[a] == g[a];
      if i == j || i in idx {
        var c := InsertedPosition(idx, p, j, i);
        assert forall t :: 0 <= t < count ==> next[t] == g[t];
        assert c >= count;
        assert scores[g[a]] >= scores[g[c]];
      } else {
        InsertedAboveLeftOut(scores, idx, j, p, a, i);
      }
    }
  }

  lemma PrefixKeeps(scores: seq<real>, g: seq<nat>, c: nat, j: nat)
    requires c <= |g| && Below(g, j) && j <= |scores| && Distinct(g) && SortedBy(scores, g)
    ensures Below(g[..c], j) && Distinct(g[..c]) && SortedBy(scores, g[..c])
  {
  }

  lemma InsertCovers(idx: seq<nat>, j: nat, p: nat)
    requires p <= |idx| && forall i :: 0 <= i < j ==> i in idx
    ensures forall i :: 0 <= i < j + 1 ==> i in Inserted(idx, p, j)
  {
    var g := Inserted(idx, p, j);
    forall i | 0 <= i < j + 1 ensures i in g {
      if i < j {
        assert i in idx;
        var c :| 0 <= c < |idx| && idx[c] == i;
        assert g[if c < p then c else c + 1] == i;
      } else {
        assert g[p] == j;
      }
    }
  }

  lemma InsertStep(scores: seq<real>, idx: seq<nat>, j: nat, count: nat, p: nat)
    requires RankedPrefix(scores, idx, j, count) && j < |scores|
    requires p <= |idx|
    requires forall a :: 0 <= a < p ==> scores[idx[a]] >= scores[j]
    requires p < |idx| ==> scores[idx[p]] < scores[j]
    ensures var g := Inserted(idx, p, j);
      RankedPrefix(scores, if |g| > count then g[..count] else g, j + 1, count)
  {
    var g := Inserted(idx, p, j);
    InsertSorted(scores, idx, j, p);
    InsertDistinct(idx, j, p);
    if |g| > count {
      InsertDominates(scores, idx, j, count, p);
      PrefixKeeps(scores, g, count, j + 1);
    } else {
      InsertCovers(idx, j, p);
    }
  }

  /** The first place in `idx` whose score is below that of position `j`. */
  method InsertionPoint(scores: seq<real>, idx: seq<nat>, j: nat) returns (p: nat)
    requires j < |scores| && Below(idx, |scores|)
    ensures p <= |idx|
    ensures forall a :: 0 <= a < p ==> scores[idx[a]] >= scores[j]
    ensures p < |idx| ==> scores[idx[p]] < scores[j]
  {
    p := 0;
    while p < |idx| && scores[idx[p]] >= scores[j]
      invariant 0 <= p <= |idx|
      invariant forall a :: 0 <= a < p ==> scores[idx[a]] >= scores[j]
    {
      p := p + 1;
    }
  }

  /** Once every position has been considered, the ranking is a top selection of `count`. */
  lemma RankedPrefixDone(scores: seq<real>, idx: seq<nat>, count: nat)
    requires count <= |scores| && RankedPrefix(scores, idx, |scores|, count)
    ensures |idx| == count && IsTopSelection(scores, idx)
  {
  }

  /**
   * The `count` best positions of `scores`, best first (what `argsort`, the slice and the
   * reversal compute; the order among equal scores is not fixed).
   */
  method SelectTop(scores: seq<real>, count: nat) returns (idx: seq<nat>)
    requires count <= |scores|
    ensures |idx| == count
    ensures IsTopSelection(scores, idx)
  {
    idx := [];
    var j := 0;
    while j < |scores|
      invariant RankedPrefix(scores, idx, j, count)
    {
      var p := InsertionPoint(scores, idx, j);
      InsertStep(scores, idx, j, count, p);
      var grown := Inserted(idx, p, j);
      idx := if |grown| > count then grown[..count] else grown;
      j := j + 1;
    }
    RankedPrefixDone(scores, idx, count);
  }

  /** Removing the largest position from distinct positions below `m` leaves distinct ones below `m - 1`. */
  lemma RemoveLargest(idx: seq<nat>, m: nat, p: nat)
    requires Below(idx, m) && Distinct(idx)
    requires p < |idx| && idx[p] == m - 1
    ensures var rest := idx[..p] + idx[p + 1..];
      |rest| == |idx| - 1 && Below(rest, m - 1) && Distinct(rest)
  {
    var rest := idx[..p] + idx[p + 1..];
    assert forall a :: 0 <= a < |rest| ==> rest[a] == (if a < p then idx[a] else idx[a + 1]);
    forall a, b | 0 <= a < b < |rest| ensures rest[a] != rest[b] {
      var a', b' := if a < p then a else a + 1, if b < p then b else b + 1;
      assert a' < b' && rest[a] == idx[a'] && rest[b] == idx[b'];
    }
  }

  /** Distinct positions below `m` number at most `m`. */
  lemma {:induction false} DistinctBound(idx: seq<nat>, m: nat)
    requires forall a :: 0 <= a < |idx| ==> idx[a] < m
    requires forall a, b :: 0 <= a < b < |idx| ==> idx[a] != idx[b]
    ensures |idx| <= m
  {
    if |idx| > 0 {
      assert idx[0] < m;
      if m - 1 in idx {
        var p :| 0 <= p < |idx| && idx[p] == m - 1;
        RemoveLargest(idx, m, p);
        DistinctBound(idx[..p] + idx[p + 1..], m - 1);
      } else {
        assert Below(idx, m - 1);
        DistinctBound(idx, m - 1);
      }
    }
  }

  /** `n` distinct positions below `n` cover every position. */
  lemma AllPositionsCovered(idx: seq<nat>, n: nat)
    requires |idx| == n
    requires forall a :: 0 <= a < |idx| ==> idx[a] < n
    requires forall a, b :: 0 <= a < b < |idx| ==> idx[a] != idx[b]
    ensures forall i :: 0 <= i < n ==> i in idx
  {
    forall i | 0 <= i < n ensures i in idx {
      if i !in idx {
        var squeezed := seq(|idx|, a requires 0 <= a < |idx| => if idx[a] > i then idx[a] - 1 else idx[a]);
        assert forall a :: 0 <= a < |idx| ==> idx[a] != i;
        DistinctBound(squeezed, n - 1);
      }
    }
  }

  /** A search whose selection covers the whole corpus returns every position exactly once. */
  lemma FullSelectionIsPermutation(scores: seq<real>, idx: seq<nat>)
    requires IsTopSelection(scores, idx) && |idx| == |scores|
    ensures forall i :: 0 <= i < |scores| ==> i in idx
  {
    AllPositionsCovered(idx, |scores|);
  }

  // ---------------------------------------------------------------------------
  // The index object
  // ---------------------------------------------------------------------------

  /** The embedding matrix has one row per record, computed from that record's text. */
  ghost predicate Aligned(questions: seq<QuestionRecord>, embeddings: seq<Vector>, encode: Json -> Vector) {
    |embeddings| == |questions| && forall i :: 0 <= i < |questions| ==> embeddings[i] == encode(questions[i].questionText)
  }

  class SemanticSearch {
    /** The sentence-embedding model (its batch encoding is taken to be per-text). */
    const encode: Json -> Vector
    /** Cosine similarity of a stored embedding with the query embedding. */
    const similarity: (Vector, Vector) -> real
    var questions: seq<QuestionRecord>
    /** `None` until the first successful load. */
    var embeddings: Option<seq<Vector>>

    ghost predicate Valid()
      reads this
    {
      embeddings.Some? ==> Aligned(questions, embeddings.value, encode)
    }

    constructor (encode: Json -> Vector, similarity: (Vector, Vector) -> real)
      ensures Valid()
      ensures this.encode == encode && this.similarity == similarity
      ensures questions == [] && embeddings == None
    {
      this.encode := encode;
      this.similarity := similarity;
      questions := [];
      embeddings := None;
    }

    /**
     * Replaces the corpus and its embeddings together; on a normalisation error both stay as
     * they were, because the assignments happen only after the comprehension has finished.
     * The encoder is taken to be total.
     */
    method LoadQuestions(data: Json) returns (error: Option<LoadError>)
      requires Valid()
      modifies this
      ensures Valid()
      ensures error == (if Normalize(data).Err? then Some(Normalize(data).error) else None)
      ensures error.None? ==> questions == Normalize(data).value && embeddings.Some?
      ensures error.Some? ==> questions == old(questions) && embeddings == old(embeddings)
    {
      var normalized := Normalize(data);
      if normalized.Err? {
        return Some(normalized.error);
      }
      var records := normalized.value;
      questions := records;
      embeddings := Some(seq(|records|, i requires 0 <= i < |records| => encode(records[i].questionText)));
      error := None;
    }

    /** The similarity of every stored embedding with the query's embedding. */
    ghost function Scores(query: string): (s: seq<real>)
      reads this
      requires Valid() && embeddings.Some?
      ensures |s| == |questions|
    {
      var vectors, queryVector := embeddings.value, encode(Str(query));
      seq(|vectors|, i requires 0 <= i < |vectors| => similarity(vectors[i], queryVector))
    }

    /**
     * Fails on an empty or never-loaded index; otherwise returns `ResultCount(topK, n)`
     * results at distinct positions, best first, each a copy of a stored record with its score.
     */
    method Search(query: string, topK: int) returns (r: Result<seq<SearchResult>, SearchError>, ghost positions: seq<nat>)
      requires Valid()
      ensures r.Err? <==> questions == [] || embeddings.None?
      ensures r.Ok? ==>
        && |r.value| == |positions| == ResultCount(topK, |questions|)
        && IsTopSelection(Scores(query), positions)
        && forall t :: 0 <= t < |positions| ==>
             r.value[t] == SearchResult(questions[positions[t]].questionId, questions[positions[t]].questionText,
                                        Scores(query)[positions[t]])
    {
      if questions == [] || embeddings.None? {
        return Err(EmptyIndex), [];
      }
      var vectors := embeddings.value;
      var queryVector := encode(Str(query));
      var similarities := seq(|vectors|, i requires 0 <= i < |vectors| => similarity(vectors[i], queryVector));
      assert similarities == Scores(query);
      var top := SelectTop(similarities, ResultCount(topK, |questions|));
      var results := [];
      var t := 0;
      while t < |top|
        invariant 0 <= t <= |top|
        invariant |results| == t
        invariant forall u :: 0 <= u < t ==>
          results[u] == SearchResult(questions[top[u]].questionId, questions[top[u]].questionText, similarities[top[u]])
      {
        var question := questions[top[t]];
        results := results + [SearchResult(question.questionId, question.questionText, similarities[top[t]])];
        t := t + 1;
      }
      return Ok(results), top;
    }
  }

  /** Some result, taken from position `i`, carries `record`'s id and text. */
  ghost predicate Returned(results: seq<SearchResult>, positions: seq<nat>, i: nat, record: QuestionRecord) {
    exists t :: 0 <= t < |positions| && t < |results| && positions[t] == i
      && results[t].questionId == record.questionId && results[t].questionText == record.questionText
  }

  /** Loading and then searching with `top_k` at least the corpus size returns every record once. */
  method LoadThenSearchAll(index: SemanticSearch, data: Json, query: string, topK: int)
      returns (r: Result<seq<SearchResult>, SearchError>, ghost positions: seq<nat>)
    requires index.Valid()
    requires Normalize(data).Ok? && |Normalize(data).value| > 0 && topK >= |Normalize(data).value|
    modifies index
    ensures r.Ok? && |r.value| == |positions| == |Normalize(data).value|
    ensures Distinct(positions) && Below(positions, |Normalize(data).value|)
    ensures forall t :: 0 <= t < |positions| ==>
      && r.value[t].questionId == Normalize(data).value[positions[t]].questionId
      && r.value[t].questionText == Normalize(data).value[positions[t]].questionText
    ensures forall i :: 0 <= i < |Normalize(data).value| ==> Returned(r.value, positions, i, Normalize(data).value[i])
  {
    var error := index.LoadQuestions(data);
    r, positions := index.Search(query, topK);
    FullSelectionIsPermutation(index.Scores(query), positions);
    var records := Normalize(data).value;
    assert index.questions == records;
    forall i | 0 <= i < |records|
      ensures Returned(r.value, positions, i, records[i])
    {
      assert i in positions;
      var t :| 0 <= t < |positions| && positions[t] == i;
    }
  }
}
