/**
 * Request construction of the Prosper Insights API client (api_client.py): the segment
 * string, the endpoint paths, the URL join and the `apikey` query parameter. No HTTP.
 */
module Prosper {
  import opened Wrappers
  import Strings

  // ---------------------------------------------------------------------------
  // Segment strings: "qid~a^b|qid~c"
  // ---------------------------------------------------------------------------

  /** One demographic filter: a question and the answers OR-ed together. */
  datatype Segment = Segment(questionId: string, answerIds: seq<string>)

  function Piece(segment: Segment): string {
    segment.questionId + "~" + Strings.Join(segment.answerIds, "^")
  }

  function Pieces(segments: seq<Segment>): (ps: seq<string>)
    ensures |ps| == |segments|
    ensures forall i :: 0 <= i < |segments| ==> ps[i] == Piece(segments[i])
  {
    if |segments| == 0 then [] else Pieces(segments[..|segments| - 1]) + [Piece(segments[|segments| - 1])]
  }

  /** The segment string of a list of segments: pieces AND-ed with "|". */
  function SegmentString(segments: seq<Segment>): string {
    Strings.Join(Pieces(segments), "|")
  }

  method CreateSegmentString(segments: seq<Segment>) returns (s: string)
    ensures s == SegmentString(segments)
  {
    var segmentStrings: seq<string> := [];
    for i := 0 to |segments|
      invariant segmentStrings == Pieces(segments[..i])
    {
      assert segments[..i + 1][..i] == segments[..i];
      segmentStrings := segmentStrings + [Piece(segments[i])];
    }
    assert segments[..|segments|] == segments;
    s := Strings.Join(segmentStrings, "|");
  }

  lemma PiecesOfThree(a: Segment, b: Segment, c: Segment)
    ensures Pieces([a, b, c]) == [Piece(a), Piece(b), Piece(c)]
  {
  }

  /** The example of the client's documentation: Female, Married, Age 25-44. */
  lemma SegmentStringExample()
    ensures SegmentString([Segment("1", ["1"]), Segment("2", ["0"]), Segment("3", ["2", "3"])]) == "1~1|2~0|3~2^3"
  {
    ExamplePieces();
    ExampleJoin();
  }

  lemma ExamplePieces()
    ensures Pieces([Segment("1", ["1"]), Segment("2", ["0"]), Segment("3", ["2", "3"])]) == ["1~1", "2~0", "3~2^3"]
  {
    var female, married, age := Segment("1", ["1"]), Segment("2", ["0"]), Segment("3", ["2", "3"]);
    assert Piece(age) == "3~2^3" by {
      JoinCons("2", ["3"], "^");
    }
    assert Piece(female) == "1~1" && Piece(married) == "2~0";
    PiecesOfThree(female, married, age);
  }

  lemma ExampleJoin()
    ensures Strings.Join(["1~1", "2~0", "3~2^3"], "|") == "1~1|2~0|3~2^3"
  {
    JoinOfThree("1~1", "2~0", "3~2^3", "|");
  }

  lemma JoinOfThree(x: string, y: string, z: string, sep: string)
    ensures Strings.Join([x, y, z], sep) == x + sep + y + sep + z
  {
    JoinCons(y, [z], sep);
    JoinCons(x, [y, z], sep);
  }

  /** Female, Age 25-44. */
  lemma GenderAgeSegmentString()
    ensures SegmentString([Segment("1", ["1"]), Segment("3", ["2", "3"])]) == "1~1|3~2^3"
  {
    var segments := [Segment("1", ["1"]), Segment("3", ["2", "3"])];
    assert Piece(segments[1]) == "3~2^3" by {
      JoinCons("2", ["3"], "^");
    }
    assert Piece(segments[0]) == "1~1";
    assert Pieces(segments) == ["1~1", "3~2^3"];
    JoinCons("1~1", ["3~2^3"], "|");
  }

  lemma SegmentStringEmpty()
    ensures SegmentString([]) == ""
  {
  }

  /** Reads a segment string back; the inverse of `SegmentString` on well-formed segments. */
  function ParseSegmentString(s: string): Option<seq<Segment>> {
    if s == "" then Some([]) else ParsePieces(Strings.Split(s, '|'))
  }

  function ParsePieces(pieces: seq<string>): Option<seq<Segment>> {
    if |pieces| == 0 then Some([])
    else
      match (ParsePieces(pieces[..|pieces| - 1]), ParsePiece(pieces[|pieces| - 1]))
      case (Some(init), Some(last)) => Some(init + [last])
      case _ => None
  }

  function ParsePiece(piece: string): Option<Segment> {
    var parts := Strings.Split(piece, '~');
    if |parts| == 2 then Some(Segment(parts[0], Strings.Split(parts[1], '^'))) else None
  }

  /** A segment whose ids contain no separator and which names at least one answer. */
  predicate WellFormed(segment: Segment) {
    && '|' !in segment.questionId && '~' !in segment.questionId
    && |segment.answerIds| >= 1
    && forall k :: 0 <= k < |segment.answerIds| ==>
         '|' !in segment.answerIds[k] && '~' !in segment.answerIds[k] && '^' !in segment.answerIds[k]
  }

  lemma JoinCons(p: string, rest: seq<string>, sep: string)
    requires |rest| >= 1
    ensures Strings.Join([p] + rest, sep) == p + sep + Strings.Join(rest, sep)
  {
    assert ([p] + rest)[1..] == rest;
  }

  lemma {:induction false} JoinAvoids(parts: seq<string>, sep: string, c: char)
    requires c !in sep
    requires forall k :: 0 <= k < |parts| ==> c !in parts[k]
    ensures c !in Strings.Join(parts, sep)
  {
    if |parts| > 1 {
      JoinAvoids(parts[1..], sep, c);
    }
  }

  lemma {:induction false} JoinStartsWithFirst(parts: seq<string>, sep: string)
    requires |parts| >= 1
    ensures |Strings.Join(parts, sep)| >= |parts[0]|
    ensures Strings.Join(parts, sep)[..|parts[0]|] == parts[0]
  {
    if |parts| > 1 {
      var rest := Strings.Join(parts[1..], sep);
      assert Strings.Join(parts, sep) == parts[0] + (sep + rest);
    }
  }

  lemma PieceRoundTrip(segment: Segment)
    requires WellFormed(segment)
    ensures '|' !in Piece(segment)
    ensures ParsePiece(Piece(segment)) == Some(segment)
  {
    var answers := Strings.Join(segment.answerIds, "^");
    JoinAvoids(segment.answerIds, "^", '|');
    JoinAvoids(segment.answerIds, "^", '~');
    assert Piece(segment) == Strings.Join([segment.questionId, answers], "~");
    Strings.SplitJoin([segment.questionId, answers], '~');
    Strings.SplitJoin(segment.answerIds, '^');
  }

  lemma ParsePiecesSnoc(ps: seq<string>, p: string, init: seq<Segment>, last: Segment)
    requires ParsePieces(ps) == Some(init) && ParsePiece(p) == Some(last)
    ensures ParsePieces(ps + [p]) == Some(init + [last])
  {
    assert (ps + [p])[..|ps|] == ps;
  }

  lemma PiecesSnoc(init: seq<Segment>, last: Segment)
    ensures Pieces(init + [last]) == Pieces(init) + [Piece(last)]
  {
    assert (init + [last])[..|init|] == init;
  }

  lemma {:induction false} ParsePiecesRoundTrip(segments: seq<Segment>)
    requires forall i :: 0 <= i < |segments| ==> WellFormed(segments[i])
    ensures ParsePieces(Pieces(segments)) == Some(segments)
  {
    if |segments| > 0 {
      var init, last := segments[..|segments| - 1], segments[|segments| - 1];
      assert segments == init + [last];
      assert forall i :: 0 <= i < |init| ==> init[i] == segments[i];
      ParsePiecesRoundTrip(init);
      PieceRoundTrip(last);
      PiecesSnoc(init, last);
      ParsePiecesSnoc(Pieces(init), Piece(last), init, last);
    }
  }

  /** Parsing the segment string of well-formed segments gives the segments back. */
  lemma SegmentStringRoundTrip(segments: seq<Segment>)
    requires forall i :: 0 <= i < |segments| ==> WellFormed(segments[i])
    ensures ParseSegmentString(SegmentString(segments)) == Some(segments)
  {
    if |segments| > 0 {
      var ps := Pieces(segments);
      forall k | 0 <= k < |ps| ensures '|' !in ps[k] {
        PieceRoundTrip(segments[k]);
      }
      JoinStartsWithFirst(ps, "|");
      assert ps[0][|segments[0].questionId|] == '~';
      Strings.SplitJoin(ps, '|');
      ParsePiecesRoundTrip(segments);
    }
  }

  // ---------------------------------------------------------------------------
  // Endpoints and requests
  // ---------------------------------------------------------------------------

  /** The client's configuration: base URL, API key and study name. */
  datatype ProsperApi = ProsperApi(baseUrl: string, apiKey: string, studyName: string)

  datatype ConfigError = MissingEnvironment

  /** The constructor refuses an empty base URL, API key or study name. */
  function Configure(baseUrl: string, apiKey: string, studyName: string): (r: Result<ProsperApi, ConfigError>)
    ensures r.Ok? <==> baseUrl != "" && apiKey != "" && studyName != ""
    ensures r.Ok? ==> r.value == ProsperApi(baseUrl, apiKey, studyName)
  {
    if baseUrl == "" || apiKey == "" || studyName == "" then Err(MissingEnvironment)
    else Ok(ProsperApi(baseUrl, apiKey, studyName))
  }

  function MetadataEndpoint(api: ProsperApi, questionId: string): string {
    "metadata/" + api.studyName + "/" + questionId
  }

  /**
   * `months == 0` asks for the single-point `data` path; otherwise the `datatrend` path, with
   * the end date only when one is given and non-empty.
   */
  function DataEndpoint(api: ProsperApi, questionId: string, months: int, endDate: Option<string>,
                        segment: string, increment: int): string
  {
    if months == 0 then
      "data/" + api.studyName + "/" + questionId + "/" + segment
    else if endDate.Some? && endDate.value != "" then
      "datatrend/" + api.studyName + "/" + endDate.value + "/" + Strings.IntToString(months) + "/" + questionId
        + "/" + segment + "/" + Strings.IntToString(increment)
    else
      "datatrend/" + api.studyName + "/" + Strings.IntToString(months) + "/" + questionId + "/" + segment
        + "/" + Strings.IntToString(increment)
  }

  function MostRecentDateEndpoint(api: ProsperApi, questionId: string): string {
    "mrd/" + api.studyName + "/" + questionId
  }

  function DataRangeEndpoint(api: ProsperApi, questionId: string, startDate: string, endDate: string,
                             segment: string, increment: int): string
  {
    "datatrend/" + api.studyName + "/" + startDate + "/" + endDate + "/" + questionId + "/" + segment
      + "/" + Strings.IntToString(increment)
  }

  /** The path components `DataEndpoint` selects. */
  function DataPath(api: ProsperApi, questionId: string, months: int, endDate: Option<string>,
                    segment: string, increment: int): seq<string>
  {
    if months == 0 then ["data", api.studyName, questionId, segment]
    else if endDate.Some? && endDate.value != "" then
      ["datatrend", api.studyName, endDate.value, Strings.IntToString(months), questionId, segment, Strings.IntToString(increment)]
    else ["datatrend", api.studyName, Strings.IntToString(months), questionId, segment, Strings.IntToString(increment)]
  }

  lemma IntHasNoSlash(i: int)
    ensures '/' !in Strings.IntToString(i)
  {
    var s := Strings.IntToString(i);
    assert forall k :: 0 <= k < |s| ==> s[k] != '/';
  }

  lemma JoinSinglePoint(a: string, b: string, c: string, d: string)
    ensures Strings.Join([a, b, c, d], "/") == a + "/" + b + "/" + c + "/" + d
  {
    JoinCons(c, [d], "/");
    JoinCons(b, [c, d], "/");
    JoinCons(a, [b, c, d], "/");
  }

  lemma JoinTrend(a: string, b: string, c: string, d: string, e: string, f: string)
    ensures Strings.Join([a, b, c, d, e, f], "/") == a + "/" + b + "/" + c + "/" + d + "/" + e + "/" + f
  {
    JoinCons(e, [f], "/");
    JoinCons(d, [e, f], "/");
    JoinCons(c, [d, e, f], "/");
    JoinCons(b, [c, d, e, f], "/");
    JoinCons(a, [b, c, d, e, f], "/");
  }

  lemma JoinDatedTrend(a: string, b: string, c: string, d: string, e: string, f: string, g: string)
    ensures Strings.Join([a, b, c, d, e, f, g], "/") == a + "/" + b + "/" + c + "/" + d + "/" + e + "/" + f + "/" + g
  {
    JoinTrend(b, c, d, e, f, g);
    JoinCons(a, [b, c, d, e, f, g], "/");
  }

  /**
   * When the study, question, segment and date contain no "/", splitting the data endpoint on
   * "/" recovers exactly the selected components: the single-point path has no date, months or
   * increment, and the trend path carries the date only when one was given.
   */
  lemma DataEndpointComponents(api: ProsperApi, questionId: string, months: int, endDate: Option<string>,
                               segment: string, increment: int)
    requires '/' !in api.studyName && '/' !in questionId && '/' !in segment
    requires endDate.Some? ==> '/' !in endDate.value
    ensures Strings.Split(DataEndpoint(api, questionId, months, endDate, segment, increment), '/')
         == DataPath(api, questionId, months, endDate, segment, increment)
  {
    var path := DataPath(api, questionId, months, endDate, segment, increment);
    var m, inc := Strings.IntToString(months), Strings.IntToString(increment);
    IntHasNoSlash(months);
    IntHasNoSlash(increment);
    if months == 0 {
      JoinSinglePoint("data", api.studyName, questionId, segment);
      assert "data/" == "data" + "/";
    } else if endDate.Some? && endDate.value != "" {
      JoinDatedTrend("datatrend", api.studyName, endDate.value, m, questionId, segment, inc);
      assert "datatrend/" == "datatrend" + "/";
    } else {
      JoinTrend("datatrend", api.studyName, m, questionId, segment, inc);
      assert "datatrend/" == "datatrend" + "/";
    }
    assert Strings.Join(path, "/") == DataEndpoint(api, questionId, months, endDate, segment, increment);
    Strings.SplitJoin(path, '/');
  }

  lemma JoinThree(a: string, b: string, c: string)
    ensures Strings.Join([a, b, c], "/") == a + "/" + b + "/" + c
  {
    JoinCons(b, [c], "/");
    JoinCons(a, [b, c], "/");
  }

  /** The metadata and most-recent-date paths split into their kind, the study and the question. */
  lemma LookupEndpointComponents(api: ProsperApi, questionId: string)
    requires '/' !in api.studyName && '/' !in questionId
    ensures Strings.Split(MetadataEndpoint(api, questionId), '/') == ["metadata", api.studyName, questionId]
    ensures Strings.Split(MostRecentDateEndpoint(api, questionId), '/') == ["mrd", api.studyName, questionId]
  {
    JoinThree("metadata", api.studyName, questionId);
    assert "metadata/" == "metadata" + "/";
    Strings.SplitJoin(["metadata", api.studyName, questionId], '/');
    JoinThree("mrd", api.studyName, questionId);
    assert "mrd/" == "mrd" + "/";
    Strings.SplitJoin(["mrd", api.studyName, questionId], '/');
  }

  /** The date-range path splits into the study, both dates, the question, the segment and the increment. */
  lemma DataRangeEndpointComponents(api: ProsperApi, questionId: string, startDate: string, endDate: string,
                                    segment: string, increment: int)
    requires '/' !in api.studyName && '/' !in questionId && '/' !in segment
    requires '/' !in startDate && '/' !in endDate
    ensures Strings.Split(DataRangeEndpoint(api, questionId, startDate, endDate, segment, increment), '/')
         == ["datatrend", api.studyName, startDate, endDate, questionId, segment, Strings.IntToString(increment)]
  {
    var path := ["datatrend", api.studyName, startDate, endDate, questionId, segment, Strings.IntToString(increment)];
    IntHasNoSlash(increment);
    JoinDatedTrend("datatrend", api.studyName, startDate, endDate, questionId, segment, Strings.IntToString(increment));
    assert "datatrend/" == "datatrend" + "/";
    Strings.SplitJoin(path, '/');
  }

  lemma SinglePointIgnoresTrendArguments(api: ProsperApi, questionId: string, segment: string,
                                         end1: Option<string>, end2: Option<string>, inc1: int, inc2: int)
    ensures DataEndpoint(api, questionId, 0, end1, segment, inc1) == DataEndpoint(api, questionId, 0, end2, segment, inc2)
  {
  }

  /** `f"{base.rstrip('/')}/{endpoint.lstrip('/')}"`. */
  function RequestUrl(baseUrl: string, endpoint: string): string {
    Strings.RStripChar(baseUrl, '/') + "/" + Strings.LStripChar(endpoint, '/')
  }

  /**
   * The URL is the base without its trailing slashes, a single "/", and the endpoint without
   * its leading slashes: the base and the endpoint are recovered up to those slashes.
   */
  lemma RequestUrlShape(baseUrl: string, endpoint: string)
    ensures var u, b, e := RequestUrl(baseUrl, endpoint), Strings.RStripChar(baseUrl, '/'), Strings.LStripChar(endpoint, '/');
      && u == b + "/" + e
      && baseUrl[..|b|] == b && Strings.AllChar(baseUrl[|b|..], '/')
      && endpoint[|endpoint| - |e|..] == e && Strings.AllChar(endpoint[..|endpoint| - |e|], '/')
      && (|b| == 0 || u[|b| - 1] != '/')
      && (|e| == 0 || u[|b| + 1] != '/')
  {
    var b, e := Strings.RStripChar(baseUrl, '/'), Strings.LStripChar(endpoint, '/');
    AroundSlash(b, e);
  }

  /** The characters on either side of the joining "/". */
  lemma AroundSlash(b: string, e: string)
    ensures |b| > 0 ==> (b + "/" + e)[|b| - 1] == b[|b| - 1]
    ensures |e| > 0 ==> (b + "/" + e)[|b| + 1] == e[0]
  {
  }

  lemma {:induction false} RStripSlashIdempotent(s: string)
    ensures Strings.RStripChar(s + "/", '/') == Strings.RStripChar(s, '/')
  {
    assert (s + "/")[..|s + "/"| - 1] == s;
  }

  /** Extra slashes between the base and the endpoint do not change the URL. */
  lemma RequestUrlSlashInsensitive(baseUrl: string, endpoint: string)
    ensures RequestUrl(baseUrl + "/", endpoint) == RequestUrl(baseUrl, endpoint)
    ensures RequestUrl(baseUrl, "/" + endpoint) == RequestUrl(baseUrl, endpoint)
  {
    RStripSlashIdempotent(baseUrl);
    assert ("/" + endpoint)[1..] == endpoint;
  }

  /** `params` with the API key put in, overriding any caller value; `None` becomes a fresh map. */
  function WithApiKey(params: Option<map<string, string>>, apiKey: string): (r: map<string, string>)
    ensures "apikey" in r && r["apikey"] == apiKey
    ensures params.None? ==> r.Keys == {"apikey"}
    ensures params.Some? ==> r.Keys == params.value.Keys + {"apikey"}
    ensures params.Some? ==> forall k :: k in params.value && k != "apikey" ==> r[k] == params.value[k]
  {
    params.GetOr(map[])["apikey" := apiKey]
  }

  datatype Request = Request(httpMethod: string, url: string, params: map<string, string>)

  /** What `_make_request` sends, up to the HTTP call itself. */
  function PrepareRequest(api: ProsperApi, endpoint: string, httpMethod: string, params: Option<map<string, string>>): Request {
    Request(httpMethod, RequestUrl(api.baseUrl, endpoint), WithApiKey(params, api.apiKey))
  }

  function GetQuestionMetadata(api: ProsperApi, questionId: string): Request {
    PrepareRequest(api, MetadataEndpoint(api, questionId), "GET", None)
  }

  function GetQuestionData(api: ProsperApi, questionId: string, months: int, endDate: Option<string>,
                           segment: string, increment: int): Request
  {
    PrepareRequest(api, DataEndpoint(api, questionId, months, endDate, segment, increment), "GET", None)
  }

  function GetMostRecentDate(api: ProsperApi, questionId: string): Request {
    PrepareRequest(api, MostRecentDateEndpoint(api, questionId), "GET", None)
  }

  function GetQuestionDataRange(api: ProsperApi, questionId: string, startDate: string, endDate: string,
                                segment: string, increment: int): Request
  {
    PrepareRequest(api, DataRangeEndpoint(api, questionId, startDate, endDate, segment, increment), "GET", None)
  }

  /** Every data request is a GET whose only query parameter is the API key. */
  lemma DataRequestsCarryOnlyTheKey(api: ProsperApi, questionId: string, months: int, endDate: Option<string>,
                                    segment: string, increment: int)
    ensures var r := GetQuestionData(api, questionId, months, endDate, segment, increment);
      r.httpMethod == "GET" && r.params == map["apikey" := api.apiKey]
      && r.url == RequestUrl(api.baseUrl, DataEndpoint(api, questionId, months, endDate, segment, increment))
  {
  }
}
