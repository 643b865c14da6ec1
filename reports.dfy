/**
 * The report builder (report_builder.py): a line-based markdown section parser and the list of
 * report items the builder keeps in the session, with append, move and remove.
 */
module Reports {
  import opened Wrappers
  import opened Strings
  import Charts
  import Seqs

  // ---------------------------------------------------------------------------
  // The header pattern ^(#{1,6})\s+(.+)$
  // ---------------------------------------------------------------------------

  datatype Header = Header(level: nat, title: string)

  /** The number of `#` characters a line starts with. */
  function LeadingHashes(s: string): (r: nat)
    ensures r <= |s| && AllChar(s[..r], '#')
    ensures r == |s| || s[r] != '#'
  {
    if |s| > 0 && s[0] == '#' then
      var r := 1 + LeadingHashes(s[1..]);
      assert s[..r] == [s[0]] + s[1..][..r - 1];
      r
    else 0
  }

  /**
   * The line matches the pattern with `level` hashes in the first group and `title` in the
   * second: one to six `#`, then a non-empty run of whitespace, then a non-empty title that
   * runs to the end of the line.
   */
  ghost predicate Matches(line: string, level: nat, title: string) {
    && 1 <= level <= 6 && |title| >= 1 && level + 1 + |title| <= |line|
    && AllChar(line[..level], '#')
    && AllSpace(line[level..|line| - |title|])
    && line[|line| - |title|..] == title
  }

  /** The title the pattern captures after `h` hashes and at least one whitespace character. */
  function TitleAfter(line: string, h: nat): string
    requires h + 2 <= |line|
  {
    var rest := line[h..];
    var t := LStrip(rest);
    if t == "" then rest[|rest| - 1..] else t
  }

  lemma TitleAfterMatches(line: string, h: nat)
    requires 1 <= h <= 6 && h + 2 <= |line| && IsSpace(line[h]) && AllChar(line[..h], '#')
    ensures Matches(line, h, TitleAfter(line, h))
  {
    var rest := line[h..];
    var t := LStrip(rest);
    LStripShape(rest);
    var title := TitleAfter(line, h);
    assert line[|line| - |title|..] == rest[|rest| - |title|..];
    assert line[h..|line| - |title|] == rest[..|rest| - |title|];
    assert AllSpace(rest[..|rest| - |title|]) by {
      if t == "" {
        assert rest[..|rest| - |title|] == rest[..|rest|][..|rest| - 1];
      }
    }
  }

  /**
   * `re.match(r'^(#{1,6})\s+(.+)$', line)`. The whitespace run is greedy, so the title starts at
   * the first non-space character; when everything after the hashes is whitespace, the pattern
   * backtracks and the title is the last character.
   */
  function MatchHeader(line: string): (r: Option<Header>)
    ensures r.Some? ==> Matches(line, r.value.level, r.value.title)
  {
    var h := LeadingHashes(line);
    if 1 <= h <= 6 && |line| >= h + 2 && IsSpace(line[h]) then
      TitleAfterMatches(line, h);
      Some(Header(h, TitleAfter(line, h)))
    else None
  }

  /** In any match the first group is exactly the line's leading hashes. */
  lemma MatchedLevelIsLeadingHashes(line: string, level: nat, title: string)
    requires Matches(line, level, title)
    ensures LeadingHashes(line) == level
  {
    assert line[level] == line[level..|line| - |title|][0];
  }

  /**
   * Every way the pattern can match yields a header: the level is the number of hashes, and
   * the captured title is the shortest possible one (the whitespace run takes all it can).
   */
  lemma MatchHeaderComplete(line: string, level: nat, title: string)
    requires Matches(line, level, title)
    ensures MatchHeader(line).Some?
    ensures MatchHeader(line).value.level == level
    ensures |MatchHeader(line).value.title| <= |title|
  {
    MatchedLevelIsLeadingHashes(line, level, title);
    var rest := line[level..];
    assert rest[..|rest| - |title|] == line[level..|line| - |title|];
    assert IsSpace(rest[0]);
    LStripPastSpaces(rest, |rest| - |title|);
  }

  /** A line that does not produce a header matches the pattern in no way. */
  lemma NoMatchMeansNoHeader(line: string, level: nat, title: string)
    requires MatchHeader(line).None?
    ensures !Matches(line, level, title)
  {
    if Matches(line, level, title) {
      MatchHeaderComplete(line, level, title);
    }
  }

  // ---------------------------------------------------------------------------
  // Sections
  // ---------------------------------------------------------------------------

  datatype Section = Section(title: string, content: string, level: nat)

  /** The section that collects text before the first header. */
  const Introduction := Section("Introduction", "", 0)

  datatype ParseState = ParseState(sections: seq<Section>, current: Section)

  /** A section is kept only when its content is not blank. */
  function Flush(sections: seq<Section>, current: Section): seq<Section> {
    if Strip(current.content) != "" then sections + [current] else sections
  }

  /** One line: a header starts a new section, any other line is appended with its newline. */
  function Step(st: ParseState, line: string): ParseState {
    match MatchHeader(line)
    case Some(h) => ParseState(Flush(st.sections, st.current), Section(h.title, "", h.level))
    case None => ParseState(st.sections, st.current.(content := st.current.content + line + "\n"))
  }

  function Scan(lines: seq<string>): ParseState {
    if |lines| == 0 then ParseState([], Introduction)
    else Step(Scan(lines[..|lines| - 1]), lines[|lines| - 1])
  }

  /** The sections of a markdown text. */
  function SectionsOf(content: string): seq<Section> {
    var st := Scan(Split(content, '\n'));
    Flush(st.sections, st.current)
  }

  method ParseMarkdownSections(content: string) returns (sections: seq<Section>)
    ensures sections == SectionsOf(content)
  {
    sections := [];
    var current := Introduction;
    var lines := Split(content, '\n');
    for i := 0 to |lines|
      invariant ParseState(sections, current) == Scan(lines[..i])
    {
      var line := lines[i];
      assert lines[..i + 1][..i] == lines[..i];
      var headerMatch := MatchHeader(line);
      if headerMatch.Some? {
        if Strip(current.content) != "" {
          sections := sections + [current];
        }
        current := Section(headerMatch.value.title, "", headerMatch.value.level);
      } else {
        current := current.(content := current.content + line + "\n");
      }
    }
    assert lines[..|lines|] == lines;
    if Strip(current.content) != "" {
      sections := sections + [current];
    }
  }

  /**
   * Kept sections are not blank and have level at most 6; level 0 appears only in the
   * first section, which is then the introduction.
   */
  ghost predicate WellFormedSections(sections: seq<Section>) {
    && (forall k :: 0 <= k < |sections| ==> Strip(sections[k].content) != "" && sections[k].level <= 6)
    && (forall k :: 0 <= k < |sections| && sections[k].level == 0 ==> k == 0 && sections[k].title == "Introduction")
  }

  ghost predicate WellFormedState(st: ParseState) {
    && WellFormedSections(st.sections)
    && st.current.level <= 6
    && (st.current.level == 0 ==> st.current.title == "Introduction" && st.sections == [])
  }

  lemma FlushWellFormed(st: ParseState)
    requires WellFormedState(st)
    ensures WellFormedSections(Flush(st.sections, st.current))
  {
  }

  lemma {:induction false} ScanWellFormed(lines: seq<string>)
    ensures WellFormedState(Scan(lines))
  {
    if |lines| > 0 {
      var st := Scan(lines[..|lines| - 1]);
      ScanWellFormed(lines[..|lines| - 1]);
      var h := MatchHeader(lines[|lines| - 1]);
      if h.Some? {
        FlushWellFormed(st);
      }
    }
  }

  lemma SectionsWellFormed(content: string)
    ensures WellFormedSections(SectionsOf(content))
  {
    var lines := Split(content, '\n');
    ScanWellFormed(lines);
    var st := Scan(lines);
    FlushWellFormed(st);
    assert SectionsOf(content) == Flush(st.sections, st.current);
  }

  /** Some line of `lines` is a header with this level and title. */
  ghost predicate HeaderLine(lines: seq<string>, level: nat, title: string) {
    exists i :: 0 <= i < |lines| && MatchHeader(lines[i]) == Some(Header(level, title))
  }

  /** Every section other than the introduction is titled and levelled by one of the header lines. */
  ghost predicate TitledByHeaders(lines: seq<string>, sections: seq<Section>) {
    forall k :: 0 <= k < |sections| && sections[k].level >= 1 ==> HeaderLine(lines, sections[k].level, sections[k].title)
  }

  lemma HeaderLineGrows(lines: seq<string>, line: string, level: nat, title: string)
    requires HeaderLine(lines, level, title)
    ensures HeaderLine(lines + [line], level, title)
  {
    var i :| 0 <= i < |lines| && MatchHeader(lines[i]) == Some(Header(level, title));
    assert (lines + [line])[i] == lines[i];
  }

  /** One step of the scan keeps every levelled section titled by a header line. */
  lemma StepKeepsTitles(lines: seq<string>, st: ParseState, line: string)
    requires TitledByHeaders(lines, st.sections + [st.current])
    ensures var next := Step(st, line);
      TitledByHeaders(lines + [line], next.sections + [next.current])
  {
    var all := st.sections + [st.current];
    forall k | 0 <= k < |all| && all[k].level >= 1
      ensures HeaderLine(lines + [line], all[k].level, all[k].title)
    {
      HeaderLineGrows(lines, line, all[k].level, all[k].title);
    }
    var next := Step(st, line);
    var nextAll := next.sections + [next.current];
    var h := MatchHeader(line);
    if h.Some? {
      assert (lines + [line])[|lines|] == line;
      var kept := Flush(st.sections, st.current);
      assert forall k :: 0 <= k < |kept| ==> kept[k] in all;
      forall k | 0 <= k < |nextAll| && nextAll[k].level >= 1
        ensures HeaderLine(lines + [line], nextAll[k].level, nextAll[k].title)
      {
        if k < |kept| {
          var m :| 0 <= m < |all| && all[m] == kept[k];
        }
      }
    } else {
      forall k | 0 <= k < |nextAll| && nextAll[k].level >= 1
        ensures HeaderLine(lines + [line], nextAll[k].level, nextAll[k].title)
      {
        assert nextAll[k].level == all[k].level && nextAll[k].title == all[k].title;
      }
    }
  }

  lemma {:induction false} ScanTitles(lines: seq<string>)
    ensures TitledByHeaders(lines, Scan(lines).sections + [Scan(lines).current])
  {
    if |lines| > 0 {
      var init, line := lines[..|lines| - 1], lines[|lines| - 1];
      assert lines == init + [line];
      ScanTitles(init);
      StepKeepsTitles(init, Scan(init), line);
    }
  }

  /** Every parsed section with a level is headed by a header line of the text. */
  lemma SectionTitlesFromHeaders(content: string)
    ensures TitledByHeaders(Split(content, '\n'), SectionsOf(content))
  {
    var lines := Split(content, '\n');
    ScanTitles(lines);
    var st := Scan(lines);
    var r := SectionsOf(content);
    assert forall k :: 0 <= k < |r| ==> r[k] in st.sections + [st.current];
  }

  /** The lines, each followed by a newline. */
  function Lines(lines: seq<string>): string {
    if |lines| == 0 then "" else Lines(lines[..|lines| - 1]) + lines[|lines| - 1] + "\n"
  }

  lemma {:induction false} LinesJoin(lines: seq<string>)
    requires |lines| >= 1
    ensures Lines(lines) == Join(lines, "\n") + "\n"
  {
    if |lines| > 1 {
      var init := lines[..|lines| - 1];
      LinesJoin(init);
      JoinSnoc(init, lines[|lines| - 1], "\n");
      assert init + [lines[|lines| - 1]] == lines;
    } else {
      assert Lines(lines) == Lines([]) + lines[0] + "\n";
    }
  }

  lemma {:induction false} ScanWithoutHeaders(lines: seq<string>)
    requires forall i :: 0 <= i < |lines| ==> MatchHeader(lines[i]).None?
    ensures Scan(lines) == ParseState([], Section("Introduction", Lines(lines), 0))
  {
    if |lines| > 0 {
      ScanWithoutHeaders(lines[..|lines| - 1]);
    }
  }

  /**
   * Text without header lines is one introduction section holding the whole text plus a final
   * newline, unless it is blank, in which case there are no sections.
   */
  lemma SectionsWithoutHeaders(content: string)
    requires forall i :: 0 <= i < |Split(content, '\n')| ==> MatchHeader(Split(content, '\n')[i]).None?
    ensures AllSpace(content) ==> SectionsOf(content) == []
    ensures !AllSpace(content) ==> SectionsOf(content) == [Section("Introduction", content + "\n", 0)]
  {
    var lines := Split(content, '\n');
    ScanWithoutHeaders(lines);
    LinesJoin(lines);
    JoinSplit(content, '\n');
    assert Lines(lines) == content + "\n";
    StripEmptyIffAllSpace(content + "\n");
    assert (content + "\n")[|content|] == '\n';
    assert AllSpace(content + "\n") <==> AllSpace(content) by {
      if AllSpace(content) {
        forall i | 0 <= i < |content| + 1 ensures IsSpace((content + "\n")[i]) {
          if i < |content| {
            assert (content + "\n")[i] == content[i];
          }
        }
      }
      if AllSpace(content + "\n") {
        forall i | 0 <= i < |content| ensures IsSpace(content[i]) {
          assert (content + "\n")[i] == content[i];
        }
      }
    }
  }

  /** A run of header lines leaves no section behind and an empty current section. */
  lemma {:induction false} ScanOnlyHeaders(lines: seq<string>)
    requires forall i :: 0 <= i < |lines| ==> MatchHeader(lines[i]).Some?
    ensures Scan(lines).sections == [] && Scan(lines).current.content == ""
  {
    if |lines| > 0 {
      ScanOnlyHeaders(lines[..|lines| - 1]);
      assert Strip("") == "";
    }
  }

  /** Content made only of header lines has no section, so the caller's title and level are used. */
  lemma HeadersOnlyContentItem(content: string, title: Option<string>, level: int)
    requires forall i :: 0 <= i < |Split(content, '\n')| ==> MatchHeader(Split(content, '\n')[i]).Some?
    ensures SectionsOf(content) == []
    ensures ContentItems(content, title, level) == [TextItem(OrDefault(title, "Section"), content, level)]
  {
    var lines := Split(content, '\n');
    ScanOnlyHeaders(lines);
    assert Strip("") == "";
  }

  lemma OneHashHeader(c: char)
    requires !IsSpace(c) && c != '#'
    ensures MatchHeader(['#', ' ', c]) == Some(Header(1, [c]))
  {
    var line := ['#', ' ', c];
    assert line[1..] == [' ', c] && line[1..][1..] == [c];
    assert LeadingHashes(line) == 1;
    var rest := line[1..];
    assert LStrip(rest) == LStrip([c]);
    assert LStrip([c]) == [c];
  }

  lemma ExampleLines()
    ensures Split("# A\n# B\nx", '\n') == ["# A", "# B", "x"]
  {
    var lines := ["# A", "# B", "x"];
    assert Join(lines, "\n") == "# A\n# B\nx" by {
      assert lines[1..] == ["# B", "x"];
      assert lines[1..][1..] == ["x"];
    }
    SplitJoin(lines, '\n');
  }

  lemma ExampleScan()
    ensures Scan(["# A", "# B", "x"]) == ParseState([], Section("B", "x\n", 1))
  {
    var lines := ["# A", "# B", "x"];
    OneHashHeader('A');
    OneHashHeader('B');
    assert MatchHeader("x").None?;
    assert Strip("") == "";
    assert lines[..2] == ["# A", "# B"];
    assert ["# A"][..0] == [] && ["# A", "# B"][..1] == ["# A"];
    assert Flush([], Introduction) == [];
    assert Scan(["# A"]) == ParseState([], Section("A", "", 1));
    assert Scan(["# A", "# B"]) == ParseState([], Section("B", "", 1));
  }

  /** A header followed directly by another header leaves no section of its own. */
  lemma HeaderThenHeaderExample()
    ensures SectionsOf("# A\n# B\nx") == [Section("B", "x\n", 1)]
  {
    ExampleLines();
    ExampleScan();
    XIsNotBlank();
    var st := Scan(Split("# A\n# B\nx", '\n'));
    assert st == ParseState([], Section("B", "x\n", 1));
  }

  lemma XIsNotBlank()
    ensures Strip("x\n") == "x"
  {
    assert LStrip("x\n") == "x\n";
    assert "x\n"[..1] == "x";
    assert RStrip("x\n") == RStrip("x");
  }

  // ---------------------------------------------------------------------------
  // The report content list
  // ---------------------------------------------------------------------------

  datatype ReportItem =
    | TextItem(title: string, content: string, level: int)
    | VisualizationItem(title: string, figure: Charts.Figure)

  /** `title or default`: an empty title counts as none. */
  function OrDefault(title: Option<string>, default: string): (r: string)
    ensures title.Some? && title.value != "" ==> r == title.value
    ensures title.None? || title.value == "" ==> r == default
  {
    if title.Some? && title.value != "" then title.value else default
  }

  /** One text item per section, with the section's content stripped. */
  function SectionItems(sections: seq<Section>): (r: seq<ReportItem>)
    ensures |r| == |sections|
  {
    if |sections| == 0 then []
    else SectionItems(sections[..|sections| - 1])
         + [TextItem(sections[|sections| - 1].title, Strip(sections[|sections| - 1].content), sections[|sections| - 1].level)]
  }

  lemma {:induction false} SectionItemsAt(sections: seq<Section>, k: nat)
    requires k < |sections|
    ensures SectionItems(sections)[k] == TextItem(sections[k].title, Strip(sections[k].content), sections[k].level)
  {
    if k < |sections| - 1 {
      SectionItemsAt(sections[..|sections| - 1], k);
    }
  }

  lemma SectionItemsStep(sections: seq<Section>, i: nat)
    requires i < |sections|
    ensures SectionItems(sections[..i + 1])
         == SectionItems(sections[..i]) + [TextItem(sections[i].title, Strip(sections[i].content), sections[i].level)]
  {
    assert sections[..i + 1][..i] == sections[..i];
  }

  /**
   * The items `add_content` appends: one per parsed section with stripped content, or, when
   * parsing finds none, the whole content unstripped under the given title or "Section".
   */
  function ContentItems(content: string, title: Option<string>, level: int): seq<ReportItem> {
    var sections := SectionsOf(content);
    if |sections| == 0 then [TextItem(OrDefault(title, "Section"), content, level)]
    else SectionItems(sections)
  }

  /** Adding content always adds at least one item, and every added item is a text item. */
  lemma ContentItemsShape(content: string, title: Option<string>, level: int)
    ensures |ContentItems(content, title, level)| >= 1
    ensures forall k :: 0 <= k < |ContentItems(content, title, level)| ==> ContentItems(content, title, level)[k].TextItem?
  {
    var sections := SectionsOf(content);
    var items := ContentItems(content, title, level);
    if |sections| == 0 {
      assert items == [TextItem(OrDefault(title, "Section"), content, level)];
    } else {
      assert items == SectionItems(sections);
      forall k | 0 <= k < |items| ensures items[k].TextItem? {
        SectionItemsAt(sections, k);
      }
    }
  }

  /** Blank content becomes one item with the content as given. */
  lemma BlankContentItem(content: string, title: Option<string>, level: int)
    requires AllSpace(content)
    ensures ContentItems(content, title, level) == [TextItem(OrDefault(title, "Section"), content, level)]
  {
    var lines := Split(content, '\n');
    forall i | 0 <= i < |lines| ensures MatchHeader(lines[i]).None? {
      // A header line has a non-space title character, and every character of `content`
      // outside the separators is whitespace.
      NoHeaderInBlank(content, i);
    }
    SectionsWithoutHeaders(content);
  }

  lemma NoHeaderInBlank(content: string, i: nat)
    requires AllSpace(content) && i < |Split(content, '\n')|
    ensures MatchHeader(Split(content, '\n')[i]).None?
  {
    var lines := Split(content, '\n');
    JoinSplit(content, '\n');
    PieceOfJoinIsBlank(lines, i);
    var line := lines[i];
    if |line| > 0 {
      assert IsSpace(line[0]);
    }
  }

  lemma {:induction false} PieceOfJoinIsBlank(parts: seq<string>, i: nat)
    requires i < |parts| && AllSpace(Join(parts, "\n"))
    ensures AllSpace(parts[i])
  {
    if |parts| > 1 {
      var rest := Join(parts[1..], "\n");
      assert Join(parts, "\n") == parts[0] + "\n" + rest;
      if i == 0 {
        forall j | 0 <= j < |parts[0]| ensures IsSpace(parts[0][j]) {
          assert Join(parts, "\n")[j] == parts[0][j];
        }
      } else {
        forall j | 0 <= j < |rest| ensures IsSpace(rest[j]) {
          assert Join(parts, "\n")[|parts[0]| + 1 + j] == rest[j];
        }
        PieceOfJoinIsBlank(parts[1..], i - 1);
      }
    }
  }

  /**
   * Non-blank text without headers becomes one "Introduction" item at level 0, whatever title
   * and level the caller passed.
   */
  lemma PlainTextIgnoresTitle(content: string, title: Option<string>, level: int)
    requires forall i :: 0 <= i < |Split(content, '\n')| ==> MatchHeader(Split(content, '\n')[i]).None?
    requires !AllSpace(content)
    ensures ContentItems(content, title, level) == [TextItem("Introduction", Strip(content + "\n"), 0)]
  {
    SectionsWithoutHeaders(content);
  }

  function Removed(s: seq<ReportItem>, i: nat): (r: seq<ReportItem>)
    requires i < |s|
    ensures |r| == |s| - 1
    ensures forall k :: 0 <= k < i ==> r[k] == s[k]
    ensures forall k :: i <= k < |r| ==> r[k] == s[k + 1]
  {
    s[..i] + s[i + 1..]
  }

  function Inserted(s: seq<ReportItem>, i: nat, x: ReportItem): (r: seq<ReportItem>)
    requires i <= |s|
    ensures |r| == |s| + 1 && r[i] == x
    ensures forall k :: 0 <= k < i ==> r[k] == s[k]
    ensures forall k :: i < k < |r| ==> r[k] == s[k - 1]
  {
    s[..i] + [x] + s[i..]
  }

  /** `list.pop(from)` followed by `list.insert(to, item)`. */
  function Moved(s: seq<ReportItem>, from: nat, to: nat): seq<ReportItem>
    requires from < |s| && to < |s|
  {
    Inserted(Removed(s, from), to, s[from])
  }

  lemma RemovedMultiset(s: seq<ReportItem>, i: nat)
    requires i < |s|
    ensures multiset(s) == multiset(Removed(s, i)) + multiset{s[i]}
  {
    assert s == s[..i] + [s[i]] + s[i + 1..];
  }

  lemma InsertedMultiset(s: seq<ReportItem>, i: nat, x: ReportItem)
    requires i <= |s|
    ensures multiset(Inserted(s, i, x)) == multiset(s) + multiset{x}
  {
    assert s == s[..i] + s[i..];
  }

  lemma RemoveInserted(s: seq<ReportItem>, i: nat, x: ReportItem)
    requires i <= |s|
    ensures Removed(Inserted(s, i, x), i) == s
  {
  }

  /** A move keeps the length and the items, and puts the moved item at the target. */
  lemma MovedKeepsItems(s: seq<ReportItem>, from: nat, to: nat)
    requires from < |s| && to < |s|
    ensures |Moved(s, from, to)| == |s|
    ensures multiset(Moved(s, from, to)) == multiset(s)
    ensures Moved(s, from, to)[to] == s[from]
    ensures Removed(Moved(s, from, to), to) == Removed(s, from)
  {
    var r := Removed(s, from);
    RemovedMultiset(s, from);
    InsertedMultiset(r, to, s[from]);
    RemoveInserted(r, to, s[from]);
  }

  /** Moving an item back undoes the move ("Move Up" then "Move Down"). */
  lemma MoveBack(s: seq<ReportItem>, from: nat, to: nat)
    requires from < |s| && to < |s|
    ensures Moved(Moved(s, from, to), to, from) == s
  {
    var m := Moved(s, from, to);
    MovedKeepsItems(s, from, to);
    assert Removed(m, to) == Removed(s, from);
    var back := Moved(m, to, from);
    assert |back| == |s|;
    forall k | 0 <= k < |s| ensures back[k] == s[k] {
      if k < from {
      } else if k > from {
        assert back[k] == Removed(s, from)[k - 1];
      }
    }
  }

  /** The builder's list of report items, kept in the session. */
  class ReportBuilder {
    var reportContent: seq<ReportItem>
    var reportVisualizations: seq<Charts.Figure>

    /** Lists already in the session are kept; missing ones start empty. */
    constructor(content: Option<seq<ReportItem>>, visualizations: Option<seq<Charts.Figure>>)
      ensures reportContent == content.GetOr([])
      ensures reportVisualizations == visualizations.GetOr([])
    {
      reportContent := content.GetOr([]);
      reportVisualizations := visualizations.GetOr([]);
    }

    method AddContent(content: string, title: Option<string>, level: int)
      modifies this
      ensures reportContent == old(reportContent) + ContentItems(content, title, level)
      ensures reportVisualizations == old(reportVisualizations)
    {
      var sections := ParseMarkdownSections(content);
      if |sections| == 0 {
        reportContent := reportContent + [TextItem(OrDefault(title, "Section"), content, level)];
      } else {
        AppendSections(sections);
      }
    }

    /** The loop of `add_content`: one text item per parsed section, in order. */
    method AppendSections(sections: seq<Section>)
      modifies this
      ensures reportContent == old(reportContent) + SectionItems(sections)
      ensures reportVisualizations == old(reportVisualizations)
    {
      ghost var before := reportContent;
      for i := 0 to |sections|
        invariant reportContent == before + SectionItems(sections[..i])
        invariant reportVisualizations == old(reportVisualizations)
      {
        var section := sections[i];
        var item := TextItem(section.title, Strip(section.content), section.level);
        SectionItemsStep(sections, i);
        Seqs.AppendAssoc(before, SectionItems(sections[..i]), [item]);
        reportContent := reportContent + [item];
      }
      assert sections[..|sections|] == sections;
    }

    method AddVisualization(fig: Charts.Figure, title: Option<string>)
      modifies this
      ensures reportContent == old(reportContent) + [VisualizationItem(OrDefault(title, "Visualization"), fig)]
      ensures reportVisualizations == old(reportVisualizations)
    {
      reportContent := reportContent + [VisualizationItem(OrDefault(title, "Visualization"), fig)];
    }

    /** Moves an item when both indices are in range; otherwise nothing changes. */
    method MoveSection(fromIdx: int, toIdx: int)
      modifies this
      ensures 0 <= fromIdx < |old(reportContent)| && 0 <= toIdx < |old(reportContent)| ==>
        reportContent == Moved(old(reportContent), fromIdx, toIdx)
      ensures !(0 <= fromIdx < |old(reportContent)| && 0 <= toIdx < |old(reportContent)|) ==>
        reportContent == old(reportContent)
      ensures reportVisualizations == old(reportVisualizations)
    {
      if 0 <= fromIdx < |reportContent| && 0 <= toIdx < |reportContent| {
        var item := reportContent[fromIdx];
        reportContent := reportContent[..fromIdx] + reportContent[fromIdx + 1..];
        reportContent := reportContent[..toIdx] + [item] + reportContent[toIdx..];
      }
    }

    /** Removes the item at an in-range index; otherwise nothing changes. */
    method RemoveContent(idx: int)
      modifies this
      ensures 0 <= idx < |old(reportContent)| ==> reportContent == Removed(old(reportContent), idx)
      ensures !(0 <= idx < |old(reportContent)|) ==> reportContent == old(reportContent)
      ensures reportVisualizations == old(reportVisualizations)
    {
      if 0 <= idx < |reportContent| {
        reportContent := reportContent[..idx] + reportContent[idx + 1..];
      }
    }
  }
}
