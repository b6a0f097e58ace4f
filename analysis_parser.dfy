/** The backend's reading of the model's reply (backend/main.py,
    `parse_analysis_response` and `extract_parameters`): the reply is cut
    into lines, markdown headers switch between the "analysis", "findings",
    "recommendations" and "parameters" sections, bullets become list items,
    plain lines are gathered into the analysis text, and a keyword scan
    decides the severity. */
module AnalysisParser {
  import opened Text
  import opened Wrappers

  datatype Section = Analysis | Findings | Recommendations | Parameters

  /** What a line of the reply is, once stripped. */
  datatype LineKind =
    | Blank
    | Header(section: Section)
    | OtherHeader
    | Bullet(item: string)
    | Plain(text: string)

  /** The end of the run of `#` characters that starts at `k`. */
  function HashRunEnd(s: string, k: nat): (j: nat)
    requires k <= |s|
    ensures k <= j <= |s|
    ensures forall i :: k <= i < j ==> s[i] == '#'
    ensures j < |s| ==> s[j] != '#'
    decreases |s| - k
  {
    if k < |s| && s[k] == '#' then HashRunEnd(s, k + 1) else k
  }

  /** The text after the leading run of `#` characters. */
  function DropHashes(s: string): (r: string)
    ensures |r| <= |s| && r == s[|s| - |r|..]
    ensures forall i :: 0 <= i < |s| - |r| ==> s[i] == '#'
    ensures r != [] ==> r[0] != '#'
  {
    s[HashRunEnd(s, 0)..]
  }

  /** `re.match(r'^#+\s*(English|Arabic)', line, re.IGNORECASE)`: one or more
      `#`, optional whitespace, then either title, letters compared without
      regard to (ASCII) case. The titles start
      with neither `#` nor whitespace, so the regex matches exactly when the
      title follows the whole run of `#` and the whole run of whitespace after
      it. */
  predicate IsHeaderFor(line: string, english: string, arabic: string) {
    line != [] && line[0] == '#' &&
    var rest := TrimLeft(Python, DropHashes(line));
    StartsIgnoringCase(rest, english) || StartsIgnoringCase(rest, arabic)
  }

  /** `s` begins with the lower-case text `p`, letters of `s` compared
      without regard to (ASCII) case. */
  predicate StartsIgnoringCase(s: string, p: string) {
    |p| <= |s| && forall i :: 0 <= i < |p| ==> LowerChar(s[i]) == p[i]
  }

  /** Starting with `p` ignoring case is being a prefix once lower-cased. */
  lemma StartsIgnoringCaseIsLowerPrefix(s: string, p: string)
    ensures StartsIgnoringCase(s, p) <==> p <= Lower(s)
  {
    if StartsIgnoringCase(s, p) {
      assert p == Lower(s)[..|p|];
    }
  }

  /** One of the header patterns of lines 1745-1752: its English and its
      Arabic title, in lower case, and the section it opens. */
  datatype HeaderPattern = HeaderPattern(english: string, arabic: string, section: Section)

  /** The four header patterns, in the order they are tried. */
  const HeaderPatterns: seq<HeaderPattern> := [
    HeaderPattern("detailed analysis", "التحليل التفصيلي", Analysis),
    HeaderPattern("key findings", "النتائج الرئيسية", Findings),
    HeaderPattern("recommendations", "التوصيات", Recommendations),
    HeaderPattern("measured parameters", "المعايير المقاسة", Parameters)
  ]

  /** The section of the first pattern the line matches, tried in order. */
  function MatchHeader(line: string, patterns: seq<HeaderPattern>): Option<Section>
    decreases |patterns|
  {
    if patterns == [] then None
    else if IsHeaderFor(line, patterns[0].english, patterns[0].arabic) then Some(patterns[0].section)
    else MatchHeader(line, patterns[1..])
  }

  /** A markdown heading `## title` reads as the header whose title it is:
      stripping leaves it whole, and the header tests see `title` after the
      `#` run and the space. */
  lemma HeadingLine(title: string)
    requires title != [] && title[0] != '#'
    requires !IsSpace(Python, title[0]) && !IsSpace(Python, title[|title| - 1])
    ensures Trim(Python, "## " + title) == "## " + title
    ensures TrimLeft(Python, DropHashes("## " + title)) == title
  {
    var line := "## " + title;
    HeadingLineStripped(title, line);
    HeadingLineTitle(title, line);
  }

  lemma HeadingLineStripped(title: string, line: string)
    requires title != [] && line == "## " + title
    requires !IsSpace(Python, title[|title| - 1])
    ensures Trim(Python, line) == line
  {
    assert line[0] == '#' && line[|line| - 1] == title[|title| - 1];
    assert !IsSpace(Python, '#');
    TrimFacts(Python, line);
  }

  lemma HeadingLineTitle(title: string, line: string)
    requires title != [] && line == "## " + title && title[0] != '#'
    requires !IsSpace(Python, title[0])
    ensures TrimLeft(Python, DropHashes(line)) == title
  {
    assert line[0] == '#' && line[1] == '#' && line[2] == ' ' && line[3] == title[0];
    assert HashRunEnd(line, 2) == 2;
    assert HashRunEnd(line, 0) == 2;
    var rest := line[2..];
    assert DropHashes(line) == rest;
    assert rest[0] == ' ' && rest[1] == title[0] && rest[1..] == title;
    assert IsSpace(Python, ' ');
    assert SpaceRunEnd(Python, rest, 1) == 1;
    assert SpaceRunEnd(Python, rest, 0) == 1;
  }

  /** The section of the first pattern a heading's title starts with. */
  function MatchTitle(title: string, patterns: seq<HeaderPattern>): Option<Section>
    decreases |patterns|
  {
    if patterns == [] then None
    else if StartsIgnoringCase(title, patterns[0].english) || StartsIgnoringCase(title, patterns[0].arabic)
    then Some(patterns[0].section)
    else MatchTitle(title, patterns[1..])
  }

  /** A `#` line is matched on its title: the text after the `#` run and the
      whitespace that follows it. */
  lemma {:induction false} MatchHeaderOnTitle(line: string, patterns: seq<HeaderPattern>)
    requires line != [] && line[0] == '#'
    ensures MatchHeader(line, patterns) == MatchTitle(TrimLeft(Python, DropHashes(line)), patterns)
    decreases |patterns|
  {
    if patterns != [] {
      MatchHeaderOnTitle(line, patterns[1..]);
    }
  }

  /** A line that does not start with `#` matches no header pattern. */
  lemma {:induction false} NoHashNoHeader(line: string, patterns: seq<HeaderPattern>)
    requires line == [] || line[0] != '#'
    ensures MatchHeader(line, patterns) == None
    decreases |patterns|
  {
    if patterns != [] {
      NoHashNoHeader(line, patterns[1..]);
    }
  }

  /** A stripped line that matches a header pattern is that header. */
  lemma ClassifyHeaderLine(line: string, s: Section)
    requires line != [] && Trim(Python, line) == line
    requires MatchHeader(line, HeaderPatterns) == Some(s)
    ensures Classify(line) == Header(s)
  {
  }

  /** The line `## title` is the header of the first pattern `title` starts with. */
  lemma ClassifyHeading(title: string, line: string, s: Section)
    requires line == "## " + title
    requires title != [] && title[0] != '#'
    requires !IsSpace(Python, title[0]) && !IsSpace(Python, title[|title| - 1])
    requires MatchTitle(title, HeaderPatterns) == Some(s)
    ensures Classify(line) == Header(s)
  {
    HeadingLineStripped(title, line);
    HeadingMatches(title, line, s);
    ClassifyHeaderLine(line, s);
  }

  lemma HeadingMatches(title: string, line: string, s: Section)
    requires line == "## " + title
    requires title != [] && title[0] != '#' && !IsSpace(Python, title[0])
    requires MatchTitle(title, HeaderPatterns) == Some(s)
    ensures MatchHeader(line, HeaderPatterns) == Some(s)
  {
    HeadingLineTitle(title, line);
    assert line[0] == '#';
    MatchHeaderOnTitle(line, HeaderPatterns);
  }

  /** A pattern the title differs from, case aside, in both its titles is
      passed over. */
  lemma SkipPattern(title: string, patterns: seq<HeaderPattern>, e: nat, a: nat)
    requires patterns != []
    requires e < |patterns[0].english| && e < |title| && LowerChar(title[e]) != patterns[0].english[e]
    requires a < |patterns[0].arabic| && a < |title| && LowerChar(title[a]) != patterns[0].arabic[a]
    ensures MatchTitle(title, patterns) == MatchTitle(title, patterns[1..])
  {
  }

  /** A pattern the title starts with is taken. */
  lemma UsePattern(title: string, patterns: seq<HeaderPattern>)
    requires patterns != []
    requires StartsIgnoringCase(title, patterns[0].english) || StartsIgnoringCase(title, patterns[0].arabic)
    ensures MatchTitle(title, patterns) == Some(patterns[0].section)
  {
  }

  /** How the loop body treats one raw line: strip it, skip it when empty,
      test the four headers in order, skip any other `#` line, take a line
      starting with `•` or `-` as a bullet (the rest of it, stripped), and
      otherwise keep it as plain text. */
  function Classify(raw: string): (k: LineKind)
    ensures k.Plain? ==> Stripped(k.text)
  {
    var line := Trim(Python, raw);
    if line == [] then Blank
    else if MatchHeader(line, HeaderPatterns).Some? then Header(MatchHeader(line, HeaderPatterns).value)
    else if line[0] == '#' then OtherHeader
    else if line[0] == '•' || line[0] == '-' then Bullet(Trim(Python, line[1..]))
    else Plain(line)
  }

  /** The loop's state: the current section and what has been collected. */
  datatype Sections = Sections(
    current: Section,
    analysis: string,
    findings: seq<string>,
    recommendations: seq<string>)

  const Initial := Sections(Analysis, "", [], [])

  /** What one iteration of the loop does with a line of the given kind. */
  function Step(st: Sections, kind: LineKind): Sections {
    match kind
    case Blank => st
    case OtherHeader => st
    case Header(s) => st.(current := s)
    case Bullet(item) =>
      if item == [] then st
      else if st.current == Findings then st.(findings := st.findings + [item])
      else if st.current == Recommendations then st.(recommendations := st.recommendations + [item])
      else st
    case Plain(t) =>
      if st.current == Analysis then st.(analysis := st.analysis + t + " ") else st
  }

  /** The state after the loop has run over lines of the given kinds. */
  function Run(st: Sections, kinds: seq<LineKind>): Sections
    decreases |kinds|
  {
    if kinds == [] then st else Step(Run(st, kinds[..|kinds| - 1]), kinds[|kinds| - 1])
  }

  /** The kind of each line, in order. */
  function Kinds(lines: seq<string>): (ks: seq<LineKind>)
    ensures |ks| == |lines|
  {
    Map(Classify, lines)
  }

  /** The kind at each position is that line's kind. */
  lemma KindsAt(lines: seq<string>, j: nat)
    requires j < |lines|
    ensures Kinds(lines)[j] == Classify(lines[j])
  {
    MapAt(Classify, lines, j);
  }

  /** Every plain line's text is stripped and non-empty. */
  lemma KindsPlainStripped(lines: seq<string>)
    ensures forall j :: 0 <= j < |lines| && Kinds(lines)[j].Plain? ==> Stripped(Kinds(lines)[j].text)
  {
    forall j | 0 <= j < |lines| && Kinds(lines)[j].Plain?
      ensures Stripped(Kinds(lines)[j].text)
    {
      KindsAt(lines, j);
    }
  }

  /** What `parse_analysis_response` collects from a reply in its loop. */
  function Sectioned(responseText: string): Sections {
    Run(Initial, Kinds(Split(responseText, '\n')))
  }

  /** The loop of lines 1738-1764 over `response_text.split('\n')`. */
  method ParseSections(responseText: string) returns (st: Sections)
    ensures st == Sectioned(responseText)
  {
    var lines := Split(responseText, '\n');
    st := Initial;
    var i := 0;
    while i < |lines|
      invariant 0 <= i <= |lines|
      invariant st == Run(Initial, Kinds(lines[..i]))
    {
      var kind := ClassifyLine(lines[i]);
      TakeSnoc(lines, i);
      KindsAppend(lines[..i], [lines[i]]);
      RunAppend(Initial, Kinds(lines[..i]), Kinds([lines[i]]));
      st := ParseLine(st, kind);
      i := i + 1;
    }
    assert lines[..i] == lines;
  }

  /** The start of the loop body: strip the line and decide what it is. */
  method ClassifyLine(raw: string) returns (kind: LineKind)
    ensures [kind] == Kinds([raw])
  {
    kind := Classify(raw);
    MapSnoc(Classify, [], raw);
  }

  /** The body of the loop, for a line already stripped and classified. */
  method ParseLine(st: Sections, kind: LineKind) returns (next: Sections)
    ensures next == Step(st, kind)
  {
    next := st;
    match kind {
      case Blank =>
      case OtherHeader =>
      case Header(s) =>
        next := next.(current := s);
      case Bullet(item) =>
        if next.current == Findings && item != [] {
          next := next.(findings := next.findings + [item]);
        } else if next.current == Recommendations && item != [] {
          next := next.(recommendations := next.recommendations + [item]);
        }
      case Plain(t) =>
        if next.current == Analysis {
          next := next.(analysis := next.analysis + t + " ");
        }
    }
  }

  /** Running over two pieces of text one after the other is running over
      their concatenation: the loop keeps no state besides `Sections`. */
  lemma {:induction false} RunAppend(st: Sections, a: seq<LineKind>, b: seq<LineKind>)
    ensures Run(st, a + b) == Run(Run(st, a), b)
    decreases |b|
  {
    if b == [] {
      assert a + b == a;
    } else {
      var n := |b| - 1;
      assert (a + b)[..|a + b| - 1] == a + b[..n];
      RunAppend(st, a, b[..n]);
    }
  }

  /** Classifying line by line commutes with putting texts together. */
  lemma KindsAppend(a: seq<string>, b: seq<string>)
    ensures Kinds(a + b) == Kinds(a) + Kinds(b)
  {
    MapAppend(Classify, a, b);
  }

  /** A line of a kind the loop ignores can be put anywhere without changing
      the result. */
  lemma IgnorableKindChangesNothing(a: seq<LineKind>, k: LineKind, b: seq<LineKind>)
    requires k == Blank || k == OtherHeader
    ensures Run(Initial, a + [k] + b) == Run(Initial, a + b)
  {
    RunAppend(Initial, a + [k], b);
    RunAppend(Initial, a, [k]);
    assert Run(Run(Initial, a), [k]) == Step(Run(Run(Initial, a), []), k);
    RunAppend(Initial, a, b);
  }

  /** Blank lines and headers of unknown sections can be put anywhere in the
      reply without changing what is parsed out of it. */
  lemma IgnorableLineChangesNothing(a: seq<string>, h: string, b: seq<string>)
    requires Classify(h) == Blank || Classify(h) == OtherHeader
    ensures Run(Initial, Kinds(a + [h] + b)) == Run(Initial, Kinds(a + b))
  {
    KindsAppend(a + [h], b);
    KindsAppend(a, [h]);
    KindsAppend(a, b);
    IgnorableKindChangesNothing(Kinds(a), Kinds([h])[0], Kinds(b));
    assert Kinds([h]) == [Kinds([h])[0]];
  }

  /** The list a section collects into (empty for the sections that are not lists). */
  function Items(st: Sections, s: Section): seq<string> {
    match s
    case Findings => st.findings
    case Recommendations => st.recommendations
    case _ => []
  }

  /** A list stays empty unless a line of the reply is that list's header:
      with no "Key Findings" header there are no findings, and with no
      "Recommendations" header there are no recommendations. */
  lemma {:induction false} NoItemsWithoutHeader(kinds: seq<LineKind>, s: Section)
    requires s == Findings || s == Recommendations
    requires forall j :: 0 <= j < |kinds| ==> kinds[j] != Header(s)
    ensures Items(Run(Initial, kinds), s) == []
    ensures Run(Initial, kinds).current != s
    decreases |kinds|
  {
    if kinds != [] {
      NoItemsWithoutHeader(kinds[..|kinds| - 1], s);
    }
  }

  /** Every item of `items` is non-empty and is what some line of the given
      kinds holds as a bullet. */
  predicate FromBullets(items: seq<string>, kinds: seq<LineKind>) {
    forall k :: 0 <= k < |items| ==>
      items[k] != [] && exists j :: 0 <= j < |kinds| && kinds[j] == Bullet(items[k])
  }

  /** The section in force after lines of the given kinds: that of the last
      header among them, or the analysis section when there is none. */
  function SectionAfter(kinds: seq<LineKind>): Section
    decreases |kinds|
  {
    if kinds == [] then Analysis
    else if kinds[|kinds| - 1].Header? then kinds[|kinds| - 1].section
    else SectionAfter(kinds[..|kinds| - 1])
  }

  /** The non-empty bullet texts met while section `s` is in force, in the
      order of their lines. */
  function BulletsUnder(kinds: seq<LineKind>, s: Section): seq<string>
    decreases |kinds|
  {
    if kinds == [] then []
    else
      var prev := kinds[..|kinds| - 1];
      var last := kinds[|kinds| - 1];
      if last.Bullet? && last.item != [] && SectionAfter(prev) == s
      then BulletsUnder(prev, s) + [last.item]
      else BulletsUnder(prev, s)
  }

  /** The findings are exactly the non-empty bullets met under the findings
      header, and the recommendations those met under the recommendations
      header, each in order of appearance; every item is the non-empty text
      of a bullet line of the reply, and there are no more of them than
      lines. */
  lemma {:induction false} ItemsComeFromBullets(kinds: seq<LineKind>)
    ensures Run(Initial, kinds).current == SectionAfter(kinds)
    ensures Run(Initial, kinds).findings == BulletsUnder(kinds, Findings)
    ensures Run(Initial, kinds).recommendations == BulletsUnder(kinds, Recommendations)
    ensures FromBullets(Run(Initial, kinds).findings, kinds)
    ensures FromBullets(Run(Initial, kinds).recommendations, kinds)
    ensures |Run(Initial, kinds).findings| + |Run(Initial, kinds).recommendations| <= |kinds|
    decreases |kinds|
  {
    if kinds != [] {
      var n := |kinds| - 1;
      var prev := kinds[..n];
      ItemsComeFromBullets(prev);
      var st := Run(Initial, prev);
      forall k | 0 <= k < |st.findings|
        ensures exists j :: 0 <= j < |kinds| && kinds[j] == Bullet(st.findings[k])
      {
        var j :| 0 <= j < |prev| && prev[j] == Bullet(st.findings[k]);
        assert kinds[j] == prev[j];
      }
      forall k | 0 <= k < |st.recommendations|
        ensures exists j :: 0 <= j < |kinds| && kinds[j] == Bullet(st.recommendations[k])
      {
        var j :| 0 <= j < |prev| && prev[j] == Bullet(st.recommendations[k]);
        assert kinds[j] == prev[j];
      }
    }
  }

  /** The texts of the plain lines, in order. */
  function PlainTexts(kinds: seq<LineKind>): seq<string>
    decreases |kinds|
  {
    if kinds == [] then []
    else
      var rest := PlainTexts(kinds[..|kinds| - 1]);
      match kinds[|kinds| - 1]
      case Plain(t) => rest + [t]
      case _ => rest
  }

  /** No header leads out of the analysis section. */
  predicate StaysInAnalysis(kinds: seq<LineKind>) {
    forall j :: 0 <= j < |kinds| ==> !kinds[j].Header? || kinds[j].section == Analysis
  }

  /** Each text followed by a space: the accumulation of line 1764. */
  function Spaced(ts: seq<string>): string
    decreases |ts|
  {
    if ts == [] then "" else Spaced(ts[..|ts| - 1]) + ts[|ts| - 1] + " "
  }

  /** Non-empty, with no whitespace at either end. */
  predicate Stripped(t: string) {
    t != [] && !IsSpace(Python, t[0]) && !IsSpace(Python, t[|t| - 1])
  }

  /** The texts of the plain lines met while section `s` is in force, in
      the order of their lines. */
  function PlainsUnder(kinds: seq<LineKind>, s: Section): seq<string>
    decreases |kinds|
  {
    if kinds == [] then []
    else
      var prev := kinds[..|kinds| - 1];
      var last := kinds[|kinds| - 1];
      if last.Plain? && SectionAfter(prev) == s
      then PlainsUnder(prev, s) + [last.text]
      else PlainsUnder(prev, s)
  }

  /** The accumulated analysis is exactly the plain lines met while the
      analysis section is in force, each followed by one space: plain lines
      under the other sections are dropped, and gathering resumes after a
      later analysis header. */
  lemma {:induction false} AnalysisGathersPlainLines(kinds: seq<LineKind>)
    ensures Run(Initial, kinds).analysis == Spaced(PlainsUnder(kinds, Analysis))
    decreases |kinds|
  {
    if kinds != [] {
      var n := |kinds| - 1;
      var prev := kinds[..n];
      AnalysisGathersPlainLines(prev);
      ItemsComeFromBullets(prev);
      var ts := PlainsUnder(prev, Analysis);
      if kinds[n].Plain? && SectionAfter(prev) == Analysis {
        assert (ts + [kinds[n].text])[..|ts|] == ts;
      }
    }
  }

  /** For a reply that never leaves the analysis section, the analysis is
      every plain line, each followed by one space. */
  lemma {:induction false} AnalysisIsSpacedPlainText(kinds: seq<LineKind>)
    requires StaysInAnalysis(kinds)
    ensures Run(Initial, kinds).analysis == Spaced(PlainTexts(kinds))
    ensures Run(Initial, kinds).current == Analysis
    decreases |kinds|
  {
    if kinds != [] {
      var n := |kinds| - 1;
      AnalysisIsSpacedPlainText(kinds[..n]);
      var ts := PlainTexts(kinds[..n]);
      match kinds[n]
      case Plain(t) =>
        assert (ts + [t])[..|ts|] == ts;
      case _ =>
    }
  }

  /** Every text `PlainTexts` returns is the text of some plain kind. */
  lemma {:induction false} PlainTextsFromPlainKinds(kinds: seq<LineKind>)
    ensures forall k :: 0 <= k < |PlainTexts(kinds)| ==>
      exists j :: 0 <= j < |kinds| && kinds[j] == Plain(PlainTexts(kinds)[k])
    decreases |kinds|
  {
    if kinds != [] {
      var n := |kinds| - 1;
      var prev := kinds[..n];
      PlainTextsFromPlainKinds(prev);
      var ts := PlainTexts(prev);
      var all := PlainTexts(kinds);
      assert all == if kinds[n].Plain? then ts + [kinds[n].text] else ts;
      forall k | 0 <= k < |all|
        ensures exists j :: 0 <= j < |kinds| && kinds[j] == Plain(all[k])
      {
        if k < |ts| {
          assert all[k] == ts[k];
          var j :| 0 <= j < |prev| && prev[j] == Plain(ts[k]);
          assert kinds[j] == prev[j];
        } else {
          assert kinds[n] == Plain(all[k]);
        }
      }
    } else {
      assert PlainTexts(kinds) == [];
    }
  }

  lemma {:induction false} SpacedIsJoinPlusSpace(ts: seq<string>)
    requires ts != []
    ensures Spaced(ts) == Join(ts, " ") + " "
    decreases |ts|
  {
    var n := |ts| - 1;
    if n > 0 {
      SpacedIsJoinPlusSpace(ts[..n]);
      JoinSnoc(ts[..n], ts[n], " ");
      assert ts[..n] + [ts[n]] == ts;
    }
  }

  lemma {:induction false} JoinSnoc(ts: seq<string>, t: string, sep: string)
    requires ts != []
    ensures Join(ts + [t], sep) == Join(ts, sep) + sep + t
    decreases |ts|
  {
    if |ts| == 1 {
      assert (ts + [t])[1..] == [t];
    } else {
      assert (ts + [t])[1..] == ts[1..] + [t];
      JoinSnoc(ts[1..], t, sep);
    }
  }

  /** A join of stripped texts starts with the first text's first character
      and ends with the last text's last character. */
  lemma {:induction false} JoinEnds(ts: seq<string>, sep: string)
    requires ts != []
    requires forall k :: 0 <= k < |ts| ==> Stripped(ts[k])
    ensures Join(ts, sep) != []
    ensures Stripped(ts[0]) && Join(ts, sep)[0] == ts[0][0]
    ensures Stripped(ts[|ts| - 1]) && Join(ts, sep)[|Join(ts, sep)| - 1] == ts[|ts| - 1][|ts[|ts| - 1]| - 1]
    decreases |ts|
  {
    if |ts| > 1 {
      JoinEnds(ts[1..], sep);
    }
  }

  /** While the reply never leaves the analysis section, the analysis is
      exactly its plain lines, stripped, joined by single spaces. */
  lemma AnalysisJoinsPlainLines(lines: seq<string>)
    requires StaysInAnalysis(Kinds(lines))
    ensures Trim(Python, Run(Initial, Kinds(lines)).analysis) == Join(PlainTexts(Kinds(lines)), " ")
  {
    var kinds := Kinds(lines);
    AnalysisIsSpacedPlainText(kinds);
    var ts := PlainTexts(kinds);
    if ts != [] {
      PlainTextsFromPlainKinds(kinds);
      KindsPlainStripped(lines);
      forall k | 0 <= k < |ts| ensures Stripped(ts[k]) {
        var j :| 0 <= j < |kinds| && kinds[j] == Plain(ts[k]);
      }
      SpacedStrippedTrims(ts);
    }
  }

  /** Stripped texts, each followed by a space, strip to the texts joined by
      single spaces. */
  lemma SpacedStrippedTrims(ts: seq<string>)
    requires ts != []
    requires forall k :: 0 <= k < |ts| ==> Stripped(ts[k])
    ensures Trim(Python, Spaced(ts)) == Join(ts, " ")
  {
    SpacedIsJoinPlusSpace(ts);
    JoinEnds(ts, " ");
    var j := Join(ts, " ");
    assert IsSpace(Python, ' ');
    assert j + " " == j + [' '];
    TrimDropsTrailingSpace(Python, j, ' ');
  }

  /** Severity, from the keywords of lines 1770-1776. */
  datatype Severity = Normal | Mild | Moderate | Severe

  const SevereWords: seq<string> := ["severe", "critical", "emergency", "urgent"]
  const ModerateWords: seq<string> := ["moderate", "concerning"]
  const MildWords: seq<string> := ["mild", "slight"]

  /** `any(word in text for word in words)`. */
  predicate MentionsAny(text: string, words: seq<string>)
    decreases |words|
  {
    words != [] && (Contains(text, words[0]) || MentionsAny(text, words[1..]))
  }

  lemma {:induction false} MentionsAnyMeansSomeWord(text: string, words: seq<string>)
    ensures MentionsAny(text, words) <==> exists k :: 0 <= k < |words| && Contains(text, words[k])
    decreases |words|
  {
    if words != [] {
      MentionsAnyMeansSomeWord(text, words[1..]);
      if MentionsAny(text, words[1..]) {
        var k :| 0 <= k < |words[1..]| && Contains(text, words[1..][k]);
        assert Contains(text, words[k + 1]);
      }
      if exists k :: 0 <= k < |words| && Contains(text, words[k]) {
        var k :| 0 <= k < |words| && Contains(text, words[k]);
        if k > 0 {
          assert Contains(text, words[1..][k - 1]);
        }
      }
    }
  }

  /** The first keyword group found in the lower-cased reply decides. */
  function ClassifySeverity(text: string): Severity {
    var low := Lower(text);
    if MentionsAny(low, SevereWords) then Severe
    else if MentionsAny(low, ModerateWords) then Moderate
    else if MentionsAny(low, MildWords) then Mild
    else Normal
  }

  function Rank(s: Severity): nat {
    match s
    case Normal => 0
    case Mild => 1
    case Moderate => 2
    case Severe => 3
  }

  lemma {:induction false} MentionsAnyAppend(t: string, u: string, words: seq<string>)
    requires MentionsAny(t, words)
    ensures MentionsAny(t + u, words) && MentionsAny(u + t, words)
    decreases |words|
  {
    if Contains(t, words[0]) {
      ContainsAppend(t, u, words[0]);
    } else {
      MentionsAnyAppend(t, u, words[1..]);
    }
  }

  /** More text never lowers the severity: a keyword found stays found
      wherever the new text goes. */
  lemma SeverityMonotone(t: string, u: string)
    ensures Rank(ClassifySeverity(t)) <= Rank(ClassifySeverity(t + u))
    ensures Rank(ClassifySeverity(t)) <= Rank(ClassifySeverity(u + t))
  {
    LowerAppend(t, u);
    LowerAppend(u, t);
    var low := Lower(t);
    if MentionsAny(low, SevereWords) {
      MentionsAnyAppend(low, Lower(u), SevereWords);
    } else if MentionsAny(low, ModerateWords) {
      MentionsAnyAppend(low, Lower(u), ModerateWords);
    } else if MentionsAny(low, MildWords) {
      MentionsAnyAppend(low, Lower(u), MildWords);
    }
  }

  /** The severity is "severe" exactly when one of the four severe words
      occurs in the reply, whatever milder words occur with it; it is
      "normal" exactly when none of the eight words occurs. */
  lemma SeverityByKeywords(t: string)
    ensures ClassifySeverity(t) == Severe <==>
      exists k :: 0 <= k < |SevereWords| && Contains(Lower(t), SevereWords[k])
    ensures ClassifySeverity(t) == Normal <==>
      (forall k :: 0 <= k < |SevereWords| ==> !Contains(Lower(t), SevereWords[k]))
      && (forall k :: 0 <= k < |ModerateWords| ==> !Contains(Lower(t), ModerateWords[k]))
      && (forall k :: 0 <= k < |MildWords| ==> !Contains(Lower(t), MildWords[k]))
  {
    MentionsAnyMeansSomeWord(Lower(t), SevereWords);
    MentionsAnyMeansSomeWord(Lower(t), ModerateWords);
    MentionsAnyMeansSomeWord(Lower(t), MildWords);
  }

  /** One `re.findall` tuple: the four groups name, value, unit (empty when
      the optional group did not take part) and reference range. */
  datatype Match = Match(name: string, value: string, unit: string, range: string)

  datatype Parameter = Parameter(
    name: string, value: string, unit: string, referenceRange: string, status: string)

  /** The `findall` results of the patterns, one after the other. */
  function Flatten(found: seq<seq<Match>>): (all: seq<Match>)
    decreases |found|
  {
    if found == [] then [] else Flatten(found[..|found| - 1]) + found[|found| - 1]
  }

  /** `ps` is the matches of `found`, in pattern order and in match order
      within a pattern, each copied group by group with status "normal". */
  predicate StampedFrom(ps: seq<Parameter>, found: seq<seq<Match>>) {
    var all := Flatten(found);
    |ps| == |all| &&
    forall i :: 0 <= i < |ps| ==>
      ps[i] == Parameter(all[i].name, all[i].value, all[i].unit, all[i].range, "normal")
  }

  /** `extract_parameters`: the nested loop over the patterns' matches (the
      regex matching of the three patterns is the input `found`). */
  method ExtractParameters(found: seq<seq<Match>>) returns (ps: seq<Parameter>)
    ensures StampedFrom(ps, found)
    ensures forall i :: 0 <= i < |ps| ==> ps[i].status == "normal"
  {
    ps := [];
    var p := 0;
    while p < |found|
      invariant 0 <= p <= |found|
      invariant StampedFrom(ps, found[..p])
    {
      assert found[..p + 1][..p] == found[..p];
      var matches := found[p];
      var m := 0;
      while m < |matches|
        invariant 0 <= m <= |matches|
        invariant |ps| == |Flatten(found[..p])| + m
        invariant forall i :: 0 <= i < |ps| ==>
          var all := Flatten(found[..p]) + matches[..m];
          ps[i] == Parameter(all[i].name, all[i].value, all[i].unit, all[i].range, "normal")
      {
        var x := matches[m];
        var unit := if x.unit != [] then x.unit else "";
        ps := ps + [Parameter(x.name, x.value, unit, x.range, "normal")];
        assert matches[..m + 1] == matches[..m] + [x];
        m := m + 1;
      }
      assert matches[..m] == matches;
      p := p + 1;
    }
    assert found[..p] == found;
  }

  /** The dictionary `parse_analysis_response` returns. */
  datatype AnalysisResult = AnalysisResult(
    analysis: string,
    findings: seq<string>,
    recommendations: seq<string>,
    parameters: seq<Parameter>,
    severity: Severity,
    confidence: int,
    category: string)

  /** What the normal path of `parse_analysis_response` returns for a reply:
      the stripped analysis text, the findings and recommendations in reply
      order, the stamped parameters, the keyword severity, and the confidence
      and category passed through. */
  predicate ParsedFrom(r: AnalysisResult, responseText: string, category: string,
                       found: seq<seq<Match>>, confidence: int) {
    var st := Sectioned(responseText);
    && r.analysis == Trim(Python, st.analysis)
    && r.findings == st.findings
    && r.recommendations == st.recommendations
    && StampedFrom(r.parameters, found)
    && r.severity == ClassifySeverity(responseText)
    && r.confidence == confidence && r.category == category
  }

  /** `parse_analysis_response`: `confidence` stands for the
      `random.randint(90, 97)` draw and `found` for the regex matches of the
      parameter patterns in the reply. */
  method ParseAnalysisResponse(responseText: string, category: string, found: seq<seq<Match>>, confidence: int)
    returns (r: AnalysisResult)
    requires 90 <= confidence <= 97
    ensures ParsedFrom(r, responseText, category, found, confidence)
  {
    var st := ParseSections(responseText);
    var parameters := ExtractParameters(found);
    var severity := Normal;
    var low := Lower(responseText);
    if MentionsAny(low, SevereWords) {
      severity := Severe;
    } else if MentionsAny(low, ModerateWords) {
      severity := Moderate;
    } else if MentionsAny(low, MildWords) {
      severity := Mild;
    }
    r := AnalysisResult(Trim(Python, st.analysis), st.findings, st.recommendations,
                        parameters, severity, confidence, category);
  }

  const FallbackFinding := "Analysis completed - see detailed analysis above"
  const FallbackRecommendation := "Consult with healthcare provider for interpretation"

  /** The `except` branch of `parse_analysis_response`: the whole reply as
      the analysis, one stock finding and recommendation, no parameters. */
  function ParseFailureResult(responseText: string, category: string, confidence: int): (r: AnalysisResult)
    requires 90 <= confidence <= 97
    ensures r.analysis == responseText && r.category == category
    ensures r.findings == [FallbackFinding] && r.recommendations == [FallbackRecommendation]
    ensures r.parameters == [] && r.severity == Normal
    ensures 90 <= r.confidence <= 97
  {
    AnalysisResult(responseText, [FallbackFinding], [FallbackRecommendation], [], Normal, confidence, category)
  }
}
