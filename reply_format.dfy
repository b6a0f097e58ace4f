/** The agreement between the reply layout that the analysis prompt asks for
    (backend/main.py, the response format instruction) and the reply parser:
    a reply written in that layout, in either language, parses back to the
    analysis text, findings and recommendations it was written from, and the
    bullets under "Measured Parameters" contribute nothing. */
module ReplyFormat {
  import opened Text
  import opened AnalysisParser
  import opened PromptText

  /** A bullet line as the layout writes it. */
  function BulletLine(item: string): string {
    "- " + item
  }

  /** A line of free analysis text: stripped, on one line, and not starting
      with a character that would make it a header or a bullet. */
  predicate PlainLine(t: string) {
    Stripped(t) && t[0] != '#' && t[0] != '•' && t[0] != '-' && '\n' !in t
  }

  /** A bullet item: stripped and on one line. */
  predicate ItemText(t: string) {
    Stripped(t) && '\n' !in t
  }

  /** The lines of a reply in the layout, under the given four headings. */
  function ReplyLines(hs: seq<string>, analysis: seq<string>, params: seq<string>,
                      findings: seq<string>, recs: seq<string>): (lines: seq<string>)
    requires |hs| == 4
    ensures |lines| == 4 + |analysis| + |params| + |findings| + |recs|
  {
    ([hs[0]] + analysis) + ([hs[1]] + Map(BulletLine, params))
      + ([hs[2]] + Map(BulletLine, findings)) + ([hs[3]] + Map(BulletLine, recs))
  }

  /** The reply's lines: each heading of the layout followed by its body. */
  function Reply(l: Lang, analysis: seq<string>, params: seq<string>,
                 findings: seq<string>, recs: seq<string>): (lines: seq<string>)
    ensures |lines| == 4 + |analysis| + |params| + |findings| + |recs|
  {
    ReplyLines(FormatHeadings(l), analysis, params, findings, recs)
  }

  /** Where a run of bullets lands, given the section it is read in. */
  function Collect(st: Sections, items: seq<string>): (r: Sections)
    ensures r.current == st.current && r.analysis == st.analysis
  {
    if st.current == Findings then st.(findings := st.findings + items)
    else if st.current == Recommendations then st.(recommendations := st.recommendations + items)
    else st
  }

  lemma ClassifyPlain(t: string)
    requires PlainLine(t)
    ensures Classify(t) == Plain(t)
  {
    TrimFacts(Python, t);
    NoHashNoHeader(t, HeaderPatterns);
  }

  lemma ClassifyBullet(item: string)
    requires ItemText(item)
    ensures Classify(BulletLine(item)) == Bullet(item)
  {
    BulletLineFacts(item, BulletLine(item));
    ClassifyDashLine(BulletLine(item), item);
  }

  lemma BulletLineFacts(item: string, line: string)
    requires ItemText(item) && line == "- " + item
    ensures line != [] && line[0] == '-' && Trim(Python, line) == line
    ensures Trim(Python, line[1..]) == item
  {
    BulletLineStripped(item, line);
    var rest := line[1..];
    assert rest[0] == ' ' && rest[1..] == item;
    SpaceThenStripped(item, rest);
  }

  lemma BulletLineStripped(item: string, line: string)
    requires Stripped(item) && line == "- " + item
    ensures line != [] && line[0] == '-' && Trim(Python, line) == line
  {
    NotSpace(Python, '-');
    assert line[|line| - 1] == item[|item| - 1];
    TrimFacts(Python, line);
  }

  lemma ClassifyDashLine(line: string, item: string)
    requires line != [] && line[0] == '-' && Trim(Python, line) == line
    requires Trim(Python, line[1..]) == item
    ensures Classify(line) == Bullet(item)
  {
    NoHashNoHeader(line, HeaderPatterns);
  }

  /** Stripping one leading space off a stripped text. */
  lemma SpaceThenStripped(t: string, s: string)
    requires Stripped(t) && s != [] && s[0] == ' ' && s[1..] == t
    ensures Trim(Python, s) == t
  {
    assert IsSpace(Python, ' ');
    assert SpaceRunEnd(Python, s, 1) == 1;
    assert SpaceRunEnd(Python, s, 0) == 1;
    assert TrimLeft(Python, s) == t;
    TrimFacts(Python, t);
  }

  lemma {:induction false} RunPlains(st: Sections, ks: seq<LineKind>, ts: seq<string>)
    requires st.current == Analysis
    requires |ks| == |ts| && forall j :: 0 <= j < |ks| ==> ks[j] == Plain(ts[j])
    ensures Run(st, ks) == st.(analysis := st.analysis + Spaced(ts))
    decreases |ks|
  {
    if ks != [] {
      var n := |ks| - 1;
      RunPlains(st, ks[..n], ts[..n]);
      assert ts[..n] + [ts[n]] == ts by { TakeSnoc(ts, n); }
    }
  }

  lemma {:induction false} RunBullets(st: Sections, ks: seq<LineKind>, items: seq<string>)
    requires |ks| == |items|
    requires forall j :: 0 <= j < |ks| ==> ks[j] == Bullet(items[j]) && items[j] != []
    ensures Run(st, ks) == Collect(st, items)
    decreases |ks|
  {
    if ks != [] {
      var n := |ks| - 1;
      RunBullets(st, ks[..n], items[..n]);
      assert items[..n] + [items[n]] == items by { TakeSnoc(items, n); }
    }
  }

  lemma PlainKinds(ts: seq<string>)
    requires forall j :: 0 <= j < |ts| ==> PlainLine(ts[j])
    ensures forall j :: 0 <= j < |ts| ==> Kinds(ts)[j] == Plain(ts[j])
  {
    forall j | 0 <= j < |ts| ensures Kinds(ts)[j] == Plain(ts[j]) {
      KindsAt(ts, j);
      ClassifyPlain(ts[j]);
    }
  }

  lemma BulletKinds(items: seq<string>)
    requires forall j :: 0 <= j < |items| ==> ItemText(items[j])
    ensures forall j :: 0 <= j < |items| ==> Kinds(Map(BulletLine, items))[j] == Bullet(items[j])
  {
    var lines := Map(BulletLine, items);
    forall j | 0 <= j < |items| ensures Kinds(lines)[j] == Bullet(items[j]) {
      KindsAt(lines, j);
      MapAt(BulletLine, items, j);
      ClassifyBullet(items[j]);
    }
  }

  /** The kinds of lines that are the given plain texts. */
  predicate PlainsOf(ks: seq<LineKind>, ts: seq<string>) {
    |ks| == |ts| && forall j :: 0 <= j < |ks| ==> ks[j] == Plain(ts[j])
  }

  /** The kinds of bullet lines carrying the given (non-empty) items. */
  predicate BulletsOf(ks: seq<LineKind>, items: seq<string>) {
    |ks| == |items| && forall j :: 0 <= j < |ks| ==> ks[j] == Bullet(items[j]) && items[j] != []
  }

  /** The kinds of a reply's lines, block by block. */
  lemma ReplyKinds(hs: seq<string>, analysis: seq<string>, params: seq<string>,
                   findings: seq<string>, recs: seq<string>)
    requires |hs| == 4
    ensures Kinds(ReplyLines(hs, analysis, params, findings, recs))
      == (Kinds([hs[0]]) + Kinds(analysis)) + (Kinds([hs[1]]) + Kinds(Map(BulletLine, params)))
       + (Kinds([hs[2]]) + Kinds(Map(BulletLine, findings)))
       + (Kinds([hs[3]]) + Kinds(Map(BulletLine, recs)))
  {
    var b1 := [hs[0]] + analysis;
    var b2 := [hs[1]] + Map(BulletLine, params);
    var b3 := [hs[2]] + Map(BulletLine, findings);
    var b4 := [hs[3]] + Map(BulletLine, recs);
    MapFour(Classify, b1, b2, b3, b4);
    MapAppend(Classify, [hs[0]], analysis);
    MapAppend(Classify, [hs[1]], Map(BulletLine, params));
    MapAppend(Classify, [hs[2]], Map(BulletLine, findings));
    MapAppend(Classify, [hs[3]], Map(BulletLine, recs));
  }

  lemma MapFour<A, B>(f: A -> B, b1: seq<A>, b2: seq<A>, b3: seq<A>, b4: seq<A>)
    ensures Map(f, b1 + b2 + b3 + b4) == Map(f, b1) + Map(f, b2) + Map(f, b3) + Map(f, b4)
  {
    MapAppend(f, b1 + b2 + b3, b4);
    MapAppend(f, b1 + b2, b3);
    MapAppend(f, b1, b2);
  }

  lemma RunFour(st: Sections, c1: seq<LineKind>, c2: seq<LineKind>, c3: seq<LineKind>, c4: seq<LineKind>)
    ensures Run(st, c1 + c2 + c3 + c4) == Run(Run(Run(Run(st, c1), c2), c3), c4)
  {
    RunAppend(st, c1 + c2 + c3, c4);
    RunAppend(st, c1 + c2, c3);
    RunAppend(st, c1, c2);
  }

  /** A header moves the loop to its section; what follows is read there. */
  lemma RunHeaded(st: Sections, s: Section, ks: seq<LineKind>)
    ensures Run(st, [Header(s)] + ks) == Run(st.(current := s), ks)
  {
    RunAppend(st, [Header(s)], ks);
    assert Run(st, [Header(s)]) == st.(current := s);
  }

  lemma AnalysisRun(ka: seq<LineKind>, analysis: seq<string>)
    requires PlainsOf(ka, analysis)
    ensures Run(Initial, [Header(Analysis)] + ka) == Sections(Analysis, Spaced(analysis), [], [])
  {
    RunHeaded(Initial, Analysis, ka);
    RunPlains(Initial, ka, analysis);
    AppendEmpty(Spaced(analysis));
  }

  /** The bullets under "Measured Parameters" are dropped. */
  lemma ParametersRun(sp: string, kp: seq<LineKind>, params: seq<string>)
    requires BulletsOf(kp, params)
    ensures Run(Sections(Analysis, sp, [], []), [Header(Parameters)] + kp)
      == Sections(Parameters, sp, [], [])
  {
    RunHeaded(Sections(Analysis, sp, [], []), Parameters, kp);
    RunBullets(Sections(Parameters, sp, [], []), kp, params);
  }

  lemma FindingsRun(sp: string, kf: seq<LineKind>, findings: seq<string>)
    requires BulletsOf(kf, findings)
    ensures Run(Sections(Parameters, sp, [], []), [Header(Findings)] + kf)
      == Sections(Findings, sp, findings, [])
  {
    RunHeaded(Sections(Parameters, sp, [], []), Findings, kf);
    RunBullets(Sections(Findings, sp, [], []), kf, findings);
    AppendEmpty(findings);
  }

  lemma RecommendationsRun(sp: string, findings: seq<string>, kr: seq<LineKind>, recs: seq<string>)
    requires BulletsOf(kr, recs)
    ensures Run(Sections(Findings, sp, findings, []), [Header(Recommendations)] + kr)
      == Sections(Recommendations, sp, findings, recs)
  {
    RunHeaded(Sections(Findings, sp, findings, []), Recommendations, kr);
    RunBullets(Sections(Recommendations, sp, findings, []), kr, recs);
    AppendEmpty(recs);
  }

  /** The loop over the layout's kinds collects the analysis text, the
      findings and the recommendations, and nothing from the parameters. */
  lemma RunLayout(ka: seq<LineKind>, kp: seq<LineKind>, kf: seq<LineKind>, kr: seq<LineKind>,
                  analysis: seq<string>, params: seq<string>, findings: seq<string>, recs: seq<string>)
    requires PlainsOf(ka, analysis) && BulletsOf(kp, params)
    requires BulletsOf(kf, findings) && BulletsOf(kr, recs)
    ensures Run(Initial, ([Header(Analysis)] + ka) + ([Header(Parameters)] + kp)
                       + ([Header(Findings)] + kf) + ([Header(Recommendations)] + kr))
      == Sections(Recommendations, Spaced(analysis), findings, recs)
  {
    var sp := Spaced(analysis);
    RunFour(Initial, [Header(Analysis)] + ka, [Header(Parameters)] + kp,
            [Header(Findings)] + kf, [Header(Recommendations)] + kr);
    AnalysisRun(ka, analysis);
    ParametersRun(sp, kp, params);
    FindingsRun(sp, kf, findings);
    RecommendationsRun(sp, findings, kr, recs);
  }

  lemma LayoutKinds(analysis: seq<string>, params: seq<string>, findings: seq<string>, recs: seq<string>)
    requires forall j :: 0 <= j < |analysis| ==> PlainLine(analysis[j])
    requires forall j :: 0 <= j < |params| ==> ItemText(params[j])
    requires forall j :: 0 <= j < |findings| ==> ItemText(findings[j])
    requires forall j :: 0 <= j < |recs| ==> ItemText(recs[j])
    ensures PlainsOf(Kinds(analysis), analysis)
    ensures BulletsOf(Kinds(Map(BulletLine, params)), params)
    ensures BulletsOf(Kinds(Map(BulletLine, findings)), findings)
    ensures BulletsOf(Kinds(Map(BulletLine, recs)), recs)
  {
    PlainKinds(analysis);
    BulletKinds(params);
    BulletKinds(findings);
    BulletKinds(recs);
  }

  /** Lines in the layout, under headings the parser recognises as the four
      sections, run through the loop collect exactly the analysis text,
      findings and recommendations they were written from. */
  lemma RunReply(hs: seq<string>, analysis: seq<string>, params: seq<string>,
                 findings: seq<string>, recs: seq<string>)
    requires |hs| == 4
    requires Kinds([hs[0]]) == [Header(Analysis)] && Kinds([hs[1]]) == [Header(Parameters)]
    requires Kinds([hs[2]]) == [Header(Findings)] && Kinds([hs[3]]) == [Header(Recommendations)]
    requires forall j :: 0 <= j < |analysis| ==> PlainLine(analysis[j])
    requires forall j :: 0 <= j < |params| ==> ItemText(params[j])
    requires forall j :: 0 <= j < |findings| ==> ItemText(findings[j])
    requires forall j :: 0 <= j < |recs| ==> ItemText(recs[j])
    ensures Run(Initial, Kinds(ReplyLines(hs, analysis, params, findings, recs)))
      == Sections(Recommendations, Spaced(analysis), findings, recs)
  {
    ReplyKinds(hs, analysis, params, findings, recs);
    LayoutKinds(analysis, params, findings, recs);
    RunLayout(Kinds(analysis), Kinds(Map(BulletLine, params)), Kinds(Map(BulletLine, findings)),
              Kinds(Map(BulletLine, recs)), analysis, params, findings, recs);
  }

  /** No line of the layout contains a line break. */
  lemma ReplySingleLines(hs: seq<string>, analysis: seq<string>, params: seq<string>,
                         findings: seq<string>, recs: seq<string>)
    requires |hs| == 4 && forall k :: 0 <= k < 4 ==> '\n' !in hs[k]
    requires forall j :: 0 <= j < |analysis| ==> PlainLine(analysis[j])
    requires forall j :: 0 <= j < |params| ==> ItemText(params[j])
    requires forall j :: 0 <= j < |findings| ==> ItemText(findings[j])
    requires forall j :: 0 <= j < |recs| ==> ItemText(recs[j])
    ensures forall j :: 0 <= j < |ReplyLines(hs, analysis, params, findings, recs)| ==>
      '\n' !in ReplyLines(hs, analysis, params, findings, recs)[j]
  {
    BulletsSingleLine(params);
    BulletsSingleLine(findings);
    BulletsSingleLine(recs);
  }

  lemma BulletsSingleLine(items: seq<string>)
    requires forall j :: 0 <= j < |items| ==> ItemText(items[j])
    ensures forall j :: 0 <= j < |items| ==> '\n' !in Map(BulletLine, items)[j]
  {
    forall j | 0 <= j < |items| ensures '\n' !in Map(BulletLine, items)[j] {
      MapAt(BulletLine, items, j);
    }
  }

  lemma HeadingsSingleLine(l: Lang)
    ensures |FormatHeadings(l)| == 4
    ensures forall k :: 0 <= k < 4 ==> '\n' !in FormatHeadings(l)[k]
  {
    var hs := FormatHeadings(l);
    forall k | 0 <= k < 4 ensures '\n' !in hs[k] {
      TitleSingleLine(l, k);
    }
  }

  lemma TitleSingleLine(l: Lang, k: nat)
    requires k < 4
    ensures '\n' !in FormatTitles(l)[k]
  {
    match (l, k)
    case (En, 0) => assert '\n' !in "Detailed Analysis";
    case (En, 1) => assert '\n' !in "Measured Parameters";
    case (En, 2) => assert '\n' !in "Key Findings";
    case (En, 3) => assert '\n' !in "Recommendations";
    case (Ar, 0) => assert '\n' !in "التحليل التفصيلي";
    case (Ar, 1) => assert '\n' !in "المعايير المقاسة";
    case (Ar, 2) => assert '\n' !in "النتائج الرئيسية";
    case (Ar, 3) => assert '\n' !in "التوصيات";
  }

  lemma HeadingKind(hs: seq<string>, k: nat)
    requires k < |hs| == 4 && Classify(hs[k]) == Header(FormatSections[k])
    ensures Kinds([hs[k]]) == [Header(FormatSections[k])]
  {
    MapSnoc(Classify, [], hs[k]);
  }

  /** What the reply parser needs of the layout's four headings. */
  lemma HeadingFacts(l: Lang)
    ensures |FormatHeadings(l)| == 4
    ensures Kinds([FormatHeadings(l)[0]]) == [Header(Analysis)]
    ensures Kinds([FormatHeadings(l)[1]]) == [Header(Parameters)]
    ensures Kinds([FormatHeadings(l)[2]]) == [Header(Findings)]
    ensures Kinds([FormatHeadings(l)[3]]) == [Header(Recommendations)]
    ensures forall k :: 0 <= k < 4 ==> '\n' !in FormatHeadings(l)[k]
  {
    var hs := FormatHeadings(l);
    FormatHeadingsRecognised(l);
    HeadingsSingleLine(l);
    HeadingKind(hs, 0);
    HeadingKind(hs, 1);
    HeadingKind(hs, 2);
    HeadingKind(hs, 3);
  }

  /** The joined reply text splits back into the layout's lines. */
  lemma ReplySplits(hs: seq<string>, analysis: seq<string>, params: seq<string>,
                    findings: seq<string>, recs: seq<string>)
    requires |hs| == 4 && forall k :: 0 <= k < 4 ==> '\n' !in hs[k]
    requires forall j :: 0 <= j < |analysis| ==> PlainLine(analysis[j])
    requires forall j :: 0 <= j < |params| ==> ItemText(params[j])
    requires forall j :: 0 <= j < |findings| ==> ItemText(findings[j])
    requires forall j :: 0 <= j < |recs| ==> ItemText(recs[j])
    ensures Split(Join(ReplyLines(hs, analysis, params, findings, recs), "\n"), '\n')
      == ReplyLines(hs, analysis, params, findings, recs)
  {
    ReplySingleLines(hs, analysis, params, findings, recs);
    JoinSplit(ReplyLines(hs, analysis, params, findings, recs), '\n');
  }

  /** Under recognised single-line headings, the joined reply text is
      split back into its lines and the loop collects the layout's bodies. */
  lemma ReplyTextSections(hs: seq<string>, analysis: seq<string>, params: seq<string>,
                          findings: seq<string>, recs: seq<string>)
    requires |hs| == 4
    requires Kinds([hs[0]]) == [Header(Analysis)] && Kinds([hs[1]]) == [Header(Parameters)]
    requires Kinds([hs[2]]) == [Header(Findings)] && Kinds([hs[3]]) == [Header(Recommendations)]
    requires forall k :: 0 <= k < 4 ==> '\n' !in hs[k]
    requires forall j :: 0 <= j < |analysis| ==> PlainLine(analysis[j])
    requires forall j :: 0 <= j < |params| ==> ItemText(params[j])
    requires forall j :: 0 <= j < |findings| ==> ItemText(findings[j])
    requires forall j :: 0 <= j < |recs| ==> ItemText(recs[j])
    ensures Sectioned(Join(ReplyLines(hs, analysis, params, findings, recs), "\n"))
      == Sections(Recommendations, Spaced(analysis), findings, recs)
  {
    ReplySplits(hs, analysis, params, findings, recs);
    RunReply(hs, analysis, params, findings, recs);
  }

  /** The round trip: a reply laid out as the prompt asks, joined into one
      text, is parsed back into the analysis (its lines joined by spaces),
      the findings and the recommendations it was written from. */
  lemma ReplyRoundTrip(l: Lang, analysis: seq<string>, params: seq<string>,
                       findings: seq<string>, recs: seq<string>)
    requires forall j :: 0 <= j < |analysis| ==> PlainLine(analysis[j])
    requires forall j :: 0 <= j < |params| ==> ItemText(params[j])
    requires forall j :: 0 <= j < |findings| ==> ItemText(findings[j])
    requires forall j :: 0 <= j < |recs| ==> ItemText(recs[j])
    ensures var st := Sectioned(Join(Reply(l, analysis, params, findings, recs), "\n"));
      st.findings == findings && st.recommendations == recs
      && Trim(Python, st.analysis) == Join(analysis, " ")
  {
    HeadingFacts(l);
    LinesRoundTrip(FormatHeadings(l), analysis, params, findings, recs);
  }

  /** The round trip under any recognised single-line headings. */
  lemma LinesRoundTrip(hs: seq<string>, analysis: seq<string>, params: seq<string>,
                       findings: seq<string>, recs: seq<string>)
    requires |hs| == 4
    requires Kinds([hs[0]]) == [Header(Analysis)] && Kinds([hs[1]]) == [Header(Parameters)]
    requires Kinds([hs[2]]) == [Header(Findings)] && Kinds([hs[3]]) == [Header(Recommendations)]
    requires forall k :: 0 <= k < 4 ==> '\n' !in hs[k]
    requires forall j :: 0 <= j < |analysis| ==> PlainLine(analysis[j])
    requires forall j :: 0 <= j < |params| ==> ItemText(params[j])
    requires forall j :: 0 <= j < |findings| ==> ItemText(findings[j])
    requires forall j :: 0 <= j < |recs| ==> ItemText(recs[j])
    ensures var st := Sectioned(Join(ReplyLines(hs, analysis, params, findings, recs), "\n"));
      st.findings == findings && st.recommendations == recs
      && Trim(Python, st.analysis) == Join(analysis, " ")
  {
    ReplyTextSections(hs, analysis, params, findings, recs);
    if analysis != [] {
      SpacedStrippedTrims(analysis);
    }
  }
}
