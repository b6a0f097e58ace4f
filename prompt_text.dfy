/** The pieces the analysis prompts are built from, shared by the two
    prompt dispatchers (backend/main.py and backend/prompts.py). The long
    prompt texts are not reproduced: a prompt is the sequence of constant
    texts it is made of, each named by where it comes from, what it is about
    and its language. Only the section headings that the reply is asked to
    use are spelled out, because the reply parser depends on them. */
module PromptText {
  import opened Text
  import opened AnalysisParser
  import opened Wrappers

  /** The language a text is written in. */
  datatype Lang = En | Ar

  /** `if language == 'ar'`: Arabic for exactly that string and English for
      every other value, missing or unknown languages included. */
  function LangOf(language: string): (l: Lang)
    ensures l == Ar <==> language == "ar"
  {
    if language == "ar" then Ar else En
  }

  /** Which source file a text comes from; the two files word their texts
      differently. */
  datatype Origin = MainPy | PromptsPy

  /** What a category-specific text is about. */
  datatype Topic =
    | Cbc
    | Ecg
    | ChestXray
    | XrayChestLung
    | XrayAbdominal
    | XraySkeletal
    | XrayDefault
    | Microscopy
    | MicroTumor
    | MicroBreast
    | MicroSkin
    | MicroDefault
    | General

  /** The two families that have sub-categories. */
  datatype Family = XrayFamily | MicroscopyFamily

  /** One constant text, or text from the request, in a prompt. */
  datatype Segment =
    | LanguageInstruction(lang: Lang)
    | ResponseFormat(lang: Lang)
    | BaseRole(family: Family, lang: Lang)
    | SystemBody(origin: Origin, topic: Topic, lang: Lang)
    | UserBody(origin: Origin, topic: Topic, lang: Lang)
    | PatientContext(lang: Lang, data: string)
    | SubCategoryContext(family: Family, lang: Lang, subCategory: string)
    | FrontendInstruction(text: string)

  /** The system prompt and the user prompt. */
  datatype Prompts = Prompts(system: seq<Segment>, user: seq<Segment>)

  /** The language of a segment's constant text (text taken from the request
      has none of its own and counts as agreeing with any language). */
  predicate InLanguage(s: Segment, l: Lang) {
    match s
    case LanguageInstruction(x) => x == l
    case ResponseFormat(x) => x == l
    case BaseRole(_, x) => x == l
    case SystemBody(_, _, x) => x == l
    case UserBody(_, _, x) => x == l
    case PatientContext(x, _) => x == l
    case SubCategoryContext(_, x, _) => x == l
    case FrontendInstruction(_) => true
  }

  predicate AllInLanguage(ss: seq<Segment>, l: Lang) {
    forall i :: 0 <= i < |ss| ==> InLanguage(ss[i], l)
  }

  lemma AllInLanguageAppend(a: seq<Segment>, b: seq<Segment>, l: Lang)
    ensures AllInLanguage(a + b, l) <==> AllInLanguage(a, l) && AllInLanguage(b, l)
  {
    if AllInLanguage(a, l) && AllInLanguage(b, l) {
      forall i | 0 <= i < |a + b| ensures InLanguage((a + b)[i], l) {
        if i >= |a| { assert (a + b)[i] == b[i - |a|]; }
      }
    }
    if AllInLanguage(a + b, l) {
      forall i | 0 <= i < |a| ensures InLanguage(a[i], l) {
        assert (a + b)[i] == a[i];
      }
      forall i | 0 <= i < |b| ensures InLanguage(b[i], l) {
        assert (a + b)[|a| + i] == b[i];
      }
    }
  }

  /** The sub-categories with prompts of their own, per family; both
      dispatchers recognise the same names. */
  const XraySubCategories := ["chest_lung", "abdominal", "skeletal"]
  const MicroscopySubCategories := ["tumor_classification", "breast_biopsy", "skin_biopsy"]

  /** The x-ray sub-category dispatcher's choice: one of three prompts, and
      the default x-ray prompt for any other value, a missing one included. */
  function XrayTopic(sub: Option<string>): Topic {
    if sub == Some("chest_lung") then XrayChestLung
    else if sub == Some("abdominal") then XrayAbdominal
    else if sub == Some("skeletal") then XraySkeletal
    else XrayDefault
  }

  /** The microscopy sub-category dispatcher's choice, in the same way. */
  function MicroscopyTopic(sub: Option<string>): Topic {
    if sub == Some("tumor_classification") then MicroTumor
    else if sub == Some("breast_biopsy") then MicroBreast
    else if sub == Some("skin_biopsy") then MicroSkin
    else MicroDefault
  }

  /** The sub-category a specialised topic was chosen for (the reference the
      dispatch lemmas are stated against). */
  function SubCategoryName(t: Topic): Option<string> {
    match t
    case XrayChestLung => Some("chest_lung")
    case XrayAbdominal => Some("abdominal")
    case XraySkeletal => Some("skeletal")
    case MicroTumor => Some("tumor_classification")
    case MicroBreast => Some("breast_biopsy")
    case MicroSkin => Some("skin_biopsy")
    case _ => None
  }

  /** The family a topic belongs to, if it has one. */
  function FamilyOf(t: Topic): Option<Family> {
    match t
    case ChestXray | XrayChestLung | XrayAbdominal | XraySkeletal | XrayDefault => Some(XrayFamily)
    case Microscopy | MicroTumor | MicroBreast | MicroSkin | MicroDefault => Some(MicroscopyFamily)
    case _ => None
  }

  /** A recognised x-ray sub-category gets the prompt made for exactly that
      name; every other value gets the default x-ray prompt. */
  lemma XrayTopicRecognises(sub: Option<string>)
    ensures FamilyOf(XrayTopic(sub)) == Some(XrayFamily)
    ensures XrayTopic(sub) != XrayDefault <==> sub.Some? && sub.value in XraySubCategories
    ensures XrayTopic(sub) != XrayDefault ==> SubCategoryName(XrayTopic(sub)) == sub
  {
  }

  /** The same for microscopy. */
  lemma MicroscopyTopicRecognises(sub: Option<string>)
    ensures FamilyOf(MicroscopyTopic(sub)) == Some(MicroscopyFamily)
    ensures MicroscopyTopic(sub) != MicroDefault <==> sub.Some? && sub.value in MicroscopySubCategories
    ensures MicroscopyTopic(sub) != MicroDefault ==> SubCategoryName(MicroscopyTopic(sub)) == sub
  {
  }

  /** The titles of the headings the response-format instruction asks for
      (backend/main.py lines 81-92 and 105-116), in its order. */
  function FormatTitles(l: Lang): seq<string> {
    match l
    case En => ["Detailed Analysis", "Measured Parameters", "Key Findings", "Recommendations"]
    case Ar => ["التحليل التفصيلي", "المعايير المقاسة", "النتائج الرئيسية", "التوصيات"]
  }

  /** The heading lines themselves: `## ` and the title. */
  function FormatHeadings(l: Lang): (hs: seq<string>)
    ensures |hs| == 4 && forall k :: 0 <= k < 4 ==> hs[k] == "## " + FormatTitles(l)[k]
  {
    var ts := FormatTitles(l);
    ["## " + ts[0], "## " + ts[1], "## " + ts[2], "## " + ts[3]]
  }

  /** The sections the requested headings stand for, in the same order. */
  const FormatSections := [Analysis, Parameters, Findings, Recommendations]

  /** Each heading the prompt asks the model to use is one the reply parser
      recognises, and it opens the section of the same name: a reply that
      follows the requested format in either language is split into the
      intended sections. */
  lemma FormatHeadingsRecognised(l: Lang)
    ensures |FormatHeadings(l)| == 4
    ensures forall k :: 0 <= k < 4 ==> Classify(FormatHeadings(l)[k]) == Header(FormatSections[k])
  {
    var hs := FormatHeadings(l);
    forall k | 0 <= k < 4 ensures Classify(hs[k]) == Header(FormatSections[k]) {
      HeadingRecognised(l, k);
    }
  }

  lemma HeadingRecognised(l: Lang, k: nat)
    requires k < 4
    ensures Classify(FormatHeadings(l)[k]) == Header(FormatSections[k])
  {
    match (l, k)
    case (En, 0) => DetailedAnalysisEn();
    case (En, 1) => MeasuredParametersEn();
    case (En, 2) => KeyFindingsEn();
    case (En, 3) => RecommendationsEn();
    case (Ar, 0) => DetailedAnalysisAr();
    case (Ar, 1) => MeasuredParametersAr();
    case (Ar, 2) => KeyFindingsAr();
    case (Ar, 3) => RecommendationsAr();
  }

  // Three lemmas per heading: the title starts with its own pattern; it
  // differs from each pattern tried before that one (at the letters given to
  // SkipPattern), so its own pattern is the one matched; and so the heading
  // line is that pattern's header.

  lemma DetailedAnalysisEnStarts()
    ensures StartsIgnoringCase(FormatTitles(En)[0], HeaderPatterns[0].english)
  {
  }

  lemma DetailedAnalysisEnTitle()
    ensures MatchTitle(FormatTitles(En)[0], HeaderPatterns) == Some(FormatSections[0])
  {
    var t := FormatTitles(En)[0];
    var p := HeaderPatterns;
    DetailedAnalysisEnStarts();
    UsePattern(t, p[0..]);
  }

  lemma DetailedAnalysisEn()
    ensures Classify(FormatHeadings(En)[0]) == Header(FormatSections[0])
  {
    var t := FormatTitles(En)[0];
    NotSpace(Python, t[0]);
    NotSpace(Python, t[|t| - 1]);
    DetailedAnalysisEnTitle();
    ClassifyHeading(t, FormatHeadings(En)[0], FormatSections[0]);
  }

  lemma MeasuredParametersEnStarts()
    ensures StartsIgnoringCase(FormatTitles(En)[1], HeaderPatterns[3].english)
  {
  }

  lemma MeasuredParametersEnTitle()
    ensures MatchTitle(FormatTitles(En)[1], HeaderPatterns) == Some(FormatSections[1])
  {
    var t := FormatTitles(En)[1];
    var p := HeaderPatterns;
    SkipPattern(t, p[0..], 0, 0);
    assert p[0..][1..] == p[1..];
    SkipPattern(t, p[1..], 0, 0);
    assert p[1..][1..] == p[2..];
    SkipPattern(t, p[2..], 0, 0);
    assert p[2..][1..] == p[3..];
    MeasuredParametersEnStarts();
    UsePattern(t, p[3..]);
  }

  lemma MeasuredParametersEn()
    ensures Classify(FormatHeadings(En)[1]) == Header(FormatSections[1])
  {
    var t := FormatTitles(En)[1];
    NotSpace(Python, t[0]);
    NotSpace(Python, t[|t| - 1]);
    MeasuredParametersEnTitle();
    ClassifyHeading(t, FormatHeadings(En)[1], FormatSections[1]);
  }

  lemma KeyFindingsEnStarts()
    ensures StartsIgnoringCase(FormatTitles(En)[2], HeaderPatterns[1].english)
  {
  }

  lemma KeyFindingsEnTitle()
    ensures MatchTitle(FormatTitles(En)[2], HeaderPatterns) == Some(FormatSections[2])
  {
    var t := FormatTitles(En)[2];
    var p := HeaderPatterns;
    SkipPattern(t, p[0..], 0, 0);
    assert p[0..][1..] == p[1..];
    KeyFindingsEnStarts();
    UsePattern(t, p[1..]);
  }

  lemma KeyFindingsEn()
    ensures Classify(FormatHeadings(En)[2]) == Header(FormatSections[2])
  {
    var t := FormatTitles(En)[2];
    NotSpace(Python, t[0]);
    NotSpace(Python, t[|t| - 1]);
    KeyFindingsEnTitle();
    ClassifyHeading(t, FormatHeadings(En)[2], FormatSections[2]);
  }

  lemma RecommendationsEnStarts()
    ensures StartsIgnoringCase(FormatTitles(En)[3], HeaderPatterns[2].english)
  {
  }

  lemma RecommendationsEnTitle()
    ensures MatchTitle(FormatTitles(En)[3], HeaderPatterns) == Some(FormatSections[3])
  {
    var t := FormatTitles(En)[3];
    var p := HeaderPatterns;
    SkipPattern(t, p[0..], 0, 0);
    assert p[0..][1..] == p[1..];
    SkipPattern(t, p[1..], 0, 0);
    assert p[1..][1..] == p[2..];
    RecommendationsEnStarts();
    UsePattern(t, p[2..]);
  }

  lemma RecommendationsEn()
    ensures Classify(FormatHeadings(En)[3]) == Header(FormatSections[3])
  {
    var t := FormatTitles(En)[3];
    NotSpace(Python, t[0]);
    NotSpace(Python, t[|t| - 1]);
    RecommendationsEnTitle();
    ClassifyHeading(t, FormatHeadings(En)[3], FormatSections[3]);
  }

  lemma DetailedAnalysisArStarts()
    ensures StartsIgnoringCase(FormatTitles(Ar)[0], HeaderPatterns[0].arabic)
  {
  }

  lemma DetailedAnalysisArTitle()
    ensures MatchTitle(FormatTitles(Ar)[0], HeaderPatterns) == Some(FormatSections[0])
  {
    var t := FormatTitles(Ar)[0];
    var p := HeaderPatterns;
    DetailedAnalysisArStarts();
    UsePattern(t, p[0..]);
  }

  lemma DetailedAnalysisAr()
    ensures Classify(FormatHeadings(Ar)[0]) == Header(FormatSections[0])
  {
    var t := FormatTitles(Ar)[0];
    NotSpace(Python, t[0]);
    NotSpace(Python, t[|t| - 1]);
    DetailedAnalysisArTitle();
    ClassifyHeading(t, FormatHeadings(Ar)[0], FormatSections[0]);
  }

  lemma MeasuredParametersArStarts()
    ensures StartsIgnoringCase(FormatTitles(Ar)[1], HeaderPatterns[3].arabic)
  {
  }

  lemma MeasuredParametersArTitle()
    ensures MatchTitle(FormatTitles(Ar)[1], HeaderPatterns) == Some(FormatSections[1])
  {
    var t := FormatTitles(Ar)[1];
    var p := HeaderPatterns;
    SkipPattern(t, p[0..], 0, 2);
    assert p[0..][1..] == p[1..];
    SkipPattern(t, p[1..], 0, 2);
    assert p[1..][1..] == p[2..];
    SkipPattern(t, p[2..], 0, 2);
    assert p[2..][1..] == p[3..];
    MeasuredParametersArStarts();
    UsePattern(t, p[3..]);
  }

  lemma MeasuredParametersAr()
    ensures Classify(FormatHeadings(Ar)[1]) == Header(FormatSections[1])
  {
    var t := FormatTitles(Ar)[1];
    NotSpace(Python, t[0]);
    NotSpace(Python, t[|t| - 1]);
    MeasuredParametersArTitle();
    ClassifyHeading(t, FormatHeadings(Ar)[1], FormatSections[1]);
  }

  lemma KeyFindingsArStarts()
    ensures StartsIgnoringCase(FormatTitles(Ar)[2], HeaderPatterns[1].arabic)
  {
  }

  lemma KeyFindingsArTitle()
    ensures MatchTitle(FormatTitles(Ar)[2], HeaderPatterns) == Some(FormatSections[2])
  {
    var t := FormatTitles(Ar)[2];
    var p := HeaderPatterns;
    SkipPattern(t, p[0..], 0, 2);
    assert p[0..][1..] == p[1..];
    KeyFindingsArStarts();
    UsePattern(t, p[1..]);
  }

  lemma KeyFindingsAr()
    ensures Classify(FormatHeadings(Ar)[2]) == Header(FormatSections[2])
  {
    var t := FormatTitles(Ar)[2];
    NotSpace(Python, t[0]);
    NotSpace(Python, t[|t| - 1]);
    KeyFindingsArTitle();
    ClassifyHeading(t, FormatHeadings(Ar)[2], FormatSections[2]);
  }

  lemma RecommendationsArStarts()
    ensures StartsIgnoringCase(FormatTitles(Ar)[3], HeaderPatterns[2].arabic)
  {
  }

  lemma RecommendationsArTitle()
    ensures MatchTitle(FormatTitles(Ar)[3], HeaderPatterns) == Some(FormatSections[3])
  {
    var t := FormatTitles(Ar)[3];
    var p := HeaderPatterns;
    SkipPattern(t, p[0..], 0, 3);
    assert p[0..][1..] == p[1..];
    SkipPattern(t, p[1..], 0, 2);
    assert p[1..][1..] == p[2..];
    RecommendationsArStarts();
    UsePattern(t, p[2..]);
  }

  lemma RecommendationsAr()
    ensures Classify(FormatHeadings(Ar)[3]) == Header(FormatSections[3])
  {
    var t := FormatTitles(Ar)[3];
    NotSpace(Python, t[0]);
    NotSpace(Python, t[|t| - 1]);
    RecommendationsArTitle();
    ClassifyHeading(t, FormatHeadings(Ar)[3], FormatSections[3]);
  }
}
