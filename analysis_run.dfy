/** The analysis run (src/hooks/useAnalysis.ts): the call to the analysis
    service, the mapping of its answer to what the screen shows, the canned
    result used instead when the service fails or the category has no
    service, and the save of whichever result was used. The service's
    answer is an input (`None` when it failed); it has the shape of the
    backend's result. */
module AnalysisRun {
  import opened Wrappers
  import opened Text
  import opened Translations
  import AnalysisParser
  import MedicalAnalyses

  /** What the screen shows: the mapped service answer or a canned one. */
  datatype Shown =
    | FromService(
        diagnosis: string, confidence: int, details: string, recommendations: string,
        findings: seq<string>, severity: AnalysisParser.Severity,
        parameters: seq<AnalysisParser.Parameter>, fullAnalysis: AnalysisParser.AnalysisResult,
        category: string, subCategory: Option<string>)
    | Simulated(mock: Mock)

  /** A canned result. */
  datatype Mock = Mock(diagnosis: string, confidence: int, details: string, recommendations: string)

  /** What is saved to the history: the service's answer itself, or the
      canned result. */
  datatype Saved = ServiceAnswer(answer: AnalysisParser.AnalysisResult) | CannedResult(mock: Mock)

  /** The categories sent to the service (line 29). */
  const ServiceCategories := ["cbc", "ecg", "xray", "microscopy"]

  /** The keys of `mockResults`. */
  const MockKeys := ["xray", "cbc", "ecg", "microscopy"]

  /** `substring(0, 100) + '...'`. */
  function Truncated(analysis: string): (d: string)
    ensures 3 <= |d| <= 103 && d[|d| - 3..] == "..."
    ensures d[..|d| - 3] <= analysis
    ensures |analysis| >= 100 ==> |d| == 103
    ensures |analysis| < 100 ==> d == analysis + "..."
  {
    (if |analysis| <= 100 then analysis else analysis[..100]) + "..."
  }

  /** The mapping of lines 38-49. */
  function FromAnswer(m: AnalysisParser.AnalysisResult, category: string, sub: Option<string>): (s: Shown)
    ensures s.FromService? && s.diagnosis == Truncated(m.analysis) && s.details == m.analysis
    ensures s.recommendations == Join(m.recommendations, " ")
    ensures s.confidence == m.confidence && s.findings == m.findings && s.severity == m.severity
      && s.parameters == m.parameters && s.fullAnalysis == m
    ensures s.category == category && s.subCategory == sub
  {
    FromService(Truncated(m.analysis), m.confidence, m.analysis, Join(m.recommendations, " "),
      m.findings, m.severity, m.parameters, m, category, sub)
  }

  /** The joined recommendations split back into the service's list when
      none of them holds a space. */
  lemma RecommendationsRoundTrip(m: AnalysisParser.AnalysisResult, category: string, sub: Option<string>)
    requires m.recommendations != []
    requires forall i :: 0 <= i < |m.recommendations| ==> ' ' !in m.recommendations[i]
    ensures Split(FromAnswer(m, category, sub).recommendations, ' ') == m.recommendations
  {
    JoinSplit(m.recommendations, ' ');
  }

  /** `responseLanguage === 'ar' ? arabic : english`. */
  function Pick(language: Language, english: string, arabic: string): string {
    if language == Ar then arabic else english
  }

  /** The x-ray diagnosis (lines 123-129). */
  function XrayDiagnosis(language: Language, sub: Option<string>): string {
    if sub == Some("chest_lung") then Pick(language,
      "Normal chest/lung X-ray",
      "صورة أشعة سليمة للصدر والرئتين")
    else if sub == Some("abdominal") then Pick(language,
      "Normal abdominal X-ray",
      "صورة أشعة سليمة للبطن")
    else if sub == Some("skeletal") then Pick(language,
      "Normal skeletal X-ray",
      "صورة أشعة سليمة للعظام")
    else Pick(language,
      "Normal X-ray",
      "صورة أشعة سليمة")
  }

  /** The x-ray details (lines 131-139). */
  function XrayDetails(language: Language, sub: Option<string>): string {
    if sub == Some("chest_lung") then Pick(language,
      "Lung fields are clear with no signs of infiltration or opacities. Heart size is normal.",
      "حقول الرئة واضحة بدون علامات التهاب أو عتمات. القلب بحجم طبيعي.")
    else if sub == Some("abdominal") then Pick(language,
      "Normal bowel gas distribution. No signs of obstruction or abnormal masses.",
      "توزيع طبيعي للغازات المعوية. لا توجد علامات انسداد أو كتل شاذة.")
    else if sub == Some("skeletal") then Pick(language,
      "No signs of fractures or dislocations. Bones appear intact.",
      "لا توجد علامات كسور أو خلع. العظام تبدو سليمة.")
    else Pick(language,
      "No signs of pneumonia, fractures, or abnormalities detected.",
      "لا توجد علامات التهاب أو كسور أو تشوهات.")
  }

  /** The microscopy diagnosis and details (lines 165-171). */
  function MicroscopyDiagnosis(language: Language, sub: Option<string>): string {
    if sub == Some("tumor_classification") then Pick(language,
      "Benign tumor - no signs of malignancy",
      "ورم حميد - لا توجد علامات خباثة")
    else Pick(language,
      "Normal cellular structure",
      "بنية خلوية طبيعية")
  }

  function MicroscopyDetails(language: Language, sub: Option<string>): string {
    if sub == Some("tumor_classification") then Pick(language,
      "Pathological analysis shows cells with normal morphology without signs of malignancy. Borders are well-defined and nuclei are regular.",
      "التحليل المرضي يظهر خلايا ذات شكل طبيعي بدون علامات تشير إلى الخباثة. الحدود محددة بوضوح والنواة منتظمة.")
    else Pick(language,
      "Cellular morphology appears normal with no abnormalities.",
      "شكل الخلايا يبدو طبيعي بدون تشوهات.")
  }

  /** The canned results of lines 121-176, field by field: the diagnosis
      and the details, the confidence and the advice of each key. */
  function MockDiagnosis(key: string, language: Language, sub: Option<string>): string {
    if key == "xray" then XrayDiagnosis(language, sub)
    else if key == "cbc" then Pick(language,
        "Normal blood count",
        "تعداد دم طبيعي")
    else if key == "ecg" then Pick(language,
        "Normal sinus rhythm",
        "نظم قلبي طبيعي")
    else MicroscopyDiagnosis(language, sub)
  }

  function MockDetails(key: string, language: Language, sub: Option<string>): string {
    if key == "xray" then XrayDetails(language, sub)
    else if key == "cbc" then Pick(language,
        "All blood cell counts are within normal ranges.",
        "جميع خلايا الدم ضمن المعدلات الطبيعية.")
    else if key == "ecg" then Pick(language,
        "Heart rhythm is regular with normal conduction.",
        "نظم القلب منتظم مع توصيل طبيعي.")
    else MicroscopyDetails(language, sub)
  }

  function MockConfidence(key: string): int {
    if key == "xray" then 92 else if key == "cbc" then 89 else if key == "ecg" then 95 else 88
  }

  function MockAdvice(key: string, language: Language): string {
    if key == "xray" then Pick(language,
        "Continue regular check-ups as advised by your physician.",
        "استمر في الفحوصات الدورية كما ينصح طبيبك.")
    else if key == "cbc" then Pick(language,
        "Maintain a healthy diet and lifestyle.",
        "حافظ على نظام غذائي صحي ونمط حياة سليم.")
    else if key == "ecg" then Pick(language,
        "Continue current cardiovascular health practices.",
        "استمر في ممارسات صحة القلب والأوعية الدموية الحالية.")
    else Pick(language,
        "Follow up as recommended by your healthcare provider and routine monitoring.",
        "تابع كما يوصي مقدم الرعاية الصحية والمتابعة الدورية.")
  }

  /** `mockResults[key]`. */
  function MockFor(key: string, language: Language, sub: Option<string>): Mock
    requires key in MockKeys
  {
    Mock(MockDiagnosis(key, language, sub), MockConfidence(key), MockDetails(key, language, sub), MockAdvice(key, language))
  }

  /** `getSimulatedResult`: the canned result of the category, or the
      x-ray one for a category without one. */
  function SimulatedResult(category: string, language: Language, sub: Option<string>): (r: Mock)
    ensures category !in MockKeys ==> r == MockFor("xray", language, sub)
    ensures category in MockKeys ==> r == MockFor(category, language, sub)
  {
    MockFor(if category in MockKeys then category else "xray", language, sub)
  }

  /** Every canned result has a confidence between 88 and 95; the x-ray
      one, which the unknown categories get, has 92. */
  lemma SimulatedResultShape(category: string, language: Language, sub: Option<string>)
    ensures var r := SimulatedResult(category, language, sub);
      88 <= r.confidence <= 95 && (category !in MockKeys ==> r.confidence == 92)
  {
    var r := SimulatedResult(category, language, sub);
    var key := if category in MockKeys then category else "xray";
    assert r == MockFor(key, language, sub);
  }

  /** What a run shows. */
  function Outcome(category: string, language: Language, sub: Option<string>,
                   answer: Option<AnalysisParser.AnalysisResult>): Shown {
    if category in ServiceCategories && answer.Some? then FromAnswer(answer.value, category, sub)
    else Simulated(SimulatedResult(category, language, sub))
  }

  /** What a run saves. */
  function SavedOf(category: string, language: Language, sub: Option<string>,
                   answer: Option<AnalysisParser.AnalysisResult>): Saved {
    if category in ServiceCategories && answer.Some? then ServiceAnswer(answer.value)
    else CannedResult(SimulatedResult(category, language, sub))
  }

  /** The result saved is the one shown, with the same confidence, on the
      service path and on the fallback alike. */
  lemma SavedIsShown(category: string, language: Language, sub: Option<string>,
                     answer: Option<AnalysisParser.AnalysisResult>)
    ensures var shown := Outcome(category, language, sub, answer);
      var saved := SavedOf(category, language, sub, answer);
      (shown.FromService? <==> saved.ServiceAnswer?)
      && (saved.ServiceAnswer? ==> shown.fullAnalysis == saved.answer && shown.confidence == saved.answer.confidence)
      && (saved.CannedResult? ==> shown == Simulated(saved.mock))
      && (answer.None? ==> saved == CannedResult(SimulatedResult(category, language, sub)))
  {
  }

  /** The confidence the save records. */
  function ConfidenceOf(s: Saved): int {
    match s
    case ServiceAnswer(a) => a.confidence
    case CannedResult(m) => m.confidence
  }

  /** The hook's state. It keeps its own analysis history, apart from the
      one of the screen that uses it. */
  class Runner {
    var isAnalyzing: bool
    var result: Option<Shown>
    const history: MedicalAnalyses.History<Saved>

    constructor ()
      ensures !isAnalyzing && result == None && fresh(history)
      ensures history.analyses == [] && history.loading
    {
      isAnalyzing := false;
      result := None;
      history := new MedicalAnalyses.History();
    }

    /** `simulateAnalysis`: the service path for its categories, the canned
        result when the service fails (`answer` is `None`) or for any other
        category; either way the result is saved and shown, and the run
        ends not analysing. `inserted` is the row the save's insert gives
        back. */
    method SimulateAnalysis(user: Option<string>, category: string, fileName: string, language: Language,
                            sub: Option<string>, answer: Option<AnalysisParser.AnalysisResult>,
                            inserted: Option<MedicalAnalyses.Analysis<Saved>>)
      returns (sent: Option<MedicalAnalyses.NewAnalysis<Saved>>)
      modifies this, history
      ensures result == Some(Outcome(category, language, sub, answer)) && !isAnalyzing
      ensures var saved := SavedOf(category, language, sub, answer);
        sent == if user.Some?
          then Some(MedicalAnalyses.InsertPayload(user.value, category, fileName, saved, Some(ConfidenceOf(saved)), language, None))
          else None
      ensures history.analyses == if user.Some? && inserted.Some?
        then [inserted.value] + old(history.analyses) else old(history.analyses)
      ensures history.loading == old(history.loading)
    {
      isAnalyzing := true;
      var shown: Shown;
      var saved: Saved;
      if category in ServiceCategories && answer.Some? {
        shown := FromAnswer(answer.value, category, sub);
        saved := ServiceAnswer(answer.value);
      } else {
        var mock := SimulatedResult(category, language, sub);
        shown := Simulated(mock);
        saved := CannedResult(mock);
      }
      var stored;
      sent, stored := history.SaveAnalysis(user, category, fileName, saved, Some(ConfidenceOf(saved)), language, None, inserted);
      result := Some(shown);
      isAnalyzing := false;
    }

    /** `setResult`, and `clearResult` with `None`. */
    method SetResult(r: Option<Shown>)
      modifies this
      ensures result == r && isAnalyzing == old(isAnalyzing)
    {
      result := r;
    }

    /** `clearInput`: drops the result and tells the caller to clear its
        inputs. */
    method ClearInput() returns (shouldClear: bool)
      modifies this
      ensures result == None && shouldClear && isAnalyzing == old(isAnalyzing)
    {
      result := None;
      shouldClear := true;
    }
  }
}
