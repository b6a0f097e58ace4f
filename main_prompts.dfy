/** Prompt selection in backend/main.py: `get_analysis_prompt` and the two
    sub-category dispatchers it delegates to. The system prompt is the
    language instruction, the category's text and the response-format
    instruction; the user prompt is the category's request. */
module MainPrompts {
  import opened Wrappers
  import opened PromptText

  /** The categories the analysis endpoint accepts. */
  const ValidCategories := ["cbc", "ecg", "xray", "microscopy"]

  /** Which prompt pair `get_analysis_prompt` picks: the CBC and ECG prompts,
      a sub-category prompt for x-ray and microscopy when a sub-category is
      given, the chest x-ray or general microscopy prompt when it is not, and
      the general medical-image prompt for every other category. */
  function MainTopic(category: string, sub: Option<string>): Topic {
    if category == "cbc" then Cbc
    else if category == "ecg" then Ecg
    else if category == "xray" then (if Truthy(sub) then XrayTopic(sub) else ChestXray)
    else if category == "microscopy" then (if Truthy(sub) then MicroscopyTopic(sub) else Microscopy)
    else General
  }

  /** The category a topic's prompt is written for: the reference the
      dispatch is checked against. */
  function CategoryOf(t: Topic): string {
    match FamilyOf(t)
    case Some(XrayFamily) => "xray"
    case Some(MicroscopyFamily) => "microscopy"
    case None => if t == Cbc then "cbc" else if t == Ecg then "ecg" else "general"
  }

  /** `get_analysis_prompt(category, language, sub_category)`. */
  function GetAnalysisPrompt(category: string, language: string, sub: Option<string>): (p: Prompts)
    ensures |p.system| == 3 && |p.user| == 1
    ensures p.system[0] == LanguageInstruction(LangOf(language))
    ensures p.system[2] == ResponseFormat(LangOf(language))
    ensures AllInLanguage(p.system, LangOf(language)) && AllInLanguage(p.user, LangOf(language))
  {
    var l := LangOf(language);
    var t := MainTopic(category, sub);
    Prompts([LanguageInstruction(l), SystemBody(MainPy, t, l), ResponseFormat(l)],
            [UserBody(MainPy, t, l)])
  }

  /** The topic of a prompt pair built by this dispatcher. */
  function PromptTopic(p: Prompts): Option<Topic> {
    if |p.user| == 1 && p.user[0].UserBody? then Some(p.user[0].topic) else None
  }

  /** Every accepted category gets a prompt written for that category, and
      every other category (the function itself accepts any) the general
      prompt. */
  lemma TopicMatchesCategory(category: string, sub: Option<string>)
    ensures category in ValidCategories ==> CategoryOf(MainTopic(category, sub)) == category
    ensures category !in ValidCategories <==> MainTopic(category, sub) == General
  {
  }

  /** x-ray and microscopy delegate to their sub-category dispatcher exactly
      when the sub-category is truthy; otherwise they get the chest x-ray and
      the general microscopy prompt. */
  lemma DelegatesOnSubCategory(category: string, sub: Option<string>)
    ensures category == "xray" ==>
      MainTopic(category, sub) == (if Truthy(sub) then XrayTopic(sub) else ChestXray)
    ensures category == "microscopy" ==>
      MainTopic(category, sub) == (if Truthy(sub) then MicroscopyTopic(sub) else Microscopy)
    ensures SubCategoryName(MainTopic(category, sub)).Some? ==>
      Truthy(sub) && SubCategoryName(MainTopic(category, sub)) == sub
  {
    XrayTopicRecognises(sub);
    MicroscopyTopicRecognises(sub);
  }

  /** The whole prompt pair is in Arabic exactly when the language is "ar",
      and in English for every other value; the system prompt opens with the
      language instruction and closes with the response format, whose
      headings the reply parser recognises. */
  lemma PromptLanguage(category: string, language: string, sub: Option<string>)
    ensures var p := GetAnalysisPrompt(category, language, sub);
      (AllInLanguage(p.system + p.user, Ar) <==> language == "ar")
      && (AllInLanguage(p.system + p.user, En) <==> language != "ar")
      && PromptTopic(p) == Some(MainTopic(category, sub))
  {
    var p := GetAnalysisPrompt(category, language, sub);
    var all := p.system + p.user;
    assert all[0] == LanguageInstruction(LangOf(language));
    assert forall i :: 0 <= i < |all| ==> InLanguage(all[i], LangOf(language));
  }
}
