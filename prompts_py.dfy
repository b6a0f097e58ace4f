/** Prompt selection in backend/prompts.py, a second version of the
    dispatcher that backend/main.py does not import. It differs from the one
    in main.py: x-ray and microscopy always go to the sub-category
    dispatcher, which puts a family role text after the language
    instruction. */
module PromptsPy {
  import opened Wrappers
  import opened PromptText
  import opened MainPrompts

  /** Which prompt pair `get_analysis_prompt` in prompts.py picks. */
  function PyTopic(category: string, sub: Option<string>): Topic {
    if category == "cbc" then Cbc
    else if category == "ecg" then Ecg
    else if category == "xray" then XrayTopic(sub)
    else if category == "microscopy" then MicroscopyTopic(sub)
    else General
  }

  /** `get_analysis_prompt` of prompts.py. The sub-category prompts are the
      family's base prompt (language instruction and role) followed by the
      sub-category's text and the response format. */
  function GetAnalysisPromptPy(category: string, language: string, sub: Option<string>): (p: Prompts)
    ensures |p.system| >= 3 && |p.user| == 1
    ensures p.system[0] == LanguageInstruction(LangOf(language))
    ensures p.system[|p.system| - 1] == ResponseFormat(LangOf(language))
    ensures AllInLanguage(p.system, LangOf(language)) && AllInLanguage(p.user, LangOf(language))
  {
    var l := LangOf(language);
    var t := PyTopic(category, sub);
    var body := SystemBody(PromptsPy, t, l);
    var system :=
      match FamilyOf(t)
      case Some(f) => [LanguageInstruction(l), BaseRole(f, l), body, ResponseFormat(l)]
      case None => [LanguageInstruction(l), body, ResponseFormat(l)];
    Prompts(system, [UserBody(PromptsPy, t, l)])
  }

  /** x-ray and microscopy always delegate, even without a sub-category, and
      an unrecognised or missing sub-category gets the family's default
      prompt; cbc and ecg have fixed prompts and anything else gets the
      general one. */
  lemma PyDispatch(category: string, sub: Option<string>)
    ensures category == "xray" ==> PyTopic(category, sub) == XrayTopic(sub)
    ensures category == "microscopy" ==> PyTopic(category, sub) == MicroscopyTopic(sub)
    ensures category == "xray" && !(sub.Some? && sub.value in XraySubCategories) ==>
      PyTopic(category, sub) == XrayDefault
    ensures category == "microscopy" && !(sub.Some? && sub.value in MicroscopySubCategories) ==>
      PyTopic(category, sub) == MicroDefault
    ensures category in ValidCategories ==> CategoryOf(PyTopic(category, sub)) == category
    ensures category !in ValidCategories <==> PyTopic(category, sub) == General
  {
    XrayTopicRecognises(sub);
    MicroscopyTopicRecognises(sub);
  }

  /** The delegated prompts carry the family's role text right after the
      language instruction. */
  lemma PyFamilyPrompt(category: string, language: string, sub: Option<string>)
    requires category == "xray" || category == "microscopy"
    ensures var p := GetAnalysisPromptPy(category, language, sub);
      |p.system| == 4
      && p.system[1] == BaseRole(if category == "xray" then XrayFamily else MicroscopyFamily, LangOf(language))
  {
    XrayTopicRecognises(sub);
    MicroscopyTopicRecognises(sub);
  }

  /** The two dispatchers choose the same topic except for x-ray and
      microscopy without a (truthy) sub-category: there main.py picks the
      chest x-ray or general microscopy prompt and prompts.py the family's
      default prompt. */
  lemma DispatchersDisagree(category: string, sub: Option<string>)
    ensures MainTopic(category, sub) != PyTopic(category, sub) <==>
      (category == "xray" || category == "microscopy") && !Truthy(sub)
  {
    XrayTopicRecognises(sub);
    MicroscopyTopicRecognises(sub);
  }

  /** The disagreement on the plainest request: an x-ray with no
      sub-category. */
  lemma BareXrayDisagrees()
    ensures MainTopic("xray", None) == ChestXray
    ensures PyTopic("xray", None) == XrayDefault
  {
  }
}
