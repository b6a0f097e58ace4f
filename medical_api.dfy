/** The request handling of backend/main.py around the AI call: the image
    data URL (`encode_image_to_base64`), the validation and prompt assembly of
    `/api/medical/analyze`, the legacy CBC endpoint, and the PDF download's
    file name. The AI call itself, base64 encoding, JSON decoding and the PDF
    renderer are inputs. */
module MedicalApi {
  import opened Wrappers
  import opened Text
  import opened AnalysisParser
  import opened PromptText
  import opened MainPrompts

  // ---------------------------------------------------------------- image

  /** The name used for the extension: the upload's file name, or
      "image.png" when there is none. */
  function UploadName(filename: Option<string>): string {
    if Truthy(filename) then filename.value else "image.png"
  }

  /** The image type in the data URL: the lower-cased text after the last
      `.` of the name, or "png" for a name without a `.`. */
  function ExtensionOf(name: string): (ext: string)
    ensures '.' !in ext && NoUpper(ext)
  {
    if '.' in name then
      var pieces := Split(name, '.');
      var ext := Lower(pieces[|pieces| - 1]);
      assert forall i :: 0 <= i < |ext| ==> ext[i] == LowerChar(pieces[|pieces| - 1][i]);
      ext
    else "png"
  }

  function ImageExtension(filename: Option<string>): (ext: string)
    ensures '.' !in ext && NoUpper(ext)
  {
    ExtensionOf(UploadName(filename))
  }

  /** `data:image/{ext};base64,{encoded}`. */
  function DataUrl(filename: Option<string>, encoded: string): (url: string)
    ensures "data:image/" <= url
  {
    "data:image/" + ImageExtension(filename) + ";base64," + encoded
  }

  /** A name `stem.suffix` whose suffix has no `.` gives the lower-cased
      suffix, whatever the stem holds (dots included). */
  lemma ExtensionIsLastSuffix(stem: string, suffix: string)
    requires '.' !in suffix
    ensures ExtensionOf(stem + "." + suffix) == Lower(suffix)
  {
    var name := stem + "." + suffix;
    assert '.' in name by {
      assert name[|stem|] == '.';
    }
    var pieces := Split(name, '.');
    assert pieces[|pieces| - 1] == suffix by {
      SplitLast(stem, '.', suffix);
    }
  }

  /** The stand-in name "image.png" gives "png". */
  lemma DefaultNameExtension()
    ensures ExtensionOf("image.png") == "png"
  {
    assert "image.png" == "image" + "." + "png";
    ExtensionIsLastSuffix("image", "png");
    LowerNoUpper("png");
  }

  /** A missing or empty name stands for "image.png"; that and a name without
      a `.` give "png". */
  lemma ExtensionDefaults(filename: Option<string>)
    ensures !Truthy(filename) ==> ImageExtension(filename) == "png"
    ensures Truthy(filename) && '.' !in filename.value ==> ImageExtension(filename) == "png"
  {
    DefaultNameExtension();
  }

  /** The data URL carries the extension and then the encoded payload. */
  lemma DataUrlShape(filename: Option<string>, encoded: string)
    ensures var url := DataUrl(filename, encoded);
      var n := |"data:image/"| + |ImageExtension(filename)|;
      n + |";base64,"| + |encoded| == |url|
      && url[|"data:image/"|..n] == ImageExtension(filename)
      && url[n..n + |";base64,"|] == ";base64,"
      && url[n + |";base64,"|..] == encoded
  {
    Slices4("data:image/", ImageExtension(filename), ";base64,", encoded);
  }

  // ---------------------------------------------------------------- analyze

  /** The uploaded file: its declared content type, its name, and its bytes
      already base64-encoded. */
  datatype Upload = Upload(contentType: Option<string>, filename: Option<string>, encoded: string)

  /** The form fields of `/api/medical/analyze`. `patientData` is the value
      `json.loads(patient_info)` yields, as it is written into the prompt,
      when `patient_info` is given, parses, and is truthy; it is None
      otherwise (a parse failure is only logged). `language` is the field
      after its "en" default. */
  datatype AnalyzeRequest = AnalyzeRequest(
    file: Upload,
    category: string,
    language: string,
    languageInstruction: Option<string>,
    patientData: Option<string>,
    subCategory: Option<string>)

  datatype Rejection = NotAnImage | InvalidCategory

  /** A content type that is present and starts with `image/`. */
  predicate IsImage(contentType: Option<string>) {
    Truthy(contentType) && "image/" <= contentType.value
  }

  /** The two checks, in order: the file's type, then the category. */
  function Validate(req: AnalyzeRequest): (r: Option<Rejection>)
    ensures r == None <==> IsImage(req.file.contentType) && req.category in ValidCategories
    ensures r == Some(NotAnImage) <==> !IsImage(req.file.contentType)
  {
    if !IsImage(req.file.contentType) then Some(NotAnImage)
    else if req.category !in ValidCategories then Some(InvalidCategory)
    else None
  }

  /** `language or 'en'`, the language given to the prompt dispatcher. */
  function PromptLanguageOf(language: string): string {
    if language == "" then "en" else language
  }

  /** The patient context appended to the user prompt. */
  function PatientPart(req: AnalyzeRequest): seq<Segment> {
    if req.patientData.Some? then [PatientContext(LangOf(req.language), req.patientData.value)] else []
  }

  /** The sub-category context appended to the user prompt: only for x-ray
      and microscopy, and only with a truthy sub-category. */
  function SubCategoryPart(req: AnalyzeRequest): seq<Segment> {
    if !Truthy(req.subCategory) then []
    else if req.category == "xray" then [SubCategoryContext(XrayFamily, LangOf(req.language), req.subCategory.value)]
    else if req.category == "microscopy" then [SubCategoryContext(MicroscopyFamily, LangOf(req.language), req.subCategory.value)]
    else []
  }

  /** What is sent to the AI model: the system prompt (after the front end's
      own language instruction when that is given), the user prompt with the
      contexts appended, and the image. */
  datatype AiRequest = AiRequest(system: seq<Segment>, user: seq<Segment>, imageUrl: string)

  function AiRequestFor(req: AnalyzeRequest): (r: AiRequest)
    ensures r.imageUrl == DataUrl(req.file.filename, req.file.encoded)
  {
    var p := GetAnalysisPrompt(req.category, PromptLanguageOf(req.language), req.subCategory);
    var system :=
      if Truthy(req.languageInstruction) then [FrontendInstruction(req.languageInstruction.value)] + p.system
      else p.system;
    AiRequest(system, p.user + PatientPart(req) + SubCategoryPart(req),
              DataUrl(req.file.filename, req.file.encoded))
  }

  /** The prompt dispatcher's language and the contexts' language agree: the
      request is in Arabic iff the language field is "ar", apart from the
      front end's instruction, which is passed through as given. */
  lemma AiRequestLanguage(req: AnalyzeRequest)
    ensures var r := AiRequestFor(req);
      AllInLanguage(r.system + r.user, LangOf(req.language))
      && (LangOf(req.language) == Ar <==> req.language == "ar")
  {
    var l := LangOf(req.language);
    var p := GetAnalysisPrompt(req.category, PromptLanguageOf(req.language), req.subCategory);
    assert LangOf(PromptLanguageOf(req.language)) == l;
    var r := AiRequestFor(req);
    if Truthy(req.languageInstruction) {
      AllInLanguageAppend([FrontendInstruction(req.languageInstruction.value)], p.system, l);
    }
    AllInLanguageAppend(p.user, PatientPart(req), l);
    AllInLanguageAppend(p.user + PatientPart(req), SubCategoryPart(req), l);
    AllInLanguageAppend(r.system, r.user, l);
  }

  /** The shape of the system prompt: the front end's instruction first
      exactly when it is given, then the dispatcher's system prompt, whose
      response format comes last. */
  lemma AiRequestSystem(req: AnalyzeRequest)
    ensures var r := AiRequestFor(req);
      var l := LangOf(req.language);
      && r.system[|r.system| - 1] == ResponseFormat(l)
      && (Truthy(req.languageInstruction) ==> r.system[0] == FrontendInstruction(req.languageInstruction.value))
      && (!Truthy(req.languageInstruction) ==> r.system[0] == LanguageInstruction(l))
  {
    assert LangOf(PromptLanguageOf(req.language)) == LangOf(req.language);
  }

  /** The shape of the user prompt: the dispatcher's body first, and each
      context exactly when it applies. */
  lemma AiRequestUser(req: AnalyzeRequest)
    ensures var r := AiRequestFor(req);
      var l := LangOf(req.language);
      && r.user[0] == UserBody(MainPy, MainTopic(req.category, req.subCategory), l)
      && ((exists i :: 0 <= i < |r.user| && r.user[i].PatientContext?) <==> req.patientData.Some?)
      && ((exists i :: 0 <= i < |r.user| && r.user[i].SubCategoryContext?) <==>
            Truthy(req.subCategory) && (req.category == "xray" || req.category == "microscopy"))
  {
    UserParts(req);
    ContextsPlaced(UserBody(MainPy, MainTopic(req.category, req.subCategory), LangOf(req.language)),
      PatientPart(req), SubCategoryPart(req));
  }

  lemma UserParts(req: AnalyzeRequest)
    ensures AiRequestFor(req).user ==
      [UserBody(MainPy, MainTopic(req.category, req.subCategory), LangOf(req.language))]
      + PatientPart(req) + SubCategoryPart(req)
  {
    assert LangOf(PromptLanguageOf(req.language)) == LangOf(req.language);
  }

  /** A body followed by at most one context of each kind, patient first. */
  lemma ContextsPlaced(body: Segment, pp: seq<Segment>, sp: seq<Segment>)
    requires !body.PatientContext? && !body.SubCategoryContext?
    requires |pp| <= 1 && (pp != [] ==> pp[0].PatientContext?)
    requires |sp| <= 1 && (sp != [] ==> sp[0].SubCategoryContext?)
    ensures var u := [body] + pp + sp;
      && u[0] == body
      && ((exists i :: 0 <= i < |u| && u[i].PatientContext?) <==> pp != [])
      && ((exists i :: 0 <= i < |u| && u[i].SubCategoryContext?) <==> sp != [])
  {
    var u := [body] + pp + sp;
    forall i | 0 <= i < |u| && u[i].PatientContext? ensures pp != [] {
      assert i == 1 && pp != [];
    }
    if pp != [] {
      assert u[1].PatientContext?;
    }
    forall i | 0 <= i < |u| && u[i].SubCategoryContext? ensures sp != [] {
      assert i >= 1 && (i == 1 ==> pp == []);
    }
    if sp != [] {
      assert u[|u| - 1].SubCategoryContext?;
    }
  }

  /** The reply of the AI model, as an input: None when the call fails or
      its message has no content. */
  type Reply = Option<string>

  datatype Cause = Rejected(why: Rejection) | NoReply

  datatype Response = Analysed(result: AnalysisResult) | Failed(status: int, cause: Cause)

  /** The status the endpoint answers with as written: the validation's
      HTTPException(400) is raised inside the `try` whose `except Exception`
      re-raises every error as 500. */
  function StatusAsWritten(req: AnalyzeRequest, reply: Reply): (code: int)
    ensures code == 200 || code == 500
  {
    if Validate(req).Some? then 500 else if reply.None? then 500 else 200
  }

  /** The status the validation evidently means: 400 for a rejected request,
      500 when the model gives no reply, 200 otherwise. */
  function Status(req: AnalyzeRequest, reply: Reply): (code: int)
    ensures code in {200, 400, 500}
  {
    if Validate(req).Some? then 400 else if reply.None? then 500 else 200
  }

  /** As written, a request with a text file is rejected with 500, a server
      error, although the check that rejects it asks for 400. */
  lemma RejectionReportedAsServerError()
    ensures var req := AnalyzeRequest(Upload(Some("text/plain"), Some("r.txt"), ""), "cbc", "en", None, None, None);
      Validate(req) == Some(NotAnImage) && StatusAsWritten(req, Some("")) == 500
  {
    var req := AnalyzeRequest(Upload(Some("text/plain"), Some("r.txt"), ""), "cbc", "en", None, None, None);
    assert !("image/" <= "text/plain") by { assert "text/plain"[0] != "image/"[0]; }
  }

  /** Every rejected request gets 500 as written. */
  lemma AsWrittenHidesRejections(req: AnalyzeRequest, reply: Reply)
    requires Validate(req).Some?
    ensures StatusAsWritten(req, reply) == 500 && Status(req, reply) == 400
  {
  }

  /** With the status corrected, the client errors are exactly the rejected
      requests, and success is exactly a valid request with a reply. */
  lemma StatusMeaning(req: AnalyzeRequest, reply: Reply)
    ensures Status(req, reply) == 400 <==> Validate(req).Some?
    ensures Status(req, reply) == 200 <==> Validate(req) == None && reply.Some?
    ensures Status(req, reply) == 500 <==> Validate(req) == None && reply.None?
  {
  }

  function StatusOf(resp: Response): int {
    match resp
    case Analysed(_) => 200
    case Failed(code, _) => code
  }

  /** `analyze_medical_image`, with the rejection status corrected to 400.
      It returns the request sent to the AI model (none for a rejected
      request) and the response. `found` stands for the parameter patterns'
      matches in the reply and `confidence` for the random draw. */
  method AnalyzeMedicalImage(req: AnalyzeRequest, reply: Reply, found: seq<seq<Match>>, confidence: int)
    returns (sent: Option<AiRequest>, resp: Response)
    requires 90 <= confidence <= 97
    ensures sent == (if Validate(req) == None then Some(AiRequestFor(req)) else None)
    ensures StatusOf(resp) == Status(req, reply)
    ensures Validate(req).Some? ==> resp == Failed(400, Rejected(Validate(req).value))
    ensures Validate(req) == None && reply.None? ==> resp == Failed(500, NoReply)
    ensures Validate(req) == None && reply.Some? ==>
      resp.Analysed? && ParsedFrom(resp.result, reply.value, req.category, found, confidence)
  {
    var rejection := Validate(req);
    if rejection.Some? {
      sent := None;
      resp := Failed(400, Rejected(rejection.value));
      return;
    }
    sent := Some(AiRequestFor(req));
    if reply.None? {
      resp := Failed(500, NoReply);
      return;
    }
    var result := ParseAnalysisResponse(reply.value, req.category, found, confidence);
    resp := Analysed(result);
  }

  /** `/api/cbc/analyze`: the analysis endpoint with category "cbc",
      language "en" and no sub-category or instruction. Like the endpoint it
      delegates to, it answers a non-image with the corrected 400; the status
      the code as written gives that request is stated beside it. */
  method AnalyzeCbcLegacy(file: Upload, patientData: Option<string>, reply: Reply,
                          found: seq<seq<Match>>, confidence: int)
    returns (sent: Option<AiRequest>, resp: Response)
    requires 90 <= confidence <= 97
    ensures sent.Some? <==> IsImage(file.contentType)
    ensures sent.Some? ==>
      (|sent.value.user| >= 1 && sent.value.user[0] == UserBody(MainPy, Cbc, En)
       && sent.value.system == [LanguageInstruction(En), SystemBody(MainPy, Cbc, En), ResponseFormat(En)])
    ensures !IsImage(file.contentType) ==> resp == Failed(400, Rejected(NotAnImage))
    ensures !IsImage(file.contentType) ==>
      StatusAsWritten(AnalyzeRequest(file, "cbc", "en", None, patientData, None), reply) == 500
    ensures IsImage(file.contentType) && reply.Some? ==>
      resp.Analysed? && ParsedFrom(resp.result, reply.value, "cbc", found, confidence)
  {
    var req := AnalyzeRequest(file, "cbc", "en", None, patientData, None);
    sent, resp := AnalyzeMedicalImage(req, reply, found, confidence);
  }

  // ---------------------------------------------------------------- PDF

  /** The report name per language and category; a language other than
      "en" and "ar" is missing from the table (a KeyError). */
  function ReportName(language: string, category: string): (name: Option<string>)
    ensures name.Some? <==> language == "en" || language == "ar"
  {
    if language == "en" then
      Some(if category == "cbc" then "CBC_Report"
           else if category == "ecg" then "ECG_Report"
           else if category == "xray" then "XRay_Report"
           else if category == "microscopy" then "Microscopy_Report"
           else category)
    else if language == "ar" then
      Some(if category == "cbc" then "تقرير_صورة_دم"
           else if category == "ecg" then "تقرير_تخطيط_قلب"
           else if category == "xray" then "تقرير_أشعة"
           else if category == "microscopy" then "تقرير_مجهري"
           else category)
    else None
  }

  /** `{name}_{timestamp}.pdf`, or None when the lookup fails, which the
      endpoint's `except` turns into a 500 response. */
  function PdfFilename(language: string, category: string, timestamp: string): (r: Option<string>)
    ensures r.Some? <==> ReportName(language, category).Some?
  {
    match ReportName(language, category)
    case None => None
    case Some(name) => Some(name + "_" + timestamp + ".pdf")
  }

  /** The file name is the report name, the timestamp and `.pdf`; a category
      with no entry keeps its own name. */
  lemma PdfFilenameShape(language: string, category: string, timestamp: string)
    requires language == "en" || language == "ar"
    ensures var name := ReportName(language, category).value;
      var f := PdfFilename(language, category, timestamp).value;
      && f[..|name|] == name
      && f[|name|..|name| + 1 + |timestamp|] == "_" + timestamp
      && f[|f| - 4..] == ".pdf"
      && (category !in ValidCategories ==> name == category)
  {
  }
}
