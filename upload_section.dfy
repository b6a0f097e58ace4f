/** The upload screen (src/components/UploadSection.tsx): the selection of
    a file, a category and a sub-category, the gate of the Analyze button,
    and the handlers that clear the selection. The upload itself is an
    input (`uploaded`), as are the signed-in user and the service's
    answer. */
module UploadSection {
  import opened Wrappers
  import opened Translations
  import AnalysisParser
  import MedicalAnalyses
  import AnalysisRun

  /** A chosen file: its name and its MIME type. */
  datatype File = File(name: string, mimeType: string)

  /** The two categories that need a sub-category. */
  predicate NeedsSubCategory(category: string) {
    category == "microscopy" || category == "xray"
  }

  /** `canAnalyze` (lines 103-104). */
  predicate CanAnalyze(file: Option<File>, category: string, sub: string) {
    file.Some? && category != "" && (!NeedsSubCategory(category) || sub != "")
  }

  class Screen {
    var selectedFile: Option<File>
    var selectedCategory: string
    var selectedSubCategory: string
    var responseLanguage: Language
    var showAuthModal: bool
    /** The analysis hook, with its own history. */
    const runner: AnalysisRun.Runner
    /** The screen's own history (`useMedicalAnalyses`). */
    const history: MedicalAnalyses.History<AnalysisRun.Saved>

    /** The screen's history is not the one the analysis hook saves to. */
    predicate Valid()
      reads this
    {
      history != runner.history
    }

    constructor ()
      ensures Valid() && selectedFile == None && selectedCategory == "" && selectedSubCategory == ""
      ensures responseLanguage == En && !showAuthModal && runner.result == None && history.analyses == []
    {
      selectedFile := None;
      selectedCategory := "";
      selectedSubCategory := "";
      responseLanguage := En;
      showAuthModal := false;
      runner := new AnalysisRun.Runner();
      history := new MedicalAnalyses.History();
    }

    /** `handleFileSelect`: signed out, only the sign-in dialog opens; an
        image file is selected and the old result dropped; anything else is
        ignored. */
    method HandleFileSelect(user: Option<string>, file: Option<File>)
      modifies this, runner
      ensures user.None? ==> (showAuthModal && selectedFile == old(selectedFile) && runner.result == old(runner.result))
      ensures user.Some? && file.Some? && "image/" <= file.value.mimeType ==>
        (selectedFile == file && runner.result == None)
      ensures user.Some? && !(file.Some? && "image/" <= file.value.mimeType) ==>
        (selectedFile == old(selectedFile) && runner.result == old(runner.result))
      ensures user.Some? ==> showAuthModal == old(showAuthModal)
      ensures selectedCategory == old(selectedCategory) && selectedSubCategory == old(selectedSubCategory)
        && responseLanguage == old(responseLanguage)
      ensures runner.isAnalyzing == old(runner.isAnalyzing)
    {
      if user.None? {
        showAuthModal := true;
        return;
      }
      if file.Some? && "image/" <= file.value.mimeType {
        selectedFile := file;
        runner.SetResult(None);
      }
    }

    /** `handleCategoryChange`: a category without sub-categories clears the
        sub-category; x-ray and microscopy keep the one chosen before. */
    method HandleCategoryChange(category: string)
      modifies this
      ensures selectedCategory == category
      ensures selectedSubCategory == if NeedsSubCategory(category) then old(selectedSubCategory) else ""
      ensures selectedFile == old(selectedFile) && responseLanguage == old(responseLanguage)
        && showAuthModal == old(showAuthModal)
    {
      selectedCategory := category;
      if category != "microscopy" && category != "xray" {
        selectedSubCategory := "";
      }
    }

    /** The sub-category selector. */
    method SetSubCategory(sub: string)
      modifies this
      ensures selectedSubCategory == sub
      ensures selectedFile == old(selectedFile) && selectedCategory == old(selectedCategory)
        && responseLanguage == old(responseLanguage) && showAuthModal == old(showAuthModal)
    {
      selectedSubCategory := sub;
    }

    /** The response-language selector. */
    method SetResponseLanguage(language: Language)
      modifies this
      ensures responseLanguage == language
      ensures selectedFile == old(selectedFile) && selectedCategory == old(selectedCategory)
        && selectedSubCategory == old(selectedSubCategory) && showAuthModal == old(showAuthModal)
    {
      responseLanguage := language;
    }

    /** `handleAnalyze`: signed out, only the sign-in dialog opens. The
        upload is attempted exactly when `canAnalyze` holds, and the
        analysis runs when the upload gave a result. The run saves to the
        hook's history, so the screen's own list does not change. */
    method HandleAnalyze(user: Option<string>, uploaded: bool, answer: Option<AnalysisParser.AnalysisResult>,
                         inserted: Option<MedicalAnalyses.Analysis<AnalysisRun.Saved>>)
      returns (uploadCalled: bool, sent: Option<MedicalAnalyses.NewAnalysis<AnalysisRun.Saved>>)
      requires Valid()
      modifies this, runner, runner.history
      ensures user.None? ==> showAuthModal
      ensures user.Some? ==> showAuthModal == old(showAuthModal)
      ensures uploadCalled <==> user.Some? && CanAnalyze(old(selectedFile), old(selectedCategory), old(selectedSubCategory))
      ensures uploadCalled && uploaded ==>
        runner.result == Some(AnalysisRun.Outcome(selectedCategory, responseLanguage, Some(selectedSubCategory), answer))
      ensures !(uploadCalled && uploaded) ==> (sent.None? && runner.result == old(runner.result)
        && runner.history.analyses == old(runner.history.analyses))
      ensures sent.Some? ==> sent.value.analysisType == selectedCategory && sent.value.fileType == "image"
      ensures uploadCalled && uploaded ==>
        var saved := AnalysisRun.SavedOf(selectedCategory, responseLanguage, Some(selectedSubCategory), answer);
        user.Some? && selectedFile.Some?
        && sent == Some(MedicalAnalyses.InsertPayload(user.value, selectedCategory, selectedFile.value.name,
          saved, Some(AnalysisRun.ConfidenceOf(saved)), responseLanguage, None))
      ensures uploadCalled && uploaded ==>
        runner.history.analyses == if inserted.Some? then [inserted.value] + old(runner.history.analyses)
          else old(runner.history.analyses)
      ensures uploadCalled && uploaded ==> !runner.isAnalyzing
      ensures !(uploadCalled && uploaded) ==> runner.isAnalyzing == old(runner.isAnalyzing)
      ensures history.analyses == old(history.analyses)
      ensures selectedFile == old(selectedFile) && selectedCategory == old(selectedCategory)
        && selectedSubCategory == old(selectedSubCategory) && responseLanguage == old(responseLanguage)
    {
      uploadCalled, sent := false, None;
      if user.None? {
        showAuthModal := true;
        return;
      }
      if selectedFile.Some? && selectedCategory != "" {
        if (selectedCategory == "microscopy" || selectedCategory == "xray") && selectedSubCategory == "" {
          return;
        }
        uploadCalled := true;
        if uploaded {
          sent := runner.SimulateAnalysis(user, selectedCategory, selectedFile.value.name, responseLanguage,
            Some(selectedSubCategory), answer, inserted);
        }
      }
    }

    /** `handleClearInput`: the result, the file, the category and the
        sub-category are cleared. */
    method HandleClearInput()
      modifies this, runner
      ensures runner.result == None && selectedFile == None && selectedCategory == "" && selectedSubCategory == ""
      ensures responseLanguage == old(responseLanguage) && showAuthModal == old(showAuthModal)
      ensures runner.isAnalyzing == old(runner.isAnalyzing)
    {
      var shouldClear := runner.ClearInput();
      if shouldClear {
        selectedFile := None;
        selectedCategory := "";
        selectedSubCategory := "";
      }
    }

    /** `handleSignOut`: the file, the result and the sub-category are
        cleared; the category stays. */
    method HandleSignOut()
      modifies this, runner
      ensures runner.result == None && selectedFile == None && selectedSubCategory == ""
      ensures selectedCategory == old(selectedCategory) && responseLanguage == old(responseLanguage)
        && showAuthModal == old(showAuthModal)
      ensures runner.isAnalyzing == old(runner.isAnalyzing)
    {
      selectedFile := None;
      runner.SetResult(None);
      selectedSubCategory := "";
    }
  }
}
