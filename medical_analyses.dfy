/** The signed-in user's analysis history (src/hooks/useMedicalAnalyses.ts):
    the local list that a save prepends to and a delete filters. The table
    is an input: each query's rows or failure (`None`) is passed in. */
module MedicalAnalyses {
  import opened Wrappers
  import opened Lists
  import opened Translations

  /** The `analysis_result` object. The analysis is whatever the caller
      saves (the source types it `any`), hence the type parameter. */
  datatype ResultPayload<A> = ResultPayload(
    analysis: A, confidence: Option<int>, fileUrl: Option<string>, responseLanguage: Language)

  /** A row of `medical_analyses`. */
  datatype Analysis<A> = Analysis(
    id: string, userId: string, analysisType: string, fileName: string, fileType: string,
    result: ResultPayload<A>)

  /** What `saveAnalysis` inserts. */
  datatype NewAnalysis<A> = NewAnalysis(
    userId: string, analysisType: string, fileName: string, fileType: string, result: ResultPayload<A>)

  /** Lines 60-71: the file type is always "image". */
  function InsertPayload<A>(userId: string, category: string, fileName: string, analysis: A,
                         confidence: Option<int>, language: Language, fileUrl: Option<string>)
    : (p: NewAnalysis<A>)
    ensures p.fileType == "image" && p.userId == userId && p.analysisType == category && p.fileName == fileName
    ensures p.result.analysis == analysis && p.result.confidence == confidence
      && p.result.fileUrl == fileUrl && p.result.responseLanguage == language
  {
    NewAnalysis(userId, category, fileName, "image", ResultPayload(analysis, confidence, fileUrl, language))
  }

  /** `prev.filter(analysis => analysis.id !== id)`. */
  function Without<A(!new)>(l: seq<Analysis<A>>, id: string): seq<Analysis<A>> {
    Filter((a: Analysis<A>) => a.id != id, l)
  }

  /** A delete removes every entry with the id, keeps all the others in
      their order, and shortens the list by the number of entries it
      removes. */
  lemma WithoutRemoves<A(!new)>(l: seq<Analysis<A>>, id: string)
    ensures Subsequence(Without(l, id), l)
    ensures forall a :: a in Without(l, id) <==> a in l && a.id != id
    ensures |Without(l, id)| == |l| - Count((a: Analysis<A>) => a.id == id, l)
  {
    FilterIsSubsequence((a: Analysis<A>) => a.id != id, l);
    WithoutLength(l, id);
  }

  lemma {:induction false} WithoutLength<A(!new)>(l: seq<Analysis<A>>, id: string)
    ensures |Without(l, id)| == |l| - Count((a: Analysis<A>) => a.id == id, l)
    decreases |l|
  {
    if l != [] {
      WithoutLength(l[1..], id);
    }
  }

  /** Deleting a record just saved under a new id gives back the list as
      it was before the save. */
  lemma DeleteUndoesSave<A(!new)>(l: seq<Analysis<A>>, x: Analysis<A>)
    requires forall a :: a in l ==> a.id != x.id
    ensures Without([x] + l, x.id) == l
  {
    assert ([x] + l)[1..] == l;
    FilterAll((a: Analysis<A>) => a.id != x.id, l);
  }

  class History<A(==,!new)> {
    var analyses: seq<Analysis<A>>
    var loading: bool

    constructor ()
      ensures analyses == [] && loading
    {
      analyses := [];
      loading := true;
    }

    /** The effect on the user: signed out, the list is cleared; signed in,
        it is fetched, and `rows` is the query's answer (`None` when it
        failed, which leaves the list). Loading ends either way. */
    method UserChanged(user: Option<string>, rows: Option<seq<Analysis<A>>>)
      modifies this
      ensures user.None? ==> analyses == []
      ensures user.Some? ==> analyses == if rows.Some? then rows.value else old(analyses)
      ensures !loading
    {
      if user.None? {
        analyses := [];
      } else if rows.Some? {
        analyses := rows.value;
      }
      loading := false;
    }

    /** `saveAnalysis`: without a user nothing is sent and the result is
        `None`; otherwise the payload is sent, and the row the insert gives
        back (`inserted`, `None` when it failed) is prepended and
        returned. */
    method SaveAnalysis(user: Option<string>, category: string, fileName: string, analysis: A,
                        confidence: Option<int>, language: Language, fileUrl: Option<string>,
                        inserted: Option<Analysis<A>>)
      returns (sent: Option<NewAnalysis<A>>, saved: Option<Analysis<A>>)
      modifies this
      ensures user.None? ==> sent.None? && saved.None? && analyses == old(analyses)
      ensures user.Some? ==> sent == Some(InsertPayload(user.value, category, fileName, analysis, confidence, language, fileUrl))
      ensures user.Some? ==> saved == inserted
      ensures analyses == if saved.Some? then [saved.value] + old(analyses) else old(analyses)
      ensures loading == old(loading)
    {
      if user.None? {
        return None, None;
      }
      sent := Some(InsertPayload(user.value, category, fileName, analysis, confidence, language, fileUrl));
      saved := inserted;
      if inserted.Some? {
        analyses := [inserted.value] + analyses;
      }
    }

    /** `deleteAnalysis`: when the delete fails the list stays; otherwise
        every entry with the id leaves it. */
    method DeleteAnalysis(id: string, deleteFails: bool)
      modifies this
      ensures analyses == if deleteFails then old(analyses) else Without(old(analyses), id)
      ensures forall a :: a in analyses ==> a in old(analyses)
      ensures !deleteFails ==> forall a :: a in analyses ==> a.id != id
      ensures loading == old(loading)
    {
      if !deleteFails {
        analyses := Without(analyses, id);
      }
    }
  }
}
