/** The free-upload counter (src/hooks/useUploadLimit.ts): three uploads
    before the limit, the count mirrored in browser storage. The stored
    value is an input, already parsed to a number. */
module UploadLimit {
  import opened Wrappers

  const FreeUploads := 3

  /** `Math.max(0, 3 - uploadCount)`. */
  function RemainingUploads(count: int): (r: int)
    ensures r >= 0
    ensures count >= 0 ==> r <= FreeUploads
    ensures count <= FreeUploads ==> r == FreeUploads - count
    ensures r == 0 <==> IsFreeLimitReached(count)
  {
    if FreeUploads - count > 0 then FreeUploads - count else 0
  }

  /** `uploadCount >= 3`. */
  predicate IsFreeLimitReached(count: int) {
    count >= FreeUploads
  }

  /** Each upload uses one of the remaining uploads, until none is left. */
  lemma IncrementUsesOne(count: int)
    ensures RemainingUploads(count + 1) == if RemainingUploads(count) > 0 then RemainingUploads(count) - 1 else 0
    ensures IsFreeLimitReached(count) ==> IsFreeLimitReached(count + 1)
  {
  }

  class Counter {
    var uploadCount: int
    /** The `nashmed_upload_count` entry of the browser's storage. */
    var stored: Option<int>

    /** The hook's first render and its effect: a stored count is taken
        over, otherwise the count starts at zero. */
    constructor (saved: Option<int>)
      ensures uploadCount == (if saved.Some? then saved.value else 0) && stored == saved
    {
      uploadCount := if saved.Some? then saved.value else 0;
      stored := saved;
    }

    /** `incrementUploadCount`. */
    method IncrementUploadCount()
      modifies this
      ensures uploadCount == old(uploadCount) + 1 && stored == Some(uploadCount)
      ensures RemainingUploads(uploadCount) == if RemainingUploads(old(uploadCount)) > 0
        then RemainingUploads(old(uploadCount)) - 1 else 0
    {
      var newCount := uploadCount + 1;
      uploadCount := newCount;
      stored := Some(newCount);
    }

    /** `resetUploadCount`. */
    method ResetUploadCount()
      modifies this
      ensures uploadCount == 0 && stored == Some(0)
      ensures RemainingUploads(uploadCount) == FreeUploads && !IsFreeLimitReached(uploadCount)
    {
      uploadCount := 0;
      stored := Some(0);
    }
  }
}
