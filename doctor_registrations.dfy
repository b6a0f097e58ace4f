/** The administrator's review of doctor registrations (src/components/
    AdminPortal/DoctorRegistrations.tsx): the update an approval or a
    rejection writes, the notification it sends the doctor, and the
    screen's selection state. The registrations table is an input; the
    writes are returned as values. The review time is left out. */
module DoctorRegistrations {
  import opened Wrappers
  import opened Text
  import opened Lists

  datatype Registration = Registration(
    id: string, userId: string, fullName: string, specialization: string,
    status: string, rejectionReason: Option<string>)

  /** The `updateData` object, without `reviewed_at`. */
  datatype Update = Update(status: string, reviewedBy: string, rejectionReason: Option<string>)

  /** A row for the notifications table; `kind` is its `type`. */
  datatype Notification = Notification(userId: string, title: string, message: string, kind: string)

  /** Lines 64-72: the new status and the reviewer, and a rejection's reason
      when it is not blank, trimmed. */
  function UpdateData(approve: bool, reviewer: string, reason: string): (u: Update)
    ensures u.status == (if approve then "approved" else "rejected") && u.reviewedBy == reviewer
    ensures u.rejectionReason.Some? <==> !approve && Trim(JavaScript, reason) != ""
    ensures u.rejectionReason.Some? ==> u.rejectionReason.value == Trim(JavaScript, reason)
  {
    var trimmed := Trim(JavaScript, reason);
    Update(if approve then "approved" else "rejected", reviewer,
      if !approve && trimmed != "" then Some(trimmed) else None)
  }

  /** A stored reason has no whitespace at either end. */
  lemma StoredReasonTrimmed(approve: bool, reviewer: string, reason: string)
    ensures var u := UpdateData(approve, reviewer, reason);
      u.rejectionReason.Some? ==>
        (var t := u.rejectionReason.value;
         t != "" && !IsSpace(JavaScript, t[0]) && !IsSpace(JavaScript, t[|t| - 1])
         && forall c :: c in t ==> c in reason)
  {
    TrimFacts(JavaScript, reason);
  }

  const ApprovedMessage := "Congratulations! Your doctor registration has been approved. "
    + "You can now access all doctor portal features."

  const RejectedMessage := "Your doctor registration was rejected. "

  /** The notification of lines 86-93. The message takes the reason as
      typed, untrimmed. */
  function NotificationFor(r: Registration, approve: bool, reason: string): (n: Notification)
    ensures n.userId == r.userId
    ensures n.title == if approve then "Registration Approved" else "Registration Rejected"
    ensures n.kind == if approve then "success" else "error"
    ensures approve ==> n.message == ApprovedMessage
    ensures !approve ==> n.message == RejectedMessage + (if reason != "" then "Reason: " + reason else "")
  {
    Notification(r.userId, "Registration " + (if approve then "Approved" else "Rejected"),
      if approve then ApprovedMessage
      else RejectedMessage + (if reason != "" then "Reason: " + reason else ""),
      if approve then "success" else "error")
  }

  /** The notification agrees with the update: success for an approval,
      error for a rejection. */
  lemma NotificationMatchesUpdate(r: Registration, approve: bool, reviewer: string, reason: string)
    ensures var u := UpdateData(approve, reviewer, reason);
      var n := NotificationFor(r, approve, reason);
      (n.kind == "success" <==> u.status == "approved") && (n.kind == "error" <==> u.status == "rejected")
  {
  }

  /** A reason made only of whitespace is not stored, yet the message still
      carries "Reason: " followed by it. */
  lemma BlankReasonOnlyInMessage(r: Registration, reviewer: string, reason: string)
    requires reason != "" && forall i :: 0 <= i < |reason| ==> IsSpace(JavaScript, reason[i])
    ensures UpdateData(false, reviewer, reason).rejectionReason.None?
    ensures NotificationFor(r, false, reason).message == RejectedMessage + "Reason: " + reason
  {
    TrimFacts(JavaScript, reason);
  }

  /** Approve and Reject are offered for a pending registration only. */
  predicate OffersReview(r: Registration) {
    r.status == "pending"
  }

  /** A review moves a registration to approved or rejected, so the
      reviewed registration is no longer offered for review. */
  lemma ReviewClosesReview(r: Registration, approve: bool, reviewer: string, reason: string)
    ensures !OffersReview(r.(status := UpdateData(approve, reviewer, reason).status))
  {
  }

  /** `registrations.find(r => r.id === registrationId)`: a registration
      with that id, or None when none has it. */
  function FindRegistration(regs: seq<Registration>, id: string): (r: Option<Registration>)
    ensures r.Some? ==> r.value in regs && r.value.id == id
    ensures r.None? <==> forall x :: x in regs ==> x.id != id
  {
    Find((x: Registration) => x.id == id, regs)
  }

  /** The registration found is the first one with that id. */
  lemma FoundIsFirst(regs: seq<Registration>, id: string)
    requires FindRegistration(regs, id).Some?
    ensures exists i :: (0 <= i < |regs| && regs[i] == FindRegistration(regs, id).value
                         && forall j :: 0 <= j < i ==> regs[j].id != id)
  {
    var p := (x: Registration) => x.id == id;
    assert FindRegistration(regs, id) == Find(p, regs);
  }

  class Review {
    var registrations: seq<Registration>
    var loading: bool
    var selected: Option<Registration>
    var rejectionReason: string
    var actionLoading: bool

    constructor ()
      ensures registrations == [] && loading && selected == None && rejectionReason == "" && !actionLoading
    {
      registrations := [];
      loading := true;
      selected := None;
      rejectionReason := "";
      actionLoading := false;
    }

    /** `fetchRegistrations`: the rows, or the old list when the query
        failed (`None`). */
    method FetchRegistrations(data: Option<seq<Registration>>)
      modifies this
      ensures registrations == if data.Some? then data.value else old(registrations)
      ensures !loading
      ensures selected == old(selected) && rejectionReason == old(rejectionReason)
        && actionLoading == old(actionLoading)
    {
      if data.Some? {
        registrations := data.value;
      }
      loading := false;
    }

    /** The Reject button opens the rejection dialog for a pending
        registration. */
    method OpenRejection(r: Registration)
      requires r in registrations && OffersReview(r)
      modifies this
      ensures selected == Some(r)
      ensures registrations == old(registrations) && loading == old(loading)
        && rejectionReason == old(rejectionReason) && actionLoading == old(actionLoading)
    {
      selected := Some(r);
    }

    /** The dialog's Cancel button. */
    method CancelRejection()
      modifies this
      ensures selected == None && rejectionReason == ""
      ensures registrations == old(registrations) && loading == old(loading) && actionLoading == old(actionLoading)
    {
      selected := None;
      rejectionReason := "";
    }

    /** `handleApproval`. Without a user nothing happens. Otherwise the
        update is written; when it fails nothing else happens. When it
        succeeds the doctor is notified if the registration is in the list,
        the dialog is cleared and the list is re-read (`refetched`). */
    method HandleApproval(user: Option<string>, id: string, approve: bool, updateFails: bool,
                          refetched: Option<seq<Registration>>)
      returns (update: Option<Update>, note: Option<Notification>)
      modifies this
      ensures user.None? ==> (update.None? && note.None? && registrations == old(registrations)
        && selected == old(selected) && rejectionReason == old(rejectionReason)
        && actionLoading == old(actionLoading))
      ensures user.Some? ==> update == Some(UpdateData(approve, user.value, old(rejectionReason))) && !actionLoading
      ensures user.Some? && updateFails ==> (note.None? && registrations == old(registrations)
        && selected == old(selected) && rejectionReason == old(rejectionReason))
      ensures user.Some? && !updateFails ==>
        (var r := FindRegistration(old(registrations), id);
         note == (if r.Some? then Some(NotificationFor(r.value, approve, old(rejectionReason))) else None)
         && selected == None && rejectionReason == ""
         && registrations == if refetched.Some? then refetched.value else old(registrations))
      ensures loading == if user.Some? && !updateFails then false else old(loading)
      ensures note.Some? ==> exists r :: r in old(registrations) && r.id == id && note.value.userId == r.userId
    {
      if user.None? {
        return None, None;
      }
      actionLoading := true;
      update := Some(UpdateData(approve, user.value, rejectionReason));
      note := None;
      if !updateFails {
        var r := FindRegistration(registrations, id);
        note := if r.Some? then Some(NotificationFor(r.value, approve, rejectionReason)) else None;
        selected := None;
        rejectionReason := "";
        FetchRegistrations(refetched);
      }
      actionLoading := false;
    }
  }
}
