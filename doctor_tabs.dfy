/** The doctor portal's gate (src/components/DoctorPortal/DoctorTabs.tsx):
    which view a doctor sees, chosen by the registration on file. The
    registration query is an input. */
module DoctorTabs {
  import opened Wrappers
  import DoctorRegistrations

  /** The columns the gate reads. */
  datatype Registration = Registration(id: string, status: string, rejectionReason: Option<string>, createdAt: string)

  datatype View =
    | LoadingView
    | RegistrationForm
    | StatusView(status: string, rejectionReason: Option<string>, submittedAt: string)
    | Portal(tabs: seq<string>)

  /** The tabs of the full portal, in order; appointments is the default. */
  const PortalTabs := ["appointments", "availability", "dashboard", "schedule", "queue", "profile"]

  /** Whether a registration still keeps the doctor out of the portal. */
  predicate UnderReview(r: Registration) {
    r.status == "pending" || r.status == "rejected"
  }

  /** The render of lines 54-110. */
  function ViewFor(loading: bool, registration: Option<Registration>): (v: View)
    ensures v.LoadingView? <==> loading
    ensures v.RegistrationForm? <==> !loading && registration.None?
    ensures v.StatusView? <==> !loading && registration.Some? && UnderReview(registration.value)
    ensures v.StatusView? ==> (v.status == registration.value.status
      && v.rejectionReason == registration.value.rejectionReason && v.submittedAt == registration.value.createdAt)
    ensures v.Portal? ==> v.tabs == PortalTabs
  {
    if loading then LoadingView
    else if registration.None? then RegistrationForm
    else if UnderReview(registration.value) then
      StatusView(registration.value.status, registration.value.rejectionReason, registration.value.createdAt)
    else Portal(PortalTabs)
  }

  /** The portal opens for every status but pending and rejected, so also
      for one the review never writes. */
  lemma PortalFor(loading: bool, registration: Option<Registration>)
    ensures ViewFor(loading, registration).Portal? <==>
      (!loading && registration.Some? && registration.value.status != "pending"
       && registration.value.status != "rejected")
  {
  }

  /** The gate's state. */
  datatype Gate = Gate(registration: Option<Registration>, loading: bool)

  const Initial := Gate(None, true)

  /** `checkRegistrationStatus`: without a user nothing happens; otherwise
      the registration becomes the row found (`Some(None)` when there is
      none), or stays when the query failed (`None`), and loading ends. The
      registration form's completion runs the same check. */
  function Check(g: Gate, user: Option<string>, result: Option<Option<Registration>>): (h: Gate)
    ensures user.None? ==> h == g
    ensures user.Some? ==> !h.loading
    ensures user.Some? && result.Some? ==> h.registration == result.value
    ensures result.None? ==> h.registration == g.registration
  {
    if user.None? then g
    else Gate(if result.Some? then result.value else g.registration, false)
  }

  /** Until a check has run for a signed-in user only the loading view
      shows; after it, the view is decided by the row found. */
  lemma CheckDecidesView(user: Option<string>, result: Option<Option<Registration>>)
    ensures var g := Check(Initial, user, result);
      var v := ViewFor(g.loading, g.registration);
      (user.None? ==> v == LoadingView)
      && (user.Some? && result.Some? && result.value.None? ==> v == RegistrationForm)
      && (user.Some? && result.None? ==> v == RegistrationForm)
  {
  }

  /** After the review writes its update, a doctor who is approved sees the
      portal and one who is rejected sees the status view with the reason
      the row then holds: the update's reason when it carries one, the old
      one otherwise, since the update only writes the fields it names. */
  lemma ReviewOpensPortal(r: Registration, approve: bool, reviewer: string, reason: string)
    ensures var u := DoctorRegistrations.UpdateData(approve, reviewer, reason);
      var stored := if u.rejectionReason.Some? then u.rejectionReason else r.rejectionReason;
      var reviewed := r.(status := u.status, rejectionReason := stored);
      var v := ViewFor(false, Some(reviewed));
      (v.Portal? <==> approve) && (!approve ==> v == StatusView("rejected", stored, r.createdAt))
  {
  }
}
