/** The patient's appointment list (src/components/PatientPortal/
    MyAppointments.tsx): the row transform, the tab filter and the buttons
    each appointment offers. */
module MyAppointments {
  import opened Wrappers
  import opened Lists

  /** A row of the appointments table with the doctor's registration
      joined. */
  datatype Doctor = Doctor(fullName: Option<string>, specialization: Option<string>)
  datatype Row = Row(
    id: string, doctorId: string, date: string, time: string, status: string,
    notes: Option<string>, fee: Option<int>, meetingLink: Option<string>,
    diagnosis: Option<string>, prescription: Option<string>, doctor: Option<Doctor>)

  datatype Appointment = Appointment(
    id: string, doctorId: string, date: string, time: string, status: string,
    notes: string, fee: int, meetingLink: Option<string>,
    diagnosis: Option<string>, prescription: Option<string>,
    doctorName: string, specialization: string)

  function DoctorName(r: Row): Option<string> {
    if r.doctor.Some? then r.doctor.value.fullName else None
  }

  function DoctorSpecialization(r: Row): Option<string> {
    if r.doctor.Some? then r.doctor.value.specialization else None
  }

  /** `consultation_fee || 0`: a missing fee (and a zero one) shows as 0. */
  function FeeOrZero(fee: Option<int>): (f: int)
    ensures fee.Some? ==> f == fee.value
    ensures fee.None? ==> f == 0
  {
    if fee.Some? && fee.value != 0 then fee.value else 0
  }

  /** The row transform (lines 54-67). */
  function Transform(r: Row): (a: Appointment)
    ensures a.id == r.id && a.doctorId == r.doctorId && a.date == r.date && a.time == r.time
      && a.status == r.status && a.meetingLink == r.meetingLink
      && a.diagnosis == r.diagnosis && a.prescription == r.prescription
    ensures a.notes == (if Truthy(r.notes) then r.notes.value else "")
    ensures a.fee == (if r.fee.Some? then r.fee.value else 0)
    ensures a.doctorName != ""
    ensures a.doctorName == (if Truthy(DoctorName(r)) then DoctorName(r).value else "Unknown Doctor")
    ensures a.specialization == (if Truthy(DoctorSpecialization(r)) then DoctorSpecialization(r).value else "")
  {
    Appointment(r.id, r.doctorId, r.date, r.time, r.status,
      OrElse(r.notes, ""), FeeOrZero(r.fee), r.meetingLink, r.diagnosis, r.prescription,
      OrElse(DoctorName(r), "Unknown Doctor"), OrElse(DoctorSpecialization(r), ""))
  }

  // ---------------------------------------------------------------- tabs

  datatype Tab = All | Pending | Confirmed | Completed | Cancelled

  function TabName(t: Tab): string {
    match t
    case All => "all"
    case Pending => "pending"
    case Confirmed => "confirmed"
    case Completed => "completed"
    case Cancelled => "cancelled"
  }

  /** The filter predicate of lines 114-118: the pending tab looks for the
      status "scheduled". */
  predicate ShownIn(t: Tab, a: Appointment) {
    if t == All then true
    else if t == Pending then a.status == "scheduled"
    else a.status == TabName(t)
  }

  function FilteredAppointments(t: Tab, l: seq<Appointment>): (r: seq<Appointment>)
  {
    Filter(a => ShownIn(t, a), l)
  }

  /** The all tab shows the list as it is. */
  lemma AllTabUnchanged(l: seq<Appointment>)
    ensures FilteredAppointments(All, l) == l
  {
    FilterAll(a => ShownIn(All, a), l);
  }

  /** Every other tab shows, in order, exactly the appointments of its
      status, where the pending tab's status is "scheduled". */
  lemma TabShows(t: Tab, l: seq<Appointment>)
    requires t != All
    ensures var r := FilteredAppointments(t, l);
      var status := if t == Pending then "scheduled" else TabName(t);
      Subsequence(r, l) && forall a :: a in r <==> a in l && a.status == status
  {
    FilterIsSubsequence(a => ShownIn(t, a), l);
  }

  /** An appointment with status "pending", which is what both booking
      screens write, appears under the all tab and under no other. */
  lemma PendingOnlyUnderAll(t: Tab, a: Appointment)
    requires a.status == "pending"
    ensures ShownIn(t, a) <==> t == All
  {
  }

  // ---------------------------------------------------------------- buttons

  /** "Join Meeting" (line 222). */
  predicate OffersJoin(a: Appointment) {
    a.status == "confirmed"
  }

  /** "View Records" (line 232): a completed appointment with a diagnosis
      or a prescription. */
  predicate OffersRecords(a: Appointment) {
    a.status == "completed" && (Truthy(a.diagnosis) || Truthy(a.prescription))
  }

  /** No appointment offers both buttons, and an appointment in any other
      status offers neither. */
  lemma ButtonsExclusive(a: Appointment)
    ensures !(OffersJoin(a) && OffersRecords(a))
    ensures a.status != "confirmed" && a.status != "completed" ==> !OffersJoin(a) && !OffersRecords(a)
  {
  }

  /** What `joinMeeting` does: open the link, or tell that there is none. */
  datatype JoinOutcome = OpenWindow(url: string) | LinkMissing

  /** `joinMeeting(appointment.meeting_link || '')`. */
  function JoinMeeting(a: Appointment): (o: JoinOutcome)
    ensures o.OpenWindow? <==> Truthy(a.meetingLink)
    ensures o.OpenWindow? ==> o.url == a.meetingLink.value && o.url != ""
  {
    var link := OrElse(a.meetingLink, "");
    if link != "" then OpenWindow(link) else LinkMissing
  }
}
