/** The doctor's appointment calendar (src/components/DoctorPortal/
    AppointmentCalendar.tsx): the day's list, the actions each status
    offers and the status write. The appointments table is an input: the
    write returns the table it leaves, and the list is re-read from it. */
module AppointmentCalendar {
  import opened Wrappers
  import opened Lists
  import opened Text

  /** A row of the appointments table with the patient's profile joined. */
  datatype Profile = Profile(fullName: Option<string>, email: Option<string>)
  datatype Row = Row(
    id: string, patientId: string, doctorId: string, date: string, time: string,
    status: string, notes: Option<string>, profile: Option<Profile>)

  /** An appointment as the calendar shows it. */
  datatype Appointment = Appointment(
    id: string, patientId: string, date: string, time: string, status: string,
    notes: string, patientName: string, patientEmail: string)

  function ProfileName(r: Row): Option<string> {
    if r.profile.Some? then r.profile.value.fullName else None
  }

  function ProfileEmail(r: Row): Option<string> {
    if r.profile.Some? then r.profile.value.email else None
  }

  /** The row transform: the table's fields are copied, and missing notes,
      names and e-mail addresses get their defaults. */
  function Transform(r: Row): (a: Appointment)
    ensures a.id == r.id && a.patientId == r.patientId && a.date == r.date
      && a.time == r.time && a.status == r.status
    ensures a.patientName != ""
    ensures Truthy(ProfileName(r)) ==> a.patientName == ProfileName(r).value
    ensures !Truthy(ProfileName(r)) ==> a.patientName == "Unknown Patient"
    ensures Truthy(r.notes) ==> a.notes == r.notes.value
    ensures !Truthy(r.notes) ==> a.notes == ""
    ensures Truthy(ProfileEmail(r)) ==> a.patientEmail == ProfileEmail(r).value
    ensures !Truthy(ProfileEmail(r)) ==> a.patientEmail == ""
  {
    Appointment(r.id, r.patientId, r.date, r.time, r.status,
      OrElse(r.notes, ""), OrElse(ProfileName(r), "Unknown Patient"), OrElse(ProfileEmail(r), ""))
  }

  /** The query: the doctor's appointments on the selected date. */
  predicate OnDay(doctorId: string, date: string, r: Row) {
    r.doctorId == doctorId && r.date == date
  }

  function DayList(rows: seq<Row>, doctorId: string, date: string): (l: seq<Appointment>)
  {
    Map(Transform, Filter(r => OnDay(doctorId, date, r), rows))
  }

  /** The day's list shows exactly the doctor's rows of that date, in the
      table's order, each with a patient name. */
  lemma DayListContents(rows: seq<Row>, doctorId: string, date: string)
    ensures var day := Filter(r => OnDay(doctorId, date, r), rows);
      Subsequence(day, rows)
      && (forall r :: r in day <==> r in rows && r.doctorId == doctorId && r.date == date)
      && DayList(rows, doctorId, date) == Map(Transform, day)
    ensures forall a :: a in DayList(rows, doctorId, date) ==> a.date == date && a.patientName != ""
  {
    FilterIsSubsequence(r => OnDay(doctorId, date, r), rows);
    var day := Filter(r => OnDay(doctorId, date, r), rows);
    MapEach(Transform, day);
    forall a | a in DayList(rows, doctorId, date) ensures a.date == date && a.patientName != "" {
      var j :| 0 <= j < |day| && Map(Transform, day)[j] == a;
      assert day[j] in day;
    }
  }

  // ---------------------------------------------------------------- actions

  /** The statuses the buttons of an appointment write (lines 195-235):
      Confirm and Cancel for a pending appointment, Mark Complete for a
      confirmed one, none for every other status. */
  function OfferedStatuses(status: string): (r: seq<string>)
    ensures r != [] <==> status == "pending" || status == "confirmed"
    ensures "pending" !in r
    ensures status != "pending" ==> |r| <= 1
  {
    if status == "pending" then ["confirmed", "cancelled"]
    else if status == "confirmed" then ["completed"]
    else []
  }

  /** "Start Meeting" is shown for a confirmed appointment and only raises a
      notice. */
  predicate OffersStartMeeting(status: string) {
    status == "confirmed"
  }

  /** "Start Meeting" shows exactly beside "Mark Complete": for the one
      status whose only button writes "completed". */
  lemma StartMeetingBesideComplete(status: string)
    ensures OffersStartMeeting(status) <==> OfferedStatuses(status) == ["completed"]
    ensures OffersStartMeeting(status) <==> "completed" in OfferedStatuses(status)
  {
  }

  /** How far along an appointment is: pending, confirmed, then anything
      else. Every button moves an appointment forward. */
  function Stage(status: string): nat {
    if status == "pending" then 0 else if status == "confirmed" then 1 else 2
  }

  lemma ButtonsMoveForward(status: string)
    ensures forall t :: t in OfferedStatuses(status) ==> Stage(status) < Stage(t) <= 2
  {
  }

  /** A sequence of statuses an appointment can go through by the buttons. */
  predicate ButtonRun(run: seq<string>) {
    forall i :: 0 <= i < |run| - 1 ==> run[i + 1] in OfferedStatuses(run[i])
  }

  lemma {:induction false} StageAtLeast(run: seq<string>, i: nat)
    requires ButtonRun(run) && i < |run|
    ensures Stage(run[i]) >= i
    decreases i
  {
    if i > 0 {
      StageAtLeast(run, i - 1);
      ButtonsMoveForward(run[i - 1]);
      assert run[i] in OfferedStatuses(run[i - 1]);
    }
  }

  /** Completed and cancelled are final; a run moves at most twice, from
      pending through confirmed to completed, and never back to pending. */
  lemma ButtonRunsEnd(run: seq<string>)
    requires ButtonRun(run)
    ensures |run| <= 3
    ensures forall i :: 0 < i < |run| ==> run[i] != "pending"
    ensures |run| >= 2 ==> run[0] == "pending" || run[0] == "confirmed"
    ensures |run| == 3 ==> run == ["pending", "confirmed", "completed"]
  {
    forall i | 0 < i < |run| ensures run[i] != "pending" {
      assert run[i] in OfferedStatuses(run[i - 1]);
    }
    if |run| >= 2 {
      var n := |run| - 1;
      StageAtLeast(run, n - 1);
      ButtonsMoveForward(run[n - 1]);
      assert run[n] in OfferedStatuses(run[n - 1]);
    }
    if |run| == 3 {
      assert run[1] in OfferedStatuses(run[0]);
      assert run[2] in OfferedStatuses(run[1]);
    }
  }

  /** The write of `updateAppointmentStatus`: the status of every row with
      the id, whatever that status was. */
  function SetStatus(rows: seq<Row>, id: string, status: string): (r: seq<Row>)
  {
    Map((x: Row) => if x.id == id then x.(status := status) else x, rows)
  }

  /** Only the status of the rows with that id changes. */
  lemma SetStatusChanges(rows: seq<Row>, id: string, status: string)
    ensures var r := SetStatus(rows, id, status);
      |r| == |rows|
      && (forall i :: 0 <= i < |rows| ==> r[i] == rows[i].(status := r[i].status))
      && (forall i :: 0 <= i < |rows| ==> r[i].status == if rows[i].id == id then status else rows[i].status)
  {
    MapEach((x: Row) => if x.id == id then x.(status := status) else x, rows);
  }

  /** The calendar's state. */
  class Calendar {
    var appointments: seq<Appointment>
    var selectedDate: string
    var loading: bool

    constructor (today: string)
      ensures appointments == [] && selectedDate == today && loading
    {
      appointments := [];
      selectedDate := today;
      loading := true;
    }

    /** `fetchAppointments`: without a user or an approved registration
        (`doctorId`) the list stays; otherwise it becomes the day's list of
        the appointments query's `rows`, or stays when that query fails
        (None). Loading ends either way. */
    method FetchAppointments(user: Option<string>, doctorId: Option<string>, rows: Option<seq<Row>>)
      modifies this
      ensures selectedDate == old(selectedDate) && !loading
      ensures appointments == if user.Some? && doctorId.Some? && rows.Some?
        then DayList(rows.value, doctorId.value, selectedDate) else old(appointments)
    {
      if user.Some? && doctorId.Some? && rows.Some? {
        appointments := DayList(rows.value, doctorId.value, selectedDate);
      }
      loading := false;
    }

    /** `updateAppointmentStatus`: writes the status without looking at the
        current one; on success the list is re-read from the written table
        (a re-read that fails keeps the list), on failure table and list
        stay. */
    method UpdateAppointmentStatus(rows: seq<Row>, id: string, status: string, writeFails: bool,
                                   user: Option<string>, doctorId: Option<string>, refetchFails: bool)
      returns (written: seq<Row>)
      modifies this
      ensures written == if writeFails then rows else SetStatus(rows, id, status)
      ensures selectedDate == old(selectedDate)
      ensures writeFails ==> appointments == old(appointments) && loading == old(loading)
      ensures !writeFails ==> !loading && appointments == if user.Some? && doctorId.Some? && !refetchFails
        then DayList(written, doctorId.value, selectedDate) else old(appointments)
    {
      if writeFails {
        written := rows;
      } else {
        written := SetStatus(rows, id, status);
        FetchAppointments(user, doctorId, if refetchFails then None else Some(written));
      }
    }
  }
}
