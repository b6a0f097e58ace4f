/** How a booking made on either patient screen (src/components/
    PatientPortal/BookAppointment.tsx, src/components/PatientPortal/
    DoctorProfile.tsx) appears to the doctor (src/components/DoctorPortal/
    AppointmentCalendar.tsx) and to the patient (src/components/
    PatientPortal/MyAppointments.tsx), once the table holds its row. */
module Bookings {
  import opened Wrappers
  import opened Lists
  import opened Text
  import BookAppointment
  import DoctorProfile
  import AppointmentCalendar
  import MyAppointments

  /** The row the doctor's calendar reads for an inserted booking; `id` is
      the key the table gives it and `profile` the patient's profile. */
  function CalendarRow(b: BookAppointment.NewAppointment, id: string, profile: Option<AppointmentCalendar.Profile>)
    : AppointmentCalendar.Row
  {
    AppointmentCalendar.Row(id, b.patientId, b.doctorId, b.date, b.time, b.status, b.notes, profile)
  }

  /** The row the patient's list reads for it, before any doctor action. */
  function PatientRow(b: BookAppointment.NewAppointment, id: string, doctor: Option<MyAppointments.Doctor>)
    : MyAppointments.Row
  {
    MyAppointments.Row(id, b.doctorId, b.date, b.time, b.status, b.notes, Some(b.feeCents), None, None, None, doctor)
  }

  /** Both screens book with status "pending". */
  lemma BothScreensBookPending(d: BookAppointment.Doctor, doctorId: string, patientId: string, date: string,
                               time: string, notes: string)
    ensures BookAppointment.BookingRecord(d, patientId, date, time, notes).status == "pending"
    ensures DoctorProfile.ProfileBooking(doctorId, patientId, date, time).status == "pending"
  {
  }

  /** A pending booking added to the table shows in its doctor's list for
      its date, offering Confirm and Cancel. */
  lemma PendingBookingOnCalendar(rows: seq<AppointmentCalendar.Row>, b: BookAppointment.NewAppointment, id: string,
                                 profile: Option<AppointmentCalendar.Profile>)
    requires b.status == "pending"
    ensures var row := CalendarRow(b, id, profile);
      AppointmentCalendar.Transform(row) in AppointmentCalendar.DayList(rows + [row], b.doctorId, b.date)
      && AppointmentCalendar.OfferedStatuses(AppointmentCalendar.Transform(row).status) == ["confirmed", "cancelled"]
  {
    var row := CalendarRow(b, id, profile);
    var day := Filter(r => AppointmentCalendar.OnDay(b.doctorId, b.date, r), rows + [row]);
    AppointmentCalendar.DayListContents(rows + [row], b.doctorId, b.date);
    assert row in rows + [row];
    var j :| 0 <= j < |day| && day[j] == row;
    MapEach(AppointmentCalendar.Transform, day);
    assert AppointmentCalendar.DayList(rows + [row], b.doctorId, b.date)[j] == AppointmentCalendar.Transform(row);
  }

  /** In the patient's list the same booking shows under the all tab only,
      the pending tab looking for "scheduled". */
  lemma PendingBookingInPatientList(b: BookAppointment.NewAppointment, id: string, doctor: Option<MyAppointments.Doctor>)
    requires b.status == "pending"
    ensures forall t :: MyAppointments.ShownIn(t, MyAppointments.Transform(PatientRow(b, id, doctor))) <==> t == MyAppointments.All
  {
    var a := MyAppointments.Transform(PatientRow(b, id, doctor));
    forall t ensures MyAppointments.ShownIn(t, a) <==> t == MyAppointments.All {
      MyAppointments.PendingOnlyUnderAll(t, a);
    }
  }
}
