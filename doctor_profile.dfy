/** A doctor's profile page with its booking panel (src/components/
    PatientPortal/DoctorProfile.tsx): the slots the server offers for the
    selected date, the slot and booking buttons, and the booking, which
    inserts one appointment row and re-reads the slots. The slot rows are
    an input: they come from a database function whose body is not part of
    this model. */
module DoctorProfile {
  import opened Wrappers
  import BookAppointment

  datatype Doctor = Doctor(id: string, fullName: string, specialization: string, email: Option<string>)

  /** A row of `get_available_slots`. */
  datatype TimeSlot = TimeSlot(slotTime: string, isAvailable: bool)

  /** The record of a booking (lines 112-120): no notes, a fee of 100
      (10000 cents). */
  function ProfileBooking(doctorId: string, patientId: string, date: string, time: string)
    : (r: BookAppointment.NewAppointment)
    ensures r.status == "pending" && r.feeCents == 10000 && r.consultationType == "video" && r.notes.None?
    ensures r.doctorId == doctorId && r.patientId == patientId && r.date == date && r.time == time
  {
    BookAppointment.NewAppointment(doctorId, patientId, date, time, "pending", None, 10000, "video")
  }

  /** The two booking screens write the same kind of record: they differ
      only in the fee (50 and 100) and in the notes, which only the form
      sends. */
  lemma BookingScreensAgree(d: BookAppointment.Doctor, patientId: string, date: string, time: string, notes: string)
    ensures var a := BookAppointment.BookingRecord(d, patientId, date, time, notes);
      var b := ProfileBooking(d.id, patientId, date, time);
      a.(feeCents := b.feeCents, notes := b.notes) == b && a.feeCents == 5000 && b.feeCents == 10000
  {
  }

  /** A slot button is disabled exactly when the slot is taken (line 243). */
  predicate SlotDisabled(s: TimeSlot) {
    !s.isAvailable
  }

  /** The book button is disabled without a slot or while a booking runs
      (line 260). */
  predicate BookDisabled(selectedSlot: string, bookingLoading: bool) {
    selectedSlot == "" || bookingLoading
  }

  /** The slot list a fetch leaves: the rows, or none when the call failed
      (`data || []`, and the catch). */
  function FetchedSlots(fetched: Option<seq<TimeSlot>>): (r: seq<TimeSlot>)
    ensures fetched.None? ==> r == []
    ensures fetched.Some? ==> r == fetched.value
  {
    fetched.GetOr([])
  }

  /** A time among the slots that can be booked. */
  predicate Bookable(slots: seq<TimeSlot>, time: string) {
    exists s :: s in slots && s.slotTime == time && !SlotDisabled(s)
  }

  /** The times a fetch leaves bookable are exactly the available slots'
      times among the rows, and none after a failed call. */
  lemma BookableAfterFetch(fetched: Option<seq<TimeSlot>>, time: string)
    ensures Bookable(FetchedSlots(fetched), time) <==>
      fetched.Some? && exists s :: s in fetched.value && s.slotTime == time && s.isAvailable
  {
  }

  /** When the slots' times are distinct, a taken slot's time cannot be
      picked: its button is the only one for that time, and it is
      disabled. */
  lemma TakenSlotNotBookable(slots: seq<TimeSlot>, s: TimeSlot)
    requires s in slots && SlotDisabled(s)
    requires forall t :: t in slots && t.slotTime == s.slotTime ==> t == s
    ensures !Bookable(slots, s.slotTime)
  {
  }

  class Profile {
    var doctor: Option<Doctor>
    var selectedDate: string
    var availableSlots: seq<TimeSlot>
    var selectedSlot: string
    var loading: bool
    var bookingLoading: bool

    constructor (today: string)
      ensures doctor == None && selectedDate == today && availableSlots == [] && selectedSlot == ""
      ensures loading && !bookingLoading
    {
      doctor := None;
      selectedDate := today;
      availableSlots := [];
      selectedSlot := "";
      loading := true;
      bookingLoading := false;
    }

    /** `fetchDoctorProfile`: the doctor row, or nothing when the query
        failed (`None`); loading ends either way. */
    method FetchDoctorProfile(data: Option<Doctor>)
      modifies this
      ensures doctor == if data.Some? then data else old(doctor)
      ensures !loading
      ensures selectedDate == old(selectedDate) && availableSlots == old(availableSlots)
        && selectedSlot == old(selectedSlot) && bookingLoading == old(bookingLoading)
    {
      if data.Some? {
        doctor := data;
      }
      loading := false;
    }

    /** `fetchAvailableSlots`. Without a doctor nothing happens; otherwise
        the slot list becomes the rows fetched, or empty when the call
        failed. */
    method FetchAvailableSlots(fetched: Option<seq<TimeSlot>>)
      modifies this
      ensures availableSlots == if old(doctor).Some? then FetchedSlots(fetched) else old(availableSlots)
      ensures doctor == old(doctor) && selectedDate == old(selectedDate) && selectedSlot == old(selectedSlot)
        && loading == old(loading) && bookingLoading == old(bookingLoading)
    {
      if doctor.None? {
        return;
      }
      if fetched.Some? {
        availableSlots := fetched.value;
      } else {
        availableSlots := [];
      }
    }

    /** Picking a date: the effect re-reads the slots when there is a
        doctor. The selected time is kept, so it may name a time that the
        new date does not offer. */
    method SetDate(date: string, fetched: Option<seq<TimeSlot>>)
      modifies this
      ensures selectedDate == date && selectedSlot == old(selectedSlot)
      ensures availableSlots == if old(doctor).Some? then FetchedSlots(fetched) else old(availableSlots)
      ensures doctor == old(doctor) && loading == old(loading) && bookingLoading == old(bookingLoading)
    {
      selectedDate := date;
      FetchAvailableSlots(fetched);
    }

    /** Clicking a slot button, which only an available slot allows. */
    method SelectSlot(s: TimeSlot)
      requires s in availableSlots && !SlotDisabled(s)
      modifies this
      ensures selectedSlot == s.slotTime && Bookable(availableSlots, selectedSlot)
      ensures s.slotTime != "" ==> (BookDisabled(selectedSlot, bookingLoading) <==> bookingLoading)
      ensures doctor == old(doctor) && selectedDate == old(selectedDate) && availableSlots == old(availableSlots)
        && loading == old(loading) && bookingLoading == old(bookingLoading)
    {
      selectedSlot := s.slotTime;
    }

    /** `bookAppointment`. Without a doctor and a time nothing happens;
        without a user nothing is inserted; otherwise the record is sent,
        and when the insert succeeds the time is cleared and the slots are
        re-read (`refetched`). `sent` is the record given to the insert. */
    method BookAppointment(user: Option<string>, insertFails: bool, refetched: Option<seq<TimeSlot>>)
      returns (sent: Option<BookAppointment.NewAppointment>)
      modifies this
      ensures old(doctor).None? || old(selectedSlot) == "" || user.None? ==>
        (sent.None? && selectedSlot == old(selectedSlot) && availableSlots == old(availableSlots))
      ensures old(doctor).Some? && old(selectedSlot) != "" && user.Some? ==>
        sent == Some(ProfileBooking(old(doctor).value.id, user.value, old(selectedDate), old(selectedSlot)))
      ensures sent.Some? && !insertFails ==> (selectedSlot == "" && availableSlots == FetchedSlots(refetched))
      ensures sent.Some? && insertFails ==> (selectedSlot == old(selectedSlot) && availableSlots == old(availableSlots))
      ensures old(doctor).Some? && !BookDisabled(old(selectedSlot), old(bookingLoading)) && user.Some? ==> sent.Some?
      ensures sent.Some? && !insertFails ==> BookDisabled(selectedSlot, bookingLoading)
      ensures old(doctor).Some? && old(selectedSlot) != "" ==> !bookingLoading
      ensures old(doctor).None? || old(selectedSlot) == "" ==> bookingLoading == old(bookingLoading)
      ensures doctor == old(doctor) && selectedDate == old(selectedDate) && loading == old(loading)
    {
      if doctor.None? || selectedSlot == "" {
        return None;
      }
      bookingLoading := true;
      if user.None? {
        sent := None;
      } else {
        sent := Some(ProfileBooking(doctor.value.id, user.value, selectedDate, selectedSlot));
        if !insertFails {
          selectedSlot := "";
          FetchAvailableSlots(refetched);
        }
      }
      bookingLoading := false;
    }
  }
}
