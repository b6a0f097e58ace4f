/** The patient's booking form (src/components/PatientPortal/
    BookAppointment.tsx): the specialty filter over the approved doctors,
    the fixed list of times, and the booking, which inserts one
    appointment row. */
module BookAppointment {
  import opened Wrappers
  import opened Text
  import opened Lists

  datatype Doctor = Doctor(id: string, fullName: string, specialization: string, specialtyName: Option<string>)

  /** The row a booking inserts into the appointments table. */
  datatype NewAppointment = NewAppointment(
    doctorId: string, patientId: string, date: string, time: string, status: string,
    notes: Option<string>, feeCents: int, consultationType: string)

  /** The times offered on every date (lines 44-47). */
  const AvailableSlots := ["09:00", "09:30", "10:00", "10:30", "11:00", "11:30",
                           "14:00", "14:30", "15:00", "15:30", "16:00", "16:30"]

  predicate IsDigit(c: char) {
    '0' <= c <= '9'
  }

  function DigitValue(c: char): int {
    c as int - '0' as int
  }

  /** A time written `HH:MM`. */
  predicate IsClockTime(t: string) {
    |t| == 5 && IsDigit(t[0]) && IsDigit(t[1]) && t[2] == ':' && IsDigit(t[3]) && IsDigit(t[4])
  }

  /** Minutes since midnight of an `HH:MM` time. */
  function Minutes(t: string): int
    requires IsClockTime(t)
  {
    (DigitValue(t[0]) * 10 + DigitValue(t[1])) * 60 + DigitValue(t[3]) * 10 + DigitValue(t[4])
  }

  lemma SlotMinutes()
    ensures forall i :: 0 <= i < |AvailableSlots| ==> IsClockTime(AvailableSlots[i])
    ensures Minutes(AvailableSlots[0]) == 540 && Minutes(AvailableSlots[5]) == 690
    ensures Minutes(AvailableSlots[6]) == 840 && Minutes(AvailableSlots[11]) == 990
    ensures forall i :: 0 <= i < |AvailableSlots| - 1 ==> Minutes(AvailableSlots[i]) + 30 <= Minutes(AvailableSlots[i + 1])
  {
  }

  /** Twelve times, in increasing order, so no time appears twice. */
  lemma SlotsAscending()
    ensures |AvailableSlots| == 12
    ensures forall i, j :: 0 <= i < j < |AvailableSlots| ==> Minutes(AvailableSlots[i]) < Minutes(AvailableSlots[j])
    ensures forall i, j :: 0 <= i < j < |AvailableSlots| ==> AvailableSlots[i] != AvailableSlots[j]
  {
    SlotMinutes();
    forall i, j | 0 <= i < j < |AvailableSlots|
      ensures Minutes(AvailableSlots[i]) < Minutes(AvailableSlots[j])
    {
      StepsAdd(i, j);
    }
  }

  lemma {:induction false} StepsAdd(i: nat, j: nat)
    requires i < j < |AvailableSlots|
    requires forall k :: 0 <= k < |AvailableSlots| ==> IsClockTime(AvailableSlots[k])
    requires forall k :: 0 <= k < |AvailableSlots| - 1 ==> Minutes(AvailableSlots[k]) + 30 <= Minutes(AvailableSlots[k + 1])
    ensures Minutes(AvailableSlots[i]) + 30 * (j - i) <= Minutes(AvailableSlots[j])
    decreases j - i
  {
    if i + 1 < j {
      StepsAdd(i + 1, j);
    }
  }

  /** The specialty filter (lines 55-63): the specialty's name, or the
      specialization written in any case. */
  predicate SpecialtyMatches(selected: string, d: Doctor) {
    d.specialtyName == Some(selected) || Lower(d.specialization) == Lower(selected)
  }

  function ForSpecialty(doctors: seq<Doctor>, selected: string): seq<Doctor> {
    if selected != "" then Filter(d => SpecialtyMatches(selected, d), doctors) else doctors
  }

  /** No specialty shows every doctor; a specialty shows, in order, the
      doctors that match it. */
  lemma ForSpecialtySpec(doctors: seq<Doctor>, selected: string)
    ensures selected == "" ==> ForSpecialty(doctors, selected) == doctors
    ensures Subsequence(ForSpecialty(doctors, selected), doctors)
    ensures selected != "" ==> forall d :: d in ForSpecialty(doctors, selected) <==>
      d in doctors && SpecialtyMatches(selected, d)
  {
    if selected == "" {
      SubsequenceOfItself(doctors);
    } else {
      FilterIsSubsequence(d => SpecialtyMatches(selected, d), doctors);
    }
  }

  /** The record of a booking (lines 118-129). */
  function BookingRecord(d: Doctor, patientId: string, date: string, time: string, notes: string): (r: NewAppointment)
    ensures r.status == "pending" && r.feeCents == 5000 && r.consultationType == "video"
    ensures r.doctorId == d.id && r.patientId == patientId && r.date == date && r.time == time
      && r.notes == Some(notes)
  {
    NewAppointment(d.id, patientId, date, time, "pending", Some(notes), 5000, "video")
  }

  class BookingForm {
    var doctors: seq<Doctor>
    var selectedSpecialty: string
    var filteredDoctors: seq<Doctor>
    var selectedDoctor: Option<Doctor>
    var selectedDate: string
    var selectedSlot: string
    var notes: string
    var loading: bool
    var bookingLoading: bool

    /** The list shown is the doctors of the selected specialty. */
    predicate Valid()
      reads this
    {
      filteredDoctors == ForSpecialty(doctors, selectedSpecialty)
    }

    constructor (today: string)
      ensures Valid() && doctors == [] && selectedDoctor == None && selectedSlot == "" && notes == ""
      ensures selectedDate == today && loading && !bookingLoading
    {
      doctors := [];
      selectedSpecialty := "";
      filteredDoctors := [];
      selectedDoctor := None;
      selectedDate := today;
      selectedSlot := "";
      notes := "";
      loading := true;
      bookingLoading := false;
    }

    /** The effect on the specialty and the doctor list (lines 54-65). */
    method FilterEffect()
      modifies this
      ensures filteredDoctors == ForSpecialty(doctors, selectedSpecialty) && selectedDoctor == None
      ensures doctors == old(doctors) && selectedSpecialty == old(selectedSpecialty)
        && selectedDate == old(selectedDate) && selectedSlot == old(selectedSlot) && notes == old(notes)
        && loading == old(loading) && bookingLoading == old(bookingLoading)
    {
      var selected := selectedSpecialty;
      if selected != "" {
        filteredDoctors := Filter(d => SpecialtyMatches(selected, d), doctors);
      } else {
        filteredDoctors := doctors;
      }
      selectedDoctor := None;
    }

    /** `fetchDoctors`: a failed query (`None`) leaves the list; a new list
        runs the effect, which drops the selected doctor. */
    method FetchDoctors(data: Option<seq<Doctor>>)
      requires Valid()
      modifies this
      ensures !loading && Valid()
      ensures data.None? ==>
        (doctors == old(doctors) && filteredDoctors == old(filteredDoctors) && selectedDoctor == old(selectedDoctor))
      ensures data.Some? ==> doctors == data.value && selectedDoctor == None
      ensures selectedSpecialty == old(selectedSpecialty) && selectedSlot == old(selectedSlot)
        && notes == old(notes) && selectedDate == old(selectedDate) && bookingLoading == old(bookingLoading)
    {
      if data.Some? {
        doctors := data.value;
        FilterEffect();
      }
      loading := false;
    }

    /** Choosing a specialty; the effect runs only when the value changes. */
    method SelectSpecialty(s: string)
      requires Valid()
      modifies this
      ensures Valid() && selectedSpecialty == s && doctors == old(doctors)
      ensures s != old(selectedSpecialty) ==> selectedDoctor == None
      ensures s == old(selectedSpecialty) ==> selectedDoctor == old(selectedDoctor)
      ensures selectedSlot == old(selectedSlot) && notes == old(notes) && selectedDate == old(selectedDate)
        && loading == old(loading) && bookingLoading == old(bookingLoading)
    {
      if s != selectedSpecialty {
        selectedSpecialty := s;
        FilterEffect();
      }
    }

    /** Clicking a doctor of the list. */
    method SelectDoctor(d: Doctor)
      requires Valid() && d in filteredDoctors
      modifies this
      ensures Valid() && selectedDoctor == Some(d)
      ensures doctors == old(doctors) && selectedSpecialty == old(selectedSpecialty)
        && selectedSlot == old(selectedSlot) && notes == old(notes) && selectedDate == old(selectedDate)
        && loading == old(loading) && bookingLoading == old(bookingLoading)
    {
      selectedDoctor := Some(d);
    }

    /** Clicking one of the fixed time buttons. */
    method SelectSlot(slot: string)
      requires slot in AvailableSlots
      modifies this
      ensures selectedSlot == slot
      ensures doctors == old(doctors) && selectedSpecialty == old(selectedSpecialty)
        && filteredDoctors == old(filteredDoctors) && selectedDoctor == old(selectedDoctor)
        && notes == old(notes) && selectedDate == old(selectedDate)
        && loading == old(loading) && bookingLoading == old(bookingLoading)
    {
      selectedSlot := slot;
    }

    /** `bookAppointment`. Without a doctor and a time nothing happens;
        without a user nothing is inserted; otherwise the record is sent,
        and when the insert succeeds the doctor, time and notes are
        cleared. `sent` is the record given to the insert. */
    method BookAppointment(user: Option<string>, insertFails: bool) returns (sent: Option<NewAppointment>)
      modifies this
      ensures old(selectedDoctor).None? || old(selectedSlot) == "" || user.None? ==>
        sent.None? && selectedDoctor == old(selectedDoctor) && selectedSlot == old(selectedSlot)
        && notes == old(notes)
      ensures old(selectedDoctor).Some? && old(selectedSlot) != "" && user.Some? ==>
        sent == Some(BookingRecord(old(selectedDoctor).value, user.value, old(selectedDate), old(selectedSlot), old(notes)))
      ensures sent.Some? && !insertFails ==> selectedDoctor == None && selectedSlot == "" && notes == ""
      ensures sent.Some? && insertFails ==>
        selectedDoctor == old(selectedDoctor) && selectedSlot == old(selectedSlot) && notes == old(notes)
      ensures !bookingLoading || bookingLoading == old(bookingLoading)
      ensures old(selectedDoctor).Some? && old(selectedSlot) != "" ==> !bookingLoading
      ensures doctors == old(doctors) && selectedSpecialty == old(selectedSpecialty)
        && filteredDoctors == old(filteredDoctors) && selectedDate == old(selectedDate) && loading == old(loading)
    {
      if selectedDoctor.None? || selectedSlot == "" {
        return None;
      }
      bookingLoading := true;
      if user.None? {
        sent := None;
      } else {
        sent := Some(BookingRecord(selectedDoctor.value, user.value, selectedDate, selectedSlot, notes));
        if !insertFails {
          selectedDoctor := None;
          selectedSlot := "";
          notes := "";
        }
      }
      bookingLoading := false;
    }
  }
}
