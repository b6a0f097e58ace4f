/** The doctor's weekly availability editor (src/components/DoctorPortal/
    AvailabilitySettings.tsx): a list of templates that the buttons append
    to, edit in place and delete from. Nothing is written to the database:
    the save only raises a notice. */
module AvailabilitySettings {
  import opened Wrappers

  /** One availability template. The fee is held in cents. */
  datatype Slot = Slot(
    id: Option<string>, dayOfWeek: int, startTime: string, endTime: string,
    durationMinutes: int, feeCents: int, isActive: bool)

  /** The day selector: the value of a day is its index, Sunday first. */
  const DaysOfWeek := ["Sunday", "Monday", "Tuesday", "Wednesday", "Thursday", "Friday", "Saturday"]

  /** The durations the selector offers. */
  const Durations := [15, 30, 45, 60]

  /** The template `addNewSlot` appends. */
  const NewSlot := Slot(None, 1, "09:00", "17:00", 30, 5000, true)

  /** A template whose day and duration are ones the selectors offer. */
  predicate Offered(s: Slot) {
    0 <= s.dayOfWeek < |DaysOfWeek| && s.durationMinutes in Durations
  }

  lemma SelectorValues()
    ensures |DaysOfWeek| == 7 && DaysOfWeek[0] == "Sunday" && DaysOfWeek[6] == "Saturday"
    ensures forall d :: d in Durations <==> d == 15 || d == 30 || d == 45 || d == 60
    ensures Offered(NewSlot) && DaysOfWeek[NewSlot.dayOfWeek] == "Monday"
  {
  }

  /** An edit of one field, as the inputs of a row make it. */
  datatype Edit =
    | SetDay(day: int) | SetStart(time: string) | SetEnd(time: string)
    | SetDuration(minutes: int) | SetFee(cents: int) | SetActive(active: bool)

  /** `{ ...slot, [field]: value }`. */
  function Apply(s: Slot, e: Edit): Slot {
    match e
    case SetDay(d) => s.(dayOfWeek := d)
    case SetStart(t) => s.(startTime := t)
    case SetEnd(t) => s.(endTime := t)
    case SetDuration(m) => s.(durationMinutes := m)
    case SetFee(c) => s.(feeCents := c)
    case SetActive(a) => s.(isActive := a)
  }

  /** An edit the row's inputs can produce: a day or a duration from the
      selectors, anything for the other fields. */
  predicate FromInputs(e: Edit) {
    (e.SetDay? ==> 0 <= e.day < |DaysOfWeek|) && (e.SetDuration? ==> e.minutes in Durations)
  }

  /** The field an edit names. */
  function FieldOf(e: Edit): nat {
    match e
    case SetDay(_) => 0
    case SetStart(_) => 1
    case SetEnd(_) => 2
    case SetDuration(_) => 3
    case SetFee(_) => 4
    case SetActive(_) => 5
  }

  /** The field of a template, by number and as a type the fields share. */
  datatype Value = Num(n: int) | Text(t: string) | Flag(b: bool) | Key(k: Option<string>)

  function Field(s: Slot, f: nat): Value {
    if f == 0 then Num(s.dayOfWeek) else if f == 1 then Text(s.startTime)
    else if f == 2 then Text(s.endTime) else if f == 3 then Num(s.durationMinutes)
    else if f == 4 then Num(s.feeCents) else if f == 5 then Flag(s.isActive) else Key(s.id)
  }

  /** An edit changes the field it names and no other. */
  lemma ApplyChangesOneField(s: Slot, e: Edit, f: nat)
    requires f != FieldOf(e)
    ensures Field(Apply(s, e), f) == Field(s, f)
    ensures Apply(Apply(s, e), e) == Apply(s, e)
  {
  }

  /** The templates without the one at `index` (`filter((_, i) => i !==
      index)`). */
  function Without(s: seq<Slot>, index: int): (r: seq<Slot>)
    ensures |r| <= |s|
    decreases |s|
  {
    if s == [] then [] else (if index == 0 then [] else [s[0]]) + Without(s[1..], index - 1)
  }

  /** The filter deletes exactly the entry at `index` and keeps the order
      of the rest; an index outside the list deletes nothing. */
  lemma WithoutDeletes(s: seq<Slot>, index: int)
    ensures 0 <= index < |s| ==> Without(s, index) == s[..index] + s[index + 1..]
    ensures !(0 <= index < |s|) ==> Without(s, index) == s
  {
    if 0 <= index < |s| {
      WithoutInRange(s, index);
    } else {
      WithoutOutOfRange(s, index);
    }
  }

  lemma {:induction false} WithoutInRange(s: seq<Slot>, index: int)
    requires 0 <= index < |s|
    ensures Without(s, index) == s[..index] + s[index + 1..]
    decreases |s|
  {
    var rest := Without(s[1..], index - 1);
    assert Without(s, index) == (if index == 0 then [] else [s[0]]) + rest;
    if index == 0 {
      WithoutOutOfRange(s[1..], -1);
      assert s[1..] == s[..0] + s[1..];
    } else {
      WithoutInRange(s[1..], index - 1);
      assert s[1..][..index - 1] == s[1..index];
      assert [s[0]] + s[1..index] == s[..index];
      assert s[1..][index..] == s[index + 1..];
    }
  }

  lemma {:induction false} WithoutOutOfRange(s: seq<Slot>, index: int)
    requires !(0 <= index < |s|)
    ensures Without(s, index) == s
    decreases |s|
  {
    if s != [] {
      WithoutOutOfRange(s[1..], index - 1);
      assert [s[0]] + s[1..] == s;
    }
  }

  class Settings {
    var availability: seq<Slot>
    var doctorId: Option<string>
    var loading: bool

    /** Every template's day and duration are ones the selectors offer. */
    predicate Valid()
      reads this
    {
      forall i :: 0 <= i < |availability| ==> Offered(availability[i])
    }

    /** The editor starts empty and loading. */
    constructor ()
      ensures availability == [] && doctorId == None && loading && Valid()
    {
      availability := [];
      doctorId := None;
      loading := true;
    }

    /** `fetchDoctorData`: the approved registration's id, if any, becomes
        the doctor id, and the list is reset to empty. */
    method FetchDoctorData(user: Option<string>, registration: Option<string>)
      modifies this
      ensures !loading
      ensures user.Some? && registration.Some? ==> doctorId == registration && availability == []
      ensures !(user.Some? && registration.Some?) ==>
        doctorId == old(doctorId) && availability == old(availability)
      ensures old(Valid()) ==> Valid()
    {
      if user.Some? && registration.Some? {
        doctorId := registration;
        availability := [];
      }
      loading := false;
    }

    /** `addNewSlot`. */
    method AddNewSlot()
      modifies this
      ensures availability == old(availability) + [NewSlot]
      ensures doctorId == old(doctorId) && loading == old(loading)
      ensures old(Valid()) ==> Valid()
    {
      availability := availability + [NewSlot];
    }

    /** `updateSlot(index, field, value)`, called with the row's own
        index. */
    method UpdateSlot(index: nat, e: Edit)
      requires index < |availability|
      modifies this
      ensures availability == old(availability)[index := Apply(old(availability)[index], e)]
      ensures doctorId == old(doctorId) && loading == old(loading)
      ensures old(Valid()) && FromInputs(e) ==> Valid()
    {
      var updated := availability;
      updated := updated[index := Apply(updated[index], e)];
      availability := updated;
    }

    /** `removeSlot(index)`. */
    method RemoveSlot(index: int)
      modifies this
      ensures availability == Without(old(availability), index)
      ensures doctorId == old(doctorId) && loading == old(loading)
      ensures old(Valid()) ==> Valid()
    {
      WithoutDeletes(availability, index);
      availability := Without(availability, index);
    }

    /** `saveAvailability`: without a doctor id nothing happens; with one
        the only effect is the notice, and loading ends false. */
    method SaveAvailability() returns (notice: bool)
      modifies this
      ensures notice <==> old(doctorId).Some?
      ensures availability == old(availability) && doctorId == old(doctorId)
      ensures loading == if notice then false else old(loading)
    {
      if doctorId.None? {
        return false;
      }
      loading := true;
      notice := true;
      loading := false;
    }
  }
}
