/** The patient's doctor search (src/components/PatientPortal/
    DoctorSearch.tsx): the doctor rows built from the approved
    registrations and the profiles, and the name and specialty filters.
    Lower-casing is ASCII only. */
module DoctorSearch {
  import opened Wrappers
  import opened Text
  import opened Lists

  /** A registration row with its specialty joined. */
  datatype Specialty = Specialty(name: Option<string>, description: Option<string>)
  datatype Registration = Registration(
    id: string, userId: string, status: string, fullName: string, specialization: string,
    specialty: Option<Specialty>, hospital: Option<string>, experience: int)

  /** A row of the profiles table. */
  datatype Profile = Profile(id: string, email: Option<string>)

  datatype Doctor = Doctor(
    id: string, userId: string, fullName: string, specialization: string,
    specialtyName: Option<string>, specialtyDescription: Option<string>,
    hospital: Option<string>, experience: int, email: string)

  /** `profileData.find(p => p.id === userId)`. */
  function FindProfile(profiles: seq<Profile>, userId: string): (r: Option<Profile>)
    ensures r.Some? ==> r.value in profiles && r.value.id == userId
    ensures r.None? ==> forall p :: p in profiles ==> p.id != userId
  {
    Find((p: Profile) => p.id == userId, profiles)
  }

  /** `x?.name || null`. */
  function NullIfFalsy(o: Option<string>): (r: Option<string>)
    ensures r.Some? <==> Truthy(o)
    ensures r.Some? ==> r == o
  {
    if Truthy(o) then o else None
  }

  /** The row transform of lines 78-94. */
  function ToDoctor(r: Registration, profiles: seq<Profile>): (d: Doctor)
    ensures d.id == r.id && d.userId == r.userId && d.fullName == r.fullName
      && d.specialization == r.specialization && d.hospital == r.hospital && d.experience == r.experience
    ensures d.specialtyName.Some? ==>
      (r.specialty.Some? && d.specialtyName == r.specialty.value.name && d.specialtyName.value != "")
    ensures r.specialty.Some? ==>
      d.specialtyName == NullIfFalsy(r.specialty.value.name)
      && d.specialtyDescription == NullIfFalsy(r.specialty.value.description)
    ensures r.specialty.None? ==> d.specialtyName.None? && d.specialtyDescription.None?
    ensures d.email != "" ==> exists p :: p in profiles && p.id == r.userId && p.email == Some(d.email)
    ensures var p := FindProfile(profiles, r.userId);
      p.Some? && Truthy(p.value.email) ==> d.email == p.value.email.value
    ensures var p := FindProfile(profiles, r.userId);
      !(p.Some? && Truthy(p.value.email)) ==> d.email == ""
    ensures (forall p :: p in profiles ==> p.id != r.userId) ==> d.email == ""
  {
    var profile := FindProfile(profiles, r.userId);
    var name := if r.specialty.Some? then r.specialty.value.name else None;
    var description := if r.specialty.Some? then r.specialty.value.description else None;
    Doctor(r.id, r.userId, r.fullName, r.specialization, NullIfFalsy(name), NullIfFalsy(description),
      r.hospital, r.experience, OrElse(if profile.Some? then profile.value.email else None, ""))
  }

  /** `fetchDoctors`: the approved registrations, as doctor rows. */
  function Doctors(registrations: seq<Registration>, profiles: seq<Profile>): seq<Doctor> {
    Map(r => ToDoctor(r, profiles), Filter((r: Registration) => r.status == "approved", registrations))
  }

  /** Only approved registrations become doctors, one each, in order. */
  lemma DoctorsAreApproved(registrations: seq<Registration>, profiles: seq<Profile>)
    ensures var approved := Filter((r: Registration) => r.status == "approved", registrations);
      |Doctors(registrations, profiles)| == |approved|
      && forall j :: 0 <= j < |approved| ==>
        Doctors(registrations, profiles)[j].id == approved[j].id && approved[j].status == "approved"
        && approved[j] in registrations
  {
    var approved := Filter((r: Registration) => r.status == "approved", registrations);
    MapEach(r => ToDoctor(r, profiles), approved);
    assert forall j :: 0 <= j < |approved| ==> approved[j] in approved;
  }

  // ---------------------------------------------------------------- filters

  /** The name filter (lines 127-129). */
  predicate NameMatches(query: string, d: Doctor) {
    Contains(Lower(d.fullName), Lower(Trim(JavaScript, query)))
  }

  /** The specialty filter (lines 133-136). */
  predicate SpecialtyMatches(selected: string, d: Doctor) {
    d.specialtyName == Some(selected) || Lower(d.specialization) == Lower(selected)
  }

  /** `filterDoctors`: each filter applies only when its input is set; the
      name filter only when the query is not blank. */
  function FilterDoctors(doctors: seq<Doctor>, searchName: string, selectedSpecialty: string): seq<Doctor> {
    var byName := if Trim(JavaScript, searchName) != "" then Filter(d => NameMatches(searchName, d), doctors) else doctors;
    if selectedSpecialty != "" then Filter(d => SpecialtyMatches(selectedSpecialty, d), byName) else byName
  }

  /** Whether a doctor passes the filters that are set. */
  predicate Passes(searchName: string, selectedSpecialty: string, d: Doctor) {
    (Trim(JavaScript, searchName) != "" ==> NameMatches(searchName, d))
    && (selectedSpecialty != "" ==> SpecialtyMatches(selectedSpecialty, d))
  }

  /** The result keeps the order of the list, and a doctor is in it exactly
      when it passes every filter that is set. */
  lemma FilterDoctorsSpec(doctors: seq<Doctor>, searchName: string, selectedSpecialty: string)
    ensures var r := FilterDoctors(doctors, searchName, selectedSpecialty);
      Subsequence(r, doctors)
      && forall d :: d in r <==> d in doctors && Passes(searchName, selectedSpecialty, d)
  {
    var byName := if Trim(JavaScript, searchName) != "" then Filter(d => NameMatches(searchName, d), doctors) else doctors;
    if Trim(JavaScript, searchName) != "" {
      FilterIsSubsequence(d => NameMatches(searchName, d), doctors);
    } else {
      SubsequenceOfItself(doctors);
    }
    if selectedSpecialty != "" {
      FilterIsSubsequence(d => SpecialtyMatches(selectedSpecialty, d), byName);
      SubsequenceTrans(Filter(d => SpecialtyMatches(selectedSpecialty, d), byName), byName, doctors);
    }
  }

  /** A blank query (only whitespace) filters nothing out. */
  lemma BlankQueryKeepsAll(doctors: seq<Doctor>, searchName: string)
    requires forall i :: 0 <= i < |searchName| ==> IsSpace(JavaScript, searchName[i])
    ensures FilterDoctors(doctors, searchName, "") == doctors
  {
    TrimFacts(JavaScript, searchName);
  }

  /** The search inputs. */
  datatype Inputs = Inputs(searchName: string, selectedSpecialty: string)

  /** `clearFilters` empties both inputs. */
  function ClearFilters(i: Inputs): (r: Inputs)
    ensures r.searchName == "" && r.selectedSpecialty == ""
  {
    Inputs("", "")
  }

  /** After clearing, the list shows every doctor. */
  lemma ClearedShowsAll(doctors: seq<Doctor>, i: Inputs)
    ensures var c := ClearFilters(i); FilterDoctors(doctors, c.searchName, c.selectedSpecialty) == doctors
  {
    TrimFacts(JavaScript, "");
  }
}
