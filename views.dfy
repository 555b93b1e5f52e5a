/** The `get_queryset` of every list, detail and search view, as filters over the tables.
    Tables are kept newest first, so every result keeps the models' ordering. */
module Views {
  import opened Results
  import opened Seqs
  import opened Text
  import opened Models

  /** The patient list: the requesting user's patients and no one else's, newest first. */
  function ListPatients(patients: seq<Patient>, requester: Id): (r: seq<Patient>)
    ensures forall p :: p in r <==> p in patients && p.owner == requester
    ensures Pairwise(patients, PatientBefore) ==> Pairwise(r, PatientBefore)
  {
    var keep := (p: Patient) => p.owner == requester;
    FilterPairwise(patients, keep, PatientBefore);
    Filter(patients, keep)
  }

  /** The patient detail view (retrieve, update, delete): looks the id up among the
      requester's own patients only, so another user's patient is not found. */
  function FindOwnedPatient(patients: seq<Patient>, requester: Id, id: Id): (r: Option<Patient>)
    ensures r.Some? <==> exists p :: p in patients && p.id == id && p.owner == requester
    ensures r.Some? ==> r.value in patients && r.value.id == id && r.value.owner == requester
  {
    var hits := Filter(patients, (p: Patient) => p.id == id && p.owner == requester);
    if hits == [] then None else assert hits[0] in hits; Some(hits[0])
  }

  /** The doctor detail view: any doctor, whoever asks. */
  function FindDoctor(doctors: seq<Doctor>, id: Id): (r: Option<Doctor>)
    ensures r.Some? <==> id in DoctorIds(doctors)
    ensures r.Some? ==> r.value in doctors && r.value.id == id
  {
    var hits := Filter(doctors, (d: Doctor) => d.id == id);
    if hits == [] then None else assert hits[0] in hits; Some(hits[0])
  }

  /** The mapping delete view looks among all rows, active or not. */
  function FindMapping(mappings: seq<Mapping>, id: Id): (r: Option<Mapping>)
    ensures r.Some? <==> exists m :: m in mappings && m.id == id
    ensures r.Some? ==> r.value in mappings && r.value.id == id
  {
    var hits := Filter(mappings, (m: Mapping) => m.id == id);
    if hits == [] then None else assert hits[0] in hits; Some(hits[0])
  }

  /** The mapping list: the active rows of every user, newest assignment first. */
  function ActiveMappings(mappings: seq<Mapping>): (r: seq<Mapping>)
    ensures forall m :: m in r <==> m in mappings && m.isActive
    ensures Pairwise(mappings, MappingBefore) ==> Pairwise(r, MappingBefore)
  {
    var keep := (m: Mapping) => m.isActive;
    FilterPairwise(mappings, keep, MappingBefore);
    Filter(mappings, keep)
  }

  /** Mappings of one patient: nothing unless the patient exists and belongs to the
      requester; otherwise that patient's active rows. */
  function MappingsOfPatient(patients: seq<Patient>, mappings: seq<Mapping>, requester: Id, patientId: Id)
    : (r: seq<Mapping>)
    ensures FindOwnedPatient(patients, requester, patientId).None? ==> r == []
    ensures forall m :: m in r <==>
      && FindOwnedPatient(patients, requester, patientId).Some?
      && m in mappings && m.patientId == patientId && m.isActive
    ensures Pairwise(mappings, MappingBefore) ==> Pairwise(r, MappingBefore)
  {
    match FindOwnedPatient(patients, requester, patientId)
    case None => []
    case Some(p) =>
      var keep := (m: Mapping) => m.patientId == p.id && m.isActive;
      FilterPairwise(mappings, keep, MappingBefore);
      Filter(mappings, keep)
  }

  /** `Q(first_name__icontains=name) | Q(last_name__icontains=name)`. */
  predicate NameMatches(first: string, last: string, name: string) {
    IContains(first, name) || IContains(last, name)
  }

  /** `available.lower() == 'true'`: any other given value asks for unavailable doctors. */
  predicate MeansTrue(available: string) {
    Lower(available) == "true"
  }

  /** The doctor search: each given parameter narrows the previous result.
      `specialization` and `name` count only when non-empty; `available` counts whenever
      it is present, even empty. */
  function SearchDoctors(doctors: seq<Doctor>, specialization: Option<string>, name: Option<string>, available: Option<string>)
    : (r: seq<Doctor>)
    ensures forall d :: d in r <==>
      && d in doctors
      && (Given(specialization) ==> d.info.specialization.Code() == specialization.value)
      && (Given(name) ==> NameMatches(d.info.firstName, d.info.lastName, name.value))
      && (available.Some? ==> d.info.isAvailable == MeansTrue(available.value))
    ensures Pairwise(doctors, DoctorBefore) ==> Pairwise(r, DoctorBefore)
  {
    var code := if specialization.Some? then specialization.value else "";
    var text := if name.Some? then name.value else "";
    var flag := if available.Some? then available.value else "";
    var bySpecialization := (d: Doctor) => d.info.specialization.Code() == code;
    var q1 := if Given(specialization) then Filter(doctors, bySpecialization) else doctors;
    var byName := (d: Doctor) => NameMatches(d.info.firstName, d.info.lastName, text);
    var q2 := if Given(name) then Filter(q1, byName) else q1;
    var byAvailability := (d: Doctor) => d.info.isAvailable == MeansTrue(flag);
    var q3 := if available.Some? then Filter(q2, byAvailability) else q2;
    FilterPairwise(doctors, bySpecialization, DoctorBefore);
    FilterPairwise(q1, byName, DoctorBefore);
    FilterPairwise(q2, byAvailability, DoctorBefore);
    q3
  }

  /** The patient search: the requester's patients, narrowed by a non-empty `name` and then
      by a non-empty `gender` code. */
  function SearchPatients(patients: seq<Patient>, requester: Id, name: Option<string>, gender: Option<string>)
    : (r: seq<Patient>)
    ensures forall p :: p in r <==>
      && p in patients && p.owner == requester
      && (Given(name) ==> NameMatches(p.info.firstName, p.info.lastName, name.value))
      && (Given(gender) ==> p.info.gender == gender.value)
    ensures Pairwise(patients, PatientBefore) ==> Pairwise(r, PatientBefore)
  {
    var q0 := ListPatients(patients, requester);
    var text := if name.Some? then name.value else "";
    var code := if gender.Some? then gender.value else "";
    var byName := (p: Patient) => NameMatches(p.info.firstName, p.info.lastName, text);
    var q1 := if Given(name) then Filter(q0, byName) else q0;
    var byGender := (p: Patient) => p.info.gender == code;
    var q2 := if Given(gender) then Filter(q1, byGender) else q1;
    FilterPairwise(q0, byName, PatientBefore);
    FilterPairwise(q1, byGender, PatientBefore);
    q2
  }

  /** With no name and no gender, the search is the plain patient list. */
  lemma SearchWithoutParametersIsList(patients: seq<Patient>, requester: Id, name: Option<string>, gender: Option<string>)
    requires !Given(name) && !Given(gender)
    ensures SearchPatients(patients, requester, name, gender) == ListPatients(patients, requester)
  {
  }
}
