/** The record store behind the API: the four tables as fields of one object, and the
    operations of the model manager, the serializers' `create` and the views that write. */
module Database {
  import opened Results
  import opened Seqs
  import opened Models
  import opened Serializers
  import opened Views

  /** Why `create_user` stored nothing: no email (`ValueError`), or an email already used
      (the unique column refuses the row). */
  datatype CreateUserError = MissingEmail | DuplicateEmail

  /** A lookup by key that found nothing (HTTP 404). */
  datatype NotFound = NotFound

  datatype PatientError = PatientNotFound | InvalidGender

  /** The body of a doctor creation request, before validation. */
  datatype DoctorForm = DoctorForm(
    firstName: string, lastName: string, specialization: string, licenseNumber: string,
    phoneNumber: string, email: string, experienceYears: int, gender: string,
    address: string, isAvailable: Option<bool>)

  datatype DoctorField = SpecializationField | ExperienceField | GenderField | LicenseField

  predicate LicenseTaken(doctors: seq<Doctor>, license: string) {
    exists d :: d in doctors && d.info.licenseNumber == license
  }

  /** The fields of a doctor form that its model refuses: a code outside the choice table, a
      negative `PositiveIntegerField`, a gender outside its choices, a license already on file. */
  function DoctorFormErrors(doctors: seq<Doctor>, form: DoctorForm): (bad: set<DoctorField>)
    ensures SpecializationField in bad <==> ParseSpecialization(form.specialization).None?
    ensures ExperienceField in bad <==> form.experienceYears < 0
    ensures GenderField in bad <==> !IsGenderCode(form.gender)
    ensures LicenseField in bad <==> LicenseTaken(doctors, form.licenseNumber)
  {
    (if ParseSpecialization(form.specialization).None? then {SpecializationField} else {})
    + (if form.experienceYears < 0 then {ExperienceField} else {})
    + (if !IsGenderCode(form.gender) then {GenderField} else {})
    + (if LicenseTaken(doctors, form.licenseNumber) then {LicenseField} else {})
  }

  /** `perform_destroy`: the row with this id keeps every field but `is_active`, which becomes false. */
  function Deactivate(mappings: seq<Mapping>, id: Id): (r: seq<Mapping>)
    ensures |r| == |mappings|
    ensures forall i :: 0 <= i < |r| ==>
      r[i] == if mappings[i].id == id then mappings[i].(isActive := false) else mappings[i]
  {
    UpdateWhere(mappings, (m: Mapping) => m.id == id, (m: Mapping) => m.(isActive := false))
  }

  /** Removing a mapping twice is removing it once, and the row stays in the table. */
  lemma DeactivateIdempotent(mappings: seq<Mapping>, id: Id)
    ensures Deactivate(Deactivate(mappings, id), id) == Deactivate(mappings, id)
    ensures forall m :: m in mappings && m.id == id ==> m.(isActive := false) in Deactivate(mappings, id)
  {
    var once := Deactivate(mappings, id);
    forall m | m in mappings && m.id == id ensures m.(isActive := false) in once {
      var i :| 0 <= i < |mappings| && mappings[i] == m;
      assert once[i] == m.(isActive := false);
    }
  }

  /** The patient table after an update of one patient's fields. */
  function ReplaceInfo(patients: seq<Patient>, id: Id, info: PatientInfo): (r: seq<Patient>)
    ensures |r| == |patients|
    ensures forall i :: 0 <= i < |r| ==>
      r[i] == if patients[i].id == id then patients[i].(info := info) else patients[i]
  {
    UpdateWhere(patients, (p: Patient) => p.id == id, (p: Patient) => p.(info := info))
  }

  /** The patient table without the patient `id`. */
  function RemovePatient(patients: seq<Patient>, id: Id): (r: seq<Patient>)
    ensures forall p :: p in r <==> p in patients && p.id != id
    ensures Pairwise(patients, PatientBefore) ==> Pairwise(r, PatientBefore)
  {
    var keep := (p: Patient) => p.id != id;
    FilterPairwise(patients, keep, PatientBefore);
    Filter(patients, keep)
  }

  /** The doctor table without the doctor `id`. */
  function RemoveDoctor(doctors: seq<Doctor>, id: Id): (r: seq<Doctor>)
    ensures forall d :: d in r <==> d in doctors && d.id != id
    ensures Pairwise(doctors, DoctorBefore) ==> Pairwise(r, DoctorBefore)
  {
    var keep := (d: Doctor) => d.id != id;
    FilterPairwise(doctors, keep, DoctorBefore);
    Filter(doctors, keep)
  }

  /** The user table without the user `id`. */
  function RemoveUser(users: seq<User>, id: Id): (r: seq<User>)
    ensures forall u :: u in r <==> u in users && u.id != id
    ensures Pairwise(users, DistinctUsers) ==> Pairwise(r, DistinctUsers)
  {
    var keep := (u: User) => u.id != id;
    FilterPairwise(users, keep, DistinctUsers);
    Filter(users, keep)
  }

  /** The patient table without the patients of user `owner`. */
  function RemovePatientsOf(patients: seq<Patient>, owner: Id): (r: seq<Patient>)
    ensures forall p :: p in r <==> p in patients && p.owner != owner
    ensures Pairwise(patients, PatientBefore) ==> Pairwise(r, PatientBefore)
  {
    var keep := (p: Patient) => p.owner != owner;
    FilterPairwise(patients, keep, PatientBefore);
    Filter(patients, keep)
  }

  /** `on_delete=CASCADE`: the mapping table without the rows that point at any of the
      deleted patients or at the deleted doctor. */
  function CascadeMappings(mappings: seq<Mapping>, patientIds: set<Id>, doctorIds: set<Id>): (r: seq<Mapping>)
    ensures forall m :: m in r <==> m in mappings && m.patientId !in patientIds && m.doctorId !in doctorIds
    ensures Pairwise(mappings, MappingBefore) ==> Pairwise(r, MappingBefore)
    ensures UniquePairs(mappings) ==> UniquePairs(r)
  {
    var keep := (m: Mapping) => m.patientId !in patientIds && m.doctorId !in doctorIds;
    FilterPairwise(mappings, keep, MappingBefore);
    FilterPairwise(mappings, keep, DifferentPair);
    Filter(mappings, keep)
  }

  /** The position of row `id` joining this patient and doctor, the first if there were several. */
  function RowPosition(mappings: seq<Mapping>, id: Id, patientId: Id, doctorId: Id): (k: nat)
    requires exists m :: m in mappings && m.id == id && m.patientId == patientId && m.doctorId == doctorId
    ensures k < |mappings| && mappings[k].id == id && mappings[k].patientId == patientId && mappings[k].doctorId == doctorId
    ensures forall j :: 0 <= j < k ==>
      !(mappings[j].id == id && mappings[j].patientId == patientId && mappings[j].doctorId == doctorId)
  {
    var m0 := mappings[0];
    if m0.id == id && m0.patientId == patientId && m0.doctorId == doctorId then 0
    else
      assert exists m :: m in mappings[1..] && m.id == id && m.patientId == patientId && m.doctorId == doctorId by {
        var m :| m in mappings && m.id == id && m.patientId == patientId && m.doctorId == doctorId;
        assert m in mappings[1..];
      }
      1 + RowPosition(mappings[1..], id, patientId, doctorId)
  }

  /** The corrected creation's reuse of a soft-deleted row: active again, with the new notes. */
  function Reactivated(mappings: seq<Mapping>, id: Id, notes: Option<string>): (r: seq<Mapping>)
    ensures |r| == |mappings|
    ensures forall i :: 0 <= i < |r| ==>
      r[i] == if mappings[i].id == id then mappings[i].(isActive := true, notes := notes) else mappings[i]
  {
    UpdateWhere(mappings, (m: Mapping) => m.id == id, (m: Mapping) => m.(isActive := true, notes := notes))
  }

  /** Rewriting fields other than the keys, the order columns and the pair keeps the mapping
      table's constraints and the bounds on its keys and ticks. */
  lemma SameKeysKeepMappingsOk(
    users: seq<User>, patients: seq<Patient>, doctors: seq<Doctor>, before: seq<Mapping>, after: seq<Mapping>,
    nextId: Id, clock: nat)
    requires Consistent(users, patients, doctors, before)
    requires forall m :: m in before ==> m.id < nextId && m.assignedAt < clock
    requires |after| == |before|
    requires forall i :: 0 <= i < |after| ==>
      after[i].id == before[i].id && after[i].assignedAt == before[i].assignedAt
      && after[i].patientId == before[i].patientId && after[i].doctorId == before[i].doctorId
    ensures Consistent(users, patients, doctors, after)
    ensures forall m :: m in after ==> m.id < nextId && m.assignedAt < clock
  {
    forall i, j | 0 <= i < j < |after|
      ensures MappingBefore(after[i], after[j]) && DifferentPair(after[i], after[j])
    {
      assert MappingBefore(before[i], before[j]) && DifferentPair(before[i], before[j]);
    }
    forall m | m in after
      ensures m.patientId in PatientIds(patients) && m.doctorId in DoctorIds(doctors)
      ensures m.id < nextId && m.assignedAt < clock
    {
      var i :| 0 <= i < |after| && after[i] == m;
      assert before[i] in before;
    }
  }

  /** Rewriting a patient's supplied fields with a valid gender keeps the patient table's
      constraints, its set of keys and the bounds on its keys and ticks. */
  lemma SameKeysKeepPatientsOk(
    users: seq<User>, before: seq<Patient>, after: seq<Patient>, doctors: seq<Doctor>, mappings: seq<Mapping>,
    nextId: Id, clock: nat)
    requires Consistent(users, before, doctors, mappings)
    requires forall p :: p in before ==> p.id < nextId && p.createdAt < clock
    requires |after| == |before|
    requires forall i :: 0 <= i < |after| ==>
      after[i].id == before[i].id && after[i].createdAt == before[i].createdAt
      && after[i].owner == before[i].owner && IsGenderCode(after[i].info.gender)
    ensures Consistent(users, after, doctors, mappings)
    ensures forall p :: p in after ==> p.id < nextId && p.createdAt < clock
  {
    forall i, j | 0 <= i < j < |after| ensures PatientBefore(after[i], after[j]) {
      assert PatientBefore(before[i], before[j]);
    }
    forall p | p in after
      ensures p.owner in UserIds(users) && p.id < nextId && p.createdAt < clock
    {
      var i :| 0 <= i < |after| && after[i] == p;
      assert before[i] in before;
    }
    forall x | x in PatientIds(before) ensures x in PatientIds(after) {
      var p :| p in before && p.id == x;
      var i :| 0 <= i < |before| && before[i] == p;
      assert after[i] in after;
    }
    forall x | x in PatientIds(after) ensures x in PatientIds(before) {
      var p :| p in after && p.id == x;
      var i :| 0 <= i < |after| && after[i] == p;
      assert before[i] in before;
    }
  }

  /** Updating one patient's fields with a valid gender keeps every constraint and bound. */
  lemma ReplaceInfoKeepsConsistent(
    users: seq<User>, patients: seq<Patient>, doctors: seq<Doctor>, mappings: seq<Mapping>,
    id: Id, info: PatientInfo, nextId: Id, clock: nat)
    requires Consistent(users, patients, doctors, mappings) && IsGenderCode(info.gender)
    requires forall p :: p in patients ==> p.id < nextId && p.createdAt < clock
    ensures Consistent(users, ReplaceInfo(patients, id, info), doctors, mappings)
    ensures forall p :: p in ReplaceInfo(patients, id, info) ==> p.id < nextId && p.createdAt < clock
  {
    var after := ReplaceInfo(patients, id, info);
    forall i | 0 <= i < |after| ensures IsGenderCode(after[i].info.gender) {
      assert patients[i] in patients;
    }
    SameKeysKeepPatientsOk(users, patients, after, doctors, mappings, nextId, clock);
  }

  /** Reactivating one mapping row keeps every constraint and bound. */
  lemma ReactivatedKeepsConsistent(
    users: seq<User>, patients: seq<Patient>, doctors: seq<Doctor>, mappings: seq<Mapping>,
    id: Id, notes: Option<string>, nextId: Id, clock: nat)
    requires Consistent(users, patients, doctors, mappings)
    requires forall m :: m in mappings ==> m.id < nextId && m.assignedAt < clock
    ensures Consistent(users, patients, doctors, Reactivated(mappings, id, notes))
    ensures forall m :: m in Reactivated(mappings, id, notes) ==> m.id < nextId && m.assignedAt < clock
  {
    SameKeysKeepMappingsOk(users, patients, doctors, mappings, Reactivated(mappings, id, notes), nextId, clock);
  }

  /** Soft-deleting one mapping row keeps every constraint and bound. */
  lemma DeactivateKeepsConsistent(
    users: seq<User>, patients: seq<Patient>, doctors: seq<Doctor>, mappings: seq<Mapping>,
    id: Id, nextId: Id, clock: nat)
    requires Consistent(users, patients, doctors, mappings)
    requires forall m :: m in mappings ==> m.id < nextId && m.assignedAt < clock
    ensures Consistent(users, patients, doctors, Deactivate(mappings, id))
    ensures forall m :: m in Deactivate(mappings, id) ==> m.id < nextId && m.assignedAt < clock
  {
    SameKeysKeepMappingsOk(users, patients, doctors, mappings, Deactivate(mappings, id), nextId, clock);
  }

  /** `r` is a row of the table and no other row joins its patient and doctor. */
  predicate SoleRowOfPair(mappings: seq<Mapping>, r: Mapping) {
    && r in mappings
    && forall m :: m in mappings && m.patientId == r.patientId && m.doctorId == r.doctorId ==> m == r
  }

  /** Reactivating the row at position `k` keeps every constraint and bound, and leaves that
      row active with the new notes as the only row of its pair. */
  lemma ReactivatedSoleRow(
    users: seq<User>, patients: seq<Patient>, doctors: seq<Doctor>, mappings: seq<Mapping>,
    id: Id, k: nat, notes: Option<string>, nextId: Id, clock: nat)
    requires Consistent(users, patients, doctors, mappings)
    requires forall m :: m in mappings ==> m.id < nextId && m.assignedAt < clock
    requires k < |mappings| && mappings[k].id == id
    ensures var after := Reactivated(mappings, id, notes);
      && Consistent(users, patients, doctors, after)
      && (forall m :: m in after ==> m.id < nextId && m.assignedAt < clock)
      && |after| == |mappings|
      && after[k] == mappings[k].(isActive := true, notes := notes)
      && SoleRowOfPair(after, after[k])
  {
    var after := Reactivated(mappings, id, notes);
    ReactivatedKeepsConsistent(users, patients, doctors, mappings, id, notes, nextId, clock);
    UniquePairsAnyOrder(mappings);
    forall m | m in after && m.patientId == mappings[k].patientId && m.doctorId == mappings[k].doctorId
      ensures m == after[k]
    {
      var j :| 0 <= j < |after| && after[j] == m;
      assert !DifferentPair(mappings[j], mappings[k]);
    }
  }

  /** Under `unique_together`, the row at position `k` is the only row joining its pair. */
  lemma OnlyRowForPair(mappings: seq<Mapping>, k: nat)
    requires UniquePairs(mappings) && k < |mappings|
    ensures SoleRowOfPair(mappings, mappings[k])
  {
    UniquePairsAnyOrder(mappings);
  }

  /** Deleting a user with its patients and their mappings keeps every constraint. */
  lemma DeleteUserKeepsConsistent(users: seq<User>, patients: seq<Patient>, doctors: seq<Doctor>, mappings: seq<Mapping>, id: Id)
    requires Consistent(users, patients, doctors, mappings)
    ensures Consistent(
      RemoveUser(users, id), RemovePatientsOf(patients, id), doctors,
      CascadeMappings(mappings, set p | p in patients && p.owner == id :: p.id, {}))
  {
    var users', patients' := RemoveUser(users, id), RemovePatientsOf(patients, id);
    var doomed := set p | p in patients && p.owner == id :: p.id;
    var mappings' := CascadeMappings(mappings, doomed, {});
    forall p | p in patients' ensures p.owner in UserIds(users') {
      var u :| u in users && u.id == p.owner;
      assert u in users';
    }
    forall m | m in mappings' ensures m.patientId in PatientIds(patients') {
      var p :| p in patients && p.id == m.patientId;
      assert p in patients';
    }
  }

  class Database {
    var users: seq<User>
    var patients: seq<Patient>
    var doctors: seq<Doctor>
    var mappings: seq<Mapping>
    /** The next primary key of each table. */
    var nextUserId: Id
    var nextPatientId: Id
    var nextDoctorId: Id
    var nextMappingId: Id
    /** The tick that `auto_now_add` reads; it moves on after every insert. */
    var clock: nat

    ghost predicate Valid()
      reads this
    {
      && Consistent(users, patients, doctors, mappings)
      && (forall u :: u in users ==> u.id < nextUserId)
      && (forall p :: p in patients ==> p.id < nextPatientId && p.createdAt < clock)
      && (forall d :: d in doctors ==> d.id < nextDoctorId && d.createdAt < clock)
      && (forall m :: m in mappings ==> m.id < nextMappingId && m.assignedAt < clock)
    }

    constructor ()
      ensures Valid()
      ensures users == [] && patients == [] && doctors == [] && mappings == []
    {
      users, patients, doctors, mappings := [], [], [], [];
      nextUserId, nextPatientId, nextDoctorId, nextMappingId := 1, 1, 1, 1;
      clock := 0;
    }

    /** Writes the four tables back at once; they keep every constraint, and the counters
        and the clock stay ahead of every row. This stands for no operation of the program:
        it is only how the methods that rebuild a table store the result. */
    method Commit(users': seq<User>, patients': seq<Patient>, doctors': seq<Doctor>, mappings': seq<Mapping>)
      requires Consistent(users', patients', doctors', mappings')
      requires forall u :: u in users' ==> u.id < nextUserId
      requires forall p :: p in patients' ==> p.id < nextPatientId && p.createdAt < clock
      requires forall d :: d in doctors' ==> d.id < nextDoctorId && d.createdAt < clock
      requires forall m :: m in mappings' ==> m.id < nextMappingId && m.assignedAt < clock
      modifies this`users, this`patients, this`doctors, this`mappings
      ensures Valid()
      ensures users == users' && patients == patients' && doctors == doctors' && mappings == mappings'
    {
      users, patients, doctors, mappings := users', patients', doctors', mappings';
    }

    /** `UserManager.create_user`: refuses an empty email and stores nothing; otherwise adds an
        active, non-admin account with the given fields. The email column is unique. */
    method CreateUser(email: string, name: string, tc: bool, password: Option<string>)
      returns (r: Result<User, CreateUserError>)
      requires Valid()
      modifies this
      ensures Valid()
      ensures email == "" ==> r == Err(MissingEmail)
      ensures email != "" && EmailTaken(old(users), email) ==> r == Err(DuplicateEmail)
      ensures r.Ok? <==> email != "" && !EmailTaken(old(users), email)
      ensures r.Err? ==> unchanged(this)
      ensures r.Ok? ==>
        && r.value == User(old(nextUserId), email, name, tc, password, true, false)
        && users == old(users) + [r.value]
        && patients == old(patients) && doctors == old(doctors) && mappings == old(mappings)
    {
      if email == "" {
        return Err(MissingEmail);
      }
      if EmailTaken(users, email) {
        return Err(DuplicateEmail);
      }
      var u := User(nextUserId, email, name, tc, password, true, false);
      AppendPairwise(users, u, DistinctUsers);
      users := users + [u];
      nextUserId := nextUserId + 1;
      r := Ok(u);
    }

    /** `UserManager.create_superuser`: `create_user`, then `is_admin` set on the stored row. */
    method CreateSuperuser(email: string, name: string, tc: bool, password: Option<string>)
      returns (r: Result<User, CreateUserError>)
      requires Valid()
      modifies this
      ensures Valid()
      ensures email == "" ==> r == Err(MissingEmail)
      ensures email != "" && EmailTaken(old(users), email) ==> r == Err(DuplicateEmail)
      ensures r.Ok? <==> email != "" && !EmailTaken(old(users), email)
      ensures r.Err? ==> unchanged(this)
      ensures r.Ok? ==>
        && r.value == User(old(nextUserId), email, name, tc, password, true, true)
        && users == old(users) + [r.value]
        && patients == old(patients) && doctors == old(doctors) && mappings == old(mappings)
    {
      var before := users;
      r := CreateUser(email, name, tc, password);
      if r.Ok? {
        var admin := r.value.(isAdmin := true);
        AppendPairwise(before, admin, DistinctUsers);
        users := before + [admin];
        r := Ok(admin);
      }
    }

    /** `UserRegistrationSerializer`: `is_valid`, then `create` with `password2` dropped. */
    method Register(form: RegistrationForm) returns (r: Result<User, RegistrationError>)
      requires Valid()
      modifies this
      ensures Valid()
      ensures r.Ok? <==> ValidateRegistration(old(users), form).Ok?
      ensures r.Err? ==> r.error == ValidateRegistration(old(users), form).error && unchanged(this)
      ensures r.Ok? ==>
        && r.value == RegisteredUser(old(nextUserId), DropConfirmation(Cleaned(form)))
        && users == old(users) + [r.value]
        && patients == old(patients) && doctors == old(doctors) && mappings == old(mappings)
    {
      var checked := ValidateRegistration(users, form);
      if checked.Err? {
        return Err(checked.error);
      }
      var n := DropConfirmation(checked.value);
      var created := CreateUser(n.email, n.name, n.tc, Some(n.password));
      match created
      case Ok(u) =>
        r := Ok(u);
      case Err(_) =>
        assert false;
    }

    /** `PatientCreateView.perform_create`: the new patient belongs to the requester.
        A gender outside the choice table is refused. */
    method CreatePatient(requester: Id, info: PatientInfo) returns (r: Result<Patient, PatientError>)
      requires Valid() && requester in UserIds(users)
      modifies this
      ensures Valid()
      ensures r.Err? <==> !IsGenderCode(info.gender)
      ensures r.Err? ==> r.error == InvalidGender && unchanged(this)
      ensures r.Ok? ==>
        && r.value == Patient(old(nextPatientId), requester, info, old(clock))
        && patients == [r.value] + old(patients)
        && users == old(users) && doctors == old(doctors) && mappings == old(mappings)
    {
      if !IsGenderCode(info.gender) {
        return Err(InvalidGender);
      }
      var p := Patient(nextPatientId, requester, info, clock);
      PrependPairwise(p, patients, PatientBefore);
      patients := [p] + patients;
      nextPatientId, clock := nextPatientId + 1, clock + 1;
      r := Ok(p);
    }

    /** Update through `PatientDetailView`: only the requester's own patient is found; its
        fields are replaced, its owner, key and creation tick are kept. */
    method UpdatePatient(requester: Id, id: Id, info: PatientInfo) returns (r: Result<Patient, PatientError>)
      requires Valid()
      modifies this
      ensures Valid()
      ensures FindOwnedPatient(old(patients), requester, id).None? ==> r == Err(PatientNotFound)
      ensures FindOwnedPatient(old(patients), requester, id).Some? && !IsGenderCode(info.gender) ==> r == Err(InvalidGender)
      ensures r.Ok? <==> FindOwnedPatient(old(patients), requester, id).Some? && IsGenderCode(info.gender)
      ensures r.Err? ==> unchanged(this)
      ensures r.Ok? ==>
        && FindOwnedPatient(old(patients), requester, id).Some?
        && r.value == FindOwnedPatient(old(patients), requester, id).value.(info := info)
        && r.value in patients
        && patients == ReplaceInfo(old(patients), id, info)
        && users == old(users) && doctors == old(doctors) && mappings == old(mappings)
    {
      var found := FindOwnedPatient(patients, requester, id);
      if found.None? {
        return Err(PatientNotFound);
      }
      if !IsGenderCode(info.gender) {
        return Err(InvalidGender);
      }
      var after := ReplaceInfo(patients, id, info);
      ReplaceInfoKeepsConsistent(users, patients, doctors, mappings, id, info, nextPatientId, clock);
      var k :| 0 <= k < |patients| && patients[k] == found.value;
      assert after[k] == found.value.(info := info);
      r := Ok(after[k]);
      Commit(users, after, doctors, mappings);
    }

    /** Delete through `PatientDetailView`: only the requester's own patient is found; it goes,
        and with it every mapping that points at it. */
    method DeletePatient(requester: Id, id: Id) returns (r: Result<(), NotFound>)
      requires Valid()
      modifies this
      ensures Valid()
      ensures r.Err? <==> FindOwnedPatient(old(patients), requester, id).None?
      ensures r.Err? ==> unchanged(this)
      ensures r.Ok? ==>
        && patients == RemovePatient(old(patients), id)
        && mappings == CascadeMappings(old(mappings), {id}, {})
        && users == old(users) && doctors == old(doctors)
    {
      var found := FindOwnedPatient(patients, requester, id);
      if found.None? {
        return Err(NotFound);
      }
      patients := RemovePatient(patients, id);
      mappings := CascadeMappings(mappings, {id}, {});
      forall m | m in mappings ensures m.patientId in PatientIds(patients) {
        var p :| p in old(patients) && p.id == m.patientId;
        assert p in patients;
      }
      r := Ok(());
    }

    /** `DoctorCreateView`: any authenticated user adds a doctor once every field is valid;
        a doctor not said to be unavailable is available. */
    method CreateDoctor(form: DoctorForm) returns (r: Result<Doctor, set<DoctorField>>)
      requires Valid()
      modifies this
      ensures Valid()
      ensures r.Err? <==> DoctorFormErrors(old(doctors), form) != {}
      ensures r.Err? ==> r.error == DoctorFormErrors(old(doctors), form) && unchanged(this)
      ensures r.Ok? ==>
        && r.value.id == old(nextDoctorId) && r.value.createdAt == old(clock)
        && r.value.info.specialization.Code() == form.specialization
        && r.value.info.experienceYears == form.experienceYears
        && r.value.info.licenseNumber == form.licenseNumber
        && r.value.info.firstName == form.firstName && r.value.info.lastName == form.lastName
        && r.value.info.phoneNumber == form.phoneNumber && r.value.info.email == form.email
        && r.value.info.gender == form.gender && r.value.info.address == form.address
        && r.value.info.isAvailable == (form.isAvailable != Some(false))
        && doctors == [r.value] + old(doctors)
        && users == old(users) && patients == old(patients) && mappings == old(mappings)
    {
      var bad := DoctorFormErrors(doctors, form);
      if bad != {} {
        return Err(bad);
      }
      var info := DoctorInfo(
        form.firstName, form.lastName, ParseSpecialization(form.specialization).value,
        form.licenseNumber, form.phoneNumber, form.email, form.experienceYears as nat,
        form.gender, form.address, form.isAvailable != Some(false));
      var d := Doctor(nextDoctorId, info, clock);
      PrependPairwise(d, doctors, DoctorBefore);
      doctors := [d] + doctors;
      nextDoctorId, clock := nextDoctorId + 1, clock + 1;
      r := Ok(d);
    }

    /** Delete through `DoctorDetailView`: any doctor, whoever asks; its mappings go with it. */
    method DeleteDoctor(id: Id) returns (r: Result<(), NotFound>)
      requires Valid()
      modifies this
      ensures Valid()
      ensures r.Err? <==> id !in DoctorIds(old(doctors))
      ensures r.Err? ==> unchanged(this)
      ensures r.Ok? ==>
        && doctors == RemoveDoctor(old(doctors), id)
        && mappings == CascadeMappings(old(mappings), {}, {id})
        && users == old(users) && patients == old(patients)
    {
      var found := FindDoctor(doctors, id);
      if found.None? {
        return Err(NotFound);
      }
      doctors := RemoveDoctor(doctors, id);
      mappings := CascadeMappings(mappings, {}, {id});
      forall m | m in mappings ensures m.doctorId in DoctorIds(doctors) {
        var d :| d in old(doctors) && d.id == m.doctorId;
        assert d in doctors;
      }
      r := Ok(());
    }

    /** `on_delete=CASCADE` from a user: the account, its patients, and their mappings go. */
    method DeleteUser(id: Id) returns (r: Result<(), NotFound>)
      requires Valid()
      modifies this
      ensures Valid()
      ensures r.Err? <==> id !in UserIds(old(users))
      ensures r.Err? ==> unchanged(this)
      ensures r.Ok? ==>
        && users == RemoveUser(old(users), id)
        && patients == RemovePatientsOf(old(patients), id)
        && mappings == CascadeMappings(old(mappings), set p | p in old(patients) && p.owner == id :: p.id, {})
        && doctors == old(doctors)
    {
      if id !in UserIds(users) {
        return Err(NotFound);
      }
      DeleteUserKeepsConsistent(users, patients, doctors, mappings, id);
      var doomed := set p | p in patients && p.owner == id :: p.id;
      users := RemoveUser(users, id);
      patients := RemovePatientsOf(patients, id);
      mappings := CascadeMappings(mappings, doomed, {});
      r := Ok(());
    }

    /** `PatientDoctorMappingSerializer.create` as written: the serializer's checks, then an
        insert of an active row with the given notes. The insert is refused by the table when a
        soft-deleted row already joins the pair, which the checks let through. */
    method CreateMapping(patientId: Id, doctorId: Id, notes: Option<string>) returns (r: Result<Mapping, MappingError>)
      requires Valid()
      modifies this
      ensures Valid()
      ensures CheckAssignment(old(patients), old(doctors), old(mappings), patientId, doctorId).Err? ==>
        r.Err? && r.error == CheckAssignment(old(patients), old(doctors), old(mappings), patientId, doctorId).error
      ensures CheckAssignment(old(patients), old(doctors), old(mappings), patientId, doctorId).Ok? ==>
        (r == Err(IntegrityError) <==> HasAnyMapping(old(mappings), patientId, doctorId))
      ensures r.Ok? <==>
        CheckAssignment(old(patients), old(doctors), old(mappings), patientId, doctorId).Ok?
        && !HasAnyMapping(old(mappings), patientId, doctorId)
      ensures r.Err? ==> unchanged(this)
      ensures r.Ok? ==>
        && r.value == Mapping(old(nextMappingId), patientId, doctorId, old(clock), true, notes)
        && mappings == [r.value] + old(mappings)
        && users == old(users) && patients == old(patients) && doctors == old(doctors)
    {
      var checked := CheckAssignment(patients, doctors, mappings, patientId, doctorId);
      if checked.Err? {
        return Err(checked.error);
      }
      if FindPair(mappings, patientId, doctorId).Some? {
        return Err(IntegrityError);
      }
      r := InsertMapping(patientId, doctorId, notes);
    }

    /** Adds an active row for a pair that no row joins yet. */
    method InsertMapping(patientId: Id, doctorId: Id, notes: Option<string>) returns (r: Result<Mapping, MappingError>)
      requires Valid()
      requires patientId in PatientIds(patients) && doctorId in DoctorIds(doctors)
      requires !HasAnyMapping(mappings, patientId, doctorId)
      modifies this
      ensures Valid()
      ensures r == Ok(Mapping(old(nextMappingId), patientId, doctorId, old(clock), true, notes))
      ensures mappings == [r.value] + old(mappings)
      ensures users == old(users) && patients == old(patients) && doctors == old(doctors)
    {
      var m := Mapping(nextMappingId, patientId, doctorId, clock, true, notes);
      PrependPairwise(m, mappings, MappingBefore);
      PrependPairwise(m, mappings, DifferentPair);
      mappings := [m] + mappings;
      nextMappingId, clock := nextMappingId + 1, clock + 1;
      r := Ok(m);
    }

    /** The corrected creation's reuse of row `id`, a soft-deleted row for the pair: the row
        becomes active with the new notes and stays the only row for its pair. */
    method ReactivateMapping(id: Id, patientId: Id, doctorId: Id, notes: Option<string>)
      returns (r: Mapping)
      requires Valid()
      requires exists m :: m in mappings && m.id == id && m.patientId == patientId && m.doctorId == doctorId
      modifies this
      ensures Valid()
      ensures mappings == Reactivated(old(mappings), id, notes)
      ensures SoleRowOfPair(mappings, r)
      ensures r.id == id && r.isActive && r.notes == notes && r.patientId == patientId && r.doctorId == doctorId
      ensures users == old(users) && patients == old(patients) && doctors == old(doctors)
    {
      var k := RowPosition(mappings, id, patientId, doctorId);
      var after := Reactivated(mappings, id, notes);
      ReactivatedSoleRow(users, patients, doctors, mappings, id, k, notes, nextMappingId, clock);
      r := after[k];
      Commit(users, patients, doctors, after);
    }


    /** The corrected creation: the same checks and the same errors, but a soft-deleted row
        for the pair is activated again instead of being duplicated, so the table never refuses
        the request and afterwards exactly one row, an active one, joins the pair. */
    method CreateMappingReactivating(patientId: Id, doctorId: Id, notes: Option<string>)
      returns (r: Result<Mapping, MappingError>)
      requires Valid()
      modifies this
      ensures Valid()
      ensures r.Err? <==> CheckAssignment(old(patients), old(doctors), old(mappings), patientId, doctorId).Err?
      ensures r.Err? ==>
        r.error == CheckAssignment(old(patients), old(doctors), old(mappings), patientId, doctorId).error && unchanged(this)
      ensures r.Ok? ==>
        && SoleRowOfPair(mappings, r.value) && r.value.isActive && r.value.notes == notes
        && r.value.patientId == patientId && r.value.doctorId == doctorId
        && users == old(users) && patients == old(patients) && doctors == old(doctors)
      ensures PlanAssignment(old(patients), old(doctors), old(mappings), patientId, doctorId) == Ok(InsertRow) ==>
        && r == Ok(Mapping(old(nextMappingId), patientId, doctorId, old(clock), true, notes))
        && mappings == [r.value] + old(mappings)
      ensures forall id :: PlanAssignment(old(patients), old(doctors), old(mappings), patientId, doctorId) == Ok(Reactivate(id)) ==>
        r.Ok? && r.value.id == id && mappings == Reactivated(old(mappings), id, notes)
    {
      var plan := PlanAssignment(patients, doctors, mappings, patientId, doctorId);
      match plan
      case Err(e) =>
        r := Err(e);
      case Ok(InsertRow) =>
        r := InsertMapping(patientId, doctorId, notes);
        OnlyRowForPair(mappings, 0);
      case Ok(Reactivate(id)) =>
        var m := ReactivateMapping(id, patientId, doctorId, notes);
        r := Ok(m);
    }

    /** `PatientDoctorMappingDeleteView.perform_destroy`: any row, active or not, is found by
        its key; it stays in the table with `is_active` false and every other field unchanged. */
    method SoftDeleteMapping(id: Id) returns (r: Result<(), NotFound>)
      requires Valid()
      modifies this
      ensures Valid()
      ensures r.Err? <==> FindMapping(old(mappings), id).None?
      ensures r.Err? ==> unchanged(this)
      ensures r.Ok? ==>
        && mappings == Deactivate(old(mappings), id)
        && users == old(users) && patients == old(patients) && doctors == old(doctors)
    {
      if FindMapping(mappings, id).None? {
        return Err(NotFound);
      }
      var after := Deactivate(mappings, id);
      DeactivateKeepsConsistent(users, patients, doctors, mappings, id, nextMappingId, clock);
      mappings := after;
      r := Ok(());
    }
  }
}
