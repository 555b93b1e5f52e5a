/** The four tables of the healthcare backend: users, patients (each owned by a user),
    doctors, and patient-doctor mappings, with their choice tables, the derived names,
    the permission answers of a user, and the constraints every table keeps. */
module Models {
  import opened Results
  import opened Seqs

  /** A primary key; Django assigns them in increasing order. */
  type Id = nat

  /** A user account. `password` is the stored credential that `set_password` leaves;
      `None` is Django's unusable password (no password given). */
  datatype User = User(
    id: Id, email: string, name: string, tc: bool,
    password: Option<string>, isActive: bool, isAdmin: bool)
  {
    /** `__str__`: a user is shown by its email. */
    function Str(): (r: string)
      ensures r == email
    {
      email
    }

    /** Every permission question gets the same answer: whether the user is an admin. */
    predicate HasPerm(perm: string) {
      isAdmin
    }

    /** Every app is visible to every user. */
    predicate HasModulePerms(appLabel: string) {
      true
    }

    /** All admins are staff, and only they. */
    predicate IsStaff() {
      isAdmin
    }
  }

  /** `is_staff` and `has_perm` agree with `is_admin` for every permission, and
      `has_module_perms` grants every app. */
  lemma PermissionsFollowAdmin(u: User, perm: string, appLabel: string)
    ensures u.IsStaff() <==> u.isAdmin
    ensures u.HasPerm(perm) <==> u.isAdmin
    ensures u.HasPerm(perm) == u.IsStaff()
    ensures u.HasModulePerms(appLabel)
  {
  }

  /** The gender choices shared by patients and doctors: (stored code, label). */
  const GenderChoices: seq<(string, string)> := [("M", "Male"), ("F", "Female"), ("O", "Other")]

  predicate IsGenderCode(g: string) {
    exists i :: 0 <= i < |GenderChoices| && GenderChoices[i].0 == g
  }

  lemma GenderCodes(g: string)
    ensures IsGenderCode(g) <==> g == "M" || g == "F" || g == "O"
  {
    if g == "M" { assert GenderChoices[0].0 == g; }
    if g == "F" { assert GenderChoices[1].0 == g; }
    if g == "O" { assert GenderChoices[2].0 == g; }
  }

  /** The twelve specializations a doctor may have. */
  datatype Specialization =
    | Cardiology | Dermatology | Endocrinology | Gastroenterology | Neurology | Oncology
    | Orthopedics | Pediatrics | Psychiatry | Radiology | Surgery | GeneralMedicine
  {
    /** The code stored in the `specialization` column. */
    function Code(): string {
      match this
      case Cardiology => "CAR"
      case Dermatology => "DER"
      case Endocrinology => "END"
      case Gastroenterology => "GAST"
      case Neurology => "NEU"
      case Oncology => "ONC"
      case Orthopedics => "ORT"
      case Pediatrics => "PED"
      case Psychiatry => "PSY"
      case Radiology => "RAD"
      case Surgery => "SUR"
      case GeneralMedicine => "GEN"
    }

    /** The human-readable label (`get_specialization_display`). */
    function Label(): string {
      match this
      case Cardiology => "Cardiology"
      case Dermatology => "Dermatology"
      case Endocrinology => "Endocrinology"
      case Gastroenterology => "Gastroenterology"
      case Neurology => "Neurology"
      case Oncology => "Oncology"
      case Orthopedics => "Orthopedics"
      case Pediatrics => "Pediatrics"
      case Psychiatry => "Psychiatry"
      case Radiology => "Radiology"
      case Surgery => "Surgery"
      case GeneralMedicine => "General Medicine"
    }
  }

  /** The specialization choice table in its declared order: (code, label). */
  const SpecializationChoices: seq<(string, string)> := [
    ("CAR", "Cardiology"), ("DER", "Dermatology"), ("END", "Endocrinology"),
    ("GAST", "Gastroenterology"), ("NEU", "Neurology"), ("ONC", "Oncology"),
    ("ORT", "Orthopedics"), ("PED", "Pediatrics"), ("PSY", "Psychiatry"),
    ("RAD", "Radiology"), ("SUR", "Surgery"), ("GEN", "General Medicine")]

  /** Reads a stored code back; `None` for a code outside the choice table. */
  function ParseSpecialization(code: string): (r: Option<Specialization>)
    ensures r.Some? ==> r.value.Code() == code
    ensures r.None? ==> forall s: Specialization :: s.Code() != code
  {
    if code == "CAR" then Some(Cardiology)
    else if code == "DER" then Some(Dermatology)
    else if code == "END" then Some(Endocrinology)
    else if code == "GAST" then Some(Gastroenterology)
    else if code == "NEU" then Some(Neurology)
    else if code == "ONC" then Some(Oncology)
    else if code == "ORT" then Some(Orthopedics)
    else if code == "PED" then Some(Pediatrics)
    else if code == "PSY" then Some(Psychiatry)
    else if code == "RAD" then Some(Radiology)
    else if code == "SUR" then Some(Surgery)
    else if code == "GEN" then Some(GeneralMedicine)
    else None
  }

  /** Reading a stored code back gives the specialization that wrote it. */
  lemma {:induction false} ParseInvertsCode(s: Specialization)
    ensures ParseSpecialization(s.Code()) == Some(s)
  {
    match s
    case Cardiology =>
    case Dermatology =>
    case Endocrinology =>
    case Gastroenterology =>
    case Neurology =>
    case Oncology =>
    case Orthopedics =>
    case Pediatrics =>
    case Psychiatry =>
    case Radiology =>
    case Surgery =>
    case GeneralMedicine =>
  }

  /** The position of a specialization in the choice table. */
  function ChoiceIndex(s: Specialization): (i: nat)
    ensures i < |SpecializationChoices| && SpecializationChoices[i] == (s.Code(), s.Label())
  {
    match s
    case Cardiology => 0
    case Dermatology => 1
    case Endocrinology => 2
    case Gastroenterology => 3
    case Neurology => 4
    case Oncology => 5
    case Orthopedics => 6
    case Pediatrics => 7
    case Psychiatry => 8
    case Radiology => 9
    case Surgery => 10
    case GeneralMedicine => 11
  }

  /** The twelve (code, label) pairs of the choice table are twelve different rows. */
  lemma {:induction false} ChoiceTableRowsDistinct()
    ensures |SpecializationChoices| == 12
    ensures forall i, j :: 0 <= i < j < 12 ==>
      SpecializationChoices[i].0 != SpecializationChoices[j].0 && SpecializationChoices[i].1 != SpecializationChoices[j].1
  {
  }

  /** Codes and labels are one-to-one with the specializations: two specializations with
      the same code, or the same label, are the same one, and each sits in the table once. */
  lemma {:induction false} SpecializationsOneToOne(s: Specialization, t: Specialization)
    ensures (s.Code(), s.Label()) in SpecializationChoices
    ensures s.Code() == t.Code() ==> s == t
    ensures s.Label() == t.Label() ==> s == t
  {
    ParseInvertsCode(s);
    ParseInvertsCode(t);
    ChoiceTableRowsDistinct();
    var i, j := ChoiceIndex(s), ChoiceIndex(t);
    if s.Label() == t.Label() {
      assert SpecializationChoices[i].1 == SpecializationChoices[j].1;
      assert i == j;
    }
  }

  /** `first last`, as `full_name` and `__str__` format a person. */
  function PersonName(first: string, last: string): (r: string)
    ensures |r| == |first| + 1 + |last|
    ensures r[..|first|] == first && r[|first|] == ' ' && r[|first| + 1..] == last
  {
    first + " " + last
  }

  /** The fields a client supplies for a patient. */
  datatype PatientInfo = PatientInfo(
    firstName: string, lastName: string, dateOfBirth: string, gender: string,
    phoneNumber: string, address: string, medicalHistory: Option<string>,
    emergencyContact: string, emergencyPhone: string)

  /** A patient row: the owning user, the supplied fields and the creation tick. */
  datatype Patient = Patient(id: Id, owner: Id, info: PatientInfo, createdAt: nat)
  {
    function FullName(): string {
      PersonName(info.firstName, info.lastName)
    }

    function Str(): string {
      FullName()
    }
  }

  /** The fields a client supplies for a doctor, once the specialization code has been
      read and `experience_years` checked to be non-negative. */
  datatype DoctorInfo = DoctorInfo(
    firstName: string, lastName: string, specialization: Specialization,
    licenseNumber: string, phoneNumber: string, email: string, experienceYears: nat,
    gender: string, address: string, isAvailable: bool)

  datatype Doctor = Doctor(id: Id, info: DoctorInfo, createdAt: nat)
  {
    function FullName(): string {
      "Dr. " + PersonName(info.firstName, info.lastName)
    }

    /** `Dr. first last - Label`. */
    function Str(): string {
      FullName() + " - " + info.specialization.Label()
    }
  }

  /** A patient's `full_name` is the first name, one space and the last name; a doctor's
      is the same text after the title `Dr. `, and its `__str__` appends the specialization. */
  lemma FullNames(p: Patient, d: Doctor)
    ensures p.FullName() == p.Str()
    ensures |p.FullName()| == |p.info.firstName| + 1 + |p.info.lastName|
    ensures p.FullName()[..|p.info.firstName|] == p.info.firstName
    ensures p.FullName()[|p.info.firstName| + 1..] == p.info.lastName
    ensures d.FullName()[..4] == "Dr. "
    ensures d.FullName()[4..] == PersonName(d.info.firstName, d.info.lastName)
    ensures d.Str()[..|d.FullName()|] == d.FullName()
    ensures d.Str()[|d.FullName()|..] == " - " + d.info.specialization.Label()
  {
  }

  /** A patient-doctor assignment; rows are never removed by the API, only deactivated. */
  datatype Mapping = Mapping(
    id: Id, patientId: Id, doctorId: Id, assignedAt: nat, isActive: bool, notes: Option<string>)

  /** `__str__` of a mapping, given its patient and doctor: the patient's `full_name`, a
      dash, and the doctor's `full_name`, which begins with `Dr. `. */
  function MappingStr(p: Patient, d: Doctor): (r: string)
    ensures |r| == |p.FullName()| + 3 + |d.FullName()|
    ensures r[..|p.FullName()|] == p.FullName()
    ensures r[|p.FullName()|..|p.FullName()| + 7] == " - Dr. "
    ensures r[|p.FullName()| + 7..] == PersonName(d.info.firstName, d.info.lastName)
  {
    FullNames(p, d);
    var r := p.FullName() + " - " + d.FullName();
    assert r[..|p.FullName()|] == p.FullName();
    assert r[|p.FullName()|..] == " - " + d.FullName();
    r
  }

  function UserIds(users: seq<User>): set<Id> {
    set u | u in users :: u.id
  }

  function PatientIds(patients: seq<Patient>): set<Id> {
    set p | p in patients :: p.id
  }

  function DoctorIds(doctors: seq<Doctor>): set<Id> {
    set d | d in doctors :: d.id
  }

  /** Two distinct user rows: distinct keys and distinct emails (`unique=True`). */
  predicate DistinctUsers(a: User, b: User) {
    a.id != b.id && a.email != b.email
  }

  /** `a` was created after `b` (newest first, `ordering = ['-created_at']`). */
  predicate PatientBefore(a: Patient, b: Patient) {
    a.id > b.id && a.createdAt > b.createdAt
  }

  /** Newest first, and license numbers are unique. */
  predicate DoctorBefore(a: Doctor, b: Doctor) {
    a.id > b.id && a.createdAt > b.createdAt && a.info.licenseNumber != b.info.licenseNumber
  }

  /** Newest assignment first (`ordering = ['-assigned_date']`). */
  predicate MappingBefore(a: Mapping, b: Mapping) {
    a.id > b.id && a.assignedAt > b.assignedAt
  }

  /** `unique_together = ['patient', 'doctor']`: the pair differs, active or not. */
  predicate DifferentPair(a: Mapping, b: Mapping) {
    a.patientId != b.patientId || a.doctorId != b.doctorId
  }

  ghost predicate UsersOk(users: seq<User>) {
    Pairwise(users, DistinctUsers)
  }

  /** With unique emails, the email picks out one row. */
  lemma SameEmailSameUser(users: seq<User>, u: User, v: User)
    requires Pairwise(users, DistinctUsers)
    requires u in users && v in users && u.email == v.email
    ensures u == v
  {
    var i :| 0 <= i < |users| && users[i] == u;
    var j :| 0 <= j < |users| && users[j] == v;
    forall a, b | 0 <= a < |users| && 0 <= b < |users| && a != b
      ensures users[a].email != users[b].email
    {
      if a < b {
        assert DistinctUsers(users[a], users[b]);
      } else {
        assert DistinctUsers(users[b], users[a]);
      }
    }
    assert i == j;
  }

  /** Two different accounts of a valid user table are shown differently. */
  lemma UserStrIdentifies(users: seq<User>)
    requires Pairwise(users, DistinctUsers)
    ensures forall u, v :: u in users && v in users && u != v ==> u.Str() != v.Str()
  {
    forall u, v | u in users && v in users && u.Str() == v.Str() ensures u == v {
      SameEmailSameUser(users, u, v);
    }
  }

  ghost predicate PatientsOk(patients: seq<Patient>, users: seq<User>) {
    && Pairwise(patients, PatientBefore)
    && (forall p :: p in patients ==> p.owner in UserIds(users) && IsGenderCode(p.info.gender))
  }

  ghost predicate DoctorsOk(doctors: seq<Doctor>) {
    && Pairwise(doctors, DoctorBefore)
    && (forall d :: d in doctors ==> IsGenderCode(d.info.gender))
  }

  /** At most one row per (patient, doctor) pair. */
  ghost predicate UniquePairs(mappings: seq<Mapping>) {
    Pairwise(mappings, DifferentPair)
  }

  ghost predicate MappingsOk(mappings: seq<Mapping>, patients: seq<Patient>, doctors: seq<Doctor>) {
    && Pairwise(mappings, MappingBefore)
    && UniquePairs(mappings)
    && (forall m :: m in mappings ==> m.patientId in PatientIds(patients) && m.doctorId in DoctorIds(doctors))
  }

  /** Every constraint of the schema: keys, uniqueness, foreign keys, choices and order. */
  ghost predicate Consistent(users: seq<User>, patients: seq<Patient>, doctors: seq<Doctor>, mappings: seq<Mapping>) {
    UsersOk(users) && PatientsOk(patients, users) && DoctorsOk(doctors) && MappingsOk(mappings, patients, doctors)
  }
}
