/** The explicit checks of the serializers: registration, login and mapping creation. */
module Serializers {
  import opened Results
  import opened Seqs
  import opened Models
  import opened Text

  /** Both password fields declare `min_length=6`. */
  const MinPasswordLength: nat := 6

  /** The body of a registration request. */
  datatype RegistrationForm = RegistrationForm(
    email: string, name: string, tc: bool, password: string, password2: string)

  /** The arguments `create` passes to `create_user`: the form without `password2`. */
  datatype NewUser = NewUser(email: string, name: string, tc: bool, password: string)

  datatype RegistrationField = EmailField | NameField | PasswordField | Password2Field

  /** Field errors are reported together; the cross-field check runs only once every field is valid. */
  datatype RegistrationError = FieldErrors(fields: set<RegistrationField>) | PasswordsDontMatch

  predicate EmailTaken(users: seq<User>, email: string) {
    exists u :: u in users && u.email == email
  }

  /** What the serializer's fields hand on: every `CharField`, the `EmailField` included,
      strips surrounding whitespace from its input. */
  function Cleaned(form: RegistrationForm): (c: RegistrationForm)
    ensures c.email == Strip(form.email) && c.name == Strip(form.name) && c.tc == form.tc
    ensures c.password == Strip(form.password) && c.password2 == Strip(form.password2)
  {
    RegistrationForm(Strip(form.email), Strip(form.name), form.tc, Strip(form.password), Strip(form.password2))
  }

  /** What the field checks see: each text field is already stripped, so stripping it again
      changes nothing, and it is empty exactly when it was typed as whitespace alone. */
  lemma CleanedFieldsStripped(form: RegistrationForm)
    ensures var c := Cleaned(form);
      && Strip(c.email) == c.email && Strip(c.name) == c.name
      && Strip(c.password) == c.password && Strip(c.password2) == c.password2
    ensures var c := Cleaned(form);
      && (c.email == "" <==> AllWhitespace(form.email, PyWhitespace))
      && (c.name == "" <==> AllWhitespace(form.name, PyWhitespace))
      && (c.password == "" <==> AllWhitespace(form.password, PyWhitespace))
      && (c.password2 == "" <==> AllWhitespace(form.password2, PyWhitespace))
  {
    TrimBothIdempotent(form.email, PyWhitespace);
    TrimBothIdempotent(form.name, PyWhitespace);
    TrimBothIdempotent(form.password, PyWhitespace);
    TrimBothIdempotent(form.password2, PyWhitespace);
    BlankIffAllWhitespace(form.email, PyWhitespace);
    BlankIffAllWhitespace(form.name, PyWhitespace);
    BlankIffAllWhitespace(form.password, PyWhitespace);
    BlankIffAllWhitespace(form.password2, PyWhitespace);
  }

  /** The fields of the validated data that fail on their own: a blank or
      already-registered email (the email column is unique), a blank name (a required
      `CharField`), and a password or confirmation shorter than six characters. */
  function InvalidFields(users: seq<User>, data: RegistrationForm): (fields: set<RegistrationField>)
    ensures EmailField in fields <==> data.email == "" || EmailTaken(users, data.email)
    ensures NameField in fields <==> data.name == ""
    ensures PasswordField in fields <==> |data.password| < MinPasswordLength
    ensures Password2Field in fields <==> |data.password2| < MinPasswordLength
  {
    (if data.email == "" || EmailTaken(users, data.email) then {EmailField} else {})
    + (if data.name == "" then {NameField} else {})
    + (if |data.password| < MinPasswordLength then {PasswordField} else {})
    + (if |data.password2| < MinPasswordLength then {Password2Field} else {})
  }

  /** `UserRegistrationSerializer.is_valid`: the fields strip their inputs and check them,
      then `validate` rejects a confirmation that differs from the password, both compared
      once stripped. The validated data is the stripped form. */
  function ValidateRegistration(users: seq<User>, form: RegistrationForm): (r: Result<RegistrationForm, RegistrationError>)
    ensures r.Ok? <==>
      var c := Cleaned(form);
      && c.email != "" && !EmailTaken(users, c.email) && c.name != ""
      && |c.password| >= MinPasswordLength && |c.password2| >= MinPasswordLength
      && c.password == c.password2
    ensures r.Ok? ==> r.value == Cleaned(form)
    ensures r == Err(PasswordsDontMatch) <==>
      InvalidFields(users, Cleaned(form)) == {} && Cleaned(form).password != Cleaned(form).password2
    ensures r.Err? && r.error.FieldErrors? ==> r.error.fields == InvalidFields(users, Cleaned(form)) != {}
  {
    var c := Cleaned(form);
    var bad := InvalidFields(users, c);
    if bad != {} then
      Err(FieldErrors(bad))
    else if c.password != c.password2 then
      Err(PasswordsDontMatch)
    else
      Ok(c)
  }

  /** A password typed with a trailing space and its confirmation typed without one are the
      same password to the server, which stores it without the space. */
  lemma PaddedPasswordAccepted(users: seq<User>, form: RegistrationForm)
    requires Strip(form.email) != "" && !EmailTaken(users, Strip(form.email)) && Strip(form.name) != ""
    requires |form.password2| >= MinPasswordLength
    requires form.password2[0] !in PyWhitespace && form.password2[|form.password2| - 1] !in PyWhitespace
    requires form.password == form.password2 + " "
    ensures ValidateRegistration(users, form).Ok?
    ensures ValidateRegistration(users, form).value.password == form.password2
  {
    StripOfVisible(form.password2);
    StripTrailingSpace(form.password2);
    var c := Cleaned(form);
    assert c.password == form.password2 && c.password2 == form.password2;
    assert InvalidFields(users, c) == {};
  }

  /** A text with no whitespace at either end is its own stripped value. */
  lemma StripOfVisible(s: string)
    requires s != [] && s[0] !in PyWhitespace && s[|s| - 1] !in PyWhitespace
    ensures Strip(s) == s
  {
  }

  /** A space typed after such a text is stripped away. */
  lemma StripTrailingSpace(s: string)
    requires s != [] && s[0] !in PyWhitespace && s[|s| - 1] !in PyWhitespace
    ensures Strip(s + " ") == s
  {
    var t := s + " ";
    assert t[0] == s[0];
    assert TrimStart(t, PyWhitespace) == t;
    assert t[..|t| - 1] == s;
    assert TrimEnd(t, PyWhitespace) == TrimEnd(s, PyWhitespace);
  }

  /** `create`: pops `password2` and hands everything else to `create_user`. */
  function DropConfirmation(form: RegistrationForm): (n: NewUser)
    ensures n.email == form.email && n.name == form.name && n.tc == form.tc && n.password == form.password
  {
    NewUser(form.email, form.name, form.tc, form.password)
  }

  /** The first user row with this email. */
  function FindByEmail(users: seq<User>, email: string): (r: Option<User>)
    ensures r.Some? ==> r.value in users && r.value.email == email
    ensures r.None? <==> !EmailTaken(users, email)
  {
    if users == [] then None
    else if users[0].email == email then Some(users[0])
    else FindByEmail(users[1..], email)
  }

  /** With unique emails, the lookup finds the one row that has the email. */
  lemma FindByUniqueEmail(users: seq<User>, email: string)
    ensures Pairwise(users, DistinctUsers) ==>
      forall u :: u in users && u.email == email ==> FindByEmail(users, email) == Some(u)
  {
    if Pairwise(users, DistinctUsers) {
      forall u | u in users && u.email == email
        ensures FindByEmail(users, email) == Some(u)
      {
        SameEmailSameUser(users, u, FindByEmail(users, email).value);
      }
    }
  }

  /** `authenticate(email=..., password=...)`: the account with this email whose stored
      password is the one given; with unique emails, that account whenever it exists. */
  function Authenticate(users: seq<User>, email: string, password: string): (r: Option<User>)
    ensures r.Some? ==> r.value in users && r.value.email == email && r.value.password == Some(password)
    ensures Pairwise(users, DistinctUsers) ==>
      forall u :: u in users && u.email == email && u.password == Some(password) ==> r == Some(u)
  {
    FindByUniqueEmail(users, email);
    match FindByEmail(users, email)
    case Some(u) => if u.password == Some(password) then Some(u) else None
    case None => None
  }

  const MsgMissingCredentials := "Must include email and password"
  const MsgInvalidCredentials := "Invalid credentials"
  const MsgAccountDisabled := "User account is disabled"

  datatype LoginField = LoginEmailField | LoginPasswordField

  /** Field errors (absent or blank once stripped), or `validate`'s refusal with its message. */
  datatype LoginError = LoginFieldErrors(fields: set<LoginField>) | LoginRefused(message: string)

  /** A required `CharField` accepts the value: present and not blank once stripped. */
  predicate Filled(value: Option<string>) {
    value.Some? && Strip(value.value) != ""
  }

  /** `UserLoginSerializer.is_valid`: both fields are required and may not be blank; then
      `validate` runs on the stripped values, its checks in order, each with its message. */
  function ValidateLogin(users: seq<User>, email: Option<string>, password: Option<string>): (r: Result<User, LoginError>)
    ensures r.Err? && r.error.LoginFieldErrors? <==> !Filled(email) || !Filled(password)
    ensures r.Err? && r.error.LoginFieldErrors? ==>
      (LoginEmailField in r.error.fields <==> !Filled(email))
      && (LoginPasswordField in r.error.fields <==> !Filled(password))
    ensures r != Err(LoginRefused(MsgMissingCredentials))
    ensures Filled(email) && Filled(password) ==>
      (r == Err(LoginRefused(MsgInvalidCredentials)) <==> Authenticate(users, Strip(email.value), Strip(password.value)).None?)
    ensures r == Err(LoginRefused(MsgAccountDisabled)) <==>
      Filled(email) && Filled(password) && Authenticate(users, Strip(email.value), Strip(password.value)).Some?
      && !Authenticate(users, Strip(email.value), Strip(password.value)).value.isActive
    ensures (Filled(email) && Filled(password) && Authenticate(users, Strip(email.value), Strip(password.value)).Some?
      && Authenticate(users, Strip(email.value), Strip(password.value)).value.isActive) ==>
      r == Ok(Authenticate(users, Strip(email.value), Strip(password.value)).value)
    ensures r.Ok? ==>
      && r.value in users && r.value.isActive
      && r.value.email == Strip(email.value) && r.value.password == Some(Strip(password.value))
  {
    var bad := (if Filled(email) then {} else {LoginEmailField}) + (if Filled(password) then {} else {LoginPasswordField});
    if bad != {} then
      Err(LoginFieldErrors(bad))
    else
      var e := Strip(email.value);
      var p := Strip(password.value);
      if e != "" && p != "" then
        match Authenticate(users, e, p)
        case None => Err(LoginRefused(MsgInvalidCredentials))
        case Some(u) => if !u.isActive then Err(LoginRefused(MsgAccountDisabled)) else Ok(u)
      else
        Err(LoginRefused(MsgMissingCredentials))
  }

  /** The row `create_user` writes for a registration: active, not an admin. */
  function RegisteredUser(id: Id, n: NewUser): User {
    User(id, n.email, n.name, n.tc, Some(n.password), true, false)
  }

  /** A user who has just registered can log in with the email and password typed into the
      form, surrounding whitespace and all. */
  lemma {:induction false} RegisterThenLogin(users: seq<User>, form: RegistrationForm, id: Id)
    requires ValidateRegistration(users, form).Ok?
    ensures var u := RegisteredUser(id, DropConfirmation(ValidateRegistration(users, form).value));
      ValidateLogin(users + [u], Some(form.email), Some(form.password)) == Ok(u)
  {
    var u := RegisteredUser(id, DropConfirmation(ValidateRegistration(users, form).value));
    FindAfterUnusedEmail(users, u);
  }

  /** Appending a user whose email no row uses makes that user the one found by the email. */
  lemma {:induction false} FindAfterUnusedEmail(users: seq<User>, u: User)
    requires !EmailTaken(users, u.email)
    ensures FindByEmail(users + [u], u.email) == Some(u)
  {
    if users != [] {
      assert (users + [u])[1..] == users[1..] + [u];
      assert users[0] in users;
      FindAfterUnusedEmail(users[1..], u);
    }
  }

  const MsgInvalidIds := "Invalid patient or doctor ID"
  const MsgAlreadyAssigned := "This patient is already assigned to this doctor"

  /** Why a mapping was not created. `IntegrityError` is the database refusing a second
      row for a pair, which the serializer does not anticipate. */
  datatype MappingError = InvalidIds | AlreadyAssigned | IntegrityError

  predicate HasActiveMapping(mappings: seq<Mapping>, patientId: Id, doctorId: Id) {
    exists m :: m in mappings && m.patientId == patientId && m.doctorId == doctorId && m.isActive
  }

  predicate HasAnyMapping(mappings: seq<Mapping>, patientId: Id, doctorId: Id) {
    exists m :: m in mappings && m.patientId == patientId && m.doctorId == doctorId
  }

  /** `PatientDoctorMappingSerializer.create` up to the insert, as written: both ids must name
      existing rows (the patient of ANY user), and no ACTIVE mapping may join them. */
  function CheckAssignment(patients: seq<Patient>, doctors: seq<Doctor>, mappings: seq<Mapping>, patientId: Id, doctorId: Id)
    : (r: Result<(), MappingError>)
    ensures r == Err(InvalidIds) <==> patientId !in PatientIds(patients) || doctorId !in DoctorIds(doctors)
    ensures r == Err(AlreadyAssigned) <==>
      patientId in PatientIds(patients) && doctorId in DoctorIds(doctors) && HasActiveMapping(mappings, patientId, doctorId)
    ensures r.Ok? <==>
      patientId in PatientIds(patients) && doctorId in DoctorIds(doctors) && !HasActiveMapping(mappings, patientId, doctorId)
  {
    if patientId !in PatientIds(patients) || doctorId !in DoctorIds(doctors) then Err(InvalidIds)
    else if HasActiveMapping(mappings, patientId, doctorId) then Err(AlreadyAssigned)
    else Ok(())
  }

  /** The discrepancy between the serializer and the table: when the only row for a pair is a
      soft-deleted one, the check passes, yet a new row for the pair breaks `unique_together`. */
  lemma {:induction false} SoftDeletedPairPassesCheck(
    patients: seq<Patient>, doctors: seq<Doctor>, mappings: seq<Mapping>, old_: Mapping, added: Mapping)
    requires UniquePairs(mappings)
    requires old_ in mappings && !old_.isActive
    requires old_.patientId in PatientIds(patients) && old_.doctorId in DoctorIds(doctors)
    requires added.patientId == old_.patientId && added.doctorId == old_.doctorId
    ensures CheckAssignment(patients, doctors, mappings, old_.patientId, old_.doctorId).Ok?
    ensures !UniquePairs([added] + mappings)
  {
    var k :| 0 <= k < |mappings| && mappings[k] == old_;
    UniquePairsAnyOrder(mappings);
    assert ([added] + mappings)[k + 1] == old_;
    assert !DifferentPair(([added] + mappings)[0], ([added] + mappings)[k + 1]);
  }

  /** Under `unique_together`, any two different positions hold different pairs, whichever comes first. */
  lemma UniquePairsAnyOrder(mappings: seq<Mapping>)
    requires UniquePairs(mappings)
    ensures forall j, k :: 0 <= j < |mappings| && 0 <= k < |mappings| && j != k ==> DifferentPair(mappings[j], mappings[k])
  {
    forall j, k | 0 <= j < |mappings| && 0 <= k < |mappings| && j != k
      ensures DifferentPair(mappings[j], mappings[k])
    {
      if j > k {
        assert DifferentPair(mappings[k], mappings[j]);
      }
    }
  }

  /** What the corrected creation does for a pair that passed the checks: insert a new row,
      or, when a soft-deleted row for the pair exists, activate that row again. */
  datatype AssignmentPlan = InsertRow | Reactivate(mappingId: Id)

  /** The corrected `create`: the serializer's checks, then reuse of a soft-deleted row
      instead of an insert that the table's constraint would refuse. */
  function PlanAssignment(patients: seq<Patient>, doctors: seq<Doctor>, mappings: seq<Mapping>, patientId: Id, doctorId: Id)
    : (r: Result<AssignmentPlan, MappingError>)
    ensures r.Err? <==> CheckAssignment(patients, doctors, mappings, patientId, doctorId).Err?
    ensures r.Err? ==> r.error == CheckAssignment(patients, doctors, mappings, patientId, doctorId).error
    ensures r == Ok(InsertRow) ==> !HasAnyMapping(mappings, patientId, doctorId)
    ensures r.Ok? && r.value.Reactivate? ==>
      exists m :: m in mappings && m.id == r.value.mappingId && m.patientId == patientId && m.doctorId == doctorId && !m.isActive
  {
    match CheckAssignment(patients, doctors, mappings, patientId, doctorId)
    case Err(e) => Err(e)
    case Ok(_) =>
      match FindPair(mappings, patientId, doctorId)
      case None => Ok(InsertRow)
      case Some(m) => Ok(Reactivate(m.id))
  }

  /** The first row for the pair, active or not. */
  function FindPair(mappings: seq<Mapping>, patientId: Id, doctorId: Id): (r: Option<Mapping>)
    ensures r.Some? ==> r.value in mappings && r.value.patientId == patientId && r.value.doctorId == doctorId
    ensures r.None? <==> !HasAnyMapping(mappings, patientId, doctorId)
  {
    if mappings == [] then None
    else if mappings[0].patientId == patientId && mappings[0].doctorId == doctorId then Some(mappings[0])
    else FindPair(mappings[1..], patientId, doctorId)
  }
}
