/** The browser client: the session kept in `accessToken` and `currentUser`, the three
    rendered lists, the dashboard counters and the alert stack, driven by the replies its
    requests get. A request's reply is an input of the operation that sends it: the model
    says what the client does with each possible reply, not when the reply arrives. */
module Client {
  import opened Results
  import opened Seqs
  import opened Text
  import opened Models
  import opened Serializers

  /** Bootstrap's alert colours used by the client. */
  datatype Severity = Success | Info | Warning | Danger

  datatype Notice = Notice(message: string, severity: Severity)

  /** One alert on screen; `id` tells apart two alerts with the same text. */
  datatype Alert = Alert(id: nat, notice: Notice)

  const MsgLoginFirst := "Please login first"
  const MsgPasswordsDiffer := "Passwords do not match"
  const MsgAcceptTerms := "Please accept terms and conditions"
  const MsgSelectBoth := "Please select both patient and doctor"
  const MsgNetwork := "Network error. Please try again."

  /** The parsed body of a reply: the data the endpoint promises, another JSON object
      (an error body, with its `detail` field if it has one), or no JSON at all. */
  datatype Body<T> = Data(value: T) | Detail(detail: Option<string>) | NotJson

  /** What `fetch` resolves to: a response with its `ok` flag, or a rejected promise. */
  datatype Reply<T> = Response(ok: bool, body: Body<T>) | NetworkFailure

  /** The serialized user the login endpoint returns. */
  datatype UserInfo = UserInfo(id: Id, email: string, name: string, tc: bool)

  datatype LoginData = LoginData(access: string, user: UserInfo)

  /** A serialized mapping: the patient and the doctor are nested in full. */
  datatype MappingRow = MappingRow(id: Id, patient: Patient, doctor: Doctor, notes: Option<string>)

  /** The two keys the client keeps in `localStorage`. */
  datatype Storage = Storage(accessToken: Option<string>, user: Option<UserInfo>)

  /** The navbar's auth section: a login button, or a greeting with a logout button. */
  datatype Navbar = LoginButton | Welcome(name: string)

  /** The asynchronous functions an operation starts without awaiting them. */
  datatype Task = LoadPatientsTask | LoadDoctorsTask | LoadMappingsTask | LoadDashboardTask

  /** `loadAllData`. */
  const LoadAll: seq<Task> := [LoadPatientsTask, LoadDoctorsTask, LoadMappingsTask, LoadDashboardTask]

  /** JavaScript truthiness of a string that may be null: present and not empty. */
  predicate HasToken(token: Option<string>) {
    Given(token)
  }

  /** `data.detail || fallback`. */
  function DetailOr<T>(body: Body<T>, fallback: string): (r: string)
    ensures r == fallback || (body.Detail? && body.detail.Some? && r == body.detail.value && r != "")
    ensures body.Detail? && Given(body.detail) ==> r == body.detail.value
  {
    if body.Detail? && Given(body.detail) then body.detail.value else fallback
  }

  // ---------------------------------------------------------------- gates

  /** `register`'s checks before any request: differing passwords are reported first, then
      unchecked terms; `None` lets the request go out. */
  function RegisterGate(password: string, password2: string, tc: bool): (r: Option<Notice>)
    ensures r.None? <==> password == password2 && tc
    ensures password != password2 ==> r == Some(Notice(MsgPasswordsDiffer, Danger))
    ensures password == password2 && !tc ==> r == Some(Notice(MsgAcceptTerms, Warning))
  {
    if password != password2 then Some(Notice(MsgPasswordsDiffer, Danger))
    else if !tc then Some(Notice(MsgAcceptTerms, Warning))
    else None
  }

  /** A form the client lets through never draws the server's password mismatch error, and
      a form whose passwords differ even once stripped, and that is otherwise valid, is one
      the server refuses with exactly that error. */
  lemma RegisterGateAgreesWithServer(users: seq<User>, form: RegistrationForm)
    ensures RegisterGate(form.password, form.password2, form.tc).None? ==>
      ValidateRegistration(users, form) != Err(PasswordsDontMatch)
    ensures (RegisterGate(form.password, form.password2, form.tc) == Some(Notice(MsgPasswordsDiffer, Danger))
             && Strip(form.password) != Strip(form.password2)) ==>
      ValidateRegistration(users, form).Err?
  {
  }

  /** The client compares the passwords as typed, the server once stripped: a trailing
      space on one of them makes the client refuse a form the server would accept. */
  lemma RegisterGateStricterThanServer(users: seq<User>, form: RegistrationForm)
    requires Strip(form.email) != "" && !EmailTaken(users, Strip(form.email)) && Strip(form.name) != ""
    requires |form.password2| >= MinPasswordLength
    requires form.password2[0] !in PyWhitespace && form.password2[|form.password2| - 1] !in PyWhitespace
    requires form.password == form.password2 + " "
    ensures RegisterGate(form.password, form.password2, form.tc) == Some(Notice(MsgPasswordsDiffer, Danger))
    ensures ValidateRegistration(users, form).Ok?
  {
    PaddedPasswordAccepted(users, form);
    assert |form.password| != |form.password2|;
  }

  /** `addMapping`'s check: both select boxes must hold a value. */
  function MappingGate(patientId: string, doctorId: string): (r: Option<Notice>)
    ensures r.None? <==> patientId != "" && doctorId != ""
    ensures r.Some? ==> r.value == Notice(MsgSelectBoth, Warning)
  {
    if patientId == "" || doctorId == "" then Some(Notice(MsgSelectBoth, Warning)) else None
  }

  /** The `showAdd*Modal` check: without a token the modal stays closed. */
  function ModalGate(token: Option<string>): (r: Option<Notice>)
    ensures r.None? <==> HasToken(token)
    ensures r.Some? ==> r.value == Notice(MsgLoginFirst, Warning)
  {
    if HasToken(token) then None else Some(Notice(MsgLoginFirst, Warning))
  }

  // ---------------------------------------------------------------- rendering

  /** The gender badge of a patient card. */
  function GenderLabel(g: string): (r: string)
    ensures IsGenderCode(g) ==> (g, r) in GenderChoices
    ensures !IsGenderCode(g) ==> r == "Other"
  {
    assert GenderChoices[0] == ("M", "Male") && GenderChoices[1] == ("F", "Female");
    assert GenderChoices[2] == ("O", "Other");
    if g == "M" then "Male" else if g == "F" then "Female" else "Other"
  }

  /** The badge agrees with the model's choice table: every stored code shows its label. */
  lemma {:induction false} GenderLabelsMatchChoices()
    ensures forall i :: 0 <= i < |GenderChoices| ==> GenderLabel(GenderChoices[i].0) == GenderChoices[i].1
  {
    forall i | 0 <= i < |GenderChoices|
      ensures GenderLabel(GenderChoices[i].0) == GenderChoices[i].1
    {
      assert IsGenderCode(GenderChoices[i].0);
      assert [GenderChoices[0].0, GenderChoices[1].0, GenderChoices[2].0] == ["M", "F", "O"];
    }
  }

  datatype PatientCard = PatientCard(
    id: Id, name: string, genderLabel: string, dateOfBirth: string, phone: string, address: string)

  datatype DoctorCard = DoctorCard(
    id: Id, name: string, specialization: string, license: string, phone: string, email: string,
    experienceYears: nat)

  /** A mapping card; the notes line appears only for non-empty notes. */
  datatype MappingCard = MappingCard(id: Id, patientName: string, doctorName: string, notes: Option<string>)

  /** A list container: cleared, one "No ... found." placeholder, or one card per item. */
  datatype ListView<T> = Blank | Placeholder(text: string) | Cards(cards: seq<T>)

  /** The card title is the patient's `full_name`. */
  function PatientCardOf(p: Patient): (c: PatientCard)
    ensures c.id == p.id && c.name == p.FullName() && c.genderLabel == GenderLabel(p.info.gender)
    ensures c.dateOfBirth == p.info.dateOfBirth && c.phone == p.info.phoneNumber && c.address == p.info.address
  {
    PatientCard(p.id, PersonName(p.info.firstName, p.info.lastName), GenderLabel(p.info.gender),
      p.info.dateOfBirth, p.info.phoneNumber, p.info.address)
  }

  /** The card title is the doctor's `full_name` without its "Dr. " prefix; the badge is the
      specialization's display label. */
  function DoctorCardOf(d: Doctor): (c: DoctorCard)
    ensures c.id == d.id && "Dr. " + c.name == d.FullName() && c.specialization == d.info.specialization.Label()
    ensures c.license == d.info.licenseNumber && c.phone == d.info.phoneNumber && c.email == d.info.email
    ensures c.experienceYears == d.info.experienceYears
  {
    DoctorCard(d.id, PersonName(d.info.firstName, d.info.lastName), d.info.specialization.Label(),
      d.info.licenseNumber, d.info.phoneNumber, d.info.email, d.info.experienceYears)
  }

  function MappingCardOf(m: MappingRow): (c: MappingCard)
    ensures c.id == m.id && c.patientName == m.patient.FullName() && "Dr. " + c.doctorName == m.doctor.FullName()
    ensures c.notes.Some? <==> Given(m.notes)
    ensures c.notes.Some? ==> c.notes == m.notes
  {
    MappingCard(m.id, PersonName(m.patient.info.firstName, m.patient.info.lastName),
      PersonName(m.doctor.info.firstName, m.doctor.info.lastName), if Given(m.notes) then m.notes else None)
  }

  /** `display*`: an empty list shows exactly the placeholder; otherwise one card per item,
      in the order the server sent them. */
  function Render<T, C>(items: seq<T>, empty: string, card: T -> C): (r: ListView<C>)
    ensures items == [] <==> r == Placeholder(empty)
    ensures items != [] ==>
      r.Cards? && |r.cards| == |items| && forall i :: 0 <= i < |items| ==> r.cards[i] == card(items[i])
  {
    if items == [] then Placeholder(empty) else Cards(seq(|items|, i requires 0 <= i < |items| => card(items[i])))
  }

  const NoPatients := "No patients found."
  const NoDoctors := "No doctors found."
  const NoMappings := "No mappings found."

  // ---------------------------------------------------------------- replies

  /** What a list load does with its reply: render the list, report a refusal, or land in
      the `catch` (no reply, or a body that is not a list). */
  datatype LoadResult<T> = Loaded(items: seq<T>) | LoadRefused | LoadBroken

  function LoadOutcome<T>(reply: Reply<seq<T>>): (r: LoadResult<T>)
    ensures r.Loaded? <==> reply.Response? && reply.ok && reply.body.Data?
    ensures r.Loaded? ==> r.items == reply.body.value
    ensures r == LoadRefused <==> reply.Response? && !reply.ok
  {
    match reply
    case NetworkFailure => LoadBroken
    case Response(ok, body) =>
      if !ok then LoadRefused
      else if body.Data? then Loaded(body.value)
      else LoadBroken
  }

  /** The alert shown after a write request (`add*`, `delete*`). `readsError` says whether
      the failure branch parses the body for a `detail`: the `add*` functions do, the
      `delete*` functions do not. */
  function WriteNotice<T>(reply: Reply<T>, readsError: bool, success: string, failure: string): (r: Notice)
    ensures reply.Response? && reply.ok ==> r == Notice(success, Success)
    ensures reply.NetworkFailure? ==> r == Notice(MsgNetwork, Danger)
    ensures reply.Response? && !reply.ok && !readsError ==> r == Notice(failure, Danger)
    ensures reply.Response? && !reply.ok && readsError ==>
      r == if reply.body.NotJson? then Notice(MsgNetwork, Danger) else Notice(DetailOr(reply.body, failure), Danger)
  {
    match reply
    case NetworkFailure => Notice(MsgNetwork, Danger)
    case Response(ok, body) =>
      if ok then Notice(success, Success)
      else if readsError && body.NotJson? then Notice(MsgNetwork, Danger)
      else if readsError then Notice(DetailOr(body, failure), Danger)
      else Notice(failure, Danger)
  }

  /** The value a dashboard counter shows: a number, or nothing when the body is a JSON
      object without a `length` (its `undefined` length, written to `textContent`, empties
      the counter). */
  datatype Counter = Count(n: nat) | Emptied

  datatype Counts = Counts(patients: Counter, doctors: Counter, mappings: Counter, users: Counter)

  function LengthOf<T>(body: Body<seq<T>>): (c: Counter)
    requires !body.NotJson?
    ensures c.Count? <==> body.Data?
    ensures body.Data? ==> c.n == |body.value|
  {
    if body.Data? then Count(|body.value|) else Emptied
  }

  /** `loadDashboard` after its three requests settle: if any request fails or any body is
      not JSON, nothing is shown; otherwise all four counters are set together. The `ok`
      flags are not consulted. */
  function DashboardCounts(
    patients: Reply<seq<Patient>>, doctors: Reply<seq<Doctor>>, mappings: Reply<seq<MappingRow>>, signedIn: bool)
    : (r: Option<Counts>)
    ensures r.Some? <==>
      && patients.Response? && doctors.Response? && mappings.Response?
      && !patients.body.NotJson? && !doctors.body.NotJson? && !mappings.body.NotJson?
    ensures r.Some? ==> r.value.users == Count(if signedIn then 1 else 0)
    ensures r.Some? && patients.body.Data? ==> r.value.patients == Count(|patients.body.value|)
    ensures r.Some? && doctors.body.Data? ==> r.value.doctors == Count(|doctors.body.value|)
    ensures r.Some? && mappings.body.Data? ==> r.value.mappings == Count(|mappings.body.value|)
  {
    if patients.NetworkFailure? || doctors.NetworkFailure? || mappings.NetworkFailure? then None
    else if patients.body.NotJson? || doctors.body.NotJson? || mappings.body.NotJson? then None
    else Some(Counts(LengthOf(patients.body), LengthOf(doctors.body), LengthOf(mappings.body),
      Count(if signedIn then 1 else 0)))
  }

  /** Newest first: every alert was shown after the ones below it. */
  predicate Newer(a: Alert, b: Alert) {
    a.id > b.id
  }

  /** The alert stack after alert `id` expires or is dismissed. */
  function WithoutAlert(alerts: seq<Alert>, id: nat): (r: seq<Alert>)
    ensures forall a :: a in r <==> a in alerts && a.id != id
    ensures Pairwise(alerts, Newer) ==> Pairwise(r, Newer)
  {
    var keep := (a: Alert) => a.id != id;
    FilterPairwise(alerts, keep, Newer);
    Filter(alerts, keep)
  }

  /** Removing an alert that is already gone changes nothing: the five-second timer may
      fire after the user closed the alert. */
  lemma {:induction false} WithoutAlertIdempotent(alerts: seq<Alert>, id: nat)
    ensures WithoutAlert(WithoutAlert(alerts, id), id) == WithoutAlert(alerts, id)
  {
    WithoutAbsent(WithoutAlert(alerts, id), id);
  }

  /** Removing an id no alert carries returns the same stack. */
  lemma {:induction false} WithoutAbsent(alerts: seq<Alert>, id: nat)
    requires forall a :: a in alerts ==> a.id != id
    ensures WithoutAlert(alerts, id) == alerts
  {
    if alerts != [] {
      assert alerts[0] in alerts;
      forall a | a in alerts[1..] ensures a.id != id {
        assert a in alerts;
      }
      WithoutAbsent(alerts[1..], id);
      assert alerts == [alerts[0]] + alerts[1..];
    }
  }

  // ---------------------------------------------------------------- the page

  /** The page's module-level state, its containers and its alert stack. */
  class App {
    var accessToken: Option<string>
    var currentUser: Option<UserInfo>
    var storage: Storage
    var navbar: Navbar
    var patientsList: ListView<PatientCard>
    var doctorsList: ListView<DoctorCard>
    var mappingsList: ListView<MappingCard>
    var counts: Counts
    var alerts: seq<Alert>
    var nextAlertId: nat

    /** The token in memory is the stored one; a signed-in user is the stored user, with a
        token, and greeted in the navbar; alerts are newest first with fresh ids. */
    ghost predicate Valid()
      reads this
    {
      && accessToken == storage.accessToken
      && (currentUser.Some? ==> accessToken.Some? && storage.user == currentUser)
      && navbar == (if currentUser.Some? then Welcome(currentUser.value.name) else LoginButton)
      && Pairwise(alerts, Newer)
      && (forall a :: a in alerts ==> a.id < nextAlertId)
    }

    /** Page load: the token is read from storage, but no user is signed in until the
        server accepts the token. */
    constructor (stored: Storage)
      ensures Valid()
      ensures accessToken == stored.accessToken && currentUser.None? && storage == stored
      ensures patientsList == Blank && doctorsList == Blank && mappingsList == Blank && alerts == []
    {
      accessToken, currentUser, storage, navbar := stored.accessToken, None, stored, LoginButton;
      patientsList, doctorsList, mappingsList := Blank, Blank, Blank;
      counts := Counts(Count(0), Count(0), Count(0), Count(0));
      alerts, nextAlertId := [], 0;
    }

    /** `showAlert`: the new alert goes above every alert already shown. The id it returns
        is the handle its removal timer holds. */
    method ShowAlert(notice: Notice) returns (id: nat)
      requires Valid()
      modifies this`alerts, this`nextAlertId
      ensures Valid()
      ensures id == old(nextAlertId) && alerts == [Alert(id, notice)] + old(alerts)
      ensures forall a :: a in old(alerts) ==> Newer(Alert(id, notice), a)
    {
      id := nextAlertId;
      PrependPairwise(Alert(id, notice), alerts, Newer);
      alerts, nextAlertId := [Alert(id, notice)] + alerts, nextAlertId + 1;
    }

    /** The timer's `alertDiv.remove()` guarded by `parentNode`, or the close button:
        removes that alert if it is still shown and does nothing otherwise. */
    method RemoveAlert(id: nat)
      requires Valid()
      modifies this`alerts
      ensures Valid()
      ensures alerts == WithoutAlert(old(alerts), id)
    {
      alerts := WithoutAlert(alerts, id);
    }

    /** `clearAllData`: the three containers emptied and the four counters at zero. */
    method ClearAllData()
      modifies this`patientsList, this`doctorsList, this`mappingsList, this`counts
      ensures patientsList == Blank && doctorsList == Blank && mappingsList == Blank
      ensures counts == Counts(Count(0), Count(0), Count(0), Count(0))
    {
      patientsList, doctorsList, mappingsList := Blank, Blank, Blank;
      counts := Counts(Count(0), Count(0), Count(0), Count(0));
    }

    /** `logout`: both stored keys and both variables cleared, the login button back, and
        the page cleared. */
    method Logout()
      requires Valid()
      modifies this
      ensures Valid()
      ensures storage == Storage(None, None) && accessToken.None? && currentUser.None? && navbar == LoginButton
      ensures patientsList == Blank && doctorsList == Blank && mappingsList == Blank
      ensures counts == Counts(Count(0), Count(0), Count(0), Count(0))
      ensures alerts == old(alerts) && nextAlertId == old(nextAlertId)
    {
      storage := Storage(None, None);
      accessToken, currentUser := None, None;
      navbar := LoginButton;
      ClearAllData();
    }

    /** `checkAuthStatus` at page load, given the reply of its probe request. Without a token
        nothing is sent. An `ok` reply signs in the stored user and loads everything; if no
        user is stored, reading its name throws and the `catch` logs out. Any other reply
        logs out. */
    method CheckAuthStatus(reply: Reply<()>) returns (sent: bool, spawned: seq<Task>)
      requires Valid()
      modifies this
      ensures Valid()
      ensures sent == HasToken(old(accessToken))
      ensures !sent ==> unchanged(this) && spawned == []
      ensures sent && reply.Response? && reply.ok && old(storage.user).Some? ==>
        && currentUser == old(storage.user) && accessToken == old(accessToken) && storage == old(storage)
        && navbar == Welcome(currentUser.value.name) && spawned == LoadAll
        && patientsList == old(patientsList) && doctorsList == old(doctorsList)
        && mappingsList == old(mappingsList) && counts == old(counts)
      ensures sent && !(reply.Response? && reply.ok && old(storage.user).Some?) ==>
        && storage == Storage(None, None) && accessToken.None? && currentUser.None? && navbar == LoginButton
        && patientsList == Blank && doctorsList == Blank && mappingsList == Blank && spawned == []
        && counts == Counts(Count(0), Count(0), Count(0), Count(0))
      ensures alerts == old(alerts) && nextAlertId == old(nextAlertId)
    {
      sent, spawned := HasToken(accessToken), [];
      if !sent {
        return;
      }
      if reply.Response? && reply.ok && storage.user.Some? {
        currentUser := storage.user;
        navbar := Welcome(currentUser.value.name);
        spawned := LoadAll;
      } else {
        Logout();
      }
    }

    /** `login` with the reply to its request. An `ok` reply with tokens stores the token
        and the user in memory and in storage together, greets the user and loads
        everything. A refusal shows its `detail`; no reply, a body that is not JSON, or an
        `ok` body without tokens ends in the `catch`. */
    method Login(reply: Reply<LoginData>) returns (spawned: seq<Task>)
      requires Valid()
      modifies this
      ensures Valid()
      ensures reply.Response? && reply.ok && reply.body.Data? ==>
        && accessToken == Some(reply.body.value.access) && currentUser == Some(reply.body.value.user)
        && storage == Storage(accessToken, currentUser) && navbar == Welcome(reply.body.value.user.name)
        && alerts == [Alert(old(nextAlertId), Notice("Login successful!", Success))] + old(alerts)
        && spawned == LoadAll
      ensures !(reply.Response? && reply.ok && reply.body.Data?) ==>
        && accessToken == old(accessToken) && currentUser == old(currentUser) && storage == old(storage)
        && spawned == []
        && navbar == old(navbar)
        && alerts == [Alert(old(nextAlertId), LoginFailure(reply))] + old(alerts)
      ensures patientsList == old(patientsList) && doctorsList == old(doctorsList)
      ensures mappingsList == old(mappingsList) && counts == old(counts)
    {
      if reply.Response? && reply.ok && reply.body.Data? {
        var data := reply.body.value;
        accessToken := Some(data.access);
        storage := Storage(accessToken, Some(data.user));
        currentUser := Some(data.user);
        currentUser := storage.user;
        navbar := Welcome(currentUser.value.name);
        var _ := ShowAlert(Notice("Login successful!", Success));
        spawned := LoadAll;
      } else {
        var _ := ShowAlert(LoginFailure(reply));
        spawned := [];
      }
    }

    /** `register` with the reply to its request, sent only when the form passes its gate. */
    method Register(password: string, password2: string, tc: bool, reply: Reply<()>) returns (sent: bool)
      requires Valid()
      modifies this`alerts, this`nextAlertId
      ensures Valid()
      ensures sent <==> RegisterGate(password, password2, tc).None?
      ensures !sent ==> alerts == [Alert(old(nextAlertId), RegisterGate(password, password2, tc).value)] + old(alerts)
      ensures sent ==> alerts == [Alert(old(nextAlertId), RegisterNotice(reply))] + old(alerts)
    {
      var gate := RegisterGate(password, password2, tc);
      sent := gate.None?;
      if !sent {
        var _ := ShowAlert(gate.value);
      } else {
        var _ := ShowAlert(RegisterNotice(reply));
      }
    }

    /** `showAdd*Modal`: the modal opens only with a token; otherwise a warning. */
    method ShowAddModal() returns (shown: bool)
      requires Valid()
      modifies this`alerts, this`nextAlertId
      ensures Valid()
      ensures shown <==> HasToken(accessToken)
      ensures shown ==> alerts == old(alerts)
      ensures !shown ==> alerts == [Alert(old(nextAlertId), Notice(MsgLoginFirst, Warning))] + old(alerts)
    {
      var gate := ModalGate(accessToken);
      shown := gate.None?;
      if !shown {
        var _ := ShowAlert(gate.value);
      }
    }

    /** `loadPatients`: without a token nothing is sent; a list renders, a refusal or a
        failure is reported and leaves the list as it was. */
    method LoadPatients(reply: Reply<seq<Patient>>) returns (sent: bool)
      requires Valid()
      modifies this`patientsList, this`alerts, this`nextAlertId
      ensures Valid()
      ensures sent == HasToken(accessToken)
      ensures !sent ==> unchanged(this)
      ensures sent ==> match LoadOutcome(reply)
        case Loaded(ps) => patientsList == Render(ps, NoPatients, PatientCardOf) && alerts == old(alerts)
        case LoadRefused =>
          patientsList == old(patientsList)
          && alerts == [Alert(old(nextAlertId), Notice("Failed to load patients", Danger))] + old(alerts)
        case LoadBroken =>
          patientsList == old(patientsList)
          && alerts == [Alert(old(nextAlertId), Notice("Network error loading patients", Danger))] + old(alerts)
    {
      sent := HasToken(accessToken);
      if !sent {
        return;
      }
      match LoadOutcome(reply)
      case Loaded(ps) => patientsList := Render(ps, NoPatients, PatientCardOf);
      case LoadRefused => var _ := ShowAlert(Notice("Failed to load patients", Danger));
      case LoadBroken => var _ := ShowAlert(Notice("Network error loading patients", Danger));
    }

    /** `loadDoctors`, as `loadPatients`. */
    method LoadDoctors(reply: Reply<seq<Doctor>>) returns (sent: bool)
      requires Valid()
      modifies this`doctorsList, this`alerts, this`nextAlertId
      ensures Valid()
      ensures sent == HasToken(accessToken)
      ensures !sent ==> unchanged(this)
      ensures sent ==> match LoadOutcome(reply)
        case Loaded(ds) => doctorsList == Render(ds, NoDoctors, DoctorCardOf) && alerts == old(alerts)
        case LoadRefused =>
          doctorsList == old(doctorsList)
          && alerts == [Alert(old(nextAlertId), Notice("Failed to load doctors", Danger))] + old(alerts)
        case LoadBroken =>
          doctorsList == old(doctorsList)
          && alerts == [Alert(old(nextAlertId), Notice("Network error loading doctors", Danger))] + old(alerts)
    {
      sent := HasToken(accessToken);
      if !sent {
        return;
      }
      match LoadOutcome(reply)
      case Loaded(ds) => doctorsList := Render(ds, NoDoctors, DoctorCardOf);
      case LoadRefused => var _ := ShowAlert(Notice("Failed to load doctors", Danger));
      case LoadBroken => var _ := ShowAlert(Notice("Network error loading doctors", Danger));
    }

    /** `loadMappings`, as `loadPatients`. */
    method LoadMappings(reply: Reply<seq<MappingRow>>) returns (sent: bool)
      requires Valid()
      modifies this`mappingsList, this`alerts, this`nextAlertId
      ensures Valid()
      ensures sent == HasToken(accessToken)
      ensures !sent ==> unchanged(this)
      ensures sent ==> match LoadOutcome(reply)
        case Loaded(ms) => mappingsList == Render(ms, NoMappings, MappingCardOf) && alerts == old(alerts)
        case LoadRefused =>
          mappingsList == old(mappingsList)
          && alerts == [Alert(old(nextAlertId), Notice("Failed to load mappings", Danger))] + old(alerts)
        case LoadBroken =>
          mappingsList == old(mappingsList)
          && alerts == [Alert(old(nextAlertId), Notice("Network error loading mappings", Danger))] + old(alerts)
    {
      sent := HasToken(accessToken);
      if !sent {
        return;
      }
      match LoadOutcome(reply)
      case Loaded(ms) => mappingsList := Render(ms, NoMappings, MappingCardOf);
      case LoadRefused => var _ := ShowAlert(Notice("Failed to load mappings", Danger));
      case LoadBroken => var _ := ShowAlert(Notice("Network error loading mappings", Danger));
    }

    /** `loadDashboard` with the three replies: without a token nothing is sent; otherwise
        the counters change all together or not at all. */
    method LoadDashboard(patients: Reply<seq<Patient>>, doctors: Reply<seq<Doctor>>, mappings: Reply<seq<MappingRow>>)
      returns (sent: bool)
      requires Valid()
      modifies this`counts
      ensures Valid()
      ensures sent == HasToken(accessToken)
      ensures var shown := DashboardCounts(patients, doctors, mappings, currentUser.Some?);
        counts == if sent && shown.Some? then shown.value else old(counts)
    {
      sent := HasToken(accessToken);
      var shown := DashboardCounts(patients, doctors, mappings, currentUser.Some?);
      if sent && shown.Some? {
        counts := shown.value;
      }
    }

    /** `searchPatients` with the query read from the search box: a blank query starts a
        plain list load instead of a search; without a token nothing is sent; a list in the
        reply is rendered and anything else is ignored. The query sent is returned. */
    method SearchPatients(query: string, reply: Reply<seq<Patient>>) returns (sent: Option<string>, spawned: seq<Task>)
      requires Valid()
      modifies this`patientsList
      ensures Valid()
      ensures IsBlank(query) ==> sent.None? && spawned == [LoadPatientsTask] && unchanged(this)
      ensures !IsBlank(query) ==> spawned == [] && sent == (if HasToken(accessToken) then Some(query) else None)
      ensures sent.Some? && LoadOutcome(reply).Loaded? ==>
        patientsList == Render(LoadOutcome(reply).items, NoPatients, PatientCardOf)
      ensures !(sent.Some? && LoadOutcome(reply).Loaded?) ==> patientsList == old(patientsList)
    {
      sent, spawned := None, [];
      if IsBlank(query) {
        spawned := [LoadPatientsTask];
        return;
      }
      if !HasToken(accessToken) {
        return;
      }
      sent := Some(query);
      match LoadOutcome(reply)
      case Loaded(ps) => patientsList := Render(ps, NoPatients, PatientCardOf);
      case _ =>
    }

    /** `searchDoctors`, as `searchPatients`. */
    method SearchDoctors(query: string, reply: Reply<seq<Doctor>>) returns (sent: Option<string>, spawned: seq<Task>)
      requires Valid()
      modifies this`doctorsList
      ensures Valid()
      ensures IsBlank(query) ==> sent.None? && spawned == [LoadDoctorsTask] && unchanged(this)
      ensures !IsBlank(query) ==> spawned == [] && sent == (if HasToken(accessToken) then Some(query) else None)
      ensures sent.Some? && LoadOutcome(reply).Loaded? ==>
        doctorsList == Render(LoadOutcome(reply).items, NoDoctors, DoctorCardOf)
      ensures !(sent.Some? && LoadOutcome(reply).Loaded?) ==> doctorsList == old(doctorsList)
    {
      sent, spawned := None, [];
      if IsBlank(query) {
        spawned := [LoadDoctorsTask];
        return;
      }
      if !HasToken(accessToken) {
        return;
      }
      sent := Some(query);
      match LoadOutcome(reply)
      case Loaded(ds) => doctorsList := Render(ds, NoDoctors, DoctorCardOf);
      case _ =>
    }

    /** `addPatient` and `addDoctor`: the request goes out whether or not a token is held;
        success reloads the list it changed and the dashboard. */
    method AddRecord(reply: Reply<()>, reload: Task, success: string, failure: string) returns (spawned: seq<Task>)
      requires Valid()
      modifies this`alerts, this`nextAlertId
      ensures Valid()
      ensures alerts == [Alert(old(nextAlertId), WriteNotice(reply, true, success, failure))] + old(alerts)
      ensures spawned == if reply.Response? && reply.ok then [reload, LoadDashboardTask] else []
    {
      var _ := ShowAlert(WriteNotice(reply, true, success, failure));
      spawned := if reply.Response? && reply.ok then [reload, LoadDashboardTask] else [];
    }

    /** `addMapping`: nothing is sent unless both a patient and a doctor are selected. */
    method AddMapping(patientId: string, doctorId: string, reply: Reply<()>) returns (sent: bool, spawned: seq<Task>)
      requires Valid()
      modifies this`alerts, this`nextAlertId
      ensures Valid()
      ensures sent <==> MappingGate(patientId, doctorId).None?
      ensures !sent ==> alerts == [Alert(old(nextAlertId), Notice(MsgSelectBoth, Warning))] + old(alerts) && spawned == []
      ensures sent ==>
        && alerts == [Alert(old(nextAlertId), WriteNotice(reply, true, "Mapping created successfully!", "Failed to create mapping"))]
          + old(alerts)
        && spawned == if reply.Response? && reply.ok then [LoadMappingsTask, LoadDashboardTask] else []
    {
      var gate := MappingGate(patientId, doctorId);
      sent := gate.None?;
      if !sent {
        var _ := ShowAlert(gate.value);
        spawned := [];
      } else {
        spawned := AddRecord(reply, LoadMappingsTask, "Mapping created successfully!", "Failed to create mapping");
      }
    }

    /** `deletePatient`, `deleteDoctor` and `deleteMapping`: nothing happens unless the user
        confirms; the failure message does not read the body. */
    method DeleteRecord(confirmed: bool, reply: Reply<()>, reload: Task, success: string, failure: string)
      returns (spawned: seq<Task>)
      requires Valid()
      modifies this`alerts, this`nextAlertId
      ensures Valid()
      ensures !confirmed ==> unchanged(this) && spawned == []
      ensures confirmed ==>
        && alerts == [Alert(old(nextAlertId), WriteNotice(reply, false, success, failure))] + old(alerts)
        && spawned == if reply.Response? && reply.ok then [reload, LoadDashboardTask] else []
    {
      spawned := [];
      if confirmed {
        var _ := ShowAlert(WriteNotice(reply, false, success, failure));
        if reply.Response? && reply.ok {
          spawned := [reload, LoadDashboardTask];
        }
      }
    }
  }

  /** The alert after a login that did not sign anyone in. */
  function LoginFailure(reply: Reply<LoginData>): (n: Notice)
    ensures n.severity == Danger
    ensures reply.Response? && !reply.ok && !reply.body.NotJson? ==> n.message == DetailOr(reply.body, "Login failed")
    ensures reply.NetworkFailure? || reply.body.NotJson? || reply.ok ==> n.message == MsgNetwork
  {
    if reply.NetworkFailure? || reply.body.NotJson? || reply.ok then Notice(MsgNetwork, Danger)
    else Notice(DetailOr(reply.body, "Login failed"), Danger)
  }

  /** The alert after a registration request: the body is parsed before `ok` is read. */
  function RegisterNotice(reply: Reply<()>): (n: Notice)
    ensures reply.NetworkFailure? || reply.body.NotJson? ==> n == Notice(MsgNetwork, Danger)
    ensures reply.Response? && !reply.body.NotJson? && reply.ok ==>
      n == Notice("Registration successful! Please login.", Success)
    ensures reply.Response? && !reply.body.NotJson? && !reply.ok ==>
      n == Notice(DetailOr(reply.body, "Registration failed"), Danger)
  {
    if reply.NetworkFailure? || reply.body.NotJson? then Notice(MsgNetwork, Danger)
    else if reply.ok then Notice("Registration successful! Please login.", Success)
    else Notice(DetailOr(reply.body, "Registration failed"), Danger)
  }
}
