# Healthcare records backend and its browser client, in Dafny

This project models a small healthcare management system and proves properties about it. The system has two parts:

- a Django REST backend with four tables: user accounts, patients (each owned by the user who created it), doctors, and patient-doctor mappings;
- a single-file JavaScript client that signs users in, lists and searches the records, shows a dashboard and a stack of alerts, and debounces its search box.

The backend appears as:

- `Models`: the records, the choice tables for gender and specialization, the derived names (`full_name`, `__str__`), the permission answers of a user, and the constraints every table keeps:
  - unique keys, unique emails and license numbers;
  - one row per (patient, doctor) pair;
  - foreign keys and valid choices;
  - the `-created_at` / `-assigned_date` ordering. Tables are kept newest first, so this ordering is an invariant of the stored sequence.
- `Serializers`: the checks of the registration, login and mapping-creation serializers. These include the ones DRF adds for their declared fields: every text field is stripped of Python whitespace, a required text field must not be blank once stripped, and `min_length` and `validate()` see the stripped values.
- `Views`: the `get_queryset` of every list, detail and search view, written as filters. Each one is proved to select exactly the intended rows and to keep the order.
- `Database`: a class whose fields are the four tables, with these operations:
  - user creation, registration, patient create/update/delete, doctor create/delete and user deletion. Deletions cascade through the foreign keys.
  - mapping creation, both as written and corrected;
  - the mapping soft delete.

  Every operation keeps `Valid()`, the conjunction of all schema constraints, and states the new tables in terms of the old.

The client appears as:

- `Client`: pure decisions, each lifted into a function:
  - the register and mapping gates, and the "login first" check of the add modals;
  - the gender badge and the cards with their "No ... found." placeholder;
  - what each reply does to the page, and the dashboard counts;
  - the `App` class with the page's state: token, signed-in user, the two storage keys, the navbar, three lists, four counters and the alert stack. An asynchronous function becomes a method that takes the reply of its request as an input. It returns whether a request was sent and which functions it started without awaiting them.
- `Debounce`: the `debounce` closure as a class with a tick counter. It is proved against `Fires`, a reference definition of which calls run.

`Results`, `Seqs` and `Text` are shared helpers:

- `Option`/`Result`;
- an order-keeping filter;
- ASCII lower-casing, substring search, JavaScript's `trim`, and DRF's stripping of text fields (the same trimming with Python's whitespace set).

## Model

| member | source | states |
|---|---|---|
| Models.PermissionsFollowAdmin | healthcare/models.py:60-74 | `is_staff` and `has_perm` hold exactly for admins, for every permission; `has_module_perms` grants every app |
| Models.GenderCodes | healthcare/models.py:78-82 | the stored gender codes are exactly `M`, `F` and `O` |
| Models.ParseSpecialization | healthcare/models.py:115-132 | a code is read back only to the specialization whose code it is; a code outside the table yields nothing |
| Models.ParseInvertsCode | healthcare/models.py:115-128 | reading back a stored specialization code gives the specialization that wrote it |
| Models.ChoiceIndex | healthcare/models.py:115-128 | each specialization has a row of the choice table holding its code and its display label |
| Models.ChoiceTableRowsDistinct | healthcare/models.py:115-128 | the table has twelve rows, pairwise different in code and in label |
| Models.SpecializationsOneToOne | healthcare/models.py:115-128 | codes and labels are one-to-one with specializations, and every specialization is in the table |
| Models.PersonName | healthcare/models.py:104-105 | the name is the first name, one space and the last name |
| Models.SameEmailSameUser | healthcare/models.py:40-44 | with unique emails, two accounts with the same email are the same account |
| Models.UserStrIdentifies | healthcare/models.py:57-58 | with unique emails, different accounts are shown differently |
| Models.MappingStr | healthcare/models.py:167-168 | a mapping is shown as the patient's `full_name`, ` - `, then the doctor's `full_name` (`Dr. ` and the person name) |
| Models.FullNames | healthcare/models.py:100-151 | a patient's `__str__` is its `full_name`; a doctor's `full_name` is `Dr. ` before the person name, and its `__str__` appends ` - ` and the specialization label |
| Serializers.CleanedFieldsStripped | healthcare/serializers.py:6-12 | the fields the checks see are already stripped, so stripping again changes nothing, and each is empty exactly when it was typed as whitespace alone |
| Serializers.InvalidFields | healthcare/serializers.py:7-12 | on stripped values, a field fails exactly when the email is blank or already registered, the name is blank, or a password field is shorter than six characters |
| Serializers.ValidateRegistration | healthcare/serializers.py:6-17 | a registration is accepted exactly when, once stripped, every field is valid and the two passwords are equal; a mismatch is reported only once the fields are valid; the accepted data is the stripped form |
| Serializers.PaddedPasswordAccepted | healthcare/serializers.py:7-8 | a password typed with one trailing space still matches its confirmation, and the stored password has no space |
| Serializers.StripTrailingSpace | healthcare/serializers.py:7 | a space after a text that starts and ends with a visible character is stripped away |
| Serializers.FindByEmail | healthcare/models.py:40-44 | the lookup finds a row with the email exactly when one exists |
| Serializers.FindByUniqueEmail | healthcare/models.py:40-44 | with unique emails, the lookup finds the account that has the email |
| Serializers.Authenticate | healthcare/serializers.py:34 | a user is returned only when its email and stored password are the ones given; with unique emails, an account whose email and password are given is the one returned |
| Serializers.ValidateLogin | healthcare/serializers.py:25-42 | an absent or blank field is refused by the field checks, so "Must include email and password" is never reached; then unknown credentials, then a disabled account are refused; an active account matching the stripped credentials is accepted, and only such an account |
| Serializers.RegisterThenLogin | healthcare/serializers.py:19-42 | after a valid registration, logging in with the email and password as typed returns the new account |
| Serializers.FindAfterUnusedEmail | healthcare/models.py:40-44 | a user added with an unused email is the one the email lookup finds |
| Serializers.CheckAssignment | healthcare/serializers.py:107-119 | unknown ids, then an active mapping for the pair, are refused; otherwise the check passes, even when a soft-deleted row joins the pair |
| Serializers.SoftDeletedPairPassesCheck | healthcare/serializers.py:118-125 | a pair whose only row is soft-deleted passes the check, yet inserting a row for it breaks `unique_together` |
| Serializers.UniquePairsAnyOrder | healthcare/models.py:164 | under `unique_together`, any two different rows join different pairs |
| Serializers.PlanAssignment | healthcare/serializers.py:107-125 | the corrected creation fails exactly when the check fails, with the same error; it inserts only when no row joins the pair, and otherwise reuses a soft-deleted row of the pair |
| Serializers.FindPair | healthcare/models.py:164 | finds a row joining the pair exactly when one exists, active or not |
| Views.ListPatients | healthcare/views.py:84-85 | a patient is listed exactly when the requester owns it, newest first |
| Views.FindOwnedPatient | healthcare/views.py:95-96 | a patient is found exactly when it has the id and belongs to the requester |
| Views.FindDoctor | healthcare/views.py:122 | any doctor with the id is found, whoever asks |
| Views.FindMapping | healthcare/views.py:165 | the delete view finds a mapping by id, active or not |
| Views.ActiveMappings | healthcare/views.py:139 | a mapping is listed exactly when it is active, newest assignment first |
| Views.MappingsOfPatient | healthcare/views.py:149-156 | empty unless the patient belongs to the requester; otherwise exactly that patient's active mappings, in order |
| Views.SearchDoctors | healthcare/views.py:180-201 | a doctor is returned exactly when it passes each given filter: a non-empty specialization code, a non-empty name found case-insensitively in either name, and any `available` value, read as true only for `true` in any case; order kept |
| Views.SearchPatients | healthcare/views.py:211-226 | exactly the requester's patients that match a non-empty name and a non-empty gender code; order kept |
| Views.SearchWithoutParametersIsList | healthcare/views.py:211-226 | a search without name and gender is the plain patient list |
| Text.LowerChar | healthcare/views.py:198 | ASCII upper-case letters become lower-case; every other character is kept |
| Text.Lower | healthcare/views.py:198 | the result has the same length and no ASCII upper-case letter; each character is lowered on its own |
| Text.LowerIdempotent | healthcare/views.py:198 | lower-casing twice is lower-casing once |
| Text.ContainsIffOccurs | healthcare/views.py:192 | the substring test holds exactly when the needle occurs at some position |
| Text.IContainsIgnoresCase | healthcare/views.py:192 | `icontains` gives the same answer when either side is lower-cased first |
| Text.TrimStart | static/js/app.js:305 | the result is a suffix, what was dropped is whitespace, and the result does not start with whitespace |
| Text.TrimEnd | static/js/app.js:305 | the result is a prefix, what was dropped is whitespace, and the result does not end with whitespace |
| Text.BlankIffAllWhitespace | static/js/app.js:305 | trimming leaves nothing exactly when every character is whitespace: `!query.trim()` for JavaScript's set, a blank DRF field for Python's |
| Text.BlankIsWhitespace | static/js/app.js:305 | a text that trims to nothing is all whitespace |
| Text.TrimBothIdempotent | healthcare/serializers.py:7 | trimming twice is trimming once |
| Database.DoctorFormErrors | healthcare/models.py:132-137 | a doctor field fails exactly when the specialization code is unknown, the experience is negative, the gender is not a choice, or the license is already on file |
| Database.Deactivate | healthcare/views.py:167-169 | the row with the id gets `is_active` false; every other row and field is kept |
| Database.DeactivateIdempotent | healthcare/views.py:167-169 | removing a mapping twice is removing it once, and the row stays in the table |
| Database.ReplaceInfo | healthcare/views.py:88-96 | the patient with the id gets the new fields and keeps its key, owner and creation time; other rows are kept |
| Database.RemovePatient | healthcare/views.py:88-96 | exactly the patients with another id remain, in order |
| Database.RemoveDoctor | healthcare/views.py:116-122 | exactly the doctors with another id remain, in order |
| Database.RemoveUser | healthcare/models.py:84 | exactly the users with another id remain |
| Database.RemovePatientsOf | healthcare/models.py:84 | exactly the patients of other users remain, in order |
| Database.CascadeMappings | healthcare/models.py:155-156 | exactly the mappings that point at no deleted patient or doctor remain; order and pair uniqueness are kept |
| Database.Reactivated | healthcare/serializers.py:118-125 | the row with the id becomes active with the new notes; other rows are kept |
| Database.SameKeysKeepMappingsOk | healthcare/models.py:163-165 | rewriting mapping fields other than key, pair and assignment time keeps every constraint |
| Database.SameKeysKeepPatientsOk | healthcare/models.py:97-98 | rewriting patient fields other than key, owner and creation time, with valid genders, keeps every constraint |
| Database.ReplaceInfoKeepsConsistent | healthcare/views.py:88-96 | a patient update with a valid gender keeps every constraint |
| Database.ReactivatedKeepsConsistent | healthcare/models.py:164 | reactivating a row keeps every constraint |
| Database.DeactivateKeepsConsistent | healthcare/views.py:167-169 | a soft delete keeps every constraint |
| Database.OnlyRowForPair | healthcare/models.py:164 | under `unique_together`, a row is the only one joining its pair |
| Database.ReactivatedSoleRow | healthcare/models.py:164 | reactivating the row at a position keeps every constraint and bound, and leaves that row active with the new notes as the only row of its pair |
| Database.RowPosition | healthcare/serializers.py:118-125 | finds the first position holding the row with the given id and pair, whenever such a row exists |
| Database.DeleteUserKeepsConsistent | healthcare/models.py:84 | deleting a user with its patients and their mappings keeps every constraint |
| Database.Database.constructor | healthcare/models.py:97-98 | the empty store satisfies every constraint |
| Database.Database.CreateUser | healthcare/models.py:7-22 | an empty email, then a registered email, is refused and nothing is stored; otherwise one active, non-admin account is appended |
| Database.Database.CreateSuperuser | healthcare/models.py:24-36 | as `create_user`: the account is created exactly when the email is non-empty and unused, and the stored account is an admin |
| Database.Database.Register | healthcare/serializers.py:19-22 | the account is created exactly when the registration validates; the stored row is the stripped form without the confirmation |
| Database.Database.CreatePatient | healthcare/views.py:73-74 | the new patient belongs to the requester and goes first; an invalid gender stores nothing |
| Database.Database.UpdatePatient | healthcare/views.py:88-96 | the update succeeds exactly for the requester's own patient with a valid gender; another user's patient is not found; the patient gets the new fields and keeps key, owner and creation time |
| Database.Database.DeletePatient | healthcare/views.py:88-96 | only the requester's own patient is deleted, with its mappings |
| Database.Database.CreateDoctor | healthcare/views.py:99-104 | a valid form adds one doctor first, with every field of the form; a doctor sent without `is_available` is available (healthcare/models.py:139); an invalid one reports every failing field and stores nothing |
| Database.Database.DeleteDoctor | healthcare/views.py:116-122 | any user deletes any doctor, with its mappings |
| Database.Database.DeleteUser | healthcare/models.py:84 | a user goes with its patients and their mappings |
| Database.Database.CreateMapping | healthcare/serializers.py:107-125 | the check's errors as written; a pair with a soft-deleted row is refused by the table (`IntegrityError`); the row is created exactly when the check passes and no row joins the pair, and it goes first, active |
| Database.Database.InsertMapping | healthcare/serializers.py:122-125 | a pair no row joins gets one active row, first in the table |
| Database.Database.ReactivateMapping | healthcare/serializers.py:118-125 | the soft-deleted row becomes active with the new notes and stays the only row of its pair |
| Database.Database.CreateMappingReactivating | healthcare/serializers.py:107-125 | same checks and errors; on success exactly one row, an active one with the new notes, joins the pair: a new row put first when no row joined it, otherwise the soft-deleted row reactivated in place with every other row kept |
| Database.Database.SoftDeleteMapping | healthcare/views.py:167-169 | any row with the id, active or not, is kept with `is_active` false; an unknown id changes nothing |
| Client.DetailOr | static/js/app.js:139 | the body's non-empty `detail`, otherwise the fallback message |
| Client.RegisterGate | static/js/app.js:154-162 | the request goes out exactly when the passwords match and the terms are accepted; a mismatch is reported first |
| Client.RegisterGateAgreesWithServer | static/js/app.js:154-157 | a form the client lets through never gets the server's mismatch error; a form whose passwords differ even once stripped would be refused by the server |
| Client.RegisterGateStricterThanServer | static/js/app.js:154-157 | the client compares the passwords as typed: a trailing space on one makes it refuse a form the server would accept |
| Client.MappingGate | static/js/app.js:604-607 | the request goes out exactly when both a patient and a doctor are selected; otherwise the warning |
| Client.ModalGate | static/js/app.js:84-110 | an add modal opens exactly when a token is held; otherwise "Please login first" |
| Client.GenderLabel | static/js/app.js:276-277 | a stored code shows its label from the choice table; anything else shows "Other" |
| Client.GenderLabelsMatchChoices | static/js/app.js:277 | every row of the gender choice table is shown with its own label |
| Client.PatientCardOf | static/js/app.js:269-297 | the card title is the patient's `full_name`, with the gender label, birth date, phone and address |
| Client.DoctorCardOf | static/js/app.js:359-386 | the card title is the doctor's `full_name` without `Dr. `, with the specialization label and the contact fields |
| Client.MappingCardOf | static/js/app.js:448-473 | the card names the patient and the doctor; the notes line appears exactly for non-empty notes |
| Client.Render | static/js/app.js:261-300 | an empty list shows exactly the placeholder; otherwise one card per item, in order |
| Client.LoadOutcome | static/js/app.js:237-258 | a list is rendered exactly for an `ok` reply carrying a list; a refusal is reported as such; anything else ends in the `catch` |
| Client.WriteNotice | static/js/app.js:502-515 | success for an `ok` reply; the body's `detail` or the failure text for a refusal; the network message when there is no reply or the error body is not JSON |
| Client.LengthOf | static/js/app.js:208-210 | a counter shows the list's length, or the counter is emptied for a JSON object that is not a list |
| Client.DashboardCounts | static/js/app.js:188-215 | the four counters are set together exactly when all three replies arrive as JSON; the users counter is 1 exactly when a user is signed in |
| Client.WithoutAlert | static/js/app.js:736-740 | exactly the other alerts remain, newest first |
| Client.WithoutAlertIdempotent | static/js/app.js:736-740 | removing an alert that is already gone changes nothing |
| Client.WithoutAbsent | static/js/app.js:737 | removing an id that no alert carries returns the same stack |
| Client.LoginFailure | static/js/app.js:138-143 | a refusal shows its `detail` or "Login failed"; no reply, a non-JSON body or an `ok` body without tokens shows the network message |
| Client.RegisterNotice | static/js/app.js:173-184 | the body is parsed before `ok` is read: success, the refusal's `detail` or "Registration failed", or the network message |
| Client.App.constructor | static/js/app.js:4-5 | at page load the token comes from storage and no user is signed in |
| Client.App.ShowAlert | static/js/app.js:723-734 | the new alert goes above every alert already shown |
| Client.App.RemoveAlert | static/js/app.js:736-740 | the alert is removed if still shown; otherwise nothing changes |
| Client.App.ClearAllData | static/js/app.js:226-234 | the three lists are emptied and the four counters set to zero |
| Client.App.Logout | static/js/app.js:62-71 | both storage keys and both variables are cleared, the login button is back, and the page is cleared |
| Client.App.CheckAuthStatus | static/js/app.js:32-59 | no token: nothing is sent. An `ok` reply signs in the stored user and loads everything, keeping lists and counters until the loads settle. Any other outcome logs out, including a missing stored user: session and storage cleared, login button back, lists emptied, counters at zero |
| Client.App.Login | static/js/app.js:113-144 | an `ok` reply with tokens sets the token and the user in memory and in storage together and loads everything; otherwise the session and the navbar are unchanged and the failure is shown; lists and counters are kept either way |
| Client.App.Register | static/js/app.js:147-185 | nothing is sent unless the gate passes; the alert reports the gate or the reply |
| Client.App.ShowAddModal | static/js/app.js:84-110 | the modal opens exactly with a token; otherwise the warning is shown |
| Client.App.LoadPatients | static/js/app.js:237-258 | no token: nothing is sent. A list is rendered; a refusal or a failure is reported and leaves the list as it was |
| Client.App.LoadDoctors | static/js/app.js:327-348 | as for patients, with the doctor messages |
| Client.App.LoadMappings | static/js/app.js:416-437 | as for patients, with the mapping messages |
| Client.App.LoadDashboard | static/js/app.js:188-215 | no token: nothing is sent; otherwise the counters change all together or not at all |
| Client.App.SearchPatients | static/js/app.js:303-324 | a blank query starts a plain load and sends nothing; no token: nothing is sent; a list in the reply is rendered and anything else is ignored |
| Client.App.SearchDoctors | static/js/app.js:392-413 | as for patients |
| Client.App.AddRecord | static/js/app.js:479-556 | the request goes out even without a token; success reloads the changed list and the dashboard |
| Client.App.AddMapping | static/js/app.js:599-633 | nothing is sent unless both are selected; success reloads the mappings and the dashboard |
| Client.App.DeleteRecord | static/js/app.js:636-697 | nothing happens unless confirmed; the failure message ignores the body |
| Debounce.Fires | static/js/app.js:743-753 | reference definition: a call runs unless the next call comes before its timer goes off; never more runs than calls |
| Debounce.FiresAppendCall | static/js/app.js:750-751 | a new call runs nothing yet, and cancelling the pending timer does not change what has already run |
| Debounce.FiresTick | static/js/app.js:746-749 | one tick runs at most the last call, exactly when its timer goes off at that tick |
| Debounce.BurstFiresLast | static/js/app.js:743-753 | a burst of calls, each before the previous timer goes off, runs at most once, with the last call's argument |
| Debounce.DebounceExample | static/js/app.js:18-19 | with a 300-tick wait, keystrokes at 0, 100, 150 and 620 run the search at 450 and at 920, with the third and the fourth query |
| Debounce.Debouncer.constructor | static/js/app.js:744 | nothing is pending and nothing has run |
| Debounce.Debouncer.Invoke | static/js/app.js:745-752 | the new call replaces the pending one; what has run stays what the reference definition says |
| Debounce.Debouncer.Tick | static/js/app.js:746-749 | the pending call runs, with its own argument, exactly when its timer goes off; what has run stays what the reference definition says |

## Left out

- Network, storage and the DOM:
  - `fetch`, `Promise.all` and `localStorage` are inputs. A reply is ok, refused, or a network failure, and its body is data, another JSON object or not JSON. Storage is two keys.
  - The order in which replies arrive is not modelled. Each asynchronous function is one step taking its reply, so an older search reply overwriting a newer one (static/js/app.js:312-320) lies outside the model.
- Presentation:
  - HTML templates, CSS classes, Bootstrap modals and their hiding, `showLoading`, and form resets are not modelled.
  - The `confirm()` dialog is a boolean input.
  - The navbar is `LoginButton` until a user signs in. The page's initial markup is not part of this model.
- `loadPatientsForMapping` / `loadDoctorsForMapping` only fill select boxes. The `view*` / `edit*` placeholders only show "coming soon" alerts.
- Client.App.AddRecord: the form contents are sent verbatim and do not affect the client state, so they are not parameters.
- Dates are a tick counter, and `toLocaleDateString` is not modelled. `setTimeout` / `clearTimeout` are the ticks of `Debounce.Debouncer`, and the five-second expiry of an alert is `RemoveAlert`, called at whatever tick it fires.
- Library code that is not visible:
  - JWT issuance and the bearer header: tokens are opaque strings.
  - Password hashing: the stored credential is the password itself.
  - `normalize_email`: the identity. Django's version lower-cases the part after the last `@`, while the unique-email check and the login lookup compare emails exactly, case and all. The lines below name what the identity makes true that the program does not.
  - Serializers.Authenticate: it looks up the email and compares the password. Django's `ModelBackend` also refuses inactive users, which would make the "User account is disabled" branch unreachable. The model keeps that branch reachable as the serializer is written.
- Database.Database.Register: "created exactly when the registration validates" relies on `normalize_email` being the identity. In the program, `a@B.COM` passes validation when only `a@b.com` is registered, because the unique check is exact, and then `user.save()` raises `IntegrityError`. The model has no such outcome.
- Serializers.RegisterThenLogin: relies on `normalize_email` being the identity. In the program, an account registered as `a@B.COM` is stored as `a@b.com`, so logging in with the email as typed gets "Invalid credentials"; only the normalized email logs in.
- Database.Database.CreateUser and Database.Database.CreateSuperuser: the duplicate check compares the email as given, not its normalized form, for the same reason.
- Field-format validation is not modelled: email syntax, maximum lengths, date parsing, and `parseInt` of the experience field. Database.DoctorFormErrors checks only the choice, sign and uniqueness constraints.
- Database.DoctorFormErrors: DRF's stripping and non-blank checks of the doctor's text fields are not modelled; the values are stored as sent. Stripping is modelled for the registration and login serializers only.
- Database.Database.CreatePatient and Database.Database.UpdatePatient store the patient's text fields as sent, without DRF's stripping and non-blank checks.
- Database.Database.CreateMapping, Database.Database.InsertMapping and Database.Database.CreateMappingReactivating store the mapping's `notes` (a `TextField`, healthcare/models.py:159) as sent; DRF would strip surrounding whitespace first.
- Serializers.ValidateRegistration: a field missing from the request body is not modelled; the form always carries every field (the client always sends them).
- Database.Database.CreatePatient: the requester is an existing user id. `IsAuthenticated` and the other permission classes are reduced to that.
- HTTP status codes and the DRF generic-view machinery are not modelled.
  - A doctor's update through `DoctorDetailView` and a mapping's update are not modelled. They are field replacements like Database.ReplaceInfo.
  - The doctor list (`Doctor.objects.all()`) is the table itself.
- The `is_active` field is writable through the mapping serializer (healthcare/serializers.py:102). Only creation with the default `true` is modelled.
- Case-insensitive matching lower-cases ASCII letters only. Unicode case folding is not modelled.
- `healthcare/admin.py` and `healthcare/urls.py` are not part of this model: they hold configuration only.

## Findings

| source | as written | input that shows it | evidently intended | confidence | as-written member | corrected member |
|---|---|---|---|---|---|---|
| healthcare/serializers.py:118-119 | the duplicate check looks only at active mappings, while `unique_together` (healthcare/models.py:164) forbids any second row for a pair, active or not | assign a doctor to a patient, remove the mapping through the delete endpoint (a soft delete), then assign the same pair again: the check passes and the insert violates the constraint | reassigning a removed pair succeeds, by activating the existing row again | not executed | Serializers.SoftDeletedPairPassesCheck | Database.Database.CreateMappingReactivating |
