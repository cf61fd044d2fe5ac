# FisioSevilla Digital — a verified model of the clinical core

This project models the core of FisioSevilla Digital, a single-page physiotherapy
application. It covers:

- the application shell in `App.tsx`: the environment choice (demo or final), the role
  choice, the patient and appointment collections, and the effects that load them from
  the browser's local storage and save them back;
- the clinician login screen, with registration, login and a two-step password reset
  by security question (`PhysioAuth.tsx`);
- note authoring on a patient's chart (`ClinicalRecord.tsx`);
- the exercise-plan editor (`ExerciseManager.tsx`);
- the new-patient form (`NewPatientForm.tsx`);
- the clinician's patient search (`PhysioDashboard.tsx`);
- the exercise library (`ExerciseLibrary.tsx`);
- the calendar overlay (`ClinicalCalendar.tsx`);
- the consent screen (`LegalConsent.tsx`).

Modules, one per source file plus shared ones:

| module | file | models |
|---|---|---|
| `Types` | `types.dfy` | the records of `types.ts`; a JavaScript number as `Num(real) \| NaN` |
| `Seqs` | `seqs.dfy` | `Array.prototype.filter` and `find`, and the ordered sub-list relation |
| `Text` | `text.dfy` | `toLowerCase`, `toUpperCase`, `trim`, `includes`, `parseInt`, and decimal text of a number |
| `Storage` | `storage.dfy` | local storage as a map from key to decoded collection (class `LocalStore`) |
| `DemoData` | `demo_data.dfy` | the demo patients and appointments |
| `Session` | `session.dfy` | `App.tsx`: pure collection updates and the stateful class `App` |
| `ClinicalRecord` | `clinical_record.dfy` | `handleSaveNote` and the note tabs |
| `Auth` | `physio_auth.dfy` | `handleAuth` as pure functions and the stateful class `PhysioAuth` |
| `Plans` | `exercise_manager.dfy` | `toggleExercise`, the plan-loading effect and the class `ExerciseManager` |
| `NewPatientForm` | `new_patient_form.dfy` | `handleSubmit` |
| `PhysioDashboard` | `physio_dashboard.dfy` | the patient search |
| `ExerciseLibrary` | `exercise_library.dfy` | the catalogue, its search, badge and video link |
| `ClinicalCalendar` | `clinical_calendar.dfy` | the day grid, its markers and the agenda slots |
| `LegalConsent` | `legal_consent.dfy` | document upper-casing, the validity check and the consent button |

State the source changes in place is a class: `App`, `PhysioAuth`, `ExerciseManager`
and `LocalStore`. Each handler is a method whose `ensures` gives the whole new state in
terms of pure functions, such as `ReplaceById`, `Register` or `Toggle`. The properties
the application relies on are proved as lemmas about those functions:

- ids stay unique;
- appointments keep pointing at existing patients;
- a just-registered or just-reset account can log in;
- a toggle is undone by a second toggle;
- a saved plan is the plan loaded back.

React effects are explicit steps. Selecting the final environment runs the load effect
and then the save effect (`Session.App.SelectEnv`). Every handler that changes a
collection ends with the save effect (`Session.App.Autosave`), which writes only in
the final environment.

### Behaviour of the code worth knowing

- Saving a patient's vitals never recomputes the BMI.
- Adding a patient does not check for a duplicate id (`App.tsx:367` appends).
- When the final environment is selected and a storage key is absent, that collection
  keeps its in-memory value. The value is not reset to empty.
- Logout keeps both collections in memory. After a demo session, choosing the final
  environment on a store without saved patients writes the demo patients into the
  real store (`Session.DemoThenFinal`).
- An evolution note records only heart rate, blood pressure, saturation and
  temperature. Saving one replaces the patient's vitals with those four, dropping
  respiratory rate, weight, height and BMI. The physical exam is never copied into the
  note.
- A saved note sets the patient's last session to the literal `'Hoy'`.
- The calendar's agenda is built from the patient list, not from the appointments.

## Model

| member | source | states |
|---|---|---|
| Seqs.Filter | App.tsx:337-338 | the result holds exactly the elements satisfying the predicate, as an ordered sub-list of the input |
| Seqs.FilterCounts | App.tsx:337-338 | every copy of a kept element stays and every copy of a dropped one goes: each element occurs as often as in the input, or not at all |
| Seqs.FilterDrops | App.tsx:337-338 | the result is shorter than the input by exactly the number of positions that fail the predicate |
| Seqs.Find | components/PhysioAuth.tsx:67 | `None` iff no element satisfies the predicate; otherwise the element at the first satisfying position |
| Seqs.FindOnly | components/PhysioAuth.tsx:86 | when exactly one position satisfies the predicate, `find` returns its element |
| Text.ToLower | components/PhysioDashboard.tsx:30 | same length, every character lower-cased position by position |
| Text.ToUpper | components/LegalConsent.tsx:59 | same length, every character upper-cased position by position |
| Text.Trim | components/LegalConsent.tsx:14 | the result is a slice of the input that neither starts nor ends with white space; only white space precedes it and only white space follows it |
| Text.TrimIndex | components/LegalConsent.tsx:14 | each trimmed character is the input character after the leading white space |
| Text.TrimIdempotent | components/PhysioAuth.tsx:102 | trimming twice equals trimming once |
| Text.TrimIgnoresPadding | components/LegalConsent.tsx:14 | white-space padding on either side does not change the trimmed text |
| Text.TrimSameSpacing | components/LegalConsent.tsx:14 | strings with white space at the same positions trim to the same length |
| Text.ContainsIff | components/PhysioDashboard.tsx:29-33 | `includes` holds iff the term occurs at some position |
| Text.ParseInt | components/NewPatientForm.tsx:99 | NaN (`None`) iff no digits follow the leading white space and optional sign |
| Text.ParseIntNatToString | components/ClinicalCalendar.tsx:18 | `parseInt` reads back a number's decimal text, stopping at the first non-digit |
| Text.ParseIntSkipsWhitespace | components/NewPatientForm.tsx:99 | leading white space never changes what `parseInt` reads |
| Text.ParseIntSigned | components/NewPatientForm.tsx:99 | `-` followed by a number's decimal text reads as the negated number, `+` as the number, up to the first non-digit |
| Text.ParseIntBlank | components/NewPatientForm.tsx:99 | `parseInt` of empty or blank text is NaN |
| Storage.StoredPatients | App.tsx:283 | `None` iff the patients key was never written |
| Storage.StoredUsers | components/PhysioAuth.tsx:59 | an absent accounts key reads as the empty list |
| Storage.WriteCollections | App.tsx:294-295 | after a save, both collections read back as written; the accounts key and every other key are untouched |
| Storage.LocalStore.SaveCollections | App.tsx:294-295 | the store becomes `WriteCollections` of the old store |
| Storage.LocalStore.SaveUsers | components/PhysioAuth.tsx:83 | the accounts key holds the given list; the accounts read back as that list |
| DemoData.DemoSeedConsistent | App.tsx:302-308 | four patients with distinct ids demo-1 to demo-4; each of the two appointments names a seeded patient by id and by name |
| Session.ReplaceById | App.tsx:332 | same length; every entry with the updated id becomes the update; every other entry stays in place |
| Session.UpdateKeepsInvariants | App.tsx:331-334 | an update keeps ids unique and keeps every appointment pointing at an existing patient |
| Session.ReplaceByIdAbsentOrRepeated | App.tsx:332 | updating an absent id changes nothing; updating twice with the same record equals updating once |
| Session.RemovePatient | App.tsx:337 | exactly the patients with another id remain, in order |
| Session.RemovePatientKeepsCopies | App.tsx:337 | each patient with another id keeps all its copies; none with the deleted id remains |
| Session.RemoveAppointmentsOf | App.tsx:338 | exactly the appointments of other patients remain, in order |
| Session.RemoveAppointmentsKeepsCopies | App.tsx:338 | each appointment of another patient keeps all its copies; none of the deleted patient's remains |
| Session.RemoveExactlyOne | App.tsx:336-343 | with unique ids, deleting a present id removes exactly one patient |
| Session.CascadeKeepsReferences | App.tsx:336-343 | after the cascade, every remaining appointment still names a remaining patient |
| Session.SetPlan | App.tsx:369 | only the plan of the patients with that id is replaced; everything else stays in place |
| Session.SetPlanKeepsInvariants | App.tsx:369 | a plan update keeps ids unique and appointments referenced |
| Session.App.constructor | App.tsx:53-61 | no environment, no role, no consent, no clinician, empty collections, dashboard view, never saved |
| Session.App.Autosave | App.tsx:292-298 | in the final environment, both keys are written and the time is stamped; otherwise nothing changes |
| Session.App.SelectEnv | App.tsx:300-309 | demo seeds the fixed data; final loads each present key (an absent key keeps its collection), then the save effect writes back |
| Session.App.SeedDemo | App.tsx:302-308 | the collections become the demo patients and the two demo appointments dated today |
| Session.App.LoadSaved | App.tsx:282-290 | each present key replaces its collection; an absent key leaves it as it was |
| Session.App.LeaveEnv | App.tsx:405 | the environment is cleared; nothing else changes |
| Session.App.ChooseRole | App.tsx:407-412 | the role is set, with the patient dashboard or the clinician panel as the view |
| Session.App.SignInPhysio | App.tsx:422 | the signed-in clinician is the account passed to `onLogin` |
| Session.App.GiveConsent | App.tsx:423 | consent is recorded |
| Session.App.LeaveRole | App.tsx:422-423 | the role is cleared, returning to the role choice |
| Session.App.SelectPatient | App.tsx:326-329 | the chart of the given patient opens |
| Session.App.UpdatePatient | App.tsx:331-334 | the collection becomes `ReplaceById`; an open chart with that id is refreshed; then the save effect |
| Session.App.DeletePatient | App.tsx:336-343 | the patient and its appointments are removed; an open chart with that id closes to the list; then the save effect |
| Session.App.AddAppointment | App.tsx:345-347 | the appointment is appended; then the save effect |
| Session.App.AddPatient | App.tsx:367 | the patient is appended without an id check; the view returns to the list; then the save effect |
| Session.App.UpdatePlan | App.tsx:369 | the collection becomes `SetPlan`; the open chart is not refreshed; then the save effect |
| Session.App.ManualSave | App.tsx:311-314 | both keys are written and the time is stamped, in any environment |
| Session.App.Logout | App.tsx:349-351 | sign-in state, selection and view are reset; both collections are kept |
| Session.ReopenRestores | App.tsx:282-290 | reopening in the final environment restores the collections saved in the store, and rewrites them unchanged |
| Session.DemoThenFinal | App.tsx:349-351 | a demo session, logout, then the final environment on a store without saved patients stores the demo patients |
| ClinicalRecord.DraftVitals | components/ClinicalRecord.tsx:82-87 | the parsed heart rate and saturation, the typed pressure and the parsed temperature; nothing else |
| ClinicalRecord.SaveNote | components/ClinicalRecord.tsx:81-120 | one new note at the head with the typed fields and the fixed author; vitals only on an evolution note, which also replaces the patient's vitals; last session 'Hoy'; all other fields unchanged; the tab of the note's type opens |
| ClinicalRecord.EvolutionNotes | components/ClinicalRecord.tsx:382-383 | exactly the evolution notes, in order, each evolution note as often as in the history |
| ClinicalRecord.PlanNotes | components/ClinicalRecord.tsx:441-442 | exactly the plan notes, in order, each plan note as often as in the history |
| ClinicalRecord.SaveNoteShowsInItsTab | components/ClinicalRecord.tsx:81-120 | after a save, the note's tab lists the new note followed by its previous list; the other tab is unchanged |
| ClinicalRecord.PrefilledVitalsKept | components/ClinicalRecord.tsx:57-65 | saving whole-number vitals as pre-filled keeps them; only the four optional readings are dropped |
| ClinicalRecord.PhaseLabel | components/ClinicalRecord.tsx:270 | 'Readaptación' iff progress exceeds 70, else 'Consolidación' |
| ClinicalRecord.PhaseLabelMonotone | components/ClinicalRecord.tsx:270 | more progress never moves the card from 'Readaptación' back to 'Consolidación' |
| Auth.Normalize | components/PhysioAuth.tsx:80 | a normalised answer has no upper-case letter and no surrounding white space |
| Auth.NormalizeKeepsNormalText | components/PhysioAuth.tsx:80 | an answer without capital letters or surrounding white space is stored exactly as typed |
| Auth.NormalizeIdempotent | components/PhysioAuth.tsx:102 | a stored answer normalises to itself |
| Auth.NormalizeIgnoresCaseAndPadding | components/PhysioAuth.tsx:102 | an answer typed upper-cased and padded normalises like the original |
| Auth.FindByProfessionalId | components/PhysioAuth.tsx:67 | `None` iff no account has that id; otherwise the first stored account with that id |
| Auth.FindByCredentials | components/PhysioAuth.tsx:86 | found iff some account has that id and that stored password; the result is the first account with that id and that password |
| Auth.Register | components/PhysioAuth.tsx:61-84 | a missing field or a taken id is an error; otherwise the old accounts then a new one with the normalised answer |
| Auth.RegisterKeepsUnique | components/PhysioAuth.tsx:67-71 | registration keeps professional ids unique |
| Auth.LoginAfterRegister | components/PhysioAuth.tsx:85-91 | the new account logs in with the id and password it registered |
| Auth.ResetPassword | components/PhysioAuth.tsx:107-111 | same length; the accounts with that id get the new password; the others are unchanged |
| Auth.ResetChangesExactlyOne | components/PhysioAuth.tsx:107-111 | with unique ids, only the password of the one matching account changes, and ids stay unique |
| Auth.LoginAfterReset | components/PhysioAuth.tsx:101-123 | after a reset the account logs in with the new password and with no other |
| Auth.RegisteredAnswerAccepted | components/PhysioAuth.tsx:102 | an answer registered through the form passes the reset check whatever its case and padding |
| Auth.PhysioAuth.constructor | components/PhysioAuth.tsx:36-52 | login mode, step one, no reset account, no messages, the initial form |
| Auth.PhysioAuth.Edit | components/PhysioAuth.tsx:209 | the form becomes the edited form |
| Auth.PhysioAuth.HandleAuth | components/PhysioAuth.tsx:54-125 | per mode and step: the result of `Register`, `FindByCredentials`, the step-one lookup or the step-two reset, with the matching message and store write |
| Auth.PhysioAuth.SubmitRegister | components/PhysioAuth.tsx:61-84 | on success the store holds `Register`'s list and the new account is returned; on failure its error is shown |
| Auth.PhysioAuth.LookUpForReset | components/PhysioAuth.tsx:93-100 | step two with the account iff it exists and has a question; otherwise the error |
| Auth.PhysioAuth.SubmitReset | components/PhysioAuth.tsx:101-123 | wrong answer or empty new password is an error; otherwise the store holds `ResetPassword` and success is shown |
| Auth.PhysioAuth.GoToForgot | components/PhysioAuth.tsx:236 | forgot mode at step one |
| Auth.PhysioAuth.BackToLogin | components/PhysioAuth.tsx:329 | login mode at step one |
| Auth.PhysioAuth.ToggleRegister | components/PhysioAuth.tsx:337 | login and register swap |
| Auth.PhysioAuth.AfterResetDelay | components/PhysioAuth.tsx:114-119 | login mode, step one, no reset account; the form captured at submission with the secret fields cleared |
| Auth.SubmissionKeepsUnique | components/PhysioAuth.tsx:54-125 | any submission keeps the stored professional ids unique |
| Plans.Without | components/ExerciseManager.tsx:39 | exactly the entries with another id, in order |
| Plans.WithoutKeepsCopies | components/ExerciseManager.tsx:39 | each entry with another id keeps all its copies; none with the removed id remains |
| Plans.Toggle | components/ExerciseManager.tsx:35-44 | a present id leaves the plan entirely; an absent exercise is appended |
| Plans.ToggleKeepsOthers | components/ExerciseManager.tsx:35-44 | entries with other ids, and their order, are unchanged by a toggle |
| Plans.ToggleTwiceAbsent | components/ExerciseManager.tsx:35-44 | toggling an absent exercise twice gives the plan back |
| Plans.ToggleKeepsUnique | components/ExerciseManager.tsx:35-44 | toggling keeps exercise ids unique |
| Plans.WithoutKeepsUnique | components/ExerciseManager.tsx:39 | removal keeps exercise ids unique |
| Plans.PlanOf | components/ExerciseManager.tsx:26-33 | the plan of the first patient with that id, or the empty plan when none has it |
| Plans.PlanOfSetPlan | components/ExerciseManager.tsx:26-33 | after the session stores a plan for an existing patient, loading that patient gives the stored plan |
| Plans.ExerciseManager.constructor | components/ExerciseManager.tsx:15-33 | selection from the open chart (or empty) and that patient's plan loaded |
| Plans.ExerciseManager.SelectPatient | components/ExerciseManager.tsx:177 | selecting a different id reloads its plan; re-selecting keeps the edits |
| Plans.ExerciseManager.ReceivePatients | components/ExerciseManager.tsx:26-33 | a new patient list reloads the selected patient's plan |
| Plans.ExerciseManager.ToggleExercise | components/ExerciseManager.tsx:35-44 | the edited plan becomes `Toggle` of the old one |
| Plans.ExerciseManager.SavePlan | components/ExerciseManager.tsx:46-51 | nothing without a selection; otherwise hands over (id, plan) and raises the confirmation |
| Plans.ExerciseManager.ClearSaveSuccess | components/ExerciseManager.tsx:50 | the confirmation is lowered |
| Plans.SavePlanRoundTrip | components/ExerciseManager.tsx:46-51 | saving through the session and receiving the new list leaves the editor showing the saved plan |
| NewPatientForm.OrZero | components/NewPatientForm.tsx:99 | NaN gives 0; any number is kept |
| NewPatientForm.Submit | components/NewPatientForm.tsx:92-130 | no patient iff name or document is empty; otherwise text fields copied, age and progress parsed or 0, four vitals, empty history, 'Ingreso inicial' |
| NewPatientForm.SubmitReadsNumbers | components/NewPatientForm.tsx:99 | an age and a progress typed as whole numbers are stored as those numbers |
| NewPatientForm.SubmitDefaults | components/NewPatientForm.tsx:57-81 | the untouched defaults give age 0, progress 0, heart rate 70 and saturation 98 |
| PhysioDashboard.FilterPatients | components/PhysioDashboard.tsx:29-33 | exactly the matching patients, in order, each as often as in the list |
| PhysioDashboard.EmptySearchListsAll | components/PhysioDashboard.tsx:29-33 | an empty search lists every patient in order |
| PhysioDashboard.NameSearchIgnoresCase | components/PhysioDashboard.tsx:30 | a patient found by name is found whatever the case of the term |
| PhysioDashboard.IdNumberSearchIsCaseSensitive | components/PhysioDashboard.tsx:31 | the document match depends on case: "X" finds a patient that "x" does not |
| ExerciseLibrary.Filtered | components/ExerciseLibrary.tsx:17-20 | exactly the catalogue exercises whose title or category contains the term ignoring case, in order, each as often as in the catalogue |
| ExerciseLibrary.EmptySearchShowsAll | components/ExerciseLibrary.tsx:17-20 | an empty search shows the whole catalogue in order |
| ExerciseLibrary.CategorySearchFindsCategory | components/ExerciseLibrary.tsx:19 | searching a category's name in any case lists every exercise of that category |
| ExerciseLibrary.Badge | components/ExerciseLibrary.tsx:62-66 | orange iff strength, purple iff mobility, blue iff stretching |
| ExerciseLibrary.BadgeIdentifiesCategory | components/ExerciseLibrary.tsx:62-66 | different categories get different colours and every colour is used, so the badge tells the category |
| ExerciseLibrary.CatalogShowsVideos | components/ExerciseLibrary.tsx:81 | every catalogue exercise shows its video link |
| ClinicalCalendar.SlotAt | components/ClinicalCalendar.tsx:17-22 | the time is the hour 9 plus the position; treatment and green at even positions, review and blue at odd ones |
| ClinicalCalendar.Slots | components/ClinicalCalendar.tsx:17-22 | one slot per patient in order, at most six |
| ClinicalCalendar.SlotHours | components/ClinicalCalendar.tsx:18 | each slot's time reads back as its hour, between 9 and 14 |
| ClinicalCalendar.Days | components/ClinicalCalendar.tsx:13 | the numbers 1 to 31 in order |
| ClinicalCalendar.DaysAreTheMonth | components/ClinicalCalendar.tsx:13 | a number is a grid day iff it lies in 1..31 |
| ClinicalCalendar.Markers | components/ClinicalCalendar.tsx:121-123 | blue iff divisible by 7, green iff by 10, purple iff by 4 but not 7; never blue and purple together |
| ClinicalCalendar.MarkersInGrid | components/ClinicalCalendar.tsx:121-123 | in the grid no day is blue and green, and only day 20 has two dots |
| LegalConsent.OnDniInput | components/LegalConsent.tsx:59 | same length, no lower-case letter, other characters unchanged, and each stored character is the typed one up to case |
| LegalConsent.ValidDniLength | components/LegalConsent.tsx:14 | a document without surrounding white space is valid iff it has at least 8 characters |
| LegalConsent.IconIffEnabled | components/LegalConsent.tsx:78-82 | the check icon shows iff the button is enabled, iff the box is ticked and the trimmed document has at least 8 characters |
| LegalConsent.PaddingIgnored | components/LegalConsent.tsx:14 | white space around the document does not change its validity |
| LegalConsent.UpperCasingKeepsValidity | components/LegalConsent.tsx:59 | upper-casing on input never changes validity |

## Left out

- Rendering, styling, icons, navigation chrome, the sidebar and the overlays' open and close flags are not modelled.
- The context components are not part of this model: the patient dashboard, chat, global assistant, monitoring, dosage calculator, PREM form, news card and the Gemini service. They only display data or call the network.
- Clocks are inputs. `Date.now()` ids, `toLocaleTimeString`, `toLocaleString` and `toISOString` dates are parameters (`id`, `now`, `displayDate`, `today`).
- `parseFloat` of the temperature field is an input (`temp`), because floating point is not modelled.
- JSON encoding is the identity on collections. The NaN-to-`null` conversion of `JSON.stringify` and a corrupt stored value are not modelled.
- Text.ParseInt: does not model the `0x` hexadecimal prefix `parseInt` accepts without a radix.
- Text.ToLower: maps only ASCII and Latin-1 letters. Other Unicode case mappings and length-changing mappings are not modelled.
- Text.ToUpper: maps only the ASCII and Latin-1 letters whose upper-case form is also Latin-1. It does not model `ß` becoming `SS`, nor `µ` becoming Greek `Μ` and `ÿ` becoming `Ÿ`, whose upper-case forms lie outside Latin-1.
- Text.ParseInt: results are exact integers. JavaScript numbers are doubles, so `parseInt` rounds a value above 2^53 to the nearest double; the model does not.
- Text.NatToString: always writes plain decimal digits. A template literal writes a number of 1e21 or more in exponent form (`1e+21`), which `parseInt` reads back as 1; the model does not.
- NewPatientForm.SubmitReadsNumbers: holds in JavaScript only for numbers up to 2^53, since larger ones are rounded to a double.
- Text.Trim: string length counts Dafny characters, not UTF-16 code units, so astral characters count once.
- Timers are separate steps. `Auth.PhysioAuth.AfterResetDelay` and `Plans.ExerciseManager.ClearSaveSuccess` model the callbacks; overlapping timers and unmounting before they fire are not modelled.
- The manual-save toast and the logout confirmation modal are not modelled.
- The password visibility toggle of the login screen is not modelled.
- NewPatientForm.Submit: the browser's `required` validation of the age input and the Scholar search button are not modelled. The diagnostic-studies list is always empty in the source, and so it is here.
- ClinicalRecord.PrefilledVitalsKept: assumes whole-number heart rate and saturation, because the model has no number-to-text conversion for fractional values. In JavaScript it also needs them below 1e21, where the pre-filled text switches to exponent form, and up to 2^53, where rounding starts.
- ClinicalRecord: the draft form's own state (open and close, reset after save) and the tab switching by hand are not modelled.
- Plans.ExerciseManager: the local exercise library and the exercise creator (`showCreator`) are not modelled. The library is a display list that the handlers only read through `toggleExercise`.
- The patient portal's use of the first patient as the active one is not modelled, since only the context dashboard reads it.
