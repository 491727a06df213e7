# Appointment booking front-end: a Dafny model of its page logic

The system is a patient/doctor appointment-booking web front-end whose persistence,
authentication and access policy live in a hosted database service. What logic the
pages do hold themselves is modelled here as pure functions over immutable values:

- the doctor directory's client-side search (`Directory`, with the string operations
  `toLowerCase`, `trim` and `includes` in `Text`);
- the doctor dashboard's keyed partial update of an appointment, its status select and
  notes editor, and its badge colours (`DoctorDashboard`);
- the patient page's cancel action, its pending-only render gate, the list reload and
  its badge colours (`PatientAppointments`);
- the booking form's submit: the inserted record and the loading flag (`Booking`);
- the appointment status lifecycle across those pages (`Lifecycle`).

The backend relation `appointments` is a `seq<Appointment>` in backend order
(`AppointmentRecords`); `update(fields).eq("id", x)` is "every row with that id gets the
fields", `insert` appends a row under a fresh key, and a `select` for one patient or
doctor is the order-preserving subsequence of their rows, each row as often as stored. The outcome of every backend call (error or
not, the rows returned, whether a session exists) is a parameter. The `status` column is
a free string in the source; `AppointmentStatus.Status` reads it as one of the four known
names or `Other(name)`, with `Parse`/`Name` a round trip in both directions, so that a
comparison with `"pending"` is exactly a test for `Pending`.

One `Appointment` shape serves both pages and the backend row. The pages select less: the
patient page's rows have no notes and carry a doctor join (name, specialization, health
center), which is only displayed and is not part of the model; the doctor dashboard's rows
carry notes and the patient profile join but no `patient_id` or `doctor_id`. Fields a page
does not select are present in the model and never read by that page's operations.

## Model

| member | source | states |
|---|---|---|
| Text.Lower | src/pages/Doctors.tsx:84-86 | `toLowerCase` keeps the length and lower-cases each character independently (ASCII letters only) |
| Text.LowerIdempotent | src/pages/Doctors.tsx:84-86 | lower-casing an already lower-cased string changes nothing |
| Text.LeadingSpace | src/pages/Doctors.tsx:79 | the count of characters `trim` drops at the front covers only whitespace and stops at the first character that is not |
| Text.TrailingEnd | src/pages/Doctors.tsx:79 | the characters `trim` drops at the back are all whitespace, and it stops at a character that is not or at the front cut |
| Text.Trim | src/pages/Doctors.tsx:79 | `trim` returns a contiguous slice of the term with only whitespace around it and no whitespace at either of its ends |
| Text.IsBlank | src/pages/Doctors.tsx:79 | `term.trim() === ""` holds exactly when every character of the term is whitespace |
| Text.BlankIgnoresCase | src/pages/Doctors.tsx:79-86 | a term is blank exactly when its lower-cased form is blank |
| Text.Includes | src/pages/Doctors.tsx:84-86 | `includes` answers true exactly when the needle occurs at some index of the haystack |
| Text.ShiftOccurrence | src/pages/Doctors.tsx:84-86 | when the needle does not start the haystack, it occurs in the haystack exactly when it occurs in the haystack's tail |
| AppointmentStatus.Name | src/pages/DoctorDashboard.tsx:22 | a status's column value is one of the four known names exactly when the status is a known one |
| AppointmentStatus.Parse | src/pages/DoctorDashboard.tsx:22 | every column string is read as a status whose column value is that same string; known names give known statuses |
| AppointmentStatus.ParseName | src/pages/DoctorDashboard.tsx:22 | reading back a status's column value gives the same status |
| AppointmentStatus.NameInjective | src/pages/Appointments.tsx:219 | two statuses have the same column value exactly when they are equal |
| AppointmentRecords.Merge | src/pages/DoctorDashboard.tsx:127 | `{ ...apt, ...updates }` changes only status and notes, each only when the patch carries it |
| AppointmentRecords.UpdateById | src/pages/DoctorDashboard.tsx:125-129 | same length and order; rows with another id unchanged; rows with the id merged with the patch |
| AppointmentRecords.UpdateKeepsIdentity | src/pages/DoctorDashboard.tsx:127 | every row keeps id, patient, doctor, date, time, reason and profile |
| AppointmentRecords.UpdateMissingId | src/pages/DoctorDashboard.tsx:126-128 | an update for an id no row has leaves the list as it was |
| AppointmentRecords.UpdateIdempotent | src/pages/DoctorDashboard.tsx:127 | applying the same update twice is applying it once |
| AppointmentRecords.UpdateThen | src/pages/DoctorDashboard.tsx:127 | two successive updates of one id equal one update by the combined patch, later keys winning |
| AppointmentRecords.RowsOf | src/pages/DoctorDashboard.tsx:89 | a party's query returns the stored rows that party owns, in store order, each exactly as often as stored, and no other row |
| AppointmentRecords.UpdateCommutesWithQuery | src/pages/Appointments.tsx:68 | querying a party's rows after an update equals applying the update to the rows queried before it |
| AppointmentRecords.Refresh | src/pages/Appointments.tsx:72-80 | a failed select keeps the current list; a successful one gives its data, or `[]` when the data is null |
| AppointmentRecords.RefreshForgetsPrevious | src/pages/Appointments.tsx:78-80 | after a successful select the list does not depend on what was shown before |
| Directory.Matches | src/pages/Doctors.tsx:83-86 | a doctor matches exactly when the lower-cased term occurs in the lower-cased name, in the lower-cased specialization, or, when a health center is joined, in its lower-cased city |
| Directory.Keep | src/pages/Doctors.tsx:82-88 | the filter result is an order-preserving subsequence holding every matching doctor as often as the full list does and no other |
| Directory.Search | src/pages/Doctors.tsx:78-90 | a blank term shows the full list unchanged; any other term shows, in order, exactly the doctors whose name, specialization or city contains it, case-insensitively, each as often as in the full list |
| Directory.KeepIdempotent | src/pages/Doctors.tsx:82-88 | filtering a filtered list by the same term returns it unchanged |
| Directory.SearchIdempotent | src/pages/Doctors.tsx:78-90 | searching a search result again with the same term returns it unchanged |
| Directory.SearchIgnoresCase | src/pages/Doctors.tsx:79-86 | terms that differ only in letter case give the same result |
| Directory.KeepSameMatches | src/pages/Doctors.tsx:84-86 | two terms with the same lower-cased form filter any list identically |
| Directory.NoCenterMatchesByNameOrSpecialization | src/pages/Doctors.tsx:86 | a doctor without a health center matches only through name or specialization |
| Directory.SpacelessExcludes | src/pages/Doctors.tsx:84-86 | a term starting with a space is never found in a string that has no space |
| Directory.AnnMatchesLowerCase | src/pages/Doctors.tsx:83-86 | the doctor "Ann" matches the term "ann" |
| Directory.AnnMissedWithLeadingSpace | src/pages/Doctors.tsx:83-86 | the doctor "Ann", with no health center, does not match " ann" |
| Directory.ExampleTermsNotBlank | src/pages/Doctors.tsx:79 | neither "ann" nor " ann" is blank, so both reach the filter |
| Directory.UntrimmedTermExample | src/pages/Doctors.tsx:79-84 | a non-blank term is searched untrimmed: "ann" finds the doctor "Ann", " ann" finds nobody |
| Directory.Load | src/pages/Doctors.tsx:37-72 | no session changes nothing; a failed load keeps both lists; a successful one sets both to the data or `[]`; loading ends |
| Directory.Refilter | src/pages/Doctors.tsx:78-90 | the search effect changes only the shown list; it shows an order-preserving part of the full list: all of it for a blank term, otherwise exactly the matching doctors, each as often as in the full list |
| Directory.LoadShowsEverything | src/pages/Doctors.tsx:68-69 | after mounting and a successful load with an empty search box, every fetched doctor is shown |
| Directory.Type | src/pages/Doctors.tsx:124 | typing replaces the term and nothing else but the shown list, which becomes an order-preserving part of the full list: all of it for a blank term, otherwise exactly the doctors matching the typed term, each as often as in the full list |
| DoctorDashboard.FetchAppointments | src/pages/DoctorDashboard.tsx:93-102 | a failed query keeps the list, a successful one replaces it by the data or `[]`; loading ends |
| DoctorDashboard.UpdateAppointment | src/pages/DoctorDashboard.tsx:105-131 | on error neither store nor list changes; on success both get the keyed merge |
| DoctorDashboard.UpdateFrame | src/pages/DoctorDashboard.tsx:125-129 | after an update the list has the same length, rows keep all fields but status and notes, and rows with another id are unchanged |
| DoctorDashboard.OptimisticMergeMatchesRefetch | src/pages/DoctorDashboard.tsx:125-129 | if the list was the doctor's rows of the store, the merged list is what a fresh query of the updated store would return |
| DoctorDashboard.StatusChoicesAreKnownStatuses | src/pages/DoctorDashboard.tsx:254-259 | the select offers exactly pending, confirmed, completed and cancelled, each once |
| DoctorDashboard.OnStatusChange | src/pages/DoctorDashboard.tsx:247-248 | a status choice sends only a known status spelled as the chosen value, and no notes |
| DoctorDashboard.OnNotesBlur | src/pages/DoctorDashboard.tsx:237-238 | a notes blur sends only the typed notes, and no status |
| DoctorDashboard.NotesBlurKeepsStatus | src/pages/DoctorDashboard.tsx:237-238 | a notes edit leaves every status as it was and sets the notes of the target rows |
| DoctorDashboard.StatusChangeKeepsNotes | src/pages/DoctorDashboard.tsx:245-258 | a status choice leaves every note as it was and gives the target rows the chosen status whatever it was before |
| DoctorDashboard.StatusColor | src/pages/DoctorDashboard.tsx:138-151 | the badge class is grey exactly for status values outside the four known ones |
| DoctorDashboard.StatusColorsDistinct | src/pages/DoctorDashboard.tsx:138-151 | the four known statuses get four different classes |
| PatientAppointments.FetchAppointments | src/pages/Appointments.tsx:44-83 | no session changes nothing; a failed query keeps the list, a successful one replaces it by the data or `[]`; loading ends |
| PatientAppointments.CancelOffered | src/pages/Appointments.tsx:219 | the cancel button is rendered exactly on rows whose status, as the list shows it, is pending |
| PatientAppointments.HandleCancel | src/pages/Appointments.tsx:89-108 | callable only from the gate of a shown pending row; on error nothing changes and nothing is fetched; on success the rows with that id are cancelled in the store and the list is fetched again, or, when that fetch finds no session, the list and loading flag stay as they were |
| PatientAppointments.CancelTargetsOnlyThatRow | src/pages/Appointments.tsx:90-93 | a successful cancel sets only the status of the rows with that id to cancelled and leaves other rows alone |
| PatientAppointments.CancelNeverTouchesNonPending | src/pages/Appointments.tsx:89-93 | with unique ids and a fresh list, exactly the patient's rows of the store, a cancel never changes a row that was not pending |
| PatientAppointments.StaleListCancelsConfirmedRow | src/pages/Appointments.tsx:89-93 | a list still showing a confirmed row as pending offers its cancel, and the cancel overwrites the confirmation in the store |
| PatientAppointments.CancelThenRefetch | src/pages/Appointments.tsx:106 | the reloaded list is the previous list with the cancel applied in place, the target row now cancelled |
| PatientAppointments.StatusColor | src/pages/Appointments.tsx:110-123 | the muted class is given exactly to "completed" and to unknown values |
| PatientAppointments.StatusColorClasses | src/pages/Appointments.tsx:110-123 | two values share a class exactly when equal or both drawn from "completed" and the unknown values |
| Booking.HandleSubmit | src/pages/BookAppointment.tsx:72-109 | loading is raised while running and lowered on every path; no session means no insert; otherwise the session user's pending record for the route's doctor with the form's date, time and reason is inserted; failures carry the error's message or the default one |
| Booking.NoDateCheck | src/pages/BookAppointment.tsx:83-90 | changing the date changes nothing in the submit's outcome but the inserted date |
| Booking.Insert | src/pages/BookAppointment.tsx:83-90 | an insert appends exactly one row carrying the submitted fields under the fresh id, with no notes |
| Booking.Commit | src/pages/BookAppointment.tsx:92-99 | only a successful insert changes the store |
| Booking.BookedRowsArePending | src/pages/BookAppointment.tsx:89 | every row a submit adds is pending |
| Booking.DoubleBookingAccepted | src/pages/BookAppointment.tsx:83-90 | two submits for the same doctor, date and time both add a row |
| Lifecycle.Enabled | src/pages/DoctorDashboard.tsx:254-259 | a status the select can send is one of the four known names; a booking gets a key no stored row holds |
| Lifecycle.Step | src/pages/Appointments.tsx:89-93 | a booking keeps every stored row and appends at most one; any other action keeps the length, rewrites only status and notes, and only of the rows with its id |
| Lifecycle.PermittedEdgesAreReachable | src/pages/DoctorDashboard.tsx:245-258 | every permitted edge is taken by an enabled action of its actor: a cancel for the patient, the select set to the target for the doctor |
| Lifecycle.StepRespectsLifecycle | src/pages/Appointments.tsx:89-93 | every page action keeps keys unique, changes a status only along a permitted edge of its actor (the patient's into cancelled from any status, the doctor's into a known status), and adds only pending rows |
| Lifecycle.StepKeepsStatusesKnown | src/pages/DoctorDashboard.tsx:254-259 | no page action writes a status outside the four known ones |
| Lifecycle.RunKeepsStatusesKnown | src/pages/DoctorDashboard.tsx:254-259 | over any legal sequence of page actions, statuses stay among the four known ones |
| Lifecycle.RunKeepsUniqueIds | src/pages/BookAppointment.tsx:83-90 | over any legal sequence of page actions, primary keys stay unique |
| Lifecycle.BookConfirmComplete | src/pages/DoctorDashboard.tsx:105-131 | a successful booking submit, then confirming and completing it, ends with the submitted record completed under its new key and every older row as it was |

## Left out

- Backend calls: session lookup, role lookup, sign-out, and the queries' ordering and limits are foreign; only their outcomes are parameters, and a query's order is the store's order.
- The role check on the doctor dashboard's mount and the doctor lookup on the booking form's mount: backend queries followed by navigation. The doctor dashboard's own doctor lookup: a backend query whose only effect, when it finds a row, is to set the heading's name and start the fetch modelled by `DoctorDashboard.FetchAppointments`.
- src/pages/Dashboard.tsx, src/pages/Index.tsx and src/components/Navigation.tsx: a capped backend query, static markup and auth-state subscriptions.
- React plumbing: effect scheduling, re-renders, toasts, navigation, dialogs and responses arriving after unmount.
- Locale and number formatting of dates and fees.
- Text.Lower: lower-cases ASCII letters only, not the full Unicode case mapping of `toLowerCase`.
- Booking.HandleSubmit: the route's `doctorId` is taken to be present, as the route pattern guarantees; the form's `required` and `min` attributes are browser checks outside the handler.
- DoctorDashboard.UpdateAppointment: the handler maps over the `appointments` captured when it was created, not the latest list, so when two update replies overlap the later merge is computed from the earlier list and can undo the first (a status change reverted by a notes save); the model applies each reply to the current list.
- PatientAppointments.CancelNeverTouchesNonPending: holds only while the list is fresh; with a stale list the handler cancels a row the doctor has confirmed (`StaleListCancelsConfirmedRow`), since it checks no status.
- Lifecycle.StepRespectsLifecycle: promises no pending-only cancel; the patient edge is "any status to cancelled", because the render gate reads a list that can be stale.
- A double-booking check: there is none in the pages, so the model only states that both bookings land.

## Notes on the source

- The handler behind the patient's cancel button checks no status itself; the pending precondition comes only from the render gate over the list, which is why `HandleCancel` requires a shown pending row with the id, and why a list that is out of date lets a confirmed appointment be cancelled.
- A failed doctor-list query keeps whatever lists the page held; at mount those are empty, which is the "list left empty" behaviour.
- The doctor's status select allows choosing a status from any current status, including the same one and including cancelled or completed rows; nothing is terminal.
- Without a session, the patient page's load redirects and leaves its loading flag raised.
- A user with the doctor role but no `doctors` row gets a dashboard that never stops loading: when the doctor lookup finds nothing there is no else branch, so nothing navigates, the appointments are never fetched and the "Loading appointments..." view stays up.
