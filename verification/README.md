# Podiatry clinic record store

A model of the record store behind the podiatry clinic's agenda: two
IndexedDB object stores, `patients` and `visits`, each keyed by an
auto-incremented integer id, and the five event handlers that change them
(add patient, add visit, save clinical report, delete patient with its
visits, delete visit), together with the small display lookups the lists
use.

- `records.dfy` (module `Records`): the `Patient` and `Visit` records, the two
  forms, the clinical `Report`, and the records `add` and `put` store.
- `keygen.dfy` (module `KeyGenerator`): the `autoIncrement` key generator of
  section 2.11 of the W3C Indexed Database API: keys from 1, exhaustion past
  2^53, and the raise of the current number after a `put` under an explicit key.
- `listing.dfy` (module `Listing`): reading a whole table (`getAll`) in
  ascending key order.
- `store.dfy` (module `Store`): the two tables and both key generators as
  one value, `Tables`, with the store invariant `Valid`, referential
  integrity `Consistent`, one function per handler, and the lemmas about
  them (orphans between the two delete steps, keys never reused over any
  run of actions, an example run).
- `clinic.dfy` (module `Clinic`): the class `RecordStore`, whose fields are
  the tables and generators and whose methods are the handlers, each proved
  to leave exactly the tables the matching `Store` function gives. The
  cascade in `DeleteVisitsOf` walks a snapshot of all visits with a loop,
  deleting one matching visit at a time.
- `view.dfy` (module `View`): the `'Sin nombre'` and `'Paciente eliminado'`
  fallbacks, the patient lookup behind the visit list, and the report the
  clinical-report dialog opens with.

Representation choices. A falsy string is `""`. The visit form's
`patientId` is an `int` where `0` stands for both the initial empty string
and `Number("")` of the placeholder option; both are falsy, so both are
refused. The picker's `date` and `time` are opaque strings, `""` meaning the
picker holds nothing. `time` is kept because the form is spread into the
stored visit, so a chosen time is stored with it. The `add` of a form
without an `id` generates the key and injects it as the record's `id`, so
every record sits under its own id (`Store.Valid`).

A visit's `date` is whatever the date picker produced. Patient id 0 is
falsy, so it is refused. `addVisit` does not check that the patient exists
(`Store.AddVisitCanOrphan`).

## Model

| member | source | states |
|---|---|---|
| `Records.WithReport` | src/App.jsx:101 | the merged record takes its three clinical fields from the report and agrees with the selected visit in every other field (id, patient, date, time, notes) |
| `Records.LastReportWins` | src/App.jsx:101-102 | merging two reports over a visit keeps only the second; the record-level half of `Store.LastSaveWins` |
| `KeyGenerator.Generate` | src/App.jsx:19 | a key is handed out exactly while the current number is at most 2^53, and it is the current number; the next current number stays in range |
| `KeyGenerator.PossiblyUpdate` | src/App.jsx:102 | after a record is put under an explicit key the generator moves to the least in-range value at or above its current number that lies past the key (or is exhaustion): it never goes down and never hands out that key again |
| `Listing.LeastKeyExists` | src/App.jsx:121 | every non-empty set of keys has a least element, which lets a full read return records in key order |
| `Listing.Snapshot` | src/App.jsx:121 | a full read returns every record of the table exactly once, in strictly ascending key order, each with the key it is stored under |
| `Store.AddPatient` | src/App.jsx:65-78 | the add is refused as a validation error exactly when the name is empty, and as a constraint error exactly when the name is non-empty and the generator is past 2^53; a refusal changes nothing; otherwise the patient is stored under a key not already present, equal to the generator's current number, which then advances; other patients and the visits are unchanged; the invariant is kept |
| `Store.AddVisit` | src/App.jsx:80-93 | the add is refused as a validation error exactly when the patient id is 0 or the date is empty, and as a constraint error exactly when the form is valid and the generator is past 2^53; a refusal changes nothing; otherwise the visit is stored under a fresh key with the form's patient, date, time and notes and empty diagnosis, treatment and observations; other visits and the patients are unchanged |
| `Store.SaveReport` | src/App.jsx:96-108 | with no selected visit nothing changes; otherwise the selected visit merged with the report is stored under its id (inserted if absent), every other visit is unchanged, the visit generator becomes exactly `PossiblyUpdate` of its old value and the visit's id, so it stays put when that id was handed out before (a visit still stored or deleted since the list was read) and never goes down; the patients are unchanged |
| `Store.LastSaveWins` | src/App.jsx:101-102 | saving a second report over a visit just saved leaves the same tables as saving the second report alone: whole-record overwrite, last write wins |
| `Store.RemovePatient` | src/App.jsx:111-117 | the first step of a patient deletion removes exactly that patient key and leaves the visits as they were |
| `Store.DeleteVisit` | src/App.jsx:129-136 | exactly the given visit key is removed, an absent key changes nothing, every other visit and the patients are unchanged |
| `Store.VisitsNotOf` | src/App.jsx:121-124 | the visits left are exactly those whose patient id differs from the deleted patient's, each unchanged |
| `Store.DeleteVisitsOf` | src/App.jsx:118-125 | the second step leaves exactly the visits of other patients, patients and generators untouched, invariant kept |
| `Store.DeletePatient` | src/App.jsx:111-126 | the patients table loses exactly that key, the visits table becomes exactly the visits of other patients, each unchanged, and referential integrity holds afterwards if it held before |
| `Store.RemovePatientOrphansItsVisits` | src/App.jsx:115-124 | between the two steps of a deletion, a visit of the deleted patient is an orphan; after the second step integrity is restored |
| `Store.AddVisitCanOrphan` | src/App.jsx:80-88 | adding a visit does not check that its patient exists: from the empty store, a visit for patient 7 is stored under key 1 and breaks referential integrity |
| `Store.AddedPatientIsListed` | src/App.jsx:70-77 | a patient just added appears in the next full read of the patients table |
| `Store.AnaExample` | src/App.jsx:65-126 | from the empty store, patient "Ana" gets key 1, her visit gets key 1, and deleting patient 1 removes that visit |
| `Store.Apply` | src/App.jsx:65-136 | any single handler keeps the store invariant and never lowers either key generator |
| `Store.Run` | src/App.jsx:65-136 | any run of handlers keeps the store invariant and never lowers either key generator |
| `Store.PatientKeysNeverReused` | src/App.jsx:19 | over any run of actions, deletions included, the patient keys handed out are strictly ascending and lie between the generator's start and end values, so a freed key is never reused |
| `Store.VisitKeysNeverReused` | src/App.jsx:22 | the same for visit keys, saves of reports under explicit keys included |
| `Clinic.RecordStore.constructor` | src/App.jsx:15-29 | a freshly created database has both tables empty and both generators at 1, and satisfies the invariant |
| `Clinic.RecordStore.AddPatient` | src/App.jsx:65-78 | the handler returns the outcome and leaves the tables that `Store.AddPatient` gives |
| `Clinic.RecordStore.AddVisit` | src/App.jsx:80-93 | the handler returns the outcome and leaves the tables that `Store.AddVisit` gives |
| `Clinic.RecordStore.SaveReport` | src/App.jsx:96-108 | the handler leaves the tables that `Store.SaveReport` gives |
| `Clinic.RecordStore.RemovePatient` | src/App.jsx:111-117 | the first deletion step leaves the tables that `Store.RemovePatient` gives, an observable state with orphans |
| `Clinic.RecordStore.DeleteVisitsOf` | src/App.jsx:118-125 | the loop over a snapshot of all visits, deleting each one of the patient, leaves the tables that `Store.DeleteVisitsOf` gives; its invariant: every matching visit already reached is deleted, every other visit is still present and unchanged |
| `Clinic.RecordStore.DeletePatient` | src/App.jsx:111-126 | both steps in order leave the tables that `Store.DeletePatient` gives |
| `Clinic.RecordStore.DeleteVisit` | src/App.jsx:129-136 | the handler leaves the tables that `Store.DeleteVisit` gives |
| `Clinic.RecordStore.ListPatients` | src/App.jsx:49-55 | reading the patients table returns every patient once, in ascending key order |
| `Clinic.RecordStore.ListVisits` | src/App.jsx:57-63 | reading the visits table returns every visit once, in ascending key order |
| `View.PatientTitle` | src/App.jsx:168 | a patient is titled by its name when that is non-empty and by 'Sin nombre' otherwise; the title is never empty |
| `View.FindPatient` | src/App.jsx:193 | the lookup finds nothing exactly when no listed patient has the key; otherwise it returns the first listed patient with that key |
| `View.VisitTitle` | src/App.jsx:193-216 | a visit is titled 'Paciente eliminado' when no listed patient has its patient id; otherwise with the name of the first listed patient that has it |
| `View.VisitTitleFromTable` | src/App.jsx:216 | over a full read of the patients table, a visit is titled with its patient's name exactly when that patient is still stored, and 'Paciente eliminado' otherwise |
| `View.PrefillReport` | src/App.jsx:200-204 | the dialog opens with the visit's own clinical fields, so saving it unchanged leaves the visit as it was |

## Left out

- Rendering, dialogs, tabs, lists and notifications (src/App.jsx:138-368): no logic beyond the lookups in `View`; the success and error messages of the handlers are not modelled, only their outcomes.
- The view state and the reload after each change (`loadPatients`, `loadVisits`, `useEffect`): a reload is a full read, modelled by `ListPatients` and `ListVisits`.
- Opening the database, transactions and `async` sequencing: each store call is modelled as one atomic step on in-memory maps, and each handler is assumed to finish before the next starts. The handlers are started from click callbacks without waiting, so in the application they can interleave at `await` points; such interleavings are observable only through `Clinic.RecordStore.RemovePatient` and `Clinic.RecordStore.DeleteVisitsOf` called separately, and `Store.Run` treats a patient deletion as one step.
- Storage failures other than an exhausted key generator are not modelled; the source does not handle them.
- Keys are integers: the non-integer numeric keys IndexedDB allows cannot arise from the generator and are not modelled.
- Records written by an earlier schema, lacking the clinical fields: the model's visits always carry them, so `View.PrefillReport` models `|| ''` on strings only.
- The date and time pickers' values are opaque strings; their calendar meaning is not modelled.
- The address link to the maps service and the visit's secondary line (src/App.jsx:174, 219-224) are display only.
- src/main.jsx is not part of this model: it mounts the interface and registers a service worker.
