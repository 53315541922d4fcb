/**
 * The record store as a value: the `patients` and `visits` tables, each a
 * finite map from key to record, with the key generator of each table. One
 * function per event handler gives the tables that handler leaves behind;
 * the class in module Clinic runs the handlers in place and is proved
 * against these functions.
 */
module Store {
  import opened Records
  import opened KeyGenerator
  import opened Listing

  datatype Tables = Tables(
    patients: map<int, Patient>,
    visits: map<int, Visit>,
    patientGen: int,
    visitGen: int)

  /** What an add reports: the new key, or why nothing was stored. */
  datatype AddResult =
    | Added(id: int)
    | ValidationError
      /** The key generator passed 2^53; the store's `add` rejects. */
    | ConstraintError

  /** The two object stores as the schema set-up creates them. */
  const Empty: Tables := Tables(map[], map[], InitialKey, InitialKey)

  /**
   * The store's invariant: each record sits under its own id, both key
   * generators are in range, every patient key was handed out by the
   * patient generator, and no visit key is one the visit generator can
   * still hand out.
   */
  ghost predicate Valid(t: Tables)
  {
    && (forall k :: k in t.patients ==> t.patients[k].id == k)
    && (forall k :: k in t.visits ==> t.visits[k].id == k)
    && InRange(t.patientGen)
    && InRange(t.visitGen)
    && (forall k :: k in t.patients ==> k < t.patientGen)
    && (forall k :: k in t.visits ==> k < t.visitGen || t.visitGen == MaxKey + 1)
  }

  /** Referential integrity: every visit names a patient that exists. */
  ghost predicate Consistent(t: Tables)
  {
    forall k :: k in t.visits ==> t.visits[k].patientId in t.patients
  }

  /** `all` is what reading the whole `patients` table returns. */
  ghost predicate ListsPatients(all: seq<Patient>, patients: map<int, Patient>)
  {
    InKeyOrder(all, PatientIds(all), patients)
  }

  /** `all` is what reading the whole `visits` table returns. */
  ghost predicate ListsVisits(all: seq<Visit>, visits: map<int, Visit>)
  {
    InKeyOrder(all, VisitIds(all), visits)
  }

  /** Add patient: an empty name is refused; otherwise the form is stored under a fresh key. */
  function AddPatient(t: Tables, form: PatientForm): (r: (AddResult, Tables))
    requires Valid(t)
    ensures Valid(r.1)
    ensures r.0 == ValidationError <==> form.name == ""
    ensures r.0 == ConstraintError <==> form.name != "" && t.patientGen > MaxKey
    ensures r.0.Added? <==> form.name != "" && t.patientGen <= MaxKey
    ensures !r.0.Added? ==> r.1 == t
    ensures r.0.Added? ==>
      && r.0.id !in t.patients
      && r.0.id == t.patientGen
      && r.1.patientGen == r.0.id + 1
      && r.1.patients == t.patients[r.0.id := NewPatient(r.0.id, form)]
    ensures r.1.patientGen >= t.patientGen
    ensures r.1.visits == t.visits && r.1.visitGen == t.visitGen
  {
    if form.name == "" then (ValidationError, t)
    else match Generate(t.patientGen)
      case None => (ConstraintError, t)
      case Some(id) =>
        (Added(id), t.(patients := t.patients[id := NewPatient(id, form)], patientGen := id + 1))
  }

  /**
   * Add visit: a form without a patient or without a date is refused;
   * otherwise the form is stored under a fresh key with the three clinical
   * fields blank, whatever the form held in them.
   */
  function AddVisit(t: Tables, form: VisitForm): (r: (AddResult, Tables))
    requires Valid(t)
    ensures Valid(r.1)
    ensures r.0 == ValidationError <==> form.patientId == NoPatient || form.date == ""
    ensures r.0 == ConstraintError <==> form.patientId != NoPatient && form.date != "" && t.visitGen > MaxKey
    ensures r.0.Added? <==> form.patientId != NoPatient && form.date != "" && t.visitGen <= MaxKey
    ensures !r.0.Added? ==> r.1 == t
    ensures r.0.Added? ==>
      && r.0.id !in t.visits
      && r.0.id == t.visitGen
      && r.1.visitGen == r.0.id + 1
      && r.1.visits.Keys == t.visits.Keys + {r.0.id}
      && (forall k :: k in t.visits ==> r.1.visits[k] == t.visits[k])
    ensures r.0.Added? ==>
      var v := r.1.visits[r.0.id];
      && v.id == r.0.id
      && v.patientId == form.patientId && v.date == form.date
      && v.time == form.time && v.notes == form.notes
      && ClinicalFields(v) == Report("", "", "")
    ensures r.1.visitGen >= t.visitGen
    ensures r.1.patients == t.patients && r.1.patientGen == t.patientGen
  {
    if form.patientId == NoPatient || form.date == "" then (ValidationError, t)
    else match Generate(t.visitGen)
      case None => (ConstraintError, t)
      case Some(id) =>
        (Added(id), t.(visits := t.visits[id := NewVisit(id, form)], visitGen := id + 1))
  }

  /**
   * Save report: nothing happens when no visit is selected; otherwise the
   * selected visit with the report spread over it is put under its own key,
   * replacing whatever was stored there.
   */
  function SaveReport(t: Tables, selected: Option<Visit>, report: Report): (r: Tables)
    requires Valid(t)
    ensures Valid(r)
    ensures selected.None? ==> r == t
    ensures selected.Some? ==>
      var id := selected.value.id;
      && r.visits.Keys == t.visits.Keys + {id}
      && r.visits[id] == WithReport(selected.value, report)
      && (forall k :: k in t.visits && k != id ==> r.visits[k] == t.visits[k])
    ensures selected.Some? ==> r.visitGen == PossiblyUpdate(t.visitGen, selected.value.id)
    ensures selected.Some? && selected.value.id in t.visits ==> r.visitGen == t.visitGen
    ensures r.visitGen >= t.visitGen
    ensures r.patients == t.patients && r.patientGen == t.patientGen
  {
    match selected
    case None => t
    case Some(v) =>
      var updated := WithReport(v, report);
      t.(visits := t.visits[updated.id := updated], visitGen := PossiblyUpdate(t.visitGen, updated.id))
  }

  /** Saving a second report over a visit just saved keeps only the second report. */
  lemma LastSaveWins(t: Tables, v: Visit, first: Report, second: Report)
    requires Valid(t)
    ensures SaveReport(SaveReport(t, Some(v), first), Some(WithReport(v, first)), second)
      == SaveReport(t, Some(v), second)
  {
  }

  /** Delete patient, first step: the patient record alone goes. */
  function RemovePatient(t: Tables, id: int): (r: Tables)
    requires Valid(t)
    ensures Valid(r)
    ensures id !in r.patients
    ensures forall k :: k in r.patients <==> k in t.patients && k != id
    ensures forall k :: k in r.patients ==> r.patients[k] == t.patients[k]
    ensures r.visits == t.visits && r.patientGen == t.patientGen && r.visitGen == t.visitGen
  {
    t.(patients := t.patients - {id})
  }

  /** Delete visit: exactly the key `id` goes; an absent key changes nothing. */
  function DeleteVisit(t: Tables, id: int): (r: Tables)
    requires Valid(t)
    ensures Valid(r)
    ensures id !in t.visits ==> r == t
    ensures forall k :: k in r.visits <==> k in t.visits && k != id
    ensures forall k :: k in r.visits ==> r.visits[k] == t.visits[k]
    ensures r.patients == t.patients && r.patientGen == t.patientGen && r.visitGen == t.visitGen
  {
    t.(visits := t.visits - {id})
  }

  /** The visits that do not belong to patient `pid`. */
  function VisitsNotOf(visits: map<int, Visit>, pid: int): (r: map<int, Visit>)
    ensures forall k :: k in r <==> k in visits && visits[k].patientId != pid
    ensures forall k :: k in r ==> r[k] == visits[k]
  {
    map k | k in visits && visits[k].patientId != pid :: visits[k]
  }

  /** Delete patient, second step: every visit of patient `pid` goes. */
  function DeleteVisitsOf(t: Tables, pid: int): (r: Tables)
    requires Valid(t)
    ensures Valid(r)
    ensures r.visits == VisitsNotOf(t.visits, pid)
    ensures r.patients == t.patients && r.patientGen == t.patientGen && r.visitGen == t.visitGen
  {
    t.(visits := VisitsNotOf(t.visits, pid))
  }

  /**
   * Delete patient: the patient goes, then every visit that names it; the
   * other visits stay as they were, and referential integrity survives.
   */
  function DeletePatient(t: Tables, id: int): (r: Tables)
    requires Valid(t)
    ensures Valid(r)
    ensures id !in r.patients
    ensures forall k :: k in r.patients <==> k in t.patients && k != id
    ensures forall k :: k in r.visits ==> r.visits[k].patientId != id
    ensures forall k :: k in t.visits && t.visits[k].patientId != id ==> k in r.visits && r.visits[k] == t.visits[k]
    ensures r.visits.Keys <= t.visits.Keys
    ensures Consistent(t) ==> Consistent(r)
    ensures r.patients == t.patients - {id}
    ensures r.visits == VisitsNotOf(t.visits, id)
    ensures r.patientGen == t.patientGen && r.visitGen == t.visitGen
  {
    DeleteVisitsOf(RemovePatient(t, id), id)
  }

  /** The first step alone leaves every visit of the deleted patient orphaned. */
  lemma RemovePatientOrphansItsVisits(t: Tables, id: int, k: int)
    requires Valid(t) && Consistent(t)
    requires k in t.visits && t.visits[k].patientId == id
    ensures !Consistent(RemovePatient(t, id))
    ensures Consistent(DeleteVisitsOf(RemovePatient(t, id), id))
  {
  }

  /** Adding a visit does not check that its patient exists. */
  lemma AddVisitCanOrphan()
    ensures Valid(Empty) && Consistent(Empty)
    ensures var r := AddVisit(Empty, VisitForm(7, "2024-01-01", "", "", "", "", ""));
      r.0 == Added(1) && !Consistent(r.1)
  {
  }

  /** A patient just added appears in the next full read of the patients table. */
  lemma AddedPatientIsListed(t: Tables, form: PatientForm, all: seq<Patient>)
    requires Valid(t)
    requires AddPatient(t, form).0.Added?
    requires ListsPatients(all, AddPatient(t, form).1.patients)
    ensures NewPatient(AddPatient(t, form).0.id, form) in all
  {
  }

  /** An example run: patient "Ana" gets key 1, her visit key 1, and deleting her removes the visit. */
  lemma AnaExample()
    ensures Valid(Empty)
    ensures var (r1, t1) := AddPatient(Empty, PatientForm("Ana", "", ""));
      && r1 == Added(1)
      && var (r2, t2) := AddVisit(t1, VisitForm(1, "2024-01-01", "", "", "", "", ""));
      && r2 == Added(1)
      && 1 in t2.visits
      && 1 !in DeletePatient(t2, 1).visits
  {
  }

  /** One user action on the store. */
  datatype Action =
    | AddPatientAction(patientForm: PatientForm)
    | AddVisitAction(visitForm: VisitForm)
    | SaveReportAction(selected: Option<Visit>, report: Report)
    | DeletePatientAction(patientId: int)
    | DeleteVisitAction(visitId: int)

  /** The tables after one action. */
  function Apply(t: Tables, a: Action): (r: Tables)
    requires Valid(t)
    ensures Valid(r)
    ensures r.patientGen >= t.patientGen && r.visitGen >= t.visitGen
  {
    match a
    case AddPatientAction(form) => AddPatient(t, form).1
    case AddVisitAction(form) => AddVisit(t, form).1
    case SaveReportAction(selected, report) => SaveReport(t, selected, report)
    case DeletePatientAction(id) => DeletePatient(t, id)
    case DeleteVisitAction(id) => DeleteVisit(t, id)
  }

  /** The tables after a run of actions. */
  function Run(t: Tables, actions: seq<Action>): (r: Tables)
    requires Valid(t)
    ensures Valid(r)
    ensures r.patientGen >= t.patientGen && r.visitGen >= t.visitGen
    decreases |actions|
  {
    if actions == [] then t else Run(Apply(t, actions[0]), actions[1..])
  }

  /** The key an action hands out for a new patient, if it adds one. */
  function PatientKeyIssued(t: Tables, a: Action): Option<int>
    requires Valid(t)
  {
    match a
    case AddPatientAction(form) =>
      (match AddPatient(t, form).0
       case Added(id) => Some(id)
       case _ => None)
    case _ => None
  }

  /** The keys a run of actions hands out for new patients, in order. */
  function PatientKeysIssued(t: Tables, actions: seq<Action>): seq<int>
    requires Valid(t)
    decreases |actions|
  {
    if actions == [] then []
    else
      var rest := PatientKeysIssued(Apply(t, actions[0]), actions[1..]);
      match PatientKeyIssued(t, actions[0])
      case Some(id) => [id] + rest
      case None => rest
  }

  /**
   * Patient keys are never reused: over any run of actions, deletions
   * included, the keys handed out are strictly ascending, start at the
   * generator's current number, and stay below the generator at the end.
   */
  lemma {:induction false} PatientKeysNeverReused(t: Tables, actions: seq<Action>)
    requires Valid(t)
    ensures Ascending(PatientKeysIssued(t, actions))
    ensures forall j :: 0 <= j < |PatientKeysIssued(t, actions)| ==>
      t.patientGen <= PatientKeysIssued(t, actions)[j] < Run(t, actions).patientGen
    decreases |actions|
  {
    if actions != [] {
      var t' := Apply(t, actions[0]);
      PatientKeysNeverReused(t', actions[1..]);
      var rest := PatientKeysIssued(t', actions[1..]);
      match PatientKeyIssued(t, actions[0])
      case None =>
      case Some(id) =>
        assert t'.patientGen == id + 1;
        assert Run(t, actions) == Run(t', actions[1..]);
        var ks := [id] + rest;
        assert forall j :: 1 <= j < |ks| ==> ks[j] == rest[j - 1];
    }
  }

  /** The key an action hands out for a new visit, if it adds one. */
  function VisitKeyIssued(t: Tables, a: Action): Option<int>
    requires Valid(t)
  {
    match a
    case AddVisitAction(form) =>
      (match AddVisit(t, form).0
       case Added(id) => Some(id)
       case _ => None)
    case _ => None
  }

  /** The keys a run of actions hands out for new visits, in order. */
  function VisitKeysIssued(t: Tables, actions: seq<Action>): seq<int>
    requires Valid(t)
    decreases |actions|
  {
    if actions == [] then []
    else
      var rest := VisitKeysIssued(Apply(t, actions[0]), actions[1..]);
      match VisitKeyIssued(t, actions[0])
      case Some(id) => [id] + rest
      case None => rest
  }

  /**
   * Visit keys are never reused either: saving a report under an explicit
   * key only raises the generator, so the keys handed out stay strictly
   * ascending.
   */
  lemma {:induction false} VisitKeysNeverReused(t: Tables, actions: seq<Action>)
    requires Valid(t)
    ensures Ascending(VisitKeysIssued(t, actions))
    ensures forall j :: 0 <= j < |VisitKeysIssued(t, actions)| ==>
      t.visitGen <= VisitKeysIssued(t, actions)[j] < Run(t, actions).visitGen
    decreases |actions|
  {
    if actions != [] {
      var t' := Apply(t, actions[0]);
      VisitKeysNeverReused(t', actions[1..]);
      var rest := VisitKeysIssued(t', actions[1..]);
      match VisitKeyIssued(t, actions[0])
      case None =>
      case Some(id) =>
        assert t'.visitGen == id + 1;
        assert Run(t, actions) == Run(t', actions[1..]);
        var ks := [id] + rest;
        assert forall j :: 1 <= j < |ks| ==> ks[j] == rest[j - 1];
    }
  }
}
