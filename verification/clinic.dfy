/**
 * The record store the event handlers drive, as an object whose tables and
 * key generators change in place. Each method is one handler (its store
 * calls only; dialogs and notifications are not modelled) and is proved to
 * leave exactly the tables the matching function of module Store gives.
 */
module Clinic {
  import opened Records
  import opened KeyGenerator
  import opened Listing
  import Store

  class RecordStore {
    var patients: map<int, Patient>
    var visits: map<int, Visit>
    /** Current number of the `patients` key generator. */
    var patientGen: int
    /** Current number of the `visits` key generator. */
    var visitGen: int

    /** The abstract value of the store. */
    ghost function Tables(): Store.Tables
      reads this
    {
      Store.Tables(patients, visits, patientGen, visitGen)
    }

    ghost predicate Valid()
      reads this
    {
      Store.Valid(Tables())
    }

    /** Opening the database for the first time: both object stores empty, keys from 1. */
    constructor ()
      ensures Valid()
      ensures Tables() == Store.Empty
    {
      patients := map[];
      visits := map[];
      patientGen := InitialKey;
      visitGen := InitialKey;
    }

    /** Add patient. */
    method AddPatient(form: PatientForm) returns (r: Store.AddResult)
      requires Valid()
      modifies this
      ensures Valid()
      ensures (r, Tables()) == Store.AddPatient(old(Tables()), form)
    {
      if form.name == "" {
        return Store.ValidationError;
      }
      var key := Generate(patientGen);
      if key.None? {
        return Store.ConstraintError;
      }
      var id := key.value;
      patients := patients[id := NewPatient(id, form)];
      patientGen := id + 1;
      r := Store.Added(id);
    }

    /** Add visit. */
    method AddVisit(form: VisitForm) returns (r: Store.AddResult)
      requires Valid()
      modifies this
      ensures Valid()
      ensures (r, Tables()) == Store.AddVisit(old(Tables()), form)
    {
      if form.patientId == NoPatient || form.date == "" {
        return Store.ValidationError;
      }
      var key := Generate(visitGen);
      if key.None? {
        return Store.ConstraintError;
      }
      var id := key.value;
      visits := visits[id := NewVisit(id, form)];
      visitGen := id + 1;
      r := Store.Added(id);
    }

    /** Save the clinical report of the selected visit, if any. */
    method SaveReport(selected: Option<Visit>, report: Report)
      requires Valid()
      modifies this
      ensures Valid()
      ensures Tables() == Store.SaveReport(old(Tables()), selected, report)
    {
      if selected.None? {
        return;
      }
      var updated := WithReport(selected.value, report);
      visits := visits[updated.id := updated];
      visitGen := PossiblyUpdate(visitGen, updated.id);
    }

    /** Delete patient, first step: the patient record. */
    method RemovePatient(id: int)
      requires Valid()
      modifies this
      ensures Valid()
      ensures Tables() == Store.RemovePatient(old(Tables()), id)
    {
      patients := patients - {id};
    }

    /** Delete visit. */
    method DeleteVisit(id: int)
      requires Valid()
      modifies this
      ensures Valid()
      ensures Tables() == Store.DeleteVisit(old(Tables()), id)
    {
      visits := visits - {id};
    }

    /**
     * Delete patient, second step: read every visit, then walk that
     * snapshot and delete each visit whose patient is `id`.
     */
    method DeleteVisitsOf(id: int)
      requires Valid()
      modifies this
      ensures Valid()
      ensures Tables() == Store.DeleteVisitsOf(old(Tables()), id)
    {
      var all := ListVisits();
      ghost var done: set<int> := {};
      var i := 0;
      while i < |all|
        invariant 0 <= i <= |all|
        invariant Valid()
        invariant patients == old(patients) && patientGen == old(patientGen) && visitGen == old(visitGen)
        invariant forall j :: 0 <= j < i ==> all[j].id in done
        invariant forall k :: k in visits ==> k in old(visits) && visits[k] == old(visits)[k]
        invariant forall k :: k in old(visits) && old(visits)[k].patientId != id ==> k in visits
        // every visit of patient `id` already reached in the snapshot is gone
        invariant forall k :: k in visits && k in done ==> visits[k].patientId != id
      {
        if all[i].patientId == id {
          DeleteVisit(all[i].id);
        }
        done := done + {all[i].id};
        i := i + 1;
      }
      ghost var expected := Store.VisitsNotOf(old(visits), id);
      forall k
        ensures k in visits <==> k in expected
      {
        if k in old(visits) {
          assert k in VisitIds(all);
        }
      }
      assert visits.Keys == expected.Keys;
      assert forall k :: k in visits ==> visits[k] == expected[k];
      assert visits == expected;
    }

    /** Delete patient: both steps, one after the other. */
    method DeletePatient(id: int)
      requires Valid()
      modifies this
      ensures Valid()
      ensures Tables() == Store.DeletePatient(old(Tables()), id)
    {
      RemovePatient(id);
      DeleteVisitsOf(id);
    }

    /** Read the whole `patients` table. */
    method ListPatients() returns (all: seq<Patient>)
      requires Valid()
      ensures Store.ListsPatients(all, patients)
    {
      var ids;
      ids, all := Snapshot(patients);
      assert Store.Valid(Tables());
      assert forall j :: 0 <= j < |all| ==> all[j] == patients[ids[j]] && patients[ids[j]].id == ids[j];
      assert PatientIds(all) == ids;
    }

    /** Read the whole `visits` table. */
    method ListVisits() returns (all: seq<Visit>)
      requires Valid()
      ensures Store.ListsVisits(all, visits)
    {
      var ids;
      ids, all := Snapshot(visits);
      assert Store.Valid(Tables());
      assert forall j :: 0 <= j < |all| ==> all[j] == visits[ids[j]] && visits[ids[j]].id == ids[j];
      assert VisitIds(all) == ids;
    }
  }
}
