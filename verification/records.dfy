/**
 * The records of the podiatry clinic: patients, visits, the forms the user
 * fills in to create them, and the clinical report written on a visit later.
 * Strings are sequences of characters; an empty string is the one falsy
 * string, and the patient id 0 is the one falsy id the forms can produce.
 */
module Records {

  datatype Option<T> = None | Some(value: T)

  /** A patient as the `patients` table stores it; `id` is its in-line key. */
  datatype Patient = Patient(id: int, name: string, phone: string, address: string)

  /** The add-patient form: a patient that has no key yet. */
  datatype PatientForm = PatientForm(name: string, phone: string, address: string)

  /** A visit as the `visits` table stores it; `id` is its in-line key. */
  datatype Visit = Visit(
    id: int,
    patientId: int,
    date: string,
    time: string,
    notes: string,
    diagnostico: string,
    tratamiento: string,
    observaciones: string)

  /**
   * The schedule-visit form. `patientId` is 0 while no patient is chosen
   * (the initial empty string and the placeholder option both read as 0);
   * `date` and `time` are "" while the pickers hold nothing.
   */
  datatype VisitForm = VisitForm(
    patientId: int,
    date: string,
    time: string,
    notes: string,
    diagnostico: string,
    tratamiento: string,
    observaciones: string)

  /** The three clinical fields edited in the report dialog. */
  datatype Report = Report(diagnostico: string, tratamiento: string, observaciones: string)

  /** The patient id a visit form holds while no patient is selected. */
  const NoPatient: int := 0

  /** The record `add` stores for a patient form: the form with its generated key injected. */
  function NewPatient(id: int, form: PatientForm): Patient
  {
    Patient(id, form.name, form.phone, form.address)
  }

  /** The record `add` stores for a visit form: its key injected, the clinical fields blanked. */
  function NewVisit(id: int, form: VisitForm): Visit
  {
    Visit(id, form.patientId, form.date, form.time, form.notes, "", "", "")
  }

  /** The clinical fields of a visit. */
  function ClinicalFields(v: Visit): Report
  {
    Report(v.diagnostico, v.tratamiento, v.observaciones)
  }

  /**
   * A visit with a report spread over it: everything but the three clinical
   * fields comes from the visit, the clinical fields come from the report.
   */
  function WithReport(v: Visit, report: Report): (u: Visit)
    ensures ClinicalFields(u) == report
    ensures u.(diagnostico := v.diagnostico, tratamiento := v.tratamiento, observaciones := v.observaciones) == v
  {
    v.(diagnostico := report.diagnostico, tratamiento := report.tratamiento, observaciones := report.observaciones)
  }

  /** Merging twice keeps only the last report: the record-level half of `Store.LastSaveWins`. */
  lemma LastReportWins(v: Visit, first: Report, second: Report)
    ensures WithReport(WithReport(v, first), second) == WithReport(v, second)
  {
  }

  /** The keys of a list of patients, in list order. */
  function PatientIds(all: seq<Patient>): (ids: seq<int>)
    ensures |ids| == |all|
    ensures forall j :: 0 <= j < |all| ==> ids[j] == all[j].id
  {
    seq(|all|, j requires 0 <= j < |all| => all[j].id)
  }

  /** The keys of a list of visits, in list order. */
  function VisitIds(all: seq<Visit>): (ids: seq<int>)
    ensures |ids| == |all|
    ensures forall j :: 0 <= j < |all| ==> ids[j] == all[j].id
  {
    seq(|all|, j requires 0 <= j < |all| => all[j].id)
  }
}
