/**
 * The two pieces of logic in the lists the user sees: the name shown for a
 * patient, the patient shown for a visit, and the report a dialog opens
 * with. The lists are the tables as last read in full.
 */
module View {
  import opened Records
  import Store

  /** Shown for a patient whose name is empty. */
  const UnnamedLabel: string := "Sin nombre"

  /** Shown for a visit whose patient is not in the list. */
  const DeletedPatientLabel: string := "Paciente eliminado"

  /** The title of a patient in the patients list. */
  function PatientTitle(p: Patient): (title: string)
    ensures title != ""
    ensures p.name != "" ==> title == p.name
    ensures p.name == "" ==> title == UnnamedLabel
  {
    if p.name != "" then p.name else UnnamedLabel
  }

  /** No patient of the list has key `id`. */
  predicate IdAbsent(list: seq<Patient>, id: int)
  {
    forall j :: 0 <= j < |list| ==> list[j].id != id
  }

  /** The first patient of the list whose key is `id`, if there is one. */
  function FindPatient(list: seq<Patient>, id: int): (r: Option<Patient>)
    ensures r.None? <==> IdAbsent(list, id)
    ensures r.Some? ==> r.value.id == id
    ensures r.Some? ==> exists j :: 0 <= j < |list| && list[j] == r.value && IdAbsent(list[..j], id)
    decreases |list|
  {
    if list == [] then None
    else if list[0].id == id then Some(list[0])
    else
      var r := FindPatient(list[1..], id);
      if r.Some? then
        var j :| 0 <= j < |list[1..]| && list[1..][j] == r.value && IdAbsent(list[1..][..j], id);
        assert list[..j + 1] == [list[0]] + list[1..][..j];
        r
      else
        assert forall j :: 1 <= j < |list| ==> list[j] == list[1..][j - 1];
        r
  }

  /** The title of a visit in the visits list: its patient's name, or the deleted-patient label. */
  function VisitTitle(patients: seq<Patient>, v: Visit): (title: string)
    ensures IdAbsent(patients, v.patientId) ==> title == DeletedPatientLabel
    ensures !IdAbsent(patients, v.patientId) ==>
      exists j :: 0 <= j < |patients| && patients[j].id == v.patientId
        && title == patients[j].name && IdAbsent(patients[..j], v.patientId)
  {
    match FindPatient(patients, v.patientId)
    case Some(p) => p.name
    case None => DeletedPatientLabel
  }

  /**
   * Against the store: a visit is titled with its patient's name exactly
   * when that patient is still in the `patients` table, and with the
   * deleted-patient label otherwise.
   */
  lemma VisitTitleFromTable(all: seq<Patient>, patients: map<int, Patient>, v: Visit)
    requires Store.ListsPatients(all, patients)
    ensures v.patientId in patients ==> VisitTitle(all, v) == patients[v.patientId].name
    ensures v.patientId !in patients ==> VisitTitle(all, v) == DeletedPatientLabel
  {
  }

  /** The report the dialog opens with for a visit: its own clinical fields, "" where empty. */
  function PrefillReport(v: Visit): (report: Report)
    ensures report == ClinicalFields(v)
    ensures WithReport(v, report) == v
  {
    Report(
      if v.diagnostico != "" then v.diagnostico else "",
      if v.tratamiento != "" then v.tratamiento else "",
      if v.observaciones != "" then v.observaciones else "")
  }
}
