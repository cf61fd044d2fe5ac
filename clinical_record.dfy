/** Note authoring on a patient's chart (components/ClinicalRecord.tsx): saving
    a note builds a new patient record from the old one, and the tabs show the
    notes of one type each. */
module ClinicalRecord {

  import opened Types
  import opened Seqs
  import opened Text

  /** The note types the form can author: 'Evolución' | 'Plan de Trabajo'. */
  type AuthoredType = t: NoteType | t != General witness Evolucion

  datatype Tab = SummaryTab | NotesTab | ExercisesTab | DiagnosticsTab

  /** The note form as typed: vitals are still text. */
  datatype NoteDraft = NoteDraft(
    date: string,
    content: string,
    painLevel: int,
    hr: string,
    bp: string,
    spo2: string,
    temp: string)

  datatype NoteSaved = NoteSaved(patient: PatientInfo, tab: Tab)

  const Author: string := "Fisio Manuel G."

  /** The vitals the form yields: `parseInt` of heart rate and saturation,
      the blood pressure as typed and the temperature as `parseFloat` read it
      (`temp`, an input of the model). Nothing else is filled in. */
  function DraftVitals(d: NoteDraft, temp: Number): (v: VitalSigns)
    ensures v.heartRate == FromInt(ParseInt(d.hr)) && v.oxygenSaturation == FromInt(ParseInt(d.spo2))
    ensures v.bloodPressure == d.bp && v.temperature == temp
    ensures v.respiratoryRate.None? && v.weight.None? && v.height.None? && v.bmi.None?
  {
    VitalSigns(FromInt(ParseInt(d.hr)), None, d.bp, FromInt(ParseInt(d.spo2)), temp, None, None, None)
  }

  /** `handleSaveNote`. `id` is the timestamp id, `displayDate` the formatted
      date and `temp` the parsed temperature; all three are inputs here. */
  function SaveNote(p: PatientInfo, noteType: AuthoredType, d: NoteDraft,
                    id: string, displayDate: string, temp: Number): (r: NoteSaved)
    // exactly one new note, at the head, the previous notes after it in order
    ensures |r.patient.notes| == |p.notes| + 1 && r.patient.notes[1..] == p.notes
    ensures var n := r.patient.notes[0];
      && n.id == id && n.date == displayDate && n.content == d.content
      && n.painLevel == d.painLevel && n.author == Author
      && n.kind == noteType && n.kind != General
      && n.physicalExam.None?
      && (n.vitalSigns.Some? <==> noteType == Evolucion)
      && (n.vitalSigns.Some? ==> n.vitalSigns.value == DraftVitals(d, temp))
    ensures r.patient.lastSession == "Hoy"
    ensures noteType == Evolucion ==> r.patient.vitalSigns == DraftVitals(d, temp)
    ensures noteType == PlanDeTrabajo ==> r.patient.vitalSigns == p.vitalSigns
    // every other field is the old one
    ensures r.patient.(notes := p.notes, lastSession := p.lastSession, vitalSigns := p.vitalSigns) == p
    ensures r.tab == (if noteType == Evolucion then NotesTab else ExercisesTab)
  {
    var vitals := DraftVitals(d, temp);
    var note := ClinicalNote(id, displayDate, d.content, d.painLevel, Author,
                             if noteType == Evolucion then Some(vitals) else None, None, noteType);
    NoteSaved(
      p.(notes := [note] + p.notes,
         lastSession := "Hoy",
         vitalSigns := if noteType == Evolucion then vitals else p.vitalSigns),
      if noteType == Evolucion then NotesTab else ExercisesTab)
  }

  /** The notes the evolution tab lists. */
  function EvolutionNotes(ns: seq<ClinicalNote>): (r: seq<ClinicalNote>)
    ensures forall n :: n in r <==> n in ns && n.kind == Evolucion
    ensures SubSeq(r, ns)
    ensures forall n :: multiset(r)[n] == if n.kind == Evolucion then multiset(ns)[n] else 0
  {
    var keep := (n: ClinicalNote) => n.kind == Evolucion;
    FilterCounts(ns, keep);
    Filter(ns, keep)
  }

  /** The notes the plan tab lists. */
  function PlanNotes(ns: seq<ClinicalNote>): (r: seq<ClinicalNote>)
    ensures forall n :: n in r <==> n in ns && n.kind == PlanDeTrabajo
    ensures SubSeq(r, ns)
    ensures forall n :: multiset(r)[n] == if n.kind == PlanDeTrabajo then multiset(ns)[n] else 0
  {
    var keep := (n: ClinicalNote) => n.kind == PlanDeTrabajo;
    FilterCounts(ns, keep);
    Filter(ns, keep)
  }

  /** After a save, the tab of the note's type lists the new note first and
      then what it listed before; the other tab is unchanged. */
  lemma SaveNoteShowsInItsTab(p: PatientInfo, noteType: AuthoredType, d: NoteDraft,
                              id: string, displayDate: string, temp: Number)
    ensures var r := SaveNote(p, noteType, d, id, displayDate, temp);
      && EvolutionNotes(r.patient.notes)
           == (if noteType == Evolucion then [r.patient.notes[0]] else []) + EvolutionNotes(p.notes)
      && PlanNotes(r.patient.notes)
           == (if noteType == PlanDeTrabajo then [r.patient.notes[0]] else []) + PlanNotes(p.notes)
  {
    var ns := SaveNote(p, noteType, d, id, displayDate, temp).patient.notes;
    assert ns[1..] == p.notes;
  }

  /** The form is pre-filled from the patient's vitals. When heart rate and
      saturation are whole numbers and the clinician leaves the vital fields
      as pre-filled, an evolution note keeps those four readings; only the
      four optional readings are dropped. */
  lemma PrefilledVitalsKept(p: PatientInfo, d: NoteDraft, hr: nat, spo2: nat,
                            id: string, displayDate: string)
    requires p.vitalSigns.heartRate == Num(hr as real) && p.vitalSigns.oxygenSaturation == Num(spo2 as real)
    requires d.hr == NatToString(hr) && d.spo2 == NatToString(spo2) && d.bp == p.vitalSigns.bloodPressure
    ensures var v := SaveNote(p, Evolucion, d, id, displayDate, p.vitalSigns.temperature).patient.vitalSigns;
      v == p.vitalSigns.(respiratoryRate := None, weight := None, height := None, bmi := None)
  {
    ParseIntNatToString(hr, []);
    ParseIntNatToString(spo2, []);
    assert NatToString(hr) + [] == NatToString(hr);
    assert NatToString(spo2) + [] == NatToString(spo2);
  }

  /** 'Fase Actual' on the recovery card. */
  function PhaseLabel(progress: int): (r: string)
    ensures r == "Readaptación" <==> progress > 70
    ensures r == "Readaptación" || r == "Consolidación"
  {
    if progress > 70 then "Readaptación" else "Consolidación"
  }

  /** More progress never moves the card back from readaptation to
      consolidation. */
  lemma PhaseLabelMonotone(a: int, b: int)
    requires a <= b
    ensures PhaseLabel(a) == "Readaptación" ==> PhaseLabel(b) == "Readaptación"
    ensures PhaseLabel(b) == "Consolidación" ==> PhaseLabel(a) == "Consolidación"
  {
  }
}
