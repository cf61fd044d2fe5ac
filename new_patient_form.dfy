/** The new-patient form (components/NewPatientForm.tsx): a guard on the two
    identifying fields and the construction of a fresh patient record from
    the text the form holds. */
module NewPatientForm {

  import opened Types
  import opened Text

  /** The form state; every field is text except the patient type. */
  datatype PatientForm = PatientForm(
    name: string,
    idNumber: string,
    age: string,
    email: string,
    phone: string,
    condition: string,
    diagnosis: string,
    illnessHistory: string,
    treatmentReceived: string,
    treatmentReason: string,
    warningSigns: string,
    medicalHistory: string,
    otherTreatments: string,
    clinicalFindings: string,
    drugInteractions: string,
    referralSource: string,
    patientType: PatientType,
    ambulationType: string,
    progress: string,
    hr: string,
    bp: string,
    spo2: string,
    temp: string)

  const InitialForm: PatientForm := PatientForm(
    "", "", "", "", "", "", "", "", "", "", "", "", "", "", "", "",
    Ambulatorio, "Independiente", "0", "70", "120/80", "98", "36.5")

  const FirstSession: string := "Ingreso inicial"

  /** `parseInt(text) || 0`: NaN and 0 both give 0, any other value is kept. */
  function OrZero(n: Option<int>): (r: int)
    ensures n.None? ==> r == 0
    ensures n.Some? ==> r == n.value
  {
    if n.Some? then n.value else 0
  }

  /** `handleSubmit`: no patient unless both the name and the identity
      document are non-empty. `id` is the timestamp id and `temp` the value
      `parseFloat` reads from the temperature field; both are inputs here. */
  function Submit(f: PatientForm, id: string, temp: Number): (r: Option<PatientInfo>)
    ensures r.None? <==> f.name == "" || f.idNumber == ""
    ensures r.Some? ==> var p := r.value;
      // copied verbatim
      && p.id == id && p.name == f.name && p.idNumber == f.idNumber
      && p.email == f.email && p.phone == f.phone
      && p.condition == f.condition && p.diagnosis == f.diagnosis
      && p.illnessHistory == f.illnessHistory && p.treatmentReceived == f.treatmentReceived
      && p.treatmentReason == f.treatmentReason && p.warningSigns == f.warningSigns
      && p.medicalHistory == f.medicalHistory && p.otherTreatments == f.otherTreatments
      && p.clinicalFindings == f.clinicalFindings && p.drugInteractions == f.drugInteractions
      && p.referralSource == f.referralSource && p.patientType == f.patientType
      && p.ambulationType == f.ambulationType
      // parsed, with 0 when the text is not a number
      && p.age == OrZero(ParseInt(f.age)) && p.progress == OrZero(ParseInt(f.progress))
      // four vital signs only
      && p.vitalSigns.heartRate == FromInt(ParseInt(f.hr))
      && p.vitalSigns.bloodPressure == f.bp
      && p.vitalSigns.oxygenSaturation == FromInt(ParseInt(f.spo2))
      && p.vitalSigns.temperature == temp
      && p.vitalSigns.respiratoryRate.None? && p.vitalSigns.weight.None?
      && p.vitalSigns.height.None? && p.vitalSigns.bmi.None?
      // a chart with no history yet
      && p.notes == [] && p.assignedExercises == [] && p.diagnosticStudies == []
      && p.lastSession == FirstSession
      && p.admissionDate.None? && p.treatmentResponse.None? && p.allergies.None?
      && p.physicalActivityLevel.None? && p.physicalExam.None?
  {
    if f.name == "" || f.idNumber == "" then None
    else Some(PatientInfo(
      id := id,
      name := f.name,
      age := OrZero(ParseInt(f.age)),
      idNumber := f.idNumber,
      email := f.email,
      phone := f.phone,
      condition := f.condition,
      diagnosis := f.diagnosis,
      admissionDate := None,
      treatmentResponse := None,
      illnessHistory := f.illnessHistory,
      treatmentReceived := f.treatmentReceived,
      treatmentReason := f.treatmentReason,
      warningSigns := f.warningSigns,
      medicalHistory := f.medicalHistory,
      allergies := None,
      otherTreatments := f.otherTreatments,
      clinicalFindings := f.clinicalFindings,
      physicalActivityLevel := None,
      physicalExam := None,
      drugInteractions := f.drugInteractions,
      referralSource := f.referralSource,
      patientType := f.patientType,
      ambulationType := f.ambulationType,
      vitalSigns := VitalSigns(FromInt(ParseInt(f.hr)), None, f.bp, FromInt(ParseInt(f.spo2)), temp,
                               None, None, None),
      diagnosticStudies := [],
      progress := OrZero(ParseInt(f.progress)),
      lastSession := FirstSession,
      notes := [],
      assignedExercises := []))
  }

  /** An age and a progress typed as whole numbers are stored as those
      numbers. */
  lemma SubmitReadsNumbers(f: PatientForm, id: string, temp: Number, age: nat, progress: nat)
    requires f.name != "" && f.idNumber != ""
    requires f.age == NatToString(age) && f.progress == NatToString(progress)
    ensures Submit(f, id, temp).value.age == age
    ensures Submit(f, id, temp).value.progress == progress
  {
    ParseIntNatToString(age, []);
    ParseIntNatToString(progress, []);
    assert NatToString(age) + [] == NatToString(age);
    assert NatToString(progress) + [] == NatToString(progress);
  }

  /** Submitting the untouched defaults with a name and a document gives age 0,
      progress 0, heart rate 70 and saturation 98. */
  lemma SubmitDefaults(name: string, idNumber: string, id: string, temp: Number)
    requires name != "" && idNumber != ""
    ensures var p := Submit(InitialForm.(name := name, idNumber := idNumber), id, temp).value;
      && p.age == 0 && p.progress == 0
      && p.vitalSigns.heartRate == Num(70.0) && p.vitalSigns.oxygenSaturation == Num(98.0)
  {
    ParseIntBlank("");
    ParsesZero();
    ParsesSeventy();
    ParsesNinetyEight();
  }

  lemma ParsesZero()
    ensures ParseInt("0") == Some(0)
  {
    assert NatToString(0) == "0";
    LiteralParses(0, "0");
  }

  lemma ParsesSeventy()
    ensures ParseInt("70") == Some(70)
  {
    assert NatToString(7) == "7";
    assert NatToString(70) == NatToString(7) + "0";
    LiteralParses(70, "70");
  }

  lemma ParsesNinetyEight()
    ensures ParseInt("98") == Some(98)
  {
    assert NatToString(9) == "9";
    assert NatToString(98) == NatToString(9) + "8";
    LiteralParses(98, "98");
  }

  lemma LiteralParses(n: nat, s: string)
    requires s == NatToString(n)
    ensures ParseInt(s) == Some(n)
  {
    ParseIntNatToString(n, []);
    assert s + [] == s;
  }
}
