/** The record model of the clinic (types.ts). Strings are `seq<char>`, ids are
    strings, dates and timestamps are opaque strings. A field that some producer
    in the application leaves undefined is an `Option`. */
module Types {

  datatype Option<+T> = None | Some(value: T)

  datatype Result<+T, +E> = Ok(value: T) | Err(error: E)

  /** A JavaScript number as far as the model needs one: `parseInt` and
      `parseFloat` may yield NaN. */
  datatype Number = Num(value: real) | NaN

  /** The result of `parseInt` (an integer or NaN) as a JavaScript number. */
  function FromInt(n: Option<int>): (r: Number)
    ensures r.NaN? <==> n.None?
    ensures n.Some? ==> r == Num(n.value as real)
  {
    match n
    case Some(v) => Num(v as real)
    case None => NaN
  }

  /** Vital signs. The note form and the new-patient form build this record
      with only heart rate, blood pressure, saturation and temperature, so the
      other four fields are optional here. */
  datatype VitalSigns = VitalSigns(
    heartRate: Number,
    respiratoryRate: Option<Number>,
    bloodPressure: string,
    oxygenSaturation: Number,
    temperature: Number,
    weight: Option<Number>,
    height: Option<Number>,
    bmi: Option<Number>)

  datatype GoniometryRecord = GoniometryRecord(
    joint: string, movement: string, activeRange: string, passiveRange: string)

  datatype TestOutcome = Positivo | Negativo | Dudoso

  datatype OrthopedicTestResult = OrthopedicTestResult(
    id: string, category: string, testName: string, result: TestOutcome, observations: string)

  datatype PhysicalExamination = PhysicalExamination(
    visualInspection: string,
    palpation: string,
    goniometry: seq<GoniometryRecord>,
    orthopedicTests: seq<OrthopedicTestResult>)

  datatype DiagnosticType = Sanguinea | Radiologia | Neuroconduccion | ImagenAvanzada | Otros

  datatype DiagnosticStudy = DiagnosticStudy(
    id: string, kind: DiagnosticType, title: string, date: string, resultSummary: string)

  datatype ExerciseCategory = Movilidad | Fuerza | Estiramiento

  datatype Exercise = Exercise(
    id: string,
    title: string,
    description: string,
    category: ExerciseCategory,
    videoUrl: Option<string>,
    reps: string)

  /** 'Evolución' | 'Plan de Trabajo' | 'General' */
  datatype NoteType = Evolucion | PlanDeTrabajo | General

  datatype ClinicalNote = ClinicalNote(
    id: string,
    date: string,
    content: string,
    painLevel: int,
    author: string,
    vitalSigns: Option<VitalSigns>,
    physicalExam: Option<PhysicalExamination>,
    kind: NoteType)

  /** 'Tratamiento' | 'Revisión' | 'Evaluación' | 'Domicilio' */
  datatype AppointmentType = Tratamiento | Revision | Evaluacion | Domicilio

  datatype Appointment = Appointment(
    id: string,
    patientId: string,
    patientName: string,
    date: string,
    time: string,
    kind: AppointmentType)

  datatype PatientType = Intrahospitalario | Ambulatorio

  /** The patient chart. `physicalActivityLevel` is kept as text: the seeded
      data uses a level ('Muy Activo') outside the declared union. */
  datatype PatientInfo = PatientInfo(
    id: string,
    name: string,
    age: int,
    idNumber: string,
    email: string,
    phone: string,
    condition: string,
    diagnosis: string,
    admissionDate: Option<string>,
    treatmentResponse: Option<string>,
    illnessHistory: string,
    treatmentReceived: string,
    treatmentReason: string,
    warningSigns: string,
    medicalHistory: string,
    allergies: Option<string>,
    otherTreatments: string,
    clinicalFindings: string,
    physicalActivityLevel: Option<string>,
    physicalExam: Option<PhysicalExamination>,
    drugInteractions: string,
    referralSource: string,
    patientType: PatientType,
    ambulationType: string,
    vitalSigns: VitalSigns,
    diagnosticStudies: seq<DiagnosticStudy>,
    progress: int,
    lastSession: string,
    notes: seq<ClinicalNote>,
    assignedExercises: seq<Exercise>)

  /** A clinician account; the password is stored in clear, as in the source. */
  datatype PhysioUser = PhysioUser(
    id: string,
    name: string,
    professionalId: string,
    specialty: string,
    password: Option<string>,
    securityQuestion: Option<string>,
    securityAnswer: Option<string>)

  datatype UserRole = PatientRole | PhysioRole

  /** No two patients of the list share an id. */
  predicate UniquePatientIds(ps: seq<PatientInfo>) {
    forall i, j :: 0 <= i < j < |ps| ==> ps[i].id != ps[j].id
  }

  /** Every appointment names, by id, a patient of the list. */
  predicate AllReferenced(appts: seq<Appointment>, ps: seq<PatientInfo>) {
    forall a :: a in appts ==> exists p :: p in ps && p.id == a.patientId
  }
}
