/** The fixed data the demo environment seeds (App.tsx): four patients and
    two appointments dated today. */
module DemoData {

  import opened Types

  function FullVitals(hr: real, rr: real, bp: string, spo2: real, temp: real,
                      weight: real, height: real, bmi: real): VitalSigns
  {
    VitalSigns(Num(hr), Some(Num(rr)), bp, Num(spo2), Num(temp),
               Some(Num(weight)), Some(Num(height)), Some(Num(bmi)))
  }

  const Juan: PatientInfo := PatientInfo(
    id := "demo-1",
    name := "Juan Pérez Jiménez",
    age := 42,
    idNumber := "12345678X",
    email := "juan.perez@email.com",
    phone := "600123456",
    condition := "Post-op Rodilla",
    diagnosis := "Rotura de menisco interno intervenida. Plastia de LCA.",
    admissionDate := Some("2023-09-10"),
    treatmentResponse := Some("Evolución muy positiva tras 12 sesiones."),
    illnessHistory := "Paciente que sufre torsión brusca de rodilla derecha practicando pádel.",
    treatmentReceived := "Cinesiterapia pasiva, control de inflamación y potenciación isométrica.",
    treatmentReason := "Recuperación funcional para vuelta al deporte.",
    warningSigns := "Edema grave recurrente.",
    medicalHistory := "Sin antecedentes relevantes.",
    allergies := None,
    otherTreatments := "Ninguno.",
    clinicalFindings := "",
    physicalActivityLevel := Some("Activo"),
    physicalExam := Some(PhysicalExamination(
      "Ligero edema infrapatelar en rodilla derecha. Cicatrices quirúrgicas estables.",
      "Punto doloroso en interlínea medial. Tono muscular del cuádriceps disminuido.",
      [ GoniometryRecord("Rodilla D", "Flexión", "105", "115"),
        GoniometryRecord("Rodilla D", "Extensión", "-5", "0") ],
      [ OrthopedicTestResult("t1", "Rodilla", "Test de Lachman", Negativo, "Tope final firme.") ])),
    drugInteractions := "Ninguna.",
    referralSource := "Traumatología",
    patientType := Ambulatorio,
    ambulationType := "Independiente",
    vitalSigns := FullVitals(72.0, 16.0, "120/80", 98.0, 36.5, 82.0, 178.0, 25.88),
    diagnosticStudies := [],
    progress := 45,
    lastSession := "Hace 2 días",
    notes := [],
    assignedExercises := [
      Exercise("1", "Sentadilla en Pared", "Mantén la espalda apoyada.", Fuerza, None, "3 series de 10 reps") ])

  const Elena: PatientInfo := PatientInfo(
    id := "demo-2",
    name := "Elena García Martín",
    age := 55,
    idNumber := "87654321B",
    email := "elena.garcia@email.com",
    phone := "655987432",
    condition := "Hombro Doloroso",
    diagnosis := "Tendinopatía del supraespinoso con calcificación incipiente.",
    admissionDate := Some("2023-10-05"),
    treatmentResponse := Some("Reducción notable del dolor nocturno."),
    illnessHistory := "Inicio insidioso hace 3 meses, dolor al levantar el brazo lateralmente.",
    treatmentReceived := "Terapia manual, punción seca y ondas de choque.",
    treatmentReason := "Limitación en actividades de la vida diaria.",
    warningSigns := "Dolor irradiado al codo.",
    medicalHistory := "Hipertensión controlada.",
    allergies := None,
    otherTreatments := "AINEs pautados por médico de cabecera.",
    clinicalFindings := "",
    physicalActivityLevel := Some("Sedentario"),
    physicalExam := Some(PhysicalExamination(
      "Disquinesia escapular derecha leve. Atrofia fosa supraespinosa.",
      "Dolor exquisito en troquiter. Hipertonía en trapecio superior.",
      [ GoniometryRecord("Hombro D", "Abducción", "85", "110"),
        GoniometryRecord("Hombro D", "Flexión", "140", "160") ],
      [ OrthopedicTestResult("t2", "Hombro", "Signo de Jobe (Empty Can)", Positivo, "Dolor intenso a la resistencia."),
        OrthopedicTestResult("t3", "Hombro", "Test de Hawkins-Kennedy", Positivo, "Compromiso subacromial evidente.") ])),
    drugInteractions := "Ninguna conocida.",
    referralSource := "Médico de Familia",
    patientType := Ambulatorio,
    ambulationType := "Independiente",
    vitalSigns := FullVitals(68.0, 14.0, "135/85", 97.0, 36.6, 65.0, 162.0, 24.77),
    diagnosticStudies := [],
    progress := 30,
    lastSession := "Ayer",
    notes := [],
    assignedExercises := [
      Exercise("4", "Movilidad Escapular", "Rota los hombros suavemente.", Movilidad, None, "2 series de 15 reps") ])

  const Carlos: PatientInfo := PatientInfo(
    id := "demo-3",
    name := "Carlos Ruiz Soler",
    age := 30,
    idNumber := "44556677K",
    email := "carlos.ruiz@email.com",
    phone := "611223344",
    condition := "Hernia Discal L5-S1",
    diagnosis := "Radiculopatía S1 izquierda por hernia extrusa.",
    admissionDate := Some("2023-11-02"),
    treatmentResponse := Some("Inestabilidad en la fuerza de flexión plantar."),
    illnessHistory := "Episodio de dolor agudo tras levantamiento de carga pesada.",
    treatmentReceived := "Tracción manual, neurodinamia del nervio ciático.",
    treatmentReason := "Evitar intervención quirúrgica.",
    warningSigns := "Pérdida de fuerza en el pie (parestesias).",
    medicalHistory := "Fumador ocasional.",
    allergies := None,
    otherTreatments := "Pregabalina 75mg.",
    clinicalFindings := "",
    physicalActivityLevel := Some("Leve"),
    physicalExam := Some(PhysicalExamination(
      "Shift lateral derecho (antálgico). Aplanamiento lordosis lumbar.",
      "Contractura paravertebral bilateral. Sensibilidad disminuida en dermatoma S1.",
      [ GoniometryRecord("Lumbares", "Flexión Tronco", "30", "45") ],
      [ OrthopedicTestResult("t4", "Columna Lumbar", "Test de Lasegue (SLR)", Positivo, "Dolor a los 40º en pierna izquierda."),
        OrthopedicTestResult("t5", "Columna Lumbar", "Test de Bragard", Positivo, "Aumenta componente radicular.") ])),
    drugInteractions := "Controlar efecto sedante de medicación.",
    referralSource := "Neurocirugía",
    patientType := Ambulatorio,
    ambulationType := "Independiente con limitación",
    vitalSigns := FullVitals(80.0, 18.0, "110/70", 99.0, 36.4, 90.0, 185.0, 26.3),
    diagnosticStudies := [],
    progress := 15,
    lastSession := "Hoy",
    notes := [],
    assignedExercises := [
      Exercise("3", "Estiramiento Isquiotibial", "Usa una toalla para asistir el estiramiento.", Estiramiento, None, "3 series de 30s") ])

  const Sofia: PatientInfo := PatientInfo(
    id := "demo-4",
    name := "Sofía Méndez Ruiz",
    age := 22,
    idNumber := "99001122L",
    email := "sofia.mendez@email.com",
    phone := "699000111",
    condition := "Esguince Tobillo",
    diagnosis := "Esguince Grado II del ligamento lateral externo (LPAA).",
    admissionDate := Some("2023-11-20"),
    treatmentResponse := Some("Disminución rápida del hematoma y dolor."),
    illnessHistory := "Inversión forzada del tobillo derecho durante entrenamiento de fútbol.",
    treatmentReceived := "Drenaje linfático manual, vendaje funcional.",
    treatmentReason := "Retorno seguro a la competición.",
    warningSigns := "Inestabilidad crónica percibida.",
    medicalHistory := "Esguinces previos en el mismo pie.",
    allergies := None,
    otherTreatments := "Crioterapia domiciliaria.",
    clinicalFindings := "",
    physicalActivityLevel := Some("Muy Activo"),
    physicalExam := Some(PhysicalExamination(
      "Edema maleolar externo (signo de la clara de huevo). Equimosis.",
      "Dolor a la palpación del ligamento peroneoastragalino anterior.",
      [ GoniometryRecord("Tobillo D", "Flexión Dorsal", "5", "10"),
        GoniometryRecord("Tobillo D", "Flexión Plantar", "30", "45") ],
      [ OrthopedicTestResult("t6", "Tobillo/Pie", "Cajón Anterior Tobillo", Positivo, "Laxitud aumentada respecto a contralateral."),
        OrthopedicTestResult("t7", "Tobillo/Pie", "Prueba de Thompson", Negativo, "Tendón de Aquiles íntegro.") ])),
    drugInteractions := "Ninguna.",
    referralSource := "Club Deportivo",
    patientType := Ambulatorio,
    ambulationType := "Carga parcial (con muletas)",
    vitalSigns := FullVitals(58.0, 14.0, "105/65", 100.0, 36.2, 58.0, 168.0, 20.55),
    diagnosticStudies := [],
    progress := 10,
    lastSession := "Hoy",
    notes := [],
    assignedExercises := [
      Exercise("4", "Movilidad de Tobillo", "Dibuja el alfabeto con el pie.", Movilidad, None, "3 series") ])

  /** `demoPatients`. */
  const DemoPatients: seq<PatientInfo> := [Juan, Elena, Carlos, Sofia]

  /** The two appointments seeded with the demo, both on `today` (the date
      part of the current ISO timestamp). */
  function DemoAppointments(today: string): seq<Appointment> {
    [ Appointment("a1", "demo-1", "Juan Pérez Jiménez", today, "10:30", Tratamiento),
      Appointment("a2", "demo-3", "Carlos Ruiz Soler", today, "12:00", Evaluacion) ]
  }

  /** Four patients with the distinct ids demo-1 to demo-4; two appointments,
      each naming a seeded patient by id and carrying that patient's name. */
  lemma DemoSeedConsistent(today: string)
    ensures |DemoPatients| == 4 && |DemoAppointments(today)| == 2
    ensures DemoPatients[0].id == "demo-1" && DemoPatients[1].id == "demo-2"
    ensures DemoPatients[2].id == "demo-3" && DemoPatients[3].id == "demo-4"
    ensures UniquePatientIds(DemoPatients)
    ensures AllReferenced(DemoAppointments(today), DemoPatients)
    ensures forall a :: a in DemoAppointments(today) ==>
      exists p :: p in DemoPatients && p.id == a.patientId && p.name == a.patientName
  {
    assert Juan in DemoPatients && Carlos in DemoPatients;
  }
}
