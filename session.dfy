/** The application shell (App.tsx): the in-memory patient and appointment
    collections, the environment choice (demo or final), the open selection,
    the current view, and the persistence effects that load the collections
    from the local store and save them back. */
module Session {

  import opened Types
  import opened Seqs
  import opened Storage
  import DemoData

  /** `'demo' | 'final' | null` */
  datatype Env = NoEnv | Demo | Final

  /** The views the modelled handlers switch to. */
  datatype View = DashboardView | PhysioDashboardView | NewPatientView | ClinicalRecordView | ExerciseManagerView

  // ---------------------------------------------------------------------------
  // Collection updates (the expressions passed to setPatients/setAppointments)
  // ---------------------------------------------------------------------------

  /** `prev.map(p => p.id === u.id ? u : p)`: every entry with the id of `u`
      becomes `u`; all others stay, in place. */
  function ReplaceById(ps: seq<PatientInfo>, u: PatientInfo): (r: seq<PatientInfo>)
    ensures |r| == |ps|
    ensures forall i :: 0 <= i < |ps| ==> r[i] == (if ps[i].id == u.id then u else ps[i])
  {
    if ps == [] then [] else [if ps[0].id == u.id then u else ps[0]] + ReplaceById(ps[1..], u)
  }

  /** Replacing by id keeps the id at every position, hence keeps ids unique
      and keeps every appointment pointing at an existing patient. */
  lemma UpdateKeepsInvariants(ps: seq<PatientInfo>, appts: seq<Appointment>, u: PatientInfo)
    requires UniquePatientIds(ps) && AllReferenced(appts, ps)
    ensures UniquePatientIds(ReplaceById(ps, u))
    ensures AllReferenced(appts, ReplaceById(ps, u))
  {
    var r := ReplaceById(ps, u);
    forall i | 0 <= i < |ps| ensures r[i].id == ps[i].id {
    }
    SameIdsKeepInvariants(ps, r, appts);
  }

  /** A list with the same id at every position as a list that satisfies the
      collection invariants satisfies them too. */
  lemma SameIdsKeepInvariants(ps: seq<PatientInfo>, qs: seq<PatientInfo>, appts: seq<Appointment>)
    requires |qs| == |ps| && forall i :: 0 <= i < |ps| ==> qs[i].id == ps[i].id
    requires UniquePatientIds(ps) && AllReferenced(appts, ps)
    ensures UniquePatientIds(qs) && AllReferenced(appts, qs)
  {
    forall a | a in appts
      ensures exists q :: q in qs && q.id == a.patientId
    {
      var p :| p in ps && p.id == a.patientId;
      var i :| 0 <= i < |ps| && ps[i] == p;
      assert qs[i] in qs;
    }
  }

  /** Updating a patient whose id is absent changes nothing; updating twice
      with the same record is the same as updating once. */
  lemma ReplaceByIdAbsentOrRepeated(ps: seq<PatientInfo>, u: PatientInfo)
    ensures (forall p :: p in ps ==> p.id != u.id) ==> ReplaceById(ps, u) == ps
    ensures ReplaceById(ReplaceById(ps, u), u) == ReplaceById(ps, u)
  {
    if forall p :: p in ps ==> p.id != u.id {
      assert forall i :: 0 <= i < |ps| ==> ps[i] in ps;
    }
  }

  /** `prev.filter(p => p.id !== id)` */
  function RemovePatient(ps: seq<PatientInfo>, id: string): (r: seq<PatientInfo>)
    ensures forall p :: p in r <==> p in ps && p.id != id
    ensures SubSeq(r, ps)
  {
    Filter(ps, (p: PatientInfo) => p.id != id)
  }

  /** Deleting keeps every copy of the other patients: only entries with the
      deleted id go. */
  lemma RemovePatientKeepsCopies(ps: seq<PatientInfo>, id: string)
    ensures forall p :: multiset(RemovePatient(ps, id))[p] == if p.id != id then multiset(ps)[p] else 0
  {
    FilterCounts(ps, (p: PatientInfo) => p.id != id);
  }

  /** `prev.filter(a => a.patientId !== id)`: the cascade of a deletion. */
  function RemoveAppointmentsOf(appts: seq<Appointment>, id: string): (r: seq<Appointment>)
    ensures forall a :: a in r <==> a in appts && a.patientId != id
    ensures SubSeq(r, appts)
  {
    Filter(appts, (a: Appointment) => a.patientId != id)
  }

  /** The cascade keeps every copy of the other patients' appointments. */
  lemma RemoveAppointmentsKeepsCopies(appts: seq<Appointment>, id: string)
    ensures forall a ::
      multiset(RemoveAppointmentsOf(appts, id))[a] == (if a.patientId != id then multiset(appts)[a] else 0)
  {
    FilterCounts(appts, (a: Appointment) => a.patientId != id);
  }

  /** With unique ids, deleting an id that is present removes exactly one
      patient. */
  lemma {:induction false} RemoveExactlyOne(ps: seq<PatientInfo>, id: string)
    requires UniquePatientIds(ps)
    requires exists p :: p in ps && p.id == id
    ensures |RemovePatient(ps, id)| == |ps| - 1
  {
    var rest := ps[1..];
    assert UniquePatientIds(rest) by {
      forall i, j | 0 <= i < j < |rest| ensures rest[i].id != rest[j].id {
        assert rest[i] == ps[i + 1] && rest[j] == ps[j + 1];
      }
    }
    if ps[0].id == id {
      forall i | 0 <= i < |rest| ensures rest[i].id != id {
        assert rest[i] == ps[i + 1];
      }
      FilterAll(rest, (p: PatientInfo) => p.id != id);
    } else {
      var p :| p in ps && p.id == id;
      assert p in rest;
      RemoveExactlyOne(rest, id);
    }
  }

  /** The cascade keeps referential integrity: if every appointment named an
      existing patient before the deletion, every remaining one still does. */
  lemma CascadeKeepsReferences(ps: seq<PatientInfo>, appts: seq<Appointment>, id: string)
    requires AllReferenced(appts, ps)
    ensures AllReferenced(RemoveAppointmentsOf(appts, id), RemovePatient(ps, id))
  {
    var rp := RemovePatient(ps, id);
    forall a | a in RemoveAppointmentsOf(appts, id)
      ensures exists q :: q in rp && q.id == a.patientId
    {
      var p :| p in ps && p.id == a.patientId;
      assert p in rp;
    }
  }

  /** `prev.map(p => p.id === pid ? {...p, assignedExercises: exes} : p)` */
  function SetPlan(ps: seq<PatientInfo>, pid: string, exes: seq<Exercise>): (r: seq<PatientInfo>)
    ensures |r| == |ps|
    ensures forall i :: 0 <= i < |ps| ==>
      r[i] == (if ps[i].id == pid then ps[i].(assignedExercises := exes) else ps[i])
  {
    if ps == [] then []
    else [if ps[0].id == pid then ps[0].(assignedExercises := exes) else ps[0]] + SetPlan(ps[1..], pid, exes)
  }

  /** A plan update keeps every id in place, so it keeps the collection
      invariants. */
  lemma SetPlanKeepsInvariants(ps: seq<PatientInfo>, appts: seq<Appointment>, pid: string, exes: seq<Exercise>)
    requires UniquePatientIds(ps) && AllReferenced(appts, ps)
    ensures UniquePatientIds(SetPlan(ps, pid, exes))
    ensures AllReferenced(appts, SetPlan(ps, pid, exes))
  {
    var r := SetPlan(ps, pid, exes);
    forall i | 0 <= i < |ps| ensures r[i].id == ps[i].id {
    }
    SameIdsKeepInvariants(ps, r, appts);
  }

  // ---------------------------------------------------------------------------
  // The application state
  // ---------------------------------------------------------------------------

  class App {
    var env: Env
    var role: Option<UserRole>
    var hasConsented: bool
    var currentPhysio: Option<PhysioUser>
    var patients: seq<PatientInfo>
    var appointments: seq<Appointment>
    var selectedPatient: Option<PatientInfo>
    var currentView: View
    var lastSaved: Option<string>
    const store: LocalStore

    predicate Valid()
      reads this, store
    {
      store.Valid()
    }

    /** The initial state; on mount both effects run with no environment and
        do nothing. */
    constructor (store: LocalStore)
      requires store.Valid()
      ensures Valid() && this.store == store
      ensures env == NoEnv && role == None && !hasConsented && currentPhysio == None
      ensures patients == [] && appointments == [] && selectedPatient == None
      ensures currentView == DashboardView && lastSaved == None
    {
      this.store := store;
      env := NoEnv;
      role := None;
      hasConsented := false;
      currentPhysio := None;
      patients := [];
      appointments := [];
      selectedPatient := None;
      currentView := DashboardView;
      lastSaved := None;
    }

    /** The save effect, run after every change of the collections or of the
        environment: it writes both keys and stamps the time only in the
        final environment. */
    method Autosave(now: string)
      requires Valid()
      modifies this`lastSaved, store
      ensures Valid()
      ensures env == Final ==>
        store.entries == WriteCollections(old(store.entries), patients, appointments) && lastSaved == Some(now)
      ensures env != Final ==> store.entries == old(store.entries) && lastSaved == old(lastSaved)
    {
      if env == Final {
        store.SaveCollections(patients, appointments);
        lastSaved := Some(now);
      }
    }

    /** `handleSelectEnv`, offered only while no environment is chosen. Demo
        seeds the fixed data; final runs the load effect (a key that is absent
        leaves its collection as it was), then the save effect writes the
        resulting collections back. */
    method SelectEnv(e: Env, today: string, now: string)
      requires Valid() && env == NoEnv
      modifies this, store
      ensures Valid() && env == e
      ensures e == Demo ==>
        patients == DemoData.DemoPatients && appointments == DemoData.DemoAppointments(today)
      ensures e == Final ==>
        && patients == (if PatientsKey in old(store.entries) then old(store.entries)[PatientsKey].patients else old(patients))
        && appointments == (if AppointmentsKey in old(store.entries) then old(store.entries)[AppointmentsKey].appointments else old(appointments))
      ensures e == NoEnv ==> patients == old(patients) && appointments == old(appointments)
      ensures e == Final ==>
        store.entries == WriteCollections(old(store.entries), patients, appointments) && lastSaved == Some(now)
      ensures e != Final ==> store.entries == old(store.entries) && lastSaved == old(lastSaved)
      ensures role == old(role) && hasConsented == old(hasConsented) && currentPhysio == old(currentPhysio)
      ensures selectedPatient == old(selectedPatient) && currentView == old(currentView)
    {
      env := e;
      if e == Demo {
        SeedDemo(today);
      }
      if e == Final {
        LoadSaved();
      }
      Autosave(now);
    }

    /** The demo branch of `handleSelectEnv`. */
    method SeedDemo(today: string)
      modifies this`patients, this`appointments
      ensures patients == DemoData.DemoPatients && appointments == DemoData.DemoAppointments(today)
    {
      patients := DemoData.DemoPatients;
      appointments := DemoData.DemoAppointments(today);
    }

    /** The load effect in the final environment: each key that is present
        replaces its collection. */
    method LoadSaved()
      requires Valid()
      modifies this`patients, this`appointments
      ensures patients == (if PatientsKey in store.entries then store.entries[PatientsKey].patients else old(patients))
      ensures appointments == (if AppointmentsKey in store.entries then store.entries[AppointmentsKey].appointments else old(appointments))
    {
      var saved := StoredPatients(store.entries);
      var savedAppts := StoredAppointments(store.entries);
      if saved.Some? {
        patients := saved.value;
      }
      if savedAppts.Some? {
        appointments := savedAppts.value;
      }
    }

    /** The "Volver" button of the role screen: back to the environment
        choice. The save effect runs but, with no environment, writes
        nothing. */
    method LeaveEnv()
      modifies this
      ensures env == NoEnv
      ensures role == old(role) && hasConsented == old(hasConsented) && currentPhysio == old(currentPhysio)
      ensures patients == old(patients) && appointments == old(appointments)
      ensures selectedPatient == old(selectedPatient) && currentView == old(currentView)
      ensures lastSaved == old(lastSaved)
    {
      env := NoEnv;
    }

    /** Choosing the patient portal or the clinician panel. */
    method ChooseRole(r: UserRole)
      modifies this
      ensures role == Some(r)
      ensures currentView == (if r == PatientRole then DashboardView else PhysioDashboardView)
      ensures env == old(env) && hasConsented == old(hasConsented) && currentPhysio == old(currentPhysio)
      ensures patients == old(patients) && appointments == old(appointments)
      ensures selectedPatient == old(selectedPatient) && lastSaved == old(lastSaved)
    {
      role := Some(r);
      currentView := if r == PatientRole then DashboardView else PhysioDashboardView;
    }

    /** `onLogin` of the clinician login screen. */
    method SignInPhysio(u: PhysioUser)
      modifies this`currentPhysio
      ensures currentPhysio == Some(u)
    {
      currentPhysio := Some(u);
    }

    /** `onConsent` of the consent screen. */
    method GiveConsent()
      modifies this`hasConsented
      ensures hasConsented
    {
      hasConsented := true;
    }

    /** `onBack` of the clinician login and of the consent screen: back to
        the role choice. */
    method LeaveRole()
      modifies this`role
      ensures role == None
    {
      role := None;
    }

    /** `handleSelectPatient`: open a chart. */
    method SelectPatient(p: PatientInfo)
      modifies this`selectedPatient, this`currentView
      ensures selectedPatient == Some(p) && currentView == ClinicalRecordView
    {
      selectedPatient := Some(p);
      currentView := ClinicalRecordView;
    }

    /** `handleUpdatePatient`: replace by id, refresh the open selection when it
        has that id, then the save effect. */
    method UpdatePatient(u: PatientInfo, now: string)
      requires Valid()
      modifies this, store
      ensures Valid()
      ensures patients == ReplaceById(old(patients), u) && appointments == old(appointments)
      ensures selectedPatient ==
        (if old(selectedPatient).Some? && old(selectedPatient).value.id == u.id then Some(u) else old(selectedPatient))
      ensures env == old(env) && role == old(role) && hasConsented == old(hasConsented)
      ensures currentPhysio == old(currentPhysio) && currentView == old(currentView)
      ensures env == Final ==>
        store.entries == WriteCollections(old(store.entries), patients, appointments) && lastSaved == Some(now)
      ensures env != Final ==> store.entries == old(store.entries) && lastSaved == old(lastSaved)
    {
      patients := ReplaceById(patients, u);
      if selectedPatient.Some? && selectedPatient.value.id == u.id {
        selectedPatient := Some(u);
      }
      Autosave(now);
    }

    /** `handleDeletePatient`: remove the patient and, in the same step, every
        appointment naming it; if it was open, close it and go back to the
        patient list. Then the save effect. */
    method DeletePatient(id: string, now: string)
      requires Valid()
      modifies this, store
      ensures Valid()
      ensures patients == RemovePatient(old(patients), id)
      ensures appointments == RemoveAppointmentsOf(old(appointments), id)
      ensures old(selectedPatient).Some? && old(selectedPatient).value.id == id ==>
        selectedPatient == None && currentView == PhysioDashboardView
      ensures !(old(selectedPatient).Some? && old(selectedPatient).value.id == id) ==>
        selectedPatient == old(selectedPatient) && currentView == old(currentView)
      ensures env == old(env) && role == old(role) && hasConsented == old(hasConsented)
      ensures currentPhysio == old(currentPhysio)
      ensures env == Final ==>
        store.entries == WriteCollections(old(store.entries), patients, appointments) && lastSaved == Some(now)
      ensures env != Final ==> store.entries == old(store.entries) && lastSaved == old(lastSaved)
    {
      patients := RemovePatient(patients, id);
      appointments := RemoveAppointmentsOf(appointments, id);
      CloseIfOpen(id);
      Autosave(now);
    }

    /** The selection step of `handleDeletePatient`. */
    method CloseIfOpen(id: string)
      modifies this`selectedPatient, this`currentView
      ensures old(selectedPatient).Some? && old(selectedPatient).value.id == id ==>
        selectedPatient == None && currentView == PhysioDashboardView
      ensures !(old(selectedPatient).Some? && old(selectedPatient).value.id == id) ==>
        selectedPatient == old(selectedPatient) && currentView == old(currentView)
    {
      if selectedPatient.Some? && selectedPatient.value.id == id {
        selectedPatient := None;
        currentView := PhysioDashboardView;
      }
    }

    /** `handleAddAppointment`: append, then the save effect. */
    method AddAppointment(a: Appointment, now: string)
      requires Valid()
      modifies this, store
      ensures Valid()
      ensures appointments == old(appointments) + [a] && patients == old(patients)
      ensures env == old(env) && role == old(role) && hasConsented == old(hasConsented)
      ensures currentPhysio == old(currentPhysio)
      ensures selectedPatient == old(selectedPatient) && currentView == old(currentView)
      ensures env == Final ==>
        store.entries == WriteCollections(old(store.entries), patients, appointments) && lastSaved == Some(now)
      ensures env != Final ==> store.entries == old(store.entries) && lastSaved == old(lastSaved)
    {
      appointments := appointments + [a];
      Autosave(now);
    }

    /** `onSave` of the new-patient form: append without any id check, go
        back to the patient list, then the save effect. */
    method AddPatient(p: PatientInfo, now: string)
      requires Valid()
      modifies this, store
      ensures Valid()
      ensures patients == old(patients) + [p] && appointments == old(appointments)
      ensures currentView == PhysioDashboardView
      ensures env == old(env) && role == old(role) && hasConsented == old(hasConsented)
      ensures currentPhysio == old(currentPhysio) && selectedPatient == old(selectedPatient)
      ensures env == Final ==>
        store.entries == WriteCollections(old(store.entries), patients, appointments) && lastSaved == Some(now)
      ensures env != Final ==> store.entries == old(store.entries) && lastSaved == old(lastSaved)
    {
      patients := patients + [p];
      currentView := PhysioDashboardView;
      Autosave(now);
    }

    /** `onUpdatePlan` of the exercise manager: only the plan of the patients
        with that id changes. The open selection is not refreshed. */
    method UpdatePlan(pid: string, exes: seq<Exercise>, now: string)
      requires Valid()
      modifies this, store
      ensures Valid()
      ensures patients == SetPlan(old(patients), pid, exes) && appointments == old(appointments)
      ensures env == old(env) && role == old(role) && hasConsented == old(hasConsented)
      ensures currentPhysio == old(currentPhysio)
      ensures selectedPatient == old(selectedPatient) && currentView == old(currentView)
      ensures env == Final ==>
        store.entries == WriteCollections(old(store.entries), patients, appointments) && lastSaved == Some(now)
      ensures env != Final ==> store.entries == old(store.entries) && lastSaved == old(lastSaved)
    {
      patients := SetPlan(patients, pid, exes);
      Autosave(now);
    }

    /** `handleManualSave`: writes both keys and stamps the time whatever the
        environment. */
    method ManualSave(now: string)
      requires Valid()
      modifies this`lastSaved, store
      ensures Valid()
      ensures store.entries == WriteCollections(old(store.entries), patients, appointments)
      ensures lastSaved == Some(now)
    {
      store.SaveCollections(patients, appointments);
      lastSaved := Some(now);
    }

    /** `handleLogout`: clears the sign-in state, the selection and the view,
        but keeps both collections; with no environment the save effect
        writes nothing. */
    method Logout()
      modifies this
      ensures env == NoEnv && role == None && !hasConsented && currentPhysio == None
      ensures selectedPatient == None && currentView == DashboardView
      ensures patients == old(patients) && appointments == old(appointments)
      ensures lastSaved == old(lastSaved)
    {
      env := NoEnv;
      role := None;
      hasConsented := false;
      currentPhysio := None;
      currentView := DashboardView;
      selectedPatient := None;
    }
  }

  /** Reopening the application in the final environment restores the
      collections a save left in the store. */
  method ReopenRestores(store: LocalStore, today: string, now: string) returns (app: App)
    requires store.Valid() && PatientsKey in store.entries && AppointmentsKey in store.entries
    modifies store
    ensures app.patients == old(store.entries[PatientsKey].patients)
    ensures app.appointments == old(store.entries[AppointmentsKey].appointments)
    ensures store.entries == old(store.entries)
  {
    app := new App(store);
    app.SelectEnv(Final, today, now);
  }

  /** The collections survive logout, so a demo session followed by the final
      environment on a store without saved patients writes the demo patients
      into the store. */
  method DemoThenFinal(store: LocalStore, today: string, now: string)
    requires store.Valid() && PatientsKey !in store.entries
    modifies store
    ensures store.Valid() && StoredPatients(store.entries) == Some(DemoData.DemoPatients)
  {
    var app := new App(store);
    app.SelectEnv(Demo, today, now);
    app.Logout();
    app.SelectEnv(Final, today, now);
  }
}
