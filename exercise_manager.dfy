/** The exercise-plan editor (components/ExerciseManager.tsx): a patient is
    selected, the patient's plan is loaded into an editable list, exercises
    are toggled in and out of it, and the list is handed back to the session
    as that patient's new plan. */
module Plans {

  import opened Types
  import opened Seqs
  import Session

  predicate HasExercise(plan: seq<Exercise>, id: string) {
    exists e :: e in plan && e.id == id
  }

  predicate UniqueExerciseIds(plan: seq<Exercise>) {
    forall i, j :: 0 <= i < j < |plan| ==> plan[i].id != plan[j].id
  }

  /** The entries of `plan` whose id is not `id`, in order. */
  function Without(plan: seq<Exercise>, id: string): (r: seq<Exercise>)
    ensures forall e :: e in r <==> e in plan && e.id != id
    ensures SubSeq(r, plan)
  {
    Filter(plan, (e: Exercise) => e.id != id)
  }

  /** Removal keeps every copy of the entries with other ids. */
  lemma WithoutKeepsCopies(plan: seq<Exercise>, id: string)
    ensures forall e :: multiset(Without(plan, id))[e] == if e.id != id then multiset(plan)[e] else 0
  {
    FilterCounts(plan, (e: Exercise) => e.id != id);
  }

  /** `toggleExercise`: an exercise whose id is in the plan leaves it (every
      entry with that id goes); otherwise it is appended at the end. */
  function Toggle(plan: seq<Exercise>, ex: Exercise): (r: seq<Exercise>)
    ensures HasExercise(plan, ex.id) ==> r == Without(plan, ex.id) && !HasExercise(r, ex.id)
    ensures !HasExercise(plan, ex.id) ==> r == plan + [ex]
  {
    if Find(plan, (e: Exercise) => e.id == ex.id).Some? then Without(plan, ex.id) else plan + [ex]
  }

  /** Entries with other ids, and their order, are the same before and after
      a toggle. */
  lemma ToggleKeepsOthers(plan: seq<Exercise>, ex: Exercise)
    ensures Without(Toggle(plan, ex), ex.id) == Without(plan, ex.id)
  {
    var keep := (e: Exercise) => e.id != ex.id;
    if HasExercise(plan, ex.id) {
      var w := Without(plan, ex.id);
      FilterAll(w, keep);
    } else {
      FilterAppend(plan, [ex], keep);
      assert Filter([ex], keep) == [];
    }
  }

  /** Toggling an exercise that is not in the plan twice gives the plan back. */
  lemma ToggleTwiceAbsent(plan: seq<Exercise>, ex: Exercise)
    requires !HasExercise(plan, ex.id)
    ensures Toggle(Toggle(plan, ex), ex) == plan
  {
    var keep := (e: Exercise) => e.id != ex.id;
    var once := plan + [ex];
    assert Toggle(plan, ex) == once;
    assert ex in once;
    assert Toggle(once, ex) == Filter(once, keep);
    FilterAppend(plan, [ex], keep);
    assert Filter([ex], keep) == [];
    FilterAll(plan, keep);
    assert plan + [] == plan;
  }

  /** Toggling keeps a plan free of duplicate ids. */
  lemma {:induction false} ToggleKeepsUnique(plan: seq<Exercise>, ex: Exercise)
    requires UniqueExerciseIds(plan)
    ensures UniqueExerciseIds(Toggle(plan, ex))
  {
    if HasExercise(plan, ex.id) {
      WithoutKeepsUnique(plan, ex.id);
    } else {
      var r := plan + [ex];
      forall i, j | 0 <= i < j < |r| ensures r[i].id != r[j].id {
        assert r[i] == plan[i] && plan[i] in plan;
      }
    }
  }

  lemma {:induction false} WithoutKeepsUnique(plan: seq<Exercise>, id: string)
    requires UniqueExerciseIds(plan)
    ensures UniqueExerciseIds(Without(plan, id))
  {
    if plan != [] {
      var rest := plan[1..];
      UniqueTail(plan);
      WithoutKeepsUnique(rest, id);
      if plan[0].id != id {
        var w := Without(rest, id);
        assert Without(plan, id) == [plan[0]] + w;
        forall e | e in w ensures e.id != plan[0].id {
          var k :| 0 <= k < |rest| && rest[k] == e;
          assert plan[k + 1] == e;
        }
        UniqueCons(plan[0], w);
      }
    }
  }

  lemma UniqueTail(plan: seq<Exercise>)
    requires plan != [] && UniqueExerciseIds(plan)
    ensures UniqueExerciseIds(plan[1..])
  {
    var rest := plan[1..];
    forall i, j | 0 <= i < j < |rest| ensures rest[i].id != rest[j].id {
      assert rest[i] == plan[i + 1] && rest[j] == plan[j + 1];
    }
  }

  lemma UniqueCons(x: Exercise, w: seq<Exercise>)
    requires UniqueExerciseIds(w)
    requires forall e :: e in w ==> e.id != x.id
    ensures UniqueExerciseIds([x] + w)
  {
    var r := [x] + w;
    forall i, j | 0 <= i < j < |r| ensures r[i].id != r[j].id {
      if i == 0 {
        assert r[j] == w[j - 1] && w[j - 1] in w;
      } else {
        assert r[i] == w[i - 1] && r[j] == w[j - 1];
      }
    }
  }

  /** The plan the selection effect loads: the plan of the first patient with
      that id, or the empty plan when there is none. */
  function PlanOf(ps: seq<PatientInfo>, id: string): (r: seq<Exercise>)
    ensures (forall p :: p in ps ==> p.id != id) ==> r == []
    ensures (exists p :: p in ps && p.id == id) ==>
      exists p :: p in ps && p.id == id && r == p.assignedExercises
    ensures forall i :: 0 <= i < |ps| && ps[i].id == id && (forall j :: 0 <= j < i ==> ps[j].id != id) ==>
      r == ps[i].assignedExercises
  {
    var found := Find(ps, (p: PatientInfo) => p.id == id);
    if found.Some? then
      found.value.assignedExercises
    else
      assert forall p :: p in ps ==> p.id != id;
      []
  }

  /** After the session stores a plan for an existing patient, loading that
      patient's plan gives back exactly the stored plan. */
  lemma PlanOfSetPlan(ps: seq<PatientInfo>, pid: string, exes: seq<Exercise>)
    requires exists p :: p in ps && p.id == pid
    ensures PlanOf(Session.SetPlan(ps, pid, exes), pid) == exes
  {
    var r := Session.SetPlan(ps, pid, exes);
    var p :| p in ps && p.id == pid;
    var i :| 0 <= i < |ps| && ps[i] == p;
    SetPlanAt(ps, pid, exes, i);
    assert r[i] in r;
    forall k | 0 <= k < |r| && r[k].id == pid ensures r[k].assignedExercises == exes {
      SetPlanAt(ps, pid, exes, k);
    }
    PlanOfAgreed(r, pid, exes);
  }

  /** When every patient with the id has the same plan, that is the plan
      loaded. */
  lemma PlanOfAgreed(ps: seq<PatientInfo>, id: string, exes: seq<Exercise>)
    requires exists p :: p in ps && p.id == id
    requires forall k :: 0 <= k < |ps| && ps[k].id == id ==> ps[k].assignedExercises == exes
    ensures PlanOf(ps, id) == exes
  {
    var q :| q in ps && q.id == id && PlanOf(ps, id) == q.assignedExercises;
    var k :| 0 <= k < |ps| && ps[k] == q;
  }

  /** Position `k` after a plan update: the same id, and the new plan when
      that id is the updated one. */
  lemma SetPlanAt(ps: seq<PatientInfo>, pid: string, exes: seq<Exercise>, k: int)
    requires 0 <= k < |ps|
    ensures var r := Session.SetPlan(ps, pid, exes);
      && r[k].id == ps[k].id
      && (ps[k].id == pid ==> r[k].assignedExercises == exes)
  {
  }

  class ExerciseManager {
    var patients: seq<PatientInfo>
    var selectedPatientId: string
    var assignedExercises: seq<Exercise>
    var saveSuccess: bool

    /** Mounting: the selection starts at the patient open in the session (or
        the empty id), and the selection effect loads that patient's plan. */
    constructor (patients: seq<PatientInfo>, initial: Option<PatientInfo>)
      ensures this.patients == patients
      ensures selectedPatientId == (if initial.Some? then initial.value.id else "")
      ensures assignedExercises == PlanOf(patients, selectedPatientId)
      ensures !saveSuccess
    {
      this.patients := patients;
      selectedPatientId := if initial.Some? then initial.value.id else "";
      assignedExercises := PlanOf(patients, if initial.Some? then initial.value.id else "");
      saveSuccess := false;
    }

    /** The patient selector. The effect runs only when the id changes, so
        re-selecting the same patient keeps the edited list. */
    method SelectPatient(id: string)
      modifies this`selectedPatientId, this`assignedExercises
      ensures selectedPatientId == id
      ensures assignedExercises == (if id != old(selectedPatientId) then PlanOf(patients, id) else old(assignedExercises))
    {
      if id != selectedPatientId {
        selectedPatientId := id;
        assignedExercises := PlanOf(patients, id);
      }
    }

    /** The session passes a new patient list (after any change to it); the
        effect reloads the selected patient's plan from it. */
    method ReceivePatients(ps: seq<PatientInfo>)
      modifies this`patients, this`assignedExercises
      ensures patients == ps && assignedExercises == PlanOf(ps, selectedPatientId)
    {
      patients := ps;
      assignedExercises := PlanOf(ps, selectedPatientId);
    }

    /** `toggleExercise`. */
    method ToggleExercise(ex: Exercise)
      modifies this`assignedExercises
      ensures assignedExercises == Toggle(old(assignedExercises), ex)
    {
      assignedExercises := Toggle(assignedExercises, ex);
    }

    /** `handleSavePlan`: nothing without a selected id; otherwise the pair
        handed to `onUpdatePlan`, and the confirmation flag is raised. */
    method SavePlan() returns (update: Option<(string, seq<Exercise>)>)
      modifies this`saveSuccess
      ensures selectedPatientId == "" ==> update == None && saveSuccess == old(saveSuccess)
      ensures selectedPatientId != "" ==> update == Some((selectedPatientId, assignedExercises)) && saveSuccess
    {
      if selectedPatientId == "" {
        update := None;
      } else {
        update := Some((selectedPatientId, assignedExercises));
        saveSuccess := true;
      }
    }

    /** The timer that lowers the confirmation flag. */
    method ClearSaveSuccess()
      modifies this`saveSuccess
      ensures !saveSuccess
    {
      saveSuccess := false;
    }
  }

  /** Saving the plan through the session and receiving the updated patient
      list leaves the editor showing the plan that was saved. */
  method SavePlanRoundTrip(app: Session.App, mgr: ExerciseManager, now: string)
    requires app.Valid() && mgr.patients == app.patients && mgr.selectedPatientId != ""
    requires exists p :: p in app.patients && p.id == mgr.selectedPatientId
    modifies app, app.store, mgr
    ensures app.Valid()
    ensures mgr.assignedExercises == old(mgr.assignedExercises)
    ensures mgr.patients == app.patients
  {
    var update := mgr.SavePlan();
    PlanOfSetPlan(app.patients, update.value.0, update.value.1);
    app.UpdatePlan(update.value.0, update.value.1, now);
    mgr.ReceivePatients(app.patients);
  }
}
