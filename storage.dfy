/** The browser's local storage as the application uses it: three fixed keys,
    each holding one JSON-encoded collection. JSON encoding is taken as the
    identity on the collections, so a stored value is the collection itself. */
module Storage {

  import opened Types

  const PatientsKey: string := "fisio_sevilla_patients"
  const AppointmentsKey: string := "fisio_sevilla_appointments"
  const UsersKey: string := "fisio_sevilla_auth_users"

  /** What a key holds once decoded. */
  datatype Document =
    | PatientList(patients: seq<PatientInfo>)
    | AppointmentList(appointments: seq<Appointment>)
    | UserList(users: seq<PhysioUser>)

  /** Each of the application's keys, when present, holds its own kind of
      collection. Other keys of the same origin are left unconstrained. */
  predicate WellTyped(m: map<string, Document>) {
    && (PatientsKey in m ==> m[PatientsKey].PatientList?)
    && (AppointmentsKey in m ==> m[AppointmentsKey].AppointmentList?)
    && (UsersKey in m ==> m[UsersKey].UserList?)
  }

  /** `localStorage.getItem(key)` followed by `JSON.parse`: `None` when the key
      was never written. */
  function StoredPatients(m: map<string, Document>): (r: Option<seq<PatientInfo>>)
    requires WellTyped(m)
    ensures r.None? <==> PatientsKey !in m
  {
    if PatientsKey in m then Some(m[PatientsKey].patients) else None
  }

  function StoredAppointments(m: map<string, Document>): (r: Option<seq<Appointment>>)
    requires WellTyped(m)
    ensures r.None? <==> AppointmentsKey !in m
  {
    if AppointmentsKey in m then Some(m[AppointmentsKey].appointments) else None
  }

  /** `JSON.parse(localStorage.getItem(key) || '[]')`: an absent key reads as
      the empty list. */
  function StoredUsers(m: map<string, Document>): (r: seq<PhysioUser>)
    requires WellTyped(m)
    ensures UsersKey !in m ==> r == []
  {
    if UsersKey in m then m[UsersKey].users else []
  }

  /** The two writes of a save: both collection keys overwritten, every other
      key untouched. Reading back gives what was written. */
  function WriteCollections(m: map<string, Document>, ps: seq<PatientInfo>, appts: seq<Appointment>)
    : (r: map<string, Document>)
    requires WellTyped(m)
    ensures WellTyped(r)
    ensures StoredPatients(r) == Some(ps) && StoredAppointments(r) == Some(appts)
    ensures UsersKey in r <==> UsersKey in m
    ensures StoredUsers(r) == StoredUsers(m)
    ensures forall k :: k != PatientsKey && k != AppointmentsKey ==> (k in r <==> k in m)
    ensures forall k :: k in m && k != PatientsKey && k != AppointmentsKey ==> r[k] == m[k]
  {
    m[PatientsKey := PatientList(ps)][AppointmentsKey := AppointmentList(appts)]
  }

  /** The store shared by the session and the clinician login screen. */
  class LocalStore {
    var entries: map<string, Document>

    predicate Valid()
      reads this
    {
      WellTyped(entries)
    }

    constructor (initial: map<string, Document>)
      requires WellTyped(initial)
      ensures Valid() && entries == initial
    {
      entries := initial;
    }

    /** `localStorage.setItem` of both collection keys. */
    method SaveCollections(ps: seq<PatientInfo>, appts: seq<Appointment>)
      requires Valid()
      modifies this
      ensures Valid()
      ensures entries == WriteCollections(old(entries), ps, appts)
    {
      entries := WriteCollections(entries, ps, appts);
    }

    /** `localStorage.setItem('fisio_sevilla_auth_users', ...)`. */
    method SaveUsers(users: seq<PhysioUser>)
      requires Valid()
      modifies this
      ensures Valid()
      ensures entries == old(entries)[UsersKey := UserList(users)]
      ensures StoredUsers(entries) == users
    {
      entries := entries[UsersKey := UserList(users)];
    }
  }
}
