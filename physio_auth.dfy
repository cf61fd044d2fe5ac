/** The clinician login screen (components/PhysioAuth.tsx): register, log in,
    and a two-step password reset, over the list of accounts kept under the
    `fisio_sevilla_auth_users` key of the local store. */
module Auth {

  import opened Types
  import opened Seqs
  import opened Text
  import opened Storage

  datatype Mode = LoginMode | RegisterMode | ForgotMode

  /** `resetStep`: 1 asks for the professional id, 2 for the answer and the
      new password. */
  datatype ResetStep = StepOne | StepTwo

  /** The message the screen shows, one per failing branch. */
  datatype AuthError =
    | MissingFields       // 'Por favor, rellena todos los campos obligatorios.'
    | AlreadyRegistered   // 'Este número de colegiado/DNI ya está registrado.'
    | BadCredentials      // 'Número de colegiado o contraseña incorrectos.'
    | NoSuchQuestion      // no account with that id, or it has no question
    | EmptyNewPassword    // 'Por favor, introduce una nueva contraseña.'
    | WrongAnswer         // 'La respuesta a la pregunta de seguridad es incorrecta.'

  datatype AuthForm = AuthForm(
    name: string,
    professionalId: string,
    specialty: string,
    password: string,
    securityQuestion: string,
    securityAnswer: string,
    newPassword: string)

  const SecurityQuestions: seq<string> := [
    "¿Cuál es el nombre de tu primera mascota?",
    "¿En qué ciudad naciste?",
    "¿Cuál es el nombre de tu escuela primaria?",
    "¿Cuál es tu color favorito de la infancia?",
    "¿Cómo se llama tu modelo de coche favorito?"
  ]

  const InitialForm: AuthForm :=
    AuthForm("", "", "Fisioterapia Basada en la Evidencia", "", SecurityQuestions[0], "", "")

  // ---------------------------------------------------------------------------
  // Security answers
  // ---------------------------------------------------------------------------

  /** `s.toLowerCase().trim()`: how answers are stored and compared. */
  function Normalize(s: string): (r: string)
    ensures forall i :: 0 <= i < |r| ==> !IsUpperLetter(r[i])
    ensures r == [] || (!IsWhitespace(r[0]) && !IsWhitespace(r[|r| - 1]))
  {
    LowerTrimmed(s);
    Trim(ToLower(s))
  }

  lemma LowerTrimmed(s: string)
    ensures var r := Trim(ToLower(s)); forall i :: 0 <= i < |r| ==> !IsUpperLetter(r[i])
  {
    var t := ToLower(s);
    assert forall k :: 0 <= k < |t| ==> !IsUpperLetter(t[k]);
    TrimKeepsNoUpper(t);
  }

  lemma TrimKeepsNoUpper(t: string)
    requires forall k :: 0 <= k < |t| ==> !IsUpperLetter(t[k])
    ensures var r := Trim(t); forall i :: 0 <= i < |r| ==> !IsUpperLetter(r[i])
  {
    var r := Trim(t);
    forall i | 0 <= i < |r| ensures !IsUpperLetter(r[i]) {
      TrimIndex(t, i);
    }
  }

  /** An answer with no capital letter and no surrounding white space is
      stored exactly as typed. */
  lemma NormalizeKeepsNormalText(s: string)
    requires forall i :: 0 <= i < |s| ==> !IsUpperLetter(s[i])
    requires s == [] || (!IsWhitespace(s[0]) && !IsWhitespace(s[|s| - 1]))
    ensures Normalize(s) == s
  {
    assert ToLower(s) == s;
    assert TrimStart(s) == s;
  }

  /** A stored answer normalises to itself. */
  lemma NormalizeIdempotent(s: string)
    ensures Normalize(Normalize(s)) == Normalize(s)
  {
    var r := Normalize(s);
    assert ToLower(r) == r;
    TrimIdempotent(ToLower(s));
  }

  lemma {:induction false} LowerOfWhitespace(w: string)
    requires AllWhitespace(w)
    ensures ToLower(w) == w
  {
  }

  /** The check ignores letter case and white space around the answer. */
  lemma NormalizeIgnoresCaseAndPadding(w1: string, s: string, w2: string)
    requires AllWhitespace(w1) && AllWhitespace(w2)
    ensures Normalize(w1 + ToUpper(s) + w2) == Normalize(s)
  {
    assert ToLower(ToUpper(s)) == ToLower(s);
    assert ToLower(w1 + ToUpper(s) + w2) == ToLower(w1) + ToLower(ToUpper(s)) + ToLower(w2);
    LowerOfWhitespace(w1);
    LowerOfWhitespace(w2);
    TrimIgnoresPadding(w1, ToLower(s), w2);
  }

  // ---------------------------------------------------------------------------
  // The account list
  // ---------------------------------------------------------------------------

  predicate HasProfessionalId(users: seq<PhysioUser>, pid: string) {
    exists u :: u in users && u.professionalId == pid
  }

  /** No two accounts share a professional id. */
  predicate UniqueProfessionalIds(users: seq<PhysioUser>) {
    forall i, j :: 0 <= i < j < |users| ==> users[i].professionalId != users[j].professionalId
  }

  /** `savedPhysios.find(u => u.professionalId === pid)` */
  function FindByProfessionalId(users: seq<PhysioUser>, pid: string): (r: Option<PhysioUser>)
    ensures r.None? <==> !HasProfessionalId(users, pid)
    ensures r.Some? ==> r.value in users && r.value.professionalId == pid
    ensures r.Some? ==> exists i :: (0 <= i < |users| && users[i] == r.value &&
                                     forall j :: 0 <= j < i ==> users[j].professionalId != pid)
  {
    var keep := (u: PhysioUser) => u.professionalId == pid;
    var r := Find(users, keep);
    if r.Some? then
      var i :| FirstAt(users, keep, i) && users[i] == r.value;
      r
    else r
  }

  /** The login lookup: an account with that id whose stored password equals
      the typed one (an account without a password never matches). */
  function FindByCredentials(users: seq<PhysioUser>, pid: string, pw: string): (r: Option<PhysioUser>)
    ensures r.Some? <==> exists u :: u in users && u.professionalId == pid && u.password == Some(pw)
    ensures r.Some? ==> r.value in users && r.value.professionalId == pid && r.value.password == Some(pw)
    ensures r.Some? ==> exists i :: (0 <= i < |users| && users[i] == r.value &&
                                     forall j :: 0 <= j < i ==> !(users[j].professionalId == pid && users[j].password == Some(pw)))
  {
    var keep := (u: PhysioUser) => u.professionalId == pid && u.password == Some(pw);
    var r := Find(users, keep);
    if r.Some? then
      var i :| FirstAt(users, keep, i) && users[i] == r.value;
      r
    else r
  }

  /** The four fields the register branch requires to be non-empty. */
  predicate Filled(f: AuthForm) {
    f.name != "" && f.professionalId != "" && f.password != "" && f.securityAnswer != ""
  }

  /** The register branch on the stored list; `id` is the timestamp id. On
      success the new account is appended at the end. */
  function Register(users: seq<PhysioUser>, f: AuthForm, id: string): (r: Result<seq<PhysioUser>, AuthError>)
    ensures !Filled(f) ==> r == Err(MissingFields)
    ensures Filled(f) && HasProfessionalId(users, f.professionalId) ==> r == Err(AlreadyRegistered)
    ensures r.Ok? <==> Filled(f) && !HasProfessionalId(users, f.professionalId)
    ensures r.Ok? ==> |r.value| == |users| + 1 && r.value[..|users|] == users
    ensures r.Ok? ==> r.value[|users|] == PhysioUser(id, f.name, f.professionalId, f.specialty,
      Some(f.password), Some(f.securityQuestion), Some(Normalize(f.securityAnswer)))
  {
    if !Filled(f) then Err(MissingFields)
    else if FindByProfessionalId(users, f.professionalId).Some? then Err(AlreadyRegistered)
    else
      var u := PhysioUser(id, f.name, f.professionalId, f.specialty,
                          Some(f.password), Some(f.securityQuestion), Some(Normalize(f.securityAnswer)));
      assert (users + [u])[..|users|] == users;
      Ok(users + [u])
  }

  /** Registration keeps professional ids unique. */
  lemma RegisterKeepsUnique(users: seq<PhysioUser>, f: AuthForm, id: string)
    requires UniqueProfessionalIds(users)
    requires Register(users, f, id).Ok?
    ensures UniqueProfessionalIds(Register(users, f, id).value)
  {
    var r := Register(users, f, id).value;
    forall i, j | 0 <= i < j < |r| ensures r[i].professionalId != r[j].professionalId {
      assert r[i] == users[i];
      if j < |users| {
        assert r[j] == users[j];
      } else {
        assert users[i] in users;
      }
    }
  }

  /** The account just registered can log in with the id and password it
      registered with. */
  lemma LoginAfterRegister(users: seq<PhysioUser>, f: AuthForm, id: string)
    requires Register(users, f, id).Ok?
    ensures var r := Register(users, f, id).value;
      FindByCredentials(r, f.professionalId, f.password) == Some(r[|users|])
  {
    var r := Register(users, f, id).value;
    forall j | 0 <= j < |r| && j != |users|
      ensures !(r[j].professionalId == f.professionalId && r[j].password == Some(f.password))
    {
      assert r[j] == users[j] && users[j] in users;
    }
    FindOnly(r, (u: PhysioUser) => u.professionalId == f.professionalId && u.password == Some(f.password), |users|);
  }

  /** `savedPhysios.map(u => u.professionalId === pid ? {...u, password: pw} : u)` */
  function ResetPassword(users: seq<PhysioUser>, pid: string, pw: string): (r: seq<PhysioUser>)
    ensures |r| == |users|
    ensures forall i :: 0 <= i < |users| ==>
      r[i] == (if users[i].professionalId == pid then users[i].(password := Some(pw)) else users[i])
  {
    if users == [] then []
    else [if users[0].professionalId == pid then users[0].(password := Some(pw)) else users[0]]
         + ResetPassword(users[1..], pid, pw)
  }

  /** With unique ids, a reset changes the password of exactly one account
      and nothing else, and ids stay unique. */
  lemma ResetChangesExactlyOne(users: seq<PhysioUser>, pid: string, pw: string, i: int)
    requires UniqueProfessionalIds(users)
    requires 0 <= i < |users| && users[i].professionalId == pid
    ensures var r := ResetPassword(users, pid, pw);
      && r[i] == users[i].(password := Some(pw))
      && (forall j :: 0 <= j < |users| && j != i ==> r[j] == users[j])
      && UniqueProfessionalIds(r)
  {
    var r := ResetPassword(users, pid, pw);
    forall j | 0 <= j < |users| && j != i ensures r[j] == users[j] {
      if j < i {
        assert users[j].professionalId != users[i].professionalId;
      } else {
        assert users[i].professionalId != users[j].professionalId;
      }
    }
  }

  /** After a reset the account logs in with the new password, and with no
      other password. */
  lemma LoginAfterReset(users: seq<PhysioUser>, pid: string, pw: string, i: int, other: string)
    requires UniqueProfessionalIds(users)
    requires 0 <= i < |users| && users[i].professionalId == pid
    requires other != pw
    ensures var r := ResetPassword(users, pid, pw);
      FindByCredentials(r, pid, pw) == Some(r[i]) && FindByCredentials(r, pid, other).None?
  {
    var r := ResetPassword(users, pid, pw);
    ResetOnlyMatch(users, pid, pw, i);
    FindOnly(r, (u: PhysioUser) => u.professionalId == pid && u.password == Some(pw), i);
    OnlyPasswordAt(r, pid, pw, i, other);
  }

  /** When position `i` is the only account with the id and holds `pw`, no
      other password logs in with that id. */
  lemma OnlyPasswordAt(r: seq<PhysioUser>, pid: string, pw: string, i: int, other: string)
    requires 0 <= i < |r| && r[i].password == Some(pw) && other != pw
    requires forall j :: 0 <= j < |r| && j != i ==> r[j].professionalId != pid
    ensures FindByCredentials(r, pid, other).None?
  {
    forall u | u in r && u.professionalId == pid ensures u.password != Some(other) {
      var j :| 0 <= j < |r| && r[j] == u;
    }
  }

  /** After a reset with unique ids, position `i` is the only account with
      that id, and it holds the new password. */
  lemma ResetOnlyMatch(users: seq<PhysioUser>, pid: string, pw: string, i: int)
    requires UniqueProfessionalIds(users)
    requires 0 <= i < |users| && users[i].professionalId == pid
    ensures var r := ResetPassword(users, pid, pw);
      && r[i].professionalId == pid && r[i].password == Some(pw)
      && forall j :: 0 <= j < |r| && j != i ==> r[j].professionalId != pid
  {
    var r := ResetPassword(users, pid, pw);
    forall j | 0 <= j < |r| && j != i ensures r[j].professionalId != pid {
      if j < i {
        assert users[j].professionalId != users[i].professionalId;
      } else {
        assert users[i].professionalId != users[j].professionalId;
      }
    }
  }

  /** Step one goes on only for an account with a (non-empty) question. */
  predicate CanReset(u: PhysioUser) {
    u.securityQuestion.Some? && u.securityQuestion.value != ""
  }

  /** `answer.toLowerCase().trim() === resetUser?.securityAnswer` */
  predicate AnswerMatches(resetUser: Option<PhysioUser>, answer: string) {
    resetUser.Some? && resetUser.value.securityAnswer == Some(Normalize(answer))
  }

  /** An answer registered through the form passes the reset check whatever
      its case and padding when typed again. */
  lemma RegisteredAnswerAccepted(users: seq<PhysioUser>, f: AuthForm, id: string,
                                 w1: string, w2: string)
    requires Register(users, f, id).Ok?
    requires AllWhitespace(w1) && AllWhitespace(w2)
    ensures AnswerMatches(Some(Register(users, f, id).value[|users|]), w1 + ToUpper(f.securityAnswer) + w2)
  {
    NormalizeIgnoresCaseAndPadding(w1, f.securityAnswer, w2);
  }

  // ---------------------------------------------------------------------------
  // The screen
  // ---------------------------------------------------------------------------

  class PhysioAuth {
    var mode: Mode
    var resetStep: ResetStep
    var resetUser: Option<PhysioUser>
    var error: Option<AuthError>
    var success: bool
    var form: AuthForm
    const store: LocalStore

    /** Step two is only reached from forgot mode, with the account found in
        step one; every way out of forgot mode goes back to step one. */
    predicate Valid()
      reads this, store
    {
      && store.Valid()
      && (resetStep == StepTwo ==> mode == ForgotMode && resetUser.Some?)
    }

    constructor (store: LocalStore)
      requires store.Valid()
      ensures Valid() && this.store == store
      ensures mode == LoginMode && resetStep == StepOne && resetUser == None
      ensures error == None && !success && form == InitialForm
    {
      this.store := store;
      mode := LoginMode;
      resetStep := StepOne;
      resetUser := None;
      error := None;
      success := false;
      form := InitialForm;
    }

    /** The inputs' `onChange` handlers. */
    method Edit(f: AuthForm)
      modifies this`form
      ensures form == f
    {
      form := f;
    }

    /** `handleAuth`: one submission of the form in the current mode. It
        clears both messages, reads the stored accounts, and returns the
        account passed to `onLogin`, if any. The mode never changes here. */
    method HandleAuth(id: string) returns (loggedIn: Option<PhysioUser>)
      requires Valid()
      modifies this`resetStep, this`resetUser, this`error, this`success, store
      ensures Valid() && mode == old(mode) && form == old(form)
      ensures old(mode) == RegisterMode ==>
        var r := Register(StoredUsers(old(store.entries)), form, id);
        && resetStep == old(resetStep) && resetUser == old(resetUser) && !success
        && (r.Ok? ==> && store.entries == old(store.entries)[UsersKey := UserList(r.value)]
                      && loggedIn == Some(r.value[|r.value| - 1]) && error == None)
        && (r.Err? ==> store.entries == old(store.entries) && loggedIn == None && error == Some(r.error))
      ensures old(mode) == LoginMode ==>
        && loggedIn == FindByCredentials(StoredUsers(old(store.entries)), form.professionalId, form.password)
        && error == (if loggedIn.None? then Some(BadCredentials) else None)
        && store.entries == old(store.entries)
        && resetStep == old(resetStep) && resetUser == old(resetUser) && !success
      ensures old(mode) == ForgotMode && old(resetStep) == StepOne ==>
        var u := FindByProfessionalId(StoredUsers(old(store.entries)), form.professionalId);
        && loggedIn == None && store.entries == old(store.entries) && !success
        && (u.Some? && CanReset(u.value) ==> resetUser == u && resetStep == StepTwo && error == None)
        && (!(u.Some? && CanReset(u.value)) ==>
              resetUser == old(resetUser) && resetStep == StepOne && error == Some(NoSuchQuestion))
      ensures old(mode) == ForgotMode && old(resetStep) == StepTwo ==>
        && loggedIn == None && resetStep == StepTwo && resetUser == old(resetUser)
        && (!AnswerMatches(resetUser, form.securityAnswer) ==>
              error == Some(WrongAnswer) && !success && store.entries == old(store.entries))
        && (AnswerMatches(resetUser, form.securityAnswer) && form.newPassword == "" ==>
              error == Some(EmptyNewPassword) && !success && store.entries == old(store.entries))
        && (AnswerMatches(resetUser, form.securityAnswer) && form.newPassword != "" ==>
              && error == None && success
              && store.entries == old(store.entries)[UsersKey := UserList(
                   ResetPassword(StoredUsers(old(store.entries)), resetUser.value.professionalId, form.newPassword))])
    {
      error := None;
      success := false;
      var users := StoredUsers(store.entries);
      if mode == RegisterMode {
        loggedIn := SubmitRegister(users, id);
      } else if mode == LoginMode {
        loggedIn := FindByCredentials(users, form.professionalId, form.password);
        if loggedIn.None? {
          error := Some(BadCredentials);
        }
      } else if resetStep == StepOne {
        loggedIn := None;
        LookUpForReset(users);
      } else {
        loggedIn := None;
        SubmitReset(users);
      }
    }

    /** The register branch. */
    method SubmitRegister(users: seq<PhysioUser>, id: string) returns (loggedIn: Option<PhysioUser>)
      requires Valid() && users == StoredUsers(store.entries) && error == None
      modifies this`error, store
      ensures Valid()
      ensures var r := Register(users, form, id);
        && (r.Ok? ==> && store.entries == old(store.entries)[UsersKey := UserList(r.value)]
                      && loggedIn == Some(r.value[|r.value| - 1]) && error == None)
        && (r.Err? ==> store.entries == old(store.entries) && loggedIn == None && error == Some(r.error))
    {
      var r := Register(users, form, id);
      if r.Ok? {
        store.SaveUsers(r.value);
        loggedIn := Some(r.value[|r.value| - 1]);
      } else {
        loggedIn := None;
        error := Some(r.error);
      }
    }

    /** Forgot mode, step one: find the account and check it has a question. */
    method LookUpForReset(users: seq<PhysioUser>)
      requires Valid() && mode == ForgotMode && resetStep == StepOne && error == None
      modifies this`resetStep, this`resetUser, this`error
      ensures Valid()
      ensures var u := FindByProfessionalId(users, form.professionalId);
        && (u.Some? && CanReset(u.value) ==> resetUser == u && resetStep == StepTwo && error == None)
        && (!(u.Some? && CanReset(u.value)) ==>
              resetUser == old(resetUser) && resetStep == StepOne && error == Some(NoSuchQuestion))
    {
      var u := FindByProfessionalId(users, form.professionalId);
      if u.Some? && CanReset(u.value) {
        resetUser := u;
        resetStep := StepTwo;
      } else {
        error := Some(NoSuchQuestion);
      }
    }

    /** Forgot mode, step two: check the answer, then write the new password
        to every stored account with the id found in step one. */
    method SubmitReset(users: seq<PhysioUser>)
      requires Valid() && users == StoredUsers(store.entries) && error == None && !success
      modifies this`error, this`success, store
      ensures Valid()
      ensures !AnswerMatches(resetUser, form.securityAnswer) ==>
        error == Some(WrongAnswer) && !success && store.entries == old(store.entries)
      ensures AnswerMatches(resetUser, form.securityAnswer) && form.newPassword == "" ==>
        error == Some(EmptyNewPassword) && !success && store.entries == old(store.entries)
      ensures AnswerMatches(resetUser, form.securityAnswer) && form.newPassword != "" ==>
        && error == None && success
        && store.entries == old(store.entries)[UsersKey := UserList(
             ResetPassword(users, resetUser.value.professionalId, form.newPassword))]
    {
      if AnswerMatches(resetUser, form.securityAnswer) {
        if form.newPassword == "" {
          error := Some(EmptyNewPassword);
        } else {
          store.SaveUsers(ResetPassword(users, resetUser.value.professionalId, form.newPassword));
          success := true;
        }
      } else {
        error := Some(WrongAnswer);
      }
    }

    /** '¿Olvidaste tu contraseña?', shown in login mode. */
    method GoToForgot()
      requires Valid() && mode == LoginMode
      modifies this`mode
      ensures Valid() && mode == ForgotMode && resetStep == StepOne
    {
      mode := ForgotMode;
    }

    /** 'Volver', shown in forgot mode. */
    method BackToLogin()
      requires Valid() && mode == ForgotMode
      modifies this`mode, this`resetStep
      ensures Valid() && mode == LoginMode && resetStep == StepOne
    {
      mode := LoginMode;
      resetStep := StepOne;
    }

    /** The register/login switch, shown outside forgot mode. */
    method ToggleRegister()
      requires Valid() && mode != ForgotMode
      modifies this`mode
      ensures Valid()
      ensures mode == (if old(mode) == LoginMode then RegisterMode else LoginMode)
    {
      mode := if mode == LoginMode then RegisterMode else LoginMode;
    }

    /** The timer callback a successful reset schedules: back to login and
        step one. The closure captured the form as it was at submission
        (`captured`), so the form becomes that one with the secret fields
        cleared, discarding any edit made while the timer ran. */
    method AfterResetDelay(captured: AuthForm)
      requires Valid()
      modifies this`mode, this`resetStep, this`resetUser, this`form
      ensures Valid()
      ensures mode == LoginMode && resetStep == StepOne && resetUser == None
      ensures form == captured.(password := "", newPassword := "", securityAnswer := "")
    {
      mode := LoginMode;
      resetStep := StepOne;
      resetUser := None;
      form := captured.(password := "", newPassword := "", securityAnswer := "");
    }
  }

  /** The invariant the screen's transitions keep: professional ids stay
      unique in the store through any submission. */
  method SubmissionKeepsUnique(auth: PhysioAuth, id: string) returns (loggedIn: Option<PhysioUser>)
    requires auth.Valid() && UniqueProfessionalIds(StoredUsers(auth.store.entries))
    modifies auth, auth.store
    ensures auth.Valid() && UniqueProfessionalIds(StoredUsers(auth.store.entries))
  {
    var users := StoredUsers(auth.store.entries);
    if auth.mode == RegisterMode && Register(users, auth.form, id).Ok? {
      RegisterKeepsUnique(users, auth.form, id);
    }
    if auth.mode == ForgotMode && auth.resetStep == StepTwo && auth.resetUser.Some? {
      var pid := auth.resetUser.value.professionalId;
      var pw := auth.form.newPassword;
      var r := ResetPassword(users, pid, pw);
      forall i, j | 0 <= i < j < |r| ensures r[i].professionalId != r[j].professionalId {
        assert users[i].professionalId != users[j].professionalId;
      }
    }
    loggedIn := auth.HandleAuth(id);
  }
}
