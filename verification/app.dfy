/** The account, session and ledger logic of the `App` component, taken out
    of React: one immutable state, one function per handler, and the
    component's effects applied synchronously after every transition. */
module App {

  import opened Wrappers
  import opened Text
  import opened Types
  import Accounts
  import Ledger
  import opened Scope

  /** The component's state that the core reads or writes, with the store it
      persists to. `session` is `currentUserEmail`; `calcData` is the pending
      calculation a save would record. */
  datatype AppState = AppState(
    users: seq<Accounts.RegisteredUser>,
    session: Option<string>,
    records: seq<TaxRecord>,
    profile: UserProfile,
    calcData: Option<CalcData>,
    store: Store)

  /** What a handler reports: done, or refused with the error its toast shows. */
  datatype Outcome = Done | Refused(error: Accounts.AccountError)

  datatype Reply = Reply(state: AppState, outcome: Outcome)

  /** The effects' truthiness test on the session: it is in effect only when
      it is a non-empty string, the empty string being falsy in JavaScript. */
  function ActiveUser(session: Option<string>): Option<string> {
    if session.Some? && session.value != "" then session else None
  }

  /** The keys a step may write: the directory, the remembered session, and the
      two keys of the account active after the step. */
  function Touched(session: Option<string>): set<string> {
    {UsersKey, SessionKey} +
    (match ActiveUser(session)
     case Some(e) => AccountKeys(e)
     case None => {})
  }

  /** The scope-switching effect (lines 54-68): with an active session the
      records and profile are read from that account's keys and the lowercased
      identifier is remembered; otherwise both reset and the remembered session is
      removed. */
  function SwitchScope(s: AppState): (t: AppState)
    ensures t.users == s.users && t.session == s.session && t.calcData == s.calcData
  {
    match ActiveUser(s.session)
    case Some(e) =>
      s.(records := StoredRecords(s.store, e),
         profile := StoredProfile(s.store, s.users, e),
         store := s.store[SessionKey := SessionValue(ToLower(e))])
    case None =>
      s.(records := [], profile := InitialProfile, store := s.store - {SessionKey})
  }

  /** The write-back effects (lines 70-84): records and profile go under the
      active account's keys, only while a session is in effect; the directory
      is written whenever it changed. */
  function Persist(s: AppState, writeRecords: bool, writeProfile: bool, writeUsers: bool)
    : (t: AppState)
    ensures t.(store := s.store) == s
  {
    var withRecords :=
      match ActiveUser(s.session)
      case Some(e) => if writeRecords then s.store[RecordsKey(e) := RecordsValue(s.records)] else s.store
      case None => s.store;
    var withProfile :=
      match ActiveUser(s.session)
      case Some(e) => if writeProfile then withRecords[ProfileKey(e) := ProfileValue(s.profile)] else withRecords
      case None => withRecords;
    var withUsers := if writeUsers then withProfile[UsersKey := UsersValue(s.users)] else withProfile;
    s.(store := withUsers)
  }

  /** An empty session is falsy: the effects treat it exactly as no session,
      resetting the records and profile, removing the remembered session and
      writing nothing under any account's keys. */
  lemma EmptySessionActsLoggedOut(s: AppState, writeRecords: bool, writeProfile: bool,
                                  writeUsers: bool)
    ensures SwitchScope(s.(session := Some(""))) == SwitchScope(s.(session := None)).(session := Some(""))
    ensures Persist(s.(session := Some("")), writeRecords, writeProfile, writeUsers).store
            == Persist(s.(session := None), writeRecords, writeProfile, writeUsers).store
  {
  }

  /** Runs the effects whose dependencies changed: the scope switch depends on
      the session and the directory, the record and profile write-backs on
      their value and the session, the directory write-back on the directory.
      A scope switch always gives new record and profile values, so both are
      written back after it. */
  function Effects(s: AppState, scopeChanged: bool, recordsChanged: bool,
                   profileChanged: bool, usersChanged: bool): (t: AppState)
    ensures t.users == s.users && t.session == s.session && t.calcData == s.calcData
    ensures !scopeChanged ==> t.records == s.records && t.profile == s.profile
    ensures !scopeChanged && !recordsChanged && !profileChanged && !usersChanged ==> t == s
  {
    var t := if scopeChanged then SwitchScope(s) else s;
    Persist(t, scopeChanged || recordsChanged, scopeChanged || profileChanged, usersChanged)
  }

  /** The effects React runs once a handler's state updates are committed. */
  function AfterStep(prev: AppState, next: AppState): (t: AppState)
    ensures t.users == next.users && t.session == next.session && t.calcData == next.calcData
    ensures next == prev ==> t == prev
  {
    Effects(next,
            next.session != prev.session || next.users != prev.users,
            next.records != prev.records,
            next.profile != prev.profile,
            next.users != prev.users)
  }

  /** Mounting the component: the directory and the remembered session are read
      from the store, then every effect runs once. */
  function Start(store: Store): (r: AppState)
    ensures r.users == StoredUsers(store) && r.session == StoredSession(store) && r.calcData == None
    ensures match ActiveUser(r.session)
            case Some(e) => r.records == StoredRecords(store, e)
                            && r.profile == StoredProfile(store, r.users, e)
            case None => r.records == [] && r.profile == InitialProfile
  {
    var init := AppState(StoredUsers(store), StoredSession(store), [], InitialProfile, None, store);
    Effects(init, true, true, true, true)
  }

  /** The store mirrors the state: the directory is stored, and while a
      session is in effect the session key holds its identifier and its records
      and profile are stored under its keys; without one, no session is remembered. */
  predicate Consistent(s: AppState) {
    && Stored(s.store, UsersKey, UsersValue(s.users))
    && match ActiveUser(s.session)
       case Some(e) =>
         && Stored(s.store, SessionKey, SessionValue(ToLower(e)))
         && Stored(s.store, RecordsKey(e), RecordsValue(s.records))
         && Stored(s.store, ProfileKey(e), ProfileValue(s.profile))
       case None => SessionKey !in s.store
  }

  /** The effects write nothing outside the directory key, the
      remembered session and the keys of the account in effect. */
  lemma EffectsTouchOnlyActive(s: AppState, scopeChanged: bool, recordsChanged: bool,
                               profileChanged: bool, usersChanged: bool)
    ensures AgreeExcept(s.store,
                        Effects(s, scopeChanged, recordsChanged, profileChanged, usersChanged).store,
                        Touched(s.session))
  {
    var t := Effects(s, scopeChanged, recordsChanged, profileChanged, usersChanged);
    forall k | k !in Touched(s.session)
      ensures SameEntry(s.store, t.store, k)
    {
    }
  }

  /** After any committed update that leaves the store alone, the effects
      bring the store back in line with the state. */
  lemma AfterStepConsistent(prev: AppState, next: AppState)
    requires Consistent(prev)
    requires next.store == prev.store
    ensures Consistent(AfterStep(prev, next))
  {
    var t := AfterStep(prev, next);
    match ActiveUser(next.session)
    case Some(e) =>
      KeyKindsDistinct(e, e);
    case None =>
  }

  /** A user action that reaches the core. */
  datatype Action =
    | Register(data: Accounts.RegisteredUser)
    | Login(email: string, password: Option<string>)
    | Logout
    | Calculate(calcData: CalcData)
    | SaveResult(finalTaxAmount: real, id: string, date: string)
    | Delete(id: string)
    | Toggle(id: string)
    | UpdateProfile(profile: UserProfile)

  /** The state updates an action's handler commits through its state setters,
      before any effect runs, or the refusal it reports instead. The store is
      left to the effects. */
  function Commit(s: AppState, a: Action): (r: Result<AppState, Accounts.AccountError>)
    ensures r.Success? ==> r.value.store == s.store
  {
    match a
    case Register(data) =>
      (match Accounts.Register(s.users, data)
       case Failure(e) => Failure(e)
       case Success((added, key)) => Success(s.(users := added, session := Some(key))))
    case Login(email, password) =>
      (match Accounts.Login(s.users, email, password)
       case Failure(e) => Failure(e)
       case Success(key) => Success(s.(session := Some(key))))
    case Logout => Success(s.(session := None))
    case Calculate(data) => Success(s.(calcData := Some(data)))
    case SaveResult(amount, id, date) =>
      Success(s.(records := Ledger.SaveResult(s.records, s.calcData, amount, id, date)))
    case Delete(id) => Success(s.(records := Ledger.Delete(s.records, id)))
    case Toggle(id) => Success(s.(records := Ledger.Toggle(s.records, id)))
    case UpdateProfile(p) => Success(s.(profile := p))
  }

  /** Handles one action: a refusal changes nothing, committed updates are
      followed by the effects. */
  function Dispatch(s: AppState, a: Action): (r: Reply)
    ensures r.outcome.Refused? <==> Commit(s, a).Failure?
    ensures r.outcome.Refused? ==> r.state == s && r.outcome.error == Commit(s, a).error
    ensures r.outcome == Done ==>
              && r.state.users == Commit(s, a).value.users
              && r.state.session == Commit(s, a).value.session
              && r.state.calcData == Commit(s, a).value.calcData
  {
    match Commit(s, a)
    case Failure(e) => Reply(s, Refused(e))
    case Success(next) => Reply(AfterStep(s, next), Done)
  }

  /** The state after one action, whether it was refused or done. */
  function Step(s: AppState, a: Action): (t: AppState)
    ensures Commit(s, a).Failure? ==> t == s
  {
    Dispatch(s, a).state
  }

  /** The state after the actions, in order. */
  function Run(s: AppState, actions: seq<Action>): AppState
    decreases |actions|
  {
    if |actions| == 0 then s else Run(Step(s, actions[0]), actions[1..])
  }

  /** A handler that only replaces the records: the effects keep the new
      list and store it under the active account's key when it changed. */
  lemma RecordsUpdate(s: AppState, records: seq<TaxRecord>)
    ensures var t := AfterStep(s, s.(records := records));
            && t.records == records && t.users == s.users && t.session == s.session
            && t.profile == s.profile && t.calcData == s.calcData
            && (ActiveUser(s.session).Some? && records != s.records ==>
                  Stored(t.store, RecordsKey(s.session.value), RecordsValue(records)))
  {
  }

  /** A commit that changes nothing runs no effect. */
  lemma QuietStep(s: AppState)
    ensures AfterStep(s, s) == s
  {
  }

  /** A commit that changes the session or the directory, leaving a
      session in effect, loads that account's stored records and profile,
      remembers its lowercased identifier and, if the directory changed,
      stores it. */
  lemma ScopeSwitchLoads(prev: AppState, next: AppState, key: string)
    requires next.store == prev.store
    requires next.session == Some(key) && key != ""
    requires next.session != prev.session || next.users != prev.users
    ensures var t := AfterStep(prev, next);
            && t.records == StoredRecords(prev.store, key)
            && t.profile == StoredProfile(prev.store, next.users, key)
            && Stored(t.store, SessionKey, SessionValue(ToLower(key)))
            && (next.users != prev.users ==> Stored(t.store, UsersKey, UsersValue(next.users)))
  {
    KeyKindsDistinct(key, key);
  }

  /** `handleRegister` (lines 125-143): a refused registration changes
      nothing; an accepted one appends the user with the normalised
      identifier, makes that identifier the session and persists the
      directory. */
  function HandleRegister(s: AppState, data: Accounts.RegisteredUser): (r: Reply)
    ensures r.outcome == Refused(Accounts.DuplicateAccount) <==>
              exists i :: 0 <= i < |s.users| &&
                          Accounts.Matches(s.users[i], Normalize(data.emailOrPhone))
    ensures r.outcome.Refused? ==> r.state == s && r.outcome.error == Accounts.DuplicateAccount
    ensures r.outcome == Done ==>
              && r.state.users == s.users + [data.(emailOrPhone := Normalize(data.emailOrPhone))]
              && r.state.session == Some(Normalize(data.emailOrPhone))
              && Stored(r.state.store, UsersKey, UsersValue(r.state.users))
              && r.state.calcData == s.calcData
    ensures r.outcome == Done && Normalize(data.emailOrPhone) != "" ==>
              && r.state.records == StoredRecords(s.store, Normalize(data.emailOrPhone))
              && r.state.profile == StoredProfile(s.store, r.state.users, Normalize(data.emailOrPhone))
              && Stored(r.state.store, SessionKey, SessionValue(Normalize(data.emailOrPhone)))
    ensures r == Dispatch(s, Register(data))
  {
    match Accounts.Register(s.users, data)
    case Failure(e) =>
      assert Commit(s, Register(data)) == Failure(e);
      Reply(s, Refused(e))
    case Success((added, key)) =>
      var next := s.(users := added, session := Some(key));
      assert Commit(s, Register(data)) == Success(next);
      if key != "" then
        assert next.users != s.users by { assert |added| == |s.users| + 1; }
        ScopeSwitchLoads(s, next, key);
        NormalizeIsLowerAndTrimmed(data.emailOrPhone);
        Reply(AfterStep(s, next), Done)
      else
        Reply(AfterStep(s, next), Done)
  }

  /** `handleLogin` (lines 106-123): an unknown identifier or a wrong
      non-empty password changes nothing; otherwise the normalised identifier
      becomes the session and, when that changes the session, the account's
      records and profile are loaded from its keys. */
  function HandleLogin(s: AppState, email: string, password: Option<string>): (r: Reply)
    ensures r.outcome == Refused(Accounts.AccountNotFound) <==>
              forall j :: 0 <= j < |s.users| ==> !Accounts.Matches(s.users[j], Normalize(email))
    ensures r.outcome == Refused(Accounts.InvalidCredentials) <==>
              match Accounts.Find(s.users, Normalize(email))
              case Some(u) => !Accounts.PasswordAccepted(u, password)
              case None => false
    ensures r.outcome.Refused? ==> r.state == s
    ensures r.outcome == Done ==>
              && r.state.session == Some(Normalize(email))
              && r.state.users == s.users
              && r.state.calcData == s.calcData
    ensures r.outcome == Done && s.session == Some(Normalize(email)) ==> r.state == s
    ensures r.outcome == Done && s.session != Some(Normalize(email)) && Normalize(email) != "" ==>
              && r.state.records == StoredRecords(s.store, Normalize(email))
              && r.state.profile == StoredProfile(s.store, s.users, Normalize(email))
              && Stored(r.state.store, SessionKey, SessionValue(Normalize(email)))
    ensures r == Dispatch(s, Login(email, password))
  {
    match Accounts.Login(s.users, email, password)
    case Failure(e) =>
      assert Commit(s, Login(email, password)) == Failure(e);
      Reply(s, Refused(e))
    case Success(key) =>
      var next := s.(session := Some(key));
      assert Commit(s, Login(email, password)) == Success(next);
      if s.session == Some(key) then
        assert next == s;
        QuietStep(s);
        Reply(s, Done)
      else if key == "" then
        Reply(AfterStep(s, next), Done)
      else
        ScopeSwitchLoads(s, next, key);
        NormalizeIsLowerAndTrimmed(email);
        Reply(AfterStep(s, next), Done)
  }

  /** `handleLogout` (lines 145-148): clears the session; the records and
      profile reset and the remembered session is removed, while every other
      stored entry stays as it was. */
  function HandleLogout(s: AppState): (t: AppState)
    ensures t.session == None && t.users == s.users && t.calcData == s.calcData
    ensures s.session.Some? ==>
              t.records == [] && t.profile == InitialProfile && SessionKey !in t.store
    ensures AgreeExcept(s.store, t.store, {SessionKey})
  {
    Step(s, Logout)
  }

  /** The calculator's `onCalculate` (line 200): the data a later save will
      record. */
  function HandleCalculate(s: AppState, data: CalcData): (t: AppState)
    ensures t.calcData == Some(data)
    ensures t.(calcData := s.calcData) == s
  {
    Step(s, Calculate(data))
  }

  /** `handleSaveResult` (lines 150-168) followed by the records write-back:
      without pending data nothing happens; otherwise the new pending record
      is put in front of the list and, with a session in effect, the whole
      list is stored under that account's records key. */
  function HandleSaveResult(s: AppState, finalTaxAmount: real, id: string, date: string)
    : (t: AppState)
    ensures s.calcData.None? ==> t == s
    ensures s.calcData.Some? ==>
              t.records == [Ledger.NewRecord(s.calcData.value, finalTaxAmount, id, date)] + s.records
    ensures t.users == s.users && t.session == s.session && t.profile == s.profile
    ensures s.calcData.Some? && ActiveUser(s.session).Some? ==>
              Stored(t.store, RecordsKey(s.session.value), RecordsValue(t.records))
    ensures t == Step(s, SaveResult(finalTaxAmount, id, date))
  {
    var next := s.(records := Ledger.SaveResult(s.records, s.calcData, finalTaxAmount, id, date));
    assert Commit(s, SaveResult(finalTaxAmount, id, date)) == Success(next);
    if s.calcData.None? then
      assert next == s;
      QuietStep(s);
      AfterStep(s, next)
    else
      RecordsUpdate(s, next.records);
      AfterStep(s, next)
  }

  /** The delete callback (lines 194 and 222) followed by the write-back. */
  function HandleDelete(s: AppState, id: string): (t: AppState)
    ensures t.records == Ledger.Delete(s.records, id)
    ensures t.users == s.users && t.session == s.session && t.profile == s.profile
    ensures ActiveUser(s.session).Some? && t.records != s.records ==>
              Stored(t.store, RecordsKey(s.session.value), RecordsValue(t.records))
    ensures t == Step(s, Delete(id))
  {
    var next := s.(records := Ledger.Delete(s.records, id));
    assert Commit(s, Delete(id)) == Success(next);
    RecordsUpdate(s, next.records);
    AfterStep(s, next)
  }

  /** The toggle callback (lines 195 and 223) followed by the write-back. */
  function HandleToggle(s: AppState, id: string): (t: AppState)
    ensures t.records == Ledger.Toggle(s.records, id)
    ensures t.users == s.users && t.session == s.session && t.profile == s.profile
    ensures ActiveUser(s.session).Some? && t.records != s.records ==>
              Stored(t.store, RecordsKey(s.session.value), RecordsValue(t.records))
    ensures t == Step(s, Toggle(id))
  {
    var next := s.(records := Ledger.Toggle(s.records, id));
    assert Commit(s, Toggle(id)) == Success(next);
    RecordsUpdate(s, next.records);
    AfterStep(s, next)
  }

  /** The settings screen's `onUpdateProfile` (line 206) followed by the
      profile write-back. */
  function HandleUpdateProfile(s: AppState, p: UserProfile): (t: AppState)
    ensures t.profile == p
    ensures t.users == s.users && t.session == s.session && t.records == s.records
    ensures ActiveUser(s.session).Some? && p != s.profile ==>
              Stored(t.store, ProfileKey(s.session.value), ProfileValue(p))
  {
    Step(s, UpdateProfile(p))
  }

  /** Every action keeps the store in line with the state. */
  lemma StepKeepsConsistent(s: AppState, a: Action)
    requires Consistent(s)
    ensures Consistent(Step(s, a))
  {
    if Commit(s, a).Success? {
      AfterStepConsistent(s, Commit(s, a).value);
    }
  }

  /** Every action writes only the directory key, the remembered session and the
      keys of the account in effect after it. */
  lemma StepTouchesOnlyActive(s: AppState, a: Action)
    ensures AgreeExcept(s.store, Step(s, a).store, Touched(Step(s, a).session))
  {
    if Commit(s, a).Success? {
      var next := Commit(s, a).value;
      EffectsTouchOnlyActive(next, next.session != s.session || next.users != s.users,
                             next.records != s.records, next.profile != s.profile,
                             next.users != s.users);
    }
  }

  /** Mounting on any store gives a state the store mirrors. */
  lemma StartConsistent(store: Store)
    ensures Consistent(Start(store))
  {
    var init := AppState(StoredUsers(store), StoredSession(store), [], InitialProfile, None, store);
    if ActiveUser(init.session).Some? {
      KeyKindsDistinct(init.session.value, init.session.value);
    }
  }

  /** Any sequence of actions from a mirrored state keeps it mirrored. */
  lemma {:induction false} RunKeepsConsistent(s: AppState, actions: seq<Action>)
    requires Consistent(s)
    ensures Consistent(Run(s, actions))
    decreases |actions|
  {
    if |actions| > 0 {
      StepKeepsConsistent(s, actions[0]);
      RunKeepsConsistent(Step(s, actions[0]), actions[1..]);
    }
  }

  /** Account `x` is not the one in effect in `s`. */
  predicate Inactive(s: AppState, x: string) {
    ActiveUser(s.session).None? || ToLower(ActiveUser(s.session).value) != ToLower(x)
  }

  /** Account `x` is in effect in none of the states the actions pass
      through. */
  predicate AvoidsAccount(s: AppState, actions: seq<Action>, x: string)
    decreases |actions|
  {
    |actions| == 0 ||
    (Inactive(Step(s, actions[0]), x) && AvoidsAccount(Step(s, actions[0]), actions[1..], x))
  }

  /** A step after which `x` is not in effect leaves `x`'s stored records and
      profile untouched. */
  lemma StepKeepsOtherAccount(s: AppState, a: Action, x: string)
    requires Inactive(Step(s, a), x)
    ensures SameEntry(s.store, Step(s, a).store, RecordsKey(x))
    ensures SameEntry(s.store, Step(s, a).store, ProfileKey(x))
  {
    StepTouchesOnlyActive(s, a);
    UntouchedAccount(s.store, Step(s, a).store, Step(s, a).session, x);
  }

  /** Writes confined to `Touched(session)` leave the keys of an account
      other than the active one alone. */
  lemma UntouchedAccount(before: Store, after: Store, session: Option<string>, x: string)
    requires AgreeExcept(before, after, Touched(session))
    requires ActiveUser(session).None? || ToLower(ActiveUser(session).value) != ToLower(x)
    ensures SameEntry(before, after, RecordsKey(x))
    ensures SameEntry(before, after, ProfileKey(x))
  {
    KeyKindsDistinct(x, x);
    if ActiveUser(session).Some? {
      AccountKeysDisjoint(x, ActiveUser(session).value);
    }
    assert RecordsKey(x) !in Touched(session);
    assert ProfileKey(x) !in Touched(session);
  }

  /** Actions during which account `x` is never in effect leave its stored
      records and profile as they were. */
  lemma {:induction false} RunKeepsOtherAccount(s: AppState, actions: seq<Action>, x: string)
    requires AvoidsAccount(s, actions, x)
    ensures SameEntry(s.store, Run(s, actions).store, RecordsKey(x))
    ensures SameEntry(s.store, Run(s, actions).store, ProfileKey(x))
    decreases |actions|
  {
    if |actions| > 0 {
      StepKeepsOtherAccount(s, actions[0], x);
      RunKeepsOtherAccount(Step(s, actions[0]), actions[1..], x);
    }
  }

  /** The last state of a run that avoids `x` does not have `x` in effect. */
  lemma {:induction false} RunEndsInactive(s: AppState, actions: seq<Action>, x: string)
    requires Inactive(s, x)
    requires AvoidsAccount(s, actions, x)
    ensures Inactive(Run(s, actions), x)
    decreases |actions|
  {
    if |actions| > 0 {
      RunEndsInactive(Step(s, actions[0]), actions[1..], x);
    }
  }

  /** Logging in, accepted or refused, leaves the stored records and profile
      of every account other than the one in effect afterwards untouched. */
  lemma LoginKeepsOtherAccounts(s: AppState, email: string, password: Option<string>, x: string)
    requires Inactive(HandleLogin(s, email, password).state, x)
    ensures SameEntry(s.store, HandleLogin(s, email, password).state.store, RecordsKey(x))
    ensures SameEntry(s.store, HandleLogin(s, email, password).state.store, ProfileKey(x))
  {
    StepKeepsOtherAccount(s, Login(email, password), x);
  }

  /** Registering, accepted or refused, leaves the stored records and profile
      of every account other than the one in effect afterwards untouched. */
  lemma RegisterKeepsOtherAccounts(s: AppState, data: Accounts.RegisteredUser, x: string)
    requires Inactive(HandleRegister(s, data).state, x)
    ensures SameEntry(s.store, HandleRegister(s, data).state.store, RecordsKey(x))
    ensures SameEntry(s.store, HandleRegister(s, data).state.store, ProfileKey(x))
  {
    StepKeepsOtherAccount(s, Register(data), x);
  }

  /** Logging out leaves every account's stored records and profile alone. */
  lemma LogoutKeepsAccounts(s: AppState, x: string)
    ensures SameEntry(s.store, HandleLogout(s).store, RecordsKey(x))
    ensures SameEntry(s.store, HandleLogout(s).store, ProfileKey(x))
  {
    KeyKindsDistinct(x, x);
  }

  /** Logging in as an account that is not in effect loads exactly what is
      stored under its keys. */
  lemma LoginLoadsStored(u: AppState, email: string, password: Option<string>, x: string)
    requires Inactive(u, x)
    requires x != "" && Normalize(email) == ToLower(x)
    requires HandleLogin(u, email, password).outcome == Done
    ensures HandleLogin(u, email, password).state.records == StoredRecords(u.store, x)
    ensures HandleLogin(u, email, password).state.profile == StoredProfile(u.store, u.users, x)
  {
    var key := Normalize(email);
    SameAccount(email, x);
    SessionDiffers(u, key, x);
    SameStored(u.store, u.users, key, x);
  }

  /** Identifiers equal once lowercased read the same stored data. */
  lemma SameStored(store: Store, users: seq<Accounts.RegisteredUser>, a: string, b: string)
    requires ToLower(a) == ToLower(b)
    ensures StoredRecords(store, a) == StoredRecords(store, b)
    ensures StoredProfile(store, users, a) == StoredProfile(store, users, b)
  {
    assert RecordsKey(a) == RecordsKey(b) && ProfileKey(a) == ProfileKey(b);
  }

  /** An identifier naming the keys of an inactive account is not the
      session. */
  lemma SessionDiffers(u: AppState, key: string, x: string)
    requires Inactive(u, x)
    requires key != "" && ToLower(key) == ToLower(x)
    ensures u.session != Some(key)
  {
  }

  /** A login identifier that normalises to a lowercased non-empty session
      is non-empty and names the same keys. */
  lemma SameAccount(email: string, x: string)
    requires x != "" && Normalize(email) == ToLower(x)
    ensures Normalize(email) != "" && ToLower(Normalize(email)) == ToLower(x)
    ensures RecordsKey(Normalize(email)) == RecordsKey(x)
    ensures ProfileKey(Normalize(email)) == ProfileKey(x)
  {
    NormalizeIsLowerAndTrimmed(email);
    assert |ToLower(x)| == |x|;
  }

  /** Switching away and back restores an account's data: with account `a` in
      effect, logging out, running any actions during which `a` is never in
      effect, then logging in again as `a` gives back exactly the records and
      profile `a` had. */
  lemma SwitchBackRestores(s: AppState, actions: seq<Action>, email: string, password: Option<string>)
    requires Consistent(s)
    requires ActiveUser(s.session).Some?
    requires AvoidsAccount(HandleLogout(s), actions, s.session.value)
    requires Normalize(email) == ToLower(s.session.value)
    requires HandleLogin(Run(HandleLogout(s), actions), email, password).outcome == Done
    ensures HandleLogin(Run(HandleLogout(s), actions), email, password).state.records == s.records
    ensures HandleLogin(Run(HandleLogout(s), actions), email, password).state.profile == s.profile
  {
    var x := s.session.value;
    var u := Run(HandleLogout(s), actions);
    KeptThroughLogoutAndRun(s, actions);
    LoginFindsStored(u, email, password, x, s.records, s.profile);
  }

  /** After logging out of a mirrored state and running actions that avoid
      the account, the account is inactive and its keys still hold the
      records and profile it had. */
  lemma KeptThroughLogoutAndRun(s: AppState, actions: seq<Action>)
    requires Consistent(s)
    requires ActiveUser(s.session).Some?
    requires AvoidsAccount(HandleLogout(s), actions, s.session.value)
    ensures var u := Run(HandleLogout(s), actions);
            && Inactive(u, s.session.value)
            && Stored(u.store, RecordsKey(s.session.value), RecordsValue(s.records))
            && Stored(u.store, ProfileKey(s.session.value), ProfileValue(s.profile))
  {
    var x := s.session.value;
    var out := HandleLogout(s);
    LogoutKeepsAccounts(s, x);
    RunKeepsOtherAccount(out, actions, x);
    RunEndsInactive(out, actions, x);
    KeptThroughRun(s, out.store, Run(out, actions).store, x);
  }

  /** The entries an account had in a mirrored state survive two stages that
      each leave its keys alone. */
  lemma KeptThroughRun(s: AppState, mid: Store, last: Store, x: string)
    requires Consistent(s) && ActiveUser(s.session) == Some(x)
    requires SameEntry(s.store, mid, RecordsKey(x)) && SameEntry(s.store, mid, ProfileKey(x))
    requires SameEntry(mid, last, RecordsKey(x)) && SameEntry(mid, last, ProfileKey(x))
    ensures Stored(last, RecordsKey(x), RecordsValue(s.records))
    ensures Stored(last, ProfileKey(x), ProfileValue(s.profile))
  {
  }

  /** Logging in as an inactive account whose keys hold `records` and
      `profile` gives back exactly those. */
  lemma LoginFindsStored(u: AppState, email: string, password: Option<string>, x: string,
                         records: seq<TaxRecord>, profile: UserProfile)
    requires Inactive(u, x)
    requires x != "" && Normalize(email) == ToLower(x)
    requires HandleLogin(u, email, password).outcome == Done
    requires Stored(u.store, RecordsKey(x), RecordsValue(records))
    requires Stored(u.store, ProfileKey(x), ProfileValue(profile))
    ensures HandleLogin(u, email, password).state.records == records
    ensures HandleLogin(u, email, password).state.profile == profile
  {
    LoginLoadsStored(u, email, password, x);
  }

  /** A newly registered account with nothing stored under its profile key
      starts from `INITIAL_PROFILE` named after the account's full name, or
      the fallback name when that is empty. */
  lemma RegisterNamesProfile(s: AppState, data: Accounts.RegisteredUser)
    requires HandleRegister(s, data).outcome == Done
    requires Normalize(data.emailOrPhone) != ""
    requires ProfileKey(Normalize(data.emailOrPhone)) !in s.store
    ensures HandleRegister(s, data).state.profile ==
              InitialProfile.(name := if data.fullName != "" then data.fullName else FallbackName)
  {
    var key := Normalize(data.emailOrPhone);
    var added := Accounts.Register(s.users, data).value.0;
    assert HandleRegister(s, data).state.users == added;
    NormalizeIsLowerAndTrimmed(data.emailOrPhone);
    Accounts.FindAfterRegister(s.users, data);
    assert Accounts.Find(added, ToLower(key)) == Some(added[|s.users|]);
  }

  /** Reopening the app on a mirrored store resumes the session that was in
      effect, with the same directory, records and profile. */
  lemma RestartResumes(s: AppState)
    requires Consistent(s)
    requires ActiveUser(s.session).Some?
    ensures Start(s.store).session == Some(ToLower(s.session.value))
    ensures Start(s.store).users == s.users
    ensures Start(s.store).records == s.records
    ensures Start(s.store).profile == s.profile
  {
    var x := s.session.value;
    ToLowerIdempotent(x);
    assert ToLower(x) != "";
    assert RecordsKey(ToLower(x)) == RecordsKey(x) && ProfileKey(ToLower(x)) == ProfileKey(x);
  }
}
