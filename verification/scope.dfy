/** The persisted store and its per-account partitioning: the keys the core
    reads and writes, and how a user's records and profile are read back when
    that user becomes active (App.tsx lines 23-31 and 54-68). */
module Scope {

  import opened Wrappers
  import opened Text
  import opened Types
  import opened Accounts

  /** A stored value, already decoded: the source keeps JSON text, the model
      keeps the value the text encodes. */
  datatype Value =
    | UsersValue(users: seq<RegisteredUser>)
    | SessionValue(session: string)
    | RecordsValue(records: seq<TaxRecord>)
    | ProfileValue(profile: UserProfile)

  /** `localStorage`, as far as the core uses it. */
  type Store = map<string, Value>

  const UsersKey: string := "registered-users"
  const SessionKey: string := "last-session-user"

  const RecordsPrefix: string := "tax-records-"
  const ProfilePrefix: string := "user-profile-"

  /** The key of an account's records: a fixed prefix followed by the
      lowercased identifier. */
  function RecordsKey(session: string): (k: string)
    ensures |k| == |RecordsPrefix| + |session| && k[..|RecordsPrefix|] == RecordsPrefix
    ensures IsLower(k[|RecordsPrefix|..])
  {
    RecordsPrefix + ToLower(session)
  }

  /** The key of an account's profile: a fixed prefix followed by the
      lowercased identifier. */
  function ProfileKey(session: string): (k: string)
    ensures |k| == |ProfilePrefix| + |session| && k[..|ProfilePrefix|] == ProfilePrefix
    ensures IsLower(k[|ProfilePrefix|..])
  {
    ProfilePrefix + ToLower(session)
  }

  /** The two keys that hold one account's data. */
  function AccountKeys(session: string): set<string> {
    {RecordsKey(session), ProfileKey(session)}
  }

  /** `INITIAL_PROFILE`. */
  const InitialProfile: UserProfile := UserProfile(
    "Người dùng mới",
    "Chưa cập nhật",
    "Hộ kinh doanh cá thể",
    Some("https://picsum.photos/seed/taxviet/100/100"),
    "1",
    0.01,
    0.005)

  /** The display name used when the active identifier has no account or an
      account with an empty full name. */
  const FallbackName: string := "Người dùng"

  /** `store` holds `v` under `k`. */
  predicate Stored(store: Store, k: string, v: Value) {
    k in store && store[k] == v
  }

  /** The two stores hold the same entry (or none) under `k`. */
  predicate SameEntry(a: Store, b: Store, k: string) {
    (k in a <==> k in b) && (k in a ==> a[k] == b[k])
  }

  /** Every key outside `keys` holds the same entry in both stores. */
  ghost predicate AgreeExcept(a: Store, b: Store, keys: set<string>) {
    forall k :: k !in keys ==> SameEntry(a, b, k)
  }

  /** The directory kept under `registered-users`, or none. */
  function StoredUsers(store: Store): seq<RegisteredUser> {
    if UsersKey in store && store[UsersKey].UsersValue? then store[UsersKey].users else []
  }

  /** The identifier kept under `last-session-user`, or none. */
  function StoredSession(store: Store): Option<string> {
    if SessionKey in store && store[SessionKey].SessionValue? then Some(store[SessionKey].session)
    else None
  }

  /** The records kept for `session`, or the empty list when none are. */
  function StoredRecords(store: Store, session: string): seq<TaxRecord> {
    var k := RecordsKey(session);
    if k in store && store[k].RecordsValue? then store[k].records else []
  }

  /** The profile a user gets before saving one: `INITIAL_PROFILE` with the
      name taken from the account whose identifier lowercases to the session's,
      falling back when there is no such account or its full name is empty. */
  function DefaultProfile(users: seq<RegisteredUser>, session: string): UserProfile {
    var name :=
      match Find(users, ToLower(session))
      case Some(u) => if u.fullName != "" then u.fullName else FallbackName
      case None => FallbackName;
    InitialProfile.(name := name)
  }

  /** The profile kept for `session`, or the default one when none is. */
  function StoredProfile(store: Store, users: seq<RegisteredUser>, session: string): UserProfile {
    var k := ProfileKey(session);
    if k in store && store[k].ProfileValue? then store[k].profile else DefaultProfile(users, session)
  }

  /** Stripping a common prefix. */
  lemma PrefixCancel(p: string, a: string, b: string)
    requires p + a == p + b
    ensures a == b
  {
    assert a == (p + a)[|p|..];
    assert b == (p + b)[|p|..];
  }

  /** Two sessions share their records key exactly when their identifiers are
      equal once lowercased; likewise for the profile key. */
  lemma AccountKeysInjective(a: string, b: string)
    ensures RecordsKey(a) == RecordsKey(b) <==> ToLower(a) == ToLower(b)
    ensures ProfileKey(a) == ProfileKey(b) <==> ToLower(a) == ToLower(b)
  {
    if RecordsKey(a) == RecordsKey(b) {
      PrefixCancel(RecordsPrefix, ToLower(a), ToLower(b));
    }
    if ProfileKey(a) == ProfileKey(b) {
      PrefixCancel(ProfilePrefix, ToLower(a), ToLower(b));
    }
  }

  /** The four kinds of key never collide: they differ in their first letter. */
  lemma KeyKindsDistinct(a: string, b: string)
    ensures RecordsKey(a) != ProfileKey(b)
    ensures RecordsKey(a) != UsersKey && RecordsKey(a) != SessionKey
    ensures ProfileKey(a) != UsersKey && ProfileKey(a) != SessionKey
    ensures UsersKey != SessionKey
  {
    assert RecordsKey(a)[0] == 't';
    assert ProfileKey(b)[0] == 'u';
    assert UsersKey[0] == 'r';
    assert SessionKey[0] == 'l';
  }

  /** Account data is partitioned: the keys of two accounts whose identifiers
      differ once lowercased are disjoint, and neither meets the directory or
      session keys. */
  lemma AccountKeysDisjoint(a: string, b: string)
    requires ToLower(a) != ToLower(b)
    ensures AccountKeys(a) !! AccountKeys(b)
    ensures UsersKey !in AccountKeys(a) && SessionKey !in AccountKeys(a)
  {
    AccountKeysInjective(a, b);
    KeyKindsDistinct(a, b);
    KeyKindsDistinct(b, a);
    KeyKindsDistinct(a, a);
  }

  /** The default profile is `INITIAL_PROFILE` except for the name, which is
      the full name of the first account whose lowercased identifier is the
      lowercased session, or the fallback when that name is empty or no
      account matches. */
  lemma DefaultProfileName(users: seq<RegisteredUser>, session: string)
    ensures DefaultProfile(users, session).(name := InitialProfile.name) == InitialProfile
    ensures (forall j :: 0 <= j < |users| ==> !Matches(users[j], ToLower(session))) ==>
              DefaultProfile(users, session).name == FallbackName
    ensures forall i :: 0 <= i < |users| && Matches(users[i], ToLower(session))
                        && (forall j :: 0 <= j < i ==> !Matches(users[j], ToLower(session)))
                        ==> DefaultProfile(users, session).name ==
                              (if users[i].fullName != "" then users[i].fullName else FallbackName)
  {
    FirstMatchIsFound(users, ToLower(session));
  }

  /** Reading the directory back: what was written under its key, nothing
      once that key is removed, and writes under other keys do not matter. */
  lemma UsersReadBack(store: Store, users: seq<RegisteredUser>, k: string, v: Value)
    ensures StoredUsers(store[UsersKey := UsersValue(users)]) == users
    ensures StoredUsers(store - {UsersKey}) == []
    ensures k != UsersKey ==> StoredUsers(store[k := v]) == StoredUsers(store)
    ensures k != UsersKey ==> StoredUsers(store - {k}) == StoredUsers(store)
  {
  }

  /** Reading the remembered session back: what was written under its key,
      none once that key is removed, and writes under other keys do not
      matter. */
  lemma SessionReadBack(store: Store, id: string, k: string, v: Value)
    ensures StoredSession(store[SessionKey := SessionValue(id)]) == Some(id)
    ensures StoredSession(store - {SessionKey}) == None
    ensures k != SessionKey ==> StoredSession(store[k := v]) == StoredSession(store)
  {
  }

  /** Reading an account's records back: a write under account `a`'s records
      key is seen exactly by the identifiers equal to `a` once lowercased;
      writes under any other key are not seen; an empty store reads as no
      records. */
  lemma RecordsReadBack(store: Store, a: string, rs: seq<TaxRecord>, b: string, k: string, v: Value)
    ensures StoredRecords(store[RecordsKey(a) := RecordsValue(rs)], b) ==
              if ToLower(a) == ToLower(b) then rs else StoredRecords(store, b)
    ensures k != RecordsKey(b) ==> StoredRecords(store[k := v], b) == StoredRecords(store, b)
    ensures StoredRecords(map[], b) == []
  {
    AccountKeysInjective(a, b);
  }

  /** Reading an account's profile back: a write under account `a`'s profile
      key is seen exactly by the identifiers equal to `a` once lowercased;
      writes under any other key are not seen; with nothing stored, the
      default profile is read. */
  lemma ProfileReadBack(store: Store, users: seq<RegisteredUser>, a: string, p: UserProfile,
                        b: string, k: string, v: Value)
    ensures StoredProfile(store[ProfileKey(a) := ProfileValue(p)], users, b) ==
              if ToLower(a) == ToLower(b) then p else StoredProfile(store, users, b)
    ensures k != ProfileKey(b) ==> StoredProfile(store[k := v], users, b) == StoredProfile(store, users, b)
    ensures StoredProfile(map[], users, b) == DefaultProfile(users, b)
  {
    AccountKeysInjective(a, b);
  }
}
