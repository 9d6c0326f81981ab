/** The registered-account directory and the two handlers that consult it:
    registration (App.tsx `handleRegister`) and login (`handleLogin`). */
module Accounts {

  import opened Wrappers
  import opened Text

  /** `RegisteredUser`: the password is kept and compared as plain text. */
  datatype RegisteredUser = RegisteredUser(
    emailOrPhone: string,
    fullName: string,
    password: string)

  /** The failures the handlers report to the user (each as an error toast). */
  datatype AccountError = AccountNotFound | InvalidCredentials | DuplicateAccount

  /** The predicate both handlers give to `users.find`: the stored identifier,
      lowercased, equals the already normalised `key`. */
  predicate Matches(u: RegisteredUser, key: string) {
    ToLower(u.emailOrPhone) == key
  }

  /** No two stored identifiers are equal once lowercased. */
  predicate UniqueIds(users: seq<RegisteredUser>) {
    forall i, j :: 0 <= i < j < |users| ==>
      ToLower(users[i].emailOrPhone) != ToLower(users[j].emailOrPhone)
  }

  /** Position of the user `users.find` returns: the first one matching `key`,
      or none when no user matches. */
  function FindIndex(users: seq<RegisteredUser>, key: string): (r: Option<nat>)
    ensures r.Some? ==> r.value < |users| && Matches(users[r.value], key)
    ensures r.Some? ==> forall j :: 0 <= j < r.value ==> !Matches(users[j], key)
    ensures r.None? <==> forall j :: 0 <= j < |users| ==> !Matches(users[j], key)
  {
    if |users| == 0 then None
    else if Matches(users[0], key) then Some(0)
    else
      match FindIndex(users[1..], key)
      case None => None
      case Some(i) => Some(i + 1)
  }

  /** The user both handlers look up: the first one whose lowercased
      identifier equals `key`, if any. */
  function Find(users: seq<RegisteredUser>, key: string): (r: Option<RegisteredUser>)
    ensures r.None? <==> forall j :: 0 <= j < |users| ==> !Matches(users[j], key)
    ensures r.Some? ==> r.value in users && Matches(r.value, key)
  {
    match FindIndex(users, key)
    case None => None
    case Some(i) => Some(users[i])
  }

  /** `handleRegister`: the identifier is trimmed and lowercased; if any stored
      identifier lowercases to it the registration is refused, otherwise the
      user is appended with the normalised identifier and the directory and
      that identifier are returned. */
  function Register(users: seq<RegisteredUser>, data: RegisteredUser)
    : (r: Result<(seq<RegisteredUser>, string), AccountError>)
    ensures r.Failure? <==>
              exists i :: 0 <= i < |users| && Matches(users[i], Normalize(data.emailOrPhone))
    ensures r.Failure? ==> r.error == DuplicateAccount
    ensures r.Success? ==>
              && r.value.1 == Normalize(data.emailOrPhone)
              && |r.value.0| == |users| + 1
              && r.value.0[..|users|] == users
              && r.value.0[|users|].emailOrPhone == Normalize(data.emailOrPhone)
              && r.value.0[|users|].fullName == data.fullName
              && r.value.0[|users|].password == data.password
  {
    var key := Normalize(data.emailOrPhone);
    if FindIndex(users, key).Some? then
      Failure(DuplicateAccount)
    else
      var added := users + [data.(emailOrPhone := key)];
      assert added[..|users|] == users;
      Success((added, key))
  }

  /** The password check of `handleLogin`: it happens only when a password is
      supplied and non-empty, an empty string being falsy. */
  predicate PasswordAccepted(u: RegisteredUser, password: Option<string>) {
    password.None? || password.value == "" || u.password == password.value
  }

  /** `handleLogin`: looks the normalised identifier up, then checks the
      password when one is given; on success returns the normalised identifier,
      which becomes the session. */
  function Login(users: seq<RegisteredUser>, email: string, password: Option<string>)
    : (r: Result<string, AccountError>)
    ensures r == Failure(AccountNotFound) <==>
              forall j :: 0 <= j < |users| ==> !Matches(users[j], Normalize(email))
    ensures r == Failure(InvalidCredentials) <==>
              exists i :: 0 <= i < |users| && Matches(users[i], Normalize(email))
                       && (forall j :: 0 <= j < i ==> !Matches(users[j], Normalize(email)))
                       && !PasswordAccepted(users[i], password)
    ensures r.Success? ==> r.value == Normalize(email)
    ensures r.Failure? ==> r.error != DuplicateAccount
  {
    var key := Normalize(email);
    FirstMatchIsFound(users, key);
    match FindIndex(users, key)
    case None => Failure(AccountNotFound)
    case Some(i) =>
      if PasswordAccepted(users[i], password) then Success(key)
      else Failure(InvalidCredentials)
  }

  /** The first user matching `key` is the one `FindIndex` returns. */
  lemma FirstMatchIsFound(users: seq<RegisteredUser>, key: string)
    ensures forall i :: 0 <= i < |users| && Matches(users[i], key)
                        && (forall j :: 0 <= j < i ==> !Matches(users[j], key))
                        ==> FindIndex(users, key) == Some(i)
  {
    forall i | 0 <= i < |users| && Matches(users[i], key)
               && (forall j :: 0 <= j < i ==> !Matches(users[j], key))
      ensures FindIndex(users, key) == Some(i)
    {
      var k := FindIndex(users, key).value;
      assert !(k < i);
    }
  }

  /** Applies one registration attempt, ignoring a refused one. */
  function RegisterOrKeep(users: seq<RegisteredUser>, data: RegisteredUser): seq<RegisteredUser> {
    match Register(users, data)
    case Success((added, _)) => added
    case Failure(_) => users
  }

  /** The directory after a series of registration attempts, in order. */
  function RegisterAll(users: seq<RegisteredUser>, attempts: seq<RegisteredUser>)
    : seq<RegisteredUser>
    decreases |attempts|
  {
    if |attempts| == 0 then users
    else RegisterAll(RegisterOrKeep(users, attempts[0]), attempts[1..])
  }

  /** A successful registration keeps the identifiers unique. */
  lemma RegisterKeepsUnique(users: seq<RegisteredUser>, data: RegisteredUser)
    requires UniqueIds(users)
    requires Register(users, data).Success?
    ensures UniqueIds(Register(users, data).value.0)
  {
    var added := Register(users, data).value.0;
    var key := Normalize(data.emailOrPhone);
    NormalizeIsLowerAndTrimmed(data.emailOrPhone);
    assert ToLower(added[|users|].emailOrPhone) == key;
    forall i, j | 0 <= i < j < |added|
      ensures ToLower(added[i].emailOrPhone) != ToLower(added[j].emailOrPhone)
    {
      if j == |users| {
        assert added[i] == users[i];
        assert !Matches(users[i], key);
      } else {
        assert added[i] == users[i] && added[j] == users[j];
      }
    }
  }

  /** Whatever the attempts, a directory with unique identifiers stays so. */
  lemma {:induction false} RegisterAllKeepsUnique(users: seq<RegisteredUser>, attempts: seq<RegisteredUser>)
    requires UniqueIds(users)
    ensures UniqueIds(RegisterAll(users, attempts))
    decreases |attempts|
  {
    if |attempts| > 0 {
      if Register(users, attempts[0]).Success? {
        RegisterKeepsUnique(users, attempts[0]);
      }
      RegisterAllKeepsUnique(RegisterOrKeep(users, attempts[0]), attempts[1..]);
    }
  }

  /** Starting from an empty directory, registration alone never produces two
      identifiers that are equal after lowercasing. */
  lemma RegisterFromEmptyUnique(attempts: seq<RegisteredUser>)
    ensures UniqueIds(RegisterAll([], attempts))
  {
    RegisterAllKeepsUnique([], attempts);
  }

  /** After a registration, looking up its normalised identifier finds the
      newly appended user. */
  lemma FindAfterRegister(users: seq<RegisteredUser>, data: RegisteredUser)
    requires Register(users, data).Success?
    ensures FindIndex(Register(users, data).value.0, Normalize(data.emailOrPhone)) == Some(|users|)
  {
    var added := Register(users, data).value.0;
    var key := Normalize(data.emailOrPhone);
    NormalizeIsLowerAndTrimmed(data.emailOrPhone);
    assert Matches(added[|users|], key);
    forall j | 0 <= j < |users|
      ensures !Matches(added[j], key)
    {
      assert added[j] == users[j];
    }
  }

  /** Login is case-insensitive: after registering an identifier, logging in
      with any identifier that lowercases to the same string, and with no
      password or the registered one, succeeds with the stored identifier. */
  lemma LoginAfterRegister(users: seq<RegisteredUser>, data: RegisteredUser,
                           email: string, password: Option<string>)
    requires Register(users, data).Success?
    requires ToLower(email) == ToLower(data.emailOrPhone)
    requires password.None? || password.value == data.password
    ensures Login(Register(users, data).value.0, email, password)
              == Success(Normalize(data.emailOrPhone))
  {
    NormalizeIgnoresCase(email, data.emailOrPhone);
    FindAfterRegister(users, data);
  }

  /** Registering an identifier in another case than a stored one is refused. */
  lemma RegisterCaseVariantRefused(users: seq<RegisteredUser>, data: RegisteredUser,
                                   again: RegisteredUser)
    requires Register(users, data).Success?
    requires ToLower(again.emailOrPhone) == ToLower(data.emailOrPhone)
    ensures Register(Register(users, data).value.0, again) == Failure(DuplicateAccount)
  {
    var added := Register(users, data).value.0;
    NormalizeIgnoresCase(again.emailOrPhone, data.emailOrPhone);
    NormalizeIsLowerAndTrimmed(data.emailOrPhone);
    assert Matches(added[|users|], Normalize(again.emailOrPhone));
  }

  /** An empty password is never checked: logging in with it succeeds for any
      registered identifier, whatever the stored password. */
  lemma EmptyPasswordSkipsCheck(users: seq<RegisteredUser>, email: string)
    requires exists i :: 0 <= i < |users| && Matches(users[i], Normalize(email))
    ensures Login(users, email, Some("")) == Success(Normalize(email))
  {
  }

  lemma LowerExample()
    ensures ToLower("A@B.com") == "a@b.com"
  {
    var t := ToLower("A@B.com");
    assert t[0] == 'a' && t[1] == '@' && t[2] == 'b' && t[3] == '.';
    assert t[4] == 'c' && t[5] == 'o' && t[6] == 'm';
  }

  lemma NormalizedExample()
    ensures Normalize("a@b.com") == "a@b.com"
  {
    var lower := "a@b.com";
    VisibleAsciiNotWhitespace(lower[0]);
    VisibleAsciiNotWhitespace(lower[6]);
    LowerOfLower(lower);
    TrimOfTrimmed(lower);
  }

  /** Registering "A@B.com" and then logging in as "a@b.com", without a
      password, succeeds with the session "a@b.com". */
  lemma RegisterThenLoginExample()
    ensures var data := RegisteredUser("A@B.com", "An", "secret");
            Register([], data).Success? &&
            Login(Register([], data).value.0, "a@b.com", None) == Success("a@b.com")
  {
    var data := RegisteredUser("A@B.com", "An", "secret");
    var lower := "a@b.com";
    assert Register([], data).Success?;
    assert ToLower(lower) == ToLower(data.emailOrPhone) by {
      LowerExample();
      LowerOfLower(lower);
    }
    LoginAfterRegister([], data, lower, None);
    assert Normalize(data.emailOrPhone) == lower by {
      NormalizeIgnoresCase(data.emailOrPhone, lower);
      NormalizedExample();
    }
  }
}
