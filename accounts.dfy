/** Sign-up and log-in (`sign_up`, `log_in`) over the `users` collection,
    as functions from the collection before the call to the reply and the
    collection after it. */
module Accounts {
  import opened Outcomes
  import opened Records
  import opened Crypto
  import opened Tokens

  /** Position `i` holds the first user called `name`. */
  ghost predicate FirstNamed(users: seq<User>, name: string, i: int) {
    0 <= i < |users| && users[i].name == name &&
    forall k | 0 <= k < i :: users[k].name != name
  }

  /** The first user called `name` in store order: what the database's
      `find_one` by name returns once the round-trip succeeds. */
  function FindUser(users: seq<User>, name: string): (found: Option<User>)
    ensures found.None? <==> forall k | 0 <= k < |users| :: users[k].name != name
    ensures found.Some? ==> exists i :: FirstNamed(users, name, i) && users[i] == found.value
  {
    if users == [] then None
    else if users[0].name == name then (assert FirstNamed(users, name, 0); Some(users[0]))
    else
      var rest := FindUser(users[1..], name);
      assert rest.Some? ==> exists i :: FirstNamed(users, name, i) && users[i] == rest.value by {
        if rest.Some? {
          var i :| FirstNamed(users[1..], name, i) && users[1..][i] == rest.value;
          assert FirstNamed(users, name, i + 1);
        }
      }
      rest
  }

  /** The lookup by name as one database round-trip: the error of a
      failed round-trip, or the first user with that name. Whether the
      round-trip fails is decided by the environment: `fails`. */
  function FindOne(users: seq<User>, name: string, fails: bool): (r: Result<Option<User>, DbError>)
    ensures r.Err? <==> fails
    ensures r.Ok? ==> (r.value.None? <==> forall k | 0 <= k < |users| :: users[k].name != name)
    ensures r.Ok? && r.value.Some? ==> exists i :: FirstNamed(users, name, i) && users[i] == r.value.value
  {
    if fails then Err(DbError) else Ok(FindUser(users, name))
  }

  /** Sign-up. A password shorter than eight characters is refused. Then
      the name is looked up: a failed lookup is answered `NameExists`, and
      a lookup that succeeds lets the sign-up through, whether it found a
      user or not. The new user carries the digest of the password under
      `salt` and no icon, and the reply carries a token for the name. */
  function SignUp(
    a: Argon2, j: JwtCodec, secret: string, users: seq<User>,
    name: string, password: string, salt: string, lookupFails: bool
  ): (s: Step<AccountReply, seq<User>>)
    ensures |password| < MinPasswordLength ==> s == Step(Refused(TooShortPassword), users)
    ensures |password| >= MinPasswordLength ==> (s.reply == Refused(NameExists) <==> lookupFails)
    ensures s.reply.Ok? && (s.reply.value.Ok? <==> |password| >= MinPasswordLength && !lookupFails)
    ensures s.reply.value.Err? ==> s.state == users
    ensures s.reply.value.Ok? ==> s.state == users + [User(name, a.hash(password, salt), None)]
    ensures s.reply.value.Ok? && JwtLaws(j) ==> j.decode(s.reply.value.value, secret) == Some(Claims(name, Expiry))
  {
    if |password| < MinPasswordLength then Step(Refused(TooShortPassword), users)
    else match FindOne(users, name, lookupFails)
      case Err(_) => Step(Refused(NameExists), users)
      case Ok(_) =>
        var account := User(name, a.hash(password, salt), None);
        Step(Granted(MakeJwt(j, secret, name)), users + [account])
  }

  /** Log-in. The first user called `name` is looked up; if there is one
      and the password verifies against its digest, the reply carries a
      token for the name, and otherwise it is `InvalidAccount`, whichever
      of the two went wrong. The digest of the user found must be well
      formed (the hasher's parser is unwrapped). */
  function LogIn(
    a: Argon2, j: JwtCodec, secret: string, users: seq<User>,
    name: string, password: string
  ): (r: AccountReply)
    requires forall i | FirstNamed(users, name, i) :: a.parses(users[i].passwordHash)
    ensures r.Ok?
    ensures r.value.Ok? <==> exists i :: FirstNamed(users, name, i) && a.verify(password, users[i].passwordHash)
    ensures r.value.Err? ==> r.value.error == InvalidAccount
    ensures r.value.Ok? && JwtLaws(j) ==> j.decode(r.value.value, secret) == Some(Claims(name, Expiry))
  {
    match FindUser(users, name)
    case Some(user) =>
      if a.verify(password, user.passwordHash) then Granted(MakeJwt(j, secret, name))
      else Refused(InvalidAccount)
    case None => Refused(InvalidAccount)
  }

  // ---- Properties of sign-up and log-in ---------------------------------

  /** Only one position can hold the first user with a given name. */
  lemma FirstNamedUnique(users: seq<User>, name: string, i: int, k: int)
    requires FirstNamed(users, name, i) && FirstNamed(users, name, k)
    ensures i == k
  {
  }

  /** Appending a user changes the result of the lookup only when the
      collection held nobody of that name. */
  lemma {:induction false} FindUserAppend(users: seq<User>, u: User, name: string)
    ensures FindUser(users + [u], name) ==
      if FindUser(users, name).Some? then FindUser(users, name)
      else if u.name == name then Some(u) else None
  {
    if users != [] {
      assert (users + [u])[1..] == users[1..] + [u];
      FindUserAppend(users[1..], u, name);
    }
  }

  /** Sign-up keeps every stored digest well formed: it only ever stores
      what the hasher produced. */
  lemma SignUpKeepsDigestsParsing(
    a: Argon2, j: JwtCodec, secret: string, users: seq<User>,
    name: string, password: string, salt: string, lookupFails: bool)
    requires Argon2Laws(a) && DigestsParse(a, users)
    ensures DigestsParse(a, SignUp(a, j, secret, users, name, password, salt, lookupFails).state)
  {
  }

  /** The name check does not look at what the lookup found: when an
      account of that name is already stored, sign-up still succeeds and
      the collection then holds two users with the same name. */
  lemma SignUpAdmitsTakenName(
    a: Argon2, j: JwtCodec, secret: string, users: seq<User>,
    name: string, password: string, salt: string)
    requires |password| >= MinPasswordLength
    requires FindUser(users, name).Some?
    ensures var s := SignUp(a, j, secret, users, name, password, salt, false);
      && s.reply.value.Ok?
      && exists i, k :: 0 <= i < k < |s.state| && s.state[i].name == name && s.state[k].name == name
  {
    var s := SignUp(a, j, secret, users, name, password, salt, false);
    var i :| FirstNamed(users, name, i);
    assert s.state[i].name == name && s.state[|users|].name == name;
  }

  /** Right after a sign-up, log-in with the same name and password
      succeeds, and hands out the same token, exactly when no earlier user
      had that name or the earlier user's digest happens to accept the new
      password. Log-in finds the first user of a name, so a second account
      of a taken name is shadowed by the first. */
  lemma {:induction false} SignUpThenLogIn(
    a: Argon2, j: JwtCodec, secret: string, users: seq<User>,
    name: string, password: string, salt: string)
    requires Argon2Laws(a) && DigestsParse(a, users)
    requires |password| >= MinPasswordLength
    ensures var s := SignUp(a, j, secret, users, name, password, salt, false);
      && DigestsParse(a, s.state)
      && (LogIn(a, j, secret, s.state, name, password) == s.reply <==>
          (FindUser(users, name).None? || a.verify(password, FindUser(users, name).value.passwordHash)))
  {
    var s := SignUp(a, j, secret, users, name, password, salt, false);
    var account := User(name, a.hash(password, salt), None);
    assert s.state == users + [account];
    FindUserAppend(users, account, name);
    SignUpKeepsDigestsParsing(a, j, secret, users, name, password, salt, false);
    var found := FindUser(s.state, name);
    assert found.Some?;
    var i :| FirstNamed(s.state, name, i) && s.state[i] == found.value;
    forall k | FirstNamed(s.state, name, k) ensures k == i {
      FirstNamedUnique(s.state, name, i, k);
    }
  }

  /** A name does not identify one account: two sign-ups with
      the same name both hand out a token, and afterwards log-in with the
      second password fails (it is checked against the first account)
      unless the two passwords are equal. */
  lemma {:induction false} RepeatedSignUp(
    a: Argon2, j: JwtCodec, secret: string, users: seq<User>,
    name: string, first: string, second: string, salt1: string, salt2: string)
    requires Argon2Laws(a) && DigestsParse(a, users)
    requires FindUser(users, name).None?
    requires |first| >= MinPasswordLength && |second| >= MinPasswordLength
    ensures var s1 := SignUp(a, j, secret, users, name, first, salt1, false);
      var s2 := SignUp(a, j, secret, s1.state, name, second, salt2, false);
      && s1.reply.value.Ok? && s2.reply.value.Ok?
      && DigestsParse(a, s2.state)
      && (LogIn(a, j, secret, s2.state, name, second).value.Ok? <==> second == first)
  {
    var s1 := SignUp(a, j, secret, users, name, first, salt1, false);
    var s2 := SignUp(a, j, secret, s1.state, name, second, salt2, false);
    var firstAccount := User(name, a.hash(first, salt1), None);
    var secondAccount := User(name, a.hash(second, salt2), None);
    FindUserAppend(users, firstAccount, name);
    FindUserAppend(s1.state, secondAccount, name);
    assert FindUser(s2.state, name) == Some(firstAccount);
    SignUpKeepsDigestsParsing(a, j, secret, users, name, first, salt1, false);
    SignUpKeepsDigestsParsing(a, j, secret, s1.state, name, second, salt2, false);
    var i :| FirstNamed(s2.state, name, i) && s2.state[i] == firstAccount;
    forall k | FirstNamed(s2.state, name, k) ensures k == i {
      FirstNamedUnique(s2.state, name, i, k);
    }
  }

  /** A successful log-in means a stored user has that name and a digest
      the password verifies against. */
  lemma LogInGrantsOnlyStoredAccounts(
    a: Argon2, j: JwtCodec, secret: string, users: seq<User>, name: string, password: string)
    requires forall i | FirstNamed(users, name, i) :: a.parses(users[i].passwordHash)
    requires LogIn(a, j, secret, users, name, password).value.Ok?
    ensures exists u :: u in users && u.name == name && a.verify(password, u.passwordHash)
  {
  }

  /** Log-in with a name nobody has is refused with `InvalidAccount`. */
  lemma LogInUnknownName(
    a: Argon2, j: JwtCodec, secret: string, users: seq<User>, name: string, password: string)
    requires forall k | 0 <= k < |users| :: users[k].name != name
    ensures LogIn(a, j, secret, users, name, password) == Refused(InvalidAccount)
  {
  }

  /** Log-in with a password other than the one the account was created
      with is refused with the same `InvalidAccount`: the caller cannot
      tell a wrong password from an unknown name. */
  lemma LogInWrongPassword(
    a: Argon2, j: JwtCodec, secret: string, users: seq<User>,
    name: string, password: string, given: string, salt: string)
    requires Argon2Laws(a)
    requires FindUser(users, name).Some? && FindUser(users, name).value.passwordHash == a.hash(password, salt)
    requires given != password
    ensures forall i | FirstNamed(users, name, i) :: a.parses(users[i].passwordHash)
    ensures LogIn(a, j, secret, users, name, given) == Refused(InvalidAccount)
  {
  }
}
