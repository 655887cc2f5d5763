/** The server: the three collections it writes, the signing secret and
    the two cryptographic collaborators, and one method per server
    function. Each method does what the source does step by step and is
    proved to agree with the function that specifies it. Whether a
    database round-trip fails, and the salt the random generator draws,
    are decided by the environment and come in as arguments. */
module Server {
  import opened Outcomes
  import opened Records
  import opened Crypto
  import opened Tokens
  import Accounts
  import TagSearch
  import Posting

  class Store {
    /** The `users`, `tags` and `posts` collections, in store order. */
    var users: seq<User>
    var tags: seq<Tag>
    var posts: seq<Post>

    /** The token-signing secret, read once from the configuration. */
    const secret: string
    /** The password hasher and the token codec. */
    const argon2: Argon2
    const jwt: JwtCodec

    /** The collaborators obey their laws, and every stored digest is well
        formed, so that log-in never meets one it cannot parse. */
    ghost predicate Valid()
      reads this
    {
      Argon2Laws(argon2) && JwtLaws(jwt) && DigestsParse(argon2, users)
    }

    constructor (secret: string, argon2: Argon2, jwt: JwtCodec,
                 users: seq<User>, tags: seq<Tag>, posts: seq<Post>)
      requires Argon2Laws(argon2) && JwtLaws(jwt) && DigestsParse(argon2, users)
      ensures Valid()
      ensures this.secret == secret && this.argon2 == argon2 && this.jwt == jwt
      ensures this.users == users && this.tags == tags && this.posts == posts
    {
      this.secret := secret;
      this.argon2 := argon2;
      this.jwt := jwt;
      this.users := users;
      this.tags := tags;
      this.posts := posts;
    }

    /** `sign_up`: writes only `users`, as Accounts.SignUp says. */
    method SignUp(name: string, password: string, salt: string, lookupFails: bool)
      returns (r: AccountReply)
      requires Valid()
      modifies this`users
      ensures Valid()
      ensures Step(r, users) == Accounts.SignUp(argon2, jwt, secret, old(users), name, password, salt, lookupFails)
    {
      if |password| < MinPasswordLength {
        return Refused(TooShortPassword);
      }
      var lookup := Accounts.FindOne(users, name, lookupFails);
      if lookup.Err? {
        return Refused(NameExists);
      }
      var account := User(name, argon2.hash(password, salt), None);
      users := users + [account];
      r := Granted(MakeJwt(jwt, secret, name));
    }

    /** `log_in`: writes nothing, and answers as Accounts.LogIn says. */
    method LogIn(name: string, password: string) returns (r: AccountReply)
      requires Valid()
      ensures r == Accounts.LogIn(argon2, jwt, secret, users, name, password)
    {
      var found := Accounts.FindUser(users, name);
      if found.Some? && argon2.verify(password, found.value.passwordHash) {
        return Granted(MakeJwt(jwt, secret, name));
      }
      r := Refused(InvalidAccount);
    }

    /** `search_tag_with_exact`: writes nothing; `Some(t)` exactly when the
        label `t` is stored. */
    method SearchTagWithExact(t: string, lookupFails: bool) returns (r: Result<Option<string>, ServerFnError>)
      ensures r == TagSearch.Exact(tags, t, lookupFails)
      ensures r.Ok? ==> (r.value == Some(t) <==> Tag(t) in tags)
    {
      if lookupFails {
        return Err(ServerError(DbError));
      }
      var found := TagSearch.FindTag(tags, t);
      r := Ok(if found.Some? then Some(found.value.tag) else None);
    }

    /** `search_tag_with_prefix`: the cursor of the query hands out the
        matching tags up to the limit, and the loop collects their labels
        in the order the cursor gives them. Only literal queries are
        modelled. */
    method SearchTagWithPrefix(q: string, amount: i64, queryFails: bool) returns (r: Result<seq<string>, ServerFnError>)
      requires TagSearch.IsLiteral(q)
      ensures r.Err? <==> queryFails
      ensures r.Ok? ==> r.value == TagSearch.Texts(TagSearch.Prefix(tags, q, amount))
      ensures r.Ok? && amount > 0 ==> |r.value| <= amount
      ensures r.Ok? ==> forall s | s in r.value :: Tag(s) in tags && TagSearch.StartsWithFolded(s, q)
    {
      if queryFails {
        return Err(ServerError(DbError));
      }
      var cursor := TagSearch.Prefix(tags, q, amount);
      var out: seq<string> := [];
      var i := 0;
      while i < |cursor|
        invariant 0 <= i <= |cursor|
        invariant out == TagSearch.Texts(cursor[..i])
      {
        out := out + [cursor[i].tag];
        i := i + 1;
      }
      assert cursor[..i] == cursor;
      forall s | s in out ensures Tag(s) in tags && TagSearch.StartsWithFolded(s, q) {
        var k :| 0 <= k < |out| && out[k] == s;
        assert cursor[k] in cursor;
      }
      r := Ok(out);
    }

    /** `do_post`: writes only `posts`, as Posting.DoPost says. */
    method DoPost(name: string, token: string, title: string, body: string,
                  tag: Option<seq<string>>, isAdvanced: bool)
      returns (r: Posting.PostReply)
      requires Valid()
      requires CheckJwt(jwt, secret, name, token) ==> tag.Some?
      modifies this`posts
      ensures Valid()
      ensures Step(r, posts) == Posting.DoPost(jwt, secret, old(posts), name, token, title, body, tag, isAdvanced)
    {
      if !CheckJwt(jwt, secret, name, token) {
        return Result.Ok(Posting.Refuse);
      }
      var post := Post(name, body, tag.value, title, [], isAdvanced);
      posts := posts + [post];
      r := Result.Ok(Posting.PostResult.Ok);
    }
  }

  /** A client of the store: a new account signs up and posts with the
      token it received. The post is accepted and stored under the
      account's name, with no comments, and a later log-in with the same
      password hands out the same token. */
  method SignUpAndPost(store: Store, salt: string)
    returns (signedUp: AccountReply, posted: Posting.PostReply, again: AccountReply)
    requires store.Valid()
    requires Accounts.FindUser(store.users, "ruby").None?
    modifies store`users, store`posts
    ensures store.Valid()
    ensures signedUp.Ok? && signedUp.value.Ok?
    ensures store.jwt.decode(signedUp.value.value, store.secret) == Some(Claims("ruby", Expiry))
    ensures posted == Result.Ok(Posting.PostResult.Ok)
    ensures again == signedUp
    ensures store.users == old(store.users) + [User("ruby", store.argon2.hash("passw0rd", salt), None)]
    ensures store.posts == old(store.posts) + [Post("ruby", "body", ["tag1"], "title", [], false)]
  {
    ghost var before := store.users;
    signedUp := store.SignUp("ruby", "passw0rd", salt, false);
    var token := signedUp.value.value;
    CheckJwtAcceptsOwnToken(store.jwt, store.secret, "ruby");
    posted := store.DoPost("ruby", token, "title", "body", Some(["tag1"]), false);
    Accounts.SignUpThenLogIn(store.argon2, store.jwt, store.secret, before, "ruby", "passw0rd", salt);
    again := store.LogIn("ruby", "passw0rd");
  }
}
