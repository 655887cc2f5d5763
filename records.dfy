/** The documents kept in the database collections, the claim set carried
    inside a session token and the answers of the account functions. */
module Records {
  import opened Outcomes

  /** A document of the `tags` collection: one label. */
  datatype Tag = Tag(tag: string)

  /** A document of the `users` collection. `passwordHash` is the
      self-describing digest produced by the password hasher. */
  datatype User = User(name: string, passwordHash: string, icon: Option<string>)

  /** A document of the `posts` collection. `comment` holds
      (author, text) pairs; a new post starts without any. */
  datatype Post = Post(
    name: string,
    body: string,
    tag: seq<string>,
    title: string,
    comment: seq<(string, string)>,
    isAdvanced: bool)

  /** A signed 64-bit integer, the type of a token's expiry and of the
      result limit of a prefix search. */
  type i64 = x: int | -0x8000_0000_0000_0000 <= x < 0x8000_0000_0000_0000

  /** The claim set inside a session token: its subject and its expiry in
      seconds since the Unix epoch. */
  datatype Claims = Claims(sub: string, exp: i64)

  /** The fixed expiry written into every token: 2030-01-01 00:00 in Japan
      (1893423600 seconds since the epoch). */
  const Expiry: i64 := 1893423600

  /** Sign-up refuses passwords with fewer characters than this. */
  const MinPasswordLength: nat := 8

  /** The answers of sign-up and log-in that are not a token. */
  datatype LoginScreenState = TooShortPassword | NameExists | InvalidAccount

  /** The error a database round-trip reports. */
  datatype DbError = DbError

  /** The server-side failure of a server function, as its caller sees it. */
  datatype ServerFnError = ServerError(cause: DbError)

  /** The answer of sign-up and log-in: a server failure, or either a
      session token or the reason it was refused. */
  type AccountReply = Result<Result<string, LoginScreenState>, ServerFnError>

  /** A composed answer of sign-up or log-in that hands out `token`. */
  function Granted(token: string): AccountReply { Ok(Ok(token)) }

  /** A composed answer of sign-up or log-in that refuses with `why`. */
  function Refused(why: LoginScreenState): AccountReply { Ok(Err(why)) }
}
