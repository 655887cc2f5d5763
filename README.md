# Request-decision model of the biestar server functions

This project models the server functions of the biestar posting service
(`src/server.rs`): account sign-up and log-in, the issuing and checking of
session tokens (JSON Web Tokens), the creation of posts, and the two tag
searches used for autocompletion. It models the rules that decide what each
server function answers and what it writes. The rules are stated over
abstract collaborators, and their properties are proved in Dafny.

- The MongoDB collections `users`, `tags` and `posts` are sequences held by
  the class `Server.Store`, in store order. A `find_one` returns the first
  matching document in that order.
- Whether a database round-trip fails is decided by the environment. The
  server functions receive it as a boolean argument (`lookupFails`,
  `queryFails`), and a failed lookup is the explicit error `DbError`.
- The salt that `SaltString::generate(&mut OsRng)` draws is an argument of
  sign-up.
- Argon2 and the HS256 token codec are values holding their operations as
  functions (`Crypto.Argon2`, `Crypto.JwtCodec`). A law predicate states all
  that the server relies on. For the hasher: its digests are well formed, the
  hashed password verifies, and no other password does. For the token codec:
  decoding a token under the secret that signed it gives back its claims.
  `Store.Valid()` carries these laws. `Crypto.Argon2LawsSatisfiable` and
  `Crypto.JwtLawsSatisfiable` show the laws can be met, so they rule nothing
  out by contradiction.
- The signing secret is a constant of the store.
- The replies keep the source's nesting. The outer `Result` separates a server
  failure (`ServerFnError`) from the answer. The inner `Result` of sign-up and
  log-in carries a token or a `LoginScreenState`. That type is defined in a
  file that is not part of this model, so it is declared here with the three
  variants the server uses: `TooShortPassword`, `NameExists` and
  `InvalidAccount`.
- Each server function has a pure specification function (`Accounts.SignUp`,
  `Accounts.LogIn`, `TagSearch.Exact`, `TagSearch.Prefix`, `Posting.DoPost`).
  Each also has a method of `Server.Store` that performs the same steps on the
  store's fields and is proved to agree with the specification. Sign-up may
  write only `users` and post creation only `posts` (their `modifies`
  clauses). Log-in and the searches have no `modifies` clause and write
  nothing.
- Password length is `|password|`. A Dafny string is a sequence of Unicode
  scalar values, the same unit that Rust's `chars().count()` counts.

## Where the code departs from the intended behaviour

The model follows the code in each case:

- **Name uniqueness.** A name is meant to identify one account, and
  `NameExists` is meant to answer a sign-up with a taken name. The code
  answers `NameExists` only when the name lookup itself fails. A lookup that
  finds an account lets the sign-up through, and a second account with the
  same name is stored. Log-in checks the first account of a name, so the
  second account's password then does not log in unless the first account's
  digest accepts it. Under the idealised hasher, that means unless the two
  passwords are equal (`Accounts.SignUpAdmitsTakenName`,
  `Accounts.RepeatedSignUp`, `Accounts.SignUpThenLogIn`).
- **Empty prefix.** An empty prefix query is meant to return nothing. The
  pattern `^` accepts every label, so the code returns the stored tags up to
  the limit (`TagSearch.EmptyQueryMatchesAll`).
- **Exact search.** The exact search compares labels exactly, with case,
  while the prefix search ignores case.
- **Token expiry.** Every token carries the fixed expiry 1893423600.

## Model

| member | source | states |
|---|---|---|
| Tokens.MakeJwt | src/server.rs:111-119 | the token issued for a name decodes, under the same secret, to the claims `sub = name`, `exp = 1893423600` |
| Tokens.CheckJwt | src/server.rs:122-136 | on a token issued for some name, true exactly when that name is the one claimed |
| Tokens.CheckJwtAcceptsOwnToken | src/server.rs:122-136 | a token issued for a name passes the check for that name |
| Tokens.CheckJwtRejectsOtherSubject | src/server.rs:130-135 | a token issued for one name fails the check for every other name |
| Tokens.CheckJwtNamesOneSubject | src/server.rs:132-135 | a token passes the check for at most one name, whatever the codec |
| Crypto.Argon2LawsSatisfiable | src/server.rs:162-169 | some hasher meets the hasher laws the model assumes |
| Crypto.JwtLawsSatisfiable | src/server.rs:118 | some codec meets the round-trip law the model assumes |
| Accounts.FindUser | src/server.rs:182 | the lookup by name finds nothing exactly when no stored user has the name, and otherwise the first one that has it |
| Accounts.FindOne | src/server.rs:158 | the lookup by name in sign-up: a `DbError` exactly when the round-trip fails; otherwise nothing exactly when no stored user has the name, and else the user at the first position holding that name |
| Accounts.SignUp | src/server.rs:144-174 | fewer than 8 characters: `TooShortPassword` and no change; otherwise `NameExists` exactly when the lookup fails; a token exactly when the password is long enough and the lookup succeeds, with exactly one user appended (name, digest of the password under the salt, no icon), and the token decodes to `sub = name`, `exp = 1893423600`; the outer layer is never a server error |
| Accounts.LogIn | src/server.rs:177-192 | a token exactly when the first user with the name has a digest that verifies the password; every other outcome is `InvalidAccount`; the token decodes to `sub = name`, `exp = 1893423600`; requires the digest found to be well formed |
| Accounts.FindUserAppend | src/server.rs:157-172 | after one more user is stored, the lookup by name gives the same first match, or the new user when there was none |
| Accounts.SignUpKeepsDigestsParsing | src/server.rs:164-172 | sign-up only ever stores digests the hasher accepts as well formed |
| Accounts.SignUpAdmitsTakenName | src/server.rs:158-160 | when the name is already taken and the lookup succeeds, sign-up still hands out a token and two users then share the name |
| Accounts.SignUpThenLogIn | src/server.rs:157-191 | right after a successful sign-up, log-in with the same name and password gives the same reply exactly when no earlier user had the name or that user's digest accepts the password |
| Accounts.RepeatedSignUp | src/server.rs:153-191 | two sign-ups with one fresh name both succeed, and log-in with the second password then succeeds only if it equals the first |
| Accounts.LogInGrantsOnlyStoredAccounts | src/server.rs:181-189 | a granted log-in implies a stored user with that name whose digest verifies the password |
| Accounts.LogInUnknownName | src/server.rs:182-191 | log-in with a name no user has is answered `InvalidAccount` |
| Accounts.LogInWrongPassword | src/server.rs:184-191 | log-in with a password other than the account's is answered with the same `InvalidAccount` |
| TagSearch.FindTag | src/server.rs:197 | the exact lookup finds a tag exactly when the label is stored, and then that label |
| TagSearch.Exact | src/server.rs:195-199 | a server error exactly when the lookup fails; otherwise `Some(t)` when the label `t` is stored and `None` when not |
| TagSearch.Matching | src/server.rs:204 | the tags kept are exactly the stored ones whose label starts with the query, ignoring the case of ASCII letters |
| TagSearch.Prefix | src/server.rs:204 | the result is a prefix of the matches in store order, shorter than the matches only when the limit cut it; the limit set by `.limit(amount)` is none when `amount` is 0 and otherwise the magnitude of `amount`, and the result is never longer than it |
| TagSearch.MatchingAppend | src/server.rs:204 | matches of two runs of tags are the matches of the first followed by those of the second: results keep store order |
| TagSearch.EmptyQueryMatchesAll | src/server.rs:204 | the empty query matches every stored tag |
| TagSearch.PrefixBounded | src/server.rs:204 | a positive amount bounds the number of results by the amount |
| TagSearch.MatchingIgnoresQueryCase | src/server.rs:204 | two queries that differ only in letter case match the same tags |
| TagSearch.PrefixExample | src/server.rs:202-209 | with tags "vtuber", "vr", "other", both "v" and "V" find "vtuber" then "vr" |
| Posting.DoPost | src/server.rs:213-221 | `Ok` exactly when the token decodes to the claimed author as subject, with exactly one post appended (author, body, tags, title, flag, no comments); otherwise `Refuse` and nothing written; never a server error |
| Posting.ForeignTokenRefused | src/server.rs:213-216 | a post with a token issued to someone else is refused and writes nothing |
| Posting.SignUpThenPost | src/server.rs:213-220 | a post made with the token a sign-up handed out is accepted, and the posts are then the old ones plus exactly the new post, under the new name with no comments |
| Server.Store.SignUp | src/server.rs:144-174 | writes only `users`, agreeing with `Accounts.SignUp` on the reply and on the new collection, and keeps every stored digest well formed |
| Server.Store.LogIn | src/server.rs:177-192 | changes nothing and answers as `Accounts.LogIn` |
| Server.Store.SearchTagWithExact | src/server.rs:195-199 | changes nothing; answers as `TagSearch.Exact`, and `Some(t)` exactly when the label is stored |
| Server.Store.SearchTagWithPrefix | src/server.rs:202-210 | changes nothing; a server error exactly when the query fails; otherwise the labels of `TagSearch.Prefix` in cursor order, at most `amount` of them for a positive amount, each stored and starting with the query without regard to case |
| Server.Store.DoPost | src/server.rs:213-221 | writes only `posts`, agreeing with `Posting.DoPost` on the reply and on the new collection |
| Server.SignUpAndPost | src/server.rs:144-221 | a new account signs up and gets a token whose claims are `sub = "ruby"`, `exp = 1893423600`; a post made with that token is accepted; `users` is then the old collection plus exactly the new account (name, digest of the password, no icon), and `posts` the old collection plus exactly the new post, by that account, with no comments; logging in again returns the same reply as the sign-up |

## Left out

- The user interface (`src/app.rs`, `src/main.rs`): it is presentation only.
- The one-time initialisation of the database handle, the configuration
  document and the token keys (`OnceCell`, `LazyLock`), and the file read of
  the connection string. The store is built once, with its secret and
  collaborators, by the `Server.Store` constructor. The `password_salt` field
  of the configuration is never used by the server functions.
- Argon2 internals, salt generation and HS256 signing: foreign cryptography,
  represented by the law predicates only.
- Crypto.Argon2Laws: "no other password verifies" idealises a hash that is
  collision-resistant with overwhelming probability.
- Expiry checking against the clock (done by the token validation): the model
  has no clock and treats every expiry as in the future.
- MongoDB itself: store order stands for the natural order of the
  collections, which MongoDB does not promise.
- The race between sign-up's lookup and insert under concurrent requests: the
  model is sequential.
- Panics from `.unwrap()`. None of these is modelled as an outcome. A failed
  insert, a failed hash and a failed token encoding are taken never to
  happen. An unparsable stored digest is excluded by the precondition of
  `Accounts.LogIn`, which `Store.Valid()` guarantees. A missing tag list in
  an accepted post is excluded by the precondition of `Posting.DoPost`. A
  failed cursor item in the prefix search is taken never to happen.
- Accounts.LogIn: a failed name lookup panics at `unwrap` in `log_in`, so the
  model's log-in has no failure argument and always receives the
  database's answer.
- Server.Store.SearchTagWithPrefix: requires a query without regular
  expression metacharacters, because only literal prefixes are modelled.
- TagSearch.Matching: case folding (`TagSearch.Fold`, `TagSearch.StartsWithFolded`)
  covers the ASCII letters only, not Unicode case folding, so the search
  and the `Server.Store.SearchTagWithPrefix` built on it ignore case only
  for those letters.
- TagSearch.Prefix: a negative limit is taken as its magnitude, but the
  single batch the server then sends is assumed to hold all of those
  results.
- Logging (`log!`).
