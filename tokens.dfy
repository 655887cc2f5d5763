/** Issuing and checking session tokens (`make_jwt` and `check_jwt`). The
    signing secret is passed in; the server keeps it as a constant. */
module Tokens {
  import opened Outcomes
  import opened Records
  import opened Crypto

  /** The token handed out on a successful sign-up or log-in: the claims
      `sub = name`, `exp = Expiry`, signed with `secret`. */
  function MakeJwt(j: JwtCodec, secret: string, name: string): (token: string)
    ensures JwtLaws(j) ==> j.decode(token, secret) == Some(Claims(name, Expiry))
  {
    j.encode(Claims(name, Expiry), secret)
  }

  /** Whether `token` carries a valid signature under `secret` and names
      `name` as its subject. A token that does not decode is refused. */
  function CheckJwt(j: JwtCodec, secret: string, name: string, token: string): (ok: bool)
    ensures JwtLaws(j) ==> forall n :: token == MakeJwt(j, secret, n) ==> (ok <==> n == name)
  {
    match j.decode(token, secret)
    case Some(claims) => claims.sub == name
    case None => false
  }

  /** A token issued for `name` passes the check for `name`. */
  lemma CheckJwtAcceptsOwnToken(j: JwtCodec, secret: string, name: string)
    requires JwtLaws(j)
    ensures CheckJwt(j, secret, name, MakeJwt(j, secret, name))
  {
  }

  /** A token issued for `name` fails the check for every other name. */
  lemma CheckJwtRejectsOtherSubject(j: JwtCodec, secret: string, name: string, other: string)
    requires JwtLaws(j)
    requires other != name
    ensures !CheckJwt(j, secret, other, MakeJwt(j, secret, name))
  {
  }

  /** A token passes the check for at most one name: the subject it carries. */
  lemma CheckJwtNamesOneSubject(j: JwtCodec, secret: string, token: string, name: string, other: string)
    requires CheckJwt(j, secret, name, token) && CheckJwt(j, secret, other, token)
    ensures name == other
  {
  }
}
