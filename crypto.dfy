/** The two cryptographic collaborators of the server, kept abstract: the
    Argon2 password hasher and the HS256 JSON Web Token codec. Each is a
    value holding its operations as functions, and a law predicate states
    all that the server relies on. The server model only ever uses a
    collaborator together with its laws. The two witness lemmas at the end
    show the laws are not contradictory. */
module Crypto {
  import opened Outcomes
  import opened Records

  /** The password hasher. `hash(password, salt)` is the digest string of
      `password` under `salt`; `parses(digest)` says the digest string is
      well formed; `verify(password, digest)` says the password matches. */
  datatype Argon2 = Argon2(
    hash: (string, string) -> string,
    parses: string -> bool,
    verify: (string, string) -> bool)

  /** What the server relies on from the hasher: its digests are well
      formed, the hashed password verifies against them, and (idealising a
      collision-resistant hash) no other password does. */
  ghost predicate Argon2Laws(a: Argon2) {
    && (forall p, s :: a.parses(a.hash(p, s)))
    && (forall p, s :: a.verify(p, a.hash(p, s)))
    && (forall p, q, s :: a.verify(q, a.hash(p, s)) ==> q == p)
  }

  /** The token codec. `encode(claims, secret)` signs a claim set;
      `decode(token, secret)` checks the signature and shape and gives the
      claims back, or `None`. */
  datatype JwtCodec = JwtCodec(
    encode: (Claims, string) -> string,
    decode: (string, string) -> Option<Claims>)

  /** What the server relies on from the codec: a token signed with a
      secret decodes, under the same secret, to the claims it was made
      from. Expiry is not checked: there is no clock in the model. */
  ghost predicate JwtLaws(j: JwtCodec) {
    forall c, k :: j.decode(j.encode(c, k), k) == Some(c)
  }

  /** Every stored digest is one the hasher accepts as well formed. */
  ghost predicate DigestsParse(a: Argon2, users: seq<User>) {
    forall i | 0 <= i < |users| :: a.parses(users[i].passwordHash)
  }

  // ---- The laws can be met ----------------------------------------------

  /** A hasher that keeps the password itself is one that meets the laws. */
  lemma Argon2LawsSatisfiable()
    ensures exists a :: Argon2Laws(a)
  {
    var a := Argon2((p: string, s: string) => p, (d: string) => true, (q: string, d: string) => q == d);
    assert Argon2Laws(a);
  }

  /** `n` copies of the character '1'. */
  function Ones(n: nat): (r: string)
    ensures |r| == n
  {
    if n == 0 then [] else ['1'] + Ones(n - 1)
  }

  /** The number of '1' characters `t` starts with. */
  function LeadingOnes(t: string): (n: nat)
    ensures n <= |t|
  {
    if t != [] && t[0] == '1' then 1 + LeadingOnes(t[1..]) else 0
  }

  lemma {:induction false} LeadingOnesOfOnes(n: nat, rest: string)
    requires rest == [] || rest[0] != '1'
    ensures LeadingOnes(Ones(n) + rest) == n
  {
    if n > 0 {
      assert (Ones(n) + rest)[1..] == Ones(n - 1) + rest;
      LeadingOnesOfOnes(n - 1, rest);
    }
  }

  /** A toy claim encoding: the sign of the expiry, the expiry in unary,
      a dot, then the subject. */
  function UnaryEncode(c: Claims): string {
    var n: nat := if c.exp < 0 then -(c.exp as int) else c.exp as int;
    [if c.exp < 0 then '-' else '+'] + Ones(n) + ['.'] + c.sub
  }

  function UnaryDecode(t: string): Option<Claims> {
    if t == [] then None
    else
      var n := LeadingOnes(t[1..]);
      var e: int := if t[0] == '-' then 0 - n as int else n;
      if 1 + n < |t| && t[1 + n] == '.' && -0x8000_0000_0000_0000 <= e < 0x8000_0000_0000_0000
      then Some(Claims(t[2 + n..], e))
      else None
  }

  lemma UnaryRoundTrip(c: Claims)
    ensures UnaryDecode(UnaryEncode(c)) == Some(c)
  {
    var n: nat := if c.exp < 0 then -(c.exp as int) else c.exp as int;
    var t := UnaryEncode(c);
    assert t[1..] == Ones(n) + (['.'] + c.sub);
    LeadingOnesOfOnes(n, ['.'] + c.sub);
    assert t[1 + n] == '.';
    assert t[2 + n..] == c.sub;
  }

  /** The unary codec, which ignores the secret, is one that meets the law. */
  lemma JwtLawsSatisfiable()
    ensures exists j :: JwtLaws(j)
  {
    var j := JwtCodec((c: Claims, k: string) => UnaryEncode(c), (t: string, k: string) => UnaryDecode(t));
    forall c, k ensures j.decode(j.encode(c, k), k) == Some(c) {
      UnaryRoundTrip(c);
    }
    assert JwtLaws(j);
  }
}
