/** Creating a post (`do_post`) over the `posts` collection: the token
    presented with the post is checked against the claimed author before
    anything is written. */
module Posting {
  import opened Outcomes
  import opened Records
  import opened Crypto
  import opened Tokens
  import Accounts

  /** The answer of `do_post`. */
  datatype PostResult = Ok | Refuse

  /** The reply of `do_post`: a server failure, or the answer. */
  type PostReply = Result<PostResult, ServerFnError>

  /** Post creation. A token that does not decode, or whose subject is not
      `name`, is answered `Refuse` and nothing is written. Otherwise one
      post is appended, carrying the author, title, body, tag list and
      experience flag given and no comments. The tag list must be present
      once the token passes (it is unwrapped). */
  function DoPost(
    j: JwtCodec, secret: string, posts: seq<Post>,
    name: string, token: string, title: string, body: string,
    tag: Option<seq<string>>, isAdvanced: bool
  ): (s: Step<PostReply, seq<Post>>)
    requires CheckJwt(j, secret, name, token) ==> tag.Some?
    ensures s.reply.Ok?
    ensures s.reply.value == PostResult.Ok <==>
      j.decode(token, secret).Some? && j.decode(token, secret).value.sub == name
    ensures s.reply.value == Refuse ==> s.state == posts
    ensures s.reply.value == PostResult.Ok ==>
      s.state == posts + [Post(name, body, tag.value, title, [], isAdvanced)]
  {
    if !CheckJwt(j, secret, name, token) then Step(Result.Ok(Refuse), posts)
    else
      var post := Post(name, body, tag.value, title, [], isAdvanced);
      Step(Result.Ok(PostResult.Ok), posts + [post])
  }

  /** A token issued to someone else is refused, and no post is written. */
  lemma ForeignTokenRefused(
    j: JwtCodec, secret: string, posts: seq<Post>,
    name: string, other: string, title: string, body: string,
    tag: Option<seq<string>>, isAdvanced: bool)
    requires JwtLaws(j)
    requires other != name
    ensures DoPost(j, secret, posts, name, MakeJwt(j, secret, other), title, body, tag, isAdvanced)
      == Step(Result.Ok(Refuse), posts)
  {
  }

  /** Sign up, then post with the token the sign-up handed out: the post
      is accepted and stored with the new account's name as its author
      and no comments. */
  lemma SignUpThenPost(
    a: Argon2, j: JwtCodec, secret: string, users: seq<User>, posts: seq<Post>,
    name: string, password: string, salt: string,
    title: string, body: string, tags: seq<string>, isAdvanced: bool)
    requires JwtLaws(j)
    requires |password| >= MinPasswordLength
    ensures var signUp := Accounts.SignUp(a, j, secret, users, name, password, salt, false);
      && signUp.reply.value.Ok?
      && var post := DoPost(j, secret, posts, name, signUp.reply.value.value, title, body, Some(tags), isAdvanced);
      && post.reply == Result.Ok(PostResult.Ok)
      && post.state == posts + [Post(name, body, tags, title, [], isAdvanced)]
  {
  }
}
