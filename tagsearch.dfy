/** The two tag searches (`search_tag_with_exact`, `search_tag_with_prefix`)
    over the `tags` collection, as the database answers them. */
module TagSearch {
  import opened Outcomes
  import opened Records

  // ---- Exact search -----------------------------------------------------

  /** The first stored tag whose label is `t`: the database's `find_one`
      with an equality filter, which compares labels exactly. */
  function FindTag(tags: seq<Tag>, t: string): (found: Option<Tag>)
    ensures found.None? <==> Tag(t) !in tags
    ensures found.Some? ==> found.value == Tag(t)
  {
    if tags == [] then None
    else if tags[0].tag == t then Some(tags[0])
    else FindTag(tags[1..], t)
  }

  /** Exact search: a failed round-trip is a server error; otherwise the
      label of the tag found, which is `t` itself exactly when `t` is
      stored, and nothing when it is not. */
  function Exact(tags: seq<Tag>, t: string, lookupFails: bool): (r: Result<Option<string>, ServerFnError>)
    ensures r.Err? <==> lookupFails
    ensures r.Ok? ==> r.value == if Tag(t) in tags then Some(t) else None
  {
    if lookupFails then Err(ServerError(DbError))
    else match FindTag(tags, t)
      case Some(found) => Ok(Some(found.tag))
      case None => Ok(None)
  }

  // ---- Prefix search ----------------------------------------------------

  /** The characters that have a meaning of their own in a regular
      expression outside a character class. */
  const RegexMeta: set<char> := {'\\', '^', '$', '.', '|', '?', '*', '+', '(', ')', '[', ']', '{', '}'}

  /** `q` stands for itself when written into a regular expression. */
  predicate IsLiteral(q: string) {
    forall i | 0 <= i < |q| :: q[i] !in RegexMeta
  }

  /** Case folding by the `i` option, on the ASCII letters. */
  function Fold(c: char): char {
    if 'A' <= c <= 'Z' then (c as int + 32) as char else c
  }

  /** `s` starts with `q` when letters are compared without case: what the
      pattern `^q` with option `i` accepts when `q` is literal. */
  predicate StartsWithFolded(s: string, q: string) {
    |q| <= |s| && forall i | 0 <= i < |q| :: Fold(s[i]) == Fold(q[i])
  }

  /** The stored tags whose label starts with `q` case-insensitively, in
      store order. */
  function Matching(tags: seq<Tag>, q: string): (r: seq<Tag>)
    ensures |r| <= |tags|
    ensures forall x :: x in r <==> x in tags && StartsWithFolded(x.tag, q)
  {
    if tags == [] then []
    else if StartsWithFolded(tags[0].tag, q) then [tags[0]] + Matching(tags[1..], q)
    else Matching(tags[1..], q)
  }

  /** The number of results a cursor with `limit(amount)` hands out at
      most: none when `amount` is zero (no limit), and the magnitude of
      `amount` otherwise (a negative limit asks for one batch of that
      size). */
  function Limit(amount: i64): Option<nat> {
    if amount == 0 then None else Some(if amount < 0 then -(amount as int) else amount as int)
  }

  /** Prefix search: the matching tags in store order, cut off at the
      limit. */
  function Prefix(tags: seq<Tag>, q: string, amount: i64): (r: seq<Tag>)
    ensures r <= Matching(tags, q)
    ensures Limit(amount).Some? ==> |r| <= Limit(amount).value
    ensures |r| < |Matching(tags, q)| ==> Limit(amount) == Some(|r|)
    ensures forall x :: x in r ==> x in tags && StartsWithFolded(x.tag, q)
  {
    var all := Matching(tags, q);
    match Limit(amount)
    case None => all
    case Some(n) => if n < |all| then all[..n] else all
  }

  /** The labels of `ts`, in order. */
  function Texts(ts: seq<Tag>): seq<string> {
    seq(|ts|, k requires 0 <= k < |ts| => ts[k].tag)
  }

  // ---- Properties of the prefix search ------------------------------------

  /** Matching works tag by tag: the matches of two runs of tags are the
      matches of the first followed by those of the second, so results
      keep store order. */
  lemma {:induction false} MatchingAppend(a: seq<Tag>, b: seq<Tag>, q: string)
    ensures Matching(a + b, q) == Matching(a, q) + Matching(b, q)
  {
    if a == [] {
      assert a + b == b;
    } else {
      assert (a + b)[1..] == a[1..] + b;
      MatchingAppend(a[1..], b, q);
    }
  }

  /** The empty query matches every tag: `^` alone accepts every label, so
      an empty prefix returns the collection up to the limit. */
  lemma {:induction false} EmptyQueryMatchesAll(tags: seq<Tag>)
    ensures Matching(tags, []) == tags
  {
    if tags != [] {
      EmptyQueryMatchesAll(tags[1..]);
    }
  }

  /** A positive `amount` bounds the number of results by `amount`. */
  lemma PrefixBounded(tags: seq<Tag>, q: string, amount: i64)
    requires amount > 0
    ensures |Prefix(tags, q, amount)| <= amount
  {
  }

  /** Folding makes the search blind to the case of the query. */
  lemma {:induction false} MatchingIgnoresQueryCase(tags: seq<Tag>, q: string, q': string)
    requires |q| == |q'| && forall i | 0 <= i < |q| :: Fold(q[i]) == Fold(q'[i])
    ensures Matching(tags, q) == Matching(tags, q')
  {
    if tags != [] {
      assert StartsWithFolded(tags[0].tag, q) == StartsWithFolded(tags[0].tag, q');
      MatchingIgnoresQueryCase(tags[1..], q, q');
    }
  }

  /** With tags "vtuber", "vr" and "other", the query "v" and the query
      "V" both find "vtuber" and "vr", in that order. */
  lemma PrefixExample()
    ensures Prefix([Tag("vtuber"), Tag("vr"), Tag("other")], "v", 10) == [Tag("vtuber"), Tag("vr")]
    ensures Prefix([Tag("vtuber"), Tag("vr"), Tag("other")], "V", 10) == [Tag("vtuber"), Tag("vr")]
  {
    var tags := [Tag("vtuber"), Tag("vr"), Tag("other")];
    assert StartsWithFolded("vtuber", "v") && StartsWithFolded("vr", "v");
    assert Fold("other"[0]) != Fold("v"[0]);
    assert tags[1..] == [Tag("vr"), Tag("other")] && tags[2..] == [Tag("other")];
    assert Matching([Tag("other")], "v") == [];
    MatchingIgnoresQueryCase(tags, "v", "V");
  }
}
