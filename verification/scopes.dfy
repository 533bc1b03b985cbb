/** The default scope list and its wire form: the scope request parameter is
    the list joined with single spaces (strings.Join), which a server splits
    on spaces again (section 3.3 of RFC 6749). */
module Scopes {

  /** providers.go:3.  The provider package's own DefaultScopes is not part of
      this model; both packages are taken to use this list. */
  const DefaultScopes: seq<string> := ["openid", "profile", "offline_access"]

  /** strings.Join(elems, sep). */
  function Join(elems: seq<string>, sep: string): (r: string)
    decreases |elems|
  {
    if |elems| == 0 then ""
    else if |elems| == 1 then elems[0]
    else elems[0] + sep + Join(elems[1..], sep)
  }

  /** Index of the first space in `s`, or |s| when there is none. */
  function FirstSpace(s: string): (i: nat)
    ensures i <= |s|
    ensures forall j :: 0 <= j < i ==> s[j] != ' '
    ensures i < |s| ==> s[i] == ' '
  {
    if |s| == 0 then 0
    else if s[0] == ' ' then 0
    else 1 + FirstSpace(s[1..])
  }

  /** strings.Split(s, " "): the reference reading of a space-joined value. */
  function Split(s: string): (r: seq<string>)
    ensures |r| >= 1
    decreases |s|
  {
    var i := FirstSpace(s);
    if i == |s| then [s] else [s[..i]] + Split(s[i + 1..])
  }

  predicate NoSpace(w: string)
  {
    forall j :: 0 <= j < |w| ==> w[j] != ' '
  }

  lemma FirstSpaceAfterWord(w: string, rest: string)
    requires NoSpace(w)
    ensures FirstSpace(w + " " + rest) == |w|
  {
    var s := w + " " + rest;
    assert forall j :: 0 <= j < |w| ==> s[j] == w[j];
    assert s[|w|] == ' ';
  }

  /** Splitting a word followed by a space peels off that word. */
  lemma SplitAfterWord(w: string, rest: string)
    requires NoSpace(w)
    ensures Split(w + " " + rest) == [w] + Split(rest)
  {
    var s := w + " " + rest;
    FirstSpaceAfterWord(w, rest);
    assert s[..|w|] == w;
    assert s[|w| + 1..] == rest;
  }

  lemma SplitWord(w: string)
    requires NoSpace(w)
    ensures Split(w) == [w]
  {
  }

  /** A scope list whose joined form splits back unambiguously. */
  predicate WireSafe(elems: seq<string>)
  {
    |elems| >= 1 && forall k :: 0 <= k < |elems| ==> NoSpace(elems[k])
  }

  /** Splitting the joined scope list on spaces gives the list back, as long
      as no scope itself holds a space. */
  lemma {:induction false} SplitJoin(elems: seq<string>)
    requires |elems| >= 1
    requires forall k :: 0 <= k < |elems| ==> NoSpace(elems[k])
    ensures Split(Join(elems, " ")) == elems
    decreases |elems|
  {
    if |elems| == 1 {
      SplitWord(elems[0]);
    } else {
      var w := elems[0];
      var rest := Join(elems[1..], " ");
      assert Join(elems, " ") == w + " " + rest;
      SplitAfterWord(w, rest);
      SplitJoin(elems[1..]);
      assert elems == [w] + elems[1..];
    }
  }

  /** The default scopes go on the wire as one space-separated value. */
  lemma DefaultScopesJoined()
    ensures Join(DefaultScopes, " ") == "openid profile offline_access"
  {
    var tail := ["profile", "offline_access"];
    assert DefaultScopes[1..] == tail && tail[1..] == ["offline_access"];
    assert Join(tail, " ") == "profile" + " " + "offline_access";
    JoinedTail();
    JoinedHead();
  }

  lemma JoinedTail()
    ensures "profile" + " " + "offline_access" == "profile offline_access"
  {
  }

  lemma JoinedHead()
    ensures "openid" + " " + "profile offline_access" == "openid profile offline_access"
  {
  }

  /** ... and the server reads the same three scopes back from it. */
  lemma DefaultScopesRoundTrip()
    ensures Split(Join(DefaultScopes, " ")) == DefaultScopes
  {
    forall k | 0 <= k < |DefaultScopes|
      ensures NoSpace(DefaultScopes[k])
    {
      var w := DefaultScopes[k];
      assert w == "openid" || w == "profile" || w == "offline_access";
    }
    SplitJoin(DefaultScopes);
  }
}
