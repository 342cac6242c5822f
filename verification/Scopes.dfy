/**
 API key scopes: the comma separated form of auth/apikey_store.go and the checks of auth/apikey.go that
 read the scopes back.
 */
module Scopes {
  import opened Common

  const COMMA := ','

  /** What joinScopes builds. */
  function Joined(scopes: seq<string>): string {
    if scopes == [] then ""
    else if |scopes| == 1 then scopes[0]
    else Joined(Front(scopes)) + [COMMA] + Last(scopes)
  }

  /** The loop state of splitScopes after reading `s`. */
  datatype Cut = Cut(done: seq<string>, current: string)

  /** Append, dropping the empty scope. */
  function Keep(done: seq<string>, current: string): seq<string> {
    if current == "" then done else done + [current]
  }

  function CutAt(s: string): Cut {
    if s == "" then Cut([], "")
    else
      var c := CutAt(Front(s));
      if Last(s) == COMMA then Cut(Keep(c.done, c.current), "") else c.(current := c.current + [Last(s)])
  }

  function Split(s: string): seq<string> {
    Keep(CutAt(s).done, CutAt(s).current)
  }

  method JoinScopes(scopes: seq<string>) returns (result: string)
    ensures result == Joined(scopes)
  {
    result := "";
    var i := 0;
    while i < |scopes|
      invariant 0 <= i <= |scopes| && result == Joined(scopes[..i])
    {
      if i > 0 {
        result := result + [COMMA];
      }
      result := result + scopes[i];
      assert Front(scopes[..i + 1]) == scopes[..i];
      i := i + 1;
    }
    assert scopes[..|scopes|] == scopes;
  }

  method SplitScopes(s: string) returns (scopes: seq<string>)
    ensures scopes == Split(s)
  {
    if s == "" {
      return [];
    }
    scopes := [];
    var current := "";
    var i := 0;
    while i < |s|
      invariant 0 <= i <= |s| && CutAt(s[..i]) == Cut(scopes, current)
    {
      assert Front(s[..i + 1]) == s[..i];
      if s[i] == COMMA {
        if current != "" {
          scopes := scopes + [current];
        }
        current := "";
      } else {
        current := current + [s[i]];
      }
      i := i + 1;
    }
    assert s[..|s|] == s;
    if current != "" {
      scopes := scopes + [current];
    }
  }

  // ----- the round trip

  predicate CommaFree(s: string) {
    COMMA !in s
  }

  /** A scope that storage can represent. */
  predicate Plain(s: string) {
    s != "" && CommaFree(s)
  }

  predicate AllPlain(scopes: seq<string>) {
    forall i | 0 <= i < |scopes| :: Plain(scopes[i])
  }

  /** The pieces between the commas of all scopes, in order. */
  function Pieces(scopes: seq<string>): seq<string> {
    if scopes == [] then [] else Pieces(Front(scopes)) + Split(Last(scopes))
  }

  /** After a comma, reading goes on as from the start. */
  lemma {:induction false} CutAfterComma(s: string, t: string)
    requires CutAt(s).current == ""
    ensures CutAt(s + t) == Cut(CutAt(s).done + CutAt(t).done, CutAt(t).current)
  {
    if t == "" {
      assert s + t == s;
    } else {
      CutAfterComma(s, Front(t));
      assert Front(s + t) == s + Front(t);
    }
  }

  /** splitScopes cuts a joined list into the pieces of its scopes, whatever they contain. */
  lemma {:induction false} JoinThenSplit(scopes: seq<string>)
    ensures Split(Joined(scopes)) == Pieces(scopes)
  {
    if |scopes| == 1 {
      assert Pieces(Front(scopes)) == [];
    } else if |scopes| > 1 {
      var f := Joined(Front(scopes));
      JoinThenSplit(Front(scopes));
      var g := f + [COMMA];
      assert Front(g) == f && Last(g) == COMMA;
      CutAfterComma(g, Last(scopes));
    }
  }

  lemma {:induction false} CutIsClean(s: string)
    ensures AllPlain(CutAt(s).done) && CommaFree(CutAt(s).current)
  {
    if s != "" {
      CutIsClean(Front(s));
    }
  }

  lemma {:induction false} CutPlain(s: string)
    requires CommaFree(s)
    ensures CutAt(s) == Cut([], s)
  {
    if s != "" {
      assert Last(s) in s;
      CutPlain(Front(s));
      FrontLast(s);
    }
  }

  lemma {:induction false} PiecesOfPlain(scopes: seq<string>)
    requires AllPlain(scopes)
    ensures Pieces(scopes) == scopes
  {
    if scopes != [] {
      PiecesOfPlain(Front(scopes));
      CutPlain(Last(scopes));
      FrontLast(scopes);
    }
  }

  /** A list survives storage unchanged exactly when no scope is empty and none contains a comma. */
  lemma RoundTripExactly(scopes: seq<string>)
    ensures Split(Joined(scopes)) == scopes <==> AllPlain(scopes)
  {
    CutIsClean(Joined(scopes));
    if AllPlain(scopes) {
      JoinThenSplit(scopes);
      PiecesOfPlain(scopes);
    }
  }

  /** What was read back from any stored text survives being stored again. */
  lemma SplitJoinSplit(s: string)
    ensures Split(Joined(Split(s))) == Split(s)
  {
    CutIsClean(s);
    RoundTripExactly(Split(s));
  }

  // ----- the observers

  predicate EndsWith(s: string, suffix: string) {
    |suffix| <= |s| && s[|s| - |suffix|..] == suffix
  }

  /** One scope grants the required one: exactly, as "*", or as a "prefix:*" wildcard. */
  predicate Grants(scope: string, required: string) {
    || scope == required
    || scope == "*"
    || (EndsWith(scope, ":*") && scope[..|scope| - 1] <= required)
  }

  predicate HasScope(scopes: seq<string>, required: string) {
    exists i | 0 <= i < |scopes| :: Grants(scopes[i], required)
  }

  predicate HasAnyScope(scopes: seq<string>, required: seq<string>) {
    exists i | 0 <= i < |required| :: HasScope(scopes, required[i])
  }

  /** What a scope grants grants no more than the scope itself, wildcards included. */
  lemma GrantsTransitive(a: string, b: string, c: string)
    requires Grants(a, b) && Grants(b, c)
    ensures Grants(a, c)
  {
    if a != b && b != c && a != "*" {
      var p := a[..|a| - 1];
      assert Last(p) == a[|a| - 2] == a[|a| - 2..][0] == ':';
      assert b[|p| - 1] == ':';
      assert b != "*";
      assert Last(b) == b[|b| - 2..][1] == '*';
      assert p <= b[..|b| - 1] <= c;
    }
  }

  /** A wildcard grants itself and whatever starts with its prefix, colon included; "*" grants everything; any
      other scope grants itself only. */
  lemma GrantsExactly(scope: string, prefix: string, required: string)
    ensures Grants(prefix + ":*", required) <==> required == prefix + ":*" || prefix + ":" <= required
    ensures Grants("*", required)
    ensures scope != "*" && (forall p: string :: scope != p + ":*") ==> (Grants(scope, required) <==> required == scope)
  {
    var w := prefix + ":*";
    assert w[|w| - 2..] == ":*" && w[..|w| - 1] == prefix + ":";
    if EndsWith(scope, ":*") {
      assert scope == scope[..|scope| - 2] + ":*";
    }
  }

  lemma HasScopeThrough(scopes: seq<string>, x: string, required: string)
    requires HasScope(scopes, x) && Grants(x, required)
    ensures HasScope(scopes, required)
  {
    var i :| 0 <= i < |scopes| && Grants(scopes[i], x);
    GrantsTransitive(scopes[i], x, required);
  }

  /** One list may do no more than another exactly when the other grants each of its scopes. */
  lemma GrantsNoMore(a: seq<string>, b: seq<string>)
    ensures (forall r | HasScope(a, r) :: HasScope(b, r)) <==> forall i | 0 <= i < |a| :: HasScope(b, a[i])
  {
    if forall i | 0 <= i < |a| :: HasScope(b, a[i]) {
      forall r | HasScope(a, r) ensures HasScope(b, r) {
        var i :| 0 <= i < |a| && Grants(a[i], r);
        HasScopeThrough(b, a[i], r);
      }
    }
    forall i | 0 <= i < |a| ensures HasScope(a, a[i]) {
      assert Grants(a[i], a[i]);
    }
  }

  function Stored(scopes: seq<string>): seq<string> {
    Split(Joined(scopes))
  }

  lemma {:induction false} PieceOfSome(scopes: seq<string>, x: string)
    ensures x in Pieces(scopes) <==> exists i | 0 <= i < |scopes| :: x in Split(scopes[i])
  {
    if scopes != [] {
      PieceOfSome(Front(scopes), x);
      assert scopes[|scopes| - 1] == Last(scopes);
      if i :| 0 <= i < |scopes| && x in Split(scopes[i]) {
        assert i < |scopes| - 1 ==> Front(scopes)[i] == scopes[i];
      }
    }
  }

  /** Every piece between the commas of a scope is granted by the list as it was given. */
  predicate PiecesGranted(scopes: seq<string>) {
    forall i | 0 <= i < |scopes| :: forall x | x in Split(scopes[i]) :: HasScope(scopes, x)
  }

  lemma StoredPieces(scopes: seq<string>)
    ensures PiecesGranted(scopes) <==> forall x | x in Stored(scopes) :: HasScope(scopes, x)
  {
    JoinThenSplit(scopes);
    forall x ensures x in Stored(scopes) <==> exists i | 0 <= i < |scopes| :: x in Split(scopes[i]) {
      PieceOfSome(scopes, x);
    }
  }

  /** Storage never takes away a plain scope: what the list grants, the stored list grants. */
  lemma StorageKeeps(scopes: seq<string>, required: string)
    requires Plain(required) && HasScope(scopes, required)
    ensures HasScope(Stored(scopes), required)
  {
    var i :| 0 <= i < |scopes| && Grants(scopes[i], required);
    var x := scopes[i];
    if x != required && x != "*" {
      assert x == x[..|x| - 1] + [Last(x)] && Last(x) == x[|x| - 2..][1] == '*';
      assert forall c | c in x[..|x| - 1] :: c in required;
    }
    CutPlain(x);
    assert Split(x) == [x];
    JoinThenSplit(scopes);
    PieceOfSome(scopes, x);
    var k :| 0 <= k < |Stored(scopes)| && Stored(scopes)[k] == x;
  }

  /** Storage changes no answer about a plain scope if and only if the list itself grants every piece of
      its scopes; otherwise the stored key may do more. */
  lemma HasScopeSurvives(scopes: seq<string>)
    ensures (forall r | Plain(r) :: HasScope(Stored(scopes), r) == HasScope(scopes, r)) <==> PiecesGranted(scopes)
    ensures forall r | Plain(r) && HasScope(scopes, r) :: HasScope(Stored(scopes), r)
  {
    var stored := Stored(scopes);
    CutIsClean(Joined(scopes));
    StoredPieces(scopes);
    GrantsNoMore(stored, scopes);
    forall r | Plain(r) && HasScope(scopes, r) ensures HasScope(stored, r) {
      StorageKeeps(scopes, r);
    }
    forall k | 0 <= k < |stored| ensures HasScope(stored, stored[k]) {
      assert Grants(stored[k], stored[k]);
    }
  }

  /** And it changes no answer at all, not even about the empty scope or one with a comma, if and only if
      moreover the stored list grants every scope of the given one. */
  lemma EveryAnswerSurvives(scopes: seq<string>)
    ensures (forall r: string :: HasScope(Stored(scopes), r) == HasScope(scopes, r)) <==>
            PiecesGranted(scopes) && forall i | 0 <= i < |scopes| :: HasScope(Stored(scopes), scopes[i])
  {
    StoredPieces(scopes);
    GrantsNoMore(Stored(scopes), scopes);
    GrantsNoMore(scopes, Stored(scopes));
  }

  /** The same for HasAnyScope, over every list of plain required scopes. */
  lemma HasAnyScopeSurvives(scopes: seq<string>)
    ensures (forall required | AllPlain(required) ::
              HasAnyScope(Stored(scopes), required) == HasAnyScope(scopes, required)) <==> PiecesGranted(scopes)
  {
    HasScopeSurvives(scopes);
    if !PiecesGranted(scopes) {
      var r :| Plain(r) && HasScope(Stored(scopes), r) != HasScope(scopes, r);
      assert AllPlain([r]) && [r][0] == r;
      assert forall s :: HasAnyScope(s, [r]) <==> HasScope(s, [r][0]);
    }
  }

  /** The condition can fail: stored, the one scope "a,*" becomes two, and the key may do everything. */
  lemma CommaGrantsAll(required: string)
    ensures HasScope(["a,*"], required) <==> required == "a,*"
    ensures HasScope(Stored(["a,*"]), required)
    ensures !PiecesGranted(["a,*"])
  {
    var s := "a,*";
    CutAfterComma("a,", "*");
    CutPlain("a");
    CutPlain("*");
    assert "a," + "*" == s && Front("a,") == "a";
    assert Split(s) == ["a", "*"];
    assert Grants(Split(s)[1], required);
    assert [s][0] == s && "*" in Split(s) && !HasScope([s], "*");
  }
}
