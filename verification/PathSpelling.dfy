/** Which texts spell a pattern: blanks around it, a leading slash that may be missing, one more trailing slash. */
module PathSpelling {
  import opened Wrappers
  import opened Regex
  import opened PathPattern

  datatype Spelling = Spelling(left: string, right: string, leading: bool, trailing: bool)

  predicate Blank(t: string) {
    forall i :: 0 <= i < |t| ==> Space(t[i])
  }

  /** The text between the blanks. */
  function Body(p: string, sp: Spelling): string
    requires "/" <= p
  {
    (if sp.leading then p else p[1..]) + (if sp.trailing then "/" else "")
  }

  predicate Solid(t: string) {
    t != "" && !Space(t[0]) && !Space(t[|t| - 1])
  }

  predicate EndsInSlash(t: string) {
    t != "" && t[|t| - 1] == '/'
  }

  /**
   The text is `p` between blanks, with or without its leading slash and with or without one more slash
   behind it. The leading slash cannot be left out if another one follows, nor the additional one if `p`
   ends in a slash itself; and what stands between the blanks does not begin or end in a blank.
   */
  predicate Spells(text: string, p: string, sp: Spelling) {
    && "/" <= p && Blank(sp.left) && Blank(sp.right) && text == sp.left + Body(p, sp) + sp.right
    && Solid(Body(p, sp))
    && (sp.leading || !("/" <= p[1..]))
    && (sp.trailing || !EndsInSlash(p) || p == "/")
  }

  /******* Trimming *******/

  lemma {:induction false} TrimBlanks(left: string, body: string, right: string)
    requires Blank(left) && Blank(right) && Solid(body)
    ensures TrimSpace(left + body + right) == body
    decreases |left| + |right|
  {
    var t := left + body + right;
    if left != "" {
      assert t[0] == left[0] && t[1..] == left[1..] + body + right;
      TrimBlanks(left[1..], body, right);
    } else if right != "" {
      var init := right[..|right| - 1];
      assert t[0] == body[0] && t[|t| - 1] == right[|right| - 1];
      assert t[..|t| - 1] == left + body + init;
      TrimBlanks(left, body, init);
    } else {
      assert t == body;
    }
  }

  lemma BlankBefore(c: char, left: string, body: string, right: string)
    requires Space(c) && Blank(left)
    ensures Blank([c] + left) && [c] + (left + body + right) == [c] + left + body + right
  {
  }

  lemma BlankBehind(left: string, body: string, right: string, c: char)
    requires Space(c) && Blank(right)
    ensures Blank(right + [c]) && (left + body + right) + [c] == left + body + (right + [c])
  {
  }

  lemma {:induction false} TrimParts(t: string) returns (left: string, right: string)
    ensures Blank(left) && Blank(right) && t == left + TrimSpace(t) + right
    ensures TrimSpace(t) == "" || Solid(TrimSpace(t))
    decreases |t|
  {
    if t != "" && Space(t[0]) {
      left, right := TrimParts(t[1..]);
      BlankBefore(t[0], left, TrimSpace(t), right);
      left := [t[0]] + left;
    } else if t != "" && Space(t[|t| - 1]) {
      left, right := TrimParts(t[..|t| - 1]);
      BlankBehind(left, TrimSpace(t), right, t[|t| - 1]);
      right := right + [t[|t| - 1]];
    } else {
      left, right := "", "";
    }
  }

  /******* Slashes *******/

  lemma SlashSuffix(t: string)
    ensures HasSuffix(t, "/") <==> EndsInSlash(t)
  {
    if t != "" { assert t[|t| - 1..] == [t[|t| - 1]]; }
  }

  function Stripped(t: string): string {
    if EndsInSlash(t) then t[..|t| - 1] else t
  }

  lemma NormaliseIs(t: string)
    ensures Normalise(t) == if "/" <= Stripped(t) then Stripped(t) else "/" + Stripped(t)
  {
    SlashSuffix(t);
    var u := if HasSuffix(t, "/") then t[..|t| - 1] else t;
    assert u == Stripped(t);
    assert Normalise(t) == if "/" <= u then u else "/" + u;
  }

  lemma StrippedSlash(t: string)
    ensures Stripped(t + "/") == t
  {
    assert (t + "/")[..|t|] == t;
  }

  lemma StrippedBody(p: string, sp: Spelling)
    requires "/" <= p && Body(p, sp) != "" && (sp.trailing || !EndsInSlash(p))
    ensures Stripped(Body(p, sp)) == if sp.leading then p else p[1..]
  {
    var core := if sp.leading then p else p[1..];
    if sp.trailing {
      StrippedSlash(core);
    } else {
      assert Body(p, sp) == core;
      assert core[|core| - 1] == p[|p| - 1];
    }
  }

  lemma Rerooted(p: string)
    requires "/" <= p
    ensures "/" + p[1..] == p
  {
  }

  lemma NormaliseFromStripped(body: string, p: string)
    requires "/" <= p && (Stripped(body) == p || (Stripped(body) == p[1..] && !("/" <= p[1..])))
    ensures Normalise(body) == p
  {
    NormaliseIs(body);
    Rerooted(p);
  }

  lemma NormaliseBody(p: string, sp: Spelling)
    requires "/" <= p && Body(p, sp) != ""
    requires (sp.leading || !("/" <= p[1..])) && (sp.trailing || !EndsInSlash(p) || p == "/")
    ensures Normalise(Body(p, sp)) == p
  {
    if sp.trailing || !EndsInSlash(p) {
      StrippedBody(p, sp);
    } else {
      assert Body(p, sp) == "/" && Stripped("/") == "";
    }
    NormaliseFromStripped(Body(p, sp), p);
  }

  /** What stands between the blanks, read back from its normal form. */
  function SpellingOf(body: string, left: string, right: string): Spelling {
    Spelling(left, right, "/" <= Stripped(body), EndsInSlash(body))
  }

  lemma StrippedBack(body: string)
    ensures body == Stripped(body) + if EndsInSlash(body) then "/" else ""
  {
  }

  lemma RootedIsSpelled(body: string, sp: Spelling)
    requires body != "" && "/" <= Stripped(body) && sp.leading && sp.trailing == EndsInSlash(body)
    ensures Body(Stripped(body), sp) == body && (sp.trailing || !EndsInSlash(Stripped(body)))
  {
    StrippedBack(body);
  }

  lemma UnrootedIsSpelled(body: string, sp: Spelling)
    requires body != "" && !("/" <= Stripped(body)) && !sp.leading && sp.trailing == EndsInSlash(body)
    ensures
      var p := "/" + Stripped(body);
      Body(p, sp) == body && !("/" <= p[1..]) && (sp.trailing || !EndsInSlash(p))
  {
    StrippedBack(body);
    var u := Stripped(body);
    assert ("/" + u)[1..] == u;
    assert u != "" ==> ("/" + u)[|u|] == u[|u| - 1];
  }

  lemma BodyIsSpelled(body: string, left: string, right: string)
    requires body != ""
    ensures
      var p, sp := Normalise(body), SpellingOf(body, left, right);
      && "/" <= p && Body(p, sp) == body
      && (sp.leading || !("/" <= p[1..])) && (sp.trailing || !EndsInSlash(p))
  {
    NormaliseIs(body);
    var sp := SpellingOf(body, left, right);
    if sp.leading { RootedIsSpelled(body, sp); } else { UnrootedIsSpelled(body, sp); }
  }

  /** Exactly the spellings of a text are trimmed and normalised to it. */
  lemma SpellingIff(text: string, p: string)
    ensures TrimSpace(text) != "" && Normalise(TrimSpace(text)) == p <==> exists sp :: Spells(text, p, sp)
  {
    if sp :| Spells(text, p, sp) {
      TrimBlanks(sp.left, Body(p, sp), sp.right);
      NormaliseBody(p, sp);
    }
    if TrimSpace(text) != "" && Normalise(TrimSpace(text)) == p {
      var left, right := TrimParts(text);
      BodyIsSpelled(TrimSpace(text), left, right);
      assert Spells(text, p, SpellingOf(TrimSpace(text), left, right));
    }
  }

  lemma SpelledIsNormal(text: string, p: string, sp: Spelling)
    requires Spells(text, p, sp)
    ensures TrimSpace(text) != "" && Normalise(TrimSpace(text)) == p
  {
    SpellingIff(text, p);
  }

  /** The path that Match tests: the request's own if it is rooted, the root if it is empty, else with a slash. */
  lemma RequestPathIs(path: string)
    ensures "/" <= path ==> RequestPath(path) == path
    ensures path == "" ==> RequestPath(path) == "/"
    ensures path != "" && !("/" <= path) ==> RequestPath(path) == "/" + path
  {
  }

  /** A small letter becomes the capital at its place of the alphabet; everything else stays. */
  lemma ToUpperIs(t: string, i: nat)
    requires i < |t|
    ensures |ToUpper(t)| == |t|
    ensures
      if 'a' <= t[i] <= 'z'
      then 'A' <= ToUpper(t)[i] <= 'Z' && ToUpper(t)[i] as int - 'A' as int == t[i] as int - 'a' as int
      else ToUpper(t)[i] == t[i]
  {
  }
}
