/** Compiling a path pattern preserves its meaning, and captured parameters give the path back. */
module PathPatternProofs {
  import opened Wrappers
  import opened Regex
  import opened PathPattern
  import opened PathPatternSyntax
  import opened PathSpelling

  /******* The building blocks *******/

  ghost predicate SlashFree(s: string, i: nat, j: nat)
    requires i <= j <= |s|
  {
    forall k :: i <= k < j ==> s[k] != '/'
  }

  ghost predicate OneLine(s: string, i: nat, j: nat)
    requires i <= j <= |s|
  {
    forall k :: i <= k < j ==> s[k] != '\n'
  }

  lemma {:induction false} RepeatsExceptSlash(s: string, i: nat, j: nat)
    requires i <= j <= |s|
    ensures Repeats(Except('/'), s, i, j) <==> SlashFree(s, i, j)
    decreases j - i
  {
    if i < j {
      RepeatsExceptSlash(s, i + 1, j);
      assert MatchOne(Except('/'), s, i, i + 1) <==> s[i] != '/';
    }
  }

  lemma {:induction false} RepeatsAny(s: string, i: nat, j: nat)
    requires i <= j <= |s|
    ensures Repeats(Any, s, i, j) <==> OneLine(s, i, j)
    decreases j - i
  {
    if i < j {
      RepeatsAny(s, i + 1, j);
      assert MatchOne(Any, s, i, i + 1) <==> s[i] != '\n';
    }
  }

  /** `[^/]+` */
  lemma MatchOneSegment(s: string, i: nat, j: nat)
    requires i <= j <= |s|
    ensures MatchOne(OneSegment, s, i, j) <==> i < j && SlashFree(s, i, j)
  {
    if i < j {
      RepeatsExceptSlash(s, i + 1, j);
      assert MatchOne(Except('/'), s, i, i + 1) <==> s[i] != '/';
    }
  }

  /** `r` takes the characters i..m and `rs` the characters m..j. */
  ghost predicate Divides(r: Re, rs: seq<Re>, s: string, i: nat, m: nat, j: nat) {
    i <= m <= j <= |s| && MatchOne(r, s, i, m) && MatchSeq(rs, s, m, j)
  }

  lemma MatchCons(r: Re, rs: seq<Re>, s: string, i: nat, j: nat)
    requires i <= j <= |s|
    ensures MatchSeq([r] + rs, s, i, j) <==> exists m :: Divides(r, rs, s, i, m, j)
  {
    var all := [r] + rs;
    assert all[0] == r && all[1..] == rs;
    if MatchSeq(all, s, i, j) {
      var m := SplitPoint(all, s, i, j);
      assert Divides(r, rs, s, i, m, j);
    }
    if m :| Divides(r, rs, s, i, m, j) {
      JoinPoint(all, s, i, m, j);
    }
  }

  lemma MatchSingle(r: Re, s: string, i: nat, j: nat)
    requires i <= j <= |s|
    ensures MatchSeq([r], s, i, j) <==> MatchOne(r, s, i, j)
  {
    MatchCons(r, [], s, i, j);
    assert [r] + [] == [r];
    assert Divides(r, [], s, i, j, j) <==> MatchOne(r, s, i, j);
  }

  lemma MatchChr(c: char, rs: seq<Re>, s: string, i: nat, j: nat)
    requires i <= j <= |s|
    ensures MatchSeq([Chr(c)] + rs, s, i, j) <==> i < j && s[i] == c && MatchSeq(rs, s, i + 1, j)
  {
    MatchCons(Chr(c), rs, s, i, j);
    if i < j {
      assert MatchOne(Chr(c), s, i, i + 1) <==> s[i] == c;
      assert Divides(Chr(c), rs, s, i, i + 1, j) <==> s[i] == c && MatchSeq(rs, s, i + 1, j);
    }
  }

  lemma {:induction false} MatchChars(u: string, rs: seq<Re>, s: string, i: nat, j: nat)
    requires i <= j <= |s|
    ensures MatchSeq(Chars(u) + rs, s, i, j) <==>
              i + |u| <= j && s[i..i + |u|] == u && MatchSeq(rs, s, i + |u|, j)
  {
    if u == "" {
      assert Chars(u) + rs == rs;
    } else {
      assert Chars(u) + rs == [Chr(u[0])] + (Chars(u[1..]) + rs);
      MatchChr(u[0], Chars(u[1..]) + rs, s, i, j);
      if i < j {
        MatchChars(u[1..], rs, s, i + 1, j);
        if i + |u| <= j {
          assert s[i..i + |u|] == [s[i]] + s[i + 1..i + |u|];
          assert u == [u[0]] + u[1..];
        }
      }
    }
  }

  /** `/[^/]+` as a group body */
  lemma MatchSlashSegment(s: string, i: nat, j: nat)
    requires i <= j <= |s|
    ensures MatchSeq([Chr('/'), OneSegment], s, i, j) <==> i + 1 < j && s[i] == '/' && SlashFree(s, i + 1, j)
  {
    assert [Chr('/'), OneSegment] == [Chr('/')] + [OneSegment];
    MatchChr('/', [OneSegment], s, i, j);
    if i < j {
      MatchSingle(OneSegment, s, i + 1, j);
      MatchOneSegment(s, i + 1, j);
    }
  }

  /** `/.*` as a group body */
  lemma MatchSlashRest(s: string, i: nat, j: nat)
    requires i <= j <= |s|
    ensures MatchSeq([Chr('/'), Star(Any)], s, i, j) <==> i < j && s[i] == '/' && OneLine(s, i + 1, j)
  {
    assert [Chr('/'), Star(Any)] == [Chr('/')] + [Star(Any)];
    MatchChr('/', [Star(Any)], s, i, j);
    if i < j {
      MatchSingle(Star(Any), s, i + 1, j);
      RepeatsAny(s, i + 1, j);
    }
  }

  lemma MatchEnd(s: string, i: nat, j: nat)
    requires i <= j <= |s|
    ensures MatchSeq([End], s, i, j) <==> i == j == |s|
  {
    MatchSingle(End, s, i, j);
  }

  /******* Segment boundaries *******/

  /** Position i is between two segments of the path. */
  ghost predicate Boundary(s: string, i: nat) {
    i <= |s| && (i == |s| || s[i] == '/')
  }

  /** The end of the segment that starts behind position i. */
  function NextBoundary(s: string, i: nat): nat
    requires i < |s|
  {
    i + 1 + SegLength(s[i + 1..])
  }

  lemma NextBoundaryFree(s: string, i: nat)
    requires i < |s|
    ensures
      var b := NextBoundary(s, i);
      i < b && Boundary(s, b) && SlashFree(s, i + 1, b)
  {
    var b, u := NextBoundary(s, i), s[i + 1..];
    forall k | i + 1 <= k < b ensures s[k] != '/' { assert s[k] == u[k - i - 1]; }
    assert b < |s| ==> s[b] == u[b - i - 1];
  }

  lemma NextBoundarySegments(s: string, i: nat)
    requires Boundary(s, i) && i < |s|
    ensures
      var b := NextBoundary(s, i);
      i < b <= |s| && Segments(s[i..]) == [s[i + 1..b]] + Segments(s[b..])
  {
    var b, u := NextBoundary(s, i), s[i..];
    NextBoundaryFree(s, i);
    assert u[1..] == s[i + 1..];
    assert u[1..1 + SegLength(u[1..])] == s[i + 1..b];
    assert u[1 + SegLength(u[1..])..] == s[b..];
  }

  lemma NextBoundaryFacts(s: string, i: nat)
    requires Boundary(s, i) && i < |s|
    ensures
      var b := NextBoundary(s, i);
      && i < b && Boundary(s, b) && SlashFree(s, i + 1, b)
      && Segments(s[i..]) == [s[i + 1..b]] + Segments(s[b..])
      && forall j :: i + 1 <= j <= |s| && SlashFree(s, i + 1, j) && Boundary(s, j) ==> j == b
  {
    NextBoundaryFree(s, i);
    NextBoundarySegments(s, i);
  }

  /** A regular expression that starts with a slash does not match where there is none. */
  lemma NoSlashNoMatch(rs: seq<Re>, more: seq<Re>, s: string, i: nat)
    requires i < |s| && s[i] != '/'
    ensures !MatchSeq([Chr('/')] + rs + more, s, i, |s|)
  {
    assert [Chr('/')] + rs + more == [Chr('/')] + (rs + more);
    MatchChr('/', rs + more, s, i, |s|);
  }

  /** Nothing of a path regular expression matches from inside a segment. */
  lemma {:induction false} NoMatchInside(segs: seq<Seg>, tail: Tail, s: string, i: nat)
    requires i < |s| && s[i] != '/'
    ensures !MatchSeq(PathRe(segs, tail), s, i, |s|)
  {
    if segs == [] {
      TailMeaning(tail, s, i);
    } else {
      var more := PathRe(segs[1..], tail);
      match segs[0]
      case Lit(text) => NoSlashNoMatch(Chars(text), more, s, i);
      case Param(name) =>
        var g := [Group(name, [OneSegment])];
        assert SegRe(segs[0]) == [Chr('/')] + g;
        NoSlashNoMatch(g, more, s, i);
      case OneStar =>
        NoMatchInside(segs[1..], tail, s, i);
        StarMeaning(more, s, i);
      case DeepStar => DeepMeaning(more, s, i);
    }
  }

  lemma OptMeaning(body: seq<Re>, s: string, i: nat, m: nat)
    requires i <= m <= |s|
    ensures MatchOne(Opt(Group("", body)), s, i, m) <==> i == m || MatchSeq(body, s, i, m)
  {
    assert MatchOne(Group("", body), s, i, m) <==> MatchSeq(body, s, i, m);
  }

  /** So a match starts at a boundary. */
  lemma MatchAtBoundary(segs: seq<Seg>, tail: Tail, s: string, m: nat)
    requires m <= |s| && MatchSeq(PathRe(segs, tail), s, m, |s|)
    ensures Boundary(s, m)
  {
    if !Boundary(s, m) { NoMatchInside(segs, tail, s, m); }
  }

  /** A star takes a slash and a non-empty run without slashes, up to position m. */
  ghost predicate StarTakes(more: seq<Re>, s: string, i: nat, m: nat) {
    i + 1 < m <= |s| && s[i] == '/' && SlashFree(s, i + 1, m) && MatchSeq(more, s, m, |s|)
  }

  /** A star takes that or nothing. */
  lemma StarMeaning(more: seq<Re>, s: string, i: nat)
    requires i <= |s|
    ensures MatchSeq(SegRe(OneStar) + more, s, i, |s|) <==>
              MatchSeq(more, s, i, |s|) || exists m :: StarTakes(more, s, i, m)
  {
    var opt := Opt(Group("", [Chr('/'), OneSegment]));
    MatchCons(opt, more, s, i, |s|);
    if m :| Divides(opt, more, s, i, m, |s|) {
      OptMeaning([Chr('/'), OneSegment], s, i, m);
      MatchSlashSegment(s, i, m);
      assert i == m || StarTakes(more, s, i, m);
    }
    assert MatchSeq(more, s, i, |s|) ==> Divides(opt, more, s, i, i, |s|);
    if m :| StarTakes(more, s, i, m) {
      OptMeaning([Chr('/'), OneSegment], s, i, m);
      MatchSlashSegment(s, i, m);
      assert Divides(opt, more, s, i, m, |s|);
    }
  }

  /** `$` in front of more: the rest has to match at the end. */
  lemma AnchorMeaning(more: seq<Re>, s: string, i: nat)
    requires i <= |s|
    ensures MatchSeq([End] + more, s, i, |s|) <==> i == |s| && MatchSeq(more, s, |s|, |s|)
  {
    MatchCons(End, more, s, i, |s|);
    if i == |s| { assert Divides(End, more, s, i, i, |s|) <==> MatchSeq(more, s, i, |s|); }
  }

  /** A double star takes everything that is left, and what follows it has to match nothing at the end. */
  lemma DeepMeaning(more: seq<Re>, s: string, i: nat)
    requires i <= |s|
    ensures MatchSeq(TailRe(Rest) + more, s, i, |s|) <==>
              && (i == |s| || (s[i] == '/' && OneLine(s, i + 1, |s|)))
              && MatchSeq(more, s, |s|, |s|)
  {
    var opt := Opt(Group("", [Chr('/'), Star(Any)]));
    assert TailRe(Rest) + more == [opt] + ([End] + more);
    MatchCons(opt, [End] + more, s, i, |s|);
    OptMeaning([Chr('/'), Star(Any)], s, i, |s|);
    MatchSlashRest(s, i, |s|);
    forall m | i <= m <= |s|
      ensures MatchSeq([End] + more, s, m, |s|) <==> m == |s| && MatchSeq(more, s, |s|, |s|)
    {
      AnchorMeaning(more, s, m);
    }
    assert Divides(opt, [End] + more, s, i, |s|, |s|) <==>
             MatchOne(opt, s, i, |s|) && MatchSeq(more, s, |s|, |s|);
  }

  /** The tail of a path regular expression, anywhere. */
  lemma TailMeaning(tail: Tail, s: string, i: nat)
    requires i <= |s|
    ensures MatchSeq(TailRe(tail), s, i, |s|) <==>
              i == |s| || (tail.Rest? && s[i] == '/' && OneLine(s, i + 1, |s|))
  {
    if tail.Exact? {
      MatchEnd(s, i, |s|);
    } else {
      var opt := Opt(Group("", [Chr('/'), Star(Any)]));
      assert TailRe(tail) == [opt] + [End];
      MatchCons(opt, [End], s, i, |s|);
      OptMeaning([Chr('/'), Star(Any)], s, i, |s|);
      MatchSlashRest(s, i, |s|);
      forall m | i <= m <= |s| ensures MatchSeq([End], s, m, |s|) <==> m == |s| { MatchEnd(s, m, |s|); }
      assert MatchOne(opt, s, i, |s|) <==> i == |s| || (s[i] == '/' && OneLine(s, i + 1, |s|));
      assert Divides(opt, [End], s, i, |s|, |s|) <==> MatchOne(opt, s, i, |s|);
    }
  }

  /******* The main induction *******/

  lemma AllOneLineCons(head: string, more: seq<string>)
    ensures AllOneLine([head] + more) <==> NoNewline(head) && AllOneLine(more)
  {
    var all := [head] + more;
    assert all[0] == head && forall k :: 0 <= k < |more| ==> all[k + 1] == more[k];
  }

  lemma OneLineSlice(s: string, i: nat, j: nat)
    requires i <= j <= |s|
    ensures NoNewline(s[i..j]) <==> OneLine(s, i, j)
  {
    assert forall k :: i <= k < j ==> s[k] == s[i..j][k - i];
  }

  lemma {:induction false} OneLineSegments(s: string, i: nat)
    requires Boundary(s, i)
    ensures OneLine(s, i, |s|) <==> AllOneLine(Segments(s[i..]))
    decreases |s| - i
  {
    if i == |s| {
      assert s[i..] == "";
    } else {
      NextBoundaryFacts(s, i);
      var b := NextBoundary(s, i);
      OneLineSegments(s, b);
      AllOneLineCons(s[i + 1..b], Segments(s[b..]));
      OneLineSlice(s, i + 1, b);
      assert OneLine(s, i, |s|) <==> OneLine(s, i + 1, b) && OneLine(s, b, |s|);
    }
  }

  ghost predicate PathAgrees(segs: seq<Seg>, tail: Tail, s: string, i: nat)
    requires Boundary(s, i)
  {
    MatchSeq(PathRe(segs, tail), s, i, |s|) <==> Direct(segs, tail, Segments(s[i..]))
  }

  lemma TailAgrees(tail: Tail, s: string, i: nat)
    requires Boundary(s, i)
    ensures PathAgrees([], tail, s, i)
  {
    TailMeaning(tail, s, i);
    OneLineSegments(s, i);
    if i == |s| {
      assert s[i..] == "";
    } else {
      NextBoundaryFacts(s, i);
      assert OneLine(s, i, |s|) <==> OneLine(s, i + 1, |s|);
    }
  }

  lemma LitIsSlashFree(text: string, s: string, i: nat)
    requires SegOk(Lit(text)) && i + 1 + |text| <= |s| && s[i + 1..i + 1 + |text|] == text
    ensures SlashFree(s, i + 1, i + 1 + |text|)
  {
    forall k | i + 1 <= k < i + 1 + |text| ensures s[k] != '/' {
      assert s[k] == s[i + 1..i + 1 + |text|][k - i - 1] && PlainChar(text[k - i - 1]);
    }
  }

  /** A literal between two boundaries fills the whole segment. */
  lemma LitFillsSegment(text: string, s: string, i: nat)
    requires Boundary(s, i) && i < |s| && SegOk(Lit(text))
    requires Boundary(s, i + 1 + |text|) && s[i + 1..i + 1 + |text|] == text
    ensures i + 1 + |text| == NextBoundary(s, i)
  {
    NextBoundaryFacts(s, i);
    LitIsSlashFree(text, s, i);
  }

  lemma MatchSlashChars(text: string, more: seq<Re>, s: string, i: nat)
    requires i < |s| && s[i] == '/'
    ensures MatchSeq([Chr('/')] + (Chars(text) + more), s, i, |s|) <==>
              var m := i + 1 + |text|; m <= |s| && s[i + 1..m] == text && MatchSeq(more, s, m, |s|)
  {
    MatchChr('/', Chars(text) + more, s, i, |s|);
    MatchChars(text, more, s, i + 1, |s|);
  }

  lemma LitMatches(text: string, segs: seq<Seg>, tail: Tail, s: string, i: nat)
    requires Boundary(s, i) && i < |s| && SegOk(Lit(text))
    ensures
      var more, b := PathRe(segs, tail), NextBoundary(s, i);
      && b <= |s|
      && (MatchSeq([Chr('/')] + (Chars(text) + more), s, i, |s|)
          <==> s[i + 1..b] == text && MatchSeq(more, s, b, |s|))
  {
    var more, m, b := PathRe(segs, tail), i + 1 + |text|, NextBoundary(s, i);
    MatchSlashChars(text, more, s, i);
    assert i < b <= |s|;
    if m <= |s| && s[i + 1..m] == text && MatchSeq(more, s, m, |s|) {
      MatchAtBoundary(segs, tail, s, m);
      LitFillsSegment(text, s, i);
    }
    if s[i + 1..b] == text { assert m == b; }
  }

  lemma LitAgrees(text: string, segs: seq<Seg>, tail: Tail, s: string, i: nat)
    requires Boundary(s, i) && SegOk(Lit(text))
    requires forall b :: Boundary(s, b) ==> PathAgrees(segs, tail, s, b)
    ensures PathAgrees([Lit(text)] + segs, tail, s, i)
  {
    var all := [Lit(text)] + segs;
    assert all[1..] == segs;
    var more := PathRe(segs, tail);
    assert PathRe(all, tail) == [Chr('/')] + (Chars(text) + more);
    if i == |s| {
      MatchChr('/', Chars(text) + more, s, i, |s|);
      assert s[i..] == "";
    } else {
      LitMatches(text, segs, tail, s, i);
      StepAgrees(segs, tail, s, i);
    }
  }

  /** The first path segment behind a boundary, and agreement behind it. */
  lemma StepAgrees(segs: seq<Seg>, tail: Tail, s: string, i: nat)
    requires Boundary(s, i) && i < |s|
    requires forall b :: Boundary(s, b) ==> PathAgrees(segs, tail, s, b)
    ensures
      var b, path := NextBoundary(s, i), Segments(s[i..]);
      && i < b <= |s| && path != [] && path[0] == s[i + 1..b]
      && (MatchSeq(PathRe(segs, tail), s, b, |s|) <==> Direct(segs, tail, path[1..]))
  {
    NextBoundaryFacts(s, i);
    var b := NextBoundary(s, i);
    assert PathAgrees(segs, tail, s, b);
    assert Segments(s[i..])[1..] == Segments(s[b..]);
  }

  /** A parameter takes a whole segment that is not empty. */
  lemma ParamTakesSegment(name: string, segs: seq<Seg>, tail: Tail, s: string, i: nat)
    requires Boundary(s, i) && i < |s|
    ensures
      var more, b := PathRe(segs, tail), NextBoundary(s, i);
      && b <= |s|
      && (MatchSeq([Group(name, [OneSegment])] + more, s, i + 1, |s|) <==> i + 1 < b && MatchSeq(more, s, b, |s|))
  {
    NextBoundaryFacts(s, i);
    var more, b, g := PathRe(segs, tail), NextBoundary(s, i), Group(name, [OneSegment]);
    var i1 := i + 1;
    MatchCons(g, more, s, i1, |s|);
    if m :| Divides(g, more, s, i1, m, |s|) {
      MatchSingle(OneSegment, s, i + 1, m);
      MatchOneSegment(s, i + 1, m);
      MatchAtBoundary(segs, tail, s, m);
      assert m == b;
    }
    MatchSingle(OneSegment, s, i + 1, b);
    MatchOneSegment(s, i + 1, b);
    assert Divides(g, more, s, i + 1, b, |s|) <==> i + 1 < b && MatchSeq(more, s, b, |s|);
  }

  lemma ParamAgrees(name: string, segs: seq<Seg>, tail: Tail, s: string, i: nat)
    requires Boundary(s, i)
    requires forall b :: Boundary(s, b) ==> PathAgrees(segs, tail, s, b)
    ensures PathAgrees([Param(name)] + segs, tail, s, i)
  {
    var all := [Param(name)] + segs;
    assert all[1..] == segs;
    var more, g := PathRe(segs, tail), Group(name, [OneSegment]);
    assert PathRe(all, tail) == [Chr('/')] + ([g] + more);
    MatchChr('/', [g] + more, s, i, |s|);
    if i == |s| {
      assert s[i..] == "";
    } else {
      ParamTakesSegment(name, segs, tail, s, i);
      StepAgrees(segs, tail, s, i);
    }
  }

  /** If a star takes anything, it takes the whole next segment. */
  lemma StarTakesSegment(segs: seq<Seg>, tail: Tail, s: string, i: nat)
    requires Boundary(s, i) && i < |s|
    ensures
      var more, b := PathRe(segs, tail), NextBoundary(s, i);
      && b <= |s|
      && ((exists m :: StarTakes(more, s, i, m)) <==> i + 1 < b && MatchSeq(more, s, b, |s|))
  {
    NextBoundaryFacts(s, i);
    var more, b := PathRe(segs, tail), NextBoundary(s, i);
    if m :| StarTakes(more, s, i, m) {
      MatchAtBoundary(segs, tail, s, m);
      assert m == b;
    }
    assert StarTakes(more, s, i, b) <==> i + 1 < b && MatchSeq(more, s, b, |s|);
  }

  lemma StarAgrees(segs: seq<Seg>, tail: Tail, s: string, i: nat)
    requires Boundary(s, i)
    requires forall b :: Boundary(s, b) ==> PathAgrees(segs, tail, s, b)
    ensures PathAgrees([OneStar] + segs, tail, s, i)
  {
    var all := [OneStar] + segs;
    assert all[1..] == segs;
    StarMeaning(PathRe(segs, tail), s, i);
    assert PathAgrees(segs, tail, s, i);
    if i == |s| {
      assert s[i..] == "";
    } else {
      StarTakesSegment(segs, tail, s, i);
      StepAgrees(segs, tail, s, i);
    }
  }

  lemma DeepAgrees(segs: seq<Seg>, tail: Tail, s: string, i: nat)
    requires Boundary(s, i) && PathAgrees(segs, tail, s, |s|)
    ensures PathAgrees([DeepStar] + segs, tail, s, i)
  {
    var all := [DeepStar] + segs;
    assert all[1..] == segs && s[|s|..] == "";
    DeepMeaning(PathRe(segs, tail), s, i);
    OneLineSegments(s, i);
    if i < |s| { assert OneLine(s, i, |s|) <==> OneLine(s, i + 1, |s|); }
  }

  lemma {:induction false} PathMeaning(segs: seq<Seg>, tail: Tail, s: string, i: nat)
    requires Boundary(s, i) && forall k :: 0 <= k < |segs| ==> SegOk(segs[k])
    ensures PathAgrees(segs, tail, s, i)
    decreases |segs|
  {
    if segs == [] {
      TailAgrees(tail, s, i);
    } else {
      forall b | Boundary(s, b) ensures PathAgrees(segs[1..], tail, s, b) {
        PathMeaning(segs[1..], tail, s, b);
      }
      assert segs == [segs[0]] + segs[1..];
      match segs[0]
      case Lit(text) => LitAgrees(text, segs[1..], tail, s, i);
      case Param(name) => ParamAgrees(name, segs[1..], tail, s, i);
      case OneStar => StarAgrees(segs[1..], tail, s, i);
      case DeepStar => DeepAgrees(segs[1..], tail, s, i);
    }
  }

  /** `.*$` */
  lemma AnyRestMeaning(s: string, n: nat)
    requires n <= |s|
    ensures MatchSeq([Star(Any), End], s, n, |s|) <==> NoNewline(s[n..])
  {
    assert [Star(Any), End] == [Star(Any)] + [End];
    MatchCons(Star(Any), [End], s, n, |s|);
    forall m | n <= m <= |s| ensures MatchSeq([End], s, m, |s|) <==> m == |s| { MatchEnd(s, m, |s|); }
    RepeatsAny(s, n, |s|);
    assert Divides(Star(Any), [End], s, n, |s|, |s|) <==> Repeats(Any, s, n, |s|);
    OneLineSlice(s, n, |s|);
    assert s[n..|s|] == s[n..];
  }

  lemma PrefixMeaning(base: string, s: string)
    ensures MatchSeq(Chars(base) + [Star(Any), End], s, 0, |s|) <==> base <= s && NoNewline(s[|base|..])
  {
    MatchChars(base, [Star(Any), End], s, 0, |s|);
    if |base| <= |s| {
      assert s[0..|base|] == s[..|base|];
      AnyRestMeaning(s, |base|);
    }
  }

  /** Every pattern regular expression ends in `$`, so a match reaches the end of the path. */
  lemma {:induction false} MatchReachesEnd(rs: seq<Re>, s: string, i: nat, j: nat)
    requires i <= j <= |s| && rs != [] && rs[|rs| - 1] == End
    requires MatchSeq(rs, s, i, j)
    ensures j == |s|
  {
    var m := SplitPoint(rs, s, i, j);
    if |rs| > 1 { MatchReachesEnd(rs[1..], s, m, j); }
  }

  lemma {:induction false} EndsInEnd(segs: seq<Seg>, tail: Tail)
    ensures PathRe(segs, tail) != [] && PathRe(segs, tail)[|PathRe(segs, tail)| - 1] == End
  {
    if segs != [] { EndsInEnd(segs[1..], tail); }
  }

  lemma AcceptsFromStart(rs: seq<Re>, s: string)
    requires rs != [] && rs[|rs| - 1] == End
    ensures Accepts([Begin] + rs, s) <==> MatchSeq(rs, s, 0, |s|)
  {
    var all := [Begin] + rs;
    if Accepts(all, s) {
      var i, j :| 0 <= i <= j <= |s| && MatchSeq(all, s, i, j);
      MatchCons(Begin, rs, s, i, j);
      assert MatchSeq(rs, s, 0, j);
      MatchReachesEnd(rs, s, 0, j);
    }
    if MatchSeq(rs, s, 0, |s|) {
      MatchCons(Begin, rs, s, 0, |s|);
      assert Divides(Begin, rs, s, 0, 0, |s|);
      assert MatchSeq(all, s, 0, |s|);
    }
  }

  /**
   Compiling preserves meaning: however a pattern is spelled, with blanks around it, without its leading
   slash or with one more slash behind it, the regular expression built from the text accepts exactly the
   paths that the pattern means.
   */
  lemma CompilePreservesMeaning(text: string, p: Pattern, sp: Spelling, path: string)
    requires WellFormed(p) && Spells(text, Render(p), sp)
    requires "/" <= path
    ensures NewPathMatcher(text).Some?
    ensures Accepts(NewPathMatcher(text).value, path) <==> Means(p, path)
  {
    SpelledIsNormal(text, Render(p), sp);
    RewritingParses(p);
    match p
    case Path(segs, tail) =>
      EndsInEnd(segs, tail);
      AcceptsFromStart(PathRe(segs, tail), path);
      PathMeaning(segs, tail, path, 0);
      assert path[0..] == path;
    case Prefix(base) =>
      AcceptsFromStart(Chars(base) + [Star(Any), End], path);
      PrefixMeaning(base, path);
  }

  /** The path a request is matched by: its own, or the root if it has none, or its own behind a slash. */
  ghost predicate MeansRequest(p: Pattern, path: string) {
    if "/" <= path then Means(p, path)
    else if path == "" then Means(p, "/")
    else Means(p, "/" + path)
  }

  /** Match as a whole: the request method is one of the listed ones, if any are, and the path is meant. */
  lemma MatcherMeaning(text: string, p: Pattern, sp: Spelling, methods: set<string>, req: Request)
    requires WellFormed(p) && Spells(text, Render(p), sp)
    ensures NewPathMatcher(text).Some?
    ensures MatcherAccepts(NewPathMatcher(text).value, methods, req) <==>
              (methods == {} || req.verb in methods) && MeansRequest(p, req.path)
  {
    RequestPathIs(req.path);
    CompilePreservesMeaning(text, p, sp, RequestPath(req.path));
  }

  /******* A double star that is not last *******/

  predicate AllStars(segs: seq<Seg>) {
    forall i :: 0 <= i < |segs| ==> segs[i].OneStar? || segs[i].DeepStar?
  }

  /** At the end of the path exactly stars match. */
  lemma {:induction false} AtTheEnd(segs: seq<Seg>, tail: Tail)
    ensures Direct(segs, tail, []) <==> AllStars(segs)
  {
    if segs != [] {
      AtTheEnd(segs[1..], tail);
      assert segs == [segs[0]] + segs[1..];
    }
  }

  lemma {:induction false} DeepStarIsTail(before: seq<Seg>, after: seq<Seg>, tail: Tail, path: seq<string>)
    ensures Direct(before + [DeepStar] + after, tail, path) <==> AllStars(after) && Direct(before, Rest, path)
    decreases |before|
  {
    var all := before + [DeepStar] + after;
    if before == [] {
      assert all[1..] == after;
      AtTheEnd(after, tail);
    } else {
      var rest := before[1..];
      assert all[0] == before[0] && all[1..] == rest + [DeepStar] + after;
      DeepStarIsTail(rest, after, tail, path);
      if path != [] { DeepStarIsTail(rest, after, tail, path[1..]); }
      DeepStarIsTail(rest, after, tail, []);
    }
  }

  /**
   A double star that is not last ends the pattern: with only stars behind it the pattern accepts what
   it would accept if it ended there, and with anything else behind it, it accepts no path at all.
   */
  lemma InnerDoubleStar(
      text: string, before: seq<Seg>, after: seq<Seg>, tail: Tail, sp: Spelling, methods: set<string>, req: Request)
    requires WellFormed(Path(before + [DeepStar] + after, tail))
    requires Spells(text, Render(Path(before + [DeepStar] + after, tail)), sp)
    ensures NewPathMatcher(text).Some?
    ensures MatcherAccepts(NewPathMatcher(text).value, methods, req) <==>
              && AllStars(after) && (methods == {} || req.verb in methods)
              && MeansRequest(Path(before, Rest), req.path)
  {
    MatcherMeaning(text, Path(before + [DeepStar] + after, tail), sp, methods, req);
    var path := if "/" <= req.path then req.path else if req.path == "" then "/" else "/" + req.path;
    DeepStarIsTail(before, after, tail, Segments(path));
  }
}
