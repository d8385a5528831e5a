/** The loops of routerfilter.go and the theorem that captured parameters give the path back. */
module PathMatcher {
  import opened Wrappers
  import opened Regex
  import opened PathPattern
  import opened PathPatternSyntax
  import opened PathPatternProofs
  import opened PathSpelling

  /******* Walking along a match *******/

  function Joined(ts: seq<Took>): string {
    if ts == [] then "" else ts[0].text + Joined(ts[1..])
  }

  /** The text a match covers is the text its items took. */
  lemma {:induction false} MatchCoversText(rs: seq<Re>, s: string, ts: seq<Took>)
    requires rs != [] && Matched(rs, s, ts)
    ensures
      var last := ts[|ts| - 1];
      ts[0].start <= last.start + |last.text| <= |s| && s[ts[0].start..last.start + |last.text|] == Joined(ts)
  {
    assert Placed(ts[0], s) && Placed(ts[|ts| - 1], s);
    if |ts| > 1 {
      var rest, last := ts[1..], ts[|ts| - 1];
      forall k | 0 < k < |rest| ensures rest[k].start == rest[k - 1].start + |rest[k - 1].text| {
        assert ts[k + 1].start == ts[k].start + |ts[k].text|;
      }
      assert Matched(rs[1..], s, rest);
      MatchCoversText(rs[1..], s, rest);
      var i, m, j := ts[0].start, ts[1].start, last.start + |last.text|;
      assert s[i..j] == s[i..m] + s[m..j];
    } else {
      assert Joined(ts[1..]) == "";
    }
  }

  /** Segments without stars: the patterns whose parameters determine the path. */
  predicate StarFree(segs: seq<Seg>) {
    forall i :: 0 <= i < |segs| ==> SegOk(segs[i]) && !segs[i].OneStar? && !segs[i].DeepStar?
  }

  predicate Covers(caps: map<string, string>, segs: seq<Seg>) {
    forall i :: 0 <= i < |segs| ==> segs[i].Param? ==> segs[i].name in caps
  }

  /** The pattern with its parameters filled in. */
  function Substitute(segs: seq<Seg>, caps: map<string, string>): string
    requires StarFree(segs) && Covers(caps, segs)
  {
    if segs == [] then ""
    else
      "/" + (if segs[0].Lit? then segs[0].text else caps[segs[0].name])
      + Substitute(segs[1..], caps)
  }

  /** A captured value is a path segment: not empty and without a slash. */
  predicate OneSegmentValue(v: string) {
    v != "" && forall i :: 0 <= i < |v| ==> v[i] != '/'
  }

  /** Agreement of two capture maps on the parameters of `segs`. */
  predicate AgreeOn(caps: map<string, string>, more: map<string, string>, segs: seq<Seg>) {
    Covers(caps, segs) && Covers(more, segs)
    && forall i :: 0 <= i < |segs| ==> segs[i].Param? ==> caps[segs[i].name] == more[segs[i].name]
  }

  lemma {:induction false} SubstituteAgrees(segs: seq<Seg>, caps: map<string, string>, more: map<string, string>)
    requires StarFree(segs) && AgreeOn(caps, more, segs)
    ensures Substitute(segs, caps) == Substitute(segs, more)
  {
    if segs != [] {
      assert AgreeOn(caps, more, segs[1..]);
      SubstituteAgrees(segs[1..], caps, more);
    }
  }

  lemma {:induction false} NamesCover(segs: seq<Seg>, i: nat)
    requires i < |segs| && segs[i].Param?
    ensures segs[i].name in Names(segs)
  {
    if i > 0 {
      NamesCover(segs[1..], i - 1);
      assert segs[1..][i - 1] == segs[i];
    }
  }

  /** What the captures of a match of `segs` say about the text `u` that the match took. */
  ghost predicate Inverts(segs: seq<Seg>, u: string, caps: map<string, string>) {
    && StarFree(segs)
    && caps.Keys == (set n | n in Names(segs))
    && Covers(caps, segs)
    && u == Substitute(segs, caps)
    && forall n :: n in caps ==> OneSegmentValue(caps[n])
  }

  /** The text an item can take, as far as it is determined by the kind of the item. */
  ghost predicate Shape(t: Took) {
    match t.item
    case Chr(c) => t.text == [c]
    case Group(_, body) => body == [OneSegment] ==> OneSegmentValue(t.text)
    case Begin => t.text == "" && t.start == 0
    case End => t.text == ""
    case _ => true
  }

  lemma PlacedShape(t: Took, s: string)
    requires Placed(t, s)
    ensures Shape(t)
  {
    var i, j := t.start, t.start + |t.text|;
    if t.item.Chr? {
      assert s[i..j] == [s[i]];
    } else if t.item.Group? && t.item.body == [OneSegment] {
      MatchSingle(OneSegment, s, i, j);
      MatchOneSegment(s, i, j);
      assert forall k :: 0 <= k < |t.text| ==> t.text[k] == s[i + k];
    }
  }

  /** `ts` are the items `rs`, each with a text it can take. */
  ghost predicate Fits(ts: seq<Took>, rs: seq<Re>) {
    |ts| == |rs| && forall k :: 0 <= k < |ts| ==> ts[k].item == rs[k] && Shape(ts[k])
  }

  lemma FitsTail(ts: seq<Took>, r: Re, rs: seq<Re>)
    requires Fits(ts, [r] + rs)
    ensures ts != [] && ts[0].item == r && Shape(ts[0]) && Fits(ts[1..], rs)
  {
    assert ([r] + rs)[0] == r;
    forall k | 0 <= k < |rs| ensures ts[1..][k].item == rs[k] && Shape(ts[1..][k]) {
      assert ([r] + rs)[k + 1] == rs[k];
    }
  }

  lemma {:induction false} CharsAt(u: string, k: nat)
    requires k < |u|
    ensures |Chars(u)| == |u| && Chars(u)[k] == Chr(u[k])
  {
    if |u| > 1 { CharsAt(u[1..], if k == 0 then 0 else k - 1); }
  }

  /** The first items are the characters of `u`, each of which took itself. */
  ghost predicate Spells(ts: seq<Took>, u: string) {
    |u| <= |ts| && forall k :: 0 <= k < |u| ==> ts[k].item == Chr(u[k]) && ts[k].text == [u[k]]
  }

  lemma FitsSplit(a: seq<Re>, b: seq<Re>, ts: seq<Took>)
    requires Fits(ts, a + b)
    ensures |ts| == |a| + |b| && Fits(ts[..|a|], a) && Fits(ts[|a|..], b)
  {
    var rs, us := a + b, ts[|a|..];
    forall k | 0 <= k < |b| ensures us[k].item == b[k] && Shape(us[k]) {
      assert ts[|a| + k].item == rs[|a| + k] && Shape(ts[|a| + k]);
    }
  }

  lemma FitsChars(u: string, ts: seq<Took>)
    requires Fits(ts, Chars(u))
    ensures Spells(ts, u)
  {
    forall k | 0 <= k < |u| ensures k < |ts| && ts[k].item == Chr(u[k]) && ts[k].text == [u[k]] {
      CharsAt(u, k);
      assert Shape(ts[k]);
    }
    CharsLength(u);
  }

  lemma CharsLength(u: string)
    ensures |Chars(u)| == |u|
  {
    if u != "" { CharsAt(u, 0); }
  }

  lemma SpellsPrefix(u: string, ts: seq<Took>)
    requires |u| <= |ts| && Spells(ts[..|u|], u)
    ensures Spells(ts, u)
  {
    forall k | 0 <= k < |u| ensures ts[k].item == Chr(u[k]) && ts[k].text == [u[k]] {
      assert ts[..|u|][k] == ts[k];
    }
  }

  lemma CharsFit(u: string, more: seq<Re>, ts: seq<Took>)
    requires Fits(ts, Chars(u) + more)
    ensures Spells(ts, u) && |ts| == |u| + |more| && Fits(ts[|u|..], more)
  {
    CharsLength(u);
    FitsSplit(Chars(u), more, ts);
    FitsChars(u, ts[..|u|]);
    SpellsPrefix(u, ts);
  }

  /** Literal characters are taken as they are and capture nothing. */
  lemma {:induction false} SkipChars(u: string, ts: seq<Took>)
    requires Spells(ts, u)
    ensures Joined(ts) == u + Joined(ts[|u|..]) && Captures(ts) == Captures(ts[|u|..])
  {
    if u == "" {
      assert ts[0..] == ts;
    } else {
      var v, us := u[1..], ts[1..];
      assert Spells(us, v);
      SkipChars(v, us);
      assert us[|v|..] == ts[|u|..];
      assert [u[0]] + (v + Joined(ts[|u|..])) == u + Joined(ts[|u|..]);
      EmptyPlus(Captures(us));
    }
  }

  lemma EmptyPlus(m: map<string, string>)
    ensures map[] + m == m
  {
  }

  /** A parameter takes a slash and one segment. */
  lemma ParamFits(name: string, more: seq<Re>, ts: seq<Took>)
    requires Fits(ts, [Chr('/'), Group(name, [OneSegment])] + more)
    ensures |ts| == |more| + 2 && Fits(ts[2..], more) && OneSegmentValue(ts[1].text)
    ensures ts[0].item == Chr('/') && ts[0].text == "/" && ts[1].item == Group(name, [OneSegment])
  {
    var g := Group(name, [OneSegment]);
    assert [Chr('/'), g] + more == [Chr('/')] + ([g] + more);
    FitsTail(ts, Chr('/'), [g] + more);
    FitsTail(ts[1..], g, more);
    assert ts[1..][1..] == ts[2..] && ts[1..][0] == ts[1];
  }

  /** It captures that segment. */
  lemma SkipParam(name: string, ts: seq<Took>)
    requires name != "" && |ts| >= 2
    requires ts[0].item == Chr('/') && ts[0].text == "/" && ts[1].item == Group(name, [OneSegment])
    ensures Joined(ts) == "/" + ts[1].text + Joined(ts[2..])
    ensures Captures(ts) == map[name := ts[1].text] + Captures(ts[2..])
  {
    var us := ts[1..];
    assert us[1..] == ts[2..] && us[0] == ts[1];
    EmptyPlus(Captures(us));
    assert "/" + (ts[1].text + Joined(ts[2..])) == "/" + ts[1].text + Joined(ts[2..]);
  }

  lemma InvertsLit(text: string, segs: seq<Seg>, u: string, caps: map<string, string>)
    requires SegOk(Lit(text)) && Inverts(segs, u, caps)
    ensures Inverts([Lit(text)] + segs, "/" + text + u, caps)
  {
    var all := [Lit(text)] + segs;
    assert all[1..] == segs && Names(all) == Names(segs);
    assert StarFree(all) && Covers(caps, all);
  }

  lemma InvertsParam(name: string, v: string, segs: seq<Seg>, u: string, caps: map<string, string>)
    requires SegOk(Param(name)) && name !in Names(segs) && OneSegmentValue(v) && Inverts(segs, u, caps)
    ensures Inverts([Param(name)] + segs, "/" + v + u, map[name := v] + caps)
  {
    var all, more := [Param(name)] + segs, map[name := v] + caps;
    assert all[1..] == segs && Names(all) == [name] + Names(segs);
    assert more.Keys == set n | n in Names(all);
    assert StarFree(all);
    forall i | 0 <= i < |segs| && segs[i].Param?
      ensures segs[i].name in more && more[segs[i].name] == caps[segs[i].name]
    {
      NamesCover(segs, i);
    }
    assert AgreeOn(caps, more, segs);
    SubstituteAgrees(segs, caps, more);
    assert Covers(more, all);
  }

  lemma {:induction false} CapturesInvert(segs: seq<Seg>, ts: seq<Took>)
    requires StarFree(segs) && Distinct(Names(segs)) && Fits(ts, PathRe(segs, Exact))
    ensures Inverts(segs, Joined(ts), Captures(ts))
    decreases |segs|
  {
    if segs == [] {
      assert Joined(ts[1..]) == "" && Captures(ts[1..]) == map[];
    } else {
      var rest, more := segs[1..], PathRe(segs[1..], Exact);
      assert segs == [segs[0]] + rest;
      TailDistinct(segs);
      if segs[0].Lit? {
        var u := "/" + segs[0].text;
        assert u[1..] == segs[0].text && Chars(u) == SegRe(segs[0]);
        CharsFit(u, more, ts);
        SkipChars(u, ts);
        CapturesInvert(rest, ts[|u|..]);
        InvertsLit(segs[0].text, rest, Joined(ts[|u|..]), Captures(ts[|u|..]));
      } else {
        ParamFits(segs[0].name, more, ts);
        SkipParam(segs[0].name, ts);
        CapturesInvert(rest, ts[2..]);
        InvertsParam(segs[0].name, ts[1].text, rest, Joined(ts[2..]), Captures(ts[2..]));
      }
    }
  }

  lemma TailDistinct(segs: seq<Seg>)
    requires segs != [] && Distinct(Names(segs))
    ensures Distinct(Names(segs[1..])) && (segs[0].Param? ==> segs[0].name !in Names(segs[1..]))
  {
    if segs[0].Param? {
      var names, rest := Names(segs), Names(segs[1..]);
      assert names[0] == segs[0].name && forall i :: 0 <= i < |rest| ==> names[i + 1] == rest[i];
    } else {
      assert Names(segs) == Names(segs[1..]);
    }
  }

  /**
   Captured parameters invert matching. Whatever match of the compiled pattern the engine picks,
   substituting the captured values into a pattern of literals and parameters gives the path, and
   every captured value is a non-empty segment.
   */
  lemma CapturedParamsGiveThePath(text: string, segs: seq<Seg>, sp: Spelling, path: string, ts: seq<Took>)
    requires WellFormed(Path(segs, Exact)) && StarFree(segs)
    requires PathSpelling.Spells(text, Render(Path(segs, Exact)), sp)
    requires NewPathMatcher(text).Some? && Matched(NewPathMatcher(text).value, path, ts)
    ensures Inverts(segs, path, Captures(ts))
  {
    var p, rs := Path(segs, Exact), PathRe(segs, Exact);
    SpelledIsNormal(text, Render(p), sp);
    RewritingParses(p);
    MatchSpansPath(segs, path, ts);
    forall k | 0 <= k < |ts| ensures Shape(ts[k]) { PlacedShape(ts[k], path); }
    assert Fits(ts, [Begin] + rs);
    FitsTail(ts, Begin, rs);
    CapturesInvert(segs, ts[1..]);
    EmptyPlus(Captures(ts[1..]));
  }

  /** A match of an anchored pattern takes the whole path. */
  lemma MatchSpansPath(segs: seq<Seg>, path: string, ts: seq<Took>)
    requires Matched([Begin] + PathRe(segs, Exact), path, ts)
    ensures Joined(ts) == path == Joined(ts[1..])
  {
    var rs := [Begin] + PathRe(segs, Exact);
    EndsInEnd(segs, Exact);
    MatchCoversText(rs, path, ts);
    var last := ts[|ts| - 1];
    assert last.item == End && Placed(last, path);
    PlacedShape(ts[0], path);
    assert path[0..|path|] == path;
  }

  /** Whenever the regular expression accepts, there is such a match to report. */
  lemma {:induction false} AcceptedIsMatched(rs: seq<Re>, s: string, i: nat, j: nat) returns (ts: seq<Took>)
    requires i <= j <= |s| && MatchSeq(rs, s, i, j)
    ensures Matched(rs, s, ts) && (ts != [] ==> ts[0].start == i)
  {
    if rs == [] {
      ts := [];
    } else {
      var m := SplitPoint(rs, s, i, j);
      var rest := AcceptedIsMatched(rs[1..], s, m, j);
      var t := Took(rs[0], i, s[i..m]);
      assert Placed(t, s);
      ts := [t] + rest;
      forall k | 0 <= k < |ts| ensures ts[k].item == rs[k] && Placed(ts[k], s) {
        if k > 0 { assert ts[k] == rest[k - 1] && rs[1..][k - 1] == rs[k]; }
      }
      forall k | 0 < k < |ts| ensures ts[k].start == ts[k - 1].start + |ts[k - 1].text| {
        if k > 1 { assert ts[k] == rest[k - 1] && ts[k - 1] == rest[k - 2]; }
      }
    }
  }

  /******* The loops *******/

  lemma MapAssoc(a: map<string, string>, b: map<string, string>, c: map<string, string>)
    ensures a + (b + c) == (a + b) + c
  {
  }

  /** What the loop does to its map at one item. */
  function Store(params: map<string, string>, t: Took): map<string, string> {
    if t.item.Group? && t.item.name != "" then params[t.item.name := t.text] else params
  }

  lemma StoreIsCapture(params: map<string, string>, t: Took)
    ensures Store(params, t) == params + ItemCapture(t)
  {
  }

  lemma CollectOne(params: map<string, string>, ts: seq<Took>, i: nat)
    requires i < |ts|
    ensures params + Captures(ts[i..]) == Store(params, ts[i]) + Captures(ts[i + 1..])
  {
    assert ts[i..][1..] == ts[i + 1..];
    MapAssoc(params, ItemCapture(ts[i]), Captures(ts[i + 1..]));
    StoreIsCapture(params, ts[i]);
  }

  lemma NothingLeft(params: map<string, string>, ts: seq<Took>)
    ensures params + Captures(ts[|ts|..]) == params
  {
  }

  /** The loop of Match over SubexpNames. */
  method CollectParams(ts: seq<Took>) returns (params: map<string, string>)
    ensures params == Captures(ts)
  {
    params := map[];
    assert ts[0..] == ts;
    EmptyPlus(Captures(ts));
    for i := 0 to |ts|
      invariant params + Captures(ts[i..]) == Captures(ts)
    {
      CollectOne(params, ts, i);
      params := Store(params, ts[i]);
    }
    NothingLeft(params, ts);
  }

  /** The loop of NewPathMatcher over the methods. */
  method MethodSet(methods: seq<string>) returns (upper: set<string>)
    ensures forall m :: m in upper <==> exists i :: 0 <= i < |methods| && ToUpper(methods[i]) == m
  {
    upper := {};
    for i := 0 to |methods|
      invariant forall m :: m in upper <==> exists k :: 0 <= k < i && ToUpper(methods[k]) == m
    {
      upper := upper + {ToUpper(methods[i])};
    }
  }
}
