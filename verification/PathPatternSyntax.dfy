/** The rewritten text of a well-formed pattern parses to the expected regular expression. */
module PathPatternSyntax {
  import opened Wrappers
  import opened Regex
  import opened PathPattern

  /******* The intended regular expression *******/

  function Chars(u: string): seq<Re> {
    if u == "" then [] else [Chr(u[0])] + Chars(u[1..])
  }

  const OneSegment: Re := Plus(Except('/'))

  function SegRe(seg: Seg): seq<Re> {
    match seg
    case Lit(text) => [Chr('/')] + Chars(text)
    case Param(name) => [Chr('/'), Group(name, [OneSegment])]
    case OneStar => [Opt(Group("", [Chr('/'), OneSegment]))]
    case DeepStar => TailRe(Rest)
  }

  function TailRe(tail: Tail): seq<Re> {
    if tail.Exact? then [End] else [Opt(Group("", [Chr('/'), Star(Any)])), End]
  }

  function PathRe(segs: seq<Seg>, tail: Tail): seq<Re> {
    if segs == [] then TailRe(tail) else SegRe(segs[0]) + PathRe(segs[1..], tail)
  }

  function PatternRe(p: Pattern): seq<Re> {
    [Begin] + match p
      case Path(segs, tail) => PathRe(segs, tail)
      case Prefix(base) => Chars(base) + [Star(Any), End]
  }

  /******* Its text *******/

  function SegText(seg: Seg): string {
    match seg
    case Lit(text) => "/" + text
    case Param(name) => "/(?P<" + name + ">[^/]+)"
    case OneStar => "(?:/[^/]+)?"
    case DeepStar => "(?:/.*)?$"
  }

  function BodyText(segs: seq<Seg>, tail: Tail): string {
    if segs == [] then (if tail.Exact? then "$" else "(?:/.*)?$")
    else SegText(segs[0]) + BodyText(segs[1..], tail)
  }

  /** Characters the replacer copies. */
  predicate Copied(c: char) {
    c != '/' && c != '{' && c != '}'
  }

  lemma ReplaceHit(head: string, t: string, text: string)
    requires head + t != "" && HitAt(head + t) == Hit(text, |head|)
    ensures Replace(head + t) == text + Replace(t)
  {
    assert (head + t)[|head|..] == t;
  }

  lemma CopyOne(c: char, t: string)
    requires Copied(c)
    ensures Replace([c] + t) == [c] + Replace(t)
  {
    ReplaceHit([c], t, [c]);
  }

  lemma SplitHead(u: string, t: string)
    requires u != ""
    ensures u + t == [u[0]] + (u[1..] + t)
  {
  }

  lemma {:induction false} ReplaceCopies(u: string, t: string)
    requires forall i :: 0 <= i < |u| ==> Copied(u[i])
    ensures Replace(u + t) == u + Replace(t)
  {
    if u == "" {
      assert u + t == t;
    } else {
      var c, v := u[0], u[1..];
      ReplaceCopies(v, t);
      CopyOne(c, v + t);
      SplitHead(u, t);
      SplitHead(u, Replace(t));
    }
  }

  /** A slash that no star follows is copied. */
  lemma ReplaceSlash(t: string)
    requires t == "" || t[0] != '*'
    ensures Replace("/" + t) == "/" + Replace(t)
  {
    ReplaceHit("/", t, "/");
  }

  lemma ReplaceBraces(name: string, t: string)
    requires forall i :: 0 <= i < |name| ==> Copied(name[i])
    ensures Replace("{" + (name + ("}" + t))) == "(?P<" + (name + (">[^/]+)" + Replace(t)))
  {
    ReplaceHit("{", name + ("}" + t), "(?P<");
    ReplaceCopies(name, "}" + t);
    ReplaceHit("}", t, ">[^/]+)");
  }

  lemma Assoc(a: string, b: string, c: string)
    ensures a + (b + c) == a + b + c
  {
  }

  lemma PlainStart(text: string, t: string)
    requires SegOk(Lit(text)) && (t == "" || t[0] == '/')
    ensures text + t == "" || (text + t)[0] != '*'
    ensures forall i :: 0 <= i < |text| ==> Copied(text[i])
  {
    assert forall i :: 0 <= i < |text| ==> PlainChar(text[i]);
  }

  lemma ReplaceLit(text: string, t: string)
    requires SegOk(Lit(text)) && (t == "" || t[0] == '/')
    ensures Replace("/" + text + t) == "/" + text + Replace(t)
  {
    Assoc("/", text, t);
    Assoc("/", text, Replace(t));
    PlainStart(text, t);
    ReplaceSlash(text + t);
    ReplaceCopies(text, t);
  }

  lemma ReplaceParam(name: string, t: string)
    requires SegOk(Param(name))
    ensures Replace("/{" + name + "}" + t) == "/(?P<" + name + ">[^/]+)" + Replace(t)
  {
    var u := "{" + (name + ("}" + t));
    ReplaceSlash(u);
    ReplaceBraces(name, t);
    FlattenParam(name, t, Replace(t));
  }

  lemma FlattenParam(name: string, t: string, r: string)
    ensures "/" + ("{" + (name + ("}" + t))) == "/{" + name + "}" + t
    ensures "/" + ("(?P<" + (name + (">[^/]+)" + r))) == "/(?P<" + name + ">[^/]+)" + r
  {
  }

  lemma ReplaceStar(t: string)
    requires t == "" || t[0] == '/'
    ensures Replace("/*" + t) == "(?:/[^/]+)?" + Replace(t)
  {
    ReplaceHit("/*", t, "(?:/[^/]+)?");
  }

  lemma ReplaceSeg(seg: Seg, t: string)
    requires SegOk(seg) && (t == "" || t[0] == '/')
    ensures Replace(RenderSeg(seg) + t) == SegText(seg) + Replace(t)
  {
    match seg
    case Lit(text) => ReplaceLit(text, t);
    case Param(name) => ReplaceParam(name, t);
    case OneStar => ReplaceStar(t);
    case DeepStar => ReplaceHit("/**", t, "(?:/.*)?$");
  }

  /** The three suffix tests, by characters. */
  lemma Suffixes(t: string)
    ensures HasSuffix(t, "*") <==> |t| >= 1 && t[|t| - 1] == '*'
    ensures HasSuffix(t, "/*") <==> |t| >= 2 && t[|t| - 2] == '/' && t[|t| - 1] == '*'
    ensures HasSuffix(t, "/**") <==> |t| >= 3 && t[|t| - 3] == '/' && t[|t| - 2] == '*' && t[|t| - 1] == '*'
  {
    if |t| >= 1 { assert t[|t| - 1..] == [t[|t| - 1]]; }
    if |t| >= 2 { assert t[|t| - 2..] == [t[|t| - 2], t[|t| - 1]]; }
    if |t| >= 3 { assert t[|t| - 3..] == [t[|t| - 3], t[|t| - 2], t[|t| - 1]]; }
  }

  function TailText(tail: Tail): string {
    if tail.Rest? then "/**" else ""
  }

  function ClosingText(tail: Tail): string {
    if tail.Exact? then "$" else ""
  }

  lemma ReplaceTail(tail: Tail)
    ensures Replace(TailText(tail)) + ClosingText(tail) == BodyText([], tail)
  {
    if tail.Rest? { ReplaceHit("/**", "", "(?:/.*)?$"); }
  }

  lemma {:induction false} ReplaceSegs(segs: seq<Seg>, tail: Tail)
    requires forall i :: 0 <= i < |segs| ==> SegOk(segs[i])
    ensures Replace(RenderSegs(segs) + TailText(tail)) + ClosingText(tail) == BodyText(segs, tail)
  {
    if segs == [] {
      ReplaceTail(tail);
      assert RenderSegs(segs) + TailText(tail) == TailText(tail);
    } else {
      var more := RenderSegs(segs[1..]);
      var t := more + TailText(tail);
      Assoc(RenderSeg(segs[0]), more, TailText(tail));
      ReplaceSeg(segs[0], t);
      ReplaceSegs(segs[1..], tail);
      Assoc(SegText(segs[0]), Replace(t), ClosingText(tail));
    }
  }

  /** A rendered path ends in a star exactly through its last segment or its tail. */
  lemma {:induction false} RenderedSuffix(segs: seq<Seg>, tail: Tail)
    requires (forall i :: 0 <= i < |segs| ==> SegOk(segs[i])) && LastOk(segs, tail)
    ensures StarsOk(RenderSegs(segs) + TailText(tail), tail.Rest?)
  {
    if |segs| == 0 {
      StarAlone();
      Suffixes("");
    } else if |segs| == 1 {
      assert RenderSegs(segs) == RenderSeg(segs[0]);
      OneSegSuffix(segs[0], tail);
    } else {
      RenderedSuffix(segs[1..], tail);
      var t := RenderSegs(segs[1..]) + TailText(tail);
      assert RenderSegs(segs) + TailText(tail) == RenderSeg(segs[0]) + t;
      LongEnough(segs[1..]);
      SuffixOfTail(RenderSeg(segs[0]), t);
    }
  }

  /** How a text ends, by the last one or two characters. */
  predicate StarsOk(t: string, rest: bool) {
    HasSuffix(t, "/**") == rest && (HasSuffix(t, "*") ==> HasSuffix(t, "/*") || HasSuffix(t, "/**"))
  }

  lemma NoStarAtEnd(t: string)
    requires t != "" && t[|t| - 1] != '*'
    ensures StarsOk(t, false)
  {
    Suffixes(t);
  }

  lemma StarAlone()
    ensures StarsOk("/*", false) && StarsOk("/**", true)
  {
    Suffixes("/*");
    Suffixes("/**");
  }

  lemma LitSuffix(text: string)
    requires SegOk(Lit(text))
    ensures StarsOk("/" + text, false)
  {
    if text != "" { assert PlainChar(text[|text| - 1]); }
    NoStarAtEnd("/" + text);
  }

  lemma OneSegSuffix(seg: Seg, tail: Tail)
    requires SegOk(seg) && (seg.DeepStar? ==> tail.Rest?)
    ensures StarsOk(RenderSeg(seg) + TailText(tail), tail.Rest?)
  {
    StarAlone();
    if tail.Rest? {
      SuffixOfTail(RenderSeg(seg), "/**");
    } else {
      assert RenderSeg(seg) + "" == RenderSeg(seg);
      match seg
      case Lit(text) => LitSuffix(text);
      case Param(name) => NoStarAtEnd("/{" + name + "}");
      case OneStar =>
      case DeepStar =>
    }
  }

  lemma LongEnough(segs: seq<Seg>)
    requires segs != []
    ensures |RenderSegs(segs)| >= 1 && RenderSegs(segs)[0] == '/'
  {
  }

  /** Text in front of a text that starts with a slash does not change which stars it ends in. */
  lemma SuffixOfTail(u: string, t: string)
    requires t != "" && t[0] == '/'
    ensures HasSuffix(u + t, "*") == HasSuffix(t, "*")
    ensures HasSuffix(u + t, "/*") == HasSuffix(t, "/*")
    ensures HasSuffix(u + t, "/**") == HasSuffix(t, "/**")
  {
    Suffixes(t);
    Suffixes(u + t);
  }

  lemma PathText(p: Pattern)
    requires p.Path? && WellFormed(p)
    ensures RegexText(Render(p)) == "^" + BodyText(p.segs, p.tail)
  {
    RenderedSuffix(p.segs, p.tail);
    ReplaceSegs(p.segs, p.tail);
    assert Render(p) == RenderSegs(p.segs) + TailText(p.tail);
  }

  /******* Parsing it *******/

  predicate NoQuantifier(t: string) {
    t == "" || !Quantifier(t[0])
  }

  /** Parsing `t` gives `rs` and leaves `rest`. */
  predicate Parses(t: string, rs: seq<Re>, rest: string) {
    ParseSeq(t) == Some(Parsed(rs, rest))
  }

  lemma ParseItem(t: string, atom: Re, t1: string, item: Re, t2: string, rs: seq<Re>, rest: string)
    requires t != "" && t[0] != ')' && ParseAtom(t) == Some(Parsed(atom, t1))
    requires ParseQuantifier(atom, t1) == Some(Parsed(item, t2)) && Parses(t2, rs, rest)
    ensures Parses(t, [item] + rs, rest)
  {
  }

  lemma ParseChar(c: char, t: string, rs: seq<Re>, rest: string)
    requires !Meta(c) && NoQuantifier(t) && Parses(t, rs, rest)
    ensures Parses([c] + t, [Chr(c)] + rs, rest)
  {
    assert ([c] + t)[1..] == t;
  }

  lemma {:induction false} ParseChars(u: string, t: string, rs: seq<Re>, rest: string)
    requires forall i :: 0 <= i < |u| ==> !Meta(u[i])
    requires NoQuantifier(t) && Parses(t, rs, rest)
    ensures Parses(u + t, Chars(u) + rs, rest)
  {
    if u == "" {
      assert u + t == t && Chars(u) + rs == rs;
    } else {
      ParseChars(u[1..], t, rs, rest);
      ParseChar(u[0], u[1..] + t, Chars(u[1..]) + rs, rest);
      assert u + t == [u[0]] + (u[1..] + t);
      assert Chars(u) + rs == [Chr(u[0])] + (Chars(u[1..]) + rs);
    }
  }

  /** `[^/]+)...` */
  lemma ParseOneSegment(t: string)
    ensures Parses("[^/]+)" + t, [OneSegment], ")" + t)
  {
    var all := "[^/]+)" + t;
    assert all[4..] == "+)" + t;
    assert ParseAtom(all) == Some(Parsed(Except('/'), "+)" + t));
    assert ("+)" + t)[1..] == ")" + t;
    assert ParseQuantifier(Except('/'), "+)" + t) == Some(Parsed(OneSegment, ")" + t));
    assert Parses(")" + t, [], ")" + t);
    ParseItem(all, Except('/'), "+)" + t, OneSegment, ")" + t, [], ")" + t);
    assert [OneSegment] + [] == [OneSegment];
  }

  /** `/.*)...` */
  lemma ParseRest(t: string)
    ensures Parses("/.*)" + t, [Chr('/'), Star(Any)], ")" + t)
  {
    var dot := ".*)" + t;
    assert dot[1..] == "*)" + t;
    assert ParseAtom(dot) == Some(Parsed(Any, "*)" + t));
    assert ("*)" + t)[1..] == ")" + t;
    assert ParseQuantifier(Any, "*)" + t) == Some(Parsed(Star(Any), ")" + t));
    assert Parses(")" + t, [], ")" + t);
    ParseItem(dot, Any, "*)" + t, Star(Any), ")" + t, [], ")" + t);
    assert [Star(Any)] + [] == [Star(Any)];
    ParseChar('/', dot, [Star(Any)], ")" + t);
    assert [Chr('/')] + [Star(Any)] == [Chr('/'), Star(Any)];
    assert "/.*)" + t == ['/'] + dot;
  }

  /** `(?:body)...` */
  lemma ParseNoncapturing(text: string, body: seq<Re>, t: string)
    requires Parses(text + ")" + t, body, ")" + t)
    ensures ParseAtom("(?:" + text + ")" + t) == Some(Parsed(Group("", body), t))
  {
    var all := "(?:" + text + ")" + t;
    assert all[3..] == text + ")" + t;
    assert (")" + t)[1..] == t;
  }

  /** `(?:body)?...` */
  lemma ParseOptional(text: string, body: seq<Re>, t: string, rs: seq<Re>, rest: string)
    requires Parses(text + ")?" + t, body, ")?" + t)
    requires NoQuantifier(t) && Parses(t, rs, rest)
    ensures Parses("(?:" + text + ")?" + t, [Opt(Group("", body))] + rs, rest)
  {
    var all, g := "(?:" + text + ")?" + t, Group("", body);
    assert text + ")?" + t == text + ")" + ("?" + t) && ")?" + t == ")" + ("?" + t);
    assert all == "(?:" + text + ")" + ("?" + t);
    ParseNoncapturing(text, body, "?" + t);
    assert ("?" + t)[1..] == t;
    assert ParseQuantifier(g, "?" + t) == Some(Parsed(Opt(g), t));
    ParseItem(all, g, "?" + t, Opt(g), t, rs, rest);
  }

  lemma {:induction false} WordPrefixOf(name: string, t: string)
    requires forall i :: 0 <= i < |name| ==> WordChar(name[i])
    requires t != "" && !WordChar(t[0])
    ensures WordPrefix(name + t) == |name|
  {
    if name != "" {
      assert (name + t)[1..] == name[1..] + t;
      WordPrefixOf(name[1..], t);
    }
  }

  lemma ParseNamed(name: string, t: string)
    requires name != "" && forall i :: 0 <= i < |name| ==> WordChar(name[i])
    ensures ParseAtom("(?P<" + name + ">" + t) == ParseGroup(name, t)
  {
    var all, n := "(?P<" + name + ">" + t, |name|;
    assert all[4..] == name + (">" + t);
    WordPrefixOf(name, ">" + t);
    assert all[4..4 + n] == name && all[4 + n] == '>' && all[5 + n..] == t;
    assert all[2] == 'P';
  }

  /** `(?P<name>[^/]+)...` */
  lemma ParseParam(name: string, t: string, rs: seq<Re>, rest: string)
    requires name != "" && forall i :: 0 <= i < |name| ==> WordChar(name[i])
    requires NoQuantifier(t) && Parses(t, rs, rest)
    ensures Parses("(?P<" + name + ">[^/]+)" + t, [Group(name, [OneSegment])] + rs, rest)
  {
    var all, g := "(?P<" + name + ">[^/]+)" + t, Group(name, [OneSegment]);
    assert all == "(?P<" + name + ">" + ("[^/]+)" + t);
    ParseNamed(name, "[^/]+)" + t);
    ParseOneSegment(t);
    assert (")" + t)[1..] == t;
    assert ParseGroup(name, "[^/]+)" + t) == Some(Parsed(g, t));
    ParseItem(all, g, t, g, t, rs, rest);
  }

  lemma ParseLitText(text: string, t: string, rs: seq<Re>, rest: string)
    requires SegOk(Lit(text)) && NoQuantifier(t) && Parses(t, rs, rest)
    ensures Parses("/" + text + t, [Chr('/')] + Chars(text) + rs, rest)
  {
    assert ("/" + text)[1..] == text;
    ParseChars("/" + text, t, rs, rest);
  }

  lemma ParseParamText(name: string, t: string, rs: seq<Re>, rest: string)
    requires SegOk(Param(name)) && NoQuantifier(t) && Parses(t, rs, rest)
    ensures Parses("/(?P<" + name + ">[^/]+)" + t, [Chr('/'), Group(name, [OneSegment])] + rs, rest)
  {
    ParseParam(name, t, rs, rest);
    var u := "(?P<" + name + ">[^/]+)" + t;
    ParseChar('/', u, [Group(name, [OneSegment])] + rs, rest);
    assert "/(?P<" + name + ">[^/]+)" + t == ['/'] + u;
    assert [Chr('/'), Group(name, [OneSegment])] + rs == [Chr('/')] + ([Group(name, [OneSegment])] + rs);
  }

  lemma ParseStarBody(t: string)
    ensures Parses("/[^/]+" + ")?" + t, [Chr('/'), OneSegment], ")?" + t)
  {
    ParseOneSegment("?" + t);
    assert "[^/]+)" + ("?" + t) == "[^/]+)?" + t && ")" + ("?" + t) == ")?" + t;
    ParseChar('/', "[^/]+)?" + t, [OneSegment], ")?" + t);
    assert ['/'] + ("[^/]+)?" + t) == "/[^/]+" + ")?" + t;
    assert [Chr('/')] + [OneSegment] == [Chr('/'), OneSegment];
  }

  lemma ParseStarText(t: string, rs: seq<Re>, rest: string)
    requires NoQuantifier(t) && Parses(t, rs, rest)
    ensures Parses("(?:/[^/]+)?" + t, [Opt(Group("", [Chr('/'), OneSegment]))] + rs, rest)
  {
    ParseStarBody(t);
    ParseOptional("/[^/]+", [Chr('/'), OneSegment], t, rs, rest);
    assert "(?:" + "/[^/]+" + ")?" + t == "(?:/[^/]+)?" + t;
  }

  /** `$...` */
  lemma ParseAnchor(t: string, rs: seq<Re>, rest: string)
    requires NoQuantifier(t) && Parses(t, rs, rest)
    ensures Parses("$" + t, [End] + rs, rest)
  {
    assert ("$" + t)[1..] == t;
    assert ParseAtom("$" + t) == Some(Parsed(End, t));
    ParseItem("$" + t, End, t, End, t, rs, rest);
  }

  lemma ParseDeepText(t: string, rs: seq<Re>, rest: string)
    requires NoQuantifier(t) && Parses(t, rs, rest)
    ensures Parses("(?:/.*)?$" + t, TailRe(Rest) + rs, rest)
  {
    var opt := Opt(Group("", [Chr('/'), Star(Any)]));
    ParseAnchor(t, rs, rest);
    ParseRest("?" + ("$" + t));
    assert "/.*)" + ("?" + ("$" + t)) == "/.*" + ")?" + ("$" + t);
    assert ")" + ("?" + ("$" + t)) == ")?" + ("$" + t);
    ParseOptional("/.*", [Chr('/'), Star(Any)], "$" + t, [End] + rs, rest);
    assert "(?:" + "/.*" + ")?" + ("$" + t) == "(?:/.*)?$" + t;
    assert TailRe(Rest) + rs == [opt] + ([End] + rs);
  }

  lemma ParseSegText(seg: Seg, t: string, rs: seq<Re>, rest: string)
    requires SegOk(seg) && NoQuantifier(t) && Parses(t, rs, rest)
    ensures Parses(SegText(seg) + t, SegRe(seg) + rs, rest)
  {
    match seg
    case Lit(text) => ParseLitText(text, t, rs, rest);
    case Param(name) => ParseParamText(name, t, rs, rest);
    case OneStar => ParseStarText(t, rs, rest);
    case DeepStar => ParseDeepText(t, rs, rest);
  }

  lemma ParseEnd()
    ensures Parses("$", [End], "")
  {
    assert ParseAtom("$") == Some(Parsed(End, ""));
    assert Parses("", [], "");
    ParseItem("$", End, "", End, "", [], "");
    assert [End] + [] == [End];
  }

  lemma ParseTail(tail: Tail)
    ensures Parses(BodyText([], tail), TailRe(tail), "")
  {
    ParseEnd();
    if tail.Rest? {
      ParseRest("?$");
      assert "/.*)" + "?$" == "/.*" + ")?" + "$" && ")" + "?$" == ")?" + "$";
      ParseOptional("/.*", [Chr('/'), Star(Any)], "$", [End], "");
      assert "(?:" + "/.*" + ")?" + "$" == "(?:/.*)?$";
      var opt := Opt(Group("", [Chr('/'), Star(Any)]));
      assert [opt] + [End] == [opt, End];
    }
  }

  lemma {:induction false} ParseBody(segs: seq<Seg>, tail: Tail)
    requires forall i :: 0 <= i < |segs| ==> SegOk(segs[i])
    ensures Parses(BodyText(segs, tail), PathRe(segs, tail), "") && NoQuantifier(BodyText(segs, tail))
  {
    if segs == [] {
      ParseTail(tail);
    } else {
      ParseBody(segs[1..], tail);
      ParseSegText(segs[0], BodyText(segs[1..], tail), PathRe(segs[1..], tail), "");
    }
  }

  lemma ParseBegin(t: string, rs: seq<Re>)
    requires NoQuantifier(t) && Parses(t, rs, "")
    ensures Parses("^" + t, [Begin] + rs, "")
  {
    assert ("^" + t)[1..] == t;
  }

  /******* Prefix patterns *******/

  lemma {:induction false} ParseQuoted(u: string, t: string, rs: seq<Re>)
    requires NoQuantifier(t) && Parses(t, rs, "")
    ensures Parses(QuoteMeta(u) + t, Chars(u) + rs, "") && NoQuantifier(QuoteMeta(u) + t)
  {
    if u == "" {
      assert QuoteMeta(u) + t == t && Chars(u) + rs == rs;
    } else {
      var more, mrs := QuoteMeta(u[1..]) + t, Chars(u[1..]) + rs;
      ParseQuoted(u[1..], t, rs);
      assert Chars(u) + rs == [Chr(u[0])] + mrs;
      if Meta(u[0]) {
        var all := ['\\', u[0]] + more;
        assert QuoteMeta(u) + t == all && all[2..] == more;
        assert ParseAtom(all) == Some(Parsed(Chr(u[0]), more));
      } else {
        assert QuoteMeta(u) + t == [u[0]] + more;
        ParseChar(u[0], more, mrs, "");
      }
    }
  }

  lemma ParseAnyRest()
    ensures Parses(".*$", [Star(Any), End], "")
  {
    ParseEnd();
    assert ".*$"[1..] == "*$" && "*$"[1..] == "$";
    assert ParseAtom(".*$") == Some(Parsed(Any, "*$"));
    assert ParseQuantifier(Any, "*$") == Some(Parsed(Star(Any), "$"));
    ParseItem(".*$", Any, "*$", Star(Any), "$", [End], "");
    assert [Star(Any)] + [End] == [Star(Any), End];
  }

  lemma PrefixText(p: Pattern)
    requires p.Prefix? && WellFormed(p)
    ensures RegexText(Render(p)) == "^" + (QuoteMeta(p.base) + ".*$")
  {
    Suffixes(Render(p));
    Suffixes(p.base);
    assert p.base[|p.base| - 1..] == [p.base[|p.base| - 1]];
    assert Render(p)[..|p.base|] == p.base;
  }

  /******* Group names *******/

  lemma {:induction false} NamesOfConcat(a: seq<Re>, b: seq<Re>)
    ensures GroupNames(a + b) == GroupNames(a) + GroupNames(b)
  {
    if a == [] {
      assert a + b == b;
    } else {
      assert (a + b)[1..] == a[1..] + b;
      NamesOfConcat(a[1..], b);
    }
  }

  lemma {:induction false} NamesOfChars(u: string)
    ensures GroupNames(Chars(u)) == []
  {
    if u != "" {
      assert Chars(u)[1..] == Chars(u[1..]);
      NamesOfChars(u[1..]);
    }
  }

  lemma NamesOfOne(r: Re)
    ensures GroupNames([r]) == if r.Group? && r.name != "" then [r.name] else []
  {
    assert [r][1..] == [];
  }

  lemma NamesOfTail(tail: Tail)
    ensures GroupNames(TailRe(tail)) == []
  {
    NamesOfOne(End);
    if tail.Rest? { assert TailRe(tail)[1..] == [End]; }
  }

  lemma NamesOfSeg(seg: Seg)
    requires SegOk(seg)
    ensures GroupNames(SegRe(seg)) == if seg.Param? then [seg.name] else []
  {
    match seg
    case Lit(text) =>
      NamesOfChars(text);
      assert SegRe(seg)[1..] == Chars(text);
    case Param(name) =>
      NamesOfOne(Group(name, [OneSegment]));
      assert SegRe(seg)[1..] == [Group(name, [OneSegment])];
    case OneStar => NamesOfOne(SegRe(seg)[0]);
    case DeepStar => NamesOfTail(Rest);
  }

  lemma {:induction false} NamesOfPath(segs: seq<Seg>, tail: Tail)
    requires forall i :: 0 <= i < |segs| ==> SegOk(segs[i])
    ensures GroupNames(PathRe(segs, tail)) == Names(segs)
  {
    if segs == [] {
      NamesOfTail(tail);
    } else {
      NamesOfConcat(SegRe(segs[0]), PathRe(segs[1..], tail));
      NamesOfPath(segs[1..], tail);
      NamesOfSeg(segs[0]);
    }
  }

  lemma PathParses(p: Pattern)
    requires p.Path? && WellFormed(p)
    ensures Compile(RegexText(Render(p))) == Some(PatternRe(p))
  {
    PathText(p);
    ParseBody(p.segs, p.tail);
    ParseBegin(BodyText(p.segs, p.tail), PathRe(p.segs, p.tail));
    NamesOfPath(p.segs, p.tail);
    assert PatternRe(p)[1..] == PathRe(p.segs, p.tail);
  }

  lemma PrefixParses(p: Pattern)
    requires p.Prefix? && WellFormed(p)
    ensures Compile(RegexText(Render(p))) == Some(PatternRe(p))
  {
    PrefixText(p);
    ParseAnyRest();
    var rs := Chars(p.base) + [Star(Any), End];
    ParseQuoted(p.base, ".*$", [Star(Any), End]);
    ParseBegin(QuoteMeta(p.base) + ".*$", rs);
    NamesOfPrefix(p.base);
    assert PatternRe(p)[1..] == rs;
  }

  lemma NamesOfPrefix(base: string)
    ensures GroupNames(Chars(base) + [Star(Any), End]) == []
  {
    NamesOfConcat(Chars(base), [Star(Any), End]);
    NamesOfChars(base);
    assert [Star(Any), End][1..] == [End];
  }

  /** A well-formed pattern compiles, to the intended regular expression. */
  lemma RewritingParses(p: Pattern)
    requires WellFormed(p)
    ensures Compile(RegexText(Render(p))) == Some(PatternRe(p))
  {
    if p.Path? { PathParses(p); } else { PrefixParses(p); }
  }
}
