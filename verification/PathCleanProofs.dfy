/** Keys stay below their root, and request paths are normalised once and for all. */
module PathCleanProofs {
  import opened Wrappers
  import opened PathClean

  /******* Split and Join *******/

  lemma {:induction false} SplitAppend(a: string, b: string)
    ensures Split(a + "/" + b) == Split(a) + Split(b)
  {
    if a == "" {
      assert a + "/" + b == "/" + b;
      assert ("/" + b)[1..] == b;
    } else {
      assert (a + "/" + b)[1..] == a[1..] + "/" + b;
      SplitAppend(a[1..], b);
    }
  }

  predicate Plain(seg: string) {
    '/' !in seg
  }

  predicate AllPlain(segs: seq<string>) {
    forall i :: 0 <= i < |segs| ==> Plain(segs[i])
  }

  lemma {:induction false} SplitPlain(s: string)
    requires Plain(s)
    ensures Split(s) == [s]
  {
    if s != "" {
      assert s[0] in s;
      SplitPlain(s[1..]);
      assert [s[0]] + s[1..] == s;
    }
  }

  lemma {:induction false} SplitIsPlain(s: string)
    ensures AllPlain(Split(s))
  {
    if s != "" { SplitIsPlain(s[1..]); }
  }

  lemma {:induction false} SplitJoin(segs: seq<string>)
    requires segs != [] && AllPlain(segs)
    ensures Split(Join(segs)) == segs
  {
    if |segs| == 1 {
      SplitPlain(segs[0]);
    } else {
      SplitPlain(segs[0]);
      SplitJoin(segs[1..]);
      SplitAppend(segs[0], Join(segs[1..]));
      assert segs == [segs[0]] + segs[1..];
    }
  }

  /******* Cleaned segments *******/

  /** Segments that cleaning can leave: ".." only at the beginning, and never below a root. */
  predicate Canonical(rooted: bool, out: seq<string>) {
    forall i :: 0 <= i < |out| ==>
      && out[i] != "" && out[i] != "." && Plain(out[i])
      && (out[i] == ".." ==> !rooted && forall j :: 0 <= j < i ==> out[j] == "..")
  }

  lemma PushCanonical(rooted: bool, out: seq<string>, seg: string)
    requires Canonical(rooted, out) && Plain(seg)
    ensures Canonical(rooted, Push(rooted, out, seg))
  {
    var r := Push(rooted, out, seg);
    if seg == ".." && |r| > |out| {
      forall j | 0 <= j < |out| ensures out[j] == ".." {
        assert out[|out| - 1] == "..";
      }
    }
  }

  lemma {:induction false} FoldCanonical(rooted: bool, out: seq<string>, segs: seq<string>)
    requires Canonical(rooted, out) && AllPlain(segs)
    ensures Canonical(rooted, Fold(rooted, out, segs))
  {
    if segs != [] {
      FoldCanonical(rooted, out, segs[..|segs| - 1]);
      PushCanonical(rooted, Fold(rooted, out, segs[..|segs| - 1]), segs[|segs| - 1]);
    }
  }

  lemma SegsCanonical(p: string)
    ensures Canonical(Rooted(p), Segs(p))
  {
    SplitIsPlain(p);
    FoldCanonical(Rooted(p), [], Split(p));
  }

  lemma {:induction false} FoldAppend(rooted: bool, out: seq<string>, a: seq<string>, b: seq<string>)
    ensures Fold(rooted, out, a + b) == Fold(rooted, Fold(rooted, out, a), b)
  {
    if b == [] {
      assert a + b == a;
    } else {
      FoldAppend(rooted, out, a, b[..|b| - 1]);
      assert (a + b)[..|a + b| - 1] == a + b[..|b| - 1];
    }
  }

  lemma CanonicalInit(rooted: bool, out: seq<string>)
    requires out != [] && Canonical(rooted, out)
    ensures Canonical(rooted, out[..|out| - 1])
    ensures Push(rooted, out[..|out| - 1], out[|out| - 1]) == out
  {
    var init, last := out[..|out| - 1], out[|out| - 1];
    assert init + [last] == out;
    if last == ".." && init != [] { assert out[|init| - 1] == ".."; }
  }

  /** Cleaning canonical segments changes nothing. */
  lemma {:induction false} FoldFixed(rooted: bool, out: seq<string>)
    requires Canonical(rooted, out)
    ensures Fold(rooted, [], out) == out
  {
    if out != [] {
      CanonicalInit(rooted, out);
      FoldFixed(rooted, out[..|out| - 1]);
    }
  }

  /** A segment that says nothing can be added anywhere. */
  lemma FoldEmptyFirst(rooted: bool, segs: seq<string>)
    ensures Fold(rooted, [], [""] + segs) == Fold(rooted, [], segs)
  {
    FoldAppend(rooted, [], [""], segs);
    assert Fold(rooted, [], [""]) == [] by { assert [""][..0] == []; }
  }

  lemma FoldEmptyLast(rooted: bool, segs: seq<string>)
    ensures Fold(rooted, [], segs + [""]) == Fold(rooted, [], segs)
  {
    assert (segs + [""])[..|segs|] == segs;
  }

  /******* The rules of cleaning *******/

  predicate Name(seg: string) {
    seg != "" && seg != "." && seg != ".."
  }

  /** Empty segments and single dots go. */
  lemma DotRule(rooted: bool, a: seq<string>, dot: string, b: seq<string>)
    requires dot == "" || dot == "."
    ensures Fold(rooted, [], a + [dot] + b) == Fold(rooted, [], a + b)
  {
    FoldAppend(rooted, [], a + [dot], b);
    FoldAppend(rooted, [], a, b);
    assert (a + [dot])[..|a|] == a;
  }

  /** A name followed by two dots goes, together with them. */
  lemma DotDotRule(rooted: bool, a: seq<string>, name: string, b: seq<string>)
    requires Name(name)
    ensures Fold(rooted, [], a + [name, ".."] + b) == Fold(rooted, [], a + b)
  {
    var out := Fold(rooted, [], a);
    FoldAppend(rooted, [], a + [name, ".."], b);
    FoldAppend(rooted, [], a, b);
    FoldAppend(rooted, [], a, [name, ".."]);
    assert [name, ".."][..1] == [name] && [name][..0] == [];
    assert Fold(rooted, out, [name]) == out + [name];
    assert (out + [name])[..|out|] == out;
  }

  /** Two dots at the root go. */
  lemma RootDotDotRule(b: seq<string>)
    ensures Fold(true, [], [".."] + b) == Fold(true, [], b)
  {
    FoldAppend(true, [], [".."], b);
    assert [".."][..0] == [] && Fold(true, [], []) == [];
  }

  /******* Rendering can be read back *******/

  lemma SlashSplits(s: string)
    ensures Split("/" + s) == [""] + Split(s)
  {
    assert ("/" + s)[1..] == s;
  }

  lemma SegsRooted(s: string)
    ensures Segs("/" + s) == Fold(true, [], Split(s))
  {
    SlashSplits(s);
    FoldEmptyFirst(true, Split(s));
  }

  /** Join of canonical segments does not begin with a slash. */
  lemma JoinUnrooted(segs: seq<string>)
    requires segs != [] && Canonical(false, segs)
    ensures Join(segs) != "" && Join(segs)[0] == segs[0][0] && !Rooted(Join(segs))
  {
    assert segs[0][0] in segs[0];
  }

  lemma CanonicalIsPlain(rooted: bool, segs: seq<string>)
    requires Canonical(rooted, segs)
    ensures AllPlain(segs) && Canonical(false, segs)
  {
  }

  /** Reading a rendered path gives back its segments. */
  lemma RenderSegs(rooted: bool, segs: seq<string>)
    requires Canonical(rooted, segs)
    ensures Rooted(Render(rooted, segs)) == rooted && Segs(Render(rooted, segs)) == segs
  {
    CanonicalIsPlain(rooted, segs);
    if segs == [] {
      if rooted {
        assert "/" + Join(segs) == "/" + "";
        SegsRooted("");
        assert Split("") == [""];
        assert [""][..0] == [];
        assert Fold(true, [], []) == [];
      } else {
        SplitPlain(".");
        assert ["."][..0] == [];
        assert Fold(false, [], []) == [];
      }
    } else {
      SplitJoin(segs);
      FoldFixed(rooted, segs);
      if rooted {
        SegsRooted(Join(segs));
      } else {
        JoinUnrooted(segs);
      }
    }
  }

  /** Cleaning twice is cleaning once. */
  lemma CleanIdempotent(p: string)
    ensures Clean(Clean(p)) == Clean(p)
    ensures Segs(Clean(p)) == Segs(p) && Rooted(Clean(p)) == Rooted(p)
  {
    SegsCanonical(p);
    RenderSegs(Rooted(p), Segs(p));
  }

  /******* Keys stay below their root *******/

  /** The cleaned segments climb out of where they start. */
  predicate Climbs(out: seq<string>) {
    out != [] && out[0] == ".."
  }

  lemma PushKeepsClimbing(out: seq<string>, seg: string)
    requires Climbs(out)
    ensures Climbs(Push(false, out, seg))
  {
  }

  /** Where the segments do not climb, they can be cleaned on top of anything. */
  lemma {:induction false} FoldOnTop(rooted: bool, base: seq<string>, segs: seq<string>)
    requires AllPlain(segs) && !Climbs(Fold(false, [], segs))
    ensures Fold(rooted, base, segs) == base + Fold(false, [], segs)
  {
    if segs == [] {
      assert base + [] == base;
    } else {
      var init, last := segs[..|segs| - 1], segs[|segs| - 1];
      var f := Fold(false, [], init);
      if Climbs(f) { PushKeepsClimbing(f, last); }
      FoldOnTop(rooted, base, init);
      FoldCanonical(false, [], init);
      assert Fold(false, [], segs) == Push(false, f, last);
      if f != [] {
        assert (base + f)[|base + f| - 1] == f[|f| - 1] && (base + f)[..|base + f| - 1] == base + f[..|f| - 1];
      }
      if last != ".." && last != "" && last != "." { assert (base + f) + [last] == base + (f + [last]); }
    }
  }

  /** validateKey on strings refuses exactly the keys that are rooted or climb. */
  lemma ValidKeyIff(key: string)
    ensures ValidKey(key) <==> key != "" && !Rooted(key) && !Climbs(Segs(key))
  {
    if key != "" && !Rooted(key) {
      SegsCanonical(key);
      ClimbsIff(Segs(key));
    }
  }

  lemma ClimbsIff(segs: seq<string>)
    requires Canonical(false, segs)
    ensures Climbs(segs) <==> Render(false, segs) == ".." || HasPrefix(Render(false, segs), "../")
  {
    var r := Render(false, segs);
    CanonicalIsPlain(false, segs);
    if segs != [] {
      SplitJoin(segs);
      if r == ".." {
        SplitPlain("..");
        assert segs == [".."];
      }
      if HasPrefix(r, "../") {
        assert r == ".." + "/" + r[3..];
        SplitAppend("..", r[3..]);
        SplitPlain("..");
        assert segs[0] == "..";
      }
      if segs[0] == ".." && |segs| > 1 {
        assert r == ".." + "/" + Join(segs[1..]);
        assert r[..3] == "../";
      }
    }
  }

  /**
   For every key that is accepted, the resolved path is the root followed by the key's own cleaned
   segments: no key reaches outside the root, whatever dots and slashes it is made of.
   */
  lemma KeyStaysBelowRoot(root: string, key: string)
    requires ValidKey(key)
    ensures Rooted(JoinPath(root, key)) == Rooted(root)
    ensures Segs(JoinPath(root, key)) == Segs(root) + Segs(key)
  {
    ValidKeyIff(key);
    SplitIsPlain(key);
    FoldOnTop(Rooted(root), Segs(root), Split(key));
    if root == "" {
      CleanIdempotent(key);
      assert Segs(root) == [] by { assert Split("") == [""] && [""][..0] == []; }
    } else {
      CleanIdempotent(root + "/" + key);
      SplitAppend(root, key);
      FoldAppend(Rooted(root), [], Split(root), Split(key));
    }
  }

  /** pathForKey: refused keys give no path; accepted ones the main file or a path below the root. */
  lemma PathForKeyStaysBelowRoot(s: FileSource, key: string)
    ensures
      match PathForKey(s, key)
      case None => key == "" || Rooted(key) || Climbs(Segs(key))
      case Some(p) =>
        && key != "" && !Rooted(key) && !Climbs(Segs(key))
        && (if key == s.mainKey then p == s.mainPath else Segs(p) == Segs(s.root) + Segs(key))
  {
    ValidKeyIff(key);
    if ValidKey(key) { KeyStaysBelowRoot(s.root, key); }
  }

  /******* Related keys *******/

  lemma {:induction false} UpToSlashSplit(p: string)
    ensures
      var d := UpToSlash(p);
      && |d| <= |p| && d == p[..|d|] && Plain(p[|d|..])
      && (d == "" || d[|d| - 1] == '/')
  {
    if p != "" && p[|p| - 1] != '/' {
      var init := p[..|p| - 1];
      UpToSlashSplit(init);
      var d := UpToSlash(init);
      assert p[|d|..] == init[|d|..] + [p[|p| - 1]];
    }
  }

  /** The directory of a key has the key's segments but the last. */
  ghost predicate AllButLast(p: string) {
    Rooted(Dir(p)) == Rooted(p) && Segs(Dir(p)) == Fold(Rooted(p), [], Split(p)[..|Split(p)| - 1])
  }

  lemma DirSegsPlain(p: string)
    requires Plain(p) && UpToSlash(p) == ""
    ensures AllButLast(p)
  {
    SplitPlain(p);
    CleanIdempotent("");
    assert Segs("") == [] by { assert Split("") == [""] && [""][..0] == []; }
    if p != "" { assert p[0] in p; }
  }

  lemma SplitSlash(head: string, name: string)
    requires Plain(name)
    ensures Split(head + "/" + name)[..|Split(head + "/" + name)| - 1] == Split(head)
  {
    SplitPlain(name);
    SplitAppend(head, name);
  }

  lemma SegsSlash(head: string)
    ensures Segs(head + "/") == Fold(Rooted(head + "/"), [], Split(head))
  {
    SplitAppend(head, "");
    assert head + "/" + "" == head + "/";
    FoldEmptyLast(Rooted(head + "/"), Split(head));
  }

  lemma DirSegsSlash(p: string, head: string, name: string)
    requires p == head + "/" + name && Plain(name) && UpToSlash(p) == head + "/"
    ensures AllButLast(p)
  {
    SplitSlash(head, name);
    SegsSlash(head);
    CleanIdempotent(head + "/");
    assert Rooted(head + "/") == Rooted(p);
  }

  lemma DirSegs(p: string)
    ensures AllButLast(p)
  {
    UpToSlashSplit(p);
    var d := UpToSlash(p);
    if d == "" {
      assert p[0..] == p;
      DirSegsPlain(p);
    } else {
      var head, name := d[..|d| - 1], p[|d|..];
      assert d == head + "/";
      assert p == d + name;
      DirSegsSlash(p, head, name);
    }
  }

  /** A related key of accepted keys is accepted, and stands beside the main key. */
  lemma RelatedKeyIsBeside(mainKey: string, relative: string)
    requires ValidKey(mainKey) && ValidKey(relative)
    ensures Segs(RelatedKey(mainKey, relative)) == Segs(Dir(mainKey)) + Segs(relative)
    ensures ValidKey(RelatedKey(mainKey, relative))
  {
    var key, dir := RelatedKey(mainKey, relative), Dir(mainKey);
    DirSegs(mainKey);
    DirDoesNotClimb(mainKey);
    ValidKeyIff(relative);
    if dir == "." {
      CleanIdempotent(relative);
      assert Segs(dir) == [] by { SplitPlain("."); assert ["."][..0] == []; }
    } else {
      KeyStaysBelowRoot(dir, relative);
    }
    assert !Climbs(Segs(key));
    RelatedKeyNotEmpty(mainKey, relative);
    ValidKeyIff(key);
  }

  lemma DirDoesNotClimb(mainKey: string)
    requires ValidKey(mainKey)
    ensures !Rooted(Dir(mainKey)) && !Climbs(Segs(Dir(mainKey)))
  {
    ValidKeyIff(mainKey);
    DirSegs(mainKey);
    var segs := Split(mainKey);
    var f := Fold(false, [], segs[..|segs| - 1]);
    if Climbs(f) { PushKeepsClimbing(f, segs[|segs| - 1]); }
  }

  lemma RelatedKeyNotEmpty(mainKey: string, relative: string)
    requires ValidKey(mainKey) && ValidKey(relative)
    ensures RelatedKey(mainKey, relative) != "" && !Rooted(RelatedKey(mainKey, relative))
  {
    ValidKeyIff(relative);
    DirDoesNotClimb(mainKey);
    var dir := Dir(mainKey);
    CleanNotEmpty(relative);
    CleanNotEmpty(dir + "/" + relative);
    CleanNotEmpty(UpToSlash(mainKey));
    CleanIdempotent(relative);
    CleanIdempotent(dir + "/" + relative);
  }

  lemma CleanNotEmpty(p: string)
    ensures Clean(p) != ""
  {
    SegsCanonical(p);
    if !Rooted(p) && Segs(p) != [] { JoinUnrooted(Segs(p)); }
  }

  /******* Request paths *******/

  predicate EndsInSlash(p: string) {
    p != "" && p[|p| - 1] == '/'
  }

  /** The segments of a request path. */
  function RequestSegs(p: string): seq<string> {
    Fold(true, [], Split(p))
  }

  /** What a request path with these segments looks like. */
  function Normal(segs: seq<string>, slash: bool): string {
    if segs == [] then "/" else "/" + Join(segs) + if slash then "/" else ""
  }

  lemma RequestSegsRooted(p: string)
    requires Rooted(p)
    ensures Segs(p) == RequestSegs(p)
  {
    assert p == "/" + p[1..];
    SegsRooted(p[1..]);
  }

  lemma RequestSegsCanonical(p: string)
    ensures Canonical(true, RequestSegs(p))
  {
    SplitIsPlain(p);
    FoldCanonical(true, [], Split(p));
  }

  lemma {:induction false} JoinEnds(segs: seq<string>)
    requires segs != [] && Canonical(true, segs)
    ensures Join(segs) != "" && !EndsInSlash(Join(segs))
  {
    if |segs| == 1 {
      assert segs[0][|segs[0]| - 1] in segs[0];
    } else {
      JoinEnds(segs[1..]);
    }
  }

  /** cleanPath in one line: the cleaned segments, with the trailing slash kept unless nothing is left. */
  lemma CleanPathIsNormal(p: string)
    ensures CleanPath(p) == Normal(RequestSegs(p), EndsInSlash(p))
  {
    if p == "" {
      assert Split("") == [""] && [""][..0] == [];
      assert Fold(true, [], []) == [];
    } else {
      var q := if p[0] != '/' then "/" + p else p;
      RequestSegsRooted(q);
      if p[0] != '/' {
        SlashSplits(p);
        FoldEmptyFirst(true, Split(p));
      }
      RequestSegsCanonical(p);
      if RequestSegs(p) != [] { JoinEnds(RequestSegs(p)); }
    }
  }

  lemma NormalSplit(segs: seq<string>, slash: bool)
    requires segs != [] && AllPlain(segs)
    ensures Split(Normal(segs, slash)) == [""] + segs + if slash then [""] else []
  {
    SplitJoin(segs);
    if slash {
      SplitAppend(Join(segs), "");
      assert Normal(segs, slash) == "/" + (Join(segs) + "/" + "");
      SlashSplits(Join(segs) + "/" + "");
    } else {
      assert Normal(segs, slash) == "/" + Join(segs);
      SlashSplits(Join(segs));
    }
  }

  lemma RootSegs()
    ensures RequestSegs("/") == [] && EndsInSlash("/")
  {
    SlashSplits("");
    assert "/" + "" == "/" && Split("") == [""];
    assert Split("/") == [""] + [""];
    FoldEmptyLast(true, [""]);
    FoldEmptyLast(true, []);
    assert [] + [""] == [""];
  }

  lemma SlashedSegs(segs: seq<string>, slash: bool)
    requires segs != [] && Canonical(true, segs)
    ensures RequestSegs(Normal(segs, slash)) == segs
  {
    CanonicalIsPlain(true, segs);
    NormalSplit(segs, slash);
    FoldFixed(true, segs);
    FoldEmptyFirst(true, segs);
    if slash { FoldEmptyLast(true, [""] + segs); } else { assert [""] + segs + [] == [""] + segs; }
  }

  lemma SlashedEnd(segs: seq<string>, slash: bool)
    requires segs != [] && Canonical(true, segs)
    ensures EndsInSlash(Normal(segs, slash)) <==> slash
  {
    JoinEnds(segs);
    var j := Join(segs);
    if !slash { assert Normal(segs, slash) == "/" + j; }
  }

  lemma NormalSegs(segs: seq<string>, slash: bool)
    requires Canonical(true, segs)
    ensures RequestSegs(Normal(segs, slash)) == segs
    ensures EndsInSlash(Normal(segs, slash)) <==> slash || segs == []
  {
    if segs == [] {
      RootSegs();
    } else {
      SlashedSegs(segs, slash);
      SlashedEnd(segs, slash);
    }
  }

  /** cleanPath is idempotent. */
  lemma CleanPathIdempotent(p: string)
    ensures CleanPath(CleanPath(p)) == CleanPath(p)
  {
    CleanPathIsNormal(p);
    RequestSegsCanonical(p);
    NormalSegs(RequestSegs(p), EndsInSlash(p));
    CleanPathIsNormal(CleanPath(p));
  }

  /** cleanPath gives a rooted path and keeps a trailing slash exactly when the result is not the root. */
  lemma CleanPathKeepsSlash(p: string)
    ensures Rooted(CleanPath(p))
    ensures CleanPath(p) != "/" ==> (EndsInSlash(CleanPath(p)) <==> EndsInSlash(p))
    ensures CleanPath(p) == "/" <==> RequestSegs(p) == []
  {
    CleanPathIsNormal(p);
    RequestSegsCanonical(p);
    NormalSegs(RequestSegs(p), EndsInSlash(p));
    if RequestSegs(p) != [] { JoinEnds(RequestSegs(p)); }
  }
}
