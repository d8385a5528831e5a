/**
 The path patterns of middleware/routerfilter/routerfilter.go: `NewPathMatcher` rewrites a glob into
 the text of a regular expression and `Match` runs it. This module holds the rewriting, on text,
 and the pattern language with its direct, segment by segment meaning.
 */
module PathPattern {
  import opened Wrappers
  import opened Regex

  /******* NewPathMatcher *******/

  /** unicode.IsSpace */
  predicate Space(c: char) {
    || c in {' ', '\t', '\n', '\U{000B}', '\U{000C}', '\r', '\U{0085}', '\U{00A0}', '\U{1680}',
             '\U{2028}', '\U{2029}', '\U{202F}', '\U{205F}', '\U{3000}'}
    || '\U{2000}' <= c <= '\U{200A}'
  }

  function TrimSpace(t: string): string
    decreases |t|
  {
    if t != "" && Space(t[0]) then TrimSpace(t[1..])
    else if t != "" && Space(t[|t| - 1]) then TrimSpace(t[..|t| - 1])
    else t
  }

  predicate HasSuffix(t: string, suffix: string) {
    |suffix| <= |t| && t[|t| - |suffix|..] == suffix
  }

  /** One trailing slash goes, a leading slash is added if there is none. */
  function Normalise(t: string): string {
    var u := if HasSuffix(t, "/") then t[..|t| - 1] else t;
    if "/" <= u then u else "/" + u
  }

  /** regexp.QuoteMeta */
  function QuoteMeta(t: string): string {
    if t == "" then "" else (if Meta(t[0]) then ['\\', t[0]] else [t[0]]) + QuoteMeta(t[1..])
  }

  /** What the replacer writes at the start of `t` and how much of `t` that uses up. */
  datatype Hit = Hit(text: string, used: nat)

  // The old strings "/**", "/*", "{" and "}" are tried in this order; anything else is copied.
  function HitAt(t: string): (h: Hit)
    requires t != ""
    ensures 1 <= h.used <= |t|
  {
    if |t| >= 3 && t[0] == '/' && t[1] == '*' && t[2] == '*' then Hit("(?:/.*)?$", 3)
    else if |t| >= 2 && t[0] == '/' && t[1] == '*' then Hit("(?:/[^/]+)?", 2)
    else if t[0] == '{' then Hit("(?P<", 1)
    else if t[0] == '}' then Hit(">[^/]+)", 1)
    else Hit([t[0]], 1)
  }

  /** The strings.Replacer. */
  function Replace(t: string): string {
    if t == "" then "" else HitAt(t).text + Replace(t[HitAt(t).used..])
  }

  /** The regular expression for a normalised pattern. */
  function RegexText(p: string): string {
    if HasSuffix(p, "*") && !HasSuffix(p, "/*") && !HasSuffix(p, "/**")
    then "^" + QuoteMeta(p[..|p| - 1]) + ".*$"
    else "^" + Replace(p) + (if HasSuffix(p, "/**") then "" else "$")
  }

  /** NewPathMatcher as far as the path goes: an empty pattern and a bad regular expression are errors. */
  function NewPathMatcher(pattern: string): Option<seq<Re>> {
    var trimmed := TrimSpace(pattern);
    if trimmed == "" then None else Compile(RegexText(Normalise(trimmed)))
  }

  /******* The pattern language *******/

  datatype Seg =
    | Lit(text: string)
    | Param(name: string)   // {name}
    | OneStar               // `/*`: nothing, or one segment that is not empty
    | DeepStar              // a `/**` that is not last

  datatype Tail = Exact | Rest   // Rest is a final `/**`

  datatype Pattern =
    | Path(segs: seq<Seg>, tail: Tail)
    | Prefix(base: string)     // a final bare `*`

  function RenderSeg(seg: Seg): string {
    match seg
    case Lit(text) => "/" + text
    case Param(name) => "/{" + name + "}"
    case OneStar => "/*"
    case DeepStar => "/**"
  }

  function RenderSegs(segs: seq<Seg>): string {
    if segs == [] then "" else RenderSeg(segs[0]) + RenderSegs(segs[1..])
  }

  function Render(p: Pattern): string {
    match p
    case Path(segs, tail) => RenderSegs(segs) + (if tail.Rest? then "/**" else "")
    case Prefix(base) => base + "*"
  }

  predicate PlainChar(c: char) {
    c != '/' && !Meta(c)
  }

  predicate SegOk(seg: Seg) {
    match seg
    case Lit(text) => forall i :: 0 <= i < |text| ==> PlainChar(text[i])
    case Param(name) => name != "" && forall i :: 0 <= i < |name| ==> WordChar(name[i])
    case OneStar => true
    case DeepStar => true
  }

  function Names(segs: seq<Seg>): seq<string> {
    if segs == [] then [] else (if segs[0].Param? then [segs[0].name] else []) + Names(segs[1..])
  }

  /** A double star at the very end is the tail `Rest`, not a segment. */
  predicate LastOk(segs: seq<Seg>, tail: Tail) {
    segs != [] && segs[|segs| - 1].DeepStar? ==> tail.Rest?
  }

  /**
   Literals without metacharacters and parameter names that differ. A prefix may contain any character:
   its text is quoted.
   */
  predicate WellFormed(p: Pattern) {
    match p
    case Path(segs, tail) =>
      (segs != [] || tail.Rest?) && (forall i :: 0 <= i < |segs| ==> SegOk(segs[i])) && Distinct(Names(segs))
      && LastOk(segs, tail)
    case Prefix(base) => "/" <= base && !HasSuffix(base, "/") && !HasSuffix(base, "/*")
  }

  /******* Direct meaning *******/

  /** Number of characters before the first slash. */
  function SegLength(u: string): (n: nat)
    ensures n <= |u|
    ensures forall k :: 0 <= k < n ==> u[k] != '/'
    ensures n < |u| ==> u[n] == '/'
  {
    if u == "" || u[0] == '/' then 0 else 1 + SegLength(u[1..])
  }

  /** The segments of a path: "/a/b" is ["a", "b"], "/" is [""]. */
  function Segments(path: string): seq<string>
    requires path == "" || path[0] == '/'
    decreases |path|
  {
    if path == "" then []
    else
      var n := SegLength(path[1..]);
      [path[1..1 + n]] + Segments(path[1 + n..])
  }

  predicate NoNewline(u: string) {
    forall i :: 0 <= i < |u| ==> u[i] != '\n'
  }

  predicate AllOneLine(path: seq<string>) {
    forall i :: 0 <= i < |path| ==> NoNewline(path[i])
  }

  /**
   The direct matcher, one pattern segment at a time. A double star takes all that is left, also when
   it is not last: the rewritten text has the end anchor behind it, so what follows it in the pattern
   has nothing left to take.
   */
  predicate Direct(segs: seq<Seg>, tail: Tail, path: seq<string>)
    decreases |segs|
  {
    if segs == [] then
      if tail.Exact? then path == [] else AllOneLine(path)
    else match segs[0]
      case Lit(text) => path != [] && path[0] == text && Direct(segs[1..], tail, path[1..])
      case Param(_) => path != [] && path[0] != "" && Direct(segs[1..], tail, path[1..])
      case OneStar =>
        || Direct(segs[1..], tail, path)
        || (path != [] && path[0] != "" && Direct(segs[1..], tail, path[1..]))
      case DeepStar => AllOneLine(path) && Direct(segs[1..], tail, [])
  }

  predicate Means(p: Pattern, path: string)
    requires "/" <= path
  {
    match p
    case Path(segs, tail) => Direct(segs, tail, Segments(path))
    case Prefix(base) => base <= path && NoNewline(path[|base|..])
  }

  /******* Match *******/

  datatype Request = Request(verb: string, path: string)

  function RequestPath(path: string): string {
    var p := if path == "" then "/" else path;
    if "/" <= p then p else "/" + p
  }

  /** The first result of Match. */
  ghost predicate MatcherAccepts(regex: seq<Re>, methods: set<string>, req: Request) {
    (methods != {} ==> req.verb in methods) && Accepts(regex, RequestPath(req.path))
  }

  function Upper(c: char): char {
    if 'a' <= c <= 'z' then (c as int - 'a' as int + 'A' as int) as char else c
  }

  function ToUpper(t: string): string {
    seq(|t|, i requires 0 <= i < |t| => Upper(t[i]))
  }
}
