/**
 Path cleaning on segments, as path.Clean and filepath.Join define it, and what the gateway builds on
 it: configuration keys (pkg/loader/source.go) and request paths (router/mux/mux.go).
 */
module PathClean {
  import opened Wrappers

  /******* Strings and segments *******/

  /** The pieces between slashes; there is always at least one. */
  function Split(s: string): (segs: seq<string>)
    ensures segs != []
  {
    if s == "" then [""]
    else if s[0] == '/' then [""] + Split(s[1..])
    else
      var rest := Split(s[1..]);
      [[s[0]] + rest[0]] + rest[1..]
  }

  function Join(segs: seq<string>): string {
    if segs == [] then ""
    else if |segs| == 1 then segs[0]
    else segs[0] + "/" + Join(segs[1..])
  }

  /******* Cleaning *******/

  /** One more segment after the cleaned ones. */
  function Push(rooted: bool, out: seq<string>, seg: string): seq<string> {
    if seg == "" || seg == "." then out
    else if seg != ".." then out + [seg]
    else if out != [] && out[|out| - 1] != ".." then out[..|out| - 1]
    else if rooted then out
    else out + [seg]
  }

  function Fold(rooted: bool, out: seq<string>, segs: seq<string>): seq<string> {
    if segs == [] then out else Push(rooted, Fold(rooted, out, segs[..|segs| - 1]), segs[|segs| - 1])
  }

  predicate Rooted(p: string) {
    p != "" && p[0] == '/'
  }

  /** The segments of the cleaned path. */
  function Segs(p: string): seq<string> {
    Fold(Rooted(p), [], Split(p))
  }

  function Render(rooted: bool, segs: seq<string>): string {
    if rooted then "/" + Join(segs) else if segs == [] then "." else Join(segs)
  }

  function Clean(p: string): string {
    Render(Rooted(p), Segs(p))
  }

  /** filepath.Join and path.Join of two elements; empty elements are left out. */
  function JoinPath(a: string, b: string): string {
    if a == "" && b == "" then ""
    else if a == "" then Clean(b)
    else if b == "" then Clean(a)
    else Clean(a + "/" + b)
  }

  /******* Keys *******/

  predicate HasPrefix(s: string, prefix: string) {
    |prefix| <= |s| && s[..|prefix|] == prefix
  }

  predicate ValidKey(key: string) {
    key != "" && !(HasPrefix(key, "/") || Clean(key) == ".." || HasPrefix(Clean(key), "../"))
  }

  datatype FileSource = FileSource(root: string, mainKey: string, mainPath: string)

  function PathForKey(s: FileSource, key: string): Option<string> {
    if !ValidKey(key) then None
    else if key == s.mainKey then Some(s.mainPath)
    else Some(JoinPath(s.root, key))
  }

  /** Everything up to and including the last slash. */
  function UpToSlash(p: string): string {
    if p == "" then "" else if p[|p| - 1] == '/' then p else UpToSlash(p[..|p| - 1])
  }

  function Dir(p: string): string {
    Clean(UpToSlash(p))
  }

  function RelatedKey(mainKey: string, relative: string): string {
    if Dir(mainKey) == "." then Clean(relative) else JoinPath(Dir(mainKey), relative)
  }

  /******* Request paths *******/

  function CleanPath(p: string): string {
    if p == "" then "/"
    else
      var q := if p[0] != '/' then "/" + p else p;
      var np := Clean(q);
      if q[|q| - 1] == '/' && np != "/" then np + "/" else np
  }
}
