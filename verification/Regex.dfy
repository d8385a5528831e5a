/**
 The part of Go's regexp syntax (RE2) that path patterns are rewritten into: literal and escaped
 characters, `.`, one-character negated classes, the anchors, non-capturing and named groups, and
 the quantifiers `*`, `+`, `?`. Anything else is outside the fragment and does not compile here.
 */
module Regex {
  import opened Wrappers

  datatype Re =
    | Chr(c: char)
    | Any                                  // `.`: any character but a newline
    | Except(c: char)                      // `[^c]`
    | Begin
    | End
    | Group(name: string, body: seq<Re>)   // name "" for `(?:...)`
    | Star(inner: Re)
    | Plus(inner: Re)
    | Opt(inner: Re)

  /******* Syntax *******/

  /** The characters that regexp.QuoteMeta escapes. */
  predicate Meta(c: char) {
    || c == '\\' || c == '.' || c == '+' || c == '*' || c == '?' || c == '(' || c == ')'
    || c == '|' || c == '[' || c == ']' || c == '{' || c == '}' || c == '^' || c == '$'
  }

  predicate Quantifier(c: char) {
    c == '*' || c == '+' || c == '?'
  }

  /** `\w` */
  predicate WordChar(c: char) {
    'a' <= c <= 'z' || 'A' <= c <= 'Z' || '0' <= c <= '9' || c == '_'
  }

  /** Length of the longest prefix of word characters. */
  function WordPrefix(t: string): (n: nat)
    ensures n <= |t|
    ensures forall k :: 0 <= k < n ==> WordChar(t[k])
    ensures n < |t| ==> !WordChar(t[n])
  {
    if t == "" || !WordChar(t[0]) then 0 else 1 + WordPrefix(t[1..])
  }

  datatype Parsed<T> = Parsed(value: T, rest: string)

  function ParseAtom(t: string): (r: Option<Parsed<Re>>)
    requires t != ""
    ensures r.Some? ==> |r.value.rest| < |t|
    decreases |t|, 0
  {
    if t[0] == '^' then Some(Parsed(Begin, t[1..]))
    else if t[0] == '$' then Some(Parsed(End, t[1..]))
    else if t[0] == '.' then Some(Parsed(Any, t[1..]))
    else if t[0] == '\\' then
      if |t| >= 2 && Meta(t[1]) then Some(Parsed(Chr(t[1]), t[2..])) else None
    else if t[0] == '[' then
      if |t| >= 4 && t[1] == '^' && !Meta(t[2]) && t[2] != '-' && t[3] == ']'
      then Some(Parsed(Except(t[2]), t[4..])) else None
    else if "(?:" <= t then ParseGroup("", t[3..])
    else if "(?P<" <= t then
      var n := WordPrefix(t[4..]);
      if 0 < n && 4 + n < |t| && t[4 + n] == '>' then ParseGroup(t[4..4 + n], t[5 + n..]) else None
    else if Meta(t[0]) then None
    else Some(Parsed(Chr(t[0]), t[1..]))
  }

  /** The rest of a group after its opening. */
  function ParseGroup(name: string, t: string): (r: Option<Parsed<Re>>)
    ensures r.Some? ==> |r.value.rest| < |t|
    decreases |t|, 2
  {
    var body := ParseSeq(t);
    if body.Some? && body.value.rest != "" && body.value.rest[0] == ')'
    then Some(Parsed(Group(name, body.value.value), body.value.rest[1..]))
    else None
  }

  /** At most one quantifier after an atom. */
  function ParseQuantifier(atom: Re, t: string): (r: Option<Parsed<Re>>)
    ensures r.Some? ==> |r.value.rest| <= |t|
  {
    if t == "" || !Quantifier(t[0]) then Some(Parsed(atom, t))
    else if |t| >= 2 && Quantifier(t[1]) then None
    else
      Some(Parsed(if t[0] == '*' then Star(atom) else if t[0] == '+' then Plus(atom) else Opt(atom), t[1..]))
  }

  /** A concatenation, up to the end of the text or a closing parenthesis. */
  function ParseSeq(t: string): (r: Option<Parsed<seq<Re>>>)
    ensures r.Some? ==> |r.value.rest| <= |t|
    decreases |t|, 1
  {
    if t == "" || t[0] == ')' then Some(Parsed([], t))
    else
      var atom := ParseAtom(t);
      if atom.None? then None
      else
        var item := ParseQuantifier(atom.value.value, atom.value.rest);
        if item.None? then None
        else
          var tail := ParseSeq(item.value.rest);
          if tail.None? then None
          else Some(Parsed([item.value.value] + tail.value.value, tail.value.rest))
  }

  /** regexp.SubexpNames without the empty names; named groups occur only at the top level of the fragment. */
  function GroupNames(rs: seq<Re>): seq<string> {
    if rs == [] then []
    else (if rs[0].Group? && rs[0].name != "" then [rs[0].name] else []) + GroupNames(rs[1..])
  }

  predicate Distinct(names: seq<string>) {
    forall i, j :: 0 <= i < j < |names| ==> names[i] != names[j]
  }

  /** regexp.Compile: a syntax error or a repeated group name gives no regexp. */
  function Compile(t: string): Option<seq<Re>> {
    var parsed := ParseSeq(t);
    if parsed.Some? && parsed.value.rest == "" && Distinct(GroupNames(parsed.value.value))
    then Some(parsed.value.value) else None
  }

  /******* Semantics *******/

  /** `r` matches exactly the characters i..j of `s`. */
  ghost predicate MatchOne(r: Re, s: string, i: nat, j: nat)
    requires i <= j <= |s|
    decreases r, j - i
  {
    match r
    case Chr(c) => j == i + 1 && s[i] == c
    case Any => j == i + 1 && s[i] != '\n'
    case Except(c) => j == i + 1 && s[i] != c
    case Begin => i == j == 0
    case End => i == j == |s|
    case Group(_, body) => MatchSeq(body, s, i, j)
    case Opt(b) => i == j || MatchOne(b, s, i, j)
    case Plus(b) => exists m :: i <= m <= j && MatchOne(b, s, i, m) && Repeats(b, s, m, j)
    case Star(b) => Repeats(b, s, i, j)
  }

  /** Any number of copies of `b`; a copy that matches nothing adds nothing. */
  ghost predicate Repeats(b: Re, s: string, i: nat, j: nat)
    requires i <= j <= |s|
    decreases b, j - i + 1
  {
    i == j || exists m :: i < m <= j && MatchOne(b, s, i, m) && Repeats(b, s, m, j)
  }

  ghost predicate MatchSeq(rs: seq<Re>, s: string, i: nat, j: nat)
    requires i <= j <= |s|
    decreases rs, 1
  {
    if rs == [] then i == j else exists m :: i <= m <= j && Splits(rs, s, i, m, j)
  }

  /** The first item takes the characters i..m, the others the rest. */
  ghost predicate Splits(rs: seq<Re>, s: string, i: nat, m: nat, j: nat)
    requires rs != [] && i <= m <= j <= |s|
    decreases rs, 0
  {
    MatchOne(rs[0], s, i, m) && MatchSeq(rs[1..], s, m, j)
  }

  /** Where a match of a concatenation divides. */
  lemma SplitPoint(rs: seq<Re>, s: string, i: nat, j: nat) returns (m: nat)
    requires i <= j <= |s| && rs != [] && MatchSeq(rs, s, i, j)
    ensures i <= m <= j && MatchOne(rs[0], s, i, m) && MatchSeq(rs[1..], s, m, j)
  {
    m :| i <= m <= j && Splits(rs, s, i, m, j);
  }

  lemma JoinPoint(rs: seq<Re>, s: string, i: nat, m: nat, j: nat)
    requires rs != [] && i <= m <= j <= |s| && MatchOne(rs[0], s, i, m) && MatchSeq(rs[1..], s, m, j)
    ensures MatchSeq(rs, s, i, j)
  {
    assert Splits(rs, s, i, m, j);
  }

  /** regexp.MatchString: some substring matches. */
  ghost predicate Accepts(rs: seq<Re>, s: string) {
    exists i, j :: 0 <= i <= j <= |s| && MatchSeq(rs, s, i, j)
  }

  /** An item of a regular expression together with the text it took and where. */
  datatype Took = Took(item: Re, start: nat, text: string)

  ghost predicate Placed(t: Took, s: string) {
    && t.start + |t.text| <= |s|
    && s[t.start..t.start + |t.text|] == t.text
    && MatchOne(t.item, s, t.start, t.start + |t.text|)
  }

  /** One way for the items `rs` to match, side by side; FindStringSubmatch reports one of them. */
  ghost predicate Matched(rs: seq<Re>, s: string, ts: seq<Took>) {
    && |ts| == |rs|
    && (forall k :: 0 <= k < |ts| ==> ts[k].item == rs[k] && Placed(ts[k], s))
    && (forall k :: 0 < k < |ts| ==> ts[k].start == ts[k - 1].start + |ts[k - 1].text|)
  }

  /** What an item that took `text` captures. */
  function ItemCapture(t: Took): map<string, string> {
    if t.item.Group? && t.item.name != "" then map[t.item.name := t.text] else map[]
  }

  /** The named captures of a match. */
  function Captures(ts: seq<Took>): map<string, string> {
    if ts == [] then map[] else ItemCapture(ts[0]) + Captures(ts[1..])
  }
}
