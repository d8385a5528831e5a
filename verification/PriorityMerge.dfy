/** Merging the priority directory into the endpoints of the main configuration (config/config.go). */
module PriorityMerge {
  import opened Wrappers

  datatype Endpoint = Endpoint(verb: string, path: string, rest: string)

  function Key(e: Endpoint): string {
    e.verb + "-" + e.path
  }

  /** The method of `b` goes on, after a dash, into what begins the path of `a`. */
  ghost predicate Runs(a: Endpoint, b: Endpoint) {
    exists x :: b.verb == a.verb + "-" + x && a.path == x + "-" + b.path
  }

  lemma LongerKey(a: Endpoint, b: Endpoint)
    requires Key(a) == Key(b) && |a.verb| < |b.verb|
    ensures Runs(a, b)
  {
    var n, x := |a.verb|, b.verb[|a.verb| + 1..];
    var k := Key(b);
    assert a.verb == k[..n] == b.verb[..n] && k[n] == '-' == b.verb[n];
    assert b.verb == a.verb + "-" + x;
    assert a.path == k[n + 1..] == x + "-" + b.path;
  }

  /** Equal keys mean equal method and path, unless a method contains a dash that could be the separator. */
  lemma KeyIff(a: Endpoint, b: Endpoint)
    ensures Key(a) == Key(b) <==> (a.verb == b.verb && a.path == b.path) || Runs(a, b) || Runs(b, a)
    ensures '-' !in a.verb && '-' !in b.verb ==> (Key(a) == Key(b) <==> a.verb == b.verb && a.path == b.path)
  {
    if Key(a) == Key(b) {
      if |a.verb| < |b.verb| {
        LongerKey(a, b);
      } else if |b.verb| < |a.verb| {
        LongerKey(b, a);
      } else {
        assert a.verb == Key(a)[..|a.verb|] == b.verb;
        assert a.path == Key(a)[|a.verb| + 1..] == b.path;
      }
    }
    if x :| b.verb == a.verb + "-" + x && a.path == x + "-" + b.path { assert b.verb[|a.verb|] == '-'; }
    if x :| a.verb == b.verb + "-" + x && b.path == x + "-" + a.path { assert a.verb[|b.verb|] == '-'; }
  }

  /** Where each key stands in the original endpoints; a repeated key stands at its last place. */
  function Index(origin: seq<Endpoint>): (index: map<string, nat>)
    ensures forall k :: k in index ==> index[k] < |origin|
  {
    if origin == [] then map[]
    else Index(origin[..|origin| - 1])[Key(origin[|origin| - 1]) := |origin| - 1]
  }

  lemma {:induction false} IndexPointsAt(origin: seq<Endpoint>, k: string)
    requires k in Index(origin)
    ensures Key(origin[Index(origin)[k]]) == k
  {
    if k != Key(origin[|origin| - 1]) { IndexPointsAt(origin[..|origin| - 1], k); }
  }

  lemma {:induction false} IndexIsLast(origin: seq<Endpoint>, i: nat)
    requires i < |origin|
    ensures Key(origin[i]) in Index(origin) && i <= Index(origin)[Key(origin[i])]
  {
    if i < |origin| - 1 { IndexIsLast(origin[..|origin| - 1], i); }
  }

  predicate IsNew(base: seq<Endpoint>, item: Endpoint) {
    Key(item) !in Index(base)
  }

  /** Replaces at the indexed place, whatever stands there by now, or prepends. */
  function MergeOne(base: seq<Endpoint>, dst: seq<Endpoint>, item: Endpoint): seq<Endpoint>
    requires |base| <= |dst|
  {
    if IsNew(base, item) then [item] + dst else dst[Index(base)[Key(item)] := item]
  }

  function NewItems(base: seq<Endpoint>, items: seq<Endpoint>): nat {
    if items == [] then 0
    else NewItems(base, items[..|items| - 1]) + if IsNew(base, items[|items| - 1]) then 1 else 0
  }

  /** The indexed place always exists, and the length is that of the base plus the items with new keys. */
  function Merge(base: seq<Endpoint>, items: seq<Endpoint>): (dst: seq<Endpoint>)
    ensures |dst| == |base| + NewItems(base, items)
  {
    if items == [] then base
    else MergeOne(base, Merge(base, items[..|items| - 1]), items[|items| - 1])
  }

  /******* What the merge is meant to give *******/

  /** The last item with the key of `e`, or `e` itself. */
  function LastOverride(e: Endpoint, items: seq<Endpoint>): Endpoint {
    if items == [] then e
    else if Key(items[|items| - 1]) == Key(e) then items[|items| - 1]
    else LastOverride(e, items[..|items| - 1])
  }

  /** The endpoints with new keys, latest first. */
  function Front(base: seq<Endpoint>, items: seq<Endpoint>): seq<Endpoint> {
    if items == [] then []
    else
      var last := items[|items| - 1];
      (if IsNew(base, last) then [last] else []) + Front(base, items[..|items| - 1])
  }

  /** The base in its order, each endpoint that its key points at replaced by its last override. */
  function Slots(base: seq<Endpoint>, items: seq<Endpoint>): seq<Endpoint> {
    seq(|base|, i requires 0 <= i < |base| => if PointedAt(base, i) then LastOverride(base[i], items) else base[i])
  }

  predicate PointedAt(base: seq<Endpoint>, i: nat)
    requires i < |base|
  {
    Key(base[i]) in Index(base) && Index(base)[Key(base[i])] == i
  }

  function Intended(base: seq<Endpoint>, items: seq<Endpoint>): seq<Endpoint> {
    Front(base, items) + Slots(base, items)
  }

  /** No item that replaces comes after an item that was prepended. */
  predicate ReplacementsFirst(base: seq<Endpoint>, items: seq<Endpoint>) {
    forall i, j :: 0 <= i < j < |items| && IsNew(base, items[i]) ==> IsNew(base, items[j])
  }

  predicate DistinctKeys(base: seq<Endpoint>) {
    forall i, j :: 0 <= i < j < |base| ==> Key(base[i]) != Key(base[j])
  }

  /******* With replacements first the merge is right *******/

  lemma {:induction false} FrontLength(base: seq<Endpoint>, items: seq<Endpoint>)
    ensures |Front(base, items)| == NewItems(base, items)
  {
    if items != [] { FrontLength(base, items[..|items| - 1]); }
  }

  lemma {:induction false} FrontEmpty(base: seq<Endpoint>, items: seq<Endpoint>)
    requires forall i :: 0 <= i < |items| ==> !IsNew(base, items[i])
    ensures Front(base, items) == []
  {
    if items != [] { FrontEmpty(base, items[..|items| - 1]); }
  }

  lemma SlotsNew(base: seq<Endpoint>, items: seq<Endpoint>)
    requires items != [] && IsNew(base, items[|items| - 1])
    ensures Slots(base, items) == Slots(base, items[..|items| - 1])
  {
    forall i | 0 <= i < |base| ensures Slots(base, items)[i] == Slots(base, items[..|items| - 1])[i] {
      IndexIsLast(base, i);
    }
  }

  lemma SlotsReplaced(base: seq<Endpoint>, items: seq<Endpoint>)
    requires items != [] && !IsNew(base, items[|items| - 1])
    ensures Slots(base, items) ==
              Slots(base, items[..|items| - 1])[Index(base)[Key(items[|items| - 1])] := items[|items| - 1]]
  {
    var last := items[|items| - 1];
    var at := Index(base)[Key(last)];
    forall i | 0 <= i < |base|
      ensures Slots(base, items)[i] == Slots(base, items[..|items| - 1])[at := last][i]
    {
      IndexPointsAt(base, Key(last));
    }
  }

  lemma MergePrepends(base: seq<Endpoint>, items: seq<Endpoint>)
    requires items != [] && IsNew(base, items[|items| - 1])
    ensures Intended(base, items) == [items[|items| - 1]] + Intended(base, items[..|items| - 1])
  {
    SlotsNew(base, items);
  }

  lemma MergeReplaces(base: seq<Endpoint>, items: seq<Endpoint>)
    requires items != [] && !IsNew(base, items[|items| - 1]) && ReplacementsFirst(base, items)
    ensures Intended(base, items[..|items| - 1]) == Slots(base, items[..|items| - 1])
    ensures Intended(base, items) == Slots(base, items)
  {
    var init := items[..|items| - 1];
    forall i | 0 <= i < |init| ensures !IsNew(base, init[i]) { assert init[i] == items[i]; }
    FrontEmpty(base, init);
    FrontEmpty(base, items);
  }

  lemma {:induction false} MergeIsIntended(base: seq<Endpoint>, items: seq<Endpoint>)
    requires ReplacementsFirst(base, items)
    ensures Merge(base, items) == Intended(base, items)
  {
    if items == [] {
      assert Slots(base, []) == base;
    } else {
      MergeIsIntended(base, items[..|items| - 1]);
      if IsNew(base, items[|items| - 1]) {
        MergePrepends(base, items);
      } else {
        MergeReplaces(base, items);
        SlotsReplaced(base, items);
      }
    }
  }

  /******* Otherwise it is wrong *******/

  /** Position `x` holds an endpoint whose key does not belong there, `p` endpoints having been prepended. */
  predicate Misplaced(base: seq<Endpoint>, dst: seq<Endpoint>, p: nat, x: nat) {
    && x < |dst| == |base| + p
    && (if x < p then !IsNew(base, dst[x]) else Key(dst[x]) != Key(base[x - p]))
  }

  /** A replacement after a prepend lands on a place of another key. */
  lemma LateReplacementMisplaces(base: seq<Endpoint>, dst: seq<Endpoint>, p: nat, item: Endpoint)
    requires DistinctKeys(base) && |dst| == |base| + p && p >= 1 && !IsNew(base, item)
    ensures Misplaced(base, MergeOne(base, dst, item), p, Index(base)[Key(item)])
  {
    IndexPointsAt(base, Key(item));
    var x := Index(base)[Key(item)];
    if x >= p { assert Key(base[x - p]) != Key(base[x]); }
  }

  /** Once an endpoint is misplaced, no later item repairs it. */
  lemma MisplacedStays(base: seq<Endpoint>, dst: seq<Endpoint>, p: nat, x: nat, item: Endpoint)
    requires DistinctKeys(base) && Misplaced(base, dst, p, x) && p >= 1
    ensures
      if IsNew(base, item) then Misplaced(base, MergeOne(base, dst, item), p + 1, x + 1)
      else Misplaced(base, MergeOne(base, dst, item), p, x)
  {
    if !IsNew(base, item) && Index(base)[Key(item)] == x {
      LateReplacementMisplaces(base, dst, p, item);
    }
  }

  ghost predicate SomeMisplaced(base: seq<Endpoint>, dst: seq<Endpoint>, p: nat) {
    p >= 1 && exists x: nat :: Misplaced(base, dst, p, x)
  }

  lemma SomeMisplacedStays(base: seq<Endpoint>, dst: seq<Endpoint>, p: nat, item: Endpoint)
    requires DistinctKeys(base) && SomeMisplaced(base, dst, p)
    ensures |base| <= |dst|
    ensures SomeMisplaced(base, MergeOne(base, dst, item), p + if IsNew(base, item) then 1 else 0)
  {
    var x: nat :| Misplaced(base, dst, p, x);
    MisplacedStays(base, dst, p, x, item);
  }

  lemma {:induction false} BadOrderMisplaces(base: seq<Endpoint>, items: seq<Endpoint>, i: nat, j: nat)
    requires DistinctKeys(base) && i < j < |items| && IsNew(base, items[i]) && !IsNew(base, items[j])
    ensures SomeMisplaced(base, Merge(base, items), NewItems(base, items))
  {
    var init, last := items[..|items| - 1], items[|items| - 1];
    if j == |init| {
      SomeNew(base, init, i);
      LateReplacementMisplaces(base, Merge(base, init), NewItems(base, init), last);
    } else {
      BadOrderMisplaces(base, init, i, j);
      SomeMisplacedStays(base, Merge(base, init), NewItems(base, init), last);
    }
  }

  lemma {:induction false} SomeNew(base: seq<Endpoint>, items: seq<Endpoint>, i: nat)
    requires i < |items| && IsNew(base, items[i])
    ensures NewItems(base, items) >= 1
  {
    if i < |items| - 1 { SomeNew(base, items[..|items| - 1], i); }
  }

  lemma {:induction false} FrontIsNew(base: seq<Endpoint>, items: seq<Endpoint>, x: nat)
    requires x < |Front(base, items)|
    ensures IsNew(base, Front(base, items)[x])
  {
    var init, last := items[..|items| - 1], items[|items| - 1];
    if IsNew(base, last) {
      if x > 0 { FrontIsNew(base, init, x - 1); }
    } else {
      FrontIsNew(base, init, x);
    }
  }

  lemma {:induction false} OverrideKeepsKey(e: Endpoint, items: seq<Endpoint>)
    ensures Key(LastOverride(e, items)) == Key(e)
  {
    if items != [] { OverrideKeepsKey(e, items[..|items| - 1]); }
  }

  /** In the intended result nothing is misplaced. */
  lemma IntendedIsPlaced(base: seq<Endpoint>, items: seq<Endpoint>, x: nat)
    ensures !Misplaced(base, Intended(base, items), NewItems(base, items), x)
  {
    var p := NewItems(base, items);
    FrontLength(base, items);
    if x < p {
      FrontIsNew(base, items, x);
    } else if x - p < |base| {
      OverrideKeepsKey(base[x - p], items);
    }
  }

  /**
   The merge gives what it is meant to give exactly when no replacement comes after a prepended
   endpoint: then untouched base endpoints survive in order, overridden ones hold their last
   override, and new endpoints stand in front, latest first.
   */
  lemma MergeIsIntendedIff(base: seq<Endpoint>, items: seq<Endpoint>)
    requires DistinctKeys(base)
    ensures Merge(base, items) == Intended(base, items) <==> ReplacementsFirst(base, items)
  {
    if ReplacementsFirst(base, items) {
      MergeIsIntended(base, items);
    } else {
      var i, j :| 0 <= i < j < |items| && IsNew(base, items[i]) && !IsNew(base, items[j]);
      BadOrderMisplaces(base, items, i, j);
      var x: nat :| Misplaced(base, Merge(base, items), NewItems(base, items), x);
      IntendedIsPlaced(base, items, x);
    }
  }

  /** One new endpoint before one override: the override lands on the new endpoint and the old one survives. */
  lemma OverrideAfterPrependIsLost(a: Endpoint, n: Endpoint, better: Endpoint)
    requires Key(better) == Key(a) != Key(n)
    ensures Merge([a], [n, better]) == [better, a]
  {
    assert [n, better][..1] == [n] && [n][..0] == [];
    assert Index([a])[Key(a)] == 0;
    assert Merge([a], [n]) == [n, a];
  }

  /******* The merge over the directory *******/

  /** A directory entry; `parsed` is None when the file cannot be read or decoded. */
  datatype Entry = Entry(name: string, isDir: bool, parsed: Option<seq<Endpoint>>)

  predicate HasYamlExt(name: string) {
    |name| >= 5 && name[|name| - 5..] == ".yaml"
  }

  lemma YamlExtIff(name: string)
    ensures HasYamlExt(name) <==> exists stem :: name == stem + ".yaml"
  {
    if HasYamlExt(name) { assert name == name[..|name| - 5] + ".yaml"; }
    if stem :| name == stem + ".yaml" { assert name[|stem|..] == ".yaml"; }
  }

  predicate Merged(e: Entry) {
    !e.isDir && HasYamlExt(e.name) && e.parsed.Some?
  }

  /** The items of all entries that count, in directory order. */
  function Items(entries: seq<Entry>): seq<Endpoint> {
    if entries == [] then []
    else
      var last := entries[|entries| - 1];
      Items(entries[..|entries| - 1]) + if Merged(last) then last.parsed.value else []
  }

  /** How many endpoints the entries before bring. */
  function ItemCount(entries: seq<Entry>): nat {
    if entries == [] then 0
    else
      var last := entries[|entries| - 1];
      ItemCount(entries[..|entries| - 1])
      + if !last.isDir && HasYamlExt(last.name) && last.parsed.Some? then |last.parsed.value| else 0
  }

  /**
   The items by directory entry: the endpoints of each readable yaml file stand together, in their order,
   behind those of the entries before it; directories, other files and unreadable ones bring none.
   */
  lemma {:induction false} ItemsAt(entries: seq<Entry>, i: nat, j: nat)
    requires i < |entries|
    requires !entries[i].isDir && HasYamlExt(entries[i].name) && entries[i].parsed.Some?
    requires j < |entries[i].parsed.value|
    ensures |Items(entries)| == ItemCount(entries)
    ensures ItemCount(entries[..i]) + j < |Items(entries)|
    ensures Items(entries)[ItemCount(entries[..i]) + j] == entries[i].parsed.value[j]
  {
    var n, init := |entries| - 1, entries[..|entries| - 1];
    if i < n {
      ItemsAt(init, i, j);
      assert init[..i] == entries[..i];
    } else {
      ItemsLength(init);
      assert entries[..i] == init;
    }
  }

  lemma {:induction false} ItemsLength(entries: seq<Entry>)
    ensures |Items(entries)| == ItemCount(entries)
  {
    if entries != [] { ItemsLength(entries[..|entries| - 1]); }
  }

  method BuildIndex(origin: seq<Endpoint>) returns (index: map<string, nat>)
    ensures index == Index(origin)
  {
    index := map[];
    for i := 0 to |origin|
      invariant index == Index(origin[..i])
    {
      assert origin[..i + 1][..i] == origin[..i];
      index := index[Key(origin[i]) := i];
    }
    assert origin[..|origin|] == origin;
  }

  lemma MergeExtends(base: seq<Endpoint>, before: seq<Endpoint>, items: seq<Endpoint>, i: nat)
    requires i < |items|
    ensures Merge(base, before + items[..i + 1]) == MergeOne(base, Merge(base, before + items[..i]), items[i])
  {
    var done := before + items[..i + 1];
    assert done[..|done| - 1] == before + items[..i] && done[|done| - 1] == items[i];
  }

  method MergeItems(
      base: seq<Endpoint>, index: map<string, nat>, ghost before: seq<Endpoint>,
      items: seq<Endpoint>, dst0: seq<Endpoint>)
    returns (dst: seq<Endpoint>)
    requires index == Index(base) && dst0 == Merge(base, before)
    ensures dst == Merge(base, before + items)
  {
    dst := dst0;
    assert before + items[..0] == before;
    for i := 0 to |items|
      invariant dst == Merge(base, before + items[..i])
    {
      MergeExtends(base, before, items, i);
      if Key(items[i]) in index {
        dst := dst[index[Key(items[i])] := items[i]];
      } else {
        dst := [items[i]] + dst;
      }
    }
    assert items[..|items|] == items;
  }

  lemma ItemsExtend(entries: seq<Entry>, i: nat)
    requires i < |entries|
    ensures Items(entries[..i + 1]) ==
              if Merged(entries[i]) then Items(entries[..i]) + entries[i].parsed.value else Items(entries[..i])
  {
    assert entries[..i + 1][..i] == entries[..i];
  }

  method MergePriorityConfig(base: seq<Endpoint>, entries: seq<Entry>) returns (dst: seq<Endpoint>)
    ensures dst == Merge(base, Items(entries))
  {
    var index := BuildIndex(base);
    dst := base;
    for i := 0 to |entries|
      invariant dst == Merge(base, Items(entries[..i]))
    {
      ItemsExtend(entries, i);
      var e := entries[i];
      if e.isDir || !HasYamlExt(e.name) || e.parsed.None? { continue; }
      dst := MergeItems(base, index, Items(entries[..i]), e.parsed.value, dst);
    }
    assert entries[..|entries|] == entries;
  }
}
