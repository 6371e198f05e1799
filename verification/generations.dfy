/** The two generations side by side. Their builders differ in one line:
    goflat's isList answers false for a depth past the end of the current
    key (unflat.go:113-115), where flat's reads past the end and panics
    (unmap.go:111). The builder only asks that question in unflatList's
    fresh-child case for a last segment that is not an index, and Atoi's 0
    for such a segment only misses the list when the list is empty. The
    builder never leaves a list empty, so from an empty root both
    generations build the same tree, and the decoders of the two packages
    can be stated in terms of each other. */
module Generations {
  import opened Outcomes
  import opened Text
  import opened Values
  import opened Paths
  import opened Options
  import opened Shape
  import opened Builder
  import opened Decoder
  import opened RoundTrip
  import opened Encoder
  import LegacyOptions

  /** Every list inside `v` holds at least one item. */
  ghost predicate NoEmptyList(v: Value) {
    match v
    case Leaf(_) => true
    case Pointer(_, t) => NoEmptyList(t)
    case List(items) => |items| > 0 && forall i :: 0 <= i < |items| ==> NoEmptyList(items[i])
    case Object(m) => forall k :: k in m ==> NoEmptyList(m[k])
  }

  /** The nodes unflat is handed: one without empty lists, or the list just
      created for a key whose segment at `depth` is an index. */
  ghost predicate Ready(cur: Value, path: seq<string>, depth: nat) {
    NoEmptyList(cur) || (cur == List([]) && depth < |path| && IndexLike(path[depth]))
  }

  /** Below the end of the key both generations run the same isList. */
  lemma IsListInside(keys: seq<seq<string>>, cur: seq<string>, self: int, depth: nat)
    requires depth < |cur|
    ensures IsList(Current, keys, cur, self, depth) == IsList(Legacy, keys, cur, self, depth)
  {
  }

  /** The empty container chosen by isList is a node unflat may be handed. */
  lemma FreshReady(gen: Generation, keys: seq<seq<string>>, path: seq<string>, self: int, depth: nat)
    requires IsList(gen, keys, path, self, depth).Success?
    ensures Ready(Fresh(IsList(gen, keys, path, self, depth).value), path, depth)
  {
  }

  /** Appending a node without empty lists keeps a list free of them. */
  lemma AppendKeeps(items: seq<Value>, x: Value)
    requires forall i :: 0 <= i < |items| ==> NoEmptyList(items[i])
    requires NoEmptyList(x)
    ensures NoEmptyList(List(items + [x]))
  {
    var r := items + [x];
    forall i | 0 <= i < |r| ensures NoEmptyList(r[i]) {
      if i < |items| {
        assert r[i] == items[i];
      }
    }
  }

  /** So does replacing an item by such a node. */
  lemma UpdateKeeps(items: seq<Value>, n: nat, x: Value)
    requires n < |items| && forall i :: 0 <= i < |items| ==> NoEmptyList(items[i])
    requires NoEmptyList(x)
    ensures NoEmptyList(List(items[n := x]))
  {
  }

  lemma {:induction false} UnflatSame(keys: seq<seq<string>>, cur: Value, value: Scalar,
                                      path: seq<string>, self: nat, depth: nat)
    requires depth <= |path| && Ready(cur, path, depth)
    ensures Unflat(Current, keys, cur, value, path, self, depth) == Unflat(Legacy, keys, cur, value, path, self, depth)
    ensures var r := Unflat(Current, keys, cur, value, path, self, depth);
      r.Success? ==> NoEmptyList(r.value)
    decreases |path| - depth, 1
  {
    match cur
    case List(items) => UnflatListSame(keys, items, value, path, self, depth);
    case Object(m) => UnflatObjectSame(keys, m, value, path, self, depth);
    case _ =>
  }

  lemma {:induction false} UnflatListSame(keys: seq<seq<string>>, items: seq<Value>, value: Scalar,
                                          path: seq<string>, self: nat, depth: nat)
    requires depth <= |path| && Ready(List(items), path, depth)
    ensures UnflatList(Current, keys, items, value, path, self, depth)
         == UnflatList(Legacy, keys, items, value, path, self, depth)
    ensures var r := UnflatList(Current, keys, items, value, path, self, depth);
      r.Success? ==> NoEmptyList(r.value)
    decreases |path| - depth, 0
  {
    if depth == |path| {
    } else if IndexLike(path[depth]) && depth + 1 == |path| {
      AppendKeeps(items, Leaf(value));
    } else {
      var n := Atoi(path[depth]);
      if 0 <= n < |items| {
        UnflatSame(keys, items[n], value, path, self, depth + 1);
        var c := Unflat(Current, keys, items[n], value, path, self, depth + 1);
        if c.Success? {
          UpdateKeeps(items, n, c.value);
        }
      } else {
        assert depth + 1 < |path|;
        IsListInside(keys, path, self, depth + 1);
        var asList := IsList(Current, keys, path, self, depth + 1);
        if asList.Success? {
          FreshReady(Current, keys, path, self, depth + 1);
          UnflatSame(keys, Fresh(asList.value), value, path, self, depth + 1);
          var c := Unflat(Current, keys, Fresh(asList.value), value, path, self, depth + 1);
          if c.Success? {
            AppendKeeps(items, c.value);
          }
        }
      }
    }
  }

  lemma {:induction false} UnflatObjectSame(keys: seq<seq<string>>, m: map<string, Value>, value: Scalar,
                                            path: seq<string>, self: nat, depth: nat)
    requires depth <= |path| && Ready(Object(m), path, depth)
    ensures UnflatObject(Current, keys, m, value, path, self, depth)
         == UnflatObject(Legacy, keys, m, value, path, self, depth)
    ensures var r := UnflatObject(Current, keys, m, value, path, self, depth);
      r.Success? ==> NoEmptyList(r.value)
    decreases |path| - depth, 0
  {
    if depth + 1 < |path| {
      IsListInside(keys, path, self, depth + 1);
      var asList := IsList(Current, keys, path, self, depth + 1);
      if asList.Success? {
        var k := path[depth];
        FreshReady(Current, keys, path, self, depth + 1);
        var start := if k in m then m[k] else Fresh(asList.value);
        UnflatSame(keys, start, value, path, self, depth + 1);
      }
    }
  }

  /** From a root without empty lists the two generations build the same
      tree, failures included. */
  lemma {:induction false} BuildSame(flat: FlatMap, keys: seq<seq<string>>, d: string, root: Value, j: nat)
    requires root.Object? && j <= |keys| && NoEmptyList(root)
    requires forall i :: 0 <= i < |keys| ==> Join(keys[i], d) in flat
    ensures Build(Current, flat, keys, d, root, j) == Build(Legacy, flat, keys, d, root, j)
    decreases |keys| - j
  {
    if j < |keys| {
      var value := flat[Join(keys[j], d)];
      UnflatSame(keys, root, value, keys[j], j, 0);
      var next := Unflat(Current, keys, root, value, keys[j], j, 0);
      if next.Success? {
        BuildSame(flat, keys, d, next.value, j + 1);
      }
    }
  }

  /** The decoders build from the empty object, so they always agree. */
  lemma BuildFromEmptySame(flat: FlatMap, keys: seq<seq<string>>, d: string)
    requires forall i :: 0 <= i < |keys| ==> Join(keys[i], d) in flat
    ensures Build(Current, flat, keys, d, Object(map[]), 0) == Build(Legacy, flat, keys, d, Object(map[]), 0)
  {
    BuildSame(flat, keys, d, Object(map[]), 0);
  }

  /** goflat's UMap, given the delimiter of flat's options, decodes exactly
      as flat's UMap does when the root is not list-shaped: the same map or
      the same failure. */
  lemma LegacyUMapIsObjectBranch(flat: FlatMap, opts: seq<OptionFn>)
    requires |flat| > 0 && DefaultOptions(opts).delimiter != ""
    requires var keys := SortKeys(flat, DefaultOptions(opts).delimiter);
      IsList(Current, keys, keys[0], 0, 0) == Success(false)
    ensures var legacy := LegacyUMap(flat, Some(LegacyOptions.LegacyOptions(DefaultOptions(opts).delimiter)));
      UMap(flat, opts) == if legacy.Success? then Success(Some(Object(legacy.value))) else Failure(legacy.error)
  {
    var d := DefaultOptions(opts).delimiter;
    var keys := SortKeys(flat, d);
    BuildFromEmptySame(flat, keys, d);
    UMapObjectRoot(flat, opts, Build(Current, flat, keys, d, Object(map[]), 0));
  }

  /** goflat's UList, decoding with ".", returns the list that flat's UMap
      finds for a list-shaped root, and fails exactly when flat's UMap does
      (with the same error). */
  lemma LegacyUListIsRootList(flat: FlatMap, p: Option<LegacyOptions.LegacyOptions>)
    requires LegacyDelimiter(p) == "." && |flat| > 0
    requires var keys := SortKeys(flat, "."); IsList(Current, keys, keys[0], 0, 0) == Success(true)
    ensures UMap(flat, []).Success? ==>
      UMap(flat, []).value.Some? && UMap(flat, []).value.value.List? &&
      LegacyUList(flat, p) == Success(UMap(flat, []).value.value.items)
    ensures UMap(flat, []).Failure? ==> LegacyUList(flat, p) == Failure(UMap(flat, []).error)
  {
    var o := DefaultOptions([]);
    assert o == Options(".", Identity);
    DefaultWrapperSafe();
    var w := Wrap(flat, o);
    var wkeys := SortKeys(w, ".");
    BuildFromEmptySame(w, wkeys, ".");
    var r := Build(Current, w, wkeys, ".", Object(map[]), 0);
    LegacyUMapBuilt(w, p);
    if r.Success? {
      UMapListRoot(flat, [], w, r.value);
      LegacyUListOf(flat, p, w, r.value.fields);
    } else {
      UMapListRootFails(flat, w, r.error);
      LegacyUListFails(flat, p, w, r.error);
    }
  }

  /** goflat's UMap with a non-empty delimiter is the legacy build. */
  lemma LegacyUMapBuilt(flat: FlatMap, p: Option<LegacyOptions.LegacyOptions>)
    requires LegacyDelimiter(p) != ""
    ensures var d := LegacyDelimiter(p);
      var r := Build(Legacy, flat, SortKeys(flat, d), d, Object(map[]), 0);
      LegacyUMap(flat, p) == if r.Success? then Success(r.value.fields) else Failure(r.error)
  {
  }

  /** A failed build of the wrapped map is UMap's failure. */
  lemma UMapListRootFails(flat: FlatMap, w: FlatMap, e: Fault)
    requires |flat| > 0
    requires var keys := SortKeys(flat, "."); IsList(Current, keys, keys[0], 0, 0) == Success(true)
    requires w == Wrap(flat, Options(".", Identity))
    requires Build(Current, w, SortKeys(w, "."), ".", Object(map[]), 0) == Failure(e)
    ensures UMap(flat, []) == Failure(e)
  {
    var o := DefaultOptions([]);
    assert o == Options(".", Identity);
    assert UMap(flat, []) == RootListPath(flat, o);
  }

  /** A failed legacy decoding of the wrapped map is UList's failure. */
  lemma LegacyUListFails(flat: FlatMap, p: Option<LegacyOptions.LegacyOptions>, w: FlatMap, e: Fault)
    requires w == Wrap(flat, Options(".", Identity))
    requires LegacyUMap(w, p) == Failure(e)
    ensures LegacyUList(flat, p) == Failure(e)
  {
  }

  /** goflat's UList of a map whose keys are all indices is the list of its
      payloads in the order sort.Strings gives the keys. */
  lemma LegacyUListOfIndexKeys(flat: FlatMap, p: Option<LegacyOptions.LegacyOptions>)
    requires LegacyDelimiter(p) == "." && |flat| > 0
    requires forall k :: k in flat ==> IndexLike(k)
    ensures LegacyUList(flat, p) == Success(KeyOrder(flat))
  {
    IndexRootIsList(flat);
    IndexKeysDecodeInKeyOrder(flat);
    LegacyUListIsRootList(flat, p);
  }

  /** A goflat Map of a non-nil value mends the caller's options, so
      decoding with the same record afterwards never meets an empty
      delimiter; a Map of nil leaves an empty delimiter in place, and
      decoding with it is rejected. */
  lemma LegacyMapMendsDelimiter(input: Option<Value>, p: Option<LegacyOptions.LegacyOptions>, flat: FlatMap)
    ensures input.Some? ==> LegacyUMap(flat, LegacyMap(input, p).callerAfter) != Failure(EmptyDelimiter)
    ensures input.None? && p == Some(LegacyOptions.LegacyOptions("")) ==>
      LegacyUMap(flat, LegacyMap(input, p).callerAfter) == Failure(EmptyDelimiter)
  {
  }
}
