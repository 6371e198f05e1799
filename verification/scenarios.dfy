/** Concrete decodings that pin the behaviour of UMap on small inputs: the
    root list, the mixed object, the sort-order hazard for lists of more
    than ten elements, the index-versus-key conflict, the wrapper-fold
    lookup and the short-prefix panic. */
module Scenarios {
  import opened Outcomes
  import opened Text
  import opened Paths
  import opened Values
  import opened Ordering
  import opened Options
  import opened Util
  import opened Shape
  import opened Builder
  import opened Decoder
  import LegacyOptions

  // ---------------------------------------------------------------------
  // Tools for evaluating the model on literals.

  /** A segment free of the delimiter character splits to itself, and can
      stand before the delimiter. */
  lemma Plain(s: string)
    requires '.' !in s
    ensures Split(s, ".") == [s]
    ensures SafeSegment(s, ".") && !Contains(s, ".")
  {
    ContainsSingleChar(s, '.');
    SafeSegmentSingleChar(s, '.');
    SplitClean(s, ".");
  }

  /** Splitting the key "a.b" on "." when neither part holds a dot. */
  lemma SplitTwo(a: string, b: string, key: string)
    requires '.' !in a && '.' !in b && key == a + "." + b
    ensures Split(key, ".") == [a, b] && Join([a, b], ".") == key
  {
    Plain(a);
    Plain(b);
    assert CleanPath([a, b], ".");
    SplitJoin([a, b], ".");
  }

  /** The sorted key arrays of a flat map whose keys, in order, are `names`. */
  lemma SortKeysOf(flat: FlatMap, d: string, names: seq<string>)
    requires StrictlySorted(names) && forall k :: k in names <==> k in flat
    ensures SortKeys(flat, d) == SplitAll(names, d)
  {
    SortedEnumerationUnique(flat.Keys, names);
  }

  /** The key arrays of a two-key map whose keys sort as `k1`, `k2`. */
  lemma SortedPair(flat: FlatMap, k1: string, k2: string, p1: seq<string>, p2: seq<string>)
    requires flat.Keys == {k1, k2} && Below(k1, k2)
    requires Split(k1, ".") == p1 && Split(k2, ".") == p2
    ensures SortKeys(flat, ".") == [p1, p2]
  {
    assert StrictlySorted([k1, k2]);
    assert forall k :: k in [k1, k2] <==> k in flat;
    SortKeysOf(flat, ".", [k1, k2]);
    SplitAllPair(k1, k2, p1, p2);
  }

  /** Build over two keys is the two insertions in order. */
  lemma BuildTwo(gen: Generation, flat: FlatMap, keys: seq<seq<string>>, d: string,
                 r0: Value, r1: Value, r2: Result<Value>)
    requires |keys| == 2 && r0.Object? && r1.Object?
    requires Join(keys[0], d) in flat && Join(keys[1], d) in flat
    requires Unflat(gen, keys, r0, flat[Join(keys[0], d)], keys[0], 0, 0) == Success(r1)
    requires Unflat(gen, keys, r1, flat[Join(keys[1], d)], keys[1], 1, 0) == r2
    ensures Build(gen, flat, keys, d, r0, 0) == r2
  {
    assert Build(gen, flat, keys, d, r1, 1) == (if r2.Success? then Build(gen, flat, keys, d, r2.value, 2) else r2);
  }

  /** Build over one key is that key's insertion. */
  lemma BuildOne(gen: Generation, flat: FlatMap, keys: seq<seq<string>>, d: string, r0: Value, r1: Value)
    requires |keys| == 1 && r0.Object? && Join(keys[0], d) in flat
    requires Unflat(gen, keys, r0, flat[Join(keys[0], d)], keys[0], 0, 0) == Success(r1)
    ensures Build(gen, flat, keys, d, r0, 0) == Success(r1)
  {
  }

  lemma PlainDefaults()
    ensures DefaultOptions([]) == Options(".", Identity)
  {
  }

  // ---------------------------------------------------------------------
  // Scenarios.

  /** {"0": a, "1": b} is a root list: it is wrapped, built, and unwrapped
      to the list [a, b]. */
  lemma RootList(a: Scalar, b: Scalar)
    ensures UMap(map["0" := a, "1" := b], []) == Success(Some(List([Leaf(a), Leaf(b)])))
  {
    var flat := map["0" := a, "1" := b];
    var o := Options(".", Identity);
    PlainDefaults();
    RootListKeys(a, b);
    RootListWrap(a, b);
    RootListWrappedKeys(a, b);
    RootListBuild(Current, a, b);
  }

  lemma RootListKeys(a: Scalar, b: Scalar)
    ensures var keys := SortKeys(map["0" := a, "1" := b], ".");
      keys == [["0"], ["1"]] && IsList(Current, keys, keys[0], 0, 0) == Success(true)
  {
    RootListSorted(a, b);
    var keys := [["0"], ["1"]];
    assert Compare(["1"], ["0"], 0, 0) == Agrees;
    assert Scan(keys, ["0"], 0, 0, 1) == Success(true);
  }

  lemma RootListSorted(a: Scalar, b: Scalar)
    ensures SortKeys(map["0" := a, "1" := b], ".") == [["0"], ["1"]]
  {
    assert Below("0", "1");
    Plain("0");
    Plain("1");
    SortedPair(map["0" := a, "1" := b], "0", "1", ["0"], ["1"]);
  }

  lemma RootListWrap(a: Scalar, b: Scalar)
    ensures Wrap(map["0" := a, "1" := b], Options(".", Identity)) == map["wrapper.0" := a, "wrapper.1" := b]
  {
    var flat := map["0" := a, "1" := b];
    var o := Options(".", Identity);
    assert Below("0", "1");
    SortedEnumerationUnique(flat.Keys, ["0", "1"]);
    assert ConcatKey(WrapperKey, "0", o) == "wrapper.0";
    assert ConcatKey(WrapperKey, "1", o) == "wrapper.1";
  }

  lemma RootListWrappedKeys(a: Scalar, b: Scalar)
    ensures SortKeys(map["wrapper.0" := a, "wrapper.1" := b], ".") == [["wrapper", "0"], ["wrapper", "1"]]
  {
    var wrapped := map["wrapper.0" := a, "wrapper.1" := b];
    WrappedOrder();
    assert wrapped.Keys == {"wrapper.0", "wrapper.1"};
    WrappedSplits();
  }

  lemma WrappedSplits()
    ensures SplitAll(["wrapper.0", "wrapper.1"], ".") == [["wrapper", "0"], ["wrapper", "1"]]
  {
    SplitAllUnder("wrapper", "0", "1", "wrapper.0", "wrapper.1");
  }

  /** Splitting the two keys "a.b" and "a.c" on "." when no part holds a dot. */
  lemma SplitAllUnder(a: string, b: string, c: string, k0: string, k1: string)
    requires '.' !in a && '.' !in b && '.' !in c
    requires k0 == a + "." + b && k1 == a + "." + c
    ensures SplitAll([k0, k1], ".") == [[a, b], [a, c]]
  {
    SplitTwo(a, b, k0);
    SplitTwo(a, c, k1);
    SplitAllPair(k0, k1, [a, b], [a, c]);
  }

  lemma SplitAllPair(k0: string, k1: string, p0: seq<string>, p1: seq<string>)
    requires Split(k0, ".") == p0 && Split(k1, ".") == p1
    ensures SplitAll([k0, k1], ".") == [p0, p1]
  {
  }

  lemma WrappedOrder()
    ensures SortStrings({"wrapper.0", "wrapper.1"}) == ["wrapper.0", "wrapper.1"]
  {
    assert Below("0", "1");
    BelowAfterPrefix("wrapper.", "0", "1");
    SortedEnumerationUnique({"wrapper.0", "wrapper.1"}, ["wrapper.0", "wrapper.1"]);
  }

  lemma RootListBuild(gen: Generation, a: Scalar, b: Scalar)
    ensures Join(["wrapper", "0"], ".") == "wrapper.0" && Join(["wrapper", "1"], ".") == "wrapper.1"
    ensures Build(gen, map["wrapper.0" := a, "wrapper.1" := b], [["wrapper", "0"], ["wrapper", "1"]],
                  ".", Object(map[]), 0)
         == Success(Object(map["wrapper" := List([Leaf(a), Leaf(b)])]))
  {
    assert Join(["wrapper", "0"], ".") == "wrapper.0";
    assert Join(["wrapper", "1"], ".") == "wrapper.1";
    var flat := map["wrapper.0" := a, "wrapper.1" := b];
    var keys := [["wrapper", "0"], ["wrapper", "1"]];
    var r1 := Object(map["wrapper" := List([Leaf(a)])]);
    var r2 := Object(map["wrapper" := List([Leaf(a), Leaf(b)])]);
    assert flat[Join(keys[0], ".")] == a && flat[Join(keys[1], ".")] == b;
    RootListFirst(gen, a, b);
    RootListSecond(gen, a, b);
    BuildTwo(gen, flat, keys, ".", Object(map[]), r1, Success(r2));
  }

  lemma RootListFirst(gen: Generation, a: Scalar, b: Scalar)
    ensures Unflat(gen, [["wrapper", "0"], ["wrapper", "1"]], Object(map[]), a, ["wrapper", "0"], 0, 0)
         == Success(Object(map["wrapper" := List([Leaf(a)])]))
  {
    var wkeys := [["wrapper", "0"], ["wrapper", "1"]];
    assert Compare(["wrapper", "1"], ["wrapper", "0"], 1, 0) == Agrees;
    assert Scan(wkeys, ["wrapper", "0"], 0, 1, 1) == Success(true);
    assert IsList(gen, wkeys, ["wrapper", "0"], 0, 1) == Success(true);
  }

  lemma RootListSecond(gen: Generation, a: Scalar, b: Scalar)
    ensures Unflat(gen, [["wrapper", "0"], ["wrapper", "1"]], Object(map["wrapper" := List([Leaf(a)])]), b, ["wrapper", "1"], 1, 0)
         == Success(Object(map["wrapper" := List([Leaf(a), Leaf(b)])]))
  {
    var wkeys := [["wrapper", "0"], ["wrapper", "1"]];
    assert Compare(["wrapper", "0"], ["wrapper", "1"], 1, 0) == Agrees;
    assert Scan(wkeys, ["wrapper", "1"], 1, 1, 0) == Success(true);
    assert IsList(gen, wkeys, ["wrapper", "1"], 1, 1) == Success(true);
    assert IndexLike("1") && ["wrapper", "1"][1] == "1";
    assert [Leaf(a)] + [Leaf(b)] == [Leaf(a), Leaf(b)];
    assert UnflatList(gen, wkeys, [Leaf(a)], b, ["wrapper", "1"], 1, 1) == Success(List([Leaf(a), Leaf(b)]));
    assert Unflat(gen, wkeys, List([Leaf(a)]), b, ["wrapper", "1"], 1, 1) == Success(List([Leaf(a), Leaf(b)]));
    var m := map["wrapper" := List([Leaf(a)])];
    assert m["wrapper" := List([Leaf(a), Leaf(b)])] == map["wrapper" := List([Leaf(a), Leaf(b)])];
    assert UnflatObject(gen, wkeys, m, b, ["wrapper", "1"], 1, 0) == Success(Object(map["wrapper" := List([Leaf(a), Leaf(b)])]));
  }

  /** {"0": a, "name": b}: one sibling that is not an index makes the root
      an object, and the index-like key becomes an ordinary field. */
  lemma MixedRoot(a: Scalar, b: Scalar)
    ensures UMap(map["0" := a, "name" := b], []) == Success(Some(Object(map["0" := Leaf(a), "name" := Leaf(b)])))
  {
    var flat := map["0" := a, "name" := b];
    var keys := [["0"], ["name"]];
    MixedRootKeys(a, b);
    var first := Object(map["0" := Leaf(a)]);
    var second := Object(map["0" := Leaf(a), "name" := Leaf(b)]);
    MixedRootSteps(a, b);
    BuildTwo(Current, flat, keys, ".", Object(map[]), first, Success(second));
    PlainDefaults();
    UMapObjectRoot(flat, [], Success(second));
  }

  lemma MixedRootKeys(a: Scalar, b: Scalar)
    ensures SortKeys(map["0" := a, "name" := b], ".") == [["0"], ["name"]]
    ensures IsList(Current, [["0"], ["name"]], ["0"], 0, 0) == Success(false)
  {
    Plain("0");
    Plain("name");
    assert Below("0", "name");
    SortedPair(map["0" := a, "name" := b], "0", "name", ["0"], ["name"]);
    assert Compare(["name"], ["0"], 0, 0) == Rejects;
    assert Scan([["0"], ["name"]], ["0"], 0, 0, 1) == Success(false);
  }

  lemma MixedRootSteps(a: Scalar, b: Scalar)
    ensures Join(["0"], ".") == "0" && Join(["name"], ".") == "name"
    ensures Unflat(Current, [["0"], ["name"]], Object(map[]), a, ["0"], 0, 0) == Success(Object(map["0" := Leaf(a)]))
    ensures Unflat(Current, [["0"], ["name"]], Object(map["0" := Leaf(a)]), b, ["name"], 1, 0)
         == Success(Object(map["0" := Leaf(a), "name" := Leaf(b)]))
  {
  }

  /** {"list.2": c, "list.10": k}: sort.Strings puts "list.10" first, and a
      final index-like segment always appends, so the list is [k, c]; the
      numeric value of the index plays no part. */
  lemma TenSortsBeforeTwo(c: Scalar, k: Scalar)
    ensures UMap(map["list.2" := c, "list.10" := k], []) == Success(Some(Object(map["list" := List([Leaf(k), Leaf(c)])])))
  {
    var flat := map["list.2" := c, "list.10" := k];
    var keys := [["list", "10"], ["list", "2"]];
    TenSortsBeforeTwoKeys(c, k);
    var first := Object(map["list" := List([Leaf(k)])]);
    var second := Object(map["list" := List([Leaf(k), Leaf(c)])]);
    TenSortsBeforeTwoFirst(c, k);
    TenSortsBeforeTwoSecond(c, k);
    assert Join(keys[0], ".") == "list.10" && Join(keys[1], ".") == "list.2";
    BuildTwo(Current, flat, keys, ".", Object(map[]), first, Success(second));
    PlainDefaults();
    UMapObjectRoot(flat, [], Success(second));
  }

  lemma TenSortsBeforeTwoKeys(c: Scalar, k: Scalar)
    ensures SortKeys(map["list.2" := c, "list.10" := k], ".") == [["list", "10"], ["list", "2"]]
    ensures IsList(Current, [["list", "10"], ["list", "2"]], ["list", "10"], 0, 0) == Success(false)
  {
    ListKeySplits();
    TenBelowTwo();
    var flat := map["list.2" := c, "list.10" := k];
    assert flat.Keys == {"list.10", "list.2"};
    SortedPair(flat, "list.10", "list.2", ["list", "10"], ["list", "2"]);
    TenSortsBeforeTwoRoot();
  }

  lemma TenSortsBeforeTwoRoot()
    ensures IsList(Current, [["list", "10"], ["list", "2"]], ["list", "10"], 0, 0) == Success(false)
  {
    assert !IndexLike("list");
  }

  lemma ListKeySplits()
    ensures Split("list.10", ".") == ["list", "10"] && Split("list.2", ".") == ["list", "2"]
  {
    SplitTwo("list", "10", "list.10");
    SplitTwo("list", "2", "list.2");
  }

  lemma TenBelowTwo()
    ensures Below("list.10", "list.2")
  {
    assert Below("10", "2");
    BelowAfterPrefix("list.", "10", "2");
  }

  lemma TenSortsBeforeTwoFirst(c: Scalar, k: Scalar)
    ensures Unflat(Current, [["list", "10"], ["list", "2"]], Object(map[]), k, ["list", "10"], 0, 0)
         == Success(Object(map["list" := List([Leaf(k)])]))
  {
    var keys := [["list", "10"], ["list", "2"]];
    assert Compare(["list", "2"], ["list", "10"], 1, 0) == Agrees;
    assert Scan(keys, ["list", "10"], 0, 1, 1) == Success(true);
    assert IsList(Current, keys, ["list", "10"], 0, 1) == Success(true);
    assert IndexLike("10") && ["list", "10"][1] == "10";
    assert UnflatList(Current, keys, [], k, ["list", "10"], 0, 1) == Success(List([Leaf(k)]));
  }

  lemma TenSortsBeforeTwoSecond(c: Scalar, k: Scalar)
    ensures Unflat(Current, [["list", "10"], ["list", "2"]], Object(map["list" := List([Leaf(k)])]), c, ["list", "2"], 1, 0)
         == Success(Object(map["list" := List([Leaf(k), Leaf(c)])]))
  {
    var keys := [["list", "10"], ["list", "2"]];
    assert Compare(["list", "10"], ["list", "2"], 1, 0) == Agrees;
    assert Scan(keys, ["list", "2"], 1, 1, 0) == Success(true);
    assert IsList(Current, keys, ["list", "2"], 1, 1) == Success(true);
    assert IndexLike("2") && ["list", "2"][1] == "2";
    assert [Leaf(k)] + [Leaf(c)] == [Leaf(k), Leaf(c)];
    assert Unflat(Current, keys, List([Leaf(k)]), c, ["list", "2"], 1, 1) == Success(List([Leaf(k), Leaf(c)]));
    var m := map["list" := List([Leaf(k)])];
    assert m["list" := List([Leaf(k), Leaf(c)])] == map["list" := List([Leaf(k), Leaf(c)])];
  }

  /** {"x.0": a, "x.y": b}: the index-like segment and the plain one share
      the prefix "x", so "x" becomes an object holding the field "0". */
  lemma IndexBesideKey(a: Scalar, b: Scalar)
    ensures UMap(map["x.0" := a, "x.y" := b], []) == Success(Some(Object(map["x" := Object(map["0" := Leaf(a), "y" := Leaf(b)])])))
  {
    var flat := map["x.0" := a, "x.y" := b];
    var keys := [["x", "0"], ["x", "y"]];
    IndexBesideKeyKeys(a, b);
    var first := Object(map["x" := Object(map["0" := Leaf(a)])]);
    var second := Object(map["x" := Object(map["0" := Leaf(a), "y" := Leaf(b)])]);
    IndexBesideKeyFirst(a, b);
    IndexBesideKeySecond(a, b);
    assert Join(keys[0], ".") == "x.0" && Join(keys[1], ".") == "x.y";
    BuildTwo(Current, flat, keys, ".", Object(map[]), first, Success(second));
    PlainDefaults();
    UMapObjectRoot(flat, [], Success(second));
  }

  lemma IndexBesideKeyKeys(a: Scalar, b: Scalar)
    ensures SortKeys(map["x.0" := a, "x.y" := b], ".") == [["x", "0"], ["x", "y"]]
    ensures IsList(Current, [["x", "0"], ["x", "y"]], ["x", "0"], 0, 0) == Success(false)
  {
    SplitTwo("x", "0", "x.0");
    SplitTwo("x", "y", "x.y");
    assert Below("0", "y");
    BelowAfterPrefix("x.", "0", "y");
    SortedPair(map["x.0" := a, "x.y" := b], "x.0", "x.y", ["x", "0"], ["x", "y"]);
    assert !IndexLike("x");
  }

  lemma IndexBesideKeyFirst(a: Scalar, b: Scalar)
    ensures Unflat(Current, [["x", "0"], ["x", "y"]], Object(map[]), a, ["x", "0"], 0, 0)
         == Success(Object(map["x" := Object(map["0" := Leaf(a)])]))
  {
    var keys := [["x", "0"], ["x", "y"]];
    assert Compare(["x", "y"], ["x", "0"], 1, 0) == Rejects;
    assert Scan(keys, ["x", "0"], 0, 1, 1) == Success(false);
    assert IsList(Current, keys, ["x", "0"], 0, 1) == Success(false);
    assert UnflatObject(Current, keys, map[], a, ["x", "0"], 0, 1) == Success(Object(map["0" := Leaf(a)]));
  }

  lemma IndexBesideKeySecond(a: Scalar, b: Scalar)
    ensures Unflat(Current, [["x", "0"], ["x", "y"]], Object(map["x" := Object(map["0" := Leaf(a)])]), b, ["x", "y"], 1, 0)
         == Success(Object(map["x" := Object(map["0" := Leaf(a), "y" := Leaf(b)])]))
  {
    var keys := [["x", "0"], ["x", "y"]];
    assert !IndexLike("y");
    assert IsList(Current, keys, ["x", "y"], 1, 1) == Success(false);
    var inner := map["0" := Leaf(a), "y" := Leaf(b)];
    assert map["0" := Leaf(a)]["y" := Leaf(b)] == inner;
    assert Unflat(Current, keys, Object(map["0" := Leaf(a)]), b, ["x", "y"], 1, 1) == Success(Object(inner));
    var m := map["x" := Object(map["0" := Leaf(a)])];
    assert m["x" := Object(inner)] == map["x" := Object(inner)];
  }

  /** {"X": a, "x.0": b}: "X" equals the first segment of "x.0" ignoring
      case but has no second segment, and isList reads it anyway. */
  lemma ShortPrefixPanics(a: Scalar, b: Scalar)
    ensures UMap(map["X" := a, "x.0" := b], []) == Failure(IndexOutOfRange)
  {
    var flat := map["X" := a, "x.0" := b];
    var keys := [["X"], ["x", "0"]];
    ShortPrefixKeys(a, b);
    var first := Object(map["X" := Leaf(a)]);
    ShortPrefixSteps(a, b);
    assert Join(keys[0], ".") == "X" && Join(keys[1], ".") == "x.0";
    BuildTwo(Current, flat, keys, ".", Object(map[]), first, Failure(IndexOutOfRange));
    PlainDefaults();
    UMapObjectRoot(flat, [], Failure(IndexOutOfRange));
  }

  lemma ShortPrefixKeys(a: Scalar, b: Scalar)
    ensures SortKeys(map["X" := a, "x.0" := b], ".") == [["X"], ["x", "0"]]
    ensures IsList(Current, [["X"], ["x", "0"]], ["X"], 0, 0) == Success(false)
  {
    Plain("X");
    SplitTwo("x", "0", "x.0");
    assert Below("X", "x.0");
    SortedPair(map["X" := a, "x.0" := b], "X", "x.0", ["X"], ["x", "0"]);
    assert !IndexLike("X");
  }

  lemma ShortPrefixSteps(a: Scalar, b: Scalar)
    ensures Unflat(Current, [["X"], ["x", "0"]], Object(map[]), a, ["X"], 0, 0) == Success(Object(map["X" := Leaf(a)]))
    ensures Unflat(Current, [["X"], ["x", "0"]], Object(map["X" := Leaf(a)]), b, ["x", "0"], 1, 0) == Failure(IndexOutOfRange)
  {
    var keys := [["X"], ["x", "0"]];
    assert EqualFold("X", "x");
    assert Compare(["X"], ["x", "0"], 1, 0) == TooShort;
    assert Scan(keys, ["x", "0"], 1, 1, 0) == Failure(IndexOutOfRange);
    assert IsList(Current, keys, ["x", "0"], 1, 1) == Failure(IndexOutOfRange);
  }

  // ---------------------------------------------------------------------
  // The wrapper lookup ignores the fold.

  function UpperChar(c: char): char {
    if 'a' <= c <= 'z' then (c as int - 32) as char else c
  }

  /** An ASCII upper-casing fold, as strings.ToUpper is on ASCII keys. */
  function Upper(s: string): (r: string)
    ensures |r| == |s| && forall i :: 0 <= i < |s| ==> r[i] == UpperChar(s[i])
  {
    seq(|s|, i requires 0 <= i < |s| => UpperChar(s[i]))
  }

  lemma UpperOptions()
    ensures DefaultOptions([Some(WithFold(Upper))]) == Options(".", Upper)
  {
    var f := WithFold(Upper);
    assert ApplyAll(Options(".", Identity), [Some(f)]) == f(ApplyAll(Options(".", Identity), []));
  }

  /** With an upper-casing fold, {"0": a} is recognised as a root list and
      wrapped under "WRAPPER", but the result is looked up under the
      unfolded "wrapper", so UMap answers nil and the list is lost. */
  lemma FoldedWrapperLost(a: Scalar)
    ensures UMap(map["0" := a], [Some(WithFold(Upper))]) == Success(None)
  {
    var flat := map["0" := a];
    var wrapped := map["WRAPPER.0" := a];
    var wkeys := [["WRAPPER", "0"]];
    var root := Object(map["WRAPPER" := List([Leaf(a)])]);
    var opts := [Some(WithFold(Upper))];
    UpperOptions();
    assert DefaultOptions(opts).delimiter == ".";
    FoldedKeys(a);
    FoldedWrap(a);
    assert Wrap(flat, DefaultOptions(opts)) == wrapped;
    FoldedWrapperBuild(a);
    BuildOne(Current, wrapped, wkeys, ".", Object(map[]), root);
    UMapListRoot(flat, opts, wrapped, root);
    assert WrapperKey !in root.fields;
  }

  lemma FoldedKeys(a: Scalar)
    ensures SortKeys(map["0" := a], ".") == [["0"]]
    ensures IsList(Current, [["0"]], ["0"], 0, 0) == Success(true)
    ensures SortKeys(map["WRAPPER.0" := a], ".") == [["WRAPPER", "0"]]
  {
    SingleKey(a);
    SingleWrappedKey(a);
  }

  lemma SingleKey(a: Scalar)
    ensures SortKeys(map["0" := a], ".") == [["0"]]
    ensures IsList(Current, [["0"]], ["0"], 0, 0) == Success(true)
  {
    SortKeysOf(map["0" := a], ".", ["0"]);
    Plain("0");
    assert Scan([["0"]], ["0"], 0, 0, 1) == Success(true);
  }

  lemma SingleWrappedKey(a: Scalar)
    ensures SortKeys(map["WRAPPER.0" := a], ".") == [["WRAPPER", "0"]]
  {
    SplitTwo("WRAPPER", "0", "WRAPPER.0");
    SortKeysOf(map["WRAPPER.0" := a], ".", ["WRAPPER.0"]);
  }

  lemma FoldedWrap(a: Scalar)
    ensures Wrap(map["0" := a], Options(".", Upper)) == map["WRAPPER.0" := a]
  {
    var flat := map["0" := a];
    var o := Options(".", Upper);
    SortedEnumerationUnique(flat.Keys, ["0"]);
    assert Upper("wrapper") == "WRAPPER";
    assert Upper("0") == "0";
    assert ConcatKey(WrapperKey, "0", o) == "WRAPPER.0";
  }

  lemma FoldedWrapperBuild(a: Scalar)
    ensures Join(["WRAPPER", "0"], ".") == "WRAPPER.0"
    ensures Unflat(Current, [["WRAPPER", "0"]], Object(map[]), a, ["WRAPPER", "0"], 0, 0)
         == Success(Object(map["WRAPPER" := List([Leaf(a)])]))
  {
    var keys := [["WRAPPER", "0"]];
    assert Scan(keys, ["WRAPPER", "0"], 0, 1, 1) == Success(true);
    assert IsList(Current, keys, ["WRAPPER", "0"], 0, 1) == Success(true);
    assert IndexLike("0") && ["WRAPPER", "0"][1] == "0";
    assert UnflatList(Current, keys, [], a, ["WRAPPER", "0"], 0, 1) == Success(List([Leaf(a)]));
  }

  // ---------------------------------------------------------------------
  // The legacy generation.

  /** goflat's UMap never recognises a root list: {"0": a, "1": b} decodes
      to a map with the fields "0" and "1". */
  lemma LegacyRootListIsMap(a: Scalar, b: Scalar)
    ensures LegacyUMap(map["0" := a, "1" := b], None) == Success(map["0" := Leaf(a), "1" := Leaf(b)])
  {
    var flat := map["0" := a, "1" := b];
    var keys := [["0"], ["1"]];
    RootListKeys(a, b);
    assert Join(["0"], ".") == "0" && Join(["1"], ".") == "1";
    var first := Object(map["0" := Leaf(a)]);
    var second := Object(map["0" := Leaf(a), "1" := Leaf(b)]);
    assert Unflat(Legacy, keys, Object(map[]), a, ["0"], 0, 0) == Success(first);
    assert Unflat(Legacy, keys, first, b, ["1"], 1, 0) == Success(second);
    BuildTwo(Legacy, flat, keys, ".", Object(map[]), first, Success(second));
  }

  /** goflat's UList: {"0": a, "1": b} is wrapped with ".", decoded, and the
      list under "wrapper" is returned. */
  lemma LegacyList(a: Scalar, b: Scalar)
    ensures LegacyUList(map["0" := a, "1" := b], None) == Success([Leaf(a), Leaf(b)])
  {
    RootListWrap(a, b);
    LegacyWrappedMap(a, b);
    LegacyUListOf(map["0" := a, "1" := b], None, map["wrapper.0" := a, "wrapper.1" := b],
                  map["wrapper" := List([Leaf(a), Leaf(b)])]);
  }

  lemma LegacyWrappedMap(a: Scalar, b: Scalar)
    ensures LegacyUMap(map["wrapper.0" := a, "wrapper.1" := b], None) == Success(map["wrapper" := List([Leaf(a), Leaf(b)])])
  {
    var wrapped := map["wrapper.0" := a, "wrapper.1" := b];
    var wkeys := [["wrapper", "0"], ["wrapper", "1"]];
    RootListWrappedKeys(a, b);
    RootListBuild(Legacy, a, b);
    LegacyUMapOf(wrapped, None, wkeys, Object(map["wrapper" := List([Leaf(a), Leaf(b)])]));
  }

  lemma LegacyUMapOf(flat: FlatMap, p: Option<LegacyOptions.LegacyOptions>, keys: seq<seq<string>>, root: Value)
    requires LegacyDelimiter(p) != "" && SortKeys(flat, LegacyDelimiter(p)) == keys
    requires Build(Legacy, flat, keys, LegacyDelimiter(p), Object(map[]), 0) == Success(root)
    ensures root.Object? && LegacyUMap(flat, p) == Success(root.fields)
  {
  }
}
