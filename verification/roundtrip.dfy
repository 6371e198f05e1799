/** Encoding followed by decoding, for the shapes where the library gives
    the value back: an object whose fields are leaves under plain keys, at
    least one of which is not an index, and a root list of at most ten
    leaves. It also states the decoder's behaviour on any all-index map:
    one list in sorted-key order. */
module RoundTrip {
  import opened Outcomes
  import opened Text
  import opened Paths
  import opened Values
  import opened Ordering
  import opened Options
  import opened Util
  import opened Shape
  import opened Builder
  import opened Encoder
  import opened Decoder

  /** A one-level object: every field is a leaf, and every key is non-empty
      and free of the default delimiter. */
  predicate Shallow(fields: map<string, Value>) {
    forall k :: k in fields ==> fields[k].Leaf? && k != "" && '.' !in k
  }

  /** The flat map a shallow object should turn into: each key to its
      leaf's payload. */
  function Payloads(fields: map<string, Value>): FlatMap
    requires Shallow(fields)
  {
    map k | k in fields :: fields[k].scalar
  }

  /** The first segments of the key arrays from `j` on. */
  function Heads(keys: seq<seq<string>>, j: nat): set<string>
    requires forall i :: 0 <= i < |keys| ==> |keys[i]| == 1
  {
    set i | j <= i < |keys| :: keys[i][0]
  }

  // ---------------------------------------------------------------------
  // Encoding.

  lemma {:induction false} FlatShallow(fields: map<string, Value>, names: seq<string>, i: nat,
                                       acc: FlatMap, o: Options)
    requires Shallow(fields) && i <= |names| && forall n :: n in names ==> n in fields
    requires forall s :: o.fold(s) == s
    ensures var r := FlatFields(fields, names, i, acc, "", o);
      && (forall k :: k in r <==> k in acc || k in names[i..])
      && (forall k :: k in r ==> r[k] == if k in names[i..] then fields[k].scalar else acc[k])
    decreases |names| - i
  {
    if i < |names| {
      var n := names[i];
      assert n in names;
      assert Flat(fields[n], acc, ConcatKey("", n, o), o) == acc[n := fields[n].scalar];
      FlatShallow(fields, names, i + 1, acc[n := fields[n].scalar], o);
      assert names[i..] == [n] + names[i + 1..];
    }
  }

  lemma MapIsFlat(v: Value, opts: seq<OptionFn>)
    ensures Map(Some(v), opts) == Some(Flat(v, map[], "", DefaultOptions(opts)))
  {
  }

  /** A shallow object flattens to its payloads, keyed by field name. */
  lemma EncodeShallow(fields: map<string, Value>)
    requires Shallow(fields)
    ensures Map(Some(Object(fields)), []) == Some(Payloads(fields))
  {
    var o := DefaultOptions([]);
    MapIsFlat(Object(fields), []);
    FlatShallowAll(fields, o);
  }

  lemma FlatShallowAll(fields: map<string, Value>, o: Options)
    requires Shallow(fields) && forall s :: o.fold(s) == s
    ensures Flat(Object(fields), map[], "", o) == Payloads(fields)
  {
    var names := SortStrings(fields.Keys);
    FlatShallow(fields, names, 0, map[], o);
    assert names[0..] == names;
    var r := FlatFields(fields, names, 0, map[], "", o);
    var p := Payloads(fields);
    assert r.Keys == p.Keys;
    assert forall k :: k in r ==> r[k] == p[k];
  }

  // ---------------------------------------------------------------------
  // Decoding.

  lemma {:induction false} BuildShallow(flat: FlatMap, keys: seq<seq<string>>, j: nat, acc: map<string, Value>)
    requires j <= |keys|
    requires forall i :: 0 <= i < |keys| ==> |keys[i]| == 1 && keys[i][0] in flat
    ensures forall i :: 0 <= i < |keys| ==> Join(keys[i], ".") in flat
    ensures Build(Current, flat, keys, ".", Object(acc), j).Success?
    ensures var r := Build(Current, flat, keys, ".", Object(acc), j).value.fields;
      && (forall k :: k in r <==> k in acc || k in Heads(keys, j))
      && (forall k :: k in r ==> r[k] == if k in Heads(keys, j) then Leaf(flat[k]) else acc[k])
    decreases |keys| - j
  {
    assert forall i :: 0 <= i < |keys| ==> Join(keys[i], ".") == keys[i][0];
    if j < |keys| {
      var n := keys[j][0];
      var acc' := acc[n := Leaf(flat[n])];
      assert Unflat(Current, keys, Object(acc), flat[n], keys[j], j, 0) == Success(Object(acc'));
      BuildShallow(flat, keys, j + 1, acc');
      assert Heads(keys, j) == {n} + Heads(keys, j + 1);
    } else {
      assert Heads(keys, j) == {};
    }
  }

  /** The key arrays of a shallow object's payloads: one single-segment
      array per field, in sorted order. */
  lemma ShallowKeys(fields: map<string, Value>)
    requires Shallow(fields)
    ensures var keys := SortKeys(Payloads(fields), ".");
      && (forall i :: 0 <= i < |keys| ==> |keys[i]| == 1 && keys[i][0] in fields)
      && Heads(keys, 0) == fields.Keys
  {
    var flat := Payloads(fields);
    assert flat.Keys == fields.Keys;
    var names := SortStrings(flat.Keys);
    SortKeysUnfold(flat, ".");
    NamesOf(fields, names);
    ShallowSplits(fields, names);
    ShallowHeads(fields, names);
  }

  lemma NamesOf(fields: map<string, Value>, names: seq<string>)
    requires names == SortStrings(fields.Keys)
    ensures forall k :: k in names <==> k in fields
    ensures forall i :: 0 <= i < |names| ==> names[i] in fields
  {
    forall i | 0 <= i < |names| ensures names[i] in fields {
      assert names[i] in names;
    }
  }

  lemma ShallowSplits(fields: map<string, Value>, names: seq<string>)
    requires Shallow(fields) && forall i :: 0 <= i < |names| ==> names[i] in fields
    ensures forall i :: 0 <= i < |names| ==> SplitAll(names, ".")[i] == [names[i]]
  {
    forall i | 0 <= i < |names| ensures Split(names[i], ".") == [names[i]] {
      ContainsSingleChar(names[i], '.');
      SplitClean(names[i], ".");
    }
  }

  lemma ShallowHeads(fields: map<string, Value>, names: seq<string>)
    requires forall k :: k in names <==> k in fields
    requires forall i :: 0 <= i < |names| ==> SplitAll(names, ".")[i] == [names[i]]
    ensures Heads(SplitAll(names, "."), 0) == fields.Keys
  {
    var keys := SplitAll(names, ".");
    forall k | k in fields ensures k in Heads(keys, 0) {
      var i :| 0 <= i < |names| && names[i] == k;
      assert keys[i][0] == k;
    }
  }

  /** The payloads of a shallow object with a key that is not an index
      decode to the object. */
  lemma DecodeShallow(fields: map<string, Value>)
    requires Shallow(fields) && exists k :: k in fields && !IndexLike(k)
    ensures UMap(Payloads(fields), []) == Success(Some(Object(fields)))
  {
    ShallowRootIsObject(fields);
    ShallowBuild(fields);
    assert DefaultOptions([]).delimiter == ".";
    UMapObjectRoot(Payloads(fields), [], Success(Object(fields)));
  }

  lemma ShallowBuild(fields: map<string, Value>)
    requires Shallow(fields)
    ensures Build(Current, Payloads(fields), SortKeys(Payloads(fields), "."), ".", Object(map[]), 0) == Success(Object(fields))
  {
    var flat := Payloads(fields);
    var keys := SortKeys(flat, ".");
    ShallowKeys(fields);
    BuildShallow(flat, keys, 0, map[]);
    var r := Build(Current, flat, keys, ".", Object(map[]), 0).value.fields;
    SameFields(r, fields, flat);
  }

  lemma SameFields(r: map<string, Value>, fields: map<string, Value>, flat: FlatMap)
    requires Shallow(fields) && flat == Payloads(fields)
    requires forall k :: k in r <==> k in fields
    requires forall k :: k in r ==> k in flat && r[k] == Leaf(flat[k])
    ensures r == fields
  {
    assert r.Keys == fields.Keys;
    forall k | k in r ensures r[k] == fields[k] {
      assert fields[k].Leaf?;
    }
  }

  lemma ShallowRootIsObject(fields: map<string, Value>)
    requires Shallow(fields) && exists k :: k in fields && !IndexLike(k)
    ensures var keys := SortKeys(Payloads(fields), ".");
      |keys| > 0 && IsList(Current, keys, keys[0], 0, 0) == Success(false)
  {
    var flat := Payloads(fields);
    var keys := SortKeys(flat, ".");
    ShallowKeys(fields);
    var k :| k in fields && !IndexLike(k);
    assert k in Heads(keys, 0);
    var w :| 0 <= w < |keys| && keys[w][0] == k;
    assert NoShortPrefix(keys, keys[0], 0, 0);
    OneNonIndexSiblingMakesObject(Current, keys, 0, w, 0);
  }

  /** Flattening a shallow object and unflattening the result gives the
      object back, provided some key is not an index. */
  lemma ObjectRoundTrip(fields: map<string, Value>)
    requires Shallow(fields) && exists k :: k in fields && !IndexLike(k)
    ensures Map(Some(Object(fields)), []).Some?
    ensures UMap(Map(Some(Object(fields)), []).value, []) == Success(Some(Object(fields)))
  {
    EncodeShallow(fields);
    DecodeShallow(fields);
  }

  // ---------------------------------------------------------------------
  // Root lists.

  /** Atoi's accepted strings are signs and digits, never the delimiter. */
  lemma IndexHasNoDot(s: string)
    requires IndexLike(s)
    ensures '.' !in s
  {
    forall i | 0 <= i < |s| ensures s[i] != '.' {
      if (s[0] == '+' || s[0] == '-') && i > 0 {
        assert s[i] == s[1..][i - 1];
      }
    }
  }

  /** The payloads in the order sort.Strings puts their keys. */
  ghost function KeyOrder(flat: FlatMap): (r: seq<Value>)
    ensures |r| == |flat|
  {
    var names := SortStrings(flat.Keys);
    seq(|names|, i requires 0 <= i < |names| => Leaf(flat[names[i]]))
  }

  lemma ConcatKeyInjective(x: string, y: string, o: Options)
    requires forall s :: o.fold(s) == s
    requires ConcatKey(WrapperKey, x, o) == ConcatKey(WrapperKey, y, o)
    ensures x == y
  {
    var p := WrapperKey + o.delimiter;
    assert ConcatKey(WrapperKey, x, o) == p + x;
    assert ConcatKey(WrapperKey, y, o) == p + y;
    assert x == (p + x)[|p|..];
  }

  lemma {:induction false} WrapFromValues(flat: FlatMap, names: seq<string>, o: Options, acc: FlatMap, i: nat)
    requires forall k :: k in names ==> k in flat
    requires forall s :: o.fold(s) == s
    requires i < |names|
    ensures WrapFrom(flat, names, o, acc)[ConcatKey(WrapperKey, names[i], o)] == flat[names[i]]
    decreases |names|
  {
    var acc' := acc[ConcatKey(WrapperKey, names[0], o) := flat[names[0]]];
    if i > 0 {
      WrapFromValues(flat, names[1..], o, acc', i - 1);
    } else if exists j :: 0 <= j < |names[1..]| && ConcatKey(WrapperKey, names[1..][j], o) == ConcatKey(WrapperKey, names[0], o) {
      var j :| 0 <= j < |names[1..]| && ConcatKey(WrapperKey, names[1..][j], o) == ConcatKey(WrapperKey, names[0], o);
      ConcatKeyInjective(names[1..][j], names[0], o);
      WrapFromValues(flat, names[1..], o, acc', j);
    } else {
      WrapFromUntouched(flat, names[1..], o, acc', ConcatKey(WrapperKey, names[0], o));
    }
  }

  lemma {:induction false} WrapFromUntouched(flat: FlatMap, names: seq<string>, o: Options, acc: FlatMap, k: string)
    requires forall n :: n in names ==> n in flat
    requires k in acc && forall j :: 0 <= j < |names| ==> ConcatKey(WrapperKey, names[j], o) != k
    ensures WrapFrom(flat, names, o, acc)[k] == acc[k]
    decreases |names|
  {
    if names != [] {
      WrapFromUntouched(flat, names[1..], o, acc[ConcatKey(WrapperKey, names[0], o) := flat[names[0]]], k);
    }
  }

  /** With the identity fold each entry moves to "wrapper" + delimiter + key
      and keeps its payload. */
  lemma WrapPlain(flat: FlatMap, o: Options)
    requires forall s :: o.fold(s) == s
    ensures forall k :: k in Wrap(flat, o) <==> exists j :: j in flat && k == WrapperKey + o.delimiter + j
    ensures forall k :: k in flat ==> Wrap(flat, o)[WrapperKey + o.delimiter + k] == flat[k]
  {
    var names := SortStrings(flat.Keys);
    forall k | k in flat ensures Wrap(flat, o)[WrapperKey + o.delimiter + k] == flat[k] {
      var i :| 0 <= i < |names| && names[i] == k;
      WrapFromValues(flat, names, o, map[], i);
    }
  }

  lemma SortKeysUnfold(flat: FlatMap, d: string)
    ensures SortKeys(flat, d) == SplitAll(SortStrings(flat.Keys), d)
  {
  }

  /** The keys under the wrapper, in the order of `names`. */
  function UnderWrapper(names: seq<string>): (r: seq<string>)
    ensures |r| == |names| && forall i :: 0 <= i < |names| ==> r[i] == WrapperKey + "." + names[i]
  {
    seq(|names|, i requires 0 <= i < |names| => WrapperKey + "." + names[i])
  }

  /** Prefixing the sorted keys with "wrapper." keeps them sorted, so the
      wrapped map's keys sort as the original keys do. */
  lemma WrappedOrder(flat: FlatMap, o: Options)
    requires o == Options(".", Identity)
    ensures SortStrings(Wrap(flat, o).Keys) == UnderWrapper(SortStrings(flat.Keys))
  {
    WrappedSorted(SortStrings(flat.Keys));
    WrappedMembers(flat, o);
    SortedEnumerationUnique(Wrap(flat, o).Keys, UnderWrapper(SortStrings(flat.Keys)));
  }

  lemma WrappedSorted(names: seq<string>)
    requires StrictlySorted(names)
    ensures StrictlySorted(UnderWrapper(names))
  {
    var wnames := UnderWrapper(names);
    forall i, j | 0 <= i < j < |wnames| ensures Below(wnames[i], wnames[j]) {
      BelowAfterPrefix(WrapperKey + ".", names[i], names[j]);
    }
  }

  lemma WrappedMembers(flat: FlatMap, o: Options)
    requires o == Options(".", Identity)
    ensures forall k :: k in UnderWrapper(SortStrings(flat.Keys)) <==> k in Wrap(flat, o)
  {
    WrappedMembersOf(flat, SortStrings(flat.Keys), Wrap(flat, o), o);
  }

  lemma WrappedMembersOf(flat: FlatMap, names: seq<string>, w: FlatMap, o: Options)
    requires o == Options(".", Identity)
    requires forall k :: k in names <==> k in flat
    requires forall k :: k in flat ==> ConcatKey(WrapperKey, k, o) in w
    requires forall k :: k in w ==> exists j :: j in flat && k == ConcatKey(WrapperKey, j, o)
    ensures forall k :: k in UnderWrapper(names) <==> k in w
  {
    var wnames := UnderWrapper(names);
    forall k | k in w ensures k in wnames {
      var j :| j in flat && k == ConcatKey(WrapperKey, j, o);
      var i :| 0 <= i < |names| && names[i] == j;
      assert wnames[i] == k;
    }
    forall i | 0 <= i < |wnames| ensures wnames[i] in w {
      assert names[i] in names;
      assert wnames[i] == ConcatKey(WrapperKey, names[i], o);
    }
  }

  /** The wrapped key arrays of a map whose keys are all index-like: one
      ["wrapper", key] per key, in the sorted order of the keys. */
  lemma WrappedIndexKeys(flat: FlatMap, o: Options)
    requires o == Options(".", Identity)
    requires forall k :: k in flat ==> IndexLike(k)
    ensures SortKeys(Wrap(flat, o), ".") == WrapperArrays(SortStrings(flat.Keys))
  {
    WrappedOrder(flat, o);
    SortKeysUnfold(Wrap(flat, o), ".");
    WrappedSplits(SortStrings(flat.Keys));
  }

  function WrapperArrays(names: seq<string>): (r: seq<seq<string>>)
    ensures |r| == |names| && forall i :: 0 <= i < |names| ==> r[i] == [WrapperKey, names[i]]
  {
    seq(|names|, i requires 0 <= i < |names| => [WrapperKey, names[i]])
  }

  lemma WrappedSplits(names: seq<string>)
    requires forall i :: 0 <= i < |names| ==> IndexLike(names[i])
    ensures SplitAll(UnderWrapper(names), ".") == WrapperArrays(names)
  {
    forall i | 0 <= i < |names| ensures Split(UnderWrapper(names)[i], ".") == [WrapperKey, names[i]] {
      IndexHasNoDot(names[i]);
      SplitUnderWrapper(names[i]);
    }
  }

  lemma SplitUnderWrapper(k: string)
    requires '.' !in k
    ensures Split(WrapperKey + "." + k, ".") == [WrapperKey, k]
    ensures Join([WrapperKey, k], ".") == WrapperKey + "." + k
  {
    ContainsSingleChar(k, '.');
    SafeSegmentSingleChar(WrapperKey, '.');
    assert CleanPath([WrapperKey, k], ".");
    SplitJoin([WrapperKey, k], ".");
  }

  /** Key arrays that all sit under the wrapper with an index-like second
      segment, the shape of a wrapped root list. */
  predicate ColumnKeys(keys: seq<seq<string>>) {
    forall i :: 0 <= i < |keys| ==> |keys[i]| == 2 && keys[i][0] == WrapperKey && IndexLike(keys[i][1])
  }

  /** The leaves fetched through the key arrays from `j` on. */
  function Column(flat: FlatMap, keys: seq<seq<string>>, j: nat): (r: seq<Value>)
    requires j <= |keys| && forall i :: 0 <= i < |keys| ==> Join(keys[i], ".") in flat
    ensures |r| == |keys| - j
    ensures forall i :: j <= i < |keys| ==> r[i - j] == Leaf(flat[Join(keys[i], ".")])
  {
    seq(|keys| - j, i requires 0 <= i < |keys| - j => Leaf(flat[Join(keys[j + i], ".")]))
  }

  /** Under the wrapper every key is in one list-shaped sibling group. */
  lemma ColumnIsList(keys: seq<seq<string>>, j: nat)
    requires ColumnKeys(keys) && j < |keys|
    ensures IsList(Current, keys, keys[j], j, 1) == Success(true)
  {
    assert NoShortPrefix(keys, keys[j], j, 1);
    IsListSpec(Current, keys, keys[j], j, 1);
  }

  /** One key under the wrapper appends its leaf to the wrapper's list. */
  lemma ColumnStep(keys: seq<seq<string>>, j: nat, prev: seq<Value>, v: Scalar)
    requires ColumnKeys(keys) && j < |keys|
    ensures Unflat(Current, keys, Object(map[WrapperKey := List(prev)]), v, keys[j], j, 0)
         == Success(Object(map[WrapperKey := List(prev + [Leaf(v)])]))
  {
    ColumnIsList(keys, j);
    var m := map[WrapperKey := List(prev)];
    assert UnflatList(Current, keys, prev, v, keys[j], j, 1) == Success(List(prev + [Leaf(v)]));
    assert m[WrapperKey := List(prev + [Leaf(v)])] == map[WrapperKey := List(prev + [Leaf(v)])];
    assert Unflat(Current, keys, List(prev), v, keys[j], j, 1) == Success(List(prev + [Leaf(v)]));
    assert keys[j][0] == WrapperKey && WrapperKey in m;
    assert UnflatObject(Current, keys, m, v, keys[j], j, 0) == Success(Object(map[WrapperKey := List(prev + [Leaf(v)])]));
  }

  /** Each wrapped key appends its leaf to the one list under the wrapper:
      the list follows the order of the key arrays, whatever the indices
      say. */
  lemma {:induction false} BuildColumn(flat: FlatMap, keys: seq<seq<string>>, j: nat, prev: seq<Value>)
    requires ColumnKeys(keys) && 1 <= j <= |keys|
    requires forall i :: 0 <= i < |keys| ==> Join(keys[i], ".") in flat
    ensures Build(Current, flat, keys, ".", Object(map[WrapperKey := List(prev)]), j)
         == Success(Object(map[WrapperKey := List(prev + Column(flat, keys, j))]))
    decreases |keys| - j
  {
    if j == |keys| {
      ColumnEnd(flat, keys, prev);
    } else {
      var v := flat[Join(keys[j], ".")];
      BuildColumn(flat, keys, j + 1, prev + [Leaf(v)]);
      ColumnStepLink(flat, keys, j, prev);
    }
  }

  lemma ColumnEnd(flat: FlatMap, keys: seq<seq<string>>, prev: seq<Value>)
    requires forall i :: 0 <= i < |keys| ==> Join(keys[i], ".") in flat
    ensures Build(Current, flat, keys, ".", Object(map[WrapperKey := List(prev)]), |keys|)
         == Success(Object(map[WrapperKey := List(prev + Column(flat, keys, |keys|))]))
  {
    assert prev + Column(flat, keys, |keys|) == prev;
  }

  lemma ColumnStepLink(flat: FlatMap, keys: seq<seq<string>>, j: nat, prev: seq<Value>)
    requires ColumnKeys(keys) && j < |keys|
    requires forall i :: 0 <= i < |keys| ==> Join(keys[i], ".") in flat
    requires var next := prev + [Leaf(flat[Join(keys[j], ".")])];
      Build(Current, flat, keys, ".", Object(map[WrapperKey := List(next)]), j + 1)
        == Success(Object(map[WrapperKey := List(next + Column(flat, keys, j + 1))]))
    ensures Build(Current, flat, keys, ".", Object(map[WrapperKey := List(prev)]), j)
         == Success(Object(map[WrapperKey := List(prev + Column(flat, keys, j))]))
  {
    ColumnLink(flat, keys, j, prev);
    ColumnCons(flat, keys, j, prev);
  }

  lemma ColumnLink(flat: FlatMap, keys: seq<seq<string>>, j: nat, prev: seq<Value>)
    requires ColumnKeys(keys) && j < |keys|
    requires forall i :: 0 <= i < |keys| ==> Join(keys[i], ".") in flat
    ensures Build(Current, flat, keys, ".", Object(map[WrapperKey := List(prev)]), j)
         == Build(Current, flat, keys, ".", Object(map[WrapperKey := List(prev + [Leaf(flat[Join(keys[j], ".")])])]), j + 1)
  {
    var v := flat[Join(keys[j], ".")];
    ColumnStep(keys, j, prev, v);
    BuildStep(Current, flat, keys, ".", Object(map[WrapperKey := List(prev)]), j, Object(map[WrapperKey := List(prev + [Leaf(v)])]));
  }

  lemma ColumnCons(flat: FlatMap, keys: seq<seq<string>>, j: nat, prev: seq<Value>)
    requires j < |keys| && forall i :: 0 <= i < |keys| ==> Join(keys[i], ".") in flat
    ensures prev + [Leaf(flat[Join(keys[j], ".")])] + Column(flat, keys, j + 1) == prev + Column(flat, keys, j)
  {
    assert Column(flat, keys, j) == [Leaf(flat[Join(keys[j], ".")])] + Column(flat, keys, j + 1);
  }

  /** Build takes one key at a time. */
  lemma BuildStep(gen: Generation, flat: FlatMap, keys: seq<seq<string>>, d: string, root: Value, j: nat, next: Value)
    requires root.Object? && j < |keys|
    requires forall i :: 0 <= i < |keys| ==> Join(keys[i], d) in flat
    requires Unflat(gen, keys, root, flat[Join(keys[j], d)], keys[j], j, 0) == Success(next)
    ensures next.Object? && Build(gen, flat, keys, d, root, j) == Build(gen, flat, keys, d, next, j + 1)
  {
  }

  lemma BuildColumnAll(flat: FlatMap, keys: seq<seq<string>>)
    requires ColumnKeys(keys) && |keys| > 0
    requires forall i :: 0 <= i < |keys| ==> Join(keys[i], ".") in flat
    ensures Build(Current, flat, keys, ".", Object(map[]), 0)
         == Success(Object(map[WrapperKey := List(Column(flat, keys, 0))]))
  {
    var v := flat[Join(keys[0], ".")];
    BuildColumn(flat, keys, 1, [Leaf(v)]);
    ColumnFirstLink(flat, keys);
  }

  lemma ColumnFirstLink(flat: FlatMap, keys: seq<seq<string>>)
    requires ColumnKeys(keys) && |keys| > 0
    requires forall i :: 0 <= i < |keys| ==> Join(keys[i], ".") in flat
    requires var first := [Leaf(flat[Join(keys[0], ".")])];
      Build(Current, flat, keys, ".", Object(map[WrapperKey := List(first)]), 1)
        == Success(Object(map[WrapperKey := List(first + Column(flat, keys, 1))]))
    ensures Build(Current, flat, keys, ".", Object(map[]), 0)
         == Success(Object(map[WrapperKey := List(Column(flat, keys, 0))]))
  {
    var v := flat[Join(keys[0], ".")];
    ColumnFirst(keys, v);
    BuildStep(Current, flat, keys, ".", Object(map[]), 0, Object(map[WrapperKey := List([Leaf(v)])]));
    ColumnCons(flat, keys, 0, []);
    assert [] + [Leaf(v)] == [Leaf(v)] && [] + Column(flat, keys, 0) == Column(flat, keys, 0);
  }

  /** The first wrapped key creates the wrapper's list. */
  lemma ColumnFirst(keys: seq<seq<string>>, v: Scalar)
    requires ColumnKeys(keys) && |keys| > 0
    ensures Unflat(Current, keys, Object(map[]), v, keys[0], 0, 0) == Success(Object(map[WrapperKey := List([Leaf(v)])]))
  {
    ColumnIsList(keys, 0);
    assert UnflatList(Current, keys, [], v, keys[0], 0, 1) == Success(List([Leaf(v)]));
    assert Unflat(Current, keys, Fresh(true), v, keys[0], 0, 1) == Success(List([Leaf(v)]));
    assert keys[0][0] == WrapperKey;
    assert UnflatObject(Current, keys, map[], v, keys[0], 0, 0) == Success(Object(map[WrapperKey := List([Leaf(v)])]));
  }

  /** A map whose keys are all index-like is a root list. */
  lemma IndexRootIsList(flat: FlatMap)
    requires |flat| > 0 && forall k :: k in flat ==> IndexLike(k)
    ensures var keys := SortKeys(flat, ".");
      IsList(Current, keys, keys[0], 0, 0) == Success(true)
  {
    var names := SortStrings(flat.Keys);
    var keys := SortKeys(flat, ".");
    SortKeysUnfold(flat, ".");
    forall i | 0 <= i < |keys| ensures |keys[i]| == 1 && IndexLike(keys[i][0]) {
      assert names[i] in names;
      IndexHasNoDot(names[i]);
      ContainsSingleChar(names[i], '.');
      SplitClean(names[i], ".");
    }
    SingleIndexSegmentsList(keys);
  }

  /** Key arrays of one index-like segment each form a list at depth 0. */
  lemma SingleIndexSegmentsList(keys: seq<seq<string>>)
    requires |keys| > 0 && forall i :: 0 <= i < |keys| ==> |keys[i]| == 1 && IndexLike(keys[i][0])
    ensures IsList(Current, keys, keys[0], 0, 0) == Success(true)
  {
    assert NoShortPrefix(keys, keys[0], 0, 0);
    IsListSpec(Current, keys, keys[0], 0, 0);
  }

  /** The wrapped map of an all-index map: its key arrays are the wrapper
      arrays of the sorted keys, and the leaves they fetch are the payloads
      in key order. */
  lemma WrappedIndexColumn(flat: FlatMap)
    requires forall k :: k in flat ==> IndexLike(k)
    ensures var wrapped := Wrap(flat, Options(".", Identity));
      var wkeys := SortKeys(wrapped, ".");
      && ColumnKeys(wkeys)
      && (forall i :: 0 <= i < |wkeys| ==> Join(wkeys[i], ".") in wrapped)
      && Column(wrapped, wkeys, 0) == KeyOrder(flat)
  {
    var o := Options(".", Identity);
    var names := SortStrings(flat.Keys);
    var wrapped := Wrap(flat, o);
    WrappedIndexKeys(flat, o);
    WrappedLookups(flat, names, wrapped);
    ColumnOrder(flat, names, wrapped);
  }

  lemma WrappedLookups(flat: FlatMap, names: seq<string>, wrapped: FlatMap)
    requires forall k :: k in flat ==> IndexLike(k)
    requires names == SortStrings(flat.Keys) && wrapped == Wrap(flat, Options(".", Identity))
    ensures var wkeys := WrapperArrays(names);
      && ColumnKeys(wkeys)
      && forall i :: 0 <= i < |wkeys| ==>
           Join(wkeys[i], ".") in wrapped && wrapped[Join(wkeys[i], ".")] == flat[names[i]]
  {
    var wkeys := WrapperArrays(names);
    WrapPlain(flat, Options(".", Identity));
    forall i | 0 <= i < |wkeys|
      ensures IndexLike(wkeys[i][1])
      ensures Join(wkeys[i], ".") in wrapped && wrapped[Join(wkeys[i], ".")] == flat[names[i]]
    {
      assert names[i] in names;
      IndexHasNoDot(names[i]);
      SplitUnderWrapper(names[i]);
    }
  }

  lemma ColumnOrder(flat: FlatMap, names: seq<string>, wrapped: FlatMap)
    requires names == SortStrings(flat.Keys)
    requires forall i :: 0 <= i < |names| ==>
      Join(WrapperArrays(names)[i], ".") in wrapped && wrapped[Join(WrapperArrays(names)[i], ".")] == flat[names[i]]
    ensures Column(wrapped, WrapperArrays(names), 0) == KeyOrder(flat)
  {
  }

  /** A flat map whose keys are all index-like decodes to one list holding
      the payloads in the order sort.Strings gives their keys: "10" comes
      before "2", and the numeric value of a key decides nothing. */
  lemma IndexKeysDecodeInKeyOrder(flat: FlatMap)
    requires |flat| > 0 && forall k :: k in flat ==> IndexLike(k)
    ensures UMap(flat, []) == Success(Some(List(KeyOrder(flat))))
  {
    var o := DefaultOptions([]);
    assert o == Options(".", Identity);
    IndexRootIsList(flat);
    var wrapped := Wrap(flat, o);
    WrappedIndexColumn(flat);
    BuildColumnAll(wrapped, SortKeys(wrapped, "."));
    UMapListRoot(flat, [], wrapped, Object(map[WrapperKey := List(KeyOrder(flat))]));
  }

  // ---------------------------------------------------------------------
  // Root lists of leaves.

  predicate Leaves(items: seq<Value>) {
    forall i :: 0 <= i < |items| ==> items[i].Leaf?
  }

  /** `k` is the printed position of one of the items from `i` on. */
  ghost predicate PositionFrom(k: string, i: nat, n: nat) {
    exists j :: i <= j < n && k == Decimal(j)
  }

  lemma DecimalInjective(a: nat, b: nat)
    requires Decimal(a) == Decimal(b)
    ensures a == b
  {
    DecimalRoundTrip(a);
    DecimalRoundTrip(b);
  }

  /** Flattening leaves under the empty prefix writes item j's payload under
      "%d" of j, and leaves every other key of the accumulator alone. */
  lemma {:induction false} FlatLeaves(items: seq<Value>, i: nat, acc: FlatMap, o: Options)
    requires Leaves(items) && i <= |items| && forall s :: o.fold(s) == s
    ensures var r := FlatItems(items, i, acc, "", o);
      forall k :: k in r <==> k in acc || PositionFrom(k, i, |items|)
    ensures var r := FlatItems(items, i, acc, "", o);
      forall j :: i <= j < |items| ==> Decimal(j) in r && r[Decimal(j)] == items[j].scalar
    ensures var r := FlatItems(items, i, acc, "", o);
      forall k :: k in acc && !PositionFrom(k, i, |items|) ==> k in r && r[k] == acc[k]
    decreases |items| - i
  {
    if i < |items| {
      var n := |items|;
      var key := Decimal(i);
      var acc' := acc[key := items[i].scalar];
      assert Flat(items[i], acc, ConcatKey("", key, o), o) == acc';
      FlatLeaves(items, i + 1, acc', o);
      var r := FlatItems(items, i + 1, acc', "", o);
      assert FlatItems(items, i, acc, "", o) == r;
      forall k ensures k in r <==> k in acc || PositionFrom(k, i, n) {
        if PositionFrom(k, i, n) && !PositionFrom(k, i + 1, n) {
          var j :| i <= j < n && k == Decimal(j);
          assert j == i;
        }
        if k == key {
          assert PositionFrom(k, i, n);
        }
      }
      assert !PositionFrom(key, i + 1, n) by {
        if PositionFrom(key, i + 1, n) {
          var j :| i + 1 <= j < n && key == Decimal(j);
          DecimalInjective(i, j);
        }
      }
      forall k | k in acc && !PositionFrom(k, i, n) ensures k in r && r[k] == acc[k] {
        assert k != key;
      }
    }
  }

  /** A root list of leaves flattens to its payloads keyed by position. */
  lemma EncodeLeaves(items: seq<Value>)
    requires Leaves(items)
    ensures Map(Some(List(items)), []).Some?
    ensures FlattenedLeaves(items, Map(Some(List(items)), []).value)
  {
    MapIsFlat(List(items), []);
    FlatLeaves(items, 0, map[], DefaultOptions([]));
  }

  /** The first n printed positions. */
  function Positions(n: nat): (r: seq<string>)
    ensures |r| == n && forall i :: 0 <= i < n ==> r[i] == Decimal(i)
  {
    seq(n, i requires 0 <= i < n => Decimal(i))
  }

  /** Up to ten positions print as single digits, so sort.Strings keeps them
      in numeric order. */
  lemma PositionsSorted(n: nat)
    requires n <= 10
    ensures StrictlySorted(Positions(n))
  {
    var p := Positions(n);
    forall i, j | 0 <= i < j < n ensures Below(p[i], p[j]) {
      assert Decimal(i) == [DigitChar(i)];
      assert Decimal(j) == [DigitChar(j)];
    }
  }

  /** A root list of one to ten leaves survives Map followed by UMap. With
      eleven or more, "10" sorts before "2" and the items come back
      reordered (see Scenarios.TenSortsBeforeTwo). */
  lemma ListRoundTrip(items: seq<Value>)
    requires 0 < |items| <= 10 && Leaves(items)
    ensures Map(Some(List(items)), []).Some?
    ensures UMap(Map(Some(List(items)), []).value, []) == Success(Some(List(items)))
  {
    EncodeLeaves(items);
    var flat := Map(Some(List(items)), []).value;
    PositionKeysIndexLike(items, flat);
    IndexKeysDecodeInKeyOrder(flat);
    PositionKeyOrder(items, flat);
  }

  /** The keys of a flattened list of leaves. */
  ghost predicate FlattenedLeaves(items: seq<Value>, flat: FlatMap) {
    && Leaves(items)
    && (forall k :: k in flat <==> PositionFrom(k, 0, |items|))
    && (forall j :: 0 <= j < |items| ==> Decimal(j) in flat && flat[Decimal(j)] == items[j].scalar)
  }

  lemma PositionKeysIndexLike(items: seq<Value>, flat: FlatMap)
    requires 0 < |items| && Leaves(items)
    requires FlattenedLeaves(items, flat)
    ensures |flat| > 0 && forall k :: k in flat ==> IndexLike(k)
  {
    assert Decimal(0) in flat;
    forall k | k in flat ensures IndexLike(k) {
      var j :| 0 <= j < |items| && k == Decimal(j);
      DecimalRoundTrip(j);
    }
  }

  lemma PositionKeyOrder(items: seq<Value>, flat: FlatMap)
    requires |items| <= 10 && Leaves(items)
    requires FlattenedLeaves(items, flat)
    ensures KeyOrder(flat) == items
  {
    var n := |items|;
    var names := Positions(n);
    PositionsSorted(n);
    forall k ensures k in names <==> k in flat {
      if k in flat {
        var j :| 0 <= j < n && k == Decimal(j);
        assert names[j] == k;
      }
    }
    SortedEnumerationUnique(flat.Keys, names);
    forall i | 0 <= i < n ensures KeyOrder(flat)[i] == items[i] {
      assert names[i] == Decimal(i);
    }
  }
}
