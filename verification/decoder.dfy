/** The public decoders: UMap of package flat (unmap.go:32-49) and UMap /
    UList of package goflat (unflat.go:16-57). Both run the shared builder;
    they differ in option handling, the empty-delimiter policy and how a
    root-level list is reached. */
module Decoder {
  import opened Outcomes
  import opened Text
  import opened Paths
  import opened Values
  import opened Ordering
  import opened Options
  import opened Util
  import opened Shape
  import opened Builder
  import LegacyOptions

  /** The synthetic top-level key under which a root list is built. */
  const WrapperKey: string := "wrapper"

  /** Re-keys every entry under the wrapper key. Go's map iteration order
      decides which of two entries whose new keys coincide survives; the
      model takes the keys in ascending order, so the larger key wins. */
  ghost function Wrap(flat: FlatMap, o: Options): (w: FlatMap)
    ensures w.Values <= flat.Values
    ensures forall k :: k in flat ==> ConcatKey(WrapperKey, k, o) in w
    ensures forall k :: k in w ==> exists j :: j in flat && k == ConcatKey(WrapperKey, j, o)
  {
    var names := SortStrings(flat.Keys);
    WrapFrom(flat, names, o, map[])
  }

  ghost function WrapFrom(flat: FlatMap, names: seq<string>, o: Options, acc: FlatMap): (w: FlatMap)
    requires forall k :: k in names ==> k in flat
    ensures acc.Values <= flat.Values ==> w.Values <= flat.Values
    ensures forall k :: (k in acc || k in names) ==> (k in acc ==> k in w)
    ensures forall k :: k in names ==> ConcatKey(WrapperKey, k, o) in w
    ensures forall k :: k in w ==> k in acc || exists j :: j in names && k == ConcatKey(WrapperKey, j, o)
    decreases |names|
  {
    if names == [] then acc
    else
      var acc' := acc[ConcatKey(WrapperKey, names[0], o) := flat[names[0]]];
      WrapFrom(flat, names[1..], o, acc')
  }

  /** UMap of package flat. An empty map decodes to nil. Otherwise, when the
      smallest key is list-shaped at depth 0, every key is moved under the
      wrapper key with concatKey (which folds "wrapper"), the tree is built,
      and the entry stored under the unfolded name "wrapper" is returned, or
      nil when there is none. Panics become failures. With the identity
      fold and a delimiter that cannot cut into "wrapper", a list-shaped
      root always comes back as a list. */
  ghost function UMap(flat: FlatMap, opts: seq<OptionFn>): (r: Result<Option<Value>>)
    ensures |flat| == 0 ==> r == Success(None)
    ensures r.Success? && r.value.Some? ==> forall x :: Mentions(r.value.value, x) ==> x in flat.Values
    ensures |flat| > 0 ==>
      var o := DefaultOptions(opts);
      var keys := SortKeys(flat, o.delimiter);
      IsList(Current, keys, keys[0], 0, 0) == Success(false) ==>
        r.Success? ==> r.value.Some? && r.value.value.Object?
    ensures |flat| > 0 ==>
      var o := DefaultOptions(opts);
      var keys := SortKeys(flat, o.delimiter);
      (&& IsList(Current, keys, keys[0], 0, 0) == Success(true)
       && PlainFold(o) && o.delimiter != "" && SafeSegment(WrapperKey, o.delimiter)) ==>
        r.Success? ==> r.value.Some? && r.value.value.List?
  {
    if |flat| == 0 then Success(None)
    else
      var o := DefaultOptions(opts);
      var keys := SortKeys(flat, o.delimiter);
      var rootList :- IsList(Current, keys, keys[0], 0, 0);
      if rootList then
        RootListHeads(flat, o.delimiter);
        RootListPath(flat, o)
      else
        var root :- Build(Current, flat, keys, o.delimiter, Object(map[]), 0);
        Success(Some(root))
  }

  /** The fold leaves every key as it is. */
  ghost predicate PlainFold(o: Options) {
    forall s :: o.fold(s) == s
  }

  /** Every key's first segment is index-like: the condition under which
      isList calls the root a list. */
  ghost predicate IndexHeads(flat: FlatMap, d: string) {
    forall k :: k in flat ==> |Split(k, d)| > 0 && IndexLike(Split(k, d)[0])
  }

  /** The root-list branch of UMap (unmap.go:39-46). The entry stored under the
      unfolded "wrapper" is returned, or nil when there is none. With the
      identity fold every wrapped key starts with the segment "wrapper"
      followed by an index, so the entry exists and is a list. */
  ghost function RootListPath(flat: FlatMap, o: Options): (r: Result<Option<Value>>)
    ensures r.Success? && r.value.Some? ==> forall x :: Mentions(r.value.value, x) ==> x in flat.Values
    ensures (&& |flat| > 0 && IndexHeads(flat, o.delimiter)
             && PlainFold(o) && o.delimiter != "" && SafeSegment(WrapperKey, o.delimiter)) ==>
      r.Success? ==> r.value.Some? && r.value.value.List?
  {
    var wrapper := Wrap(flat, o);
    var keys := SortKeys(wrapper, o.delimiter);
    WrappedRootIsList(flat, o);
    var root :- Build(Current, wrapper, keys, o.delimiter, Object(map[]), 0);
    if WrapperKey in root.fields then
      BuildFromEmpty(Current, wrapper, keys, o.delimiter, root);
      MentionsChild(root.fields, WrapperKey);
      Success(Some(root.fields[WrapperKey]))
    else
      Success(None)
  }

  /** A list-shaped root has an index-like first segment in every key. */
  lemma RootListHeads(flat: FlatMap, d: string)
    requires |flat| > 0
    ensures var keys := SortKeys(flat, d);
      IsList(Current, keys, keys[0], 0, 0) == Success(true) ==> IndexHeads(flat, d)
  {
    var keys := SortKeys(flat, d);
    if IsList(Current, keys, keys[0], 0, 0) == Success(true) {
      SortKeysSpec(flat, d);
      forall k | k in flat ensures |Split(k, d)| > 0 && IndexLike(Split(k, d)[0]) {
        var i :| 0 <= i < |keys| && Join(keys[i], d) == k;
        assert SamePrefix(keys[i], keys[0], 0);
      }
    }
  }

  /** Key arrays that all start with the segment "wrapper" followed by an
      index-like segment: the wrapped keys of a list-shaped root. */
  predicate UnderWrapperList(keys: seq<seq<string>>) {
    forall i :: 0 <= i < |keys| ==> |keys[i]| >= 2 && keys[i][0] == WrapperKey && IndexLike(keys[i][1])
  }

  /** With the identity fold, wrapping moves each key k to "wrapper" + d + k,
      which splits into "wrapper" followed by the segments of k. */
  lemma WrappedArrays(flat: FlatMap, o: Options)
    requires PlainFold(o) && o.delimiter != "" && SafeSegment(WrapperKey, o.delimiter)
    requires IndexHeads(flat, o.delimiter)
    ensures UnderWrapperList(SortKeys(Wrap(flat, o), o.delimiter))
  {
    var d := o.delimiter;
    var w := Wrap(flat, o);
    var keys := SortKeys(w, d);
    SortKeysSpec(w, d);
    forall i | 0 <= i < |keys|
      ensures |keys[i]| >= 2 && keys[i][0] == WrapperKey && IndexLike(keys[i][1])
    {
      var k := Join(keys[i], d);
      assert k in w && keys[i] == Split(k, d);
      var j :| j in flat && k == ConcatKey(WrapperKey, j, o);
      WrappedKeySplit(k, j, o);
    }
  }

  lemma WrappedKeySplit(k: string, j: string, o: Options)
    requires PlainFold(o) && o.delimiter != "" && SafeSegment(WrapperKey, o.delimiter)
    requires k == ConcatKey(WrapperKey, j, o)
    requires |Split(j, o.delimiter)| > 0 && IndexLike(Split(j, o.delimiter)[0])
    ensures |Split(k, o.delimiter)| >= 2 && Split(k, o.delimiter)[0] == WrapperKey
    ensures IndexLike(Split(k, o.delimiter)[1])
  {
    assert k == WrapperKey + o.delimiter + j;
    SplitAfterSafe(WrapperKey, o.delimiter, j);
  }

  /** Under the wrapper every key is in one list-shaped sibling group. */
  lemma WrapperGroupIsList(gen: Generation, keys: seq<seq<string>>, j: nat)
    requires UnderWrapperList(keys) && j < |keys|
    ensures IsList(gen, keys, keys[j], j, 1) == Success(true)
  {
    assert NoShortPrefix(keys, keys[j], j, 1);
    IsListSpec(gen, keys, keys[j], j, 1);
  }

  /** Building wrapped keys keeps "wrapper" the only entry of the root, and
      that entry a list. */
  lemma {:induction false} WrappedBuild(gen: Generation, flat: FlatMap, keys: seq<seq<string>>, d: string,
                                        root: Value, j: nat)
    requires root.Object? && j <= |keys|
    requires forall i :: 0 <= i < |keys| ==> Join(keys[i], d) in flat
    requires UnderWrapperList(keys)
    requires root.fields.Keys <= {WrapperKey} && (WrapperKey in root.fields ==> root.fields[WrapperKey].List?)
    requires j < |keys| || WrapperKey in root.fields
    ensures var r := Build(gen, flat, keys, d, root, j);
      r.Success? ==> WrapperKey in r.value.fields && r.value.fields[WrapperKey].List?
    decreases |keys| - j
  {
    if j < |keys| {
      var value := flat[Join(keys[j], d)];
      var next := Unflat(gen, keys, root, value, keys[j], j, 0);
      assert next == UnflatObject(gen, keys, root.fields, value, keys[j], j, 0);
      if next.Success? {
        if WrapperKey !in root.fields {
          WrapperGroupIsList(gen, keys, j);
        }
        WrappedBuild(gen, flat, keys, d, next.value, j + 1);
      }
    }
  }

  /** The root-list branch, when it succeeds, finds a list under "wrapper". */
  lemma WrappedRootIsList(flat: FlatMap, o: Options)
    ensures (&& |flat| > 0 && IndexHeads(flat, o.delimiter)
             && PlainFold(o) && o.delimiter != "" && SafeSegment(WrapperKey, o.delimiter)) ==>
      var w := Wrap(flat, o);
      var r := Build(Current, w, SortKeys(w, o.delimiter), o.delimiter, Object(map[]), 0);
      r.Success? ==> WrapperKey in r.value.fields && r.value.fields[WrapperKey].List?
  {
    if && |flat| > 0 && IndexHeads(flat, o.delimiter)
       && PlainFold(o) && o.delimiter != "" && SafeSegment(WrapperKey, o.delimiter) {
      var w := Wrap(flat, o);
      WrappedArrays(flat, o);
      var k :| k in flat;
      assert ConcatKey(WrapperKey, k, o) in w;
      WrappedBuild(Current, w, SortKeys(w, o.delimiter), o.delimiter, Object(map[]), 0);
    }
  }

  /** "wrapper" contains no ".", so the default delimiter cannot cut into it. */
  lemma DefaultWrapperSafe()
    ensures SafeSegment(WrapperKey, DefaultDelimiter)
  {
    SafeSegmentSingleChar(WrapperKey, '.');
  }

  /** When the smallest key does not start a list, UMap is the build of the
      whole map, with a failure passed on. */
  lemma UMapObjectRoot(flat: FlatMap, opts: seq<OptionFn>, r: Result<Value>)
    requires |flat| > 0
    requires var keys := SortKeys(flat, DefaultOptions(opts).delimiter);
      IsList(Current, keys, keys[0], 0, 0) == Success(false)
    requires Build(Current, flat, SortKeys(flat, DefaultOptions(opts).delimiter), DefaultOptions(opts).delimiter,
                   Object(map[]), 0) == r
    ensures UMap(flat, opts) == (if r.Success? then Success(Some(r.value)) else Failure(r.error))
  {
    var o := DefaultOptions(opts);
    assert IsList(Current, SortKeys(flat, o.delimiter), SortKeys(flat, o.delimiter)[0], 0, 0) == Success(false);
  }

  /** When the smallest key starts a list, UMap builds the wrapped map and
      answers with the entry stored under the unfolded "wrapper", or nil. */
  lemma UMapListRoot(flat: FlatMap, opts: seq<OptionFn>, wrapped: FlatMap, root: Value)
    requires |flat| > 0
    requires var keys := SortKeys(flat, DefaultOptions(opts).delimiter);
      IsList(Current, keys, keys[0], 0, 0) == Success(true)
    requires Wrap(flat, DefaultOptions(opts)) == wrapped
    requires Build(Current, wrapped, SortKeys(wrapped, DefaultOptions(opts).delimiter), DefaultOptions(opts).delimiter,
                   Object(map[]), 0) == Success(root)
    ensures root.Object?
    ensures UMap(flat, opts) == Success(if WrapperKey in root.fields then Some(root.fields[WrapperKey]) else None)
  {
    var o := DefaultOptions(opts);
    assert UMap(flat, opts) == RootListPath(flat, o);
  }

  /** goflat's UList is the lookup of "wrapper" in the legacy decoding of
      the wrapped map. */
  lemma LegacyUListOf(flat: FlatMap, p: Option<LegacyOptions.LegacyOptions>, wrapped: FlatMap, m: map<string, Value>)
    requires Wrap(flat, Options(".", Identity)) == wrapped
    requires LegacyUMap(wrapped, p) == Success(m)
    ensures LegacyUList(flat, p) == if WrapperKey in m && m[WrapperKey].List? then Success(m[WrapperKey].items) else Failure(ShapeConflict)
  {
    assert LegacyUMap(Wrap(flat, Options(".", Identity)), p) == Success(m);
  }

  lemma WrapEmpty(flat: FlatMap, o: Options)
    ensures |flat| == 0 ==> |Wrap(flat, o)| == 0
  {
    if |flat| == 0 {
      assert SortStrings(flat.Keys) == [];
    }
  }

  lemma MentionsItems(items: seq<Value>)
    ensures forall i, x :: 0 <= i < |items| && Mentions(items[i], x) ==> Mentions(List(items), x)
  {
  }

  lemma MentionsChild(m: map<string, Value>, k: string)
    requires k in m
    ensures forall x :: Mentions(m[k], x) ==> Mentions(Object(m), x)
  {
  }

  /** The delimiter goflat's unflatWrapper uses: "." for nil options,
      otherwise whatever the caller set, including "". */
  function LegacyDelimiter(p: Option<LegacyOptions.LegacyOptions>): string {
    if p.None? then LegacyOptions.DefaultDelimiter else p.value.delimiter
  }

  /** UMap of package goflat. An empty delimiter is rejected with
      ErrEmptyDelimiter before any key is looked at; an empty flat map gives
      an empty map; a root-level list is never recognised. */
  ghost function LegacyUMap(flat: FlatMap, p: Option<LegacyOptions.LegacyOptions>): (r: Result<map<string, Value>>)
    ensures LegacyDelimiter(p) == "" <==> r == Failure(EmptyDelimiter)
    ensures |flat| == 0 && LegacyDelimiter(p) != "" ==> r == Success(map[])
    ensures r.Success? ==> forall k, x :: k in r.value && Mentions(r.value[k], x) ==> x in flat.Values
  {
    var d := LegacyDelimiter(p);
    if d == "" then Failure(EmptyDelimiter)
    else
      var root :- Build(Legacy, flat, SortKeys(flat, d), d, Object(map[]), 0);
      assert forall k, x :: k in root.fields && Mentions(root.fields[k], x) ==> Mentions(root, x);
      Success(root.fields)
  }

  /** UList of package goflat: every key is moved under "wrapper" with a
      fixed "." whatever the caller's delimiter, decoded with LegacyUMap, and
      the entry under "wrapper" must then be a list; otherwise the type
      assertion at unflat.go:25 panics. */
  ghost function LegacyUList(flat: FlatMap, p: Option<LegacyOptions.LegacyOptions>): (r: Result<seq<Value>>)
    ensures LegacyDelimiter(p) == "" ==> r == Failure(EmptyDelimiter)
    ensures |flat| == 0 && LegacyDelimiter(p) != "" ==> r == Failure(ShapeConflict)
    ensures r.Success? ==> forall i, x :: 0 <= i < |r.value| && Mentions(r.value[i], x) ==> x in flat.Values
  {
    var wrapper := Wrap(flat, Options(".", Identity));
    WrapEmpty(flat, Options(".", Identity));
    var m :- LegacyUMap(wrapper, p);
    if WrapperKey in m && m[WrapperKey].List? then
      MentionsItems(m[WrapperKey].items);
      Success(m[WrapperKey].items)
    else
      Failure(ShapeConflict)
  }
}
