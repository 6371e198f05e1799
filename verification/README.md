# flat / goflat in Dafny

A model of the Go library `flat`, which turns a nested value into a map from
delimited path strings to leaves and rebuilds the nesting from such a map.
The library has two generations of the same code:

- package `flat` (map.go, unmap.go, util.go, options.go) is the current one;
- package `goflat` (flat.go, unflat.go, common.go) is the older one.

The model covers:

- **The encoder.** `Map`/`flatwrapper`/`flat` walk a closed `Value` datatype
  (`Leaf`, `Pointer`, `List`, `Object`) instead of using reflection. Each
  leaf is written under the folded key its path builds with `concatKey`.
- **A reference definition of the encoder.** The leaves of a value with
  their paths (`LeafPaths`), the writes those paths turn into (`Writes`) and
  the in-order replay of those writes (`Replay`). The walk is proved equal
  to this definition, and the definition is used to state the collision
  policy and the shape of the keys.
- **The decoder, shared by both generations.**
  - `sortKeys` is `SortStrings` followed by `Split`.
  - `isList` is `IsList` over the `Compare`/`Scan` loops.
  - `unflat`, `unflatList` and `unflatObject` are pure functions that
    return the updated container. This mirrors the return-and-reassign
    pattern of the Go code.
  - The loop of `unflatWrapper` is `Build`.
- **The public entry points.**
  - `UMap` of `flat`, including the root-list wrapper.
  - `UMap` and `UList` of `goflat`.
  - `Map` of both packages.
- **The options.** The functional options of `flat`
  (`DefaultOptions`, `WithOptions`, `WithDelimiter`, `WithFold`) and
  `createDefultOptionsIfNil` of `goflat`.

Go panics become `Failure` results:

- `ShapeConflict`: a type assertion on a leaf;
- `IndexOutOfRange`: a slice index past the end of a split key;
- `EmptyDelimiter`: goflat's `ErrEmptyDelimiter`.

The two decoders differ in one place inside `isList`. goflat answers false
for a depth past the end of the key; flat panics there. That difference is
the `Generation` parameter.

Go map iteration order is not fixed. The model iterates maps in ascending
key order (`SortStrings`), which matters only when two writes land on the
same key.

Three behaviours of the code that a reader might not expect:

- **Signs are index-like.** `strconv.Atoi` accepts a leading `+` or `-`
  (unmap.go:69, unmap.go:111), so `"+1"` and `"-0"` are index-like
  segments, and a negative one never falls inside a list.
- **`{"x.0": a, "x.y": b}` decodes.** It gives `{"x": {"0": a, "y": b}}`:
  `isList` sees the non-index sibling `y` (unmap.go:120-123) and makes `x`
  an object, so no shape conflict arises.
- **An empty delimiter is not rejected by flat.** Package `flat` keeps
  `WithDelimiter("")` (options.go:42-46), and `strings.Split` then explodes
  keys into characters. Only goflat rejects it, with `ErrEmptyDelimiter`
  (unflat.go:47-49).

## Model

| member | source | states |
|---|---|---|
| Options.DefaultOptions | options.go:17-30 | with no option functions the delimiter is "." and the fold is the identity |
| Options.WithDelimiter | options.go:42-46 | the option sets the delimiter to exactly the argument and keeps the fold |
| Options.WithFold | options.go:49-53 | the option sets the fold and keeps the delimiter |
| Options.WithOptions | options.go:33-39 | a nil record leaves the options unchanged; a non-nil one replaces the whole record |
| Options.ApplyAllAppend | options.go:23-27 | option lists compose: the functions of `a + b` act as `a` followed by `b` |
| Options.LastDelimiterWins | options.go:23-27 | the last WithDelimiter decides the delimiter, and the fold chosen before it survives |
| Options.LastFoldWins | options.go:23-27 | the last WithFold decides the fold, and the delimiter chosen before it survives |
| Options.NilOptionsSkipped | options.go:24 | a nil option function anywhere in the list changes nothing |
| Options.EmptyDelimiterKept | options.go:42-46 | no validation: WithDelimiter("") yields an empty delimiter, not the documented default |
| LegacyOptions.CreateDefaultOptionsIfNil | common.go:3-15 | nil becomes {"."}; an empty delimiter becomes "."; any other record is kept; the result's delimiter is never empty; a caller's record is changed in place to the result |
| Text.Atoi | unmap.go:69-75 | a string Atoi rejects reads as 0; an unsigned or '+' string reads as a non-negative number; a '-' string reads as a non-positive one |
| Text.Decimal | map.go:80 | "%d" of a position is a non-empty digit string, longer than one digit exactly from 10 on |
| Text.DecimalRoundTrip | map.go:80 | the printed position is index-like and Atoi reads it back as the same number |
| Text.BelowTransitive | unmap.go:143 | the string order sort.Strings uses is transitive (with BelowTotal and BelowIrreflexive: a strict total order) |
| Ordering.SortStrings | unmap.go:135-143 | the keys come out strictly ascending, each key exactly once |
| Ordering.SortedEnumerationUnique | unmap.go:143 | any strictly ascending enumeration of the key set is the sorted one, so the order depends only on the set |
| Paths.Split | unmap.go:146 | a non-empty delimiter gives at least one segment; the empty delimiter gives one segment per character |
| Paths.JoinSplit | unmap.go:53 | re-joining a key's segments with the same delimiter gives the key back, for any delimiter |
| Paths.SplitJoin | unmap.go:146 | splitting a joined path whose segments cannot be confused with the delimiter gives the segments back |
| Paths.SafeSegmentSingleChar | unmap.go:146 | for a one-character delimiter a segment is safe exactly when it does not contain that character |
| Util.SplitConcatKey | util.go:7-13 | with the identity fold, splitting concatKey(join(p), s) gives p followed by s |
| Shape.CompareSpec | unmap.go:119-129 | the inner loop answers TooShort, Rejects or Agrees exactly when the other key is a short case-insensitive prefix, or shares the prefix with a non-index or an index segment at the depth |
| Shape.IsList | unflat.go:112-118 | a true answer means the key's own segment and every sibling's segment are index-like; a non-index own segment gives false; past the end of the key goflat answers false and flat fails |
| Shape.IsListSpec | unmap.go:110-133 | without a short prefix, isList is true exactly when the key's segment and every sibling's segment at the depth are index-like; a failure needs a short prefix |
| Shape.SiblingUniform | unmap.go:115-130 | keys with the same prefix (ignoring case) get the same isList answer at that depth |
| Shape.OneNonIndexSiblingMakesObject | unmap.go:120-123 | one sibling with a non-index segment makes the whole group an object |
| Builder.Unflat | unflat.go:59-67 | the container keeps its kind, gains the new payload and no other; descending into a leaf is a shape conflict |
| Builder.UnflatList | unmap.go:68-84 | a final index-like segment appends, whatever its value, growing the list by one; an in-range index updates that element and leaves the others; otherwise a child chosen by isList is appended; the prefix is kept |
| Builder.UnflatObject | unmap.go:86-108 | a final segment assigns (overwriting); otherwise the existing child is reused or a child chosen by isList is created; the key set grows by exactly the segment and no other key changes |
| Builder.SortKeys | unmap.go:135-150 | one key array per key, and each re-joins to a key of the map |
| Builder.SortKeysSpec | unmap.go:135-150 | the key arrays are the split keys, strictly ascending as joined strings, and every key has one |
| Builder.Build | unmap.go:51-57 | the root stays an object, only payloads of the flat map appear, and the empty-delimiter error never comes from the build |
| Builder.BuildFromEmpty | unmap.go:51-57 | built from an empty object, the result holds only payloads of the flat map |
| Placement.UnflatPlaces | unmap.go:59-108 | on a tree of maps and a key with no index segment, unflat fails exactly when a leaf lies strictly above the key's end; otherwise the payload sits at the key, every node above it is a map, nothing lies below it, and every other path leads where it did |
| Placement.SortKeysOrdered | unmap.go:135-150 | sortKeys hands the builder distinct key arrays, each after all of its proper prefixes |
| Placement.BuildPlaces | unmap.go:51-57 | for keys with no index segment, the build succeeds exactly when every key has a segment and none extends another, and then each key leads to its payload, every leaf is at a key and every node is on the way to one |
| Placement.UMapPlaces | unmap.go:32-57 | the same for flat's UMap, stated on the flat map's own keys: success iff the split keys are non-empty and prefix-free, and then the result is the object tree with exactly those leaves |
| Decoder.Wrap | unmap.go:40-43 | every key moves to concatKey("wrapper", key) and no payload is invented |
| Decoder.UMap | unmap.go:32-49 | an empty map decodes to nil; a result holds only payloads of the input; when the smallest key is not list-shaped the result is an object; when it is, with the identity fold and a delimiter that cannot cut into "wrapper", the result is a list |
| Decoder.RootListPath | unmap.go:39-46 | the root-list branch returns only payloads of the input, and when every key starts with an index (identity fold, delimiter that cannot cut into "wrapper") it returns a list |
| Decoder.RootListHeads | unmap.go:110-133 | when isList calls the root a list, every key's first segment is index-like |
| Decoder.WrappedRootIsList | unmap.go:39-45 | when every key starts with an index, the decoding of the wrapped map stores a list under "wrapper" |
| Decoder.LegacyUMap | unflat.go:31-57 | fails with ErrEmptyDelimiter exactly when the delimiter is empty (nil options mean "."); an empty map gives an empty map; results hold only input payloads |
| Decoder.LegacyUList | unflat.go:16-29 | an empty delimiter fails; an empty map fails the final type assertion; items hold only input payloads |
| Encoder.Map | map.go:55-67 | nil gives nil; otherwise the result is the replay of the reference writes |
| Encoder.FlatReplays | map.go:69-98 | the walk performs exactly the reference writes: one write per leaf, in walk order, under the folded key its path builds |
| Encoder.LegacyWalkOptions | flat.go:20-25 | goflat walks with a non-empty delimiter and no key rewriting |
| Encoder.LegacyMap | flat.go:12-25 | nil gives nil and leaves the caller's options as they were; otherwise the result is the reference writes with the normalised options, and a caller's record with an empty delimiter now holds "." |
| Encoder.ScalarRootFlattensToNothing | map.go:91-94 | a scalar root, or a pointer to one, flattens to the empty map |
| Encoder.ReplayKeys | map.go:93 | a key is in the result exactly when some leaf write targets it |
| Encoder.ReplayLastWins | map.go:93 | when two leaves fold to the same key, the later write decides the payload |
| Encoder.WritesFromLeaves | map.go:91-94 | every write comes from a leaf with a non-empty key, and every such leaf writes |
| Encoder.MapEntry | map.go:91-94 | every entry of the result is some leaf's payload under the fold of its path's key |
| Encoder.FoldedKey | util.go:12 | with a charwise idempotent fold, the stored key is the folded segments joined by the folded delimiter |
| Encoder.PlainKey | util.go:7-13 | with the identity fold, the stored key is the path joined by the delimiter |
| Encoder.ListSegments | map.go:78-81 | every leaf of a list sits under "%d" of its position, index-like, read back by Atoi as a position inside the list |
| Encoder.FieldSegments | map.go:82-90 | every leaf of an object sits under one of its keys |
| RoundTrip.EncodeShallow | map.go:82-94 | an object of leaves flattens to its payloads keyed by field name |
| RoundTrip.DecodeShallow | unmap.go:48 | those payloads, with one non-index key, decode to the object |
| RoundTrip.ObjectRoundTrip | unmap.go:32-49 | UMap(Map(o)) == o for an object of leaves under dot-free keys, one of which is not an index |
| Nested.LeafPathsMember | map.go:69-98 | on a tree of maps the walk meets a leaf at a path with a payload exactly when that path leads to that leaf |
| Nested.EncodedEntry | map.go:91-94 | every entry of the flattened plain tree is a leaf's payload stored under that leaf's joined path |
| Nested.EncodedLeaf | map.go:91-94 | every leaf of a plain tree is written under its joined path |
| Nested.NestedRoundTrip | unmap.go:32-57 | UMap(Map(v)) == v at any depth for a tree of non-empty maps whose keys are non-empty, not index-like and free of the delimiter, with the identity fold and any non-empty delimiter |
| RoundTrip.IndexKeysDecodeInKeyOrder | unmap.go:39-46 | a map whose keys are all index-like decodes to one list, in sort.Strings order of the keys |
| RoundTrip.EncodeLeaves | map.go:78-81 | a list of leaves flattens to its payloads keyed by "%d" of position |
| RoundTrip.PositionsSorted | unmap.go:143 | up to ten positions sort in numeric order |
| RoundTrip.ListRoundTrip | unmap.go:39-46 | UMap(Map(l)) == l for a root list of one to ten leaves |
| Scenarios.RootList | unmap.go:39-46 | {"0": a, "1": b} decodes to the list [a, b] |
| Scenarios.MixedRoot | unmap.go:115-130 | {"0": a, "name": b} decodes to an object with the fields "0" and "name" |
| Scenarios.TenSortsBeforeTwo | unmap.go:69-71 | {"list.2": c, "list.10": k} decodes "list" to [k, c] |
| Scenarios.IndexBesideKey | unmap.go:92-107 | {"x.0": a, "x.y": b} decodes "x" to an object with the fields "0" and "y" |
| Scenarios.ShortPrefixPanics | unmap.go:119-126 | {"X": a, "x.0": b} fails with an index out of range inside isList |
| Scenarios.FoldedWrapperLost | unmap.go:42-45 | with an upper-casing fold, {"0": a} is wrapped under "WRAPPER", looked up under "wrapper", and decodes to nil |
| Scenarios.LegacyRootListIsMap | unflat.go:31-38 | goflat's UMap decodes {"0": a, "1": b} to a map with the fields "0" and "1" |
| Scenarios.LegacyList | unflat.go:16-29 | goflat's UList decodes {"0": a, "1": b} to [a, b] |
| Generations.UnflatSame | unflat.go:112-115 | from a node without empty lists, goflat's unflat and flat's unflat give the same result, and a success leaves no empty list |
| Generations.BuildSame | unflat.go:51-54 | from a root without empty lists the two generations build the same tree, failures included |
| Generations.LegacyUMapIsObjectBranch | unflat.go:31-57 | with flat's delimiter, goflat's UMap gives the map (or the failure) that flat's UMap gives for a root that is not list-shaped |
| Generations.LegacyUListIsRootList | unflat.go:16-29 | with ".", goflat's UList gives the items of the list flat's UMap returns for a list-shaped root, and fails with flat's error when flat's UMap fails |
| Generations.LegacyUListOfIndexKeys | unflat.go:16-29 | goflat's UList of a map whose keys are all index-like is its payloads in sort.Strings order of the keys |
| Generations.LegacyMapMendsDelimiter | common.go:10-12 | after goflat's Map of a non-nil value the caller's options never make goflat's UMap fail with ErrEmptyDelimiter; after Map of nil an empty delimiter stays and UMap rejects it |

## Left out

- Reflection: the closed `Value` type replaces `reflect.Kind` dispatch, `NumField` and `MapKeys`. Struct fields and map entries are both `Object` entries, and non-string map keys appear only as their strings.
- Pointers: map.go:73-75 flattens the pointee and then stores the pointer itself under the same key. The model keeps this order, with the pointer as the payload `Ref(addr)`. Unexported fields and nil children are not modelled.
- Floats, channels, functions and Go arrays are opaque leaves (`Opaque`): map.go:91-94 stores them whole, since `reflect.Array` is not one of the cases the walk enters.
- Container payloads in a flat map: the model's flat map holds scalars only. In Go a payload that is itself a `map[string]any` or `[]any` passes the type switch at unmap.go:60-64 (unflat.go:60-64 in goflat), and unmap.go:93-94 and 101-102 reuse it and write into it, so `UMap({"a": map[string]any{}, "a.b": 1})` gives `{"a": {"b": 1}}` and mutates the caller's inner map. The model rejects that input with `ShapeConflict` (a leaf above a key), and in-place mutation of caller data is not modelled.
- Go map iteration order (map.go:88, unmap.go:41) is taken as ascending key order. It matters only when two writes collide, and the model makes no claim about which of the colliding writes Go keeps.
- `strings.EqualFold` is ASCII case folding only. Unicode folding is not modelled.
- `strconv.Atoi` overflow is not modelled: any digit string is index-like.
- A nil fold function, and the panic it would cause, are not modelled: a fold is a total function.
- goflat's `concatKey` and `getFold` are not part of this model. goflat's options have no fold, so the model takes `getFold` as the identity and `concatKey` as the join in util.go.
- copy.go (a reflective deep copy) and flat_options.go (a struct and a constant) have no behaviour to model.
- The goflat tests call functions that do not match the goflat source, so no lemma rests on them.
- Util.SplitConcatKey: holds only for the identity fold and for segments that cannot be confused with the delimiter. With a rewriting fold or a delimiter inside a segment, the split gives different segments, as the key-shape lemmas of Encoder describe.
- RoundTrip.ObjectRoundTrip: proved only for objects of leaves under dot-free keys with the default options; Nested.NestedRoundTrip covers nested maps. Neither covers lists inside objects or empty maps (which flatten to nothing).
- Placement.UMapPlaces: stated only for keys with no index-like segment and for scalar payloads; with a container payload Go descends into it where the model reports `ShapeConflict` (see "Container payloads" above).
- Nested.NestedRoundTrip: lists inside the tree are not covered. A list's positions sort as strings, so from eleven items on the order changes, and a list of maps mixes index and name segments in ways the placement theorem does not describe.
- RoundTrip.ListRoundTrip: proved only for root lists of one to ten leaves. From eleven items on, "10" sorts before "2" and the items come back reordered, which Scenarios.TenSortsBeforeTwo pins on a small example.
- Decoder.UMap: the list case states the shape (a list) but not the items; the items are pinned down only for all-index keys, by RoundTrip.IndexKeysDecodeInKeyOrder. The whole result is pinned down for maps whose keys hold no index-like segment, by Placement.UMapPlaces. Object roots that contain lists (such as `{"list.0": a, "name": b}`) are described by neither.
- Decoder.RootListPath: states that the result is a list, not which items it holds; see RoundTrip.IndexKeysDecodeInKeyOrder for all-index keys.
- Decoder.LegacyUMap: its own contract states the error cases and payload preservation only; what it builds is stated through Generations.LegacyUMapIsObjectBranch and Placement.UMapPlaces.
- Decoder.LegacyUList: its own contract states the error cases and payload preservation only; the items are stated through Generations.LegacyUListIsRootList and Generations.LegacyUListOfIndexKeys.
- Builder.Build: its own contract states only the root's kind and payload preservation; where each key goes is stated by Placement.BuildPlaces, for keys without index segments.
- Struct fields: map.go:82-86 and flat.go:40-44 walk a struct's fields in declaration order. The model visits every `Object` in ascending name order, so Encoder.ReplayLastWins's "later write" is in name order, not declaration order, when two fields of a struct collide after folding.
