/** The round trip at any depth: a tree of maps whose keys are plain names,
    flattened by Map (map.go:55-98) and unflattened by UMap (unmap.go:16-61)
    with the same options, comes back unchanged. */
module Nested {
  import opened Outcomes
  import opened Text
  import opened Paths
  import opened Values
  import opened Ordering
  import opened Options
  import opened Decoder
  import opened Encoder
  import opened Placement

  /** A key the decoder reads back as itself: not empty (the walk drops an
      empty first segment, util.go:8-10), not an index (isList would turn
      its map into a list), and free of the delimiter (the split would cut
      it in two). */
  predicate GoodKey(k: string, d: string) {
    k != "" && !IndexLike(k) && SafeSegment(k, d) && !Contains(k, d)
  }

  /** A tree of non-empty maps with good keys and scalar leaves. An empty
      map flattens to nothing, so it could not come back. */
  ghost predicate Plain(v: Value, d: string) {
    match v
    case Leaf(_) => true
    case Object(m) => m != map[] && forall k :: k in m ==> GoodKey(k, d) && Plain(m[k], d)
    case _ => false
  }

  lemma {:induction false} PlainIsObjectTree(v: Value, d: string)
    requires Plain(v, d)
    ensures ObjectTree(v)
    decreases v
  {
    if v.Object? {
      forall k | k in v.fields ensures ObjectTree(v.fields[k]) {
        PlainIsObjectTree(v.fields[k], d);
      }
    }
  }

  // ---------------------------------------------------------------------
  // Walking paths.

  /** Every segment on a path through a plain tree is a good key, and the
      node reached is a plain tree. */
  lemma {:induction false} PathGood(v: Value, d: string, p: seq<string>)
    requires Plain(v, d) && Lookup(v, p).Some?
    ensures forall s :: 0 <= s < |p| ==> GoodKey(p[s], d)
    ensures Plain(Lookup(v, p).value, d)
    decreases |p|
  {
    if p != [] {
      var m := v.fields;
      PathGood(m[p[0]], d, p[1..]);
      forall s | 1 <= s < |p| ensures GoodKey(p[s], d) {
        assert p[s] == p[1..][s - 1];
      }
    }
  }

  /** A node exists on the way to every node that exists. */
  lemma LookupPrefix(v: Value, p: seq<string>, q: seq<string>)
    requires Prefix(p, q) && Lookup(v, q).Some?
    ensures Lookup(v, p).Some?
  {
    var r := q[|p|..];
    assert q == p + r;
    if Lookup(v, p).None? {
      LookupNone(v, p, r);
    }
  }

  /** Nothing lies beyond a path that leads nowhere. */
  lemma {:induction false} LookupNone(v: Value, p: seq<string>, r: seq<string>)
    requires Lookup(v, p).None?
    ensures Lookup(v, p + r).None?
    decreases |p|
  {
    assert p != [];
    assert (p + r)[0] == p[0] && (p + r)[1..] == p[1..] + r;
    match v
    case Object(m) =>
      if p[0] in m {
        LookupNone(m[p[0]], p[1..], r);
      }
    case List(items) =>
      if IndexLike(p[0]) && 0 <= Atoi(p[0]) < |items| {
        LookupNone(items[Atoi(p[0])], p[1..], r);
      }
    case _ =>
  }

  /** Every plain tree holds a leaf. */
  lemma {:induction false} HasLeaf(v: Value, d: string) returns (r: seq<string>)
    requires Plain(v, d)
    ensures LeafAt(v, r)
    decreases v
  {
    match v
    case Leaf(_) =>
      r := [];
    case Object(m) =>
      var k :| k in m;
      var below := HasLeaf(m[k], d);
      r := [k] + below;
      assert r[0] == k && r[1..] == below;
  }

  /** Two object trees with the same nodes and the same leaves are equal. */
  lemma {:induction false} TreeExt(a: Value, b: Value)
    requires ObjectTree(a) && ObjectTree(b)
    requires forall p :: Lookup(a, p).Some? <==> Lookup(b, p).Some?
    requires forall p :: LeafAt(a, p) || LeafAt(b, p) ==> Lookup(a, p) == Lookup(b, p)
    ensures a == b
    decreases a
  {
    assert Lookup(a, []) == Some(a) && Lookup(b, []) == Some(b);
    if a.Object? && b.Object? {
      var m, n := a.fields, b.fields;
      forall k | k in m ensures k in n {
        assert Lookup(a, [k]).Some?;
      }
      forall k | k in n ensures k in m {
        assert Lookup(b, [k]).Some?;
      }
      forall k | k in m ensures m[k] == n[k] {
        forall p ensures Lookup(a, [k] + p) == Lookup(m[k], p) && Lookup(b, [k] + p) == Lookup(n[k], p) {
          assert ([k] + p)[0] == k && ([k] + p)[1..] == p;
        }
        TreeExt(m[k], n[k]);
      }
      assert m == n;
    }
  }

  // ---------------------------------------------------------------------
  // The leaves the walk meets.

  lemma UnderMember(seg: string, ps: seq<LeafPath>, p: seq<string>, x: Scalar)
    ensures (p, x) in Under(seg, ps) <==> |p| > 0 && p[0] == seg && (p[1..], x) in ps
  {
    if (p, x) in Under(seg, ps) {
      var j :| 0 <= j < |ps| && Under(seg, ps)[j] == (p, x);
      assert p[1..] == ps[j].0;
    }
    if |p| > 0 && p[0] == seg && (p[1..], x) in ps {
      var j :| 0 <= j < |ps| && ps[j] == (p[1..], x);
      assert p == [seg] + p[1..];
      assert Under(seg, ps)[j] == (p, x);
    }
  }

  lemma {:induction false} FieldPathsMember(m: map<string, Value>, names: seq<string>, i: nat,
                                            p: seq<string>, x: Scalar)
    requires i <= |names| && forall n :: n in names ==> n in m
    ensures (p, x) in FieldPaths(m, names, i) <==>
      |p| > 0 && p[0] in names[i..] && (p[1..], x) in LeafPaths(m[p[0]])
    decreases |names| - i
  {
    if i < |names| {
      FieldPathsMember(m, names, i + 1, p, x);
      UnderMember(names[i], LeafPaths(m[names[i]]), p, x);
      assert names[i..] == [names[i]] + names[i + 1..];
    }
  }

  /** The walk meets a leaf at `p` with payload `x` exactly when `p` leads
      to the leaf `x`. */
  lemma {:induction false} LeafPathsMember(v: Value, p: seq<string>, x: Scalar)
    requires ObjectTree(v)
    ensures (p, x) in LeafPaths(v) <==> Lookup(v, p) == Some(Leaf(x))
    decreases v
  {
    match v
    case Leaf(s) =>
      assert LeafPaths(v) == [([], s)];
    case Object(m) =>
      var names := SortStrings(m.Keys);
      FieldPathsMember(m, names, 0, p, x);
      assert names[0..] == names;
      if |p| > 0 && p[0] in m {
        LeafPathsMember(m[p[0]], p[1..], x);
      }
  }

  // ---------------------------------------------------------------------
  // The flat map of a plain tree.

  /** A leaf of a plain object sits at a path the decoder splits back out of
      its joined key. */
  lemma LeafKey(v: Value, d: string, p: seq<string>)
    requires Plain(v, d) && v.Object? && d != "" && LeafAt(v, p)
    ensures |p| > 0 && p[0] != "" && Named(p)
    ensures Split(Join(p, d), d) == p
  {
    PathGood(v, d, p);
    SplitJoin(p, d);
  }

  /** Every entry of the flattened map is a leaf stored under its joined
      path. */
  lemma EncodedEntry(v: Value, opts: seq<OptionFn>, k: string)
    requires var o := DefaultOptions(opts); Plain(v, o.delimiter) && v.Object? && PlainFold(o) && o.delimiter != ""
    requires k in Map(Some(v), opts).value
    ensures exists p :: LeafAt(v, p) && k == Join(p, DefaultOptions(opts).delimiter)
                        && Lookup(v, p) == Some(Leaf(Map(Some(v), opts).value[k]))
  {
    var o := DefaultOptions(opts);
    var ps := LeafPaths(v);
    MapEntry(v, opts, k);
    var j :| 0 <= j < |ps| && KeyOf("", ps[j].0, o) != "" && k == o.fold(KeyOf("", ps[j].0, o))
             && Map(Some(v), opts).value[k] == ps[j].1;
    PlainIsObjectTree(v, o.delimiter);
    assert ps[j] in ps;
    LeafPathsMember(v, ps[j].0, ps[j].1);
    LeafKey(v, o.delimiter, ps[j].0);
    PlainKey(ps[j].0, o);
  }

  /** Every leaf is written under its joined path. */
  lemma EncodedLeaf(v: Value, opts: seq<OptionFn>, p: seq<string>)
    requires var o := DefaultOptions(opts); Plain(v, o.delimiter) && v.Object? && PlainFold(o) && o.delimiter != ""
    requires LeafAt(v, p)
    ensures Join(p, DefaultOptions(opts).delimiter) in Map(Some(v), opts).value
  {
    var o := DefaultOptions(opts);
    var ps := LeafPaths(v);
    var ws := Writes("", ps, o);
    PlainIsObjectTree(v, o.delimiter);
    LeafPathsMember(v, p, Lookup(v, p).value.scalar);
    var j :| 0 <= j < |ps| && ps[j] == (p, Lookup(v, p).value.scalar);
    LeafKey(v, o.delimiter, p);
    PlainKey(p, o);
    JoinNonEmpty(p, o.delimiter);
    WrittenKey(ps, j, o);
  }

  lemma JoinNonEmpty(p: seq<string>, d: string)
    requires |p| > 0 && p[0] != ""
    ensures Join(p, d) != ""
  {
    if |p| > 1 {
      assert Join(p, d) == p[0] + d + Join(p[1..], d);
    }
  }

  /** A leaf whose built key is not empty ends up in the replayed map. */
  lemma WrittenKey(ps: seq<LeafPath>, j: nat, o: Options)
    requires j < |ps| && KeyOf("", ps[j].0, o) != ""
    ensures o.fold(KeyOf("", ps[j].0, o)) in Replay(map[], Writes("", ps, o))
  {
    var ws := Writes("", ps, o);
    WritesFromLeaves("", ps, o);
    var w := (o.fold(KeyOf("", ps[j].0, o)), ps[j].1);
    assert w in ws;
    var i :| 0 <= i < |ws| && ws[i] == w;
    ReplayKeys(map[], ws, w.0);
  }

  /** The segments the decoder splits out of an entry's key are the path of
      the leaf the entry came from. */
  lemma EntryPath(v: Value, opts: seq<OptionFn>, k: string) returns (p: seq<string>)
    requires var o := DefaultOptions(opts); Plain(v, o.delimiter) && v.Object? && PlainFold(o) && o.delimiter != ""
    requires k in Map(Some(v), opts).value
    ensures LeafAt(v, p) && Split(k, DefaultOptions(opts).delimiter) == p
    ensures Lookup(v, p) == Some(Leaf(Map(Some(v), opts).value[k]))
  {
    var d := DefaultOptions(opts).delimiter;
    EncodedEntry(v, opts, k);
    p :| LeafAt(v, p) && k == Join(p, d) && Lookup(v, p) == Some(Leaf(Map(Some(v), opts).value[k]));
    LeafKey(v, d, p);
  }

  // ---------------------------------------------------------------------
  // Decoding it again.

  /** The flattened keys are what the placement theorem asks for: no index
      segments, none empty, and none extending another, since no leaf lies
      below a leaf. */
  lemma EncodedKeysPlace(v: Value, opts: seq<OptionFn>)
    requires var o := DefaultOptions(opts); Plain(v, o.delimiter) && v.Object? && PlainFold(o) && o.delimiter != ""
    ensures var f := Map(Some(v), opts).value; var d := DefaultOptions(opts).delimiter;
      |f| > 0 && NamedKeys(f, d) && PrefixFreeKeys(f, d)
  {
    var d := DefaultOptions(opts).delimiter;
    var f := Map(Some(v), opts).value;
    var r := HasLeaf(v, d);
    EncodedLeaf(v, opts, r);
    assert Join(r, d) in f;
    forall k | k in f ensures Named(Split(k, d)) && |Split(k, d)| > 0 {
      var p := EntryPath(v, opts, k);
      LeafKey(v, d, p);
    }
    forall k1, k2 | k1 in f && k2 in f ensures !ProperPrefix(Split(k1, d), Split(k2, d)) {
      var p1 := EntryPath(v, opts, k1);
      var p2 := EntryPath(v, opts, k2);
      if ProperPrefix(p1, p2) {
        LeafBlocks(v, p1, p2);
      }
    }
  }

  /** A decoded tree holding the flattened map has the nodes of the
      original. */
  lemma SameNodes(v: Value, opts: seq<OptionFn>, t: Value)
    requires var o := DefaultOptions(opts); Plain(v, o.delimiter) && v.Object? && PlainFold(o) && o.delimiter != ""
    requires HoldsFlat(t, Map(Some(v), opts).value, DefaultOptions(opts).delimiter)
    ensures forall p :: Lookup(t, p).Some? <==> Lookup(v, p).Some?
  {
    var d := DefaultOptions(opts).delimiter;
    var f := Map(Some(v), opts).value;
    forall p | p != [] && Lookup(t, p).Some? ensures Lookup(v, p).Some? {
      var k :| k in f && Prefix(p, Split(k, d));
      var q := EntryPath(v, opts, k);
      LookupPrefix(v, p, q);
    }
    forall p | p != [] && Lookup(v, p).Some? ensures Lookup(t, p).Some? {
      PathGood(v, d, p);
      var r := HasLeaf(Lookup(v, p).value, d);
      LookupAppend(v, p, r);
      EncodedLeaf(v, opts, p + r);
      LeafKey(v, d, p + r);
      assert Lookup(t, Split(Join(p + r, d), d)).Some?;
      assert Prefix(p, p + r);
      LookupPrefix(t, p, p + r);
    }
  }

  /** ... and the same leaves. */
  lemma SameLeaves(v: Value, opts: seq<OptionFn>, t: Value)
    requires var o := DefaultOptions(opts); Plain(v, o.delimiter) && v.Object? && PlainFold(o) && o.delimiter != ""
    requires HoldsFlat(t, Map(Some(v), opts).value, DefaultOptions(opts).delimiter)
    ensures forall p :: LeafAt(t, p) || LeafAt(v, p) ==> Lookup(t, p) == Lookup(v, p)
  {
    var d := DefaultOptions(opts).delimiter;
    var f := Map(Some(v), opts).value;
    forall p | LeafAt(t, p) ensures Lookup(t, p) == Lookup(v, p) {
      var k :| k in f && p == Split(k, d);
      var q := EntryPath(v, opts, k);
    }
    forall p | LeafAt(v, p) ensures Lookup(t, p) == Lookup(v, p) {
      EncodedLeaf(v, opts, p);
      var q := EntryPath(v, opts, Join(p, d));
      LeafKey(v, d, p);
    }
  }

  /** The decoded tree is the original. */
  lemma DecodesTo(v: Value, opts: seq<OptionFn>, t: Value)
    requires var o := DefaultOptions(opts); Plain(v, o.delimiter) && v.Object? && PlainFold(o) && o.delimiter != ""
    requires HoldsFlat(t, Map(Some(v), opts).value, DefaultOptions(opts).delimiter)
    ensures t == v
  {
    SameNodes(v, opts, t);
    SameLeaves(v, opts, t);
    PlainIsObjectTree(v, DefaultOptions(opts).delimiter);
    TreeExt(t, v);
  }

  /** Flattening a plain tree of maps with the identity fold and a non-empty
      delimiter, then unflattening the result with the same options, gives
      the tree back, however deep it is. */
  lemma NestedRoundTrip(v: Value, opts: seq<OptionFn>)
    requires var o := DefaultOptions(opts); Plain(v, o.delimiter) && v.Object? && PlainFold(o) && o.delimiter != ""
    ensures Map(Some(v), opts).Some?
    ensures UMap(Map(Some(v), opts).value, opts) == Success(Some(v))
  {
    var f := Map(Some(v), opts).value;
    EncodedKeysPlace(v, opts);
    UMapPlaces(f, opts);
    var u := UMap(f, opts);
    assert u.Success? && u.value.Some?;
    DecodesTo(v, opts, u.value.value);
  }
}
