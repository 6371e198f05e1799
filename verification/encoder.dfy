/** The encoders: Map of package flat (map.go:55-98) and Map of package
    goflat (flat.go:12-56). Reflection is replaced by the closed Value type;
    the walk threads the result map through every call the way the Go code
    threads its one mutable map. */
module Encoder {
  import opened Outcomes
  import opened Text
  import opened Paths
  import opened Values
  import opened Ordering
  import opened Options
  import opened Util
  import LegacyOptions

  /** flat(curr, result, key, options): a pointer first flattens its target
      under the same key and is then itself stored under that key; a slice
      gives element i the segment "%d" of i; a map or struct gives each entry
      its key or field name (map entries in ascending key order); anything
      else is stored under the folded key, but only when the key is not
      empty. */
  ghost function Flat(v: Value, acc: FlatMap, key: string, o: Options): FlatMap
    decreases v, 2
  {
    match v
    case Leaf(s) => if key != "" then acc[o.fold(key) := s] else acc
    case Pointer(a, t) =>
      var inner := Flat(t, acc, key, o);
      if key != "" then inner[o.fold(key) := Ref(a)] else inner
    case List(items) => FlatItems(items, 0, acc, key, o)
    case Object(m) => FlatFields(m, SortStrings(m.Keys), 0, acc, key, o)
  }

  ghost function FlatItems(items: seq<Value>, i: nat, acc: FlatMap, key: string, o: Options): FlatMap
    requires i <= |items|
    decreases List(items), 1, |items| - i
  {
    if i == |items| then acc
    else FlatItems(items, i + 1, Flat(items[i], acc, ConcatKey(key, Decimal(i), o), o), key, o)
  }

  ghost function FlatFields(m: map<string, Value>, names: seq<string>, i: nat, acc: FlatMap,
                            key: string, o: Options): FlatMap
    requires i <= |names| && forall n :: n in names ==> n in m
    decreases Object(m), 1, |names| - i
  {
    if i == |names| then acc
    else FlatFields(m, names, i + 1, Flat(m[names[i]], acc, ConcatKey(key, names[i], o), o), key, o)
  }

  /** Map of package flat: nil gives nil, anything else is flattened from an
      empty prefix with the composed options. */
  ghost function Map(input: Option<Value>, opts: seq<OptionFn>): (r: Option<FlatMap>)
    ensures input.None? <==> r.None?
    ensures input.Some? ==> r == Some(Replay(map[], Writes("", LeafPaths(input.value), DefaultOptions(opts))))
  {
    if input.None? then None
    else
      FlatReplays(input.value, map[], "", DefaultOptions(opts));
      Some(Flat(input.value, map[], "", DefaultOptions(opts)))
  }

  /** The options goflat's flatwrapper walks with: the normalised delimiter
      and no key rewriting. */
  function LegacyWalkOptions(p: Option<LegacyOptions.LegacyOptions>): (o: Options)
    ensures o.delimiter != ""
    ensures forall s :: o.fold(s) == s
  {
    Options(LegacyOptions.CreateDefaultOptionsIfNil(p).effective.delimiter, Identity)
  }

  /** What Map of package goflat leaves behind: the flat map, and the
      caller's options record afterwards. */
  datatype LegacyMapped = LegacyMapped(result: Option<FlatMap>, callerAfter: Option<LegacyOptions.LegacyOptions>)

  /** Map of package goflat: nil gives nil and leaves the caller's options
      alone; anything else is walked with the options normalised by
      createDefultOptionsIfNil, which writes "." into a caller's record whose
      delimiter was empty. */
  ghost function LegacyMap(input: Option<Value>, p: Option<LegacyOptions.LegacyOptions>): (r: LegacyMapped)
    ensures input.None? <==> r.result.None?
    ensures input.Some? ==> r.result == Some(Replay(map[], Writes("", LeafPaths(input.value), LegacyWalkOptions(p))))
    ensures input.None? || p.None? ==> r.callerAfter == p
    ensures input.Some? && p.Some? ==>
      r.callerAfter == Some(if p.value.delimiter == "" then LegacyOptions.LegacyOptions(LegacyOptions.DefaultDelimiter)
                            else p.value)
  {
    if input.None? then LegacyMapped(None, p)
    else
      var normalised := LegacyOptions.CreateDefaultOptionsIfNil(p);
      FlatReplays(input.value, map[], "", LegacyWalkOptions(p));
      LegacyMapped(Some(Flat(input.value, map[], "", LegacyWalkOptions(p))), normalised.callerAfter)
  }

  // ---------------------------------------------------------------------
  // Reference definition: the leaves of a value with their unfolded paths,
  // in walk order, and the writes they turn into.

  /** A leaf payload with the segments leading to it. */
  type LeafPath = (seq<string>, Scalar)

  /** Prefixes every path with one segment. */
  function Under(seg: string, ps: seq<LeafPath>): (r: seq<LeafPath>)
    ensures |r| == |ps|
    ensures forall j :: 0 <= j < |ps| ==> r[j] == ([seg] + ps[j].0, ps[j].1)
  {
    seq(|ps|, j requires 0 <= j < |ps| => ([seg] + ps[j].0, ps[j].1))
  }

  /** The leaves of `v` in the order the walk meets them. A pointer
      contributes its target's leaves and then itself, at the empty path. */
  ghost function LeafPaths(v: Value): seq<LeafPath>
    decreases v, 2
  {
    match v
    case Leaf(s) => [([], s)]
    case Pointer(a, t) => LeafPaths(t) + [([], Ref(a))]
    case List(items) => ItemPaths(items, 0)
    case Object(m) => FieldPaths(m, SortStrings(m.Keys), 0)
  }

  ghost function ItemPaths(items: seq<Value>, i: nat): seq<LeafPath>
    requires i <= |items|
    decreases List(items), 1, |items| - i
  {
    if i == |items| then [] else Under(Decimal(i), LeafPaths(items[i])) + ItemPaths(items, i + 1)
  }

  ghost function FieldPaths(m: map<string, Value>, names: seq<string>, i: nat): seq<LeafPath>
    requires i <= |names| && forall n :: n in names ==> n in m
    decreases Object(m), 1, |names| - i
  {
    if i == |names| then [] else Under(names[i], LeafPaths(m[names[i]])) + FieldPaths(m, names, i + 1)
  }

  /** The key the walk has built after consuming `segs` from prefix `key`,
      one concatKey per segment. */
  function KeyOf(key: string, segs: seq<string>, o: Options): string
    decreases |segs|
  {
    if segs == [] then key else KeyOf(ConcatKey(key, segs[0], o), segs[1..], o)
  }

  /** The map writes the leaves turn into: the folded key and the payload,
      skipped when the built key is empty. */
  function Writes(key: string, ps: seq<LeafPath>, o: Options): seq<(string, Scalar)>
    decreases |ps|
  {
    if ps == [] then []
    else
      var k := KeyOf(key, ps[0].0, o);
      (if k != "" then [(o.fold(k), ps[0].1)] else []) + Writes(key, ps[1..], o)
  }

  /** Performs the writes in order; a later write to the same key replaces
      the earlier one. */
  function Replay(acc: FlatMap, ws: seq<(string, Scalar)>): FlatMap
    decreases |ws|
  {
    if ws == [] then acc else Replay(acc[ws[0].0 := ws[0].1], ws[1..])
  }

  lemma {:induction false} WritesAppend(key: string, p: seq<LeafPath>, q: seq<LeafPath>, o: Options)
    ensures Writes(key, p + q, o) == Writes(key, p, o) + Writes(key, q, o)
    decreases |p|
  {
    if p == [] {
      assert p + q == q;
    } else {
      assert (p + q)[0] == p[0] && (p + q)[1..] == p[1..] + q;
      WritesAppend(key, p[1..], q, o);
    }
  }

  lemma {:induction false} WritesUnder(key: string, seg: string, p: seq<LeafPath>, o: Options)
    ensures Writes(key, Under(seg, p), o) == Writes(ConcatKey(key, seg, o), p, o)
    decreases |p|
  {
    if p != [] {
      var u := Under(seg, p);
      assert u[1..] == Under(seg, p[1..]);
      assert ([seg] + p[0].0)[1..] == p[0].0;
      WritesUnder(key, seg, p[1..], o);
    }
  }

  lemma {:induction false} ReplayAppend(acc: FlatMap, a: seq<(string, Scalar)>, b: seq<(string, Scalar)>)
    ensures Replay(acc, a + b) == Replay(Replay(acc, a), b)
    decreases |a|
  {
    if a == [] {
      assert a + b == b;
    } else {
      assert (a + b)[0] == a[0] && (a + b)[1..] == a[1..] + b;
      ReplayAppend(acc[a[0].0 := a[0].1], a[1..], b);
    }
  }

  /** The walk performs exactly the writes of the reference definition:
      flattening `v` from prefix `key` into `acc` replays, in order, one
      write per leaf under the folded key its path builds. */
  lemma {:induction false} FlatReplays(v: Value, acc: FlatMap, key: string, o: Options)
    ensures Flat(v, acc, key, o) == Replay(acc, Writes(key, LeafPaths(v), o))
    decreases v, 2
  {
    match v
    case Leaf(s) =>
    case Pointer(a, t) =>
      FlatReplays(t, acc, key, o);
      WritesAppend(key, LeafPaths(t), [([], Ref(a))], o);
      ReplayAppend(acc, Writes(key, LeafPaths(t), o), Writes(key, [([], Ref(a))], o));
    case List(items) =>
      ItemsReplay(items, 0, acc, key, o);
    case Object(m) =>
      FieldsReplay(m, SortStrings(m.Keys), 0, acc, key, o);
  }

  lemma {:induction false} ItemsReplay(items: seq<Value>, i: nat, acc: FlatMap, key: string, o: Options)
    requires i <= |items|
    ensures FlatItems(items, i, acc, key, o) == Replay(acc, Writes(key, ItemPaths(items, i), o))
    decreases List(items), 1, |items| - i
  {
    if i < |items| {
      var k := ConcatKey(key, Decimal(i), o);
      var mid := Flat(items[i], acc, k, o);
      FlatReplays(items[i], acc, k, o);
      ItemsReplay(items, i + 1, mid, key, o);
      var head := Under(Decimal(i), LeafPaths(items[i]));
      WritesAppend(key, head, ItemPaths(items, i + 1), o);
      WritesUnder(key, Decimal(i), LeafPaths(items[i]), o);
      ReplayAppend(acc, Writes(key, head, o), Writes(key, ItemPaths(items, i + 1), o));
    }
  }

  lemma {:induction false} FieldsReplay(m: map<string, Value>, names: seq<string>, i: nat,
                                        acc: FlatMap, key: string, o: Options)
    requires i <= |names| && forall n :: n in names ==> n in m
    ensures FlatFields(m, names, i, acc, key, o) == Replay(acc, Writes(key, FieldPaths(m, names, i), o))
    decreases Object(m), 1, |names| - i
  {
    if i < |names| {
      var k := ConcatKey(key, names[i], o);
      var mid := Flat(m[names[i]], acc, k, o);
      FlatReplays(m[names[i]], acc, k, o);
      FieldsReplay(m, names, i + 1, mid, key, o);
      var head := Under(names[i], LeafPaths(m[names[i]]));
      WritesAppend(key, head, FieldPaths(m, names, i + 1), o);
      WritesUnder(key, names[i], LeafPaths(m[names[i]]), o);
      ReplayAppend(acc, Writes(key, head, o), Writes(key, FieldPaths(m, names, i + 1), o));
    }
  }

  // ---------------------------------------------------------------------
  // What the writes leave behind.

  /** A key is in the result exactly when it was there before or some write
      targets it. */
  lemma {:induction false} ReplayKeys(acc: FlatMap, ws: seq<(string, Scalar)>, k: string)
    ensures k in Replay(acc, ws) <==> k in acc || exists i :: 0 <= i < |ws| && ws[i].0 == k
    decreases |ws|
  {
    if ws != [] {
      ReplayKeys(acc[ws[0].0 := ws[0].1], ws[1..], k);
      if exists i :: 0 <= i < |ws[1..]| && ws[1..][i].0 == k {
        var i :| 0 <= i < |ws[1..]| && ws[1..][i].0 == k;
        assert ws[i + 1].0 == k;
      }
      if exists i :: 0 <= i < |ws| && ws[i].0 == k {
        var i :| 0 <= i < |ws| && ws[i].0 == k;
        if i > 0 {
          assert ws[1..][i - 1].0 == k;
        }
      }
    }
  }

  /** Collision policy: the last write to a key decides its payload. */
  lemma {:induction false} ReplayLastWins(acc: FlatMap, ws: seq<(string, Scalar)>, i: nat)
    requires i < |ws|
    requires forall j :: i < j < |ws| ==> ws[j].0 != ws[i].0
    ensures ws[i].0 in Replay(acc, ws) && Replay(acc, ws)[ws[i].0] == ws[i].1
    decreases |ws|
  {
    if i == 0 {
      ReplayUntouched(acc[ws[0].0 := ws[0].1], ws[1..], ws[0].0);
    } else {
      ReplayLastWins(acc[ws[0].0 := ws[0].1], ws[1..], i - 1);
    }
  }

  /** Keys that no write targets keep their payload. */
  lemma {:induction false} ReplayUntouched(acc: FlatMap, ws: seq<(string, Scalar)>, k: string)
    requires k in acc
    requires forall j :: 0 <= j < |ws| ==> ws[j].0 != k
    ensures k in Replay(acc, ws) && Replay(acc, ws)[k] == acc[k]
    decreases |ws|
  {
    if ws != [] {
      ReplayUntouched(acc[ws[0].0 := ws[0].1], ws[1..], k);
    }
  }

  /** A scalar root, or a pointer to a scalar, has only the empty path, so
      nothing is written. */
  lemma ScalarRootFlattensToNothing(s: Scalar, a: nat, opts: seq<OptionFn>)
    ensures Map(Some(Leaf(s)), opts) == Some(map[])
    ensures Map(Some(Pointer(a, Leaf(s))), opts) == Some(map[])
  {
    var o := DefaultOptions(opts);
    assert Writes("", LeafPaths(Leaf(s)), o) == [];
    assert LeafPaths(Pointer(a, Leaf(s))) == [([], s), ([], Ref(a))];
    assert Writes("", [([], Ref(a))], o) == [];
    assert Writes("", LeafPaths(Pointer(a, Leaf(s))), o) == [];
  }

  /** Writes keep the order and the payloads of the leaves: each write comes
      from one leaf, and a leaf with a non-empty built key produces one. */
  lemma {:induction false} WritesFromLeaves(key: string, ps: seq<LeafPath>, o: Options)
    ensures forall w :: w in Writes(key, ps, o) ==>
      exists j :: 0 <= j < |ps| && w == (o.fold(KeyOf(key, ps[j].0, o)), ps[j].1) && KeyOf(key, ps[j].0, o) != ""
    ensures forall j :: 0 <= j < |ps| && KeyOf(key, ps[j].0, o) != "" ==>
      (o.fold(KeyOf(key, ps[j].0, o)), ps[j].1) in Writes(key, ps, o)
    decreases |ps|
  {
    if ps != [] {
      WritesFromLeaves(key, ps[1..], o);
      forall w | w in Writes(key, ps, o)
        ensures exists j :: 0 <= j < |ps| && w == (o.fold(KeyOf(key, ps[j].0, o)), ps[j].1) && KeyOf(key, ps[j].0, o) != ""
      {
        if w !in Writes(key, ps[1..], o) {
          assert w == (o.fold(KeyOf(key, ps[0].0, o)), ps[0].1);
        } else {
          var j :| 0 <= j < |ps[1..]| && w == (o.fold(KeyOf(key, ps[1..][j].0, o)), ps[1..][j].1) && KeyOf(key, ps[1..][j].0, o) != "";
          assert ps[1..][j] == ps[j + 1];
        }
      }
      forall j | 0 <= j < |ps| && KeyOf(key, ps[j].0, o) != ""
        ensures (o.fold(KeyOf(key, ps[j].0, o)), ps[j].1) in Writes(key, ps, o)
      {
        if j > 0 {
          assert ps[1..][j - 1] == ps[j];
        }
      }
    }
  }

  /** Every entry of the flattened map is the payload of some leaf, stored
      under the fold of the key its path builds. */
  lemma MapEntry(v: Value, opts: seq<OptionFn>, k: string)
    requires k in Map(Some(v), opts).value
    ensures exists j :: (0 <= j < |LeafPaths(v)| &&
                         KeyOf("", LeafPaths(v)[j].0, DefaultOptions(opts)) != "" &&
                         k == DefaultOptions(opts).fold(KeyOf("", LeafPaths(v)[j].0, DefaultOptions(opts))) &&
                         Map(Some(v), opts).value[k] == LeafPaths(v)[j].1)
  {
    var o := DefaultOptions(opts);
    var ps := LeafPaths(v);
    var ws := Writes("", ps, o);
    var r := Map(Some(v), opts).value;
    WritesFromLeaves("", ps, o);
    ReplayKeys(map[], ws, k);
    var i :| 0 <= i < |ws| && ws[i].0 == k;
    var last := LastIndexOf(ws, k, i);
    ReplayLastWins(map[], ws, last);
    assert ws[last] in ws;
    var j :| 0 <= j < |ps| && ws[last] == (o.fold(KeyOf("", ps[j].0, o)), ps[j].1) && KeyOf("", ps[j].0, o) != "";
    assert r[k] == ps[j].1;
  }

  /** The position of the last write to `k` at or after `i`. */
  lemma {:induction false} LastIndexOfExists(ws: seq<(string, Scalar)>, k: string, i: nat)
    requires i < |ws| && ws[i].0 == k
    ensures exists l :: i <= l < |ws| && ws[l].0 == k && forall j :: l < j < |ws| ==> ws[j].0 != k
    decreases |ws| - i
  {
    if exists j :: i < j < |ws| && ws[j].0 == k {
      var j :| i < j < |ws| && ws[j].0 == k;
      LastIndexOfExists(ws, k, j);
    } else {
      assert forall j :: i < j < |ws| ==> ws[j].0 != k;
    }
  }

  ghost function LastIndexOf(ws: seq<(string, Scalar)>, k: string, i: nat): (l: nat)
    requires i < |ws| && ws[i].0 == k
    ensures i <= l < |ws| && ws[l].0 == k && forall j :: l < j < |ws| ==> ws[j].0 != k
  {
    LastIndexOfExists(ws, k, i);
    var l :| i <= l < |ws| && ws[l].0 == k && forall j :: l < j < |ws| ==> ws[j].0 != k;
    l
  }

  // ---------------------------------------------------------------------
  // The shape of the keys.

  /** The fold distributes over concatenation, as ASCII or Unicode case
      mappings do. */
  ghost predicate Charwise(f: string -> string) {
    forall a, b :: f(a + b) == f(a) + f(b)
  }

  ghost predicate Idempotent(f: string -> string) {
    forall a :: f(f(a)) == f(a)
  }

  function FoldAll(segs: seq<string>, f: string -> string): (r: seq<string>)
    ensures |r| == |segs| && forall i :: 0 <= i < |segs| ==> r[i] == f(segs[i])
  {
    seq(|segs|, i requires 0 <= i < |segs| => f(segs[i]))
  }

  lemma JoinMerge(a: string, b: string, rest: seq<string>, d: string)
    ensures Join([a + d + b] + rest, d) == Join([a, b] + rest, d)
  {
    if rest == [] {
      assert Join([a, b], d) == a + d + Join([b], d);
    } else {
      assert ([a + d + b] + rest)[1..] == rest;
      assert ([a, b] + rest)[1..] == [b] + rest;
      assert ([b] + rest)[1..] == rest;
    }
  }

  lemma {:induction false} FoldedKeyFrom(k: string, p: seq<string>, o: Options)
    requires k != "" && o.delimiter != ""
    requires Charwise(o.fold) && Idempotent(o.fold)
    ensures o.fold(KeyOf(k, p, o)) == Join([o.fold(k)] + FoldAll(p, o.fold), o.fold(o.delimiter))
    decreases |p|
  {
    var f := o.fold;
    if p != [] {
      var k' := ConcatKey(k, p[0], o);
      FoldedKeyFrom(k', p[1..], o);
      assert f(k') == f(k) + f(o.delimiter) + f(p[0]) by {
        assert f(k') == f(f(k) + o.delimiter) + f(f(p[0]));
        assert f(f(k) + o.delimiter) == f(f(k)) + f(o.delimiter);
      }
      JoinMerge(f(k), f(p[0]), FoldAll(p[1..], f), f(o.delimiter));
      assert [f(k), f(p[0])] + FoldAll(p[1..], f) == [f(k)] + FoldAll(p, f);
    }
  }

  /** With a fold that distributes over concatenation and is idempotent, a
      leaf at path `p` is stored under the folded segments joined by the
      FOLDED delimiter: re-folding the growing prefix at every level
      (util.go:12) and once more at the leaf (map.go:93) folds every
      segment once, and folds the delimiter too. */
  lemma FoldedKey(p: seq<string>, o: Options)
    requires |p| > 0 && p[0] != "" && o.delimiter != ""
    requires Charwise(o.fold) && Idempotent(o.fold)
    ensures o.fold(KeyOf("", p, o)) == Join(FoldAll(p, o.fold), o.fold(o.delimiter))
  {
    FoldedKeyFrom(p[0], p[1..], o);
    assert [o.fold(p[0])] + FoldAll(p[1..], o.fold) == FoldAll(p, o.fold);
  }

  lemma {:induction false} PlainKeyFrom(k: string, p: seq<string>, o: Options)
    requires k != "" && forall s :: o.fold(s) == s
    ensures KeyOf(k, p, o) == Join([k] + p, o.delimiter)
    decreases |p|
  {
    if p != [] {
      PlainKeyFrom(k + o.delimiter + p[0], p[1..], o);
      JoinMerge(k, p[0], p[1..], o.delimiter);
      assert [k, p[0]] + p[1..] == [k] + p;
    }
  }

  /** With the identity fold the stored key is the path joined by the
      delimiter, provided the first segment is not empty (an empty first
      segment is dropped by concatKey's empty-prefix case). */
  lemma PlainKey(p: seq<string>, o: Options)
    requires |p| > 0 && p[0] != "" && forall s :: o.fold(s) == s
    ensures KeyOf("", p, o) == Join(p, o.delimiter)
  {
    PlainKeyFrom(p[0], p[1..], o);
    assert [p[0]] + p[1..] == p;
  }

  /** Every leaf of a list sits under the decimal form of its position,
      which Atoi reads back as an index inside the list. */
  lemma {:induction false} ListSegments(items: seq<Value>, i: nat)
    requires i <= |items|
    ensures forall j :: 0 <= j < |ItemPaths(items, i)| ==>
      var p := ItemPaths(items, i)[j].0;
      |p| > 0 && IndexLike(p[0]) && i <= Atoi(p[0]) < |items| && p[0] == Decimal(Atoi(p[0]))
    decreases |items| - i
  {
    if i < |items| {
      ListSegments(items, i + 1);
      DecimalRoundTrip(i);
      var head := Under(Decimal(i), LeafPaths(items[i]));
      assert ItemPaths(items, i) == head + ItemPaths(items, i + 1);
      forall j | 0 <= j < |ItemPaths(items, i)|
        ensures var p := ItemPaths(items, i)[j].0;
          |p| > 0 && IndexLike(p[0]) && i <= Atoi(p[0]) < |items| && p[0] == Decimal(Atoi(p[0]))
      {
        if j >= |head| {
          assert ItemPaths(items, i)[j] == ItemPaths(items, i + 1)[j - |head|];
        }
      }
    }
  }

  /** Every leaf of an object sits under one of its keys. */
  lemma {:induction false} FieldSegments(m: map<string, Value>, names: seq<string>, i: nat)
    requires i <= |names| && forall n :: n in names ==> n in m
    ensures forall j :: 0 <= j < |FieldPaths(m, names, i)| ==>
      var p := FieldPaths(m, names, i)[j].0;
      |p| > 0 && p[0] in m
    decreases |names| - i
  {
    if i < |names| {
      FieldSegments(m, names, i + 1);
      var head := Under(names[i], LeafPaths(m[names[i]]));
      assert FieldPaths(m, names, i) == head + FieldPaths(m, names, i + 1);
      forall j | 0 <= j < |FieldPaths(m, names, i)|
        ensures var p := FieldPaths(m, names, i)[j].0; |p| > 0 && p[0] in m
      {
        if j >= |head| {
          assert FieldPaths(m, names, i)[j] == FieldPaths(m, names, i + 1)[j - |head|];
        }
      }
    }
  }
}
