/** Where the builder puts each key. For keys none of whose segments is an
    index, every container unflatWrapper creates is a map (unmap.go:89-91
    with isList false), so the tree it builds (unmap.go:51-61) is an object
    tree. The build succeeds exactly when every key has a segment and no
    split key is a proper prefix of another, and then each split key leads
    from the root to the leaf holding that key's payload, and nothing else
    is in the tree. */
module Placement {
  import opened Outcomes
  import opened Text
  import opened Paths
  import opened Values
  import opened Shape
  import opened Builder
  import opened Options
  import opened Decoder

  /** The node reached by following `p` from `v`: a segment names a key of
      an object, or, when it is an index, a position in a list. */
  function Lookup(v: Value, p: seq<string>): Option<Value>
    decreases |p|
  {
    if p == [] then Some(v)
    else match v
      case Object(m) => if p[0] in m then Lookup(m[p[0]], p[1..]) else None
      case List(items) =>
        if IndexLike(p[0]) && 0 <= Atoi(p[0]) < |items| then Lookup(items[Atoi(p[0])], p[1..]) else None
      case _ => None
  }

  /** A leaf sits at the end of `p`. */
  ghost predicate LeafAt(v: Value, p: seq<string>) {
    Lookup(v, p).Some? && Lookup(v, p).value.Leaf?
  }

  /** Leaves and maps only, all the way down. */
  ghost predicate ObjectTree(v: Value) {
    match v
    case Leaf(_) => true
    case Object(m) => forall k :: k in m ==> ObjectTree(m[k])
    case _ => false
  }

  predicate Prefix(p: seq<string>, q: seq<string>) {
    |p| <= |q| && q[..|p|] == p
  }

  predicate ProperPrefix(p: seq<string>, q: seq<string>) {
    |p| < |q| && q[..|p|] == p
  }

  /** No segment of the key is an index. */
  predicate Named(path: seq<string>) {
    forall s :: 0 <= s < |path| ==> !IndexLike(path[s])
  }

  /** No leaf sits strictly above the end of `q`: the walk down `q` never
      has to treat a leaf as a container. */
  ghost predicate Open(v: Value, q: seq<string>) {
    forall n :: 0 <= n < |q| ==> !LeafAt(v, q[..n])
  }

  /** `after` is `before` with the leaf `value` put at `q`: the paths above
      `q` lead to maps, the paths below it lead nowhere, and every path
      beside it leads where it did. */
  ghost predicate PutAt(before: Value, after: Value, q: seq<string>, value: Scalar) {
    && Lookup(after, q) == Some(Leaf(value))
    && (forall p :: ProperPrefix(p, q) ==> Lookup(after, p).Some? && Lookup(after, p).value.Object?)
    && (forall p :: ProperPrefix(q, p) ==> Lookup(after, p).None?)
    && (forall p :: !Prefix(p, q) && !Prefix(q, p) ==> Lookup(after, p) == Lookup(before, p))
  }

  /** Comparing two paths with the same first segment is comparing the
      rest. */
  lemma PrefixCons(p: seq<string>, q: seq<string>)
    requires |p| > 0 && |q| > 0 && p[0] == q[0]
    ensures Prefix(p, q) <==> Prefix(p[1..], q[1..])
    ensures ProperPrefix(p, q) <==> ProperPrefix(p[1..], q[1..])
  {
    if Prefix(p[1..], q[1..]) {
      assert q[..|p|] == [q[0]] + q[1..][..|p| - 1];
      assert p == [p[0]] + p[1..];
    }
    if Prefix(p, q) {
      assert q[1..][..|p| - 1] == q[..|p|][1..];
    }
  }

  /** Nothing but the root is reachable in an empty map. */
  lemma LookupEmpty(p: seq<string>)
    ensures p != [] ==> Lookup(Object(map[]), p).None?
  {
  }

  /** Storing `c` under `k = q[0]` in the map puts the leaf at `q` when `c`
      is the child's start with the leaf put at the rest of `q`. */
  lemma AssignPutAt(m: map<string, Value>, start: Value, c: Value, q: seq<string>, value: Scalar)
    requires |q| > 0
    requires start == if q[0] in m then m[q[0]] else Object(map[])
    requires PutAt(start, c, q[1..], value)
    ensures PutAt(Object(m), Object(m[q[0] := c]), q, value)
  {
    var k := q[0];
    var after := Object(m[k := c]);
    forall p | ProperPrefix(p, q)
      ensures Lookup(after, p).Some? && Lookup(after, p).value.Object?
    {
      if p != [] {
        PrefixCons(p, q);
        assert p[0] == k;
      }
    }
    forall p | ProperPrefix(q, p) ensures Lookup(after, p).None? {
      PrefixCons(q, p);
      assert p[0] == k;
    }
    forall p | !Prefix(p, q) && !Prefix(q, p) ensures Lookup(after, p) == Lookup(Object(m), p) {
      assert p != [];
      if p[0] == k {
        PrefixCons(p, q);
        PrefixCons(q, p);
        if k !in m {
          LookupEmpty(p[1..]);
        }
      }
    }
  }

  /** Below the first segment, a walk from the map is a walk from the child
      the builder starts from. */
  lemma OpenCons(m: map<string, Value>, start: Value, q: seq<string>)
    requires |q| > 0
    requires start == if q[0] in m then m[q[0]] else Object(map[])
    ensures Open(Object(m), q) <==> Open(start, q[1..])
  {
    var k := q[0];
    forall n | 1 <= n < |q| ensures LeafAt(Object(m), q[..n]) <==> LeafAt(start, q[1..][..n - 1]) {
      assert q[..n][1..] == q[1..][..n - 1];
      if k !in m {
        LookupEmpty(q[1..][..n - 1]);
      }
    }
    if Open(start, q[1..]) {
      forall n | 0 <= n < |q| ensures !LeafAt(Object(m), q[..n]) {
        if n > 0 {
          assert !LeafAt(start, q[1..][..n - 1]);
        }
      }
    }
    if Open(Object(m), q) {
      forall n | 0 <= n < |q[1..]| ensures !LeafAt(start, q[1..][..n]) {
        assert !LeafAt(Object(m), q[..n + 1]);
      }
    }
  }

  /** A leaf put at the end of the path, over whatever was there. */
  lemma LeafPutAt(before: Value, value: Scalar)
    ensures PutAt(before, Leaf(value), [], value)
  {
    forall p | ProperPrefix([], p) ensures Lookup(Leaf(value), p).None? {
    }
  }

  /** The last segment of the key: the leaf is stored in the map. */
  lemma LastSegmentPlaces(gen: Generation, keys: seq<seq<string>>, m: map<string, Value>, value: Scalar,
                          path: seq<string>, self: nat, depth: nat)
    requires depth + 1 == |path| && ObjectTree(Object(m))
    ensures var r := Unflat(gen, keys, Object(m), value, path, self, depth);
      r.Success? && r.value.Object? && ObjectTree(r.value) && PutAt(Object(m), r.value, path[depth..], value)
  {
    var q := path[depth..];
    var start := if path[depth] in m then m[path[depth]] else Object(map[]);
    assert q[1..] == [];
    LeafPutAt(start, value);
    AssignPutAt(m, start, Leaf(value), q, value);
  }

  /** unflat on an object tree and a key without index segments: it fails
      exactly when a leaf sits strictly above the end of the key; otherwise
      it puts the payload at the end of the key, turns every node above it
      into a map, and changes nothing beside it. */
  lemma {:induction false} UnflatPlaces(gen: Generation, keys: seq<seq<string>>, cur: Value, value: Scalar,
                                        path: seq<string>, self: nat, depth: nat)
    requires depth < |path| && Named(path) && ObjectTree(cur)
    ensures var r := Unflat(gen, keys, cur, value, path, self, depth);
      r.Success? <==> Open(cur, path[depth..])
    ensures var r := Unflat(gen, keys, cur, value, path, self, depth);
      r.Success? ==> r.value.Object? && ObjectTree(r.value) && PutAt(cur, r.value, path[depth..], value)
    decreases |path| - depth
  {
    var q := path[depth..];
    match cur
    case Leaf(_) =>
      assert q[..0] == [];
      assert LeafAt(cur, q[..0]);
    case Object(m) =>
      var k := path[depth];
      var start := if k in m then m[k] else Object(map[]);
      OpenCons(m, start, q);
      if depth + 1 == |path| {
        LastSegmentPlaces(gen, keys, m, value, path, self, depth);
      } else {
        assert !IndexLike(path[depth + 1]);
        assert q[1..] == path[depth + 1..];
        UnflatPlaces(gen, keys, start, value, path, self, depth + 1);
        var c := Unflat(gen, keys, start, value, path, self, depth + 1);
        assert IsList(gen, keys, path, self, depth + 1) == Success(false);
        if c.Success? {
          AssignPutAt(m, start, c.value, q, value);
          assert Unflat(gen, keys, cur, value, path, self, depth) == Success(Object(m[k := c.value]));
        } else {
          assert Unflat(gen, keys, cur, value, path, self, depth).Failure?;
        }
      }
  }

  // ---------------------------------------------------------------------
  // The whole build.

  /** The key arrays as unflatWrapper receives them from sortKeys: no two
      alike, and a key's proper prefix always comes before it. */
  ghost predicate Ordered(keys: seq<seq<string>>) {
    && (forall a, b :: 0 <= a < b < |keys| ==> keys[a] != keys[b])
    && (forall a, b {:trigger ProperPrefix(keys[a], keys[b])} ::
          0 <= a < |keys| && 0 <= b < |keys| && ProperPrefix(keys[a], keys[b]) ==> a < b)
  }

  /** Key `j` has a segment and extends no key. */
  ghost predicate Fits(keys: seq<seq<string>>, j: nat)
    requires j < |keys|
  {
    |keys[j]| > 0 && forall a {:trigger ProperPrefix(keys[a], keys[j])} :: 0 <= a < |keys| ==> !ProperPrefix(keys[a], keys[j])
  }

  /** The keys from `j` on have a segment each, and none of them extends
      another key. */
  ghost predicate Placeable(keys: seq<seq<string>>, j: nat) {
    forall b :: j <= b < |keys| ==>
      |keys[b]| > 0 && forall a {:trigger ProperPrefix(keys[a], keys[b])} :: 0 <= a < |keys| ==> !ProperPrefix(keys[a], keys[b])
  }

  /** Each of the first `j` keys leads from the root to its payload. */
  ghost predicate KeysLead(root: Value, flat: FlatMap, keys: seq<seq<string>>, d: string, j: nat)
    requires j <= |keys| && forall i :: 0 <= i < |keys| ==> Join(keys[i], d) in flat
  {
    forall i {:trigger Lookup(root, keys[i])} :: 0 <= i < j ==> Lookup(root, keys[i]) == Some(Leaf(flat[Join(keys[i], d)]))
  }

  /** Every node below the root is on the way to one of the first `j` keys. */
  ghost predicate NodesOnKeys(root: Value, keys: seq<seq<string>>, j: nat)
    requires j <= |keys|
  {
    forall p :: p != [] && Lookup(root, p).Some? ==> exists i :: 0 <= i < j && Prefix(p, keys[i])
  }

  /** Every leaf is at the end of one of the first `j` keys. */
  ghost predicate LeavesAtKeys(root: Value, keys: seq<seq<string>>, j: nat)
    requires j <= |keys|
  {
    forall p :: LeafAt(root, p) ==> exists i :: 0 <= i < j && p == keys[i]
  }

  /** The tree holds the first `j` keys and nothing else. */
  ghost predicate Holds(root: Value, flat: FlatMap, keys: seq<seq<string>>, d: string, j: nat)
    requires j <= |keys| && forall i :: 0 <= i < |keys| ==> Join(keys[i], d) in flat
  {
    && root.Object? && ObjectTree(root)
    && KeysLead(root, flat, keys, d, j)
    && NodesOnKeys(root, keys, j)
    && LeavesAtKeys(root, keys, j)
  }

  lemma HoldsEmpty(flat: FlatMap, keys: seq<seq<string>>, d: string)
    requires forall i :: 0 <= i < |keys| ==> Join(keys[i], d) in flat
    ensures Holds(Object(map[]), flat, keys, d, 0)
  {
    forall p | p != [] ensures Lookup(Object(map[]), p).None? {
      LookupEmpty(p);
    }
  }

  /** Following `p` and then `r` is following `p + r`. */
  lemma {:induction false} LookupAppend(v: Value, p: seq<string>, r: seq<string>)
    requires Lookup(v, p).Some?
    ensures Lookup(v, p + r) == Lookup(Lookup(v, p).value, r)
    decreases |p|
  {
    if p == [] {
      assert p + r == r;
    } else {
      assert (p + r)[0] == p[0] && (p + r)[1..] == p[1..] + r;
      match v
      case Object(m) => LookupAppend(m[p[0]], p[1..], r);
      case List(items) => LookupAppend(items[Atoi(p[0])], p[1..], r);
    }
  }

  /** Nothing lies below a leaf. */
  lemma LeafBlocks(v: Value, p: seq<string>, q: seq<string>)
    requires LeafAt(v, p) && ProperPrefix(p, q)
    ensures Lookup(v, q).None?
  {
    var r := q[|p|..];
    assert q == p + r;
    LookupAppend(v, p, r);
  }

  /** A key whose proper prefix is already a leaf cannot be inserted. */
  lemma BlockedByLeaf(root: Value, q: seq<string>, a: seq<string>)
    requires ProperPrefix(a, q) && LeafAt(root, a)
    ensures !Open(root, q)
  {
    assert q[..|a|] == a;
  }

  /** A key that extends no leaf of the tree can be inserted. */
  lemma OpenAmongKeys(root: Value, keys: seq<seq<string>>, j: nat)
    requires j < |keys| && LeavesAtKeys(root, keys, j)
    requires forall a :: 0 <= a < j ==> !ProperPrefix(keys[a], keys[j])
    ensures Open(root, keys[j])
  {
    var q := keys[j];
    forall n | 0 <= n < |q| ensures !LeafAt(root, q[..n]) {
    }
  }

  lemma KeysLeadStep(flat: FlatMap, keys: seq<seq<string>>, d: string, root: Value, next: Value, j: nat)
    requires j < |keys| && forall i :: 0 <= i < |keys| ==> Join(keys[i], d) in flat
    requires Ordered(keys) && KeysLead(root, flat, keys, d, j)
    requires forall a :: 0 <= a < j ==> !ProperPrefix(keys[a], keys[j])
    requires Lookup(next, keys[j]) == Some(Leaf(flat[Join(keys[j], d)]))
    requires forall p :: !Prefix(p, keys[j]) && !Prefix(keys[j], p) ==> Lookup(next, p) == Lookup(root, p)
    ensures KeysLead(next, flat, keys, d, j + 1)
  {
    forall i | 0 <= i < j ensures Lookup(next, keys[i]) == Lookup(root, keys[i]) {
      assert keys[i] != keys[j];
      assert !ProperPrefix(keys[j], keys[i]);
    }
  }

  lemma NodesOnKeysStep(keys: seq<seq<string>>, root: Value, next: Value, j: nat)
    requires j < |keys| && NodesOnKeys(root, keys, j)
    requires forall p :: ProperPrefix(keys[j], p) ==> Lookup(next, p).None?
    requires forall p :: !Prefix(p, keys[j]) && !Prefix(keys[j], p) ==> Lookup(next, p) == Lookup(root, p)
    ensures NodesOnKeys(next, keys, j + 1)
  {
    var q := keys[j];
    forall p | p != [] && Lookup(next, p).Some? ensures exists i :: 0 <= i < j + 1 && Prefix(p, keys[i]) {
      if Prefix(p, q) {
      } else if !Prefix(q, p) {
        var i :| 0 <= i < j && Prefix(p, keys[i]);
      }
    }
  }

  lemma LeavesAtKeysStep(keys: seq<seq<string>>, root: Value, next: Value, j: nat)
    requires j < |keys| && LeavesAtKeys(root, keys, j)
    requires forall p :: ProperPrefix(p, keys[j]) ==> Lookup(next, p).Some? && Lookup(next, p).value.Object?
    requires forall p :: ProperPrefix(keys[j], p) ==> Lookup(next, p).None?
    requires forall p :: !Prefix(p, keys[j]) && !Prefix(keys[j], p) ==> Lookup(next, p) == Lookup(root, p)
    ensures LeavesAtKeys(next, keys, j + 1)
  {
    var q := keys[j];
    forall p | LeafAt(next, p) ensures exists i :: 0 <= i < j + 1 && p == keys[i] {
      if p == q {
      } else if !Prefix(p, q) && !Prefix(q, p) {
        assert LeafAt(root, p);
      }
    }
  }

  /** One insertion keeps the tree holding exactly the keys inserted so
      far. */
  lemma HoldsStep(flat: FlatMap, keys: seq<seq<string>>, d: string, root: Value, next: Value, j: nat)
    requires j < |keys| && forall i :: 0 <= i < |keys| ==> Join(keys[i], d) in flat
    requires Ordered(keys) && Holds(root, flat, keys, d, j)
    requires forall a :: 0 <= a < j ==> !ProperPrefix(keys[a], keys[j])
    requires next.Object? && ObjectTree(next) && PutAt(root, next, keys[j], flat[Join(keys[j], d)])
    ensures Holds(next, flat, keys, d, j + 1)
  {
    KeysLeadStep(flat, keys, d, root, next, j);
    NodesOnKeysStep(keys, root, next, j);
    LeavesAtKeysStep(keys, root, next, j);
  }

  /** Inserting key `j`: it goes in exactly when it has a segment and
      extends no other key, and then the tree holds one key more. */
  lemma InsertPlaces(gen: Generation, flat: FlatMap, keys: seq<seq<string>>, d: string, root: Value, j: nat)
    requires j < |keys| && forall i :: 0 <= i < |keys| ==> Join(keys[i], d) in flat
    requires Named(keys[j]) && Ordered(keys)
    requires Holds(root, flat, keys, d, j)
    ensures var next := Unflat(gen, keys, root, flat[Join(keys[j], d)], keys[j], j, 0);
      next.Success? <==> Fits(keys, j)
    ensures var next := Unflat(gen, keys, root, flat[Join(keys[j], d)], keys[j], j, 0);
      next.Success? ==> Holds(next.value, flat, keys, d, j + 1)
  {
    var q := keys[j];
    var value := flat[Join(q, d)];
    if q == [] {
      assert Unflat(gen, keys, root, value, q, j, 0).Failure?;
    } else {
      UnflatPlaces(gen, keys, root, value, q, j, 0);
      assert q[0..] == q;
      var next := Unflat(gen, keys, root, value, q, j, 0);
      if a :| 0 <= a < |keys| && ProperPrefix(keys[a], q) {
        BlockedByLeaf(root, q, keys[a]);
      } else {
        OpenAmongKeys(root, keys, j);
        HoldsStep(flat, keys, d, root, next.value, j);
      }
    }
  }

  /** The first half of InsertPlaces. */
  lemma InsertFits(gen: Generation, flat: FlatMap, keys: seq<seq<string>>, d: string, root: Value, j: nat)
    requires j < |keys| && forall i :: 0 <= i < |keys| ==> Join(keys[i], d) in flat
    requires Named(keys[j]) && Ordered(keys)
    requires Holds(root, flat, keys, d, j)
    ensures Unflat(gen, keys, root, flat[Join(keys[j], d)], keys[j], j, 0).Success? <==> Fits(keys, j)
  {
    InsertPlaces(gen, flat, keys, d, root, j);
  }

  /** The second half of InsertPlaces, for a given result. */
  lemma InsertHolds(gen: Generation, flat: FlatMap, keys: seq<seq<string>>, d: string, root: Value, j: nat,
                    next: Value)
    requires j < |keys| && forall i :: 0 <= i < |keys| ==> Join(keys[i], d) in flat
    requires Named(keys[j]) && Ordered(keys)
    requires Holds(root, flat, keys, d, j)
    requires Unflat(gen, keys, root, flat[Join(keys[j], d)], keys[j], j, 0) == Success(next)
    ensures Holds(next, flat, keys, d, j + 1)
  {
    InsertPlaces(gen, flat, keys, d, root, j);
  }

  lemma PlaceableStep(keys: seq<seq<string>>, j: nat)
    requires j < |keys|
    ensures Placeable(keys, j) <==> Fits(keys, j) && Placeable(keys, j + 1)
  {
  }

  /** One turn of unflatWrapper's loop: insert key `j`, then build on. */
  lemma BuildStep(gen: Generation, flat: FlatMap, keys: seq<seq<string>>, d: string, root: Value, j: nat)
    requires root.Object? && j <= |keys| && forall i :: 0 <= i < |keys| ==> Join(keys[i], d) in flat
    ensures j == |keys| ==> Build(gen, flat, keys, d, root, j) == Success(root)
    ensures j < |keys| ==>
      var next := Unflat(gen, keys, root, flat[Join(keys[j], d)], keys[j], j, 0);
      Build(gen, flat, keys, d, root, j)
        == if next.Success? then Build(gen, flat, keys, d, next.value, j + 1) else Failure(next.error)
  {
  }

  /** A successful build from key `j` on holds every key. */
  lemma {:induction false} BuildHolds(gen: Generation, flat: FlatMap, keys: seq<seq<string>>, d: string,
                                      root: Value, j: nat, t: Value)
    requires j <= |keys| && forall i :: 0 <= i < |keys| ==> Join(keys[i], d) in flat
    requires (forall i :: 0 <= i < |keys| ==> Named(keys[i])) && Ordered(keys)
    requires Holds(root, flat, keys, d, j)
    requires Build(gen, flat, keys, d, root, j) == Success(t)
    ensures Holds(t, flat, keys, d, |keys|)
    decreases |keys| - j
  {
    BuildStep(gen, flat, keys, d, root, j);
    if j < |keys| {
      var next := Unflat(gen, keys, root, flat[Join(keys[j], d)], keys[j], j, 0);
      assert next.Success?;
      InsertHolds(gen, flat, keys, d, root, j, next.value);
      BuildHolds(gen, flat, keys, d, next.value, j + 1, t);
    }
  }

  /** Placeable, one key at a time. */
  ghost predicate FitFrom(keys: seq<seq<string>>, j: nat)
    decreases |keys| - j
  {
    j >= |keys| || (Fits(keys, j) && FitFrom(keys, j + 1))
  }

  lemma {:induction false} FitFromPlaceable(keys: seq<seq<string>>, j: nat)
    requires j <= |keys|
    ensures FitFrom(keys, j) <==> Placeable(keys, j)
    decreases |keys| - j
  {
    if j < |keys| {
      PlaceableStep(keys, j);
      FitFromPlaceable(keys, j + 1);
    }
  }

  /** A tree that holds every key leaves no key without a segment and no
      key extending another: the first would be the root, the second would
      lie below a leaf. */
  lemma HoldsPlaceable(t: Value, flat: FlatMap, keys: seq<seq<string>>, d: string, j: nat)
    requires j <= |keys| && forall i :: 0 <= i < |keys| ==> Join(keys[i], d) in flat
    requires Holds(t, flat, keys, d, |keys|)
    ensures Placeable(keys, j)
  {
    forall b | j <= b < |keys|
      ensures |keys[b]| > 0 && forall a :: 0 <= a < |keys| ==> !ProperPrefix(keys[a], keys[b])
    {
      assert Lookup(t, keys[b]) == Some(Leaf(flat[Join(keys[b], d)]));
      forall a | 0 <= a < |keys| ensures !ProperPrefix(keys[a], keys[b]) {
        if ProperPrefix(keys[a], keys[b]) {
          assert Lookup(t, keys[a]) == Some(Leaf(flat[Join(keys[a], d)]));
          LeafBlocks(t, keys[a], keys[b]);
        }
      }
    }
  }

  /** When every remaining key fits, the build from key `j` on succeeds. */
  lemma {:induction false} PlaceableBuilds(gen: Generation, flat: FlatMap, keys: seq<seq<string>>, d: string,
                                           root: Value, j: nat) returns (t: Value)
    requires j <= |keys| && forall i :: 0 <= i < |keys| ==> Join(keys[i], d) in flat
    requires (forall i :: 0 <= i < |keys| ==> Named(keys[i])) && Ordered(keys)
    requires Holds(root, flat, keys, d, j)
    requires FitFrom(keys, j)
    ensures Build(gen, flat, keys, d, root, j) == Success(t)
    decreases |keys| - j
  {
    BuildStep(gen, flat, keys, d, root, j);
    if j == |keys| {
      t := root;
    } else {
      assert Fits(keys, j) && FitFrom(keys, j + 1);
      InsertFits(gen, flat, keys, d, root, j);
      var next := Unflat(gen, keys, root, flat[Join(keys[j], d)], keys[j], j, 0);
      assert next.Success?;
      InsertHolds(gen, flat, keys, d, root, j, next.value);
      t := PlaceableBuilds(gen, flat, keys, d, next.value, j + 1);
      assert Build(gen, flat, keys, d, root, j) == Build(gen, flat, keys, d, next.value, j + 1);
    }
  }

  /** The build from key `j` on: it succeeds exactly when the remaining keys
      are placeable, and then the tree holds every key. */
  lemma BuildPlaces(gen: Generation, flat: FlatMap, keys: seq<seq<string>>, d: string, root: Value, j: nat)
    requires j <= |keys| && forall i :: 0 <= i < |keys| ==> Join(keys[i], d) in flat
    requires (forall i :: 0 <= i < |keys| ==> Named(keys[i])) && Ordered(keys)
    requires Holds(root, flat, keys, d, j)
    ensures var r := Build(gen, flat, keys, d, root, j); r.Success? <==> Placeable(keys, j)
    ensures var r := Build(gen, flat, keys, d, root, j); r.Success? ==> Holds(r.value, flat, keys, d, |keys|)
  {
    var r := Build(gen, flat, keys, d, root, j);
    if r.Success? {
      BuildHolds(gen, flat, keys, d, root, j, r.value);
      HoldsPlaceable(r.value, flat, keys, d, j);
    } else if Placeable(keys, j) {
      FitFromPlaceable(keys, j);
      var t := PlaceableBuilds(gen, flat, keys, d, root, j);
    }
  }

  // ---------------------------------------------------------------------
  // What sortKeys guarantees, and the decoder stated on the flat map.

  /** Joining a prefix of the segments gives a prefix of the joined key. */
  lemma {:induction false} JoinPrefix(x: seq<string>, y: seq<string>, d: string)
    requires Prefix(x, y)
    ensures |Join(x, d)| <= |Join(y, d)| && Join(y, d)[..|Join(x, d)|] == Join(x, d)
    decreases |x|
  {
    if |x| == 1 {
      assert y[0] == x[0];
      if |y| > 1 {
        assert Join(y, d) == y[0] + (d + Join(y[1..], d));
      }
    } else if |x| > 1 {
      PrefixCons(x, y);
      JoinPrefix(x[1..], y[1..], d);
      var head := x[0] + d;
      assert x[0] == y[0];
      assert Join(x, d) == head + Join(x[1..], d);
      assert Join(y, d) == head + Join(y[1..], d);
      assert (head + Join(y[1..], d))[..|head| + |Join(x[1..], d)|]
          == head + Join(y[1..], d)[..|Join(x[1..], d)|];
    }
  }

  /** A strictly shorter prefix sorts first. */
  lemma {:induction false} BelowPrefix(a: string, b: string)
    requires |a| < |b| && b[..|a|] == a
    ensures Below(a, b)
    decreases |a|
  {
    if |a| > 0 {
      assert b[1..][..|a| - 1] == a[1..];
      BelowPrefix(a[1..], b[1..]);
    }
  }

  /** A proper prefix never joins to a string that sorts after the longer
      key's join. */
  lemma PrefixNotAfter(u: seq<string>, v: seq<string>, d: string)
    requires ProperPrefix(u, v)
    ensures !Below(Join(v, d), Join(u, d))
  {
    var x, y := Join(u, d), Join(v, d);
    JoinPrefix(u, v, d);
    if |x| < |y| {
      BelowPrefix(x, y);
      BelowAsymmetric(x, y);
    } else {
      assert x == y;
      BelowIrreflexive(x);
    }
  }

  /** Keys whose joins ascend strictly are distinct and put every proper
      prefix first. */
  lemma AscendingOrdered(keys: seq<seq<string>>, d: string)
    requires forall i, j :: 0 <= i < j < |keys| ==> Below(Join(keys[i], d), Join(keys[j], d))
    ensures Ordered(keys)
  {
    forall a, b | 0 <= a < b < |keys| ensures keys[a] != keys[b] {
      if keys[a] == keys[b] {
        BelowIrreflexive(Join(keys[a], d));
      }
    }
    forall a, b | 0 <= a < |keys| && 0 <= b < |keys| && ProperPrefix(keys[a], keys[b]) ensures a < b {
      PrefixNotAfter(keys[a], keys[b], d);
    }
  }

  /** sortKeys hands the builder distinct keys with every proper prefix
      first: a proper prefix joins to a prefix of the longer key, which
      sort.Strings puts first. */
  lemma SortKeysOrdered(flat: FlatMap, d: string)
    ensures Ordered(SortKeys(flat, d))
  {
    SortKeysSpec(flat, d);
    AscendingOrdered(SortKeys(flat, d), d);
  }

  /** No segment of any key, split on `d`, is an index. */
  ghost predicate NamedKeys(flat: FlatMap, d: string) {
    forall k :: k in flat ==> Named(Split(k, d))
  }

  /** Every key splits into at least one segment, and no split key is a
      proper prefix of another. */
  ghost predicate PrefixFreeKeys(flat: FlatMap, d: string) {
    && (forall k :: k in flat ==> |Split(k, d)| > 0)
    && (forall k1, k2 :: k1 in flat && k2 in flat ==> !ProperPrefix(Split(k1, d), Split(k2, d)))
  }

  lemma NamedSortKeys(flat: FlatMap, d: string)
    requires NamedKeys(flat, d)
    ensures var keys := SortKeys(flat, d); forall i :: 0 <= i < |keys| ==> Named(keys[i])
  {
    SortKeysSpec(flat, d);
  }

  lemma PlaceableSortKeys(flat: FlatMap, d: string)
    ensures Placeable(SortKeys(flat, d), 0) <==> PrefixFreeKeys(flat, d)
  {
    if Placeable(SortKeys(flat, d), 0) {
      PlaceableToFlat(flat, d);
    }
    if PrefixFreeKeys(flat, d) {
      FlatToPlaceable(flat, d);
    }
  }

  /** Every key of the map is split into one of the key arrays. */
  lemma SplitIndex(flat: FlatMap, d: string, k: string) returns (i: nat)
    requires k in flat
    ensures i < |SortKeys(flat, d)| && SortKeys(flat, d)[i] == Split(k, d)
  {
    var keys := SortKeys(flat, d);
    SortKeysSpec(flat, d);
    i :| 0 <= i < |keys| && Join(keys[i], d) == k;
  }

  /** Every key array is the split of a key of the map. */
  lemma KeyAt(flat: FlatMap, d: string, i: nat) returns (k: string)
    requires i < |SortKeys(flat, d)|
    ensures k in flat && SortKeys(flat, d)[i] == Split(k, d)
  {
    SortKeysSpec(flat, d);
    k := Join(SortKeys(flat, d)[i], d);
  }

  lemma PlaceableToFlat(flat: FlatMap, d: string)
    requires Placeable(SortKeys(flat, d), 0)
    ensures PrefixFreeKeys(flat, d)
  {
    forall k | k in flat ensures |Split(k, d)| > 0 {
      var i := SplitIndex(flat, d, k);
    }
    forall k1, k2 | k1 in flat && k2 in flat ensures !ProperPrefix(Split(k1, d), Split(k2, d)) {
      var i := SplitIndex(flat, d, k1);
      var j := SplitIndex(flat, d, k2);
    }
  }

  lemma FlatToPlaceable(flat: FlatMap, d: string)
    requires PrefixFreeKeys(flat, d)
    ensures Placeable(SortKeys(flat, d), 0)
  {
    var keys := SortKeys(flat, d);
    forall b | 0 <= b < |keys|
      ensures |keys[b]| > 0 && forall a :: 0 <= a < |keys| ==> !ProperPrefix(keys[a], keys[b])
    {
      var kb := KeyAt(flat, d, b);
      forall a | 0 <= a < |keys| ensures !ProperPrefix(keys[a], keys[b]) {
        var ka := KeyAt(flat, d, a);
      }
    }
  }

  /** The finished tree, stated on the flat map's own keys. */
  ghost predicate HoldsFlat(t: Value, flat: FlatMap, d: string) {
    && t.Object? && ObjectTree(t)
    && (forall k :: k in flat ==> Lookup(t, Split(k, d)) == Some(Leaf(flat[k])))
    && (forall p :: LeafAt(t, p) ==> exists k :: k in flat && p == Split(k, d))
    && (forall p :: p != [] && Lookup(t, p).Some? ==> exists k :: k in flat && Prefix(p, Split(k, d)))
  }

  lemma HoldsSortKeys(flat: FlatMap, d: string, t: Value)
    requires Holds(t, flat, SortKeys(flat, d), d, |flat|)
    ensures HoldsFlat(t, flat, d)
  {
    var keys := SortKeys(flat, d);
    forall k | k in flat ensures Lookup(t, Split(k, d)) == Some(Leaf(flat[k])) {
      var i := SplitIndex(flat, d, k);
      JoinSplit(k, d);
      assert Lookup(t, keys[i]) == Some(Leaf(flat[Join(keys[i], d)]));
    }
    forall p | LeafAt(t, p) ensures exists k :: k in flat && p == Split(k, d) {
      var i :| 0 <= i < |keys| && p == keys[i];
      var k := KeyAt(flat, d, i);
    }
    forall p | p != [] && Lookup(t, p).Some? ensures exists k :: k in flat && Prefix(p, Split(k, d)) {
      var i :| 0 <= i < |keys| && Prefix(p, keys[i]);
      var k := KeyAt(flat, d, i);
    }
  }

  /** flat's UMap of a map whose keys hold no index segment, so the root is
      an object: it succeeds exactly when every key has a segment and no
      split key extends another, and then it returns the object tree in
      which each split key leads to that key's payload, every leaf is at a
      split key, and every node is on the way to one. */
  lemma UMapPlaces(flat: FlatMap, opts: seq<OptionFn>)
    requires |flat| > 0 && NamedKeys(flat, DefaultOptions(opts).delimiter)
    ensures var d := DefaultOptions(opts).delimiter;
      UMap(flat, opts).Success? <==> PrefixFreeKeys(flat, d)
    ensures var d := DefaultOptions(opts).delimiter;
      UMap(flat, opts).Success? ==> UMap(flat, opts).value.Some? && HoldsFlat(UMap(flat, opts).value.value, flat, d)
  {
    var d := DefaultOptions(opts).delimiter;
    var keys := SortKeys(flat, d);
    PlaceableSortKeys(flat, d);
    if keys[0] == [] {
      assert IsList(Current, keys, keys[0], 0, 0).Failure?;
      var k := KeyAt(flat, d, 0);
    } else {
      NamedSortKeys(flat, d);
      assert IsList(Current, keys, keys[0], 0, 0) == Success(false);
      SortKeysOrdered(flat, d);
      HoldsEmpty(flat, keys, d);
      BuildPlaces(Current, flat, keys, d, Object(map[]), 0);
      var r := Build(Current, flat, keys, d, Object(map[]), 0);
      UMapObjectRoot(flat, opts, r);
      if r.Success? {
        HoldsSortKeys(flat, d, r.value);
      }
    }
  }
}
