/** The decoder core shared by both generations (unmap.go:51-108 and
    unflat.go:40-110): the sorted, split keys are inserted one by one into
    a tree that starts as an empty object. Every step returns the updated
    container and the caller stores it back into the slot it came from, the
    return-and-reassign pattern of unmap.go:75 and unmap.go:94-104. */
module Builder {
  import opened Outcomes
  import opened Text
  import opened Paths
  import opened Values
  import opened Ordering
  import opened Shape

  /** `after` is the same kind of container as `before`. */
  predicate SameKind(before: Value, after: Value) {
    (before.List? ==> after.List?) && (before.Object? ==> after.Object?)
  }

  /** Every payload in `after` is `value` or was already in `before`. */
  ghost predicate OnlyAdds(before: Value, after: Value, value: Scalar) {
    forall x :: Mentions(after, x) ==> x == value || Mentions(before, x)
  }

  /** The empty container isList asks for. */
  function Fresh(asList: bool): (v: Value)
    ensures asList <==> v.List?
    ensures v.List? ==> v.items == []
    ensures v.Object? ==> v.fields == map[]
  {
    if asList then List([]) else Object(map[])
  }

  lemma MentionsAppend(items: seq<Value>, c: Value, x: Scalar)
    ensures Mentions(List(items + [c]), x) <==> Mentions(List(items), x) || Mentions(c, x)
  {
    if Mentions(List(items), x) {
      var i :| 0 <= i < |items| && Mentions(items[i], x);
      assert (items + [c])[i] == items[i];
    }
    if Mentions(c, x) {
      assert (items + [c])[|items|] == c;
    }
  }

  lemma MentionsReplace(items: seq<Value>, n: nat, c: Value, x: Scalar)
    requires n < |items|
    ensures Mentions(c, x) ==> Mentions(List(items[n := c]), x)
    ensures Mentions(List(items[n := c]), x) ==>
      Mentions(c, x) || exists i :: 0 <= i < |items| && i != n && Mentions(items[i], x)
  {
    if Mentions(List(items[n := c]), x) {
      var i :| 0 <= i < |items| && Mentions(items[n := c][i], x);
    }
    if Mentions(c, x) {
      assert items[n := c][n] == c;
    }
  }

  lemma MentionsAssign(m: map<string, Value>, k: string, c: Value, x: Scalar)
    ensures Mentions(c, x) ==> Mentions(Object(m[k := c]), x)
    ensures Mentions(Object(m[k := c]), x) ==>
      Mentions(c, x) || exists j :: j in m && j != k && Mentions(m[j], x)
  {
    if Mentions(Object(m[k := c]), x) {
      var j :| j in m[k := c] && Mentions(m[k := c][j], x);
    }
    if Mentions(c, x) {
      assert k in m[k := c];
    }
  }

  /** unflat: dispatch on the kind of the current node. A leaf (or anything
      that is neither a slice nor a map) fails the type assertion. */
  function Unflat(gen: Generation, keys: seq<seq<string>>, cur: Value, value: Scalar,
                  path: seq<string>, self: nat, depth: nat): (r: Result<Value>)
    requires depth <= |path|
    ensures r.Success? ==> SameKind(cur, r.value)
    ensures r.Success? ==> Mentions(r.value, value) && OnlyAdds(cur, r.value, value)
    ensures r.Failure? ==> r.error != EmptyDelimiter
    ensures !cur.List? && !cur.Object? ==> r == Failure(ShapeConflict)
    decreases |path| - depth, 1
  {
    match cur
    case List(items) => UnflatList(gen, keys, items, value, path, self, depth)
    case Object(m) => UnflatObject(gen, keys, m, value, path, self, depth)
    case _ => Failure(ShapeConflict)
  }

  /** unflatList: a final index-like segment appends the leaf whatever its
      value; an index inside the list descends into that element; anything
      else appends a fresh child chosen by isList. */
  function UnflatList(gen: Generation, keys: seq<seq<string>>, items: seq<Value>, value: Scalar,
                      path: seq<string>, self: nat, depth: nat): (r: Result<Value>)
    requires depth <= |path|
    ensures depth == |path| ==> r == Failure(IndexOutOfRange)
    ensures depth + 1 == |path| && IndexLike(path[depth]) ==> r == Success(List(items + [Leaf(value)]))
    ensures r.Success? ==> r.value.List? && |items| <= |r.value.items| <= |items| + 1
    ensures r.Success? && |r.value.items| == |items| + 1 ==> r.value.items[..|items|] == items
    ensures r.Success? && |r.value.items| == |items| ==>
      depth < |path| && 0 <= Atoi(path[depth]) < |items| &&
      forall i :: 0 <= i < |items| && i != Atoi(path[depth]) ==> r.value.items[i] == items[i]
    ensures depth < |path| && !(depth + 1 == |path| && IndexLike(path[depth])) ==>
      (0 <= Atoi(path[depth]) < |items| ==> r.Failure? || |r.value.items| == |items|)
    ensures (r.Success? && depth < |path| && !(depth + 1 == |path| && IndexLike(path[depth]))
             && !(0 <= Atoi(path[depth]) < |items|)) ==>
      (r.value.items[|items|].List? <==> IsList(gen, keys, path, self, depth + 1) == Success(true))
    ensures r.Success? ==> Mentions(r.value, value) && OnlyAdds(List(items), r.value, value)
    ensures r.Failure? ==> r.error != EmptyDelimiter
    decreases |path| - depth, 0
  {
    if depth == |path| then Failure(IndexOutOfRange)
    else if IndexLike(path[depth]) && depth + 1 == |path| then
      MentionsAppendAll(items, Leaf(value));
      Success(List(items + [Leaf(value)]))
    else
      var n := Atoi(path[depth]);
      if 0 <= n < |items| then
        var child :- Unflat(gen, keys, items[n], value, path, self, depth + 1);
        MentionsReplaceAll(items, n, child, value);
        Success(List(items[n := child]))
      else
        var asList :- IsList(gen, keys, path, self, depth + 1);
        var child :- Unflat(gen, keys, Fresh(asList), value, path, self, depth + 1);
        MentionsAppendAll(items, child);
        Success(List(items + [child]))
  }

  lemma MentionsAppendAll(items: seq<Value>, c: Value)
    ensures forall x :: Mentions(List(items + [c]), x) <==> Mentions(List(items), x) || Mentions(c, x)
  {
    forall x ensures Mentions(List(items + [c]), x) <==> Mentions(List(items), x) || Mentions(c, x) {
      MentionsAppend(items, c, x);
    }
  }

  lemma MentionsReplaceAll(items: seq<Value>, n: nat, c: Value, value: Scalar)
    requires n < |items|
    requires Mentions(c, value) && OnlyAdds(items[n], c, value)
    ensures Mentions(List(items[n := c]), value) && OnlyAdds(List(items), List(items[n := c]), value)
  {
    MentionsReplace(items, n, c, value);
    forall x | Mentions(List(items[n := c]), x)
      ensures x == value || Mentions(List(items), x)
    {
      MentionsReplace(items, n, c, x);
    }
  }

  lemma MentionsAssignAll(m: map<string, Value>, k: string, prior: Option<Value>, c: Value, value: Scalar)
    requires prior.Some? <==> k in m
    requires prior.Some? ==> prior.value == m[k]
    requires Mentions(c, value)
    requires forall x :: Mentions(c, x) ==> x == value || (prior.Some? && Mentions(prior.value, x))
    ensures Mentions(Object(m[k := c]), value) && OnlyAdds(Object(m), Object(m[k := c]), value)
  {
    MentionsAssign(m, k, c, value);
    forall x | Mentions(Object(m[k := c]), x)
      ensures x == value || Mentions(Object(m), x)
    {
      MentionsAssign(m, k, c, x);
    }
  }

  /** unflatObject: a final segment assigns the leaf, overwriting any earlier
      entry; otherwise the existing child is reused, or a fresh child chosen
      by isList is created. No other key is touched. */
  function UnflatObject(gen: Generation, keys: seq<seq<string>>, m: map<string, Value>, value: Scalar,
                        path: seq<string>, self: nat, depth: nat): (r: Result<Value>)
    requires depth <= |path|
    ensures depth == |path| ==> r == Failure(IndexOutOfRange)
    ensures depth + 1 == |path| ==> r == Success(Object(m[path[depth] := Leaf(value)]))
    ensures r.Success? ==>
      && depth < |path|
      && r.value.Object?
      && r.value.fields.Keys == m.Keys + {path[depth]}
      && forall k :: k in m && k != path[depth] ==> r.value.fields[k] == m[k]
    ensures r.Success? && depth + 1 < |path| && path[depth] in m ==>
      SameKind(m[path[depth]], r.value.fields[path[depth]])
    ensures r.Success? && depth + 1 < |path| && path[depth] !in m ==>
      (r.value.fields[path[depth]].List? <==> IsList(gen, keys, path, self, depth + 1) == Success(true))
    ensures r.Success? ==> Mentions(r.value, value) && OnlyAdds(Object(m), r.value, value)
    ensures r.Failure? ==> r.error != EmptyDelimiter
    decreases |path| - depth, 0
  {
    if depth == |path| then Failure(IndexOutOfRange)
    else if depth + 1 == |path| then
      MentionsAssignAll(m, path[depth], if path[depth] in m then Some(m[path[depth]]) else None, Leaf(value), value);
      Success(Object(m[path[depth] := Leaf(value)]))
    else
      var asList :- IsList(gen, keys, path, self, depth + 1);
      var k := path[depth];
      var start := if k in m then m[k] else Fresh(asList);
      var child :- Unflat(gen, keys, start, value, path, self, depth + 1);
      MentionsAssignAll(m, k, if k in m then Some(m[k]) else None, child, value);
      Success(Object(m[k := child]))
  }

  lemma JoinSplitAll(names: seq<string>, d: string)
    ensures forall i :: 0 <= i < |names| ==> Join(Split(names[i], d), d) == names[i]
  {
    forall i | 0 <= i < |names| ensures Join(Split(names[i], d), d) == names[i] {
      JoinSplit(names[i], d);
    }
  }

  function SplitAll(names: seq<string>, d: string): (r: seq<seq<string>>)
    ensures |r| == |names|
    ensures forall i :: 0 <= i < |r| ==> r[i] == Split(names[i], d)
  {
    seq(|names|, i requires 0 <= i < |names| => Split(names[i], d))
  }

  lemma SortKeysFacts(flat: FlatMap, d: string, names: seq<string>, r: seq<seq<string>>)
    requires StrictlySorted(names) && (forall k :: k in names <==> k in flat)
    requires r == SplitAll(names, d)
    ensures forall i :: 0 <= i < |r| ==> Join(r[i], d) == names[i]
    ensures forall i :: 0 <= i < |r| ==> Join(r[i], d) in flat && r[i] == Split(Join(r[i], d), d)
    ensures forall i, j :: 0 <= i < j < |r| ==> Below(Join(r[i], d), Join(r[j], d))
    ensures forall k :: k in flat ==> exists i :: 0 <= i < |r| && Join(r[i], d) == k
  {
    JoinSplitAll(names, d);
    forall i | 0 <= i < |r| ensures Join(r[i], d) in flat {
      assert names[i] in names;
    }
    forall k | k in flat ensures exists i :: 0 <= i < |r| && Join(r[i], d) == k {
      var i :| 0 <= i < |names| && names[i] == k;
      assert Join(r[i], d) == k;
    }
  }

  /** sortKeys: the keys of the flat map in sort.Strings order, each split on
      the delimiter. Joining a split key gives back the key itself, so every
      key array fetches an entry of the map (see SortKeysSpec for the rest). */
  ghost function SortKeys(flat: FlatMap, d: string): (r: seq<seq<string>>)
    ensures |r| == |flat|
    ensures forall i :: 0 <= i < |r| ==> Join(r[i], d) in flat
  {
    var names := SortStrings(flat.Keys);
    assert forall k :: k in names <==> k in flat;
    SortKeysFacts(flat, d, names, SplitAll(names, d));
    SplitAll(names, d)
  }

  /** The key arrays are the split keys, strictly ascending as strings, and
      every key of the map has one. */
  lemma SortKeysSpec(flat: FlatMap, d: string)
    ensures var r := SortKeys(flat, d);
      && (forall i :: 0 <= i < |r| ==> r[i] == Split(Join(r[i], d), d))
      && (forall i, j :: 0 <= i < j < |r| ==> Below(Join(r[i], d), Join(r[j], d)))
      && (forall k :: k in flat ==> exists i :: 0 <= i < |r| && Join(r[i], d) == k)
  {
    var names := SortStrings(flat.Keys);
    assert forall k :: k in names <==> k in flat;
    SortKeysFacts(flat, d, names, SplitAll(names, d));
  }

  /** The loop of unflatWrapper from key `j` on: each key's own value is
      fetched through the joined key and inserted at depth 0. The root stays
      an object, and no payload appears that the flat map does not hold. */
  ghost function Build(gen: Generation, flat: FlatMap, keys: seq<seq<string>>, d: string,
                       root: Value, j: nat): (r: Result<Value>)
    requires root.Object? && j <= |keys|
    requires forall i :: 0 <= i < |keys| ==> Join(keys[i], d) in flat
    ensures r.Success? ==> r.value.Object?
    ensures r.Success? ==> forall x :: Mentions(r.value, x) ==> Mentions(root, x) || x in flat.Values
    ensures r.Failure? ==> r.error != EmptyDelimiter
    decreases |keys| - j
  {
    if j == |keys| then Success(root)
    else
      var value := flat[Join(keys[j], d)];
      var next :- Unflat(gen, keys, root, value, keys[j], j, 0);
      Build(gen, flat, keys, d, next, j + 1)
  }

  /** Built from the empty object, the result mentions only payloads of the
      flat map. */
  lemma BuildFromEmpty(gen: Generation, flat: FlatMap, keys: seq<seq<string>>, d: string, root: Value)
    requires forall i :: 0 <= i < |keys| ==> Join(keys[i], d) in flat
    requires Build(gen, flat, keys, d, Object(map[]), 0) == Success(root)
    ensures forall x :: Mentions(root, x) ==> x in flat.Values
  {
    assert forall x :: !Mentions(Object(map[]), x);
  }
}
