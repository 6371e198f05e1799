/** Shape inference (isList, unmap.go:110-133 and unflat.go:112-138):
    whether the container that holds segment `depth` of the current key is a
    list. The answer is a property of the whole sibling group, not of one key. */
module Shape {
  import opened Outcomes
  import opened Text

  /** The two generations of the code. They differ here only in what an
      out-of-range depth does: goflat answers false, flat panics. */
  datatype Generation = Current | Legacy

  /** What one other key says about the current key at `depth`.
      - Unrelated: the keys differ (ignoring case) before `depth`.
      - Agrees: same prefix, and the other key's segment is index-like.
      - Rejects: same prefix, and the other key's segment is not index-like.
      - TooShort: the other key ends while still matching, so the loop reads
        past its end. */
  datatype Verdict = Unrelated | Agrees | Rejects | TooShort

  /** The inner loop of isList for one other key, from position `i`. */
  function Compare(other: seq<string>, cur: seq<string>, depth: nat, i: nat): Verdict
    requires depth < |cur| && i <= depth
    decreases depth - i
  {
    if i >= |other| then TooShort
    else if i == depth then (if IndexLike(other[i]) then Agrees else Rejects)
    else if !EqualFold(other[i], cur[i]) then Unrelated
    else Compare(other, cur, depth, i + 1)
  }

  /** `other` has the same first `depth` segments as `cur`, ignoring case. */
  ghost predicate SamePrefix(other: seq<string>, cur: seq<string>, depth: nat) {
    depth <= |other| && depth <= |cur| && forall i :: 0 <= i < depth ==> EqualFold(other[i], cur[i])
  }

  /** `other` is a proper prefix of `cur` ignoring case, and too short to
      have a segment at `depth`: isList indexes past its end. */
  ghost predicate ShortPrefix(other: seq<string>, cur: seq<string>, depth: nat) {
    |other| <= depth && |other| <= |cur| && forall i :: 0 <= i < |other| ==> EqualFold(other[i], cur[i])
  }

  /** The loop's verdict, stated without the loop. */
  lemma {:induction false} CompareSpec(other: seq<string>, cur: seq<string>, depth: nat, i: nat)
    requires depth < |cur| && i <= depth && i <= |other|
    requires forall j :: 0 <= j < i ==> EqualFold(other[j], cur[j])
    ensures Compare(other, cur, depth, i) == TooShort <==> ShortPrefix(other, cur, depth)
    ensures Compare(other, cur, depth, i) == Rejects <==>
      SamePrefix(other, cur, depth) && |other| > depth && !IndexLike(other[depth])
    ensures Compare(other, cur, depth, i) == Agrees <==>
      SamePrefix(other, cur, depth) && |other| > depth && IndexLike(other[depth])
    decreases depth - i
  {
    if i >= |other| {
    } else if i == depth {
    } else if !EqualFold(other[i], cur[i]) {
      assert !ShortPrefix(other, cur, depth);
      assert !SamePrefix(other, cur, depth);
    } else {
      CompareSpec(other, cur, depth, i + 1);
    }
  }

  /** The outer loop of isList over the other keys, from index `j`. The first
      key that rejects answers false; the first key that is too short panics. */
  function Scan(keys: seq<seq<string>>, cur: seq<string>, self: int, depth: nat, j: nat): (r: Result<bool>)
    requires depth < |cur|
    ensures r.Failure? ==> r.error == IndexOutOfRange
    decreases |keys| - j
  {
    if j >= |keys| then Success(true)
    else if j == self then Scan(keys, cur, self, depth, j + 1)
    else match Compare(keys[j], cur, depth, 0)
      case Rejects => Success(false)
      case TooShort => Failure(IndexOutOfRange)
      case _ => Scan(keys, cur, self, depth, j + 1)
  }

  /** Every other key that shares the prefix has an index-like segment at
      `depth`. */
  ghost predicate SiblingsIndexLike(keys: seq<seq<string>>, cur: seq<string>, self: int, depth: nat) {
    forall j :: 0 <= j < |keys| && j != self && SamePrefix(keys[j], cur, depth) ==>
      |keys[j]| > depth && IndexLike(keys[j][depth])
  }

  /** No other key is a case-insensitive proper prefix ending before `depth`. */
  ghost predicate NoShortPrefix(keys: seq<seq<string>>, cur: seq<string>, self: int, depth: nat) {
    forall j :: 0 <= j < |keys| && j != self ==> !ShortPrefix(keys[j], cur, depth)
  }

  /** isList(keyArrays, currKey, keyArrayIdx, depth). */
  function IsList(gen: Generation, keys: seq<seq<string>>, cur: seq<string>, self: int, depth: nat): (r: Result<bool>)
    ensures r == Success(true) ==>
      depth < |cur| && IndexLike(cur[depth]) && SiblingsIndexLike(keys, cur, self, depth)
    ensures depth < |cur| && !IndexLike(cur[depth]) ==> r == Success(false)
    ensures depth >= |cur| ==> r == (if gen == Legacy then Success(false) else Failure(IndexOutOfRange))
    ensures r.Failure? ==> r.error == IndexOutOfRange
  {
    if depth >= |cur| then (if gen == Legacy then Success(false) else Failure(IndexOutOfRange))
    else if !IndexLike(cur[depth]) then Success(false)
    else
      ScanSound(keys, cur, self, depth, 0);
      Scan(keys, cur, self, depth, 0)
  }

  /** A true answer from the scan means every sibling from `j` on agrees. */
  lemma {:induction false} ScanSound(keys: seq<seq<string>>, cur: seq<string>, self: int, depth: nat, j: nat)
    requires depth < |cur|
    ensures Scan(keys, cur, self, depth, j) == Success(true) ==>
      forall k :: j <= k < |keys| && k != self && SamePrefix(keys[k], cur, depth) ==>
        |keys[k]| > depth && IndexLike(keys[k][depth])
    decreases |keys| - j
  {
    if j < |keys| {
      ScanSound(keys, cur, self, depth, j + 1);
      if j != self {
        CompareSpec(keys[j], cur, depth, 0);
      }
    }
  }

  /** Without a too-short key the scan answers exactly "every sibling from
      `j` on is index-like"; a too-short key is the only way to panic. */
  lemma {:induction false} ScanComplete(keys: seq<seq<string>>, cur: seq<string>, self: int, depth: nat, j: nat)
    requires depth < |cur|
    ensures Scan(keys, cur, self, depth, j).Failure? ==>
      exists k :: j <= k < |keys| && k != self && ShortPrefix(keys[k], cur, depth)
    ensures (forall k :: j <= k < |keys| && k != self ==> !ShortPrefix(keys[k], cur, depth)) ==>
      Scan(keys, cur, self, depth, j) == Success(
        forall k :: j <= k < |keys| && k != self && SamePrefix(keys[k], cur, depth) ==>
          |keys[k]| > depth && IndexLike(keys[k][depth]))
    decreases |keys| - j
  {
    if j < |keys| {
      ScanComplete(keys, cur, self, depth, j + 1);
      if j != self {
        CompareSpec(keys[j], cur, depth, 0);
      }
    }
  }

  /** isList, stated without loops: when no other key is a too-short prefix,
      the current key is list-shaped at `depth` exactly when its own segment
      and the segment of every sibling sharing its prefix are index-like.
      A panic can only come from a too-short key or, in flat, a depth past the
      end of the current key. */
  lemma IsListSpec(gen: Generation, keys: seq<seq<string>>, cur: seq<string>, self: int, depth: nat)
    requires depth < |cur|
    ensures IsList(gen, keys, cur, self, depth).Failure? ==>
      exists k :: 0 <= k < |keys| && k != self && ShortPrefix(keys[k], cur, depth)
    ensures NoShortPrefix(keys, cur, self, depth) ==>
      IsList(gen, keys, cur, self, depth) ==
        Success(IndexLike(cur[depth]) && SiblingsIndexLike(keys, cur, self, depth))
  {
    ScanComplete(keys, cur, self, depth, 0);
  }

  /** Being a too-short prefix depends only on the first `depth` segments. */
  lemma ShortPrefixTransfer(other: seq<string>, x: seq<string>, y: seq<string>, depth: nat)
    requires depth < |x| && depth < |y| && SamePrefix(y, x, depth)
    ensures ShortPrefix(other, y, depth) <==> ShortPrefix(other, x, depth)
  {
  }

  /** Keys with the same first `depth` segments (ignoring case) see the same
      siblings, so they get the same isList answer: list-ness belongs to the
      whole sibling group. */
  lemma SiblingUniform(gen: Generation, keys: seq<seq<string>>, a: nat, b: nat, depth: nat)
    requires a < |keys| && b < |keys|
    requires depth < |keys[a]| && depth < |keys[b]|
    requires SamePrefix(keys[b], keys[a], depth)
    requires NoShortPrefix(keys, keys[a], a, depth)
    ensures NoShortPrefix(keys, keys[b], b, depth)
    ensures IsList(gen, keys, keys[a], a, depth) == IsList(gen, keys, keys[b], b, depth)
  {
    forall j | 0 <= j < |keys| && j != b
      ensures !ShortPrefix(keys[j], keys[b], depth)
    {
      ShortPrefixTransfer(keys[j], keys[a], keys[b], depth);
    }
    IsListSpec(gen, keys, keys[a], a, depth);
    IsListSpec(gen, keys, keys[b], b, depth);
    var A := IndexLike(keys[a][depth]) && SiblingsIndexLike(keys, keys[a], a, depth);
    var B := IndexLike(keys[b][depth]) && SiblingsIndexLike(keys, keys[b], b, depth);
    if a != b {
      if A {
        forall j | 0 <= j < |keys| && j != b && SamePrefix(keys[j], keys[b], depth)
          ensures |keys[j]| > depth && IndexLike(keys[j][depth])
        {
          if j != a {
            assert SamePrefix(keys[j], keys[a], depth);
          }
        }
      }
      if B {
        forall j | 0 <= j < |keys| && j != a && SamePrefix(keys[j], keys[a], depth)
          ensures |keys[j]| > depth && IndexLike(keys[j][depth])
        {
          if j != b {
            assert SamePrefix(keys[j], keys[b], depth);
          }
        }
      }
    }
  }

  /** A single sibling whose segment at `depth` is not index-like makes the
      whole group an object (the "Hazard" keys 0, 1, Nested of the tests). */
  lemma OneNonIndexSiblingMakesObject(gen: Generation, keys: seq<seq<string>>, a: nat, w: nat, depth: nat)
    requires a < |keys| && w < |keys|
    requires depth < |keys[a]| && depth < |keys[w]|
    requires SamePrefix(keys[w], keys[a], depth)
    requires !IndexLike(keys[w][depth])
    requires NoShortPrefix(keys, keys[a], a, depth)
    ensures IsList(gen, keys, keys[a], a, depth) == Success(false)
  {
    IsListSpec(gen, keys, keys[a], a, depth);
  }
}
