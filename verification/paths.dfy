/** The path codec: strings.Split and strings.Join on the configured
    delimiter. Keys are split once, after sorting (unmap.go:146), and joined
    again to fetch each key's value (unmap.go:53). */
module Paths {

  /** `d` occurs in `s` starting at position `i`. */
  predicate OccursAt(s: string, d: string, i: int) {
    0 <= i && i + |d| <= |s| && s[i..i + |d|] == d
  }

  predicate Contains(s: string, d: string) {
    exists i :: 0 <= i <= |s| && OccursAt(s, d, i)
  }

  /** A segment that can be followed by the delimiter without the split
      finding the delimiter anywhere earlier: no occurrence of `d` in
      `seg + d` starts inside `seg`. For a one-character delimiter this is
      just "seg does not contain d" (see SafeSegmentSingleChar). */
  predicate SafeSegment(seg: string, d: string) {
    forall i :: 0 <= i < |seg| ==> !OccursAt(seg + d, d, i)
  }

  /** strings.Split(s, d). A non-empty delimiter cuts `s` at each
      occurrence, scanning left to right without overlap; the empty
      delimiter explodes `s` into its characters, and the empty string then
      has no segments at all. */
  function Split(s: string, d: string): (r: seq<string>)
    ensures d != "" ==> |r| >= 1
    ensures d == "" ==> |r| == |s| && forall i :: 0 <= i < |r| ==> r[i] == [s[i]]
    decreases |s|
  {
    if d == "" then
      if s == "" then [] else [[s[0]]] + Split(s[1..], d)
    else if |s| < |d| then [s]
    else if s[..|d|] == d then [""] + Split(s[|d|..], d)
    else
      var rest := Split(s[1..], d);
      [[s[0]] + rest[0]] + rest[1..]
  }

  /** strings.Join(segs, d). */
  function Join(segs: seq<string>, d: string): string {
    if |segs| == 0 then ""
    else if |segs| == 1 then segs[0]
    else segs[0] + d + Join(segs[1..], d)
  }

  lemma JoinCons(a: string, rest: seq<string>, d: string)
    requires |rest| >= 1
    ensures Join([a] + rest, d) == a + d + Join(rest, d)
  {
    assert ([a] + rest)[1..] == rest;
  }

  /** Gluing a character onto the first segment puts it in front of the join. */
  lemma JoinGlue(c: char, rest: seq<string>, d: string)
    requires |rest| >= 1
    ensures Join([[c] + rest[0]] + rest[1..], d) == [c] + Join(rest, d)
  {
    if |rest| > 1 {
      JoinCons([c] + rest[0], rest[1..], d);
      JoinCons(rest[0], rest[1..], d);
      assert rest == [rest[0]] + rest[1..];
    }
  }

  /** Joining the segments of a split key with the same delimiter gives the
      key back, whatever the delimiter: the lookup at unmap.go:53 always
      fetches the value of the key that was split. */
  lemma {:induction false} JoinSplit(s: string, d: string)
    ensures Join(Split(s, d), d) == s
    decreases |s|
  {
    if d == "" {
      if s != "" {
        JoinSplit(s[1..], d);
        var rest := Split(s[1..], d);
        assert s == [s[0]] + s[1..];
        if |rest| > 0 {
          JoinCons([s[0]], rest, d);
        }
      }
    } else if |s| < |d| {
    } else if s[..|d|] == d {
      JoinSplit(s[|d|..], d);
      JoinCons("", Split(s[|d|..], d), d);
      assert s == s[..|d|] + s[|d|..];
    } else {
      JoinSplit(s[1..], d);
      JoinGlue(s[0], Split(s[1..], d), d);
      assert s == [s[0]] + s[1..];
    }
  }

  /** A segment with no occurrence of a non-empty delimiter splits to itself. */
  lemma {:induction false} SplitClean(s: string, d: string)
    requires d != "" && !Contains(s, d)
    ensures Split(s, d) == [s]
    decreases |s|
  {
    if |s| >= |d| {
      assert s[..|d|] != d by { assert !OccursAt(s, d, 0); }
      assert !Contains(s[1..], d) by {
        forall i | 0 <= i <= |s[1..]| ensures !OccursAt(s[1..], d, i) {
          assert !OccursAt(s, d, i + 1);
          if i + |d| <= |s[1..]| {
            assert s[1..][i..i + |d|] == s[i + 1..i + 1 + |d|];
          }
        }
      }
      SplitClean(s[1..], d);
      assert s == [s[0]] + s[1..];
    }
  }

  /** Splitting a safe segment followed by the delimiter cuts exactly there. */
  lemma {:induction false} SplitAfterSafe(seg: string, d: string, rest: string)
    requires d != "" && SafeSegment(seg, d)
    ensures Split(seg + d + rest, d) == [seg] + Split(rest, d)
    decreases |seg|
  {
    var s := seg + d + rest;
    if seg == "" {
      assert s[..|d|] == d;
      assert s[|d|..] == rest;
    } else {
      SafeSegmentStep(seg, d, rest);
      SplitAfterSafe(seg[1..], d, rest);
      assert s[1..] == seg[1..] + d + rest;
      assert seg == [seg[0]] + seg[1..];
    }
  }

  /** A non-empty safe segment does not start with the delimiter, and its
      tail is safe too. */
  lemma SafeSegmentStep(seg: string, d: string, rest: string)
    requires d != "" && seg != "" && SafeSegment(seg, d)
    ensures (seg + d + rest)[..|d|] != d
    ensures SafeSegment(seg[1..], d)
  {
    assert !OccursAt(seg + d, d, 0);
    assert (seg + d)[0..|d|] == (seg + d + rest)[..|d|];
    forall i | 0 <= i < |seg[1..]| ensures !OccursAt(seg[1..] + d, d, i) {
      assert !OccursAt(seg + d, d, i + 1);
      assert (seg[1..] + d)[i..i + |d|] == (seg + d)[i + 1..i + 1 + |d|];
    }
  }

  /** Paths whose segments cannot be confused with the delimiter: every
      segment but the last is safe, and the last contains no delimiter. */
  predicate CleanPath(segs: seq<string>, d: string) {
    && (forall i :: 0 <= i < |segs| - 1 ==> SafeSegment(segs[i], d))
    && (|segs| > 0 ==> !Contains(segs[|segs| - 1], d))
  }

  /** Splitting a joined clean path gives the path back. */
  lemma {:induction false} SplitJoin(segs: seq<string>, d: string)
    requires d != "" && |segs| > 0 && CleanPath(segs, d)
    ensures Split(Join(segs, d), d) == segs
    decreases |segs|
  {
    if |segs| == 1 {
      SplitClean(segs[0], d);
    } else {
      assert CleanPath(segs[1..], d) by {
        assert segs[1..][|segs| - 2] == segs[|segs| - 1];
      }
      SplitJoin(segs[1..], d);
      SplitAfterSafe(segs[0], d, Join(segs[1..], d));
      assert segs == [segs[0]] + segs[1..];
    }
  }

  /** With a one-character delimiter a segment is safe exactly when it does
      not contain the delimiter character. */
  lemma SafeSegmentSingleChar(seg: string, c: char)
    ensures SafeSegment(seg, [c]) <==> c !in seg
  {
    if c in seg {
      var i :| 0 <= i < |seg| && seg[i] == c;
      assert (seg + [c])[i..i + 1] == [c];
      assert OccursAt(seg + [c], [c], i);
    } else {
      forall i | 0 <= i < |seg| ensures !OccursAt(seg + [c], [c], i) {
        assert (seg + [c])[i..i + 1] == [seg[i]];
      }
    }
  }

  /** For a one-character delimiter, containing it is containing the
      character. */
  lemma ContainsSingleChar(s: string, c: char)
    ensures Contains(s, [c]) <==> c in s
  {
    if c in s {
      var i :| 0 <= i < |s| && s[i] == c;
      assert OccursAt(s, [c], i);
    }
    if Contains(s, [c]) {
      var i :| 0 <= i <= |s| && OccursAt(s, [c], i);
      assert s[i] == s[i..i + 1][0];
    }
  }
}
