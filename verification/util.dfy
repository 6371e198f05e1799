/** concatKey (util.go): the path-join step shared by the encoder and the
    decoder's root-list wrapper. */
module Util {
  import opened Options
  import opened Paths

  /** concatKey(key, idx, options): the segment alone under an empty prefix,
      otherwise the folded prefix, the delimiter and the folded segment. */
  function ConcatKey(key: string, seg: string, o: Options): string {
    if key == "" then seg else o.fold(key) + o.delimiter + o.fold(seg)
  }

  /** Appending a segment to a joined path is joining the longer path. */
  lemma {:induction false} JoinSnoc(segs: seq<string>, seg: string, d: string)
    requires |segs| > 0
    ensures Join(segs + [seg], d) == Join(segs, d) + d + seg
    decreases |segs|
  {
    if |segs| == 1 {
      assert (segs + [seg])[1..] == [seg];
    } else {
      assert (segs + [seg])[1..] == segs[1..] + [seg];
      JoinSnoc(segs[1..], seg, d);
    }
  }

  /** With the identity fold and segments that cannot be confused with a
      non-empty delimiter, concatKey extends the split of the prefix by
      exactly the new segment. For one-character delimiters the condition
      is only that no segment contains the delimiter (SafeSegmentSingleChar);
      longer delimiters can also straddle a segment boundary. */
  lemma SplitConcatKey(segs: seq<string>, seg: string, o: Options)
    requires o.delimiter != "" && forall s :: o.fold(s) == s
    requires |segs| > 0 && Join(segs, o.delimiter) != ""
    requires CleanPath(segs + [seg], o.delimiter)
    ensures Split(ConcatKey(Join(segs, o.delimiter), seg, o), o.delimiter) == segs + [seg]
  {
    JoinSnoc(segs, seg, o.delimiter);
    SplitJoin(segs + [seg], o.delimiter);
  }
}
