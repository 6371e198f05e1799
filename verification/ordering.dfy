/** sort.Strings applied to the keys of a flat map: the keys in strictly
    ascending byte order. A Go map hands its keys out in no fixed order, so
    the sorted sequence is the first thing the decoder can rely on. */
module Ordering {
  import opened Text

  predicate StrictlySorted(s: seq<string>) {
    forall i, j :: 0 <= i < j < |s| ==> Below(s[i], s[j])
  }

  predicate IsLeast(m: string, keys: set<string>) {
    m in keys && forall k :: k in keys && k != m ==> Below(m, k)
  }

  lemma {:induction false} LeastExists(keys: set<string>)
    requires keys != {}
    ensures exists m :: IsLeast(m, keys)
    decreases |keys|
  {
    var x :| x in keys;
    var rest := keys - {x};
    if rest == {} {
      assert keys == {x};
      assert IsLeast(x, keys);
    } else {
      LeastExists(rest);
      var m :| IsLeast(m, rest);
      if Below(x, m) {
        forall k | k in keys && k != x
          ensures Below(x, k)
        {
          if k != m {
            BelowTransitive(x, m, k);
          }
        }
        assert IsLeast(x, keys);
      } else {
        BelowTotal(x, m);
        assert IsLeast(m, keys);
      }
    }
  }

  /** The keys of a map in the order sort.Strings leaves them. */
  ghost function SortStrings(keys: set<string>): (r: seq<string>)
    ensures StrictlySorted(r)
    ensures forall k :: k in r <==> k in keys
    ensures |r| == |keys|
    decreases |keys|
  {
    if keys == {} then []
    else
      LeastExists(keys);
      var m :| IsLeast(m, keys);
      var rest := SortStrings(keys - {m});
      assert forall k :: k in rest ==> Below(m, k);
      [m] + rest
  }

  lemma SortStringsTail(keys: set<string>)
    requires keys != {}
    ensures SortStrings(keys)[1..] == SortStrings(keys - {SortStrings(keys)[0]})
  {
  }

  lemma HeadIsLeast(keys: set<string>, s: seq<string>)
    requires StrictlySorted(s) && s != []
    requires forall k :: k in s <==> k in keys
    ensures IsLeast(s[0], keys)
  {
    forall k | k in keys && k != s[0]
      ensures Below(s[0], k)
    {
      assert k in s;
      var i :| 0 <= i < |s| && s[i] == k;
    }
  }

  lemma LeastUnique(keys: set<string>, a: string, b: string)
    requires IsLeast(a, keys) && IsLeast(b, keys)
    ensures a == b
  {
    if a != b {
      BelowAsymmetric(a, b);
    }
  }

  lemma TailEnumerates(keys: set<string>, s: seq<string>)
    requires StrictlySorted(s) && s != []
    requires forall k :: k in s <==> k in keys
    ensures StrictlySorted(s[1..])
    ensures forall k :: k in s[1..] <==> k in keys - {s[0]}
  {
    forall k
      ensures k in s[1..] <==> k in keys - {s[0]}
    {
      if k in s[1..] {
        var i :| 1 <= i < |s| && s[i] == k;
        assert Below(s[0], s[i]);
        BelowIrreflexive(k);
      }
    }
  }

  /** A set has exactly one strictly sorted enumeration, so the sorted key
      sequence is determined by the key set alone. */
  lemma {:induction false} SortedEnumerationUnique(keys: set<string>, s: seq<string>)
    requires StrictlySorted(s)
    requires forall k :: k in s <==> k in keys
    ensures SortStrings(keys) == s
    decreases |s|
  {
    var r := SortStrings(keys);
    if s == [] {
      assert keys == {};
    } else {
      HeadIsLeast(keys, s);
      HeadIsLeast(keys, r);
      LeastUnique(keys, r[0], s[0]);
      TailEnumerates(keys, s);
      SortStringsTail(keys);
      SortedEnumerationUnique(keys - {s[0]}, s[1..]);
      assert r == [r[0]] + r[1..];
    }
  }
}
