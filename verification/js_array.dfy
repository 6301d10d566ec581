/** `Array.prototype.filter`: the elements that pass the test, in their original order. */
module JsArray {

  /** `s.filter(keep)`. */
  function Filter<T>(s: seq<T>, keep: T -> bool): (r: seq<T>)
    ensures |r| <= |s|
    ensures forall i :: 0 <= i < |r| ==> keep(r[i])
    ensures multiset(r) <= multiset(s)
  {
    if |s| == 0 then []
    else
      var rest := Filter(s[..|s| - 1], keep);
      assert s == s[..|s| - 1] + [s[|s| - 1]];
      if keep(s[|s| - 1]) then rest + [s[|s| - 1]] else rest
  }

  /** Every element that passes the test survives the filter. */
  lemma {:induction false} FilterKeepsPassing<T>(s: seq<T>, keep: T -> bool)
    ensures forall i :: 0 <= i < |s| && keep(s[i]) ==> s[i] in Filter(s, keep)
  {
    if |s| > 0 {
      var p := s[..|s| - 1];
      FilterKeepsPassing(p, keep);
      forall i | 0 <= i < |s| - 1 && keep(s[i])
        ensures s[i] in Filter(s, keep)
      {
        assert s[i] == p[i];
      }
    }
  }

  /** An element that passes the test is in the result. */
  lemma FilterKeeps<T>(s: seq<T>, keep: T -> bool, x: T)
    requires x in s && keep(x)
    ensures x in Filter(s, keep)
  {
    FilterKeepsPassing(s, keep);
    var i :| 0 <= i < |s| && s[i] == x;
  }

  /** An element is in the result exactly when it is in the array and passes the test. */
  lemma FilterMembers<T>(s: seq<T>, keep: T -> bool)
    ensures forall x :: x in Filter(s, keep) <==> x in s && keep(x)
  {
    var r := Filter(s, keep);
    FilterKeepsPassing(s, keep);
    forall x | x in r
      ensures x in s && keep(x)
    {
      var i :| 0 <= i < |r| && r[i] == x;
      assert x in multiset(r);
    }
    forall x | x in s && keep(x)
      ensures x in r
    {
      var i :| 0 <= i < |s| && s[i] == x;
    }
  }

  /** The filter is the identity exactly when every element passes. */
  lemma FilterIdentity<T>(s: seq<T>, keep: T -> bool)
    ensures Filter(s, keep) == s <==> forall i :: 0 <= i < |s| ==> keep(s[i])
  {
    if forall i :: 0 <= i < |s| ==> keep(s[i]) {
      FilterAllPass(s, keep);
    }
  }

  /** When every element passes, nothing is dropped. */
  lemma {:induction false} FilterAllPass<T>(s: seq<T>, keep: T -> bool)
    requires forall i :: 0 <= i < |s| ==> keep(s[i])
    ensures Filter(s, keep) == s
  {
    if |s| > 0 {
      var p := s[..|s| - 1];
      assert forall i :: 0 <= i < |p| ==> keep(p[i]) by {
        forall i | 0 <= i < |p| ensures keep(p[i]) { assert p[i] == s[i]; }
      }
      FilterAllPass(p, keep);
      assert s == p + [s[|s| - 1]];
    }
  }
}
