/**
 * A JavaScript `Set` as the sequence of its elements in insertion order:
 * `add` appends a new element and ignores one already present, `delete`
 * splices the element out and keeps the order of the rest.
 */
module OrderedSet {
  import ArrayUtils

  /** No element occurs twice. */
  predicate Distinct<T(==)>(s: seq<T>) {
    forall i :: 0 <= i < |s| ==> multiset(s)[s[i]] == 1
  }

  /** The elements held, as a mathematical set. */
  function Elements<T(==)>(s: seq<T>): set<T> {
    set x | x in s
  }

  /** `Set.prototype.add`. */
  function Add<T(==)>(s: seq<T>, x: T): (r: seq<T>)
    ensures x in r
    ensures Elements(r) == Elements(s) + {x}
    ensures x in s ==> r == s
    ensures x !in s ==> r == s + [x]
    ensures Distinct(s) ==> Distinct(r)
  {
    if x in s then s else
      assert multiset(s + [x]) == multiset(s) + multiset{x};
      s + [x]
  }

  /** `Set.prototype.delete`. */
  function Delete<T(==)>(s: seq<T>, x: T): (r: seq<T>)
    requires Distinct(s)
    ensures Distinct(r)
    ensures Elements(r) == Elements(s) - {x}
    ensures |r| == if x in s then |s| - 1 else |s|
    ensures multiset(r) == multiset(s) - multiset{x}
  {
    var (_, rest) := ArrayUtils.RemoveFromArray(s, x);
    DeleteDistinct(s, x);
    rest
  }

  /** Deleting `x` keeps every other element. */
  lemma DeleteMembers<T>(s: seq<T>, x: T)
    requires Distinct(s)
    ensures forall y :: y in Delete(s, x) <==> y in s && y != x
  {
    assert forall y :: y in Delete(s, x) <==> y in Elements(Delete(s, x));
  }

  /** Deleting from a distinct sequence keeps it distinct and drops `x` for good. */
  lemma DeleteDistinct<T>(s: seq<T>, x: T)
    requires Distinct(s)
    ensures var rest := ArrayUtils.RemoveFromArray(s, x).1;
      Distinct(rest) && Elements(rest) == Elements(s) - {x}
  {
    var (found, rest) := ArrayUtils.RemoveFromArray(s, x);
    if found {
      var i :| 0 <= i < |s| && s[i] == x && x !in s[..i] && rest == s[..i] + s[i + 1..];
      SpliceDistinct(s, i);
    }
  }

  /** Splicing one position out of a distinct sequence removes exactly the element held there. */
  lemma SpliceDistinct<T>(s: seq<T>, i: nat)
    requires Distinct(s) && i < |s|
    ensures Distinct(s[..i] + s[i + 1..])
    ensures Elements(s[..i] + s[i + 1..]) == Elements(s) - {s[i]}
  {
    var rest := s[..i] + s[i + 1..];
    assert s == s[..i] + [s[i]] + s[i + 1..];
    assert multiset(rest) == multiset(s) - multiset{s[i]};
    assert forall k :: 0 <= k < |rest| ==> rest[k] == s[if k < i then k else k + 1];
  }

  /** The tail of a distinct sequence is distinct and holds every element but the head. */
  lemma DistinctTail<T>(s: seq<T>)
    requires Distinct(s) && |s| > 0
    ensures Distinct(s[1..]) && Elements(s[1..]) == Elements(s) - {s[0]}
    ensures Elements(s) == {s[0]} + Elements(s[1..])
  {
    assert s == [s[0]] + s[1..];
  }

  /** The number of elements of a distinct sequence is the size of the set it holds. */
  lemma {:induction false} DistinctCardinality<T>(s: seq<T>)
    requires Distinct(s)
    ensures |Elements(s)| == |s|
  {
    if |s| > 0 {
      var p := s[..|s| - 1];
      var last := s[|s| - 1];
      assert s == p + [last];
      assert forall k :: 0 <= k < |p| ==> p[k] == s[k];
      assert Distinct(p);
      DistinctCardinality(p);
      assert last !in p;
      assert Elements(s) == Elements(p) + {last};
    }
  }

  /** In a distinct sequence no two positions hold the same element. */
  lemma DistinctPositions<T>(s: seq<T>, i: nat, j: nat)
    requires Distinct(s) && i < j < |s|
    ensures s[i] != s[j]
  {
    assert s == s[..j] + s[j..];
    assert s[i] in s[..j] && s[j] in s[j..];
  }
}
