/**
 * A stable insertion sort under a comparator given as "sorts strictly
 * before". It stands for `Array.prototype.sort` and, when the comparator is
 * a consistent order, for `TimSort.sort`; both are stable, so they agree with
 * it on any comparator that is transitive and whose "neither before the other"
 * relation is an equivalence. An inconsistent comparator (one that calls an
 * element equal to two elements it does order) makes the result depend on
 * TimSort's run detection, which this sort does not model. The result is a permutation in which no element sorts strictly
 * before an element placed earlier, for any transitive comparator, even one
 * that leaves some pairs unordered.
 */
module StableSort {

  /** `before` is transitive. */
  ghost predicate Transitive<T(!new)>(before: (T, T) -> bool) {
    forall a, b, c :: before(a, b) && before(b, c) ==> before(a, c)
  }

  /** `before` is irreflexive. */
  ghost predicate Irreflexive<T(!new)>(before: (T, T) -> bool) {
    forall a :: !before(a, a)
  }

  /** No element sorts strictly before an element placed earlier. */
  ghost predicate Sorted<T>(s: seq<T>, before: (T, T) -> bool) {
    forall i, j :: 0 <= i < j < |s| ==> !before(s[j], s[i])
  }

  /** Stable insertion: `x` goes in front of the first element it sorts strictly before. */
  function Insert<T>(x: T, s: seq<T>, before: (T, T) -> bool): (r: seq<T>)
    ensures |r| == |s| + 1
    ensures multiset(r) == multiset(s) + multiset{x}
  {
    if |s| == 0 then [x]
    else if before(x, s[0]) then [x] + s
    else
      assert s == [s[0]] + s[1..];
      [s[0]] + Insert(x, s[1..], before)
  }

  /** Insertion of each element in turn, left to right. */
  function Sort<T>(s: seq<T>, before: (T, T) -> bool): (r: seq<T>)
    ensures |r| == |s|
    ensures multiset(r) == multiset(s)
  {
    if |s| == 0 then []
    else
      assert s == s[..|s| - 1] + [s[|s| - 1]];
      Insert(s[|s| - 1], Sort(s[..|s| - 1], before), before)
  }

  /** Inserting into a sorted sequence keeps it sorted. */
  lemma {:induction false} InsertSorted<T(!new)>(x: T, s: seq<T>, before: (T, T) -> bool)
    requires Transitive(before) && Irreflexive(before)
    requires Sorted(s, before)
    ensures Sorted(Insert(x, s, before), before)
  {
    if |s| == 0 {
    } else if before(x, s[0]) {
      InsertFrontSorted(x, s, before);
    } else {
      var t := s[1..];
      TailSorted(s, before);
      InsertSorted(x, t, before);
      InsertBehindHead(x, s, before);
    }
  }

  /** Dropping the head of a sorted sequence leaves it sorted. */
  lemma TailSorted<T>(s: seq<T>, before: (T, T) -> bool)
    requires Sorted(s, before) && |s| > 0
    ensures Sorted(s[1..], before)
  {
    var t := s[1..];
    forall i, j | 0 <= i < j < |t|
      ensures !before(t[j], t[i])
    {
      assert t[i] == s[i + 1] && t[j] == s[j + 1];
    }
  }

  /**
   * When `x` does not sort before the head, the head stays in front, and the
   * result is sorted as soon as the insertion into the tail is.
   */
  lemma InsertBehindHead<T>(x: T, s: seq<T>, before: (T, T) -> bool)
    requires Sorted(s, before) && |s| > 0 && !before(x, s[0])
    requires Sorted(Insert(x, s[1..], before), before)
    ensures Sorted(Insert(x, s, before), before)
  {
    var it := Insert(x, s[1..], before);
    var r := [s[0]] + it;
    assert r == Insert(x, s, before);
    forall j | 1 <= j < |r|
      ensures !before(r[j], r[0])
    {
      NotBeforeHead(x, s, before, j - 1);
    }
    forall i, j | 1 <= i < j < |r|
      ensures !before(r[j], r[i])
    {
      assert r[i] == it[i - 1] && r[j] == it[j - 1];
    }
  }

  /** Nothing inserted behind the head of a sorted sequence sorts strictly before that head. */
  lemma NotBeforeHead<T>(x: T, s: seq<T>, before: (T, T) -> bool, m: nat)
    requires Sorted(s, before) && |s| > 0 && !before(x, s[0]) && m < |s|
    ensures !before(Insert(x, s[1..], before)[m], s[0])
  {
    var it := Insert(x, s[1..], before);
    var y := it[m];
    assert y in multiset(it);
    if y != x {
      assert y in multiset(s[1..]);
      var k :| 0 <= k < |s[1..]| && s[1..][k] == y;
      assert s[k + 1] == y;
    }
  }

  /** An element that sorts strictly before the head of a sorted sequence can go in front. */
  lemma InsertFrontSorted<T(!new)>(x: T, s: seq<T>, before: (T, T) -> bool)
    requires Transitive(before) && Irreflexive(before)
    requires Sorted(s, before) && |s| > 0 && before(x, s[0])
    ensures Sorted([x] + s, before)
  {
    var r := [x] + s;
    forall j | 1 <= j < |r|
      ensures !before(r[j], x)
    {
      assert r[j] == s[j - 1];
    }
    forall i, j | 1 <= i < j < |r|
      ensures !before(r[j], r[i])
    {
      assert r[i] == s[i - 1] && r[j] == s[j - 1];
    }
  }

  /** The sort yields a sorted permutation. */
  lemma {:induction false} SortSorted<T(!new)>(s: seq<T>, before: (T, T) -> bool)
    requires Transitive(before) && Irreflexive(before)
    ensures Sorted(Sort(s, before), before)
  {
    if |s| > 0 {
      SortSorted(s[..|s| - 1], before);
      InsertSorted(s[|s| - 1], Sort(s[..|s| - 1], before), before);
    }
  }
}
