/**
 * The score ordering shared by `Population.sortNetworks`, the tournament of
 * `TournamentSelection` and `NEATPopulation.sortSpecies`:
 *
 *   if (a.score && b.score) return b.score - a.score;
 *   else if (a.score) return -1; else if (b.score) return 1; else return 0;
 *
 * Scores are tested for JavaScript truthiness, so a score of 0 counts as
 * "no score". `Array.prototype.sort` is stable, which the model reproduces
 * with a stable insertion sort.
 */
module ScoreOrder {
  import opened Results
  import StableSort

  /** JavaScript truthiness of a score: defined and non-zero. */
  predicate Truthy(s: Option<real>) {
    s.Some? && s.value != 0.0
  }

  /** `a` sorts strictly before `b`: the comparator returns a negative number. */
  predicate Before(a: Option<real>, b: Option<real>) {
    Truthy(a) && (!Truthy(b) || b.value < a.value)
  }

  /** The comparator as written, for the record: its sign decides `Before`. */
  function Compare(a: Option<real>, b: Option<real>): (c: real)
    ensures c < 0.0 <==> Before(a, b)
    ensures c > 0.0 <==> Before(b, a)
  {
    if Truthy(a) && Truthy(b) then b.value - a.value
    else if Truthy(a) then -1.0
    else if Truthy(b) then 1.0
    else 0.0
  }

  /** `Before` is irreflexive and transitive. */
  lemma BeforeStrictOrder(a: Option<real>, b: Option<real>, c: Option<real>)
    ensures !Before(a, a)
    ensures Before(a, b) && Before(b, c) ==> Before(a, c)
  {
  }

  /** The comparator on genomes: by score, read through `key`. */
  function ByScore<T>(key: T -> Option<real>): (T, T) -> bool {
    (a: T, b: T) => Before(key(a), key(b))
  }

  /** The sort of `sortNetworks`: stable, by score. */
  function SortByScore<T>(s: seq<T>, key: T -> Option<real>): (r: seq<T>)
    ensures |r| == |s|
    ensures multiset(r) == multiset(s)
  {
    StableSort.Sort(s, ByScore(key))
  }

  /**
   * The sorted order of `sortNetworks`: a permutation in which every entry
   * with a truthy score precedes every entry without one, and truthy scores
   * descend.
   */
  lemma SortByScoreSpec<T(!new)>(s: seq<T>, key: T -> Option<real>)
    ensures multiset(SortByScore(s, key)) == multiset(s)
    ensures var r := SortByScore(s, key);
      forall i, j :: 0 <= i < j < |r| && Truthy(key(r[j])) ==>
        Truthy(key(r[i])) && key(r[j]).value <= key(r[i]).value
  {
    var before := ByScore(key);
    forall a, b, c
      ensures before(a, b) && before(b, c) ==> before(a, c)
      ensures !before(a, a)
    {
      BeforeStrictOrder(key(a), key(b), key(c));
    }
    StableSort.SortSorted(s, before);
    var r := SortByScore(s, key);
    forall i, j | 0 <= i < j < |r| && Truthy(key(r[j]))
      ensures Truthy(key(r[i])) && key(r[j]).value <= key(r[i]).value
    {
      assert !before(r[j], r[i]);
    }
  }
}
