/**
 * The species of src/architecture/Species.ts. Members are a JavaScript `Set`
 * of genomes, kept as a distinct sequence in insertion order; `key` reads a
 * genome's optional score. The species score is a number that becomes `NaN`
 * (here `None`) when an empty species is evaluated. The genome's back
 * reference `network.species` is not part of this model.
 */
module Species {
  import opened Results
  import ArrayUtils
  import OrderedSet
  import StableSort

  datatype Species<N> = Species(representative: N, score: Option<real>, members: seq<N>)

  /** The members form a set. */
  predicate Valid<N(==)>(sp: Species<N>) {
    OrderedSet.Distinct(sp.members)
  }

  /** The constructor: the representative is the only member and the score is 0. */
  function New<N(==)>(representative: N): (sp: Species<N>)
    ensures Valid(sp)
    ensures OrderedSet.Elements(sp.members) == {representative} && Size(sp) == 1
    ensures sp.representative == representative && sp.score == Some(0.0)
  {
    Species(representative, Some(0.0), [representative])
  }

  /** `size()`: the number of distinct members. */
  function Size<N(==)>(sp: Species<N>): (n: nat)
    ensures Valid(sp) ==> n == |OrderedSet.Elements(sp.members)|
  {
    if Valid(sp) then OrderedSet.DistinctCardinality(sp.members); |sp.members|
    else |sp.members|
  }

  /** `forcePut`: adds a genome to the members; `undefined` is ignored. */
  function ForcePut<N(==)>(sp: Species<N>, network: Option<N>): (r: Species<N>)
    requires Valid(sp)
    ensures Valid(r)
    ensures r.representative == sp.representative && r.score == sp.score
    ensures network.None? ==> r == sp
    ensures network.Some? ==> OrderedSet.Elements(r.members) == OrderedSet.Elements(sp.members) + {network.value}
    ensures network.Some? ==> sp.members <= r.members
  {
    match network
    case None => sp
    case Some(n) => sp.(members := OrderedSet.Add(sp.members, n))
  }

  /**
   * `put`: admits the genome, through `forcePut`, exactly when its distance to
   * the representative is below the threshold. The distance is computed by
   * `Network.distance` and the threshold is `NEAT.SPECIES_DISTANCE_THRESHOLD`,
   * both outside this model, so they come in as numbers.
   */
  function Put<N(==)>(sp: Species<N>, network: N, distance: real, threshold: real): (r: (Species<N>, bool))
    requires Valid(sp)
    ensures Valid(r.0)
    ensures r.1 <==> distance < threshold
    ensures r.1 ==> network in r.0.members && sp.members <= r.0.members
    ensures r.1 ==> OrderedSet.Elements(r.0.members) == OrderedSet.Elements(sp.members) + {network}
    ensures !r.1 ==> r.0 == sp
  {
    if distance < threshold then (ForcePut(sp, Some(network)), true) else (sp, false)
  }

  /** The member scores as `evaluateScore` adds them: `score ?? 0`. */
  function ScoresOrZero<N>(members: seq<N>, key: N -> Option<real>): (s: seq<real>)
    ensures |s| == |members|
    ensures forall i :: 0 <= i < |s| ==> s[i] == key(members[i]).GetOr(0.0)
  {
    if |members| == 0 then []
    else ScoresOrZero(members[..|members| - 1], key) + [key(members[|members| - 1]).GetOr(0.0)]
  }

  /** `evaluateScore`: the mean member score, an undefined score counting as 0; `NaN` when empty. */
  function EvaluateScore<N>(sp: Species<N>, key: N -> Option<real>): (r: Species<N>)
    ensures r.members == sp.members && r.representative == sp.representative
    ensures r.score.None? <==> |sp.members| == 0
    ensures r.score.Some? ==> r.score.value * |sp.members| as real == ArrayUtils.SeqSum(ScoresOrZero(sp.members, key))
  {
    var scores := ScoresOrZero(sp.members, key);
    var mean := ArrayUtils.Avg(scores);
    sp.(score := mean)
  }

  /** The evaluated score lies within any bounds that hold for every member's `score ?? 0`. */
  lemma EvaluateScoreBounds<N>(sp: Species<N>, key: N -> Option<real>, lo: real, hi: real)
    requires |sp.members| > 0
    requires forall i :: 0 <= i < |sp.members| ==> lo <= key(sp.members[i]).GetOr(0.0) <= hi
    ensures var r := EvaluateScore(sp, key); lo <= r.score.value <= hi
  {
    ArrayUtils.AvgBetweenExtrema(ScoresOrZero(sp.members, key), lo, hi);
  }

  // ---------------------------------------------------------------------
  // reset
  // ---------------------------------------------------------------------

  /**
   * `reset` as written: `pickRandom(this.members)` is handed the `Set` itself.
   * A `Set` has no `length`, so the emptiness check passes, `randInt(0,
   * undefined)` is `NaN` and the pick reads `undefined`; the later
   * `this.representative.species = this` then throws a TypeError, whatever
   * the members are.
   */
  function ResetAsWritten<N>(sp: Species<N>): (r: Result<Species<N>>)
    ensures r.Err? && r.error.TypeError?
  {
    Err(TypeError("Cannot set properties of undefined (setting 'species')"))
  }

  /**
   * `reset` as evidently intended: a random member becomes the representative
   * and the only member, and the score goes back to 0. Picking from an empty
   * species throws the RangeError of `pickRandom`.
   */
  function Reset<N(==)>(sp: Species<N>, r: real): (res: Result<Species<N>>)
    requires IsDraw(r)
    ensures res.Err? <==> |sp.members| == 0
    ensures res.Err? ==> res.error.RangeError?
    ensures res.Ok? ==> Valid(res.value)
    ensures res.Ok? ==> res.value.representative in sp.members
    ensures res.Ok? ==> res.value.members == [res.value.representative] && res.value.score == Some(0.0)
  {
    match ArrayUtils.PickRandom(sp.members, r)
    case Err(e) => Err(e)
    case Ok(rep) => Ok(New(rep))
  }

  /** On a one-member species the written `reset` throws where the intended one succeeds. */
  lemma ResetDiscrepancy<N>(n: N)
    ensures ResetAsWritten(New(n)).Err?
    ensures Reset(New(n), 0.0) == Ok(New(n))
  {
  }

  // ---------------------------------------------------------------------
  // kill
  // ---------------------------------------------------------------------

  /**
   * The order of `kill`: `a` sorts strictly before `b` when both scores are
   * defined and `a`'s is smaller (the comparator returns 0 as soon as one
   * score is undefined).
   */
  function Ascending<N>(key: N -> Option<real>): (N, N) -> bool {
    (a: N, b: N) => key(a).Some? && key(b).Some? && key(a).value < key(b).value
  }

  /** The members ranked as `kill` ranks them, lowest score first. */
  function Ranked<N>(sp: Species<N>, key: N -> Option<real>): (s: seq<N>)
    ensures multiset(s) == multiset(sp.members)
  {
    StableSort.Sort(sp.members, Ascending(key))
  }

  /** `Math.floor(percentage * size)`, the number of members `kill` walks over. */
  function KillAmount(percentage: real, size: nat): int {
    (percentage * size as real).Floor
  }

  /** Every member has a defined score, so `kill`'s comparator is a consistent order. */
  predicate AllScored<N>(members: seq<N>, key: N -> Option<real>) {
    forall i :: 0 <= i < |members| ==> key(members[i]).Some?
  }

  /**
   * `kill(percentage)`: ranks the members, then deletes the first
   * `floor(percentage * size)` of them. When that amount exceeds the size the
   * loop reads past the ranking and throws a TypeError on `arr[i].species`;
   * a negative amount deletes nothing. The ranking is `TimSort.sort` under a
   * comparator that calls every pair with an undefined score equal; only when
   * every member is scored is that a consistent order, whose stable sort is
   * unique, so only then do the ensures name which members go.
   */
  method Kill<N(==,!new)>(sp: Species<N>, key: N -> Option<real>, percentage: real) returns (res: Result<Species<N>>)
    requires Valid(sp)
    ensures res.Err? <==> KillAmount(percentage, |sp.members|) > |sp.members|
    ensures res.Err? ==> res.error.TypeError?
    ensures res.Ok? ==> Valid(res.value)
    ensures res.Ok? ==> res.value.representative == sp.representative && res.value.score == sp.score
    ensures res.Ok? ==> var cut := if KillAmount(percentage, |sp.members|) < 0 then 0 else KillAmount(percentage, |sp.members|);
      |res.value.members| == |sp.members| - cut && multiset(res.value.members) <= multiset(sp.members)
    ensures res.Ok? && AllScored(sp.members, key) ==>
      var cut := if KillAmount(percentage, |sp.members|) < 0 then 0 else KillAmount(percentage, |sp.members|);
      multiset(res.value.members) == multiset(sp.members) - multiset(Ranked(sp, key)[..cut])
    ensures res.Ok? && AllScored(sp.members, key) ==>
      var cut := if KillAmount(percentage, |sp.members|) < 0 then 0 else KillAmount(percentage, |sp.members|);
      forall i, y :: 0 <= i < cut && y in res.value.members ==> AtMost(key(Ranked(sp, key)[i]), key(y))
  {
    var ranked := Ranked(sp, key);
    var amount := KillAmount(percentage, |sp.members|);
    if amount > |sp.members| {
      return Err(TypeError("Cannot set properties of undefined (setting 'species')"));
    }
    var cut: nat := if amount < 0 then 0 else amount;
    var survivors := DeleteRankedPrefix(sp.members, ranked, cut);
    if AllScored(sp.members, key) {
      KillRemovesLowest(sp, key, cut, survivors);
    }
    res := Ok(sp.(members := survivors));
  }

  /** The deletion loop of `kill`: deletes `ranked[0]`, ..., `ranked[cut - 1]` one by one. */
  method DeleteRankedPrefix<N(==)>(members: seq<N>, ranked: seq<N>, cut: nat) returns (rest: seq<N>)
    requires OrderedSet.Distinct(members)
    requires multiset(ranked) == multiset(members) && cut <= |ranked|
    ensures OrderedSet.Distinct(rest)
    ensures |rest| == |members| - cut
    ensures multiset(rest) == multiset(members) - multiset(ranked[..cut])
  {
    rest := members;
    var i := 0;
    while i < cut
      invariant 0 <= i <= cut
      invariant OrderedSet.Distinct(rest)
      invariant |rest| == |members| - i
      invariant multiset(rest) == multiset(members) - multiset(ranked[..i])
    {
      DeleteNextRanked(members, ranked, rest, i);
      rest := OrderedSet.Delete(rest, ranked[i]);
      i := i + 1;
    }
  }

  /** One step of the deletion loop: the next ranked member is present, and deleting it extends the deleted prefix. */
  lemma DeleteNextRanked<N>(members: seq<N>, ranked: seq<N>, rest: seq<N>, i: nat)
    requires OrderedSet.Distinct(rest) && multiset(ranked) == multiset(members) && i < |ranked|
    requires multiset(rest) == multiset(members) - multiset(ranked[..i])
    ensures ranked[i] in rest
    ensures multiset(OrderedSet.Delete(rest, ranked[i])) == multiset(members) - multiset(ranked[..i + 1])
  {
    RankedPrefixPresent(members, ranked, i);
    assert ranked[..i + 1] == ranked[..i] + [ranked[i]];
  }

  /** The next ranked member is still present after the ones before it were deleted. */
  lemma RankedPrefixPresent<N>(members: seq<N>, ranked: seq<N>, i: nat)
    requires multiset(ranked) == multiset(members) && i < |ranked|
    ensures ranked[i] in multiset(members) - multiset(ranked[..i])
  {
    assert ranked == ranked[..i] + [ranked[i]] + ranked[i + 1..];
    assert multiset(ranked) == multiset(ranked[..i]) + multiset{ranked[i]} + multiset(ranked[i + 1..]);
  }

  /** With every member scored, the ranking lists the scores in ascending order. */
  lemma RankedAscending<N(!new)>(sp: Species<N>, key: N -> Option<real>)
    requires AllScored(sp.members, key)
    ensures AllScored(Ranked(sp, key), key)
    ensures forall i, j :: 0 <= i < j < |Ranked(sp, key)| ==> key(Ranked(sp, key)[i]).value <= key(Ranked(sp, key)[j]).value
  {
    var ranked := Ranked(sp, key);
    var before := Ascending(key);
    forall i | 0 <= i < |ranked| ensures key(ranked[i]).Some? {
      assert ranked[i] in multiset(sp.members);
    }
    forall a, b, c
      ensures before(a, b) && before(b, c) ==> before(a, c)
      ensures !before(a, a)
    {
    }
    StableSort.SortSorted(sp.members, before);
  }

  /** Both scores are defined and the first is at most the second. */
  predicate AtMost(a: Option<real>, b: Option<real>) {
    a.Some? && b.Some? && a.value <= b.value
  }

  /**
   * With every member scored, `kill` deletes the lowest scores: a deleted
   * member's score is at most any surviving member's score.
   */
  lemma KillRemovesLowest<N(!new)>(sp: Species<N>, key: N -> Option<real>, cut: nat, survivors: seq<N>)
    requires cut <= |sp.members| && AllScored(sp.members, key)
    requires multiset(survivors) == multiset(sp.members) - multiset(Ranked(sp, key)[..cut])
    ensures forall i, y :: 0 <= i < cut && y in survivors ==> AtMost(key(Ranked(sp, key)[i]), key(y))
  {
    var ranked := Ranked(sp, key);
    RankedAscending(sp, key);
    assert ranked == ranked[..cut] + ranked[cut..];
    assert multiset(ranked) == multiset(ranked[..cut]) + multiset(ranked[cut..]);
    forall i, y | 0 <= i < cut && y in survivors
      ensures AtMost(key(ranked[i]), key(y))
    {
      assert y in multiset(survivors);
      assert y in multiset(ranked[cut..]);
      var j :| cut <= j < |ranked| && ranked[j] == y by {
        assert y in ranked[cut..];
        var k :| 0 <= k < |ranked[cut..]| && ranked[cut..][k] == y;
        assert ranked[cut + k] == y;
      }
    }
  }

  // ---------------------------------------------------------------------
  // getBest
  // ---------------------------------------------------------------------

  /** `a > b` on scores read through `score ?? -Infinity`. */
  predicate Exceeds(a: Option<real>, b: Option<real>) {
    a.Some? && (b.None? || b.value < a.value)
  }

  /**
   * `getBest`: `maxValueIndex` over `score ?? -Infinity`, so the first member
   * holding a maximal score; `undefined` for an empty species.
   */
  method GetBest<N>(sp: Species<N>, key: N -> Option<real>) returns (best: Option<N>)
    ensures best.None? <==> |sp.members| == 0
    ensures best.Some? ==> exists k :: 0 <= k < |sp.members| && sp.members[k] == best.value &&
                                     (forall j :: 0 <= j < k ==> Exceeds(key(best.value), key(sp.members[j])))
    ensures best.Some? ==> forall j :: 0 <= j < |sp.members| ==> !Exceeds(key(sp.members[j]), key(best.value))
  {
    var m := sp.members;
    if |m| == 0 {
      return None;
    }
    var k := 0;
    var i := 1;
    while i < |m|
      invariant 1 <= i <= |m| && k < i
      invariant forall j :: 0 <= j < i ==> !Exceeds(key(m[j]), key(m[k]))
      invariant forall j :: 0 <= j < k ==> Exceeds(key(m[k]), key(m[j]))
    {
      if Exceeds(key(m[i]), key(m[k])) {
        k := i;
      }
      i := i + 1;
    }
    best := Some(m[k]);
  }
}
