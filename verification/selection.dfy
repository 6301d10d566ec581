/**
 * The selection operators of src/methods/Selection.ts. A population is a
 * sequence of genomes and `key` reads a genome's optional score; each
 * `Math.random()` is an explicit draw in [0, 1).
 */
module Selection {
  import opened Results
  import ArrayUtils
  import ScoreOrder

  // ---------------------------------------------------------------------
  // Fitness proportionate (roulette wheel) selection
  // ---------------------------------------------------------------------

  /**
   * The running minimum of the first loop,
   * `minimalFitness = Math.min(genome.score ?? minimalFitness, minimalFitness)`,
   * started at 0.
   */
  function LowestScore(scores: seq<Option<real>>): (m: real)
    ensures m <= 0.0
    ensures forall i :: 0 <= i < |scores| && scores[i].Some? ==> m <= scores[i].value
  {
    if |scores| == 0 then 0.0
    else
      var before := LowestScore(scores[..|scores| - 1]);
      var last := scores[|scores| - 1].GetOr(before);
      assert forall i :: 0 <= i < |scores| - 1 ==> scores[i] == scores[..|scores| - 1][i];
      if last < before then last else before
  }

  /** The shift `Math.abs(minimalFitness)` that makes every slice non-negative. */
  function Shift(scores: seq<Option<real>>): real {
    -LowestScore(scores)
  }

  /** The slice of the wheel a genome occupies: `(score ?? 0) + shift`. */
  function Slice(score: Option<real>, shift: real): real {
    score.GetOr(0.0) + shift
  }

  /** Left fold of `score ?? 0`, the first loop's `totalFitness` before the shift. */
  function ScoreSum(scores: seq<Option<real>>): real {
    if |scores| == 0 then 0.0 else ScoreSum(scores[..|scores| - 1]) + scores[|scores| - 1].GetOr(0.0)
  }

  /** `totalFitness` after `totalFitness += minimalFitness * population.length`. */
  function TotalFitness(scores: seq<Option<real>>): real {
    ScoreSum(scores) + Shift(scores) * |scores| as real
  }

  /** Sum of the first `k` slices: the value of `value` after `k` rounds of the second loop. */
  function Cumulative(scores: seq<Option<real>>, shift: real, k: nat): real
    requires k <= |scores|
  {
    if k == 0 then 0.0 else Cumulative(scores, shift, k - 1) + Slice(scores[k - 1], shift)
  }

  /** Every slice of the wheel is non-negative. */
  lemma SlicesNonNegative(scores: seq<Option<real>>)
    ensures forall i :: 0 <= i < |scores| ==> Slice(scores[i], Shift(scores)) >= 0.0
  {
  }

  /** The slices sum to `totalFitness`. */
  lemma {:induction false} SlicesSumToTotal(scores: seq<Option<real>>, shift: real)
    ensures Cumulative(scores, shift, |scores|) == ScoreSum(scores) + shift * |scores| as real
  {
    if |scores| > 0 {
      var p := scores[..|scores| - 1];
      SlicesSumToTotal(p, shift);
      CumulativePrefix(scores, shift, |scores| - 1);
    }
  }

  /** Cumulative sums only look at the prefix they cover. */
  lemma {:induction false} CumulativePrefix(scores: seq<Option<real>>, shift: real, k: nat)
    requires k <= |scores|
    ensures Cumulative(scores[..k], shift, k) == Cumulative(scores, shift, k)
    decreases k
  {
    if k > 0 {
      assert scores[..k][..k - 1] == scores[..k - 1];
      CumulativePrefix(scores, shift, k - 1);
      CumulativePrefix(scores[..k], shift, k - 1);
    }
  }

  /** Cumulative sums never decrease when every slice is non-negative. */
  lemma {:induction false} CumulativeMonotone(scores: seq<Option<real>>, shift: real, j: nat, k: nat)
    requires j <= k <= |scores|
    requires forall i :: 0 <= i < |scores| ==> Slice(scores[i], shift) >= 0.0
    ensures Cumulative(scores, shift, j) <= Cumulative(scores, shift, k)
  {
    if j < k {
      CumulativeMonotone(scores, shift, j, k - 1);
    }
  }

  /**
   * The second loop: walks the wheel from genome `i`, where `value` already
   * holds the first `i` slices, and stops at the first genome whose running
   * sum exceeds `random`.
   */
  function Spin(scores: seq<Option<real>>, shift: real, random: real, i: nat, value: real): (k: Option<nat>)
    requires i <= |scores|
    requires value == Cumulative(scores, shift, i) && value <= random
    decreases |scores| - i
    ensures k.Some? ==> i <= k.value < |scores|
    ensures k.Some? ==> Cumulative(scores, shift, k.value) <= random < Cumulative(scores, shift, k.value + 1)
    ensures k.None? ==> Cumulative(scores, shift, |scores|) <= random
  {
    if i == |scores| then None
    else
      var next := value + Slice(scores[i], shift);
      if random < next then Some(i) else Spin(scores, shift, random, i + 1, next)
  }

  /**
   * `FitnessProportionateSelection.select`: the index of the chosen genome.
   * `spinDraw` feeds `randDouble(0, totalFitness)`; `pickDraw` feeds the
   * fallback `pickRandom(population)`, which throws on an empty population.
   */
  function FitnessProportionateSelect(scores: seq<Option<real>>, spinDraw: real, pickDraw: real): (res: Result<nat>)
    requires IsDraw(spinDraw) && IsDraw(pickDraw)
    ensures res.Err? <==> |scores| == 0
    ensures res.Err? ==> res.error.RangeError?
    ensures res.Ok? ==> res.value < |scores|
  {
    var shift := Shift(scores);
    var total := TotalFitness(scores);
    SlicesNonNegative(scores);
    SlicesSumToTotal(scores, shift);
    CumulativeMonotone(scores, shift, 0, |scores|);
    var random := ArrayUtils.RandDouble(0.0, total, spinDraw);
    match Spin(scores, shift, random, 0, 0.0)
    case Some(k) => Ok(k)
    case None =>
      if |scores| == 0 then Err(RangeError("Cannot pick from an empty array"))
      else Ok(ArrayUtils.RandInt(0, |scores|, pickDraw))
  }

  /**
   * The wheel always stops when `random = randDouble(0, totalFitness)` is
   * below the total: the chosen genome is the one whose slice contains
   * `random`, so the fallback pick only happens when the total is 0.
   */
  lemma RouletteHitsSlice(scores: seq<Option<real>>, random: real)
    requires 0.0 <= random < TotalFitness(scores)
    ensures var k := Spin(scores, Shift(scores), random, 0, 0.0);
      k.Some? && Cumulative(scores, Shift(scores), k.value) <= random < Cumulative(scores, Shift(scores), k.value + 1)
  {
    SlicesSumToTotal(scores, Shift(scores));
  }

  // ---------------------------------------------------------------------
  // Power selection
  // ---------------------------------------------------------------------

  /** `base ** exponent` for a natural exponent. */
  function Pow(base: real, exponent: nat): real {
    if exponent == 0 then 1.0 else base * Pow(base, exponent - 1)
  }

  /** A draw raised to a positive power is again a draw. */
  lemma {:induction false} PowOfDrawIsDraw(r: real, exponent: nat)
    requires IsDraw(r) && exponent >= 1
    ensures IsDraw(Pow(r, exponent))
  {
    var p := Pow(r, exponent - 1);
    assert Pow(r, exponent) == r * p;
    if exponent == 1 {
      assert p == 1.0;
    } else {
      PowOfDrawIsDraw(r, exponent - 1);
      ArrayUtils.ScaleBelow(r, p);
    }
  }

  /**
   * `PowerSelection.select`: `population[floor(random ** power * length)]`.
   * The read is `undefined` (`None`) when the index falls outside the
   * population, which happens for an empty population or for power 0.
   */
  function PowerSelect(size: nat, power: nat, r: real): (res: Option<nat>)
    requires IsDraw(r)
    ensures res.Some? ==> res.value < size
    ensures size > 0 && power >= 1 ==> res.Some?
    ensures power == 0 ==> res.None?
  {
    var index := (Pow(r, power) * size as real).Floor;
    if power >= 1 then
      PowOfDrawIsDraw(r, power);
      ArrayUtils.ScaleBelow(Pow(r, power), size as real);
      if 0 <= index < size then Some(index) else None
    else
      // `random ** 0` is 1, so the index is the length itself.
      None
  }

  // ---------------------------------------------------------------------
  // Tournament selection
  // ---------------------------------------------------------------------

  /** The tournament entrants: `size` calls of `pickRandom(population)`. */
  function Entrants<T>(population: seq<T>, picks: seq<real>): (e: seq<T>)
    requires |population| > 0
    requires forall t :: 0 <= t < |picks| ==> IsDraw(picks[t])
    ensures |e| == |picks|
    ensures forall t :: 0 <= t < |e| ==> e[t] in population
  {
    if |picks| == 0 then []
    else Entrants(population, picks[..|picks| - 1]) + [population[ArrayUtils.RandInt(0, |population|, picks[|picks| - 1])]]
  }

  /** The position the second loop stops at: the first accepted draw, else the last entrant. */
  function WinnerIndex(accept: seq<real>, probability: real, i: nat): (k: nat)
    requires i < |accept|
    decreases |accept| - i
    ensures i <= k < |accept|
    ensures accept[k] < probability || k == |accept| - 1
    ensures forall j :: i <= j < k ==> !(accept[j] < probability)
  {
    if accept[i] < probability || i == |accept| - 1 then i else WinnerIndex(accept, probability, i + 1)
  }

  /**
   * `TournamentSelection.select`: throws when the tournament is larger than
   * the population; otherwise sorts `size` random entrants by score and
   * returns the first whose draw is below `probability`, or the last.
   * With `size` 0 the loop is skipped and `pickRandom(population)` decides.
   */
  function TournamentSelect<T>(population: seq<T>, key: T -> Option<real>, size: nat, probability: real,
                               picks: seq<real>, accept: seq<real>, fallback: real): (res: Result<T>)
    requires |picks| == size && |accept| == size
    requires forall t :: 0 <= t < size ==> IsDraw(picks[t])
    requires IsDraw(fallback)
    ensures size > |population| ==> res.Err? && res.error.PlainError?
    ensures size == 0 && |population| == 0 ==> res.Err? && res.error.RangeError?
    ensures 0 < |population| && size <= |population| ==> res.Ok?
    ensures res.Ok? ==> res.value in population
    ensures res.Ok? && size >= 1 ==>
      var ranked := ScoreOrder.SortByScore(Entrants(population, picks), key);
      res.value == ranked[WinnerIndex(accept, probability, 0)]
  {
    if size > |population| then
      Err(PlainError("Your tournament size should be lower than the population size, please change methods.selection.TOURNAMENT.size"))
    else if size == 0 then
      match ArrayUtils.PickRandom(population, fallback)
      case Ok(g) => Ok(g)
      case Err(e) => Err(e)
    else
      var ranked := ScoreOrder.SortByScore(Entrants(population, picks), key);
      var k := WinnerIndex(accept, probability, 0);
      assert ranked[k] in multiset(Entrants(population, picks));
      Ok(ranked[k])
  }

  /** The tournament is ranked truthy scores first, in descending order. */
  lemma TournamentRanking<T(!new)>(population: seq<T>, key: T -> Option<real>, picks: seq<real>)
    requires |population| > 0
    requires forall t :: 0 <= t < |picks| ==> IsDraw(picks[t])
    ensures var ranked := ScoreOrder.SortByScore(Entrants(population, picks), key);
      forall i, j :: 0 <= i < j < |ranked| && ScoreOrder.Truthy(key(ranked[j])) ==>
        ScoreOrder.Truthy(key(ranked[i])) && key(ranked[j]).value <= key(ranked[i]).value
  {
    ScoreOrder.SortByScoreSpec(Entrants(population, picks), key);
  }
}
