/**
 * The breeding and mutation of src/population/InstinctPopulation.ts. The
 * selection operator, `Network.crossover` and `mutateRandom` are outside this
 * model and come in as functions; each call of them is told which call it
 * is, which stands for the random draws it makes.
 */
module InstinctPopulation {
  import opened Results
  import opened Population

  /**
   * The `t`-th child of the breeding loop: two selections, the `2t`-th and
   * the `(2t+1)`-th, crossed over.
   */
  function Child<G>(networks: seq<Genome<G>>, t: nat, select: (seq<Genome<G>>, nat) -> Result<Genome<G>>,
                    crossover: (Genome<G>, Genome<G>) -> Genome<G>): Result<Genome<G>> {
    var parent1 :- select(networks, 2 * t);
    var parent2 :- select(networks, 2 * t + 1);
    Ok(crossover(parent1, parent2))
  }

  /** The number of elitists actually copied over: a negative count copies none. */
  function Kept(elitists: int): nat {
    if elitists < 0 then 0 else elitists
  }

  /**
   * `breed`: throws when there are more elitists than the population size;
   * otherwise keeps the first `elitists` networks and fills up to the
   * population size with children. A selection that throws ends the call.
   */
  method Breed<G>(populationSize: nat, networks: seq<Genome<G>>, elitists: int,
                  select: (seq<Genome<G>>, nat) -> Result<Genome<G>>, crossover: (Genome<G>, Genome<G>) -> Genome<G>)
    returns (res: Result<seq<Genome<G>>>)
    requires |networks| == populationSize
    ensures elitists > populationSize ==> res.Err? && res.error.RangeError?
    ensures res.Ok? ==> |res.value| == populationSize
    ensures res.Ok? ==> res.value[..Kept(elitists)] == networks[..Kept(elitists)]
    ensures res.Ok? ==> forall t :: 0 <= t < populationSize - Kept(elitists) ==>
      Child(networks, t, select, crossover) == Ok(res.value[Kept(elitists) + t])
    ensures elitists <= populationSize ==>
      (res.Err? <==> exists t :: 0 <= t < populationSize - Kept(elitists) && Child(networks, t, select, crossover).Err?)
  {
    if elitists > populationSize {
      return Err(RangeError("Can`t evolve! Elitism exceeds population size!"));
    }
    var e := Kept(elitists);
    var next: seq<Genome<G>> := [];
    var i := 0;
    while i < e
      invariant 0 <= i <= e && next == networks[..i]
    {
      next := next + [networks[i]];
      i := i + 1;
    }
    while |next| < populationSize
      invariant e <= |next| <= populationSize
      invariant next[..e] == networks[..e]
      invariant forall t :: 0 <= t < |next| - e ==> Child(networks, t, select, crossover) == Ok(next[e + t])
    {
      var t := |next| - e;
      var child := Child(networks, t, select, crossover);
      if child.Err? {
        return Err(child.error);
      }
      next := next + [child.value];
    }
    res := Ok(next);
  }

  /**
   * Reference definition: `count` calls of `mutateRandom` on network `i`,
   * the `j`-th call being told `(i, j)`.
   */
  function Repeat<G>(mutateRandom: (G, nat, nat) -> G, net: G, i: nat, count: nat): G {
    if count == 0 then net else mutateRandom(Repeat(mutateRandom, net, i, count - 1), i, count - 1)
  }

  /**
   * The test `randDouble() <= mutationRate`. A draw of `None` stands for
   * `NaN`, for which every comparison is false.
   */
  predicate Chosen(draw: Option<real>, mutationRate: real) {
    draw.Some? && draw.value <= mutationRate
  }

  /** Reference definition: what `mutate` leaves at position `i`. */
  function MutatedAt<G>(networks: seq<Genome<G>>, i: nat, elitists: Option<nat>, mutationRate: real, mutationAmount: nat,
                        draws: seq<Option<real>>, mutateRandom: (G, nat, nat) -> G): Genome<G>
    requires i < |networks| && |draws| == |networks|
  {
    if elitists.GetOr(0) <= i && Chosen(draws[i], mutationRate)
    then Genome(Repeat(mutateRandom, networks[i].net, i, mutationAmount), networks[i].score)
    else networks[i]
  }

  /**
   * `mutate`: every network from position `elitists ?? 0` on whose draw passes
   * receives `mutationAmount` calls of `mutateRandom`; the others, and every
   * elitist, are left alone.
   */
  method Mutate<G>(networks: seq<Genome<G>>, elitists: Option<nat>, mutationRate: real, mutationAmount: nat,
                   draws: seq<Option<real>>, mutateRandom: (G, nat, nat) -> G)
    returns (r: seq<Genome<G>>)
    requires |draws| == |networks|
    ensures |r| == |networks|
    ensures forall i :: 0 <= i < |networks| && i < elitists.GetOr(0) ==> r[i] == networks[i]
    ensures forall i :: 0 <= i < |networks| && elitists.GetOr(0) <= i && !Chosen(draws[i], mutationRate) ==>
      r[i] == networks[i]
    ensures forall i :: 0 <= i < |networks| ==>
      r[i] == MutatedAt(networks, i, elitists, mutationRate, mutationAmount, draws, mutateRandom)
  {
    r := networks;
    var i := elitists.GetOr(0);
    while i < |networks|
      invariant |r| == |networks|
      invariant forall k :: 0 <= k < |networks| && (k < elitists.GetOr(0) || i <= k) ==> r[k] == networks[k]
      invariant forall k :: 0 <= k < |networks| && elitists.GetOr(0) <= k < i ==>
        r[k] == MutatedAt(networks, k, elitists, mutationRate, mutationAmount, draws, mutateRandom)
    {
      if Chosen(draws[i], mutationRate) {
        var net := r[i].net;
        var j := 0;
        while j < mutationAmount
          invariant 0 <= j <= mutationAmount
          invariant net == Repeat(mutateRandom, networks[i].net, i, j)
        {
          net := mutateRandom(net, i, j);
          j := j + 1;
        }
        r := r[i := Genome(net, r[i].score)];
      }
      i := i + 1;
    }
  }

  /**
   * With `NaN` draws, which the two-argument `randDouble` of
   * src/utils/Utils.ts yields when called without arguments, nothing is mutated.
   */
  lemma NaNDrawsMutateNothing<G>(networks: seq<Genome<G>>, elitists: Option<nat>, mutationRate: real, mutationAmount: nat,
                                 draws: seq<Option<real>>, mutateRandom: (G, nat, nat) -> G)
    requires |draws| == |networks|
    requires forall i :: 0 <= i < |draws| ==> draws[i].None?
    ensures forall i :: 0 <= i < |networks| ==>
      MutatedAt(networks, i, elitists, mutationRate, mutationAmount, draws, mutateRandom) == networks[i]
  {
  }
}
