/**
 * The generation loop shared by every population, src/population/Population.ts.
 * A genome is a network `net` of some type `G` with its optional score. The
 * network constructor, `deepCopy`, `Network.test` and the fitness function
 * are outside this model and come in as functions; `breed` and `mutate` are
 * abstract in the source and come in the same way.
 */
module Population {
  import opened Results
  import ScoreOrder

  datatype Genome<G> = Genome(net: G, score: Option<real>)

  /** The score a genome is ranked by. */
  function ScoreOf<G>(g: Genome<G>): Option<real> {
    g.score
  }

  /** JavaScript truthiness of an optional size: defined and non-zero. */
  predicate SizeGiven(size: Option<int>) {
    size.Some? && size.value != 0
  }

  /**
   * `createNetworks`: `populationSize` deep copies of the template, or fresh
   * networks when both sizes are truthy. Each `new Network(in, out)` draws
   * its own weights and biases, so `build` also receives the slot it fills.
   * Without either the first round of the loop throws, so an empty
   * population never does.
   */
  method CreateNetworks<G>(populationSize: nat, template: Option<Genome<G>>, inputSize: Option<int>, outputSize: Option<int>,
                           deepCopy: Genome<G> -> Genome<G>, build: (int, int, nat) -> Genome<G>)
    returns (res: Result<seq<Genome<G>>>)
    ensures res.Err? <==> populationSize > 0 && template.None? && !(SizeGiven(inputSize) && SizeGiven(outputSize))
    ensures res.Err? ==> res.error.PlainError?
    ensures res.Ok? ==> |res.value| == populationSize
    ensures res.Ok? && template.Some? ==> forall i :: 0 <= i < |res.value| ==> res.value[i] == deepCopy(template.value)
    ensures res.Ok? && template.None? ==> forall i :: 0 <= i < |res.value| ==>
      res.value[i] == build(inputSize.value, outputSize.value, i)
  {
    if template.None? && !(SizeGiven(inputSize) && SizeGiven(outputSize)) {
      if populationSize > 0 {
        return Err(PlainError("You must provide either a template network or input and output size!"));
      }
      return Ok([]);
    }
    var networks: seq<Genome<G>> := [];
    var i := 0;
    while i < populationSize
      invariant 0 <= i <= populationSize && |networks| == i
      invariant forall k :: 0 <= k < i ==>
        networks[k] == if template.Some? then deepCopy(template.value) else build(inputSize.value, outputSize.value, k)
    {
      var genome := if template.Some? then deepCopy(template.value) else build(inputSize.value, outputSize.value, i);
      networks := networks + [genome];
      i := i + 1;
    }
    res := Ok(networks);
  }

  /** The test of the third branch of `calculateScores`: some network's score is falsy. */
  predicate SomeScoreMissing<G>(networks: seq<Genome<G>>) {
    exists i :: 0 <= i < |networks| && !ScoreOrder.Truthy(networks[i].score)
  }

  /** Reference definition of `calculateScores`, as a value. */
  function Scored<G, D>(networks: seq<Genome<G>>, fitness: Option<seq<Genome<G>> -> seq<Genome<G>>>,
                        dataset: Option<D>, test: (G, D) -> real): Result<seq<Genome<G>>> {
    if fitness.Some? then Ok(fitness.value(networks))
    else if dataset.Some? then
      Ok(seq(|networks|, i requires 0 <= i < |networks| => Genome(networks[i].net, Some(-test(networks[i].net, dataset.value)))))
    else RequireScores(networks)
  }

  /** The third branch of `calculateScores`: every score must already be truthy. */
  function RequireScores<G>(networks: seq<Genome<G>>): (r: Result<seq<Genome<G>>>)
    ensures r.Err? <==> SomeScoreMissing(networks)
    ensures r.Ok? ==> r.value == networks
  {
    if SomeScoreMissing(networks) then
      Err(PlainError("If network scores aren't set, you have to specify a fitness function or a dataset!"))
    else Ok(networks)
  }

  /**
   * `calculateScores`: the fitness function scores the population when given;
   * otherwise a dataset scores each network by `-test(dataset)`; otherwise the
   * scores already set must all be truthy, or the call throws.
   */
  method CalculateScores<G, D>(networks: seq<Genome<G>>, fitness: Option<seq<Genome<G>> -> seq<Genome<G>>>,
                               dataset: Option<D>, test: (G, D) -> real)
    returns (res: Result<seq<Genome<G>>>)
    ensures res.Err? <==> fitness.None? && dataset.None? && SomeScoreMissing(networks)
    ensures res.Err? ==> res.error.PlainError?
    ensures res == Scored(networks, fitness, dataset, test)
    ensures res.Ok? && fitness.Some? ==> res.value == fitness.value(networks)
    ensures res.Ok? && fitness.None? && dataset.Some? ==> |res.value| == |networks|
    ensures res.Ok? && fitness.None? && dataset.Some? ==> forall i :: 0 <= i < |networks| ==>
      res.value[i] == Genome(networks[i].net, Some(-test(networks[i].net, dataset.value)))
    ensures res.Ok? && fitness.None? && dataset.None? ==> res.value == networks
    ensures res.Ok? && fitness.None? && dataset.None? ==> forall i :: 0 <= i < |networks| ==>
      ScoreOrder.Truthy(networks[i].score)
  {
    if fitness.Some? {
      return Ok(fitness.value(networks));
    }
    if dataset.Some? {
      var scored := networks;
      var i := 0;
      while i < |networks|
        invariant 0 <= i <= |networks| && |scored| == |networks|
        invariant forall k :: 0 <= k < i ==> scored[k] == Genome(networks[k].net, Some(-test(networks[k].net, dataset.value)))
        invariant forall k :: i <= k < |networks| ==> scored[k] == networks[k]
      {
        scored := scored[i := scored[i].(score := Some(-test(scored[i].net, dataset.value)))];
        i := i + 1;
      }
      assert scored == Scored(networks, fitness, dataset, test).value;
      return Ok(scored);
    }
    var hasScores := true;
    var i := 0;
    while i < |networks|
      invariant 0 <= i <= |networks|
      invariant hasScores <==> forall k :: 0 <= k < i ==> ScoreOrder.Truthy(networks[k].score)
    {
      if !ScoreOrder.Truthy(networks[i].score) {
        hasScores := false;
      }
      i := i + 1;
    }
    if !hasScores {
      return Err(PlainError("If network scores aren't set, you have to specify a fitness function or a dataset!"));
    }
    res := Ok(networks);
  }

  /** `sortNetworks`: the stable sort by score, truthy scores first and descending. */
  function SortNetworks<G>(networks: seq<Genome<G>>): (r: seq<Genome<G>>)
    ensures multiset(r) == multiset(networks)
  {
    ScoreOrder.SortByScore(networks, ScoreOf)
  }

  /**
   * `getBest`: the first network after sorting, `undefined` for an empty
   * population. Whenever some network has a truthy score, the best one has a
   * truthy score at least as high as every other truthy score.
   */
  function GetBest<G(!new)>(networks: seq<Genome<G>>): (best: Option<Genome<G>>)
    ensures best.None? <==> |networks| == 0
    ensures best.Some? ==> best.value in networks
    ensures best.Some? ==> forall i :: 0 <= i < |networks| && ScoreOrder.Truthy(networks[i].score) ==>
      ScoreOrder.Truthy(best.value.score) && networks[i].score.value <= best.value.score.value
  {
    var sorted := SortNetworks(networks);
    if |sorted| == 0 then None
    else
      ScoreOrder.SortByScoreSpec(networks, ScoreOf);
      assert sorted[0] in multiset(networks);
      assert forall i :: 0 <= i < |networks| ==> networks[i] in multiset(sorted);
      Some(sorted[0])
  }

  /** `network.score = undefined` for every network. */
  function ClearScores<G>(networks: seq<Genome<G>>): (r: seq<Genome<G>>)
    ensures |r| == |networks|
    ensures forall i :: 0 <= i < |r| ==> r[i] == Genome(networks[i].net, None)
  {
    if |networks| == 0 then []
    else ClearScores(networks[..|networks| - 1]) + [Genome(networks[|networks| - 1].net, None)]
  }

  /** The collaborators one pass of `evolve` hands the population to. */
  datatype Collaborators<!G, !D> = Collaborators(
    breed: seq<Genome<G>> -> Result<seq<Genome<G>>>,
    mutate: seq<Genome<G>> -> Result<seq<Genome<G>>>,
    fitness: Option<seq<Genome<G>> -> seq<Genome<G>>>,
    dataset: Option<D>,
    test: (G, D) -> real)

  /**
   * One pass of the `while` loop: breed, sort, mutate, score; then `log`
   * calls `getBest`, which sorts once more, and every score is cleared.
   */
  function Pass<G, D>(networks: seq<Genome<G>>, c: Collaborators<G, D>): (r: Result<seq<Genome<G>>>)
    ensures r.Ok? ==> forall i :: 0 <= i < |r.value| ==> r.value[i].score.None?
  {
    var bred :- c.breed(networks);
    var mutated :- c.mutate(SortNetworks(bred));
    var scored :- Scored(mutated, c.fitness, c.dataset, c.test);
    Ok(ClearScores(SortNetworks(scored)))
  }

  /** Reference definition: `k` steps in a row, stopping at the first that throws. */
  function Iterate<T>(step: T -> Result<T>, x: T, k: nat): Result<T> {
    if k == 0 then Ok(x)
    else
      match Iterate(step, x, k - 1)
      case Err(e) => Err(e)
      case Ok(before) => step(before)
  }

  /** One pass as a step function. */
  function PassStep<G, D>(c: Collaborators<G, D>): seq<Genome<G>> -> Result<seq<Genome<G>>> {
    networks => Pass(networks, c)
  }

  /** Reference definition of `evolve`: the first scoring, then `passes` passes. */
  function Evolution<G, D>(networks: seq<Genome<G>>, c: Collaborators<G, D>, passes: nat): Result<seq<Genome<G>>> {
    match Scored(networks, c.fitness, c.dataset, c.test)
    case Err(e) => Err(e)
    case Ok(first) => Iterate(PassStep(c), first, passes)
  }

  /** The number of passes `evolve` runs from `generation`. */
  function PassCount(generation: nat, iterations: int): nat {
    if iterations > generation then iterations - generation else 0
  }

  /**
   * `evolve`: scores the population once, then runs passes while
   * `generation < iterations`, one generation each; finally `getBest()` sorts
   * the population in place and returns its first network. After at least
   * one pass every score is undefined again.
   */
  method Evolve<G(!new), D>(networks: seq<Genome<G>>, generation: nat, iterations: int, c: Collaborators<G, D>)
    returns (res: Result<(seq<Genome<G>>, nat, Option<Genome<G>>)>)
    ensures res.Err? <==> Evolution(networks, c, PassCount(generation, iterations)).Err?
    ensures res.Ok? ==> res.value.0 == SortNetworks(Evolution(networks, c, PassCount(generation, iterations)).value)
    ensures res.Ok? ==> res.value.1 == generation + PassCount(generation, iterations)
    ensures res.Ok? ==> res.value.2 == GetBest(Evolution(networks, c, PassCount(generation, iterations)).value)
    ensures res.Ok? ==> res.value.2 == (if |res.value.0| == 0 then None else Some(res.value.0[0]))
    ensures res.Ok? && iterations > generation ==> forall i :: 0 <= i < |res.value.0| ==> res.value.0[i].score.None?
  {
    var first := CalculateScores(networks, c.fitness, c.dataset, c.test);
    if first.Err? {
      return Err(first.error);
    }
    var passes := PassCount(generation, iterations);
    EvolutionAfterScoring(networks, c, first.value, passes);
    var last := RunPasses(first.value, passes, c);
    if last.Err? {
      return Err(last.error);
    }
    var best := BestOf(last.value);
    var sorted := SortNetworks(last.value);
    if passes > 0 {
      SortKeepsCleared(last.value);
    }
    res := Ok((sorted, generation + passes, best));
  }

  /** Sorting a population whose scores are all undefined leaves them undefined. */
  lemma SortKeepsCleared<G>(networks: seq<Genome<G>>)
    requires forall i :: 0 <= i < |networks| ==> networks[i].score.None?
    ensures forall i :: 0 <= i < |SortNetworks(networks)| ==> SortNetworks(networks)[i].score.None?
  {
    var sorted := SortNetworks(networks);
    forall i | 0 <= i < |sorted| ensures sorted[i].score.None? {
      assert sorted[i] in multiset(networks);
    }
  }

  /** The `while` loop of `evolve`: `passes` passes in a row, stopping at the first that throws. */
  method RunPasses<G, D>(start: seq<Genome<G>>, passes: nat, c: Collaborators<G, D>) returns (res: Result<seq<Genome<G>>>)
    ensures res == Iterate(PassStep(c), start, passes)
    ensures res.Ok? && passes > 0 ==> forall i :: 0 <= i < |res.value| ==> res.value[i].score.None?
  {
    var current := start;
    var done: nat := 0;
    while done < passes
      invariant done <= passes
      invariant Iterate(PassStep(c), start, done) == Ok(current)
      invariant done > 0 ==> forall i :: 0 <= i < |current| ==> current[i].score.None?
    {
      var next := Pass(current, c);
      IterateOnce(PassStep(c), start, done, current);
      if next.Err? {
        IterateStopsAtFailure(PassStep(c), start, done, passes);
        return Err(next.error);
      }
      current := next.value;
      done := done + 1;
    }
    res := Ok(current);
  }

  /** Once the first scoring succeeds, `evolve` is that many passes from its result. */
  lemma EvolutionAfterScoring<G, D>(networks: seq<Genome<G>>, c: Collaborators<G, D>, first: seq<Genome<G>>, passes: nat)
    requires Scored(networks, c.fitness, c.dataset, c.test) == Ok(first)
    ensures Evolution(networks, c, passes) == Iterate(PassStep(c), first, passes)
  {
  }

  /** One more step after `k` successful ones is the step applied to their result. */
  lemma IterateOnce<T>(step: T -> Result<T>, x: T, k: nat, current: T)
    requires Iterate(step, x, k) == Ok(current)
    ensures Iterate(step, x, k + 1) == step(current)
  {
  }

  /** The final `getBest()` of `evolve`. */
  method BestOf<G(!new)>(networks: seq<Genome<G>>) returns (best: Option<Genome<G>>)
    ensures best == GetBest(networks)
  {
    best := GetBest(networks);
  }

  /** Once step `k + 1` throws, every longer run throws too. */
  lemma {:induction false} IterateStopsAtFailure<T>(step: T -> Result<T>, x: T, k: nat, n: nat)
    requires k < n
    requires Iterate(step, x, k).Ok? && Iterate(step, x, k + 1).Err?
    ensures Iterate(step, x, n) == Iterate(step, x, k + 1)
  {
    if n > k + 1 {
      IterateStopsAtFailure(step, x, k, n - 1);
    }
  }
}
