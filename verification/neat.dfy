/**
 * The `NEAT` class of the library (the generation loop behind
 * `Network.evolve`): its constructor defaults, the fitness sort, the
 * mutation of a population, breeding by selection and crossover, and one
 * call of `evolve`, which keeps `elitism` genomes, adds `provenance` copies
 * of the template and fills the rest with mutated offspring.
 *
 * The fitness function, the selection method and the two optional genome
 * filters of `evolve` come in as functions; every `Math.random()` is an
 * explicit draw in [0, 1).
 */
module Neat {
  import opened Results
  import opened Enums
  import opened Graph
  import opened Networks
  import NetworkJson
  import NetworkConstruct
  import Crossover
  import Mutation
  import StableSort
  import ArrayUtils
  import JsArray

  // ---------------------------------------------------------------------
  // Construction
  // ---------------------------------------------------------------------

  /** A dataset entry; only the lengths of its input and output are read. */
  datatype Sample = Sample(inputLength: nat, outputLength: nat)

  /** The constructor options; `undefined` is `None`, and `hasFitness` says whether a fitness function is given. */
  datatype Options = Options(
    hasFitness: bool, dataset: Option<seq<Sample>>, input: Option<nat>, output: Option<nat>,
    generation: Option<nat>, equal: Option<bool>, clear: Option<bool>,
    populationSize: Option<nat>, elitism: Option<nat>, provenance: Option<nat>,
    mutationRate: Option<real>, mutationAmount: Option<nat>,
    mutations: Option<seq<Mutation.Operator>>, activations: Option<seq<Squash>>,
    template: Option<Network>,
    maxNodes: Option<real>, maxConnections: Option<real>, maxGates: Option<real>)

  /** The fields of a `NEAT` object; a limit of `Infinity` is `None`. */
  datatype Neat = Neat(
    input: nat, output: nat, generation: nat, equal: bool, clear: bool,
    populationSize: nat, elitism: nat, provenance: nat,
    mutationRate: real, mutationAmount: nat,
    mutations: seq<Mutation.Operator>, activations: seq<Squash>,
    template: Network,
    maxNodes: Option<real>, maxConnections: Option<real>, maxGates: Option<real>,
    population: seq<Network>)

  /** Every genome is a valid network. */
  ghost predicate AllValid(pop: seq<Network>) {
    forall i :: 0 <= i < |pop| ==> NetValid(pop[i])
  }

  /** The template and every genome are valid networks, and the population has `populationSize` genomes. */
  ghost predicate Sound(t: Neat) {
    NetValid(t.template) && AllValid(t.population) && |t.population| == t.populationSize
  }

  /** `this.input`: the input length of the first sample, else `options.input`, else 0. */
  function InputOf(o: Options): nat {
    if o.dataset.Some? && |o.dataset.value| > 0 then o.dataset.value[0].inputLength else o.input.GetOr(0)
  }

  /** `this.output`, read the same way. */
  function OutputOf(o: Options): nat {
    if o.dataset.Some? && |o.dataset.value| > 0 then o.dataset.value[0].outputLength else o.output.GetOr(0)
  }

  /**
   * `Network.copy`, `Network.crossOver` and `Network.mutate`, handed around
   * as values: the generation loop only needs what `Faithful` says of them,
   * and the proofs about it stay clear of their definitions.
   */
  datatype Operators = Operators(
    copy: Network --> Network,
    cross: (Network, Network, bool, Crossover.Draws) --> Result<Network>,
    mutate: (Mutation.Operator, Network, Mutation.Options, seq<Squash>, seq<real>) --> Result<Network>)

  /** The library's own copy, crossover and mutation. */
  const Library: Operators := Operators(
    n requires NetValid(n) && NetworkJson.Copy(n).Ok? => NetworkJson.Copy(n).value,
    (a, b, equal, draws) requires NetValid(a) && NetValid(b) && Crossover.Fits(draws) => Crossover.CrossOver(a, b, equal, draws),
    (op, n, o, catalog, rolls) requires NetValid(n) && Mutation.Rolls(rolls) => Mutation.Mutate(op, n, o, catalog, rolls))

  /** `r` is a copy of `n` as `copy()` makes it: valid, the same sizes and node contents, no score. */
  ghost predicate CopyOf(n: Network, r: Network)
    requires NetValid(n)
  {
    NetValid(r) && r.inputSize == n.inputSize && r.outputSize == n.outputSize && r.score == None &&
    |r.nodes| == |n.nodes| && forall i :: 0 <= i < |n.nodes| ==> r.heap.nodes[r.nodes[i]] == n.heap.nodes[n.nodes[i]]
  }

  /** The mutation result keeps the network valid and its input and output sizes. */
  ghost predicate MutantOf(n: Network, r: Result<Network>) {
    r.Ok? ==> NetValid(r.value) && r.value.inputSize == n.inputSize && r.value.outputSize == n.outputSize
  }

  /** `copy` is defined on every valid network and copies it. */
  ghost predicate CopiesFaithfully(ops: Operators) {
    forall n {:trigger ops.copy.requires(n)} {:trigger ops.copy(n)} ::
      NetValid(n) ==> ops.copy.requires(n) && CopyOf(n, ops.copy(n))
  }

  /** `cross` is defined on valid parents and breeds a valid child. */
  ghost predicate CrossesFaithfully(ops: Operators) {
    forall a, b, equal, draws {:trigger ops.cross.requires(a, b, equal, draws)} {:trigger ops.cross(a, b, equal, draws)} ::
      NetValid(a) && NetValid(b) && Crossover.Fits(draws) ==>
      ops.cross.requires(a, b, equal, draws) &&
      (ops.cross(a, b, equal, draws).Ok? ==> NetValid(ops.cross(a, b, equal, draws).value))
  }

  /** `mutate` is defined on valid networks and keeps them valid. */
  ghost predicate MutatesFaithfully(ops: Operators) {
    forall op, n, o, catalog, rolls {:trigger ops.mutate.requires(op, n, o, catalog, rolls)} {:trigger ops.mutate(op, n, o, catalog, rolls)} ::
      NetValid(n) && Mutation.Rolls(rolls) ==>
      ops.mutate.requires(op, n, o, catalog, rolls) && MutantOf(n, ops.mutate(op, n, o, catalog, rolls))
  }

  /** What the generation loop relies on: every operator keeps networks valid. */
  ghost predicate Faithful(ops: Operators) {
    CopiesFaithfully(ops) && CrossesFaithfully(ops) && MutatesFaithfully(ops)
  }

  /**
   * The operators are the library's: `cross` is `CrossOver` and `mutate` is
   * `Mutate` wherever those are defined (`copy` is `Copy` by `LibraryCopy`).
   */
  ghost predicate Genuine(ops: Operators) {
    (forall a, b, equal, draws {:trigger Crossover.CrossOver(a, b, equal, draws)} ::
      NetValid(a) && NetValid(b) && Crossover.Fits(draws) ==>
      ops.cross.requires(a, b, equal, draws) && ops.cross(a, b, equal, draws) == Crossover.CrossOver(a, b, equal, draws)) &&
    (forall op, n, o, catalog, rolls {:trigger Mutation.Mutate(op, n, o, catalog, rolls)} ::
      NetValid(n) && Mutation.Rolls(rolls) ==>
      ops.mutate.requires(op, n, o, catalog, rolls) && ops.mutate(op, n, o, catalog, rolls) == Mutation.Mutate(op, n, o, catalog, rolls))
  }

  /** The library's operators are faithful and genuine. */
  lemma LibraryFaithful()
    ensures Faithful(Library) && Genuine(Library)
  {
    LibraryCopies();
    LibraryCrosses();
    LibraryMutates();
  }

  /** The library's copy is defined on every valid network and copies it. */
  lemma LibraryCopies()
    ensures CopiesFaithfully(Library)
  {
    forall n | NetValid(n)
      ensures Library.copy.requires(n) && CopyOf(n, Library.copy(n))
    {
      CopyCopies(n);
    }
  }

  /** The library's copy is `Copy`. */
  lemma LibraryCopy(n: Network)
    requires NetValid(n)
    ensures Library.copy.requires(n) && NetworkJson.Copy(n) == Ok(Library.copy(n))
  {
    NetworkJson.CopyNodes(n);
  }

  /** The library's copy is defined on a valid network and makes a copy of it. */
  lemma CopyCopies(n: Network)
    requires NetValid(n)
    ensures Library.copy.requires(n) && CopyOf(n, Library.copy(n))
  {
    NetworkJson.CopyNodes(n);
  }

  /** The library's crossover is `CrossOver`, which breeds valid children. */
  lemma LibraryCrosses()
    ensures CrossesFaithfully(Library)
    ensures forall a, b, equal, draws {:trigger Crossover.CrossOver(a, b, equal, draws)} ::
      NetValid(a) && NetValid(b) && Crossover.Fits(draws) ==>
      Library.cross.requires(a, b, equal, draws) && Library.cross(a, b, equal, draws) == Crossover.CrossOver(a, b, equal, draws)
  {
  }

  /** The library's mutation is `Mutate`, which keeps networks valid. */
  lemma LibraryMutates()
    ensures MutatesFaithfully(Library)
    ensures forall op, n, o, catalog, rolls {:trigger Mutation.Mutate(op, n, o, catalog, rolls)} ::
      NetValid(n) && Mutation.Rolls(rolls) ==>
      Library.mutate.requires(op, n, o, catalog, rolls) && Library.mutate(op, n, o, catalog, rolls) == Mutation.Mutate(op, n, o, catalog, rolls)
  {
  }

  /** `network.copy()`: never throws; a renumbered copy with no score. */
  function Clone(ops: Operators, n: Network): (r: Network)
    requires Faithful(ops) && NetValid(n)
    ensures CopyOf(n, r)
  {
    ops.copy(n)
  }

  /**
   * The constructor: a `ReferenceError` without a fitness function;
   * otherwise every option falls back to its default, and the population is
   * `populationSize` copies of the template. The default template, `new
   * Network(input, output)`, is built (and draws its biases and weights)
   * whether or not a template is given.
   */
  function Create(o: Options, ops: Operators, draws: seq<real>, weights: seq<real>, catalog: seq<Squash>): (r: Result<Neat>)
    requires Faithful(ops) && (o.template.Some? ==> NetValid(o.template.value))
    requires |draws| == InputOf(o) + OutputOf(o) && Mutation.Rolls(draws)
    requires |weights| == InputOf(o) * OutputOf(o)
    ensures r.Err? <==> !o.hasFitness
    ensures r.Err? ==> r.error == ReferenceError("No fitness function given!")
    ensures r.Ok? ==> Sound(r.value) && r.value.generation == o.generation.GetOr(0)
    ensures r.Ok? ==> r.value.input == InputOf(o) && r.value.output == OutputOf(o)
    ensures r.Ok? && o.template.None? ==>
      r.value.template.inputSize == InputOf(o) && r.value.template.outputSize == OutputOf(o) && r.value.template.score == None
    ensures r.Ok? && o.template.Some? ==> r.value.template == o.template.value
    ensures r.Ok? ==> forall i :: 0 <= i < |r.value.population| ==> r.value.population[i] == Clone(ops, r.value.template)
    ensures r.Ok? ==> r.value.populationSize == o.populationSize.GetOr(50) && r.value.elitism == o.elitism.GetOr(2) &&
                      r.value.provenance == o.provenance.GetOr(0)
    ensures r.Ok? ==> r.value.mutationRate == o.mutationRate.GetOr(0.6) && r.value.mutationAmount == o.mutationAmount.GetOr(5)
    ensures r.Ok? ==> r.value.equal == o.equal.GetOr(true) && r.value.clear == o.clear.GetOr(false)
    ensures r.Ok? ==> r.value.mutations == o.mutations.GetOr(Mutation.FeedForwardMutations) &&
                      r.value.activations == o.activations.GetOr(catalog)
    ensures r.Ok? ==> r.value.maxNodes == o.maxNodes && r.value.maxConnections == o.maxConnections && r.value.maxGates == o.maxGates
  {
    if !o.hasFitness then Err(ReferenceError("No fitness function given!"))
    else
      var built := NetworkConstruct.New(InputOf(o), OutputOf(o), draws, weights);
      var template := o.template.GetOr(built);
      var size := o.populationSize.GetOr(50);
      var population := Populate(ops, template, size);
      Ok(Neat(InputOf(o), OutputOf(o), o.generation.GetOr(0), o.equal.GetOr(true), o.clear.GetOr(false),
              size, o.elitism.GetOr(2), o.provenance.GetOr(0), o.mutationRate.GetOr(0.6), o.mutationAmount.GetOr(5),
              o.mutations.GetOr(Mutation.FeedForwardMutations), o.activations.GetOr(catalog), template,
              o.maxNodes, o.maxConnections, o.maxGates, population))
  }

  /** The constructor's population: `size` results of `template.copy()`. */
  function Populate(ops: Operators, template: Network, size: nat): (r: seq<Network>)
    requires Faithful(ops) && NetValid(template)
    ensures |r| == size && AllValid(r)
    ensures forall i :: 0 <= i < size ==> r[i] == Clone(ops, template)
  {
    seq(size, _ => Clone(ops, template))
  }

  // ---------------------------------------------------------------------
  // Sorting and scoring
  // ---------------------------------------------------------------------

  /**
   * The comparator of `NEAT.sort`, `b.score - a.score` when both scores are
   * defined and 0 otherwise: `a` goes strictly first when both are scored
   * and its score is higher.
   */
  predicate Fitter(a: Network, b: Network) {
    a.score.Some? && b.score.Some? && b.score.value < a.score.value
  }

  /** `NEAT.sort`: a stable sort by descending score. */
  function SortPopulation(pop: seq<Network>): (r: seq<Network>)
    ensures |r| == |pop| && multiset(r) == multiset(pop)
  {
    StableSort.Sort(pop, Fitter)
  }

  /** Every genome has a score. */
  predicate AllScored(pop: seq<Network>) {
    forall i :: 0 <= i < |pop| ==> pop[i].score.Some?
  }

  /** When every genome is scored, the sort leaves the scores in descending order. */
  lemma SortDescends(pop: seq<Network>)
    requires AllScored(pop)
    ensures var r := SortPopulation(pop);
      AllScored(r) && forall i, j :: 0 <= i < j < |r| ==> r[j].score.value <= r[i].score.value
  {
    forall a: Network, b: Network, c: Network
      ensures Fitter(a, b) && Fitter(b, c) ==> Fitter(a, c)
      ensures !Fitter(a, a)
    {
    }
    StableSort.SortSorted(pop, Fitter);
    var r := SortPopulation(pop);
    forall i | 0 <= i < |r|
      ensures r[i].score.Some?
    {
      assert r[i] in multiset(pop);
    }
  }

  /** Sorting keeps every genome valid. */
  lemma SortValid(pop: seq<Network>)
    requires AllValid(pop)
    ensures AllValid(SortPopulation(pop))
  {
    var r := SortPopulation(pop);
    forall i | 0 <= i < |r|
      ensures NetValid(r[i])
    {
      assert r[i] in multiset(pop);
    }
  }

  /** The fitness function sets `score` on the genomes it is handed; entry `i` of its result is the score of genome `i`. */
  function Score(pop: seq<Network>, scores: seq<Option<real>>): (r: seq<Network>)
    ensures |r| == |pop|
    ensures forall i :: 0 <= i < |r| ==> r[i] == pop[i].(score := if i < |scores| then scores[i] else pop[i].score)
  {
    seq(|pop|, i requires 0 <= i < |pop| => pop[i].(score := if i < |scores| then scores[i] else pop[i].score))
  }

  /** `evaluate`: the fitness function scores the population, which is then sorted. */
  function Evaluate(pop: seq<Network>, fitness: seq<Network> -> seq<Option<real>>): (r: seq<Network>)
    requires AllValid(pop)
    ensures AllValid(r) && |r| == |pop| && multiset(r) == multiset(Score(pop, fitness(pop)))
  {
    var scored := Score(pop, fitness(pop));
    assert forall i :: 0 <= i < |scored| ==> NetValid(scored[i]) by {
      forall i | 0 <= i < |scored| ensures NetValid(scored[i]) {
        Rescored(pop[i], scored[i].score);
      }
    }
    SortValid(scored);
    SortPopulation(scored)
  }

  /** A fitness function that scores every genome leaves the evaluated population in descending order of score. */
  lemma EvaluateDescends(pop: seq<Network>, fitness: seq<Network> -> seq<Option<real>>)
    requires AllValid(pop)
    requires |fitness(pop)| >= |pop| && forall i :: 0 <= i < |pop| ==> fitness(pop)[i].Some?
    ensures var r := Evaluate(pop, fitness);
      forall i, j :: 0 <= i < j < |r| ==> r[i].score.Some? && r[j].score.Some? && r[j].score.value <= r[i].score.value
  {
    var scored := Score(pop, fitness(pop));
    assert AllScored(scored);
    SortDescends(scored);
  }

  /** `genome.score = undefined` for every genome. */
  function Unscored(pop: seq<Network>): (r: seq<Network>)
    ensures |r| == |pop| && forall i :: 0 <= i < |r| ==> r[i] == pop[i].(score := None)
  {
    seq(|pop|, i requires 0 <= i < |pop| => pop[i].(score := None))
  }

  // ---------------------------------------------------------------------
  // Mutation
  // ---------------------------------------------------------------------


  /** The operator's name as `constructor.name` reports it for an instance. */
  function ClassName(op: Mutation.Operator): string {
    match op
    case AddNodeMutation(_) => "AddNodeMutation"
    case SubNodeMutation(_) => "SubNodeMutation"
    case AddConnectionMutation => "AddConnectionMutation"
    case SubConnectionMutation => "SubConnectionMutation"
    case ModWeightMutation(_, _) => "ModWeightMutation"
    case ModBiasMutation(_, _) => "ModBiasMutation"
    case ModActivationMutation(_) => "ModActivationMutation"
    case AddSelfConnectionMutation => "AddSelfConnectionMutation"
    case SubSelfConnectionMutation => "SubSelfConnectionMutation"
    case AddGateMutation => "AddGateMutation"
    case SubGateMutation => "SubGateMutation"
    case AddBackConnectionMutation => "AddBackConnectionMutation"
    case SubBackConnectionMutation => "SubBackConnectionMutation"
    case SwapNodesMutation(_) => "SwapNodesMutation"
  }

  /** `AddNodeMutation.constructor.name`: the constructor of a class is `Function`. */
  const ClassOfClass: string := "Function"

  /** `size < limit`, with `Infinity` as `None`. */
  predicate Below(size: nat, limit: Option<real>) {
    limit.None? || (size as real) < limit.value
  }

  /**
   * The filter of `NEAT.mutateRandom` as written: each limit test is
   * or-ed with a comparison of the method's class name against
   * `AddNodeMutation.constructor.name` (and the same for the other two),
   * which is `Function` and so never equal.
   */
  function AllowedAsWritten(t: Neat, n: Network): (r: seq<Mutation.Operator>) {
    JsArray.Filter(t.mutations, op =>
      ClassName(op) != ClassOfClass || Below(|n.nodes|, t.maxNodes) ||
      ClassName(op) != ClassOfClass || Below(|n.connections|, t.maxConnections) ||
      ClassName(op) != ClassOfClass || Below(|n.gates|, t.maxGates))
  }

  /** No operator instance has the class name of a class. */
  lemma NoInstanceIsAClass(op: Mutation.Operator)
    ensures ClassName(op) != ClassOfClass
  {
    assert ClassName(op)[0] != ClassOfClass[0];
  }

  /** As written the filter keeps every method, whatever the limits. */
  lemma AllowedAsWrittenKeepsAll(t: Neat, n: Network)
    ensures AllowedAsWritten(t, n) == t.mutations
  {
    var keep := (op: Mutation.Operator) =>
      ClassName(op) != ClassOfClass || Below(|n.nodes|, t.maxNodes) ||
      ClassName(op) != ClassOfClass || Below(|n.connections|, t.maxConnections) ||
      ClassName(op) != ClassOfClass || Below(|n.gates|, t.maxGates);
    forall i | 0 <= i < |t.mutations| ensures keep(t.mutations[i]) {
      NoInstanceIsAClass(t.mutations[i]);
    }
    JsArray.FilterAllPass(t.mutations, keep);
  }

  /** A network at its node limit, with `AddNodeMutation` listed: the filter as written still offers it. */
  lemma LimitIgnoredWitness(n: Network)
    requires |n.nodes| > 0
    ensures var t := Neat(0, 0, 0, true, false, 0, 0, 0, 0.6, 5, [Mutation.AddNodeMutation(true)], [], n,
                          Some(|n.nodes| as real), None, None, []);
      !Below(|n.nodes|, t.maxNodes) && AllowedAsWritten(t, n) == [Mutation.AddNodeMutation(true)] && Allowed(t, n) == []
  {
    var t := Neat(0, 0, 0, true, false, 0, 0, 0, 0.6, 5, [Mutation.AddNodeMutation(true)], [], n,
                  Some(|n.nodes| as real), None, None, []);
    AllowedAsWrittenKeepsAll(t, n);
    JsArray.FilterMembers(t.mutations, op => Permitted(t, n, op));
  }

  /** A method is offered unless it would grow the network past one of the three limits. */
  predicate Permitted(t: Neat, n: Network, op: Mutation.Operator) {
    (op.AddNodeMutation? ==> Below(|n.nodes|, t.maxNodes)) &&
    (op.AddConnectionMutation? ==> Below(|n.connections|, t.maxConnections)) &&
    (op.AddGateMutation? ==> Below(|n.gates|, t.maxGates))
  }

  /**
   * The filter of `NEAT.mutateRandom` as intended: `AddNodeMutation` only
   * below `maxNodes`, `AddConnectionMutation` only below
   * `maxConnections`, `AddGateMutation` only below `maxGates`.
   */
  function Allowed(t: Neat, n: Network): (r: seq<Mutation.Operator>)
    ensures forall op :: op in r <==> op in t.mutations && Permitted(t, n, op)
  {
    var keep := op => Permitted(t, n, op);
    JsArray.FilterMembers(t.mutations, keep);
    JsArray.Filter(t.mutations, keep)
  }

  /**
   * `NEAT.mutateRandom(network)`: a random allowed method, applied with the
   * options `{allowedActivations: activations}` only, so the operators see
   * no limits of their own; a `RangeError` when no method is allowed.
   */
  function MutateRandom(t: Neat, ops: Operators, n: Network, catalog: seq<Squash>, rolls: seq<real>): (r: Result<Network>)
    requires Faithful(ops) && NetValid(n) && Mutation.Rolls(rolls)
    ensures |Allowed(t, n)| == 0 ==> r == Err(RangeError("Cannot pick from an empty array"))
    ensures |Allowed(t, n)| > 0 ==> exists op :: (op in t.mutations && Permitted(t, n, op) &&
      r == ops.mutate(op, n, Mutation.Options(None, None, None, Some(t.activations)), catalog, Mutation.Rest(rolls)))
    ensures r.Ok? ==> NetValid(r.value) && r.value.inputSize == n.inputSize && r.value.outputSize == n.outputSize
  {
    match ArrayUtils.PickRandom(Allowed(t, n), Mutation.Roll(rolls, 0))
    case Err(e) => Err(e)
    case Ok(op) =>
      assert op in Allowed(t, n);
      ops.mutate(op, n, Mutation.Options(None, None, None, Some(t.activations)), catalog, Mutation.Rest(rolls))
  }

  /** One mutation of a genome: `genome.mutate(method)` with no options, or `mutateRandom(genome)`. */
  function MutateOnce(t: Neat, ops: Operators, n: Network, given: Option<Mutation.Operator>, catalog: seq<Squash>, rolls: seq<real>): (r: Result<Network>)
    requires Faithful(ops) && NetValid(n) && Mutation.Rolls(rolls)
    ensures given.Some? ==> r == ops.mutate(given.value, n, Mutation.Options(None, None, None, None), catalog, rolls)
    ensures given.None? ==> r == MutateRandom(t, ops, n, catalog, rolls)
    ensures r.Ok? ==> NetValid(r.value) && r.value.inputSize == n.inputSize && r.value.outputSize == n.outputSize
  {
    match given
    case Some(op) => ops.mutate(op, n, Mutation.Options(None, None, None, None), catalog, rolls)
    case None => MutateRandom(t, ops, n, catalog, rolls)
  }

  /** Every draw list handed out is a list of draws. */
  ghost predicate RollSupply(rolls: (nat, nat) -> seq<real>) {
    forall i, j :: Mutation.Rolls(rolls(i, j))
  }

  /** The first `rounds` mutations of genome `i`; round `j` reads `rolls(i, j)`. */
  function MutateRounds(t: Neat, ops: Operators, n: Network, i: nat, rounds: nat, given: Option<Mutation.Operator>, catalog: seq<Squash>,
                        rolls: (nat, nat) -> seq<real>): (r: Result<Network>)
    requires Faithful(ops) && NetValid(n) && RollSupply(rolls)
    ensures r.Ok? ==> NetValid(r.value) && r.value.inputSize == n.inputSize && r.value.outputSize == n.outputSize
    ensures rounds == 0 ==> r == Ok(n)
    decreases rounds
  {
    if rounds == 0 then Ok(n)
    else
      match MutateRounds(t, ops, n, i, rounds - 1, given, catalog, rolls)
      case Err(e) => Err(e)
      case Ok(m) => MutateOnce(t, ops, m, given, catalog, rolls(i, rounds - 1))
  }

  /** `Math.random() <= mutationRate` for genome `i`; a missing draw is 0. */
  predicate Chosen(chosen: seq<real>, i: nat, rate: real) {
    (if i < |chosen| then chosen[i] else 0.0) <= rate
  }

  /**
   * `NEAT.mutate(method)` on the genomes `pop`: each genome is picked with
   * probability `mutationRate` and then mutated `mutationAmount` times; the
   * others stay as they are. The first exception ends the call.
   */
  function MutateAll(t: Neat, ops: Operators, pop: seq<Network>, given: Option<Mutation.Operator>, catalog: seq<Squash>,
                     chosen: seq<real>, rolls: (nat, nat) -> seq<real>): (r: Result<seq<Network>>)
    requires Faithful(ops) && AllValid(pop) && RollSupply(rolls)
    ensures r.Ok? ==> |r.value| == |pop| && AllValid(r.value)
    ensures r.Ok? ==> forall i :: 0 <= i < |pop| ==> r.value[i].inputSize == pop[i].inputSize && r.value[i].outputSize == pop[i].outputSize
    ensures r.Ok? ==> forall i :: 0 <= i < |pop| && !Chosen(chosen, i, t.mutationRate) ==> r.value[i] == pop[i]
    ensures r.Ok? ==> forall i :: 0 <= i < |pop| && Chosen(chosen, i, t.mutationRate) ==>
      MutateRounds(t, ops, pop[i], i, t.mutationAmount, given, catalog, rolls) == Ok(r.value[i])
    ensures t.mutationAmount == 0 ==> r == Ok(pop)
    decreases |pop|
  {
    if |pop| == 0 then Ok([])
    else
      var last := |pop| - 1;
      TakeValid(pop, last);
      var front := MutateAll(t, ops, pop[..last], given, catalog, chosen, rolls);
      var step := if Chosen(chosen, last, t.mutationRate) then MutateRounds(t, ops, pop[last], last, t.mutationAmount, given, catalog, rolls)
                  else Ok(pop[last]);
      if front.Err? then Err(front.error)
      else if step.Err? then Err(step.error)
      else
        assert pop == pop[..last] + [pop[last]];
        Ok(front.value + [step.value])
  }

  /** A prefix of valid genomes is valid genomes. */
  lemma TakeValid(pop: seq<Network>, k: nat)
    requires AllValid(pop) && k <= |pop|
    ensures AllValid(pop[..k])
  {
    forall i | 0 <= i < k ensures NetValid(pop[..k][i]) { assert NetValid(pop[i]); }
  }

  // ---------------------------------------------------------------------
  // Breeding
  // ---------------------------------------------------------------------

  /**
   * What `evolve` calls on the outside: the fitness function (the scores it
   * sets, in population order), the selection method (the position it
   * selects on its `k`-th call, `None` for `null`), and the optional
   * `pickGenome` and `adjustGenome`.
   */
  datatype Collaborators = Collaborators(
    fitness: seq<Network> -> seq<Option<real>>,
    select: (seq<Network>, nat) -> Option<nat>,
    pickGenome: Option<Network -> bool>,
    adjustGenome: Option<Network -> Network>)

  /** The selection returns positions of the population, and `adjustGenome` returns valid networks. */
  ghost predicate Behaved(c: Collaborators) {
    (forall pop, k :: c.select(pop, k).Some? ==> c.select(pop, k).value < |pop|) &&
    (c.adjustGenome.Some? ==> forall n :: NetValid(n) ==> NetValid(c.adjustGenome.value(n)))
  }

  /** The draws of one `evolve`: per offspring crossover draws, the mutation picks, and per genome and round mutation draws. */
  datatype Draws = Draws(cross: nat -> Crossover.Draws, chosen: seq<real>, rolls: (nat, nat) -> seq<real>)

  /** Every draw lies in [0, 1). */
  ghost predicate Fits(d: Draws) {
    (forall k :: Crossover.Fits(d.cross(k))) && Mutation.Rolls(d.chosen) && RollSupply(d.rolls)
  }

  /**
   * `getOffspring` on a sorted population: two selections, a
   * `ReferenceError` when either is `null`, then `crossOver` with `equal`.
   */
  function Offspring(pop: seq<Network>, equal: bool, c: Collaborators, ops: Operators, k: nat, draws: Crossover.Draws): (r: Result<Network>)
    requires AllValid(pop) && Behaved(c) && Faithful(ops) && Crossover.Fits(draws)
    ensures c.select(pop, 2 * k).None? || c.select(pop, 2 * k + 1).None? ==> r == Err(ReferenceError("Should not be null!"))
    ensures c.select(pop, 2 * k).Some? && c.select(pop, 2 * k + 1).Some? ==>
      r == ops.cross(pop[c.select(pop, 2 * k).value], pop[c.select(pop, 2 * k + 1).value], equal, draws)
    ensures r.Ok? ==> NetValid(r.value)
  {
    var first, second := c.select(pop, 2 * k), c.select(pop, 2 * k + 1);
    if first.None? || second.None? then Err(ReferenceError("Should not be null!"))
    else
      assert NetValid(pop[first.value]) && NetValid(pop[second.value]);
      ops.cross(pop[first.value], pop[second.value], equal, draws)
  }

  /** `children[j]` is what the `j`-th call of `getOffspring` returns. */
  ghost predicate Bred(pop: seq<Network>, equal: bool, c: Collaborators, ops: Operators, d: Draws, children: seq<Network>) {
    AllValid(pop) && Behaved(c) && Faithful(ops) && Fits(d) &&
    forall j :: 0 <= j < |children| ==> Offspring(pop, equal, c, ops, j, d.cross(j)) == Ok(children[j])
  }

  /** One more call of `getOffspring` behind a bred list. */
  lemma BredSnoc(pop: seq<Network>, equal: bool, c: Collaborators, ops: Operators, d: Draws, front: seq<Network>, child: Network)
    requires Bred(pop, equal, c, ops, d, front) && Offspring(pop, equal, c, ops, |front|, d.cross(|front|)) == Ok(child)
    requires AllValid(front)
    ensures Bred(pop, equal, c, ops, d, front + [child]) && AllValid(front + [child])
  {
    JoinValid(front, [child]);
    var r := front + [child];
    forall j | 0 <= j < |r|
      ensures Offspring(pop, equal, c, ops, j, d.cross(j)) == Ok(r[j])
    {
      if j < |front| {
        assert r[j] == front[j];
      }
    }
  }

  /**
   * The breeding loop of `evolve`: `count` calls of `getOffspring` on the
   * population `evolve` has just sorted, the `k`-th making selections `2k`
   * and `2k + 1`; the first exception ends the loop.
   */
  function Breed(pop: seq<Network>, count: nat, equal: bool, c: Collaborators, ops: Operators, d: Draws): (r: Result<seq<Network>>)
    requires AllValid(pop) && Behaved(c) && Faithful(ops) && Fits(d)
    ensures r.Ok? ==> |r.value| == count && AllValid(r.value)
    ensures r.Ok? ==> Bred(pop, equal, c, ops, d, r.value)
    decreases count
  {
    if count == 0 then Ok([])
    else
      var front := Breed(pop, count - 1, equal, c, ops, d);
      if front.Err? then front
      else
        var child := Offspring(pop, equal, c, ops, count - 1, d.cross(count - 1));
        if child.Err? then Err(child.error)
        else
          BredSnoc(pop, equal, c, ops, d, front.value, child.value);
          Ok(front.value + [child.value])
  }

  // ---------------------------------------------------------------------
  // Screening
  // ---------------------------------------------------------------------

  /**
   * `filterGenome(pickGenome, adjustGenome)` as written: only the genomes
   * `pickGenome` selects are kept, each replaced by `adjustGenome(genome)`
   * or a copy of the template; the others are dropped.
   */
  function FilterGenomeAsWritten(pop: seq<Network>, pick: Network -> bool, adjust: Option<Network -> Network>, ops: Operators, template: Network): (r: seq<Network>)
    requires Faithful(ops) && NetValid(template)
  {
    var kept := JsArray.Filter(pop, pick);
    seq(|kept|, i requires 0 <= i < |kept| => if adjust.Some? then adjust.value(kept[i]) else Clone(ops, template))
  }

  /**
   * `filterGenome` as documented: the genomes `pickGenome` selects are
   * replaced by `adjustGenome(genome)` or a copy of the template, and the
   * rest stay in place.
   */
  function FilterGenome(pop: seq<Network>, pick: Network -> bool, adjust: Option<Network -> Network>, ops: Operators, template: Network): (r: seq<Network>)
    requires Faithful(ops) && NetValid(template)
    ensures |r| == |pop|
    ensures forall i :: 0 <= i < |pop| && !pick(pop[i]) ==> r[i] == pop[i]
    ensures forall i :: 0 <= i < |pop| && pick(pop[i]) ==> r[i] == if adjust.Some? then adjust.value(pop[i]) else Clone(ops, template)
  {
    seq(|pop|, i requires 0 <= i < |pop| =>
      if !pick(pop[i]) then pop[i] else if adjust.Some? then adjust.value(pop[i]) else Clone(ops, template))
  }

  /** A `pickGenome` that selects nothing: as written the population disappears, as documented it stays whole. */
  lemma FilterGenomeDropsUnpicked(pop: seq<Network>, adjust: Option<Network -> Network>, ops: Operators, template: Network)
    requires Faithful(ops) && NetValid(template) && |pop| > 0
    ensures FilterGenomeAsWritten(pop, _ => false, adjust, ops, template) == []
    ensures FilterGenome(pop, _ => false, adjust, ops, template) == pop
  {
    var none := (_: Network) => false;
    assert JsArray.Filter(pop, none) == [];
  }

  /** The screening step of `evolve`, when `pickGenome` is given. */
  function Screen(pop: seq<Network>, c: Collaborators, ops: Operators, template: Network): (r: seq<Network>)
    requires AllValid(pop) && Behaved(c) && Faithful(ops) && NetValid(template)
    ensures |r| == |pop| && AllValid(r)
    ensures c.pickGenome.None? ==> r == pop
  {
    if c.pickGenome.None? then pop
    else
      var r := FilterGenome(pop, c.pickGenome.value, c.adjustGenome, ops, template);
      assert forall i :: 0 <= i < |r| ==> NetValid(r[i]) by {
        forall i | 0 <= i < |r| ensures NetValid(r[i]) {
          assert NetValid(pop[i]);
        }
      }
      r
  }

  // ---------------------------------------------------------------------
  // Evolution
  // ---------------------------------------------------------------------

  /** The population as `evolve` and the queries find it: evaluated first when the last genome has no score. */
  function Current(pop: seq<Network>, fitness: seq<Network> -> seq<Option<real>>): (r: seq<Network>)
    requires AllValid(pop)
    ensures |r| == |pop| && AllValid(r)
    ensures |pop| > 0 && pop[|pop| - 1].score.Some? ==> r == pop
  {
    if |pop| > 0 && pop[|pop| - 1].score.None? then Evaluate(pop, fitness) else pop
  }

  /** Two lists of valid genomes joined are valid genomes. */
  lemma JoinValid(a: seq<Network>, b: seq<Network>)
    requires AllValid(a) && AllValid(b)
    ensures AllValid(a + b)
  {
    forall i | 0 <= i < |a + b| ensures NetValid((a + b)[i]) {
      if i >= |a| { assert NetValid(b[i - |a|]); } else { assert NetValid(a[i]); }
    }
  }

  /** The population `evolve` breeds from: evaluated if the last genome has no score, screened, and sorted. */
  function Ranked(t: Neat, c: Collaborators, ops: Operators): (r: seq<Network>)
    requires Sound(t) && Behaved(c) && Faithful(ops)
    ensures |r| == t.populationSize && AllValid(r)
  {
    var screened := Screen(Current(t.population, c.fitness), c, ops, t.template);
    SortValid(screened);
    SortPopulation(screened)
  }

  /**
   * The new genomes of one generation, before the elitists join: slot `i <
   * provenance` holds a copy of the template and slot `provenance + j` the
   * `j`-th child, except where `mutate` picked the slot.
   */
  ghost predicate Staffed(t: Neat, ops: Operators, d: Draws, children: seq<Network>, young: seq<Network>)
    requires NetValid(t.template) && Faithful(ops)
  {
    |young| == t.provenance + |children| &&
    (forall i :: 0 <= i < t.provenance && !Chosen(d.chosen, i, t.mutationRate) ==> young[i] == Clone(ops, t.template)) &&
    forall j :: 0 <= j < |children| && !Chosen(d.chosen, t.provenance + j, t.mutationRate) ==>
      young[t.provenance + j] == children[j]
  }

  /**
   * The children of one generation: `populationSize - elitism - provenance`
   * calls of `getOffspring` on the ranked population.
   */
  function Children(t: Neat, c: Collaborators, ops: Operators, d: Draws): (r: Result<seq<Network>>)
    requires Sound(t) && Behaved(c) && Faithful(ops) && Fits(d) && t.elitism + t.provenance <= t.populationSize
    ensures r.Ok? ==> |r.value| == t.populationSize - t.elitism - t.provenance && AllValid(r.value)
    ensures r.Ok? ==> Bred(Ranked(t, c, ops), t.equal, c, ops, d, r.value)
  {
    Breed(Ranked(t, c, ops), t.populationSize - t.elitism - t.provenance, t.equal, c, ops, d)
  }

  /**
   * The copies of the template and the children of one generation, passed
   * through `mutate`.
   */
  function Young(t: Neat, c: Collaborators, ops: Operators, d: Draws, catalog: seq<Squash>): (r: Result<seq<Network>>)
    requires Sound(t) && Behaved(c) && Faithful(ops) && Fits(d) && t.elitism + t.provenance <= t.populationSize
    ensures r.Ok? ==> AllValid(r.value) && |r.value| == t.populationSize - t.elitism
  {
    var children := Children(t, c, ops, d);
    if children.Err? then Err(children.error)
    else Mutated(t, ops, d, catalog, children.value)
  }

  /** The copies of the template followed by the children, passed through `mutate`. */
  function Mutated(t: Neat, ops: Operators, d: Draws, catalog: seq<Squash>, children: seq<Network>): (r: Result<seq<Network>>)
    requires NetValid(t.template) && Faithful(ops) && Fits(d) && AllValid(children)
    ensures r.Ok? ==> AllValid(r.value) && |r.value| == t.provenance + |children|
    ensures r.Ok? ==> forall i :: 0 <= i < |r.value| && !Chosen(d.chosen, i, t.mutationRate) ==>
      r.value[i] == (Populate(ops, t.template, t.provenance) + children)[i]
  {
    var copies := Populate(ops, t.template, t.provenance);
    JoinValid(copies, children);
    MutateAll(t, ops, copies + children, None, catalog, d.chosen, d.rolls)
  }

  /** Where `mutate` left them alone, the new genomes are the copies of the template and the children. */
  lemma YoungStaffed(t: Neat, c: Collaborators, ops: Operators, d: Draws, catalog: seq<Squash>)
    requires Sound(t) && Behaved(c) && Faithful(ops) && Fits(d) && t.elitism + t.provenance <= t.populationSize
    ensures var r := Young(t, c, ops, d, catalog);
      r.Ok? ==> Children(t, c, ops, d).Ok? && Staffed(t, ops, d, Children(t, c, ops, d).value, r.value)
  {
    var young := Young(t, c, ops, d, catalog);
    if young.Ok? {
      StaffedSlots(t, ops, d, Children(t, c, ops, d).value, young.value);
    }
  }

  /** The slots `mutate` left alone still hold the copies of the template and the children. */
  lemma StaffedSlots(t: Neat, ops: Operators, d: Draws, children: seq<Network>, mutated: seq<Network>)
    requires NetValid(t.template) && Faithful(ops) && |mutated| == t.provenance + |children|
    requires forall i :: 0 <= i < |mutated| && !Chosen(d.chosen, i, t.mutationRate) ==>
      mutated[i] == (Populate(ops, t.template, t.provenance) + children)[i]
    ensures Staffed(t, ops, d, children, mutated)
  {
    SlotsKept(Populate(ops, t.template, t.provenance), children, mutated, d.chosen, t.mutationRate);
  }

  /**
   * The genomes `evolve` hands to its final evaluation: `provenance` copies
   * of the template and `populationSize - elitism - provenance` offspring,
   * all passed through `mutate`, then the `elitism` best genomes
   * untouched.
   */
  function NextGeneration(t: Neat, c: Collaborators, ops: Operators, d: Draws, catalog: seq<Squash>): (r: Result<seq<Network>>)
    requires Sound(t) && Behaved(c) && Faithful(ops) && Fits(d) && t.elitism + t.provenance <= t.populationSize
    ensures r.Ok? ==> |r.value| == t.populationSize && AllValid(r.value)
  {
    var young := Young(t, c, ops, d, catalog);
    if young.Err? then Err(young.error)
    else
      JoinValid(young.value, Elitists(t, c, ops));
      Ok(young.value + Elitists(t, c, ops))
  }

  /** The `elitism` best genomes of the ranked population. */
  function Elitists(t: Neat, c: Collaborators, ops: Operators): (r: seq<Network>)
    requires Sound(t) && Behaved(c) && Faithful(ops) && t.elitism <= t.populationSize
    ensures |r| == t.elitism && AllValid(r)
    ensures forall i :: 0 <= i < t.elitism ==> r[i] == Ranked(t, c, ops)[i]
  {
    var ranked := Ranked(t, c, ops);
    assert forall i :: 0 <= i < t.elitism ==> NetValid(ranked[..t.elitism][i]) by {
      forall i | 0 <= i < t.elitism ensures NetValid(ranked[..t.elitism][i]) { assert NetValid(ranked[i]); }
    }
    ranked[..t.elitism]
  }

  /** The next generation starts with the copies of the template and the children, where `mutate` left them alone. */
  lemma NextGenerationStaffed(t: Neat, c: Collaborators, ops: Operators, d: Draws, catalog: seq<Squash>)
    requires Sound(t) && Behaved(c) && Faithful(ops) && Fits(d) && t.elitism + t.provenance <= t.populationSize
    ensures var r := NextGeneration(t, c, ops, d, catalog);
      r.Ok? ==> Children(t, c, ops, d).Ok? && Staffed(t, ops, d, Children(t, c, ops, d).value, r.value[..t.populationSize - t.elitism])
  {
    var r := NextGeneration(t, c, ops, d, catalog);
    if r.Ok? {
      var young := Young(t, c, ops, d, catalog).value;
      assert r.value[..t.populationSize - t.elitism] == young;
      YoungStaffed(t, c, ops, d, catalog);
    }
  }

  /** The next generation ends with the `elitism` best genomes of the ranked population, untouched. */
  lemma NextGenerationElitists(t: Neat, c: Collaborators, ops: Operators, d: Draws, catalog: seq<Squash>)
    requires Sound(t) && Behaved(c) && Faithful(ops) && Fits(d) && t.elitism + t.provenance <= t.populationSize
    ensures var r := NextGeneration(t, c, ops, d, catalog);
      r.Ok? ==> forall i :: 0 <= i < t.elitism ==> r.value[t.populationSize - t.elitism + i] == Ranked(t, c, ops)[i]
  {
    var r := NextGeneration(t, c, ops, d, catalog);
    if r.Ok? {
      var young := Young(t, c, ops, d, catalog).value;
      assert r.value == young + Elitists(t, c, ops);
      Appended(young, Elitists(t, c, ops), Ranked(t, c, ops));
    }
  }

  /** Behind a prefix, the appended list reads as the list it copies. */
  lemma Appended<T>(front: seq<T>, back: seq<T>, source: seq<T>)
    requires |back| <= |source| && forall i :: 0 <= i < |back| ==> back[i] == source[i]
    ensures forall i :: 0 <= i < |back| ==> (front + back)[|front| + i] == source[i]
  {
  }

  /** The slots `mutate` leaves alone still hold the copy or the child put there. */
  lemma SlotsKept<T>(copies: seq<T>, children: seq<T>, mutated: seq<T>, chosen: seq<real>, rate: real)
    requires |mutated| == |copies| + |children|
    requires forall i :: 0 <= i < |mutated| && !Chosen(chosen, i, rate) ==> mutated[i] == (copies + children)[i]
    ensures forall i :: 0 <= i < |copies| && !Chosen(chosen, i, rate) ==> mutated[i] == copies[i]
    ensures forall j :: 0 <= j < |children| && !Chosen(chosen, |copies| + j, rate) ==> mutated[|copies| + j] == children[j]
  {
    forall j | 0 <= j < |children| && !Chosen(chosen, |copies| + j, rate)
      ensures mutated[|copies| + j] == children[j]
    {
      assert (copies + children)[|copies| + j] == children[j];
    }
    forall i | 0 <= i < |copies| && !Chosen(chosen, i, rate)
      ensures mutated[i] == copies[i]
    {
      assert (copies + children)[i] == copies[i];
    }
  }

  /**
   * The close of `evolve` on the next generation: evaluate, screen, sort,
   * copy the fittest genome with its score, and reset every score.
   */
  function Conclude(next: seq<Network>, c: Collaborators, ops: Operators, template: Network): (r: (seq<Network>, Network))
    requires AllValid(next) && Behaved(c) && Faithful(ops) && NetValid(template) && |next| > 0
    ensures |r.0| == |next| && AllValid(r.0) && NetValid(r.1)
    ensures forall i :: 0 <= i < |r.0| ==> r.0[i].score == None
  {
    var final := Final(next, c, ops, template);
    var best := Clone(ops, final[0]);
    Rescored(best, final[0].score);
    UnscoredValid(final);
    (Unscored(final), best.(score := final[0].score))
  }

  /** The score is no part of a network's validity. */
  lemma Rescored(n: Network, s: Option<real>)
    requires NetValid(n)
    ensures NetValid(n.(score := s))
  {
  }

  /** Resetting the scores keeps the genomes valid. */
  lemma UnscoredValid(pop: seq<Network>)
    requires AllValid(pop)
    ensures AllValid(Unscored(pop))
  {
    forall i | 0 <= i < |pop| ensures NetValid(Unscored(pop)[i]) {
      Rescored(pop[i], None);
    }
  }

  /** The final population of `evolve`, before the scores are reset: evaluated, screened and sorted. */
  function Final(next: seq<Network>, c: Collaborators, ops: Operators, template: Network): (r: seq<Network>)
    requires AllValid(next) && Behaved(c) && Faithful(ops) && NetValid(template)
    ensures |r| == |next| && AllValid(r)
  {
    var screened := Screen(Evaluate(next, c.fitness), c, ops, template);
    SortValid(screened);
    SortPopulation(screened)
  }

  /** Without `pickGenome`, every genome handed to the close of `evolve` is in the population it leaves, score reset. */
  lemma ConcludeKeeps(next: seq<Network>, c: Collaborators, ops: Operators, template: Network)
    requires AllValid(next) && Behaved(c) && Faithful(ops) && NetValid(template) && |next| > 0 && c.pickGenome.None?
    ensures forall i :: 0 <= i < |next| ==> next[i].(score := None) in Conclude(next, c, ops, template).0
  {
    Survivors(next, c, ops, template, Final(next, c, ops, template));
  }

  /** When every genome ends up scored, the genome `evolve` returns scores at least as high as each of them. */
  lemma ConcludeFittest(next: seq<Network>, c: Collaborators, ops: Operators, template: Network)
    requires AllValid(next) && Behaved(c) && Faithful(ops) && NetValid(template) && |next| > 0
    ensures var e := Screen(Evaluate(next, c.fitness), c, ops, template); var r := Conclude(next, c, ops, template);
      AllScored(e) ==> r.1.score.Some? && forall i :: 0 <= i < |e| ==> e[i].score.value <= r.1.score.value
  {
    TopScore(Screen(Evaluate(next, c.fitness), c, ops, template));
  }

  /** The first genome of a sorted scored population scores at least as high as every genome before the sort. */
  lemma TopScore(pop: seq<Network>)
    requires |pop| > 0
    ensures AllScored(pop) ==> var r := SortPopulation(pop);
      r[0].score.Some? && forall i :: 0 <= i < |pop| ==> pop[i].score.value <= r[0].score.value
  {
    var r := SortPopulation(pop);
    if AllScored(pop) {
      SortDescends(pop);
      forall i | 0 <= i < |pop| ensures pop[i].score.value <= r[0].score.value {
        assert pop[i] in multiset(r);
        var q :| 0 <= q < |r| && r[q] == pop[i];
      }
    }
  }

  /**
   * Without `pickGenome`, every genome of the next generation reaches the
   * final population with its score reset: the evaluation only sets
   * scores, and sorting permutes.
   */
  lemma Survivors(next: seq<Network>, c: Collaborators, ops: Operators, template: Network, final: seq<Network>)
    requires AllValid(next) && Behaved(c) && Faithful(ops) && NetValid(template)
    requires final == SortPopulation(Screen(Evaluate(next, c.fitness), c, ops, template))
    ensures c.pickGenome.None? ==> forall i :: 0 <= i < |next| ==> next[i].(score := None) in Unscored(final)
  {
    if c.pickGenome.Some? { return; }
    var scored := Score(next, c.fitness(next));
    forall i | 0 <= i < |next|
      ensures next[i].(score := None) in Unscored(final)
    {
      assert scored[i] in multiset(final);
      var q :| 0 <= q < |final| && final[q] == scored[i];
      assert Unscored(final)[q] == next[i].(score := None);
    }
  }

  /**
   * What `evolve` leaves behind: a sound instance that differs from the old
   * one only in its population, which has every score reset, and in a
   * generation counter one higher; and a valid fittest genome.
   */
  ghost predicate Evolved(t: Neat, r: (Neat, Network)) {
    Sound(r.0) && NetValid(r.1) &&
    r.0 == t.(population := r.0.population, generation := t.generation + 1) &&
    forall i :: 0 <= i < |r.0.population| ==> r.0.population[i].score == None
  }

  /**
   * The end of `evolve` once the next generation stands: it becomes the
   * population, scores reset, and the generation counter goes up by one;
   * the fittest genome is returned as a scored copy.
   */
  function Advance(t: Neat, c: Collaborators, ops: Operators, next: seq<Network>): (r: (Neat, Network))
    requires Sound(t) && Behaved(c) && Faithful(ops) && |next| == t.populationSize > 0 && AllValid(next)
    ensures Evolved(t, r)
  {
    var (population, fittest) := Conclude(next, c, ops, t.template);
    (t.(population := population, generation := t.generation + 1), fittest)
  }

  /**
   * One call of `evolve`: throws when `elitism + provenance` exceeds the
   * population size (and a `TypeError` on an empty population); otherwise
   * the next generation is evaluated, screened and sorted, the fittest
   * genome is copied with its score, every score is reset and the
   * generation counter goes up by one.
   */
  function Evolve(t: Neat, c: Collaborators, ops: Operators, d: Draws, catalog: seq<Squash>): (r: Result<(Neat, Network)>)
    requires Sound(t) && Behaved(c) && Faithful(ops) && Fits(d)
    ensures t.elitism + t.provenance > t.populationSize ==>
      r == Err(PlainError("Can`t evolve! Elitism + provenance exceeds population size!"))
    ensures t.elitism + t.provenance <= t.populationSize && t.populationSize == 0 ==>
      r == Err(TypeError("Cannot read properties of undefined (reading 'score')"))
    ensures r.Ok? ==> Evolved(t, r.value)
    ensures r.Ok? ==> t.elitism + t.provenance <= t.populationSize && NextGeneration(t, c, ops, d, catalog).Ok?
  {
    if t.elitism + t.provenance > t.populationSize then
      Err(PlainError("Can`t evolve! Elitism + provenance exceeds population size!"))
    else if t.populationSize == 0 then
      Err(TypeError("Cannot read properties of undefined (reading 'score')"))
    else
      var next := NextGeneration(t, c, ops, d, catalog);
      if next.Err? then Err(next.error) else Ok(Advance(t, c, ops, next.value))
  }

  /** Without `pickGenome`, the `elitism` best genomes of the old population survive `evolve`, their scores reset. */
  lemma EvolveKeepsElitists(t: Neat, c: Collaborators, ops: Operators, d: Draws, catalog: seq<Squash>)
    requires Sound(t) && Behaved(c) && Faithful(ops) && Fits(d) && c.pickGenome.None?
    ensures var r := Evolve(t, c, ops, d, catalog);
      r.Ok? ==> forall i :: 0 <= i < t.elitism ==> Ranked(t, c, ops)[i].(score := None) in r.value.0.population
  {
    var r := Evolve(t, c, ops, d, catalog);
    if r.Ok? {
      var next := NextGeneration(t, c, ops, d, catalog).value;
      NextGenerationElitists(t, c, ops, d, catalog);
      ConcludeKeeps(next, c, ops, t.template);
      forall i | 0 <= i < t.elitism
        ensures Ranked(t, c, ops)[i].(score := None) in r.value.0.population
      {
        assert next[t.populationSize - t.elitism + i] == Ranked(t, c, ops)[i];
      }
    }
  }

  // ---------------------------------------------------------------------
  // Queries
  // ---------------------------------------------------------------------

  /**
   * `getFittest`: evaluates when the last genome has no score, sorts, and
   * returns the first genome; a `TypeError` on an empty population.
   */
  function GetFittest(t: Neat, fitness: seq<Network> -> seq<Option<real>>): (r: Result<(Neat, Network)>)
    requires Sound(t)
    ensures r.Err? <==> |t.population| == 0
    ensures r.Ok? ==> Sound(r.value.0) && r.value.0 == t.(population := r.value.0.population)
    ensures r.Ok? ==> r.value.1 == r.value.0.population[0]
    ensures r.Ok? && AllScored(r.value.0.population) ==> forall i :: 0 <= i < |r.value.0.population| ==>
      r.value.0.population[i].score.value <= r.value.1.score.value
  {
    if |t.population| == 0 then Err(TypeError("Cannot read properties of undefined (reading 'score')"))
    else
      var evaluated := Current(t.population, fitness);
      SortValid(evaluated);
      var sorted := SortPopulation(evaluated);
      FittestFirst(evaluated);
      Ok((t.(population := sorted), sorted[0]))
  }

  /** Once sorted, a scored population starts with a genome scoring at least as high as any other. */
  lemma FittestFirst(pop: seq<Network>)
    ensures var r := SortPopulation(pop);
      |r| > 0 && AllScored(r) ==> forall i :: 0 <= i < |r| ==> r[i].score.value <= r[0].score.value
  {
    var r := SortPopulation(pop);
    if |r| > 0 && AllScored(r) {
      AllScoredPermuted(pop, r);
      SortDescends(pop);
    }
  }

  /** A permutation of a scored population is scored. */
  lemma AllScoredPermuted(pop: seq<Network>, r: seq<Network>)
    requires multiset(r) == multiset(pop) && AllScored(r)
    ensures AllScored(pop)
  {
    forall i | 0 <= i < |pop| ensures pop[i].score.Some? {
      assert pop[i] in multiset(r);
    }
  }

  /** The scores of a population, a missing one read as 0. */
  function Scores(pop: seq<Network>): (r: seq<real>)
    ensures |r| == |pop| && forall i :: 0 <= i < |pop| ==> r[i] == pop[i].score.GetOr(0.0)
  {
    seq(|pop|, i requires 0 <= i < |pop| => pop[i].score.GetOr(0.0))
  }

  /**
   * `getAverage`: evaluates when the last genome has no score, then the
   * sum of the scores (a missing one counts 0) over the population size;
   * a `TypeError` on an empty population.
   */
  function GetAverage(t: Neat, fitness: seq<Network> -> seq<Option<real>>): (r: Result<(Neat, real)>)
    requires Sound(t)
    ensures r.Err? <==> |t.population| == 0
    ensures r.Ok? ==> Sound(r.value.0) && r.value.0 == t.(population := r.value.0.population)
    ensures r.Ok? ==> MeanOf(r.value.1, r.value.0.population)
    ensures r.Ok? ==> |r.value.0.population| == |t.population|
    ensures r.Ok? && t.population[|t.population| - 1].score.Some? ==> r.value.0 == t
  {
    if |t.population| == 0 then Err(TypeError("Cannot read properties of undefined (reading 'score')"))
    else
      var evaluated := Current(t.population, fitness);
      Ok((t.(population := evaluated), Mean(evaluated)))
  }

  /** `m` times the population size is the sum of the scores (a missing score counts 0). */
  ghost predicate MeanOf(m: real, pop: seq<Network>) {
    m * |pop| as real == ArrayUtils.SeqSum(Scores(pop))
  }

  /** The mean score of a non-empty population (a missing score counts 0). */
  function Mean(pop: seq<Network>): (m: real)
    requires |pop| > 0
    ensures MeanOf(m, pop)
  {
    var scores := Scores(pop);
    var average := ArrayUtils.Avg(scores).value;
    Resized(average, scores, |pop|);
    average
  }

  /** A mean times the count it was taken over is the sum. */
  lemma Resized(average: real, scores: seq<real>, n: nat)
    requires average * |scores| as real == ArrayUtils.SeqSum(scores) && |scores| == n
    ensures average * n as real == ArrayUtils.SeqSum(scores)
  {
  }

  /** The average lies between any bounds on the scores it averages. */
  lemma AverageBetween(t: Neat, fitness: seq<Network> -> seq<Option<real>>, lo: real, hi: real)
    requires Sound(t) && |t.population| > 0
    requires var pop := GetAverage(t, fitness).value.0.population;
      forall i :: 0 <= i < |pop| ==> lo <= pop[i].score.GetOr(0.0) <= hi
    ensures lo <= GetAverage(t, fitness).value.1 <= hi
  {
    var pop := GetAverage(t, fitness).value.0.population;
    ArrayUtils.AvgBetweenExtrema(Scores(pop), lo, hi);
  }

  /** `replacePopulation(genomes)`: the genomes become the population, and its size the population size. */
  function ReplacePopulation(t: Neat, genomes: seq<Network>): (r: Neat)
    requires NetValid(t.template) && AllValid(genomes)
    ensures Sound(r) && r.population == genomes && r.populationSize == |genomes|
    ensures r == t.(population := genomes, populationSize := |genomes|)
  {
    t.(population := genomes, populationSize := |genomes|)
  }
}
