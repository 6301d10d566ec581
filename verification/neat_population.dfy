/**
 * The NEAT population of src/population/NEATPopulation.ts. It calls a
 * richer species API (`isCompatible`, `cull`, `fitnessSharing`,
 * `getAvgAdjustedScore`, `bestNetwork`, `highScore`, `stagnation`) than
 * src/architecture/Species.ts provides, so species are of an abstract type
 * `S` reached through `SpeciesApi`. The static counters and id maps are
 * passed in and returned.
 */
module NeatPopulation {
  import opened Results
  import opened Population
  import ScoreOrder
  import JsArray
  import Enums
  import Species

  // ---------------------------------------------------------------------
  // Constructor
  // ---------------------------------------------------------------------

  /** The optional constructor options. */
  datatype Options = Options(c1: Option<real>, c2: Option<real>, c3: Option<real>, survivorRate: Option<real>,
                             speciesDistanceThreshold: Option<real>, speciesStagnationLimit: Option<real>,
                             populationStagnationLimit: Option<real>)

  /** The static settings the constructor writes. */
  datatype Settings = Settings(c1: real, c2: real, c3: real, survivorRate: real, distanceThreshold: real,
                               speciesStagnationLimit: real, populationStagnationLimit: real)

  /**
   * The constructor's defaults. `c2` and `c3` are both read from
   * `options.c1`, so the options `c2` and `c3` have no effect.
   */
  function Configure(o: Options): (s: Settings)
    ensures s.c1 == o.c1.GetOr(1.0) && s.c2 == s.c1 && s.c3 == s.c1
    ensures s.survivorRate == o.survivorRate.GetOr(0.5)
    ensures s.distanceThreshold == o.speciesDistanceThreshold.GetOr(2.0)
    ensures s.speciesStagnationLimit == o.speciesStagnationLimit.GetOr(15.0)
    ensures s.populationStagnationLimit == o.populationStagnationLimit.GetOr(15.0)
  {
    var c1 := o.c1.GetOr(1.0);
    Settings(c1, o.c1.GetOr(1.0), o.c1.GetOr(1.0), o.survivorRate.GetOr(0.5), o.speciesDistanceThreshold.GetOr(2.0),
             o.speciesStagnationLimit.GetOr(15.0), o.populationStagnationLimit.GetOr(15.0))
  }

  /** The options `c2` and `c3` change nothing. */
  lemma ConfigureIgnoresC2C3(o: Options, c2: Option<real>, c3: Option<real>)
    ensures Configure(o.(c2 := c2, c3 := c3)) == Configure(o)
  {
  }

  /** The population-level state; a `highScore` of `None` is `-Infinity`. */
  datatype NeatState<S, G> = NeatState(networks: seq<Genome<G>>, species: seq<S>, stagnation: nat, highScore: Option<real>)

  /** The constructor's own fields: no species, no stagnation, a high score of `-Infinity`. */
  function Initial<S, G>(networks: seq<Genome<G>>): (st: NeatState<S, G>)
    ensures st.networks == networks && st.species == [] && st.stagnation == 0 && st.highScore.None?
  {
    NeatState(networks, [], 0, None)
  }

  /** The species API `NEATPopulation` relies on; `breed` is told where its child lands. */
  datatype SpeciesApi<!S, !G> = SpeciesApi(
    isCompatible: (S, Genome<G>) -> bool,
    put: (S, Genome<G>) -> S,
    create: Genome<G> -> S,
    reset: S -> S,
    highScore: S -> Option<real>,
    stagnation: S -> int,
    size: S -> nat,
    avgAdjustedScore: S -> real,
    bestNetwork: S -> Genome<G>,
    breed: (S, nat) -> Genome<G>)

  // ---------------------------------------------------------------------
  // breed: the stagnation check
  // ---------------------------------------------------------------------

  /**
   * The stagnation check: a top species whose high score beats the
   * population's resets the counter and raises the high score; otherwise
   * the counter grows by one. An undefined high score never beats anything.
   */
  function UpdateStagnation(top: Option<real>, highScore: Option<real>, stagnation: nat): (r: (nat, Option<real>))
    ensures Species.Exceeds(top, highScore) ==> r == (0, top)
    ensures !Species.Exceeds(top, highScore) ==> r == (stagnation + 1, highScore)
    ensures !Species.Exceeds(highScore, r.1)
  {
    if Species.Exceeds(top, highScore) then (0, top) else (stagnation + 1, highScore)
  }

  /** The check reads `this.species[0]`, which throws on an empty species list. */
  function CheckStagnation<S, G>(api: SpeciesApi<S, G>, st: NeatState<S, G>): (r: Result<NeatState<S, G>>)
    ensures r.Err? <==> |st.species| == 0
    ensures r.Err? ==> r.error.TypeError?
    ensures r.Ok? ==> r.value.networks == st.networks && r.value.species == st.species
    ensures r.Ok? ==> (r.value.stagnation == 0) == Species.Exceeds(api.highScore(st.species[0]), st.highScore)
  {
    if |st.species| == 0 then Err(TypeError("Cannot read properties of undefined (reading 'highScore')"))
    else
      var (stagnation, highScore) := UpdateStagnation(api.highScore(st.species[0]), st.highScore, st.stagnation);
      Ok(st.(stagnation := stagnation, highScore := highScore))
  }

  // ---------------------------------------------------------------------
  // Species list maintenance
  // ---------------------------------------------------------------------

  /** `killStaleSpecies`: keeps, in order, the species below the stagnation limit. */
  function KillStaleSpecies<S, G>(api: SpeciesApi<S, G>, species: seq<S>, limit: real): (r: seq<S>)
    ensures forall i :: 0 <= i < |r| ==> (api.stagnation(r[i]) as real) < limit
    ensures forall i :: 0 <= i < |species| && (api.stagnation(species[i]) as real) < limit ==> species[i] in r
    ensures multiset(r) <= multiset(species)
    ensures (forall i :: 0 <= i < |species| ==> (api.stagnation(species[i]) as real) < limit) ==> r == species
  {
    var keep := (s: S) => (api.stagnation(s) as real) < limit;
    JsArray.FilterKeepsPassing(species, keep);
    JsArray.FilterIdentity(species, keep);
    JsArray.Filter(species, keep)
  }

  /** `sortSpecies`: the score order of `sortNetworks`, on the species' high scores. */
  function SortSpecies<S, G>(api: SpeciesApi<S, G>, species: seq<S>): (r: seq<S>)
    ensures multiset(r) == multiset(species)
  {
    ScoreOrder.SortByScore(species, api.highScore)
  }

  /** Sorted species: truthy high scores first, descending. */
  lemma SortSpeciesOrder<S(!new), G>(api: SpeciesApi<S, G>, species: seq<S>)
    ensures var r := SortSpecies(api, species);
      forall i, j :: 0 <= i < j < |r| && ScoreOrder.Truthy(api.highScore(r[j])) ==>
        ScoreOrder.Truthy(api.highScore(r[i])) && api.highScore(r[j]).value <= api.highScore(r[i]).value
  {
    ScoreOrder.SortByScoreSpec(species, api.highScore);
  }

  /** `sumOfAvgAdjustedFitnessScores`: the left fold of the adjusted averages. */
  function SumOfAvgAdjusted<S, G>(api: SpeciesApi<S, G>, species: seq<S>): real {
    if |species| == 0 then 0.0
    else SumOfAvgAdjusted(api, species[..|species| - 1]) + api.avgAdjustedScore(species[|species| - 1])
  }

  /**
   * The test of `killBadSpecies`, `(avg / sum) * populationSize >= 1`, with
   * JavaScript division: for a zero sum the quotient is `Infinity`,
   * `-Infinity` or `NaN` by the sign of `avg`, and `Infinity * 0` is `NaN`.
   */
  predicate CanBreed(avg: real, sum: real, populationSize: nat) {
    if sum != 0.0 then (avg / sum) * populationSize as real >= 1.0
    else avg > 0.0 && populationSize > 0
  }

  /** `killBadSpecies`: keeps, in order, the species whose share earns at least one child. */
  function KillBadSpecies<S, G>(api: SpeciesApi<S, G>, species: seq<S>, populationSize: nat): (r: seq<S>)
    ensures forall i :: 0 <= i < |r| ==>
      CanBreed(api.avgAdjustedScore(r[i]), SumOfAvgAdjusted(api, species), populationSize)
    ensures forall i :: 0 <= i < |species| && CanBreed(api.avgAdjustedScore(species[i]), SumOfAvgAdjusted(api, species), populationSize) ==>
      species[i] in r
    ensures multiset(r) <= multiset(species)
  {
    var sum := SumOfAvgAdjusted(api, species);
    var keep := (s: S) => CanBreed(api.avgAdjustedScore(s), sum, populationSize);
    JsArray.FilterKeepsPassing(species, keep);
    JsArray.Filter(species, keep)
  }

  // ---------------------------------------------------------------------
  // speciate
  // ---------------------------------------------------------------------

  /** The first species, in list order, that accepts the genome. */
  function FirstCompatible<S, G>(api: SpeciesApi<S, G>, species: seq<S>, g: Genome<G>): (r: Option<nat>)
    ensures r.Some? ==> r.value < |species| && api.isCompatible(species[r.value], g)
    ensures r.Some? ==> forall j :: 0 <= j < r.value ==> !api.isCompatible(species[j], g)
    ensures r.None? ==> forall j :: 0 <= j < |species| ==> !api.isCompatible(species[j], g)
  {
    if |species| == 0 then None
    else if api.isCompatible(species[0], g) then Some(0)
    else
      match FirstCompatible(api, species[1..], g)
      case None => None
      case Some(i) => Some(i + 1)
  }

  /** One round of `speciate`: put into the first accepting species, else found a new one. */
  function Place<S, G>(api: SpeciesApi<S, G>, species: seq<S>, g: Genome<G>): (r: seq<S>)
    ensures FirstCompatible(api, species, g).Some? ==>
      var i := FirstCompatible(api, species, g).value; r == species[i := api.put(species[i], g)]
    ensures FirstCompatible(api, species, g).None? ==> r == species + [api.create(g)]
  {
    match FirstCompatible(api, species, g)
    case Some(i) => species[i := api.put(species[i], g)]
    case None => species + [api.create(g)]
  }

  /** The rounds of `speciate`, one per genome in population order. */
  function PlaceAll<S, G>(api: SpeciesApi<S, G>, species: seq<S>, networks: seq<Genome<G>>): (r: seq<S>)
    decreases |networks|
  {
    if |networks| == 0 then species else PlaceAll(api, Place(api, species, networks[0]), networks[1..])
  }

  /** Placing genomes never shrinks the species list and founds at most one species per genome. */
  lemma {:induction false} PlaceAllBounds<S, G>(api: SpeciesApi<S, G>, species: seq<S>, networks: seq<Genome<G>>)
    ensures |species| <= |PlaceAll(api, species, networks)| <= |species| + |networks|
    ensures |networks| > 0 ==> |PlaceAll(api, species, networks)| >= 1
    decreases |networks|
  {
    if |networks| > 0 {
      var placed := Place(api, species, networks[0]);
      assert |species| <= |placed| <= |species| + 1 && |placed| >= 1;
      PlaceAllBounds(api, placed, networks[1..]);
    }
  }

  /** `species.reset()` for every species. */
  function ResetAll<S, G>(api: SpeciesApi<S, G>, species: seq<S>): (r: seq<S>)
    ensures |r| == |species|
    ensures forall i :: 0 <= i < |r| ==> r[i] == api.reset(species[i])
  {
    if |species| == 0 then [] else ResetAll(api, species[..|species| - 1]) + [api.reset(species[|species| - 1])]
  }

  /** `speciate`: resets every species, then places each genome in turn. */
  function Speciate<S, G>(api: SpeciesApi<S, G>, species: seq<S>, networks: seq<Genome<G>>): (r: seq<S>)
    ensures |species| <= |r| <= |species| + |networks|
    ensures |networks| > 0 ==> |r| > 0
  {
    var reset := ResetAll(api, species);
    PlaceAllBounds(api, reset, networks);
    PlaceAll(api, reset, networks)
  }

  // ---------------------------------------------------------------------
  // Node and connection ids
  // ---------------------------------------------------------------------

  /** Where the ids of each kind start: inputs first, then outputs, then hidden nodes. */
  function KindOffset(types: seq<Enums.NodeType>, counter: nat, kind: Enums.NodeType): nat {
    match kind
    case Input => counter
    case Output => counter + Enums.Count(types, Enums.Input)
    case Hidden => counter + Enums.Count(types, Enums.Input) + Enums.Count(types, Enums.Output)
  }

  /** The id node `p` receives: its kind's offset plus the number of earlier nodes of its kind. */
  function NodeIdAt(types: seq<Enums.NodeType>, counter: nat, p: nat): nat
    requires p < |types|
  {
    KindOffset(types, counter, types[p]) + Enums.Count(types[..p], types[p])
  }

  /** The three kinds make up every node. */
  lemma {:induction false} CountKinds(types: seq<Enums.NodeType>)
    ensures Enums.Count(types, Enums.Input) + Enums.Count(types, Enums.Output) + Enums.Count(types, Enums.Hidden) == |types|
  {
    if |types| > 0 {
      CountKinds(types[..|types| - 1]);
    }
  }

  /** The ids are distinct and fill `[counter, counter + |nodes|)`. */
  lemma NodeIdsDistinct(types: seq<Enums.NodeType>, counter: nat, p: nat, q: nat)
    requires p < |types| && q < |types|
    ensures counter <= NodeIdAt(types, counter, p) < counter + |types|
    ensures p != q ==> NodeIdAt(types, counter, p) != NodeIdAt(types, counter, q)
  {
    CountKinds(types);
    assert types[..|types|] == types;
    Enums.CountGrows(types, types[p], p, |types|);
    Enums.CountGrows(types, types[q], q, |types|);
    if p < q {
      Enums.CountGrows(types, types[p], p, q);
    } else if q < p {
      Enums.CountGrows(types, types[q], q, p);
    }
  }

  /**
   * One of the three passes of `createNodeIDsFromTemplate`: every node of
   * `kind`, in order, takes the counter as its id, is mapped to itself, and
   * advances the counter.
   */
  method AssignIds(types: seq<Enums.NodeType>, kind: Enums.NodeType, counter: nat, ids: seq<Option<nat>>, nodeIDs: map<nat, nat>)
    returns (ids': seq<Option<nat>>, nodeIDs': map<nat, nat>, next: nat)
    requires |ids| == |types|
    ensures next == counter + Enums.Count(types, kind)
    ensures |ids'| == |types|
    ensures forall p :: 0 <= p < |types| ==> ids'[p] == if types[p] == kind then Some(counter + Enums.Count(types[..p], kind)) else ids[p]
    ensures forall x: nat :: x in nodeIDs' <==> x in nodeIDs || counter <= x < next
    ensures forall x :: x in nodeIDs' ==> nodeIDs'[x] == if counter <= x < next then x else nodeIDs[x]
  {
    ids', nodeIDs', next := ids, nodeIDs, counter;
    var p := 0;
    while p < |types|
      invariant 0 <= p <= |types| && |ids'| == |types|
      invariant next == counter + Enums.Count(types[..p], kind)
      invariant forall k :: 0 <= k < p && types[k] == kind ==> ids'[k] == Some(counter + Enums.Count(types[..k], kind))
      invariant forall k :: 0 <= k < |types| && (types[k] != kind || p <= k) ==> ids'[k] == ids[k]
      invariant forall x: nat :: x in nodeIDs' <==> x in nodeIDs || counter <= x < next
      invariant forall x :: x in nodeIDs' ==> nodeIDs'[x] == if counter <= x < next then x else nodeIDs[x]
    {
      assert types[..p + 1][..p] == types[..p];
      if types[p] == kind {
        nodeIDs' := nodeIDs'[next := next];
        ids' := ids'[p := Some(next)];
        next := next + 1;
      }
      p := p + 1;
    }
    assert types[..p] == types;
  }

  /**
   * `createNodeIDsFromTemplate`: ids from `counter` on, inputs first, then
   * outputs, then hidden nodes; the map is the identity on the new ids.
   */
  method CreateNodeIds(types: seq<Enums.NodeType>, counter: nat)
    returns (ids: seq<Option<nat>>, nodeIDs: map<nat, nat>, next: nat)
    ensures next == counter + |types|
    ensures |ids| == |types|
    ensures forall p :: 0 <= p < |types| ==> ids[p] == Some(NodeIdAt(types, counter, p))
    ensures forall x: nat :: x in nodeIDs <==> counter <= x < next
    ensures forall x :: x in nodeIDs ==> nodeIDs[x] == x
  {
    var ids0: seq<Option<nat>> := seq(|types|, _ => None);
    var ids1, map1, c1 := AssignIds(types, Enums.Input, counter, ids0, map[]);
    var ids2, map2, c2 := AssignIds(types, Enums.Output, c1, ids1, map1);
    ids, nodeIDs, next := AssignIds(types, Enums.Hidden, c2, ids2, map2);
    CountKinds(types);
    forall p | 0 <= p < |types|
      ensures ids[p] == Some(NodeIdAt(types, counter, p))
    {
      IdAfterPasses(types, counter, p, ids1[p], ids2[p], ids[p]);
    }
  }

  /** The id a node ends with is the one the pass of its own kind gave it. */
  lemma IdAfterPasses(types: seq<Enums.NodeType>, counter: nat, p: nat, id1: Option<nat>, id2: Option<nat>, id3: Option<nat>)
    requires p < |types|
    requires types[p] == Enums.Input ==> id1 == Some(counter + Enums.Count(types[..p], Enums.Input))
    requires types[p] == Enums.Output ==> id2 == Some(counter + Enums.Count(types, Enums.Input) + Enums.Count(types[..p], Enums.Output))
    requires types[p] == Enums.Hidden ==>
      id3 == Some(counter + Enums.Count(types, Enums.Input) + Enums.Count(types, Enums.Output) + Enums.Count(types[..p], Enums.Hidden))
    requires types[p] != Enums.Output ==> id2 == id1
    requires types[p] != Enums.Hidden ==> id3 == id2
    ensures id3 == Some(NodeIdAt(types, counter, p))
  {
    var before := Enums.Count(types[..p], types[p]);
    assert NodeIdAt(types, counter, p) == KindOffset(types, counter, types[p]) + before;
    match types[p]
    case Input =>
    case Output =>
    case Hidden =>
  }

  /**
   * `counter++` on a static counter. The source never initialises
   * `nodeCounter` or `connCounter`, so they start `undefined`; `None` stands
   * for `undefined` and for the `NaN` that `++` makes of it.
   */
  function Increment(counter: Option<nat>): (r: Option<nat>)
    ensures r.None? <==> counter.None?
    ensures r.Some? ==> r.value == counter.value + 1
  {
    match counter
    case None => None
    case Some(c) => Some(c + 1)
  }

  /**
   * `createNodeIDsFromTemplate` on the counter as the source leaves it: from
   * an `undefined` counter every node gets `undefined` or `NaN` as its id and
   * the counter stays `NaN`; from a number it is `CreateNodeIds`.
   */
  method CreateNodeIdsAsWritten(types: seq<Enums.NodeType>, counter: Option<nat>)
    returns (ids: seq<Option<nat>>, next: Option<nat>)
    ensures |ids| == |types|
    ensures counter.None? ==> next.None? && forall p :: 0 <= p < |types| ==> ids[p].None?
    ensures counter.Some? ==> next == Some(counter.value + |types|)
    ensures counter.Some? ==> forall p :: 0 <= p < |types| ==> ids[p] == Some(NodeIdAt(types, counter.value, p))
  {
    if counter.None? {
      ids, next := seq(|types|, _ => None), None;
    } else {
      var nodeIDs, n;
      ids, nodeIDs, n := CreateNodeIds(types, counter.value);
      next := Some(n);
    }
  }

  /** The guard of `createConnIDsFromTemplate`, `nodeCounter === 0`. */
  predicate NoNodeIds(nodeCounter: Option<nat>) {
    nodeCounter == Some(0)
  }

  /**
   * The guard never fires on the uninitialised counter: after any number of
   * template passes it is still `NaN`, which is not `0`, so connection ids
   * are handed out even though no node has a numeric id.
   */
  lemma {:induction false} GuardMissesUninitialised(passes: nat)
    ensures !NoNodeIds(Iterated(None, passes))
    ensures Iterated(None, passes).None?
  {
    if passes > 0 {
      GuardMissesUninitialised(passes - 1);
    }
  }

  /** The counter after `times` increments. */
  function Iterated(counter: Option<nat>, times: nat): (r: Option<nat>)
    ensures counter.Some? ==> r == Some(counter.value + times)
  {
    if times == 0 then counter else Increment(Iterated(counter, times - 1))
  }

  /**
   * With the counters started at `0`, as the `=== 0` guard evidently
   * expects, the first template gets the distinct ids `0 .. |types| - 1` and
   * the guard holds exactly before any node id was handed out.
   */
  lemma InitialisedCounterIds(types: seq<Enums.NodeType>, p: nat, q: nat)
    requires p < |types| && q < |types|
    ensures NodeIdAt(types, 0, p) < |types|
    ensures p != q ==> NodeIdAt(types, 0, p) != NodeIdAt(types, 0, q)
    ensures NoNodeIds(Iterated(Some(0), |types|)) <==> |types| == 0
  {
    NodeIdsDistinct(types, 0, p, q);
  }

  /** The last connection, counting from position `from`, whose key is `key`. */
  predicate LastWithKey(ends: seq<(nat, nat)>, pairing: (nat, nat) -> nat, key: nat, j: nat) {
    j < |ends| && pairing(ends[j].0, ends[j].1) == key &&
    forall k :: j < k < |ends| ==> pairing(ends[k].0, ends[k].1) != key
  }

  /**
   * `createConnIDsFromTemplate`: throws without node ids; otherwise the
   * connections take consecutive ids from `connCounter` on, and the map sends
   * each pairing of endpoint ids to the id of the last connection with that
   * pairing. `pairing` is imported from a utility outside this model.
   */
  method CreateConnIds(ends: seq<(nat, nat)>, nodeCounter: nat, connCounter: nat, pairing: (nat, nat) -> nat)
    returns (res: Result<(map<nat, nat>, seq<nat>, nat)>)
    ensures res.Err? <==> nodeCounter == 0
    ensures res.Err? ==> res.error.ReferenceError?
    ensures res.Ok? ==> var (connIDs, ids, next) := res.value;
      next == connCounter + |ends| && |ids| == |ends| &&
      (forall i :: 0 <= i < |ends| ==> ids[i] == connCounter + i) &&
      connIDs.Keys == (set i | 0 <= i < |ends| :: pairing(ends[i].0, ends[i].1)) &&
      (forall key :: key in connIDs ==> exists j: nat :: LastWithKey(ends, pairing, key, j) && connIDs[key] == connCounter + j)
  {
    if nodeCounter == 0 {
      return Err(ReferenceError("Can't create connection ids without node ids"));
    }
    var connIDs: map<nat, nat> := map[];
    var ids: seq<nat> := [];
    var i := 0;
    while i < |ends|
      invariant 0 <= i <= |ends| && |ids| == i
      invariant forall k :: 0 <= k < i ==> ids[k] == connCounter + k
      invariant connIDs.Keys == set k | 0 <= k < i :: pairing(ends[k].0, ends[k].1)
      invariant forall key :: key in connIDs ==> exists j: nat :: LastWithKey(ends[..i], pairing, key, j) && connIDs[key] == connCounter + j
    {
      var key := pairing(ends[i].0, ends[i].1);
      var longer := ends[..i + 1];
      forall key' | key' in connIDs && key' != key
        ensures exists j: nat :: LastWithKey(longer, pairing, key', j) && connIDs[key'] == connCounter + j
      {
        var j: nat :| LastWithKey(ends[..i], pairing, key', j) && connIDs[key'] == connCounter + j;
        assert LastWithKey(longer, pairing, key', j);
      }
      assert LastWithKey(longer, pairing, key, i);
      connIDs := connIDs[key := connCounter + i];
      ids := ids + [connCounter + i];
      i := i + 1;
    }
    assert ends[..i] == ends;
    res := Ok((connIDs, ids, connCounter + |ends|));
  }

  /** With an injective pairing and no repeated endpoint pair, each connection keeps its own id. */
  lemma ConnIdsWithInjectivePairing(ends: seq<(nat, nat)>, pairing: (nat, nat) -> nat, connIDs: map<nat, nat>, connCounter: nat)
    requires forall a, b, c, d :: pairing(a, b) == pairing(c, d) ==> a == c && b == d
    requires forall i, j :: 0 <= i < j < |ends| ==> ends[i] != ends[j]
    requires forall key :: key in connIDs ==> exists j: nat :: LastWithKey(ends, pairing, key, j) && connIDs[key] == connCounter + j
    ensures forall i :: 0 <= i < |ends| && pairing(ends[i].0, ends[i].1) in connIDs ==>
      connIDs[pairing(ends[i].0, ends[i].1)] == connCounter + i
  {
    forall i | 0 <= i < |ends| && pairing(ends[i].0, ends[i].1) in connIDs
      ensures connIDs[pairing(ends[i].0, ends[i].1)] == connCounter + i
    {
      var key := pairing(ends[i].0, ends[i].1);
      var j: nat :| LastWithKey(ends, pairing, key, j) && connIDs[key] == connCounter + j;
      assert ends[j] == ends[i];
    }
  }

  // ---------------------------------------------------------------------
  // reproduce
  // ---------------------------------------------------------------------

  /**
   * `floor((avg / sum) * populationSize - 1)` children, none when that is
   * negative or `NaN`. The `Infinity` case, a zero sum with a positive
   * average, never ends the loop and is excluded by `reproduce`'s caller.
   */
  function NumChildren(avg: real, sum: real, populationSize: nat): nat {
    if sum != 0.0 then
      var k := ((avg / sum) * populationSize as real - 1.0).Floor;
      if k < 0 then 0 else k
    else 0
  }

  /** The loop of `reproduce` runs forever on a species whose child count is `Infinity`. */
  predicate Unbounded(avg: real, sum: real, populationSize: nat) {
    sum == 0.0 && avg > 0.0 && populationSize > 0
  }

  /** The champion copied for a species of at least five members. */
  function Champion<S, G>(api: SpeciesApi<S, G>, s: S): (r: seq<Genome<G>>)
    ensures |r| <= 1
  {
    if api.size(s) >= 5 then [api.bestNetwork(s)] else []
  }

  /** `count` children of one species, landing at positions `start`, `start + 1`, ... */
  function Births<S, G>(api: SpeciesApi<S, G>, s: S, start: nat, count: nat): (r: seq<Genome<G>>)
    ensures |r| == count
    ensures forall i :: 0 <= i < count ==> r[i] == api.breed(s, start + i)
  {
    if count == 0 then [] else Births(api, s, start, count - 1) + [api.breed(s, start + count - 1)]
  }

  /**
   * The species loop of `reproduce`, from the species `species[0]` on, with
   * `base` genomes already in the new population: each species contributes
   * its champion and its children.
   */
  function Offspring<S, G>(api: SpeciesApi<S, G>, species: seq<S>, sum: real, populationSize: nat, base: nat): (r: seq<Genome<G>>)
    decreases |species|
  {
    if |species| == 0 then []
    else
      var s := species[0];
      var champion := Champion(api, s);
      var start := base + |champion|;
      var children := Births(api, s, start, NumChildren(api.avgAdjustedScore(s), sum, populationSize));
      champion + children + Offspring(api, species[1..], sum, populationSize, start + |children|)
  }

  /** Every species of five or more members has its champion in the new population. */
  lemma {:induction false} ChampionsKept<S, G>(api: SpeciesApi<S, G>, species: seq<S>, sum: real, populationSize: nat, base: nat)
    ensures forall i :: 0 <= i < |species| && api.size(species[i]) >= 5 ==>
      api.bestNetwork(species[i]) in Offspring(api, species, sum, populationSize, base)
    decreases |species|
  {
    if |species| > 0 {
      var s := species[0];
      var champion := Champion(api, s);
      var start := base + |champion|;
      var children := Births(api, s, start, NumChildren(api.avgAdjustedScore(s), sum, populationSize));
      ChampionsKept(api, species[1..], sum, populationSize, start + |children|);
      forall i | 0 <= i < |species| && api.size(species[i]) >= 5
        ensures api.bestNetwork(species[i]) in Offspring(api, species, sum, populationSize, base)
      {
        if i > 0 {
          assert species[i] == species[1..][i - 1];
        }
      }
    }
  }

  /**
   * `reproduce`: throws on an empty species list; otherwise each species
   * contributes its champion and children, then `species[0]` breeds until
   * the population is full, and the species list is cleared.
   */
  function Reproduce<S, G>(api: SpeciesApi<S, G>, species: seq<S>, populationSize: nat): (res: Result<(seq<Genome<G>>, seq<S>)>)
    requires forall i :: 0 <= i < |species| ==>
      !Unbounded(api.avgAdjustedScore(species[i]), SumOfAvgAdjusted(api, species), populationSize)
    ensures res.Err? <==> |species| == 0
    ensures res.Err? ==> res.error.RangeError?
    ensures res.Ok? ==> |res.value.0| >= populationSize && res.value.1 == []
    ensures res.Ok? ==> var bred := Offspring(api, species, SumOfAvgAdjusted(api, species), populationSize, 0);
      |res.value.0| == (if |bred| < populationSize then populationSize else |bred|) &&
      res.value.0[..|bred|] == bred &&
      forall k :: |bred| <= k < populationSize ==> res.value.0[k] == api.breed(species[0], k)
  {
    if |species| == 0 then Err(RangeError("Species length should never be 0!"))
    else
      var sum := SumOfAvgAdjusted(api, species);
      var bred := Offspring(api, species, sum, populationSize, 0);
      var fill := if |bred| < populationSize then populationSize - |bred| else 0;
      var born := Births(api, species[0], |bred|, fill);
      var networks := bred + born;
      assert networks[..|bred|] == bred;
      assert forall k :: |bred| <= k < |networks| ==> networks[k] == born[k - |bred|];
      Ok((networks, []))
  }

  /** A kept species has the sign of the old sum, and is positive when that sum is zero. */
  lemma BreederSign(avg: real, sum: real, populationSize: nat)
    requires CanBreed(avg, sum, populationSize)
    ensures sum >= 0.0 ==> avg > 0.0
    ensures sum < 0.0 ==> avg < 0.0
  {
  }

  /** A sum of adjusted averages that all share a strict sign has that sign. */
  lemma {:induction false} SumSign<S, G>(api: SpeciesApi<S, G>, species: seq<S>, positive: bool)
    requires |species| > 0
    requires forall i :: 0 <= i < |species| ==> if positive then api.avgAdjustedScore(species[i]) > 0.0 else api.avgAdjustedScore(species[i]) < 0.0
    ensures if positive then SumOfAvgAdjusted(api, species) > 0.0 else SumOfAvgAdjusted(api, species) < 0.0
  {
    if |species| > 1 {
      SumSign(api, species[..|species| - 1], positive);
    }
  }

  /**
   * `breed` calls `reproduce` only after `killBadSpecies`, and no species
   * that survives it has an unbounded child count: the survivors all share
   * the sign of the old sum (positive when it was zero), so their own sum
   * is not zero.
   */
  lemma KilledNeverUnbounded<S, G>(api: SpeciesApi<S, G>, species: seq<S>, populationSize: nat)
    ensures var r := KillBadSpecies(api, species, populationSize);
      forall i :: 0 <= i < |r| ==> !Unbounded(api.avgAdjustedScore(r[i]), SumOfAvgAdjusted(api, r), populationSize)
  {
    var sum := SumOfAvgAdjusted(api, species);
    var r := KillBadSpecies(api, species, populationSize);
    if |r| > 0 {
      forall i | 0 <= i < |r|
        ensures if sum >= 0.0 then api.avgAdjustedScore(r[i]) > 0.0 else api.avgAdjustedScore(r[i]) < 0.0
      {
        BreederSign(api.avgAdjustedScore(r[i]), sum, populationSize);
      }
      SumSign(api, r, sum >= 0.0);
    }
  }

  /**
   * The last two steps of `breed`, `killBadSpecies` then `reproduce`, defined
   * on every species list: it throws exactly when no species survives, and
   * otherwise fills the population.
   */
  function KillAndReproduce<S, G>(api: SpeciesApi<S, G>, species: seq<S>, populationSize: nat): (res: Result<(seq<Genome<G>>, seq<S>)>)
    ensures res.Err? <==> forall i :: 0 <= i < |species| ==>
      !CanBreed(api.avgAdjustedScore(species[i]), SumOfAvgAdjusted(api, species), populationSize)
    ensures res.Ok? ==> |res.value.0| >= populationSize && res.value.1 == []
  {
    var survivors := KillBadSpecies(api, species, populationSize);
    KilledNeverUnbounded(api, species, populationSize);
    assert |survivors| > 0 ==> survivors[0] in multiset(species);
    Reproduce(api, survivors, populationSize)
  }

  /** `mutate` is not implemented and always throws. */
  function Mutate<G>(networks: seq<Genome<G>>): (r: Result<seq<Genome<G>>>)
    ensures r.Err? && r.error.PlainError?
  {
    Err(PlainError("Not implemented!"))
  }

  /**
   * So `evolve` on a NEAT population never completes a pass: once the first
   * scoring succeeds, every run of one or more passes throws.
   */
  lemma EvolveNeverCompletesAPass<G, D>(networks: seq<Genome<G>>, c: Collaborators<G, D>, passes: nat)
    requires c.mutate == Mutate
    requires passes >= 1
    ensures Evolution(networks, c, passes).Err?
  {
    match Scored(networks, c.fitness, c.dataset, c.test)
    case Err(_) =>
    case Ok(first) =>
      match Iterate(PassStep(c), first, passes - 1)
      case Err(_) =>
      case Ok(before) =>
        assert PassStep(c)(before) == Pass(before, c);
  }
}
