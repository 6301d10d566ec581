# carrot, modelled in Dafny

A model of the core of carrot, a TypeScript library for neuroevolution.
Networks grow their own topology, in the style of NEAT ("NeuroEvolution of Augmenting Topologies").
The model follows the library's source and its development bundle.
It covers:

- the network graph: nodes, connections, gates, self connections and the network's registries.
  This includes connect, disconnect, gate and ungate, copying, `toJSON`/`fromJSON`, node removal and the constructor's complete input→output wiring;
- the guards of `activate`, `propagate` and `train`;
- `Network.crossOver`: the child's size, its node layout and the alignment of connection genes by innovation id, with the input search as intended (a Findings row);
- the fourteen mutation operators, each with its guard, its candidate set, its effect and its exact no-op condition, and random mutation;
- the `NEAT` generation loop: the constructor defaults, the fitness sort, the queries, population mutation, breeding, screening and `evolve`.
  `evolve` is modelled as intended, with the corrected screening and growth limits of two Findings rows;
- `Species`, the selection methods (fitness proportionate, power, tournament) and the utilities they use;
- the three population classes: `Population`, `InstinctPopulation` and `NEATPopulation`.

Conventions of the model:

- Every call that throws in JavaScript returns an `Err` of a `Results.Error` that names the error class and carries the message.
- Every `Math.random()` is an explicit draw in `[0, 1)` passed in by the caller.
- Fitness functions, selection, breeding and the test loss of a network are parameters.
- A JavaScript `Set` is a duplicate-free sequence in insertion order (module `OrderedSet`).
- `Array.prototype.sort` is a stable insertion sort (module `StableSort`).
- Numbers are `real`, or `nat` where the source only counts.
- `undefined` is `None`.

The modules follow the program's structure:

| Module | Models |
|---|---|
| `Graph` | nodes, connections and gates |
| `Networks` | network invariants and copying |
| `NetworkConstruct` | `new Network` |
| `NetworkJson` | `toJSON`/`fromJSON` |
| `Wiring` | building a network from placed nodes and edges |
| `NodeRemoval` | `removeNode` |
| `NetworkGuards` | the `activate`, `propagate` and `train` guards |
| `Crossover` | `crossOver` |
| `Mutation` | the mutation operators |
| `Neat` | the `NEAT` class |
| `Species` | `Species` |
| `Selection` | the selection methods |
| `Population`, `InstinctPopulation`, `NeatPopulation` | the three population classes |
| `ArrayUtils`, `JsArray`, `OrderedSet`, `StableSort`, `ScoreOrder`, `Connection`, `MethodUtils`, `Enums`, `Results` | utilities and enums |

## Model

| member | source | states |
|---|---|---|
| ArrayUtils.RandInt | src/utils/Utils.ts:23-25 | with `min < max`, `floor(r·(max−min)+min)` lies in `[min, max)`; with `min == max` it is `min` |
| ArrayUtils.RandDouble | src/utils/Utils.ts:35-37 | `r·(max−min)+min` lies in `[min, max]`, and below `max` when `min < max` |
| ArrayUtils.PickRandom | src/utils/Utils.ts:8-13 | a `RangeError` exactly on the empty array; otherwise one of its elements |
| ArrayUtils.PickReaches | src/utils/Utils.ts:8-13 | every element is picked by some draw in `[0, 1)` (the draw `i/length` picks `arr[i]`) |
| ArrayUtils.IndexOf | src/utils/Utils.ts:58 | `indexOf`: none exactly when absent; otherwise the first position holding the element |
| ArrayUtils.RemoveFromArray | src/utils/Utils.ts:57-65 | false and unchanged exactly when absent; otherwise the first occurrence is spliced out and the length drops by one; the multiset loses one copy |
| ArrayUtils.GetOrDefault | src/utils/Utils.ts:75-77 | the value when defined, else the default |
| ArrayUtils.Swap | src/utils/Utils.ts:92-94 | exchanges two positions and leaves the rest; a permutation |
| ArrayUtils.Shuffle | src/utils/Utils.ts:85-98 | Fisher–Yates over the given draws returns a permutation of its input |
| ArrayUtils.Max | src/utils/Utils.ts:106-114 | nothing on the empty array; otherwise an element no smaller than any other |
| ArrayUtils.MaxValueIndex | src/utils/Utils.ts:122-132 | 0 on the empty array; otherwise the first index of a maximal element |
| ArrayUtils.MinValueIndex | src/utils/Utils.ts:140-150 | 0 on the empty array; otherwise the first index of a minimal element |
| ArrayUtils.Min | src/utils/Utils.ts:158-166 | nothing on the empty array; otherwise an element no larger than any other |
| ArrayUtils.Sum | src/utils/Utils.ts:184-190 | the loop's total is the left fold of `+` from 0 |
| ArrayUtils.Avg | src/utils/Utils.ts:174-176 | none on the empty array; otherwise the average times the length is the sum |
| ArrayUtils.SumBounds | src/utils/Utils.ts:184-190 | element bounds `lo..hi` bound the sum by `n·lo..n·hi` |
| ArrayUtils.AvgBetweenExtrema | src/utils/Utils.ts:174-176 | the average lies between any bounds of the elements |
| MethodUtils.PickRandom | src/methods/Utils.ts:1-3 | none (JavaScript `undefined`) exactly on the empty array; otherwise a member |
| MethodUtils.AnyMatch | src/methods/Utils.ts:17-24 | true exactly when the target occurs |
| MethodUtils.Remove | src/methods/Utils.ts:26-34 | false and unchanged exactly when absent; otherwise only the first occurrence goes; agrees with `removeFromArray` |
| MethodUtils.FirstOccurrenceUnique | src/methods/Utils.ts:26-34 | removing at the first occurrence is what `removeFromArray` does |
| MethodUtils.Shuffle | src/methods/Utils.ts:40-58 | a permutation of its input |
| JsArray.Filter | dist/dev/index.js:375-377 | `Array.prototype.filter`: the result is no longer than the input, every kept element passes, and it is a sub-multiset of the input |
| JsArray.FilterKeepsPassing | dist/dev/index.js:375-377 | every element of the input that passes stays in the result |
| JsArray.FilterMembers | dist/dev/index.js:375-377 | a value is in the result exactly when it is in the input and passes |
| JsArray.FilterAllPass | dist/dev/index.js:391-393 | when every element passes, the filter returns its input unchanged |
| JsArray.FilterKeeps | dist/dev/index.js:375-377 | one element that occurs and passes is in the result |
| JsArray.FilterIdentity | dist/dev/index.js:391-393 | the filter returns its input exactly when every element passes |
| OrderedSet.Add | src/architecture/Species.ts:26-34 | a JavaScript `Set.add`: membership grows by the element, order and distinctness kept, no change if present |
| OrderedSet.Delete | src/architecture/Species.ts:94 | a JavaScript `Set.delete`: membership loses exactly the element, distinctness kept |
| OrderedSet.DeleteMembers | src/architecture/Species.ts:94 | deleting leaves every other member in place |
| OrderedSet.DistinctCardinality | src/architecture/Species.ts:111 | a distinct list has as many members as its length (`Set.size`) |
| StableSort.Sort | dist/dev/index.js:570-574 | `Array.prototype.sort`: the result is a permutation of the input of the same length |
| StableSort.SortSorted | dist/dev/index.js:570-574 | under an irreflexive, transitive "comes before", no element of the result comes before an earlier one |
| StableSort.Insert | dist/dev/index.js:570-574 | one insertion step adds exactly the element to the multiset |
| StableSort.InsertSorted | dist/dev/index.js:570-574 | inserting into a sorted list keeps it sorted |
| ScoreOrder.Compare | src/methods/Selection.ts:131-137 | the comparator shared by the tournament and `sortNetworks` is negative exactly when the first score comes first (both truthy and it is higher, or only it is truthy) and positive exactly when the second does |
| ScoreOrder.BeforeStrictOrder | src/methods/Selection.ts:132-137 | "comes before" under that comparator is irreflexive and transitive |
| ScoreOrder.SortByScore | src/population/Population.ts:72-79 | sorting by that comparator is a permutation |
| ScoreOrder.SortByScoreSpec | src/population/Population.ts:72-79 | after it, truthy-scored networks come first in descending score, then the rest |
| Connection.InnovationID | dist/dev/index.js:131 | the Cantor pairing: the id of `(a, b)` lies in the band `[T(a+b), T(a+b+1))` of triangular numbers, so it is a natural number |
| Connection.InnovationIDInjective | dist/dev/index.js:131 | distinct pairs of naturals have distinct innovation ids |
| Connection.InnovationIDOrdered | dist/dev/index.js:131 | a connection and its reverse have different ids |
| Graph.NewNode | dist/dev/index.js:133 | a new node gets an unused id, a self-connection of weight 0 and gain 1, and no other edge or gate touches it; the graph stays well formed |
| Graph.IsProjectingTo | dist/dev/index.js:133 | `isProjectingTo`: for another node, true exactly when the connection to it exists |
| Graph.Rewrite | dist/dev/index.js:133 | replacing one connection record changes only that key, and the set of connections a node gates changes only by that key |
| Graph.Link | dist/dev/index.js:133 | a new connection joins the source's outgoing and the target's incoming sets, with weight as given and gain 1, and gates nothing |
| Graph.Unlink | dist/dev/index.js:133 | removing a connection takes it out of both endpoint sets and every gate set; the returned record keeps the weight, has no gate, and has gain 1 when it had been gated |
| Graph.SetSelfWeight | dist/dev/index.js:133 | only the self-connection's weight changes; its gate and every other connection stay |
| Graph.NodeConnect | dist/dev/index.js:133 | `Node.connect`: to itself it sets the self weight; otherwise it fails with "Their is already a connection!" exactly when the edge (or, two-sided, the reverse) exists, and else adds the edge with gain 1 (and the reverse with weight 1 when two-sided) |
| Graph.NodeDisconnect | dist/dev/index.js:133 | `Node.disconnect`: from itself it zeroes the self weight and keeps every connection; otherwise it fails with "No Connection found" exactly when the edge (or, two-sided, the reverse) is missing, and else removes exactly those edges |
| Graph.EdgeDisconnect | dist/dev/index.js:133 | the two-node branch of `disconnect`: the same error exactly when an edge is missing, otherwise exactly the named edges go |
| Graph.DropEdge | dist/dev/index.js:133 | one edge goes exactly when it exists; its weight is handed back and its gate is dropped |
| Graph.NodeAddGate | dist/dev/index.js:133 | `Node.addGate`: the connection records the gater, joins its gate set, and no other node's gate set changes |
| Graph.NodeRemoveGate | dist/dev/index.js:133 | `Node.removeGate`: the connection loses its gater and gets gain 1, it leaves that node's gate set, and no other node's gate set changes |
| Graph.NodeClear | dist/dev/index.js:133 | `Node.clear`: every connection keeps weight and gate, and exactly the ones the node gates get gain 0 |
| Graph.ZeroGains | dist/dev/index.js:133 | gain 0 on exactly the named connections, everything else kept |
| Graph.MutateBias | dist/dev/index.js:133 | `mutateBias`: only that node's bias changes, by an amount inside the configured range (default `[-1, 1]`) |
| Graph.MutateActivation | dist/dev/index.js:133 | `mutateActivation`: only that node's squash can change; it stays the same exactly when every allowed squash is the current one, and otherwise becomes an allowed one |
| Graph.OtherSquash | dist/dev/index.js:133 | the pick among the allowed squashes other than the current one; the current one only when no other is allowed |
| Graph.CandidatesOtherThan | dist/dev/index.js:133 | the filtered candidates are empty exactly when every allowed squash is the current one, and each candidate differs from it |
| Graph.SetLabels | dist/dev/index.js:133 | only that node's bias and squash change |
| Graph.ConnectDisconnect | dist/dev/index.js:133 | connecting two unconnected nodes succeeds, makes the source project to the target, and disconnecting them gives back the original graph and the new connection |
| Networks.Connect | dist/dev/index.js:663 | `Network.connect`: a `ReferenceError` exactly when an edge between distinct nodes already exists; otherwise the network stays valid, the connection is added to the registry (a set, so no duplicate), gates are kept, and the graph gains exactly that edge (or the new self weight) |
| Networks.RemoveGate | dist/dev/index.js:663 | `Network.removeGate`: an error "This connection is not gated!" exactly when the connection is not in `gates`; otherwise it leaves `gates`, its record loses the gater and gets gain 1, and nothing else changes |
| Networks.AddGate | dist/dev/index.js:663 | `Network.addGate`: a `ReferenceError` exactly when the node is not in the network; an already gated connection leaves the network as it was; otherwise the connection is appended to `gates` and records the gater |
| Networks.Disconnect | dist/dev/index.js:663 | `Network.disconnect`: "No Connection found" exactly when the edge between distinct nodes is missing; otherwise the registry forgets the connection, a registered gated one leaves `gates`, and exactly that edge goes (for a node and itself the self weight becomes 0 and every other record stays) |
| Networks.DisconnectSelf | dist/dev/index.js:663 | the self branch of `disconnect`: the self weight becomes 0, the key stays in the graph, the loop leaves the registry and, if gated and registered, `gates` |
| Networks.ResetSelf | dist/dev/index.js:663 | zeroing an ungated self loop keeps the gates and every other record |
| Networks.DisconnectEdge | dist/dev/index.js:663 | the two-node branch of `disconnect`: fails exactly when the edge is missing, otherwise exactly that edge goes from the graph, the registry and `gates` |
| Networks.DropEdgeOf | dist/dev/index.js:663 | an existing edge between distinct nodes leaves the graph, the registry and `gates`; its weight is handed back |
| Networks.DropRegistered | dist/dev/index.js:663 | an ungated edge leaves the graph and the registry, with its record handed back unchanged |
| Networks.Ungate | dist/dev/index.js:663 | the `removeGate` step inside `disconnect`: a registered gated connection loses its gate and leaves `gates`; anything else leaves the network as it was |
| Networks.ConnectValid | dist/dev/index.js:663 | adding or rewriting a connection without touching gates, and registering it, keeps the network invariant |
| Networks.GateChangedValid | dist/dev/index.js:663 | changing one connection's gate while `gates` follows suit keeps the network invariant |
| Networks.DropEdgeValid | dist/dev/index.js:663 | dropping an ungated edge from the graph and the registry keeps the network invariant |
| Networks.DropSelfValid | dist/dev/index.js:663 | resetting a self loop without touching gates, and unregistering it, keeps the network invariant |
| NetworkConstruct.Fresh | dist/dev/index.js:133 | `new Node(type)`: the given kind, the logistic squash and a bias in `[-1, 1)` |
| NetworkConstruct.Scaffold | dist/dev/index.js:663 | the constructor's node list: `inputSize` input nodes, then `outputSize` output nodes, one bias draw each |
| NetworkConstruct.Split | dist/dev/index.js:663 | the double loop's step `k` as a quotient and a remainder below the divisor |
| NetworkConstruct.SplitSum | dist/dev/index.js:663 | quotient times divisor plus remainder gives back the step number |
| NetworkConstruct.SplitUnique | dist/dev/index.js:663 | quotient and remainder are unique, so each loop step is one input-output pair |
| NetworkConstruct.Grid | dist/dev/index.js:663 | the constructor makes `inputSize * outputSize` connections |
| NetworkConstruct.GridAt | dist/dev/index.js:663 | step `k` makes an ungated connection with the `k`-th weight drawn |
| NetworkConstruct.GridCovers | dist/dev/index.js:663 | input `a` and output `b` are joined at step `a * outputSize + (b - inputSize)` |
| NetworkConstruct.GridShape | dist/dev/index.js:663 | every grid connection goes from an input position to an output position, and no two join the same pair |
| NetworkConstruct.Bare | dist/dev/index.js:663 | before the loop: a valid unscored network on nodes `0 .. inputSize+outputSize`, inputs first, only self connections and an empty registry |
| NetworkConstruct.New | dist/dev/index.js:663 | `new Network(inputSize, outputSize)`: a valid unscored network with the given sizes, inputs first then outputs, each node logistic with a bias in `[-1, 1)` |
| NetworkConstruct.NewWeights | dist/dev/index.js:663 | the connection from input `k / outputSize` to output `k % outputSize` has weight `weights[k]` and no gate |
| NetworkConstruct.NewComplete | dist/dev/index.js:663 | every input node is connected to every output node |
| NetworkConstruct.NewRegistry | dist/dev/index.js:663 | exactly `inputSize * outputSize` connections are registered, in input-major order |
| NetworkConstruct.NewRegistryEdges | dist/dev/index.js:663 | every registered connection goes from an input node to an output node |
| NetworkConstruct.NewConnections | dist/dev/index.js:663 | the registry is the grid's connections in the order the loop makes them |
| NetworkJson.Pos | dist/dev/index.js:663 | the index `toJSON` gives a listed node is its position in the node list |
| NetworkJson.NodesOf | dist/dev/index.js:133 | `Node.fromJSON` applied to every record, in order |
| NetworkJson.EntryOf | dist/dev/index.js:131 | `Connection.toJSON` with nodes numbered by position: the record names the same connection, weight and gate, and joins two different positions exactly when the connection is not a self loop |
| NetworkJson.NodeEntry | dist/dev/index.js:133 | `Node.toJSON` of the node at position `i` carries its index, kind, bias and squash |
| NetworkJson.SelfEntries | dist/dev/index.js:663 | the self-connection records `toJSON` writes join no two different positions and are in range |
| NetworkJson.Entries | dist/dev/index.js:663 | one record per registered connection, in registry order |
| NetworkJson.ToJSON | dist/dev/index.js:663 | `Network.toJSON`: one numbered record per node with its kind, bias and squash, the sizes, and the connection records |
| NetworkJson.Skeleton | dist/dev/index.js:663 | the network `fromJSON` starts from is valid |
| NetworkJson.FromJSON | dist/dev/index.js:663 | `Network.fromJSON`: on success a valid unscored network with the recorded sizes, node `i` made from record `i` |
| NetworkJson.FromJSONOk | dist/dev/index.js:663 | `fromJSON` succeeds exactly when the connection records can be wired into the skeleton |
| NetworkJson.Copy | dist/dev/index.js:663 | `copy` = `fromJSON(toJSON(this))` gives a valid network when it succeeds |
| NetworkJson.RecordsCover | dist/dev/index.js:663 | every registered connection has its record among those `toJSON` writes |
| NetworkJson.RecordsFrom | dist/dev/index.js:663 | every record is in range, and one joining two different positions belongs to a registered connection |
| NetworkJson.ToJSONWireable | dist/dev/index.js:663 | what `toJSON` writes can always be read back by `fromJSON` |
| NetworkJson.CopyNodes | dist/dev/index.js:663 | `copy` always succeeds and keeps the sizes, the number of nodes and each node's kind, bias and squash; the score is cleared |
| NetworkJson.CopyEdges | dist/dev/index.js:663 | every edge of the original appears in the copy, between the same positions, with the same weight and gate |
| NetworkJson.CopyNoNewEdges | dist/dev/index.js:663 | the copy has no edge between positions the original does not join |
| Wiring.Blank | dist/dev/index.js:663 | `fromJSON` before wiring: a valid unscored network on nodes `0 .. n-1` holding the given node records, with only unweighted ungated self connections, an empty registry and no gates |
| Wiring.NodeMap | dist/dev/index.js:663 | the node list as a map defined exactly on positions `0 .. n-1` |
| Wiring.Named | dist/dev/index.js:663 | one key per record, in record order, each the connection its positions name |
| Wiring.Place | dist/dev/index.js:663 | one step of `fromJSON`'s `connections.forEach`: on success the network stays valid and keeps its nodes, sizes and score |
| Wiring.Join | dist/dev/index.js:663 | the `connect` inside the step: a `ReferenceError` exactly when the record joins two already connected positions |
| Wiring.JoinEffect | dist/dev/index.js:663 | `connect` registers the connection (as a set) and sets only its record |
| Wiring.GateNamed | dist/dev/index.js:663 | the `addGate` inside the step: "This node is not part of the network!" exactly when the gate position is out of range; otherwise only the registry-free gate changes |
| Wiring.GateNamedEffect | dist/dev/index.js:663 | `addGate` gates the connection unless it already has a gate; every other record stays |
| Wiring.PlaceOk | dist/dev/index.js:663 | a record can be placed exactly when its positions are in range and it does not join an already connected pair |
| Wiring.PlaceErrors | dist/dev/index.js:663 | the exception each kind of bad record raises: a `TypeError` reading `connect` for a bad source, a `TypeError` reading `incoming` for a bad target, a `ReferenceError` for an existing edge and for a bad gate |
| Wiring.PlaceRegistry | dist/dev/index.js:663 | placing a record registers its connection |
| Wiring.PlaceEffect | dist/dev/index.js:663 | placing a record adds exactly its connection's key and sets only its record |
| Wiring.SettledPlaced | dist/dev/index.js:663 | after placing, a record between two positions exists with the record's weight and gate |
| Wiring.Wire | dist/dev/index.js:663 | `connections.forEach` over the records, stopping at the first exception: a success keeps the network valid and its frame |
| Wiring.WireOk | dist/dev/index.js:663 | the records wire without an exception exactly when every record is in range, no two edge records join the same pair, and none joins an already connected pair |
| Wiring.WireKeys | dist/dev/index.js:663 | wiring adds exactly the named connections |
| Wiring.WireKeeps | dist/dev/index.js:663 | wiring leaves every connection it does not name as it was |
| Wiring.WirePlaced | dist/dev/index.js:663 | once wired, every edge record is present with its weight and gate |
| Wiring.WireRegistry | dist/dev/index.js:663 | wiring registers the named connections in record order |
| Wiring.WireableStep | dist/dev/index.js:663 | a list is wireable exactly when the rest is wireable after placing the first record |
| Wiring.AddAllFresh | dist/dev/index.js:663 | adding keys that are new and pairwise different to the registry set appends them in order |
| NodeRemoval.DisconnectAll | dist/dev/index.js:663 | disconnecting a list of registered edges removes exactly those from the graph, the registry and `gates`, and keeps the network valid |
| NodeRemoval.DisconnectOne | dist/dev/index.js:663 | `disconnect` of one registered edge removes exactly that key from the graph, the registry and `gates` |
| NodeRemoval.ConnectPair | dist/dev/index.js:663 | `from.isProjectingTo(to) \|\| created.push(connect(from, to))`: afterwards the edge exists; it is reported as created exactly when it was missing; old records are untouched and a new one has weight 0 and gain 1 |
| NodeRemoval.NewPair | dist/dev/index.js:663 | connecting a pair that is not projecting yet adds exactly that edge |
| NodeRemoval.ConnectEach | dist/dev/index.js:663 | one predecessor gets an edge to every successor other than itself, and only such edges are new |
| NodeRemoval.Bypass | dist/dev/index.js:663 | the double loop joins every predecessor to every other successor, creating nothing else and leaving old records alone |
| NodeRemoval.Rehome | dist/dev/index.js:663 | the last loop of `removeNode` only gives ungated new connections a gate from the kept gaters; no registry or key changes, and with no gaters or no new connections nothing changes |
| NodeRemoval.GateOne | dist/dev/index.js:663 | one round of that loop gates one new connection and removes it from the candidates |
| NodeRemoval.InEdges | dist/dev/index.js:663 | `t.incoming`: registered edges entering the node from another node |
| NodeRemoval.OutEdges | dist/dev/index.js:663 | `t.outgoing`: registered edges leaving the node for another node |
| NodeRemoval.EdgesOfNode | dist/dev/index.js:663 | incoming and outgoing together list, once each, exactly the edges the node shares with other nodes |
| NodeRemoval.Gaters | dist/dev/index.js:663 | the gaters list collects, when `keepGates`, the gate of every removed edge other than the node itself, and nothing when not |
| NodeRemoval.Ends | dist/dev/index.js:663 | the sources (or targets) of the removed edges, one per edge |
| NodeRemoval.PredsOf | dist/dev/index.js:663 | the sources of the incoming edges are exactly the other nodes projecting to the node |
| NodeRemoval.SuccsOf | dist/dev/index.js:663 | the targets of the outgoing edges are exactly the other nodes the node projects to |
| NodeRemoval.Detach | dist/dev/index.js:663 | after disconnecting the node's edges and itself, only its zero-weight, unregistered self loop touches it and every other connection is as it was |
| NodeRemoval.StillGatesIff | dist/dev/index.js:663 | at the last step the node still gates something exactly when it gated, at the start, a connection that does not touch it (or its unregistered self loop) |
| NodeRemoval.RemoveNode | dist/dev/index.js:663 | `Network.removeNode`: a `ReferenceError` for a node that is not listed; otherwise a `TypeError` exactly when the node still gates a connection it does not touch; on success the node leaves the list, no registered edge touches it, every other connection survives (at most newly gated from the kept gaters), every new connection bridges a predecessor to a successor, every such pair is joined, and without `keepGates` no connection gains a gate |
| NodeRemoval.Conclude | dist/dev/index.js:663 | the final `removeFromArray(this.nodes, node)` step fails exactly when the node still gates something |
| NodeRemoval.Drop | dist/dev/index.js:663 | once the node gates nothing, dropping it from the list keeps the network valid and the connections as they are |
| NodeRemoval.Reroute | dist/dev/index.js:663 | detaching, bypassing and regating leave a network in which every predecessor-successor pair is joined |
| NodeRemoval.Rejoin | dist/dev/index.js:663 | the bypass step joins each former predecessor to each former successor |
| NodeRemoval.HandOut | dist/dev/index.js:663 | handing out the kept gates adds no connection |
| NodeRemoval.KeptGaters | dist/dev/index.js:663 | the kept gate nodes are listed nodes gating a removed edge, and none without `keepGates` |
| NodeRemoval.NoNewGates | dist/dev/index.js:663 | without gates to hand out, no connection gains a gate |
| NetworkGuards.ActivateCheck | dist/dev/index.js:663 | `activate`'s guard: a `RangeError` "Input size of dataset is different to network input size!" exactly when the input length is not `inputSize` |
| NetworkGuards.PropagateCheck | dist/dev/index.js:663 | `propagate`'s guard: an error "Output target length should match network output length" exactly when the target length is not `outputSize` |
| NetworkGuards.TrainCheck | dist/dev/index.js:663 | `train`'s checks: it proceeds exactly when a nonempty dataset whose first sample fits is given and a positive iteration count or error target is set; an empty dataset gives the `TypeError` reading `input`, and that is the only `TypeError` |
| NetworkGuards.TrainNeedsAStop | dist/dev/index.js:663 | without iterations and without an error target, `train` refuses to start |
| NetworkGuards.TrainWithIterationsOnly | dist/dev/index.js:663 | a fitting dataset and a positive iteration count alone start training with error target -1 |
| Crossover.SameId | dist/dev/index.js:131 | two genes with the same innovation id join the same pair of positions |
| Crossover.Table | dist/dev/index.js:663 | `crossOver`'s gene maps keyed by innovation id: every gene's id is a key, and each key maps to a gene of the list with that id |
| Crossover.TableHolds | dist/dev/index.js:663 | when ids differ, every gene is what its id maps to |
| Crossover.KeysBelow | dist/dev/index.js:663 | the ids of a map below a bound, in strictly ascending order, exactly those |
| Crossover.Keys | dist/dev/index.js:663 | the gene map's keys in ascending order, exactly those |
| Crossover.MatchedOrder | dist/dev/index.js:663 | the first pass yields genes of the first parent's ids, from one of the two maps, in descending id order |
| Crossover.MatchedShared | dist/dev/index.js:663 | when the first parent's own genes are not kept, every gene of the first pass has an id the second parent shares |
| Crossover.MatchedCovers | dist/dev/index.js:663 | the first pass takes one of the two genes for every shared id, and an id only the first parent has exactly when its genes are kept |
| Crossover.UnmatchedOrder | dist/dev/index.js:663 | the second pass yields, in ascending order, only genes of ids only the second parent has |
| Crossover.UnmatchedCovers | dist/dev/index.js:663 | the second pass yields every gene of an id only the second parent has |
| Crossover.Genes | dist/dev/index.js:663 | `toJSON().connections` of a parent: one gene per registered connection, no two joining the same pair of positions |
| Crossover.GeneTable | dist/dev/index.js:663 | a parent's gene map holds every one of its genes under its id and nothing else |
| Crossover.Padded | dist/dev/index.js:663 | the gene coins, one per id, false past the draws given |
| Crossover.PassesDiffer | dist/dev/index.js:663 | the two passes yield genes with pairwise different ids, each from one of the maps |
| Crossover.PassesCover | dist/dev/index.js:663 | every shared id gives a gene, an id of one parent only gives its gene exactly when that parent is at least as fit (or `equal`) |
| Crossover.AlignGenes | dist/dev/index.js:663 | the child's gene list: distinct ids, each gene from a parent, and covering as above |
| Crossover.Trimmed | dist/dev/index.js:663 | keeping a gene for a smaller child keeps its id and weight |
| Crossover.Kept | dist/dev/index.js:663 | the genes whose endpoints fit the child, each in range, and all of them |
| Crossover.KeptIdsDiffer | dist/dev/index.js:663 | the kept genes still have pairwise different ids |
| Crossover.Pick | dist/dev/index.js:663 | the hidden-node draw for a position is a number in `[0, 1)` |
| Crossover.ChildSize | dist/dev/index.js:663 | the offspring's size is the fitter parent's size, or a draw between the two sizes when they are equally fit or `equal` is set |
| Crossover.Members | dist/dev/index.js:663 | a parent's nodes in list order |
| Crossover.Kinds | dist/dev/index.js:663 | a parent's node kinds in list order |
| Crossover.Scan | dist/dev/index.js:663 | the search for the `w`-th input (or output) node of a parent, with a bounds check, stays inside the list |
| Crossover.ScanFinds | dist/dev/index.js:663 | the search finds a node of the kind with exactly `w` of that kind before it, and fails with the `RangeError` exactly when the parent has at most `w` of that kind |
| Crossover.InputScanDiscrepancy | dist/dev/index.js:663 | the as-written input search succeeds exactly when the checked one does and then agrees with it; where it fails it raises a `TypeError` reading `isInputNode` instead of the `RangeError` |
| Crossover.InputScanWitness | dist/dev/index.js:663 | a parent with one output and no input: the as-written search raises the `TypeError`, the checked one the `RangeError` |
| Crossover.Copied | dist/dev/index.js:663 | an input or output node of the child copies bias and squash of the parent's node of that kind and rank; a `RangeError` exactly when the parent has too few of them |
| Crossover.Drawn | dist/dev/index.js:663 | a hidden node copies bias and squash of some node of the chosen parent; it fails only for an empty parent |
| Crossover.ChildNode | dist/dev/index.js:663 | position `w` of the child: inputs first, then outputs, then hidden nodes; an input or output slot fails exactly when its source parent has too few of that kind, a hidden slot within the larger parent always succeeds, and every failure is a `RangeError`; this is the intended search: as written an input slot short of inputs fails with a `TypeError` instead (see Findings) |
| Crossover.ChildNodes | dist/dev/index.js:663 | all positions of the child, position by position, failing exactly when some position fails |
| Crossover.ChildWireable | dist/dev/index.js:663 | the kept genes can always be wired into the child's blank network |
| Crossover.Build | dist/dev/index.js:663 | the child network is valid, unscored, with the parents' sizes and the chosen nodes at positions `0 ..` |
| Crossover.BuildEdges | dist/dev/index.js:663 | every edge of the child joins two of its positions and comes from a kept gene |
| Crossover.KeysBetween | dist/dev/index.js:663 | after wiring records into a network with only self loops, every edge comes from a record |
| Crossover.BuildGenes | dist/dev/index.js:663 | every gene whose endpoints fit the child is present with its weight and gate |
| Crossover.CrossOver | dist/dev/index.js:663 | `Network.crossOver`: "Networks don`t have the same input/output size!" when the sizes differ; otherwise it fails exactly when a child node cannot be copied; on success a valid unscored child of the chosen size with the parents' input and output sizes, built from the chosen nodes and the aligned genes |
| Crossover.CrossOverLayout | dist/dev/index.js:663 | the child's nodes are numbered by position, inputs first, then outputs, then hidden nodes, and every edge joins two of them |
| Crossover.CrossOverGenes | dist/dev/index.js:663 | every aligned gene that fits the child is present with its weight and gate, and every edge of the child comes from such a gene |
| Mutation.Roll | dist/dev/index.js:129 | a draw of the mutation's random stream lies in `[0, 1)` (0 past the end) |
| Mutation.RollsFrom | dist/dev/index.js:129 | a run of draws of the requested length, each in `[0, 1)` |
| Mutation.Index | dist/dev/index.js:129 | `indexOf` on the node list: the position of a listed node, -1 for an unlisted one |
| Mutation.HiddenNodes | dist/dev/index.js:129 | the hidden nodes `SubNodeMutation` picks from: exactly the listed nodes of kind hidden, without repeats |
| Mutation.NonInputNodes | dist/dev/index.js:129 | the nodes `ModBiasMutation` and `AddGateMutation` pick from: exactly the listed nodes that are not inputs |
| Mutation.Relabelable | dist/dev/index.js:129 | the nodes `ModActivationMutation` and `SwapNodesMutation` pick from: non-inputs when `mutateOutput`, otherwise hidden nodes only |
| Mutation.Unlooped | dist/dev/index.js:129 | the nodes `AddSelfConnectionMutation` picks from: non-inputs whose self connection has weight 0 |
| Mutation.Ungated | dist/dev/index.js:129 | the connections `AddGateMutation` picks from: exactly the registered ones without a gate |
| Mutation.SelfConnections | dist/dev/index.js:129 | the connections `SubSelfConnectionMutation` picks from: exactly the registered self loops |
| Mutation.Removable | dist/dev/index.js:129 | the connections `SubConnectionMutation` (forward) or `SubBackConnectionMutation` (backward) picks from: registered ones whose source has another outgoing and whose target has another incoming connection, in the right direction |
| Mutation.Row | dist/dev/index.js:129 | the inner loop's candidate pairs for one source position |
| Mutation.ForwardSlots | dist/dev/index.js:129 | `AddConnectionMutation`'s loop visits exactly the position pairs `i < j` with `i` not among the last `outputSize` positions and `j` not an input |
| Mutation.BackSlots | dist/dev/index.js:129 | `AddBackConnectionMutation`'s loop visits exactly the pairs from a later non-input position back to an earlier non-input one |
| Mutation.Unlinked | dist/dev/index.js:129 | the pairs among the slots that are not projecting yet, and all of them |
| Mutation.ForwardPairsOpen | dist/dev/index.js:129 | the forward candidates are exactly the open forward pairs, each a new edge between two listed nodes |
| Mutation.BackPairsOpen | dist/dev/index.js:129 | the backward candidates are exactly the open backward pairs, each a new edge between two listed nodes |
| Mutation.Join | dist/dev/index.js:129 | connecting one candidate pair: nothing changes exactly when there is no candidate; otherwise exactly one candidate edge is added, registered last, with weight 0 and gain 1 |
| Mutation.Cut | dist/dev/index.js:129 | disconnecting one candidate: nothing changes exactly when there is none; otherwise exactly that edge leaves the graph, the registry and `gates` |
| Mutation.FreshHidden | dist/dev/index.js:129 | `AddNodeMutation`'s new node: hidden, bias in `[-1, 1)`, logistic unless `randomActivation`, then an allowed squash different from logistic when one exists |
| Mutation.Place | dist/dev/index.js:129 | the new node goes right after the split connection's source (never among the inputs) |
| Mutation.Graft | dist/dev/index.js:129 | inserting the new node at that place: a fresh id, its self connection, everything else kept |
| Mutation.MutateAddConnection | dist/dev/index.js:129 | `AddConnectionMutation`: nothing changes exactly when `maxConnections` is reached or no forward pair is open; otherwise one open forward pair is connected with weight 0 |
| Mutation.MutateAddBackConnection | dist/dev/index.js:129 | `AddBackConnectionMutation`: nothing changes exactly when no backward pair is open; otherwise one is connected |
| Mutation.MutateSubConnection | dist/dev/index.js:129 | `SubConnectionMutation` / `SubBackConnectionMutation`: nothing changes exactly when no connection is spare; otherwise one spare connection goes |
| Mutation.MutateModWeight | dist/dev/index.js:129 | `ModWeightMutation`: "Cannot pick from an empty array" exactly when there is no connection; otherwise only one connection's weight changes, by an amount in `[min, max]` |
| Mutation.MutateModBias | dist/dev/index.js:129 | `ModBiasMutation`: the same `RangeError` exactly when every node is an input; otherwise only one non-input's bias changes, by an amount in `[min, max]` |
| Mutation.MutateModActivation | dist/dev/index.js:129 | `ModActivationMutation`: nothing changes without a candidate; otherwise only one candidate's squash changes, staying the same exactly when no other allowed squash exists |
| Mutation.MutateAddSelfConnection | dist/dev/index.js:129 | `AddSelfConnectionMutation`: without candidates nothing changes; otherwise one candidate's self loop is registered and the graph is unchanged |
| Mutation.MutateSubSelfConnection | dist/dev/index.js:129 | `SubSelfConnectionMutation`: nothing changes exactly when no self loop is registered; otherwise one is unregistered, ungated and zeroed |
| Mutation.Unloop | dist/dev/index.js:129 | disconnecting a registered self loop unregisters it and zeroes its weight |
| Mutation.MutateAddGate | dist/dev/index.js:129 | `AddGateMutation`: nothing changes when `maxGates` is reached or every connection is gated; otherwise the `RangeError` exactly when every node is an input, and else one ungated connection is gated by a non-input and appended to `gates` |
| Mutation.MutateSubGate | dist/dev/index.js:129 | `SubGateMutation`: nothing changes exactly when nothing is gated; otherwise one gated connection loses its gate and gets gain 1 |
| Mutation.Ungate1 | dist/dev/index.js:663 | `removeGate` of a gated connection changes the network |
| Mutation.SwapLabels | dist/dev/index.js:129 | two nodes exchange bias and squash; nothing else changes |
| Mutation.SwapTwice | dist/dev/index.js:129 | swapping twice gives the graph back |
| Mutation.MutateSwapNodes | dist/dev/index.js:129 | `SwapNodesMutation`: with fewer than two candidates nothing changes; otherwise two different candidates exchange bias and squash |
| Mutation.MutateSubNode | dist/dev/index.js:129 | `SubNodeMutation`: without hidden nodes nothing changes; otherwise `removeNode` of one hidden node, which on success keeps the sizes, drops one node and keeps every input and output |
| Mutation.Prune | dist/dev/index.js:129 | removing a hidden node keeps every non-hidden node |
| Mutation.Split | dist/dev/index.js:129 | the middle of `AddNodeMutation`: the connection is removed, the new node placed after its source, joined to the source with weight 1 and to the target with the old weight; an ungated connection leaves no gate behind |
| Mutation.Regate | dist/dev/index.js:129 | the old gater, if any, gates one of the two new connections |
| Mutation.Opened | dist/dev/index.js:129 | after disconnecting and inserting the node, neither new connection exists yet |
| Mutation.Unhooked | dist/dev/index.js:129 | disconnecting a registered connection removes it from the registry and from `gates` |
| Mutation.Bridged | dist/dev/index.js:129 | connecting source to new node (weight 1) and new node to target (old weight) registers both in that order |
| Mutation.DisconnectedConn | dist/dev/index.js:663 | disconnecting a registered connection succeeds and hands back an ungated record with its weight (0 for a self loop) |
| Mutation.MutateAddNode | dist/dev/index.js:129 | `AddNodeMutation`: nothing changes when `maxNodes` is reached; otherwise the `RangeError` exactly when there is no connection, and else one connection is split by the new hidden node |
| Mutation.Rest | dist/dev/index.js:127 | the draws left after `pickRandom` used the first |
| Mutation.Mutate | dist/dev/index.js:663 | `Network.mutate(method)`: the result stays valid with the same sizes, only the throwing operators fail, and a weight, bias or activation change keeps the topology |
| Mutation.Tune | dist/dev/index.js:129 | the parametric operators keep the topology |
| Mutation.Rebuild | dist/dev/index.js:129 | the node operators keep the network valid and its sizes |
| Mutation.Rewire | dist/dev/index.js:129 | the connection and gate operators keep the network valid and its sizes |
| Mutation.MutateRandom | dist/dev/index.js:663 | `mutateRandom`: with no method nothing changes; otherwise the result is `mutate` with one of the methods; only a throwing method fails; parametric methods keep the topology |
| Mutation.NoStructureKeepsTopology | dist/dev/index.js:129 | the `NO_STRUCTURE_MUTATIONS` list never changes the topology |
| Mutation.AddNodeLosesGate | dist/dev/index.js:129 | splitting a gated connection whose gater is gone leaves one gate fewer and both new connections ungated |
| Mutation.AddNodeZeroesLoop | dist/dev/index.js:129 | splitting a self loop gives the new node's outgoing connection weight 0 |
| Mutation.SubConnectionKeepsLinks | dist/dev/index.js:129 | removing a spare connection never leaves a node without outgoing (or incoming) connections it had |
| Mutation.SubGateReaches | dist/dev/index.js:129 | every gated connection can be picked and ungated |
| Neat.LibraryFaithful | dist/dev/index.js:663 | the library's own `copy`, `crossOver` and `mutate` meet the shape promises the generation loop relies on, and crossing and mutating are exactly `Network.crossOver` and `Network.mutate` |
| Neat.LibraryCopy | dist/dev/index.js:663 | the library's copy is `fromJSON(toJSON(n))` and always succeeds |
| Neat.CopyCopies | dist/dev/index.js:663 | the library's copy of a valid network is valid and keeps its sizes |
| Neat.LibraryCrosses | dist/dev/index.js:663 | the library's crossing is `Network.crossOver` and yields valid offspring |
| Neat.LibraryMutates | dist/dev/index.js:663 | the library's mutation is `Network.mutate` and keeps validity and sizes |
| Neat.Clone | dist/dev/index.js:358-362 | `template.copy()` is a valid network with the template's sizes |
| Neat.Create | dist/dev/index.js:327-363 | `new NEAT(options)`: a `ReferenceError` "No fitness function given!" exactly when no fitness function is given; otherwise the input and output sizes come from the first dataset sample (else the options, else 0), every default is as the constructor sets it (50 genomes, elitism 2, provenance 0, rate 0.6, amount 5, `equal` true, `clear` false, feed-forward mutations, every activation), the template is the given one or a fresh unscored network of those sizes, and the population is `populationSize` copies of the template |
| Neat.Populate | dist/dev/index.js:358-362 | `size` valid copies of the template |
| Neat.SortPopulation | dist/dev/index.js:570-574 | `sort()` rearranges the population without adding or losing a genome |
| Neat.SortDescends | dist/dev/index.js:570-574 | when every genome is scored, the sorted population is in descending order of score |
| Neat.SortValid | dist/dev/index.js:570-574 | sorting keeps every genome valid |
| Neat.Score | dist/dev/index.js:538-556 | the fitness function's results become the scores of the genomes, position by position |
| Neat.Evaluate | dist/dev/index.js:538-564 | `evaluate()`: the same genomes, valid, rescored by the fitness function and rearranged by the sort |
| Neat.EvaluateDescends | dist/dev/index.js:538-564 | when the fitness function scores every genome, the evaluated population is in descending order of score |
| Neat.Unscored | dist/dev/index.js:479-481 | the `score = undefined` loop clears exactly the scores |
| Neat.NoInstanceIsAClass | dist/dev/index.js:391-393 | no operator instance's constructor name is the name `Function` that the filter compares against |
| Neat.AllowedAsWrittenKeepsAll | dist/dev/index.js:391-393 | the as-written filter keeps every configured mutation, whatever the limits |
| Neat.LimitIgnoredWitness | dist/dev/index.js:391-393 | a genome at `maxNodes` still gets `AddNodeMutation` from the as-written filter, while the intended one drops it |
| Neat.Allowed | dist/dev/index.js:388-393 | the intended filter keeps exactly the configured mutations whose growth limit (nodes, connections, gates) is not reached |
| Neat.MutateRandom | dist/dev/index.js:388-397 | `mutateRandom`: the `RangeError` "Cannot pick from an empty array" exactly when no mutation is allowed; otherwise `mutate` with an allowed mutation and the configured activations; a success keeps validity and sizes |
| Neat.MutateOnce | dist/dev/index.js:519-526 | one round of `mutate()`: the given method without options, or `mutateRandom` |
| Neat.MutateRounds | dist/dev/index.js:519-526 | `mutationAmount` rounds on one genome keep it valid with its sizes; zero rounds leave it alone |
| Neat.MutateAll | dist/dev/index.js:515-530 | `mutate()`: a genome whose draw exceeds `mutationRate` is untouched, one whose draw does not gets `mutationAmount` rounds; sizes and validity are kept and a zero amount changes nothing |
| Neat.Offspring | dist/dev/index.js:497-507 | `getOffspring()`: the `ReferenceError` "Should not be null!" when selection yields no parent; otherwise `crossOver` of the two selected parents with `equal`, a valid network when it succeeds |
| Neat.Breed | dist/dev/index.js:449-451 | the offspring loop: `count` valid children, the `j`-th from the `j`-th pair of selections |
| Neat.FilterGenome | dist/dev/index.js:372-380 | the intended `filterGenome`: same length, a genome the pick rejects stays, a picked one is adjusted or replaced by a template copy |
| Neat.FilterGenomeDropsUnpicked | dist/dev/index.js:372-380 | when no genome is picked the as-written version returns an empty population, the intended one the population itself |
| Neat.Screen | dist/dev/index.js:435-436 | the optional screening keeps the size and validity, and without `pickGenome` changes nothing |
| Neat.Current | dist/dev/index.js:422-427 | the population is evaluated only when its last genome has no score |
| Neat.Ranked | dist/dev/index.js:422-440 | the population `evolve` breeds from, with the intended screening: evaluated if needed, screened and sorted, of `populationSize` valid genomes |
| Neat.Children | dist/dev/index.js:449-451 | `populationSize - elitism - provenance` valid children, bred from the ranked population |
| Neat.Young | dist/dev/index.js:447-456 | the provenance copies plus the children, mutated, `populationSize - elitism` valid genomes |
| Neat.Mutated | dist/dev/index.js:447-456 | with independent provenance copies, mutating the template copies and the children leaves every unchosen slot as it was |
| Neat.YoungStaffed | dist/dev/index.js:447-456 | with independent provenance copies, an unchosen slot below `provenance` holds a template copy, and an unchosen later slot the matching child |
| Neat.NextGeneration | dist/dev/index.js:441-458 | the new population has `populationSize` valid genomes |
| Neat.Elitists | dist/dev/index.js:441-445 | the first `elitism` genomes of the ranked population |
| Neat.NextGenerationStaffed | dist/dev/index.js:447-458 | with independent provenance copies, the front of the new population is the template copies then the children, except where mutated |
| Neat.NextGenerationElitists | dist/dev/index.js:458 | the elitists go, unmutated, at the end of the new population |
| Neat.SlotsKept | dist/dev/index.js:454-456 | with independent provenance copies, slots the rate did not choose keep the copy or child they had |
| Neat.Conclude | dist/dev/index.js:461-481 | after the generation, with the intended screening: valid genomes with no score, and a valid fittest copy |
| Neat.Final | dist/dev/index.js:461-475 | with the intended screening, the evaluated, screened and sorted population keeps its size and validity |
| Neat.ConcludeKeeps | dist/dev/index.js:461-481 | every genome of the new population survives, its score cleared, when nothing is screened out |
| Neat.ConcludeFittest | dist/dev/index.js:475-477 | when every genome is scored, the returned fittest genome scores at least as well as every one |
| Neat.TopScore | dist/dev/index.js:570-574 | after the sort, a fully scored population's first genome has the top score |
| Neat.Advance | dist/dev/index.js:461-482 | one concluded generation of the intended program (intended screening and growth limits): a sound population of the same size, no scores, every setting kept and the generation counter up by one |
| Neat.Evolve | dist/dev/index.js:408-489 | `evolve()` with the intended screening and growth limits: the error "Can`t evolve! Elitism + provenance exceeds population size!" when they exceed it; a `TypeError` reading `score` on an empty population; on success a sound population, all scores cleared, settings kept and the generation counter up by one |
| Neat.EvolveKeepsElitists | dist/dev/index.js:441-481 | every elitist of the ranked population is in the new population, its score cleared |
| Neat.GetFittest | dist/dev/index.js:582-607 | `getFittest()`: fails exactly on an empty population; otherwise returns the first genome after evaluating if needed and sorting, and when all are scored none scores higher |
| Neat.FittestFirst | dist/dev/index.js:570-574 | after the sort a fully scored population's first genome scores highest |
| Neat.Scores | dist/dev/index.js:615-646 | the scores summed, a missing score counting as 0 |
| Neat.GetAverage | dist/dev/index.js:615-646 | `getAverage()`: fails exactly on an empty population; otherwise the average times the size is the sum of the scores; the population is evaluated only when its last score is missing |
| Neat.Mean | dist/dev/index.js:615-646 | the sum divided by the size, times the size, is the sum |
| Neat.AverageBetween | dist/dev/index.js:615-646 | the average lies between any bounds of the scores |
| Neat.ReplacePopulation | dist/dev/index.js:653-656 | `replacePopulation`: the genomes replace the population and `populationSize` becomes their number; nothing else changes |
| Species.New | src/architecture/Species.ts:26-34 | a new species has exactly its representative as member, size 1 and score 0 |
| Species.Size | src/architecture/Species.ts:109-111 | `size()` is the number of distinct members |
| Species.ForcePut | src/architecture/Species.ts:53-59 | `forcePut`: `undefined` changes nothing; otherwise the network joins the members (once), keeping the old members, representative and score |
| Species.Put | src/architecture/Species.ts:40-47 | `put`: true exactly when the distance is below the threshold, and then the network is a member; otherwise nothing changes |
| Species.ScoresOrZero | src/architecture/Species.ts:64-68 | each member's score, a missing score counting as 0 |
| Species.EvaluateScore | src/architecture/Species.ts:64-68 | `evaluateScore`: the score times the number of members is the sum of the members' scores; no number for an empty species (JavaScript's `0 / 0`) |
| Species.EvaluateScoreBounds | src/architecture/Species.ts:64-68 | the species score lies between any bounds of its members' scores |
| Species.ResetAsWritten | src/architecture/Species.ts:74 | `reset` as written passes a `Set` to `pickRandom`, which reads its missing `length` and throws a `TypeError` for every species |
| Species.ResetDiscrepancy | src/architecture/Species.ts:74 | a fresh species cannot be reset as written, while the intended reset returns it unchanged |
| Species.Reset | src/architecture/Species.ts:73-80 | the intended `reset`: a `RangeError` exactly for an empty species; otherwise a member becomes the representative and the only member, with score 0 |
| Species.Ranked | src/architecture/Species.ts:87-90 | the TimSort of the members rearranges them without loss |
| Species.RankedAscending | src/architecture/Species.ts:87-90 | when every member is scored, the sorted members are in ascending order of score |
| Species.Kill | src/architecture/Species.ts:86-97 | `kill`: the amount is `floor(percentage * size)`; a `TypeError` when it exceeds the size (reading `species` of `undefined`); otherwise that many members go (none for a negative amount), and, when every member is scored, exactly the lowest-ranked ones, each scoring at most every survivor |
| Species.DeleteRankedPrefix | src/architecture/Species.ts:93-96 | deleting the first `cut` sorted members leaves the rest, distinct |
| Species.KillRemovesLowest | src/architecture/Species.ts:86-97 | when every member is scored, every killed member scores at most every survivor |
| Species.GetBest | src/architecture/Species.ts:113-116 | `getBest`: nothing for an empty species; otherwise the first member no other member's score exceeds (missing scores as `-Infinity`) |
| Selection.LowestScore | src/methods/Selection.ts:31-36 | the minimal fitness is at most 0 and at most every present score |
| Selection.SlicesNonNegative | src/methods/Selection.ts:38-45 | after the shift every genome's slice of the wheel is non-negative |
| Selection.SlicesSumToTotal | src/methods/Selection.ts:35-45 | the slices add up to the total fitness the wheel is spun over |
| Selection.CumulativeMonotone | src/methods/Selection.ts:44-45 | the running value never decreases |
| Selection.Spin | src/methods/Selection.ts:44-49 | the loop returns the first genome whose running value passes the draw, that is the one whose slice holds it; none only when the draw reaches the total |
| Selection.FitnessProportionateSelect | src/methods/Selection.ts:30-52 | roulette selection: a `RangeError` exactly on an empty population (from the final `pickRandom`); otherwise an index into it |
| Selection.RouletteHitsSlice | src/methods/Selection.ts:41-49 | a draw below the total always lands in some genome's slice |
| Selection.PowOfDrawIsDraw | src/methods/Selection.ts:82 | `random ** power` of a draw in `[0, 1)` is again in `[0, 1)` for a natural power |
| Selection.PowerSelect | src/methods/Selection.ts:81-83 | power selection: an index below the population size for a non-empty population and a power of at least 1; none (`population[length]`) for power 0 |
| Selection.Entrants | src/methods/Selection.ts:126-129 | the tournament entrants are `size` members of the population |
| Selection.WinnerIndex | src/methods/Selection.ts:140-144 | the first entrant whose acceptance draw is below the probability, else the last |
| Selection.TournamentSelect | src/methods/Selection.ts:118-146 | tournament selection: the error when the size exceeds the population; a `RangeError` for size 0 on an empty population; otherwise a member, and for size at least 1 the entrant ranked at the winning index |
| Selection.TournamentRanking | src/methods/Selection.ts:131-137 | the sorted entrants have the truthy scores first, in descending order |
| Population.CreateNetworks | src/population/Population.ts:96-112 | fails exactly when the population is non-empty and neither a template nor two non-zero sizes are given; otherwise returns populationSize networks, each a deep copy of the template or, in slot `i`, the `i`-th fresh Network(input, output) with its own random draws |
| Population.RequireScores | src/population/Population.ts:131-140 | fails exactly when some network has a falsy score; otherwise the networks are unchanged |
| Population.CalculateScores | src/population/Population.ts:120-141 | the fitness function wins over the dataset, which wins over the score check; with a dataset every score becomes the negated test loss; the error case is exactly "no fitness, no dataset, some score missing" |
| Population.SortNetworks | src/population/Population.ts:72-79 | the sorted networks are a permutation of the input |
| Population.GetBest | src/population/Population.ts:67-70 | None exactly for an empty population; otherwise a member whose score is at least every truthy score |
| Population.BestOf | src/population/Population.ts:67-70 | the imperative getBest agrees with the functional one |
| Population.ClearScores | src/population/Population.ts:61 | same length, same networks, every score undefined |
| Population.Pass | src/population/Population.ts:38-62 | a successful generation pass leaves every score undefined |
| Population.Evolve | src/population/Population.ts:32-65 | fails exactly when scoring or a pass fails; otherwise the population is the sorted result of the passes, the generation counter reaches max(generation, iterations), the returned best is the head of the sorted population, and after at least one pass every score is cleared |
| Population.SortKeepsCleared | src/population/Population.ts:61-69 | sorting a population whose scores were cleared keeps them cleared |
| Population.RunPasses | src/population/Population.ts:38-62 | the while loop equals the k-fold iteration of the pass, and after at least one pass every score is undefined |
| Population.EvolutionAfterScoring | src/population/Population.ts:33-38 | once the initial scoring succeeds, evolution is the iteration of passes from the scored population |
| Population.IterateOnce | src/population/Population.ts:38-62 | one more loop turn applies the pass to the current population |
| Population.IterateStopsAtFailure | src/population/Population.ts:38-62 | the first throwing pass ends the loop: later iteration counts give the same error |
| InstinctPopulation.Breed | src/population/InstinctPopulation.ts:17-31 | RangeError when elitists exceed the population size; otherwise the first elitists networks are kept in place, slot elitists+t holds the crossover of the t-th pair of selections, and the call fails exactly when one of those selections fails |
| InstinctPopulation.Mutate | src/population/InstinctPopulation.ts:33-52 | elitists and networks whose draw is not at most the mutation rate are unchanged; every other network receives mutationAmount random mutations in order |
| InstinctPopulation.NaNDrawsMutateNothing | src/population/InstinctPopulation.ts:46 | when every draw is NaN (randDouble called without bounds) no network is mutated |
| NeatPopulation.Configure | src/population/NEATPopulation.ts:41-47 | each setting takes its option or its default (1, 0.5, 2, 15, 15), and c2 and c3 copy c1 |
| NeatPopulation.ConfigureIgnoresC2C3 | src/population/NEATPopulation.ts:42-43 | the c2 and c3 options have no effect on the configuration |
| NeatPopulation.Initial | src/population/NEATPopulation.ts:37-40 | a new population has no species, stagnation 0 and no high score |
| NeatPopulation.UpdateStagnation | src/population/NEATPopulation.ts:56-64 | a better top score resets stagnation and becomes the high score; otherwise stagnation grows by one and the high score stays; afterwards the stored high score is never beaten by the stored one |
| NeatPopulation.CheckStagnation | src/population/NEATPopulation.ts:56-64 | fails with TypeError exactly when there is no species; otherwise stagnation is reset exactly when the first species beats the high score, and networks and species are untouched |
| NeatPopulation.KillStaleSpecies | src/population/NEATPopulation.ts:113-115 | keeps exactly the species whose stagnation is below the limit, as a sub-multiset, and keeps all of them when none is stale |
| NeatPopulation.SortSpecies | src/population/NEATPopulation.ts:121-127 | the sorted species are a permutation of the input |
| NeatPopulation.SortSpeciesOrder | src/population/NEATPopulation.ts:121-127 | species with a truthy high score come first in descending order |
| NeatPopulation.KillBadSpecies | src/population/NEATPopulation.ts:206-211 | keeps exactly the species whose share of the adjusted-average sum, times the population size, is at least 1 (with the JavaScript division-by-zero outcomes) |
| NeatPopulation.FirstCompatible | src/population/NEATPopulation.ts:176-183 | finds the first species compatible with the genome, or reports that none is |
| NeatPopulation.Place | src/population/NEATPopulation.ts:175-187 | the genome joins the first compatible species, or founds a new species at the end |
| NeatPopulation.PlaceAllBounds | src/population/NEATPopulation.ts:173-188 | placing k genomes adds between 0 and k species, and at least one species exists once a genome is placed |
| NeatPopulation.ResetAll | src/population/NEATPopulation.ts:174 | every species is reset, in place |
| NeatPopulation.Speciate | src/population/NEATPopulation.ts:173-188 | speciation never loses species, adds at most one per network, and a non-empty population yields a species |
| NeatPopulation.NodeIdsDistinct | src/population/NEATPopulation.ts:130-153 | template node ids are distinct and lie in [counter, counter + node count) |
| NeatPopulation.CountKinds | src/population/NEATPopulation.ts:130-153 | the three passes over input, output and hidden nodes together visit every node once |
| NeatPopulation.AssignIds | src/population/NEATPopulation.ts:132-138 | one pass numbers the nodes of one kind consecutively from the counter and records each id as mapping to itself |
| NeatPopulation.CreateNodeIds | src/population/NEATPopulation.ts:130-153 | input nodes are numbered first, then outputs, then hidden nodes; the map holds exactly the new ids, each mapped to itself, and the counter advances by the node count |
| NeatPopulation.Increment | src/population/NEATPopulation.ts:137 | incrementing an undefined counter stays undefined (NaN); a number grows by one |
| NeatPopulation.CreateNodeIdsAsWritten | src/population/NEATPopulation.ts:7-153 | with the counter never initialised every id and the counter are undefined; with a number the ids are those of CreateNodeIds |
| NeatPopulation.Iterated | src/population/NEATPopulation.ts:137 | k increments of a number add k |
| NeatPopulation.GuardMissesUninitialised | src/population/NEATPopulation.ts:157 | starting from the uninitialised counter, the `=== 0` guard never fires, however many nodes were numbered |
| NeatPopulation.InitialisedCounterIds | src/population/NEATPopulation.ts:130-157 | with the counter initialised to 0, ids are distinct and below the node count, and the guard fires exactly for a template without nodes |
| NeatPopulation.CreateConnIds | src/population/NEATPopulation.ts:156-166 | ReferenceError exactly when the node counter is 0; otherwise connection i gets id connCounter+i, the map's keys are the paired endpoints, and each key maps to the id of the last connection with that pair |
| NeatPopulation.ConnIdsWithInjectivePairing | src/population/NEATPopulation.ts:160-164 | with an injective pairing and distinct endpoint pairs every connection's key maps to its own id |
| NeatPopulation.Champion | src/population/NEATPopulation.ts:243 | at most one champion per species |
| NeatPopulation.Births | src/population/NEATPopulation.ts:249-251 | a species breeds exactly count children, the i-th from the i-th breeding draw |
| NeatPopulation.ChampionsKept | src/population/NEATPopulation.ts:241-244 | the best network of every species with at least 5 members is in the offspring |
| NeatPopulation.Reproduce | src/population/NEATPopulation.ts:234-260 | RangeError exactly when there is no species; otherwise the new population is the per-species offspring followed by children of the first species up to the population size, and the species list is emptied |
| NeatPopulation.BreederSign | src/population/NEATPopulation.ts:206-211 | a species that survives the bad-species filter has an adjusted average of the same sign as the sum (positive when the sum is 0) |
| NeatPopulation.SumSign | src/population/NEATPopulation.ts:217-223 | a sum of all-positive (all-negative) averages is positive (negative) |
| NeatPopulation.KilledNeverUnbounded | src/population/NEATPopulation.ts:206-250 | after killBadSpecies no surviving species can make numChildren infinite: the survivors' sum is never 0 with a positive average |
| NeatPopulation.KillAndReproduce | src/population/NEATPopulation.ts:71-73 | killBadSpecies followed by reproduce fails exactly when no species can breed, and otherwise fills the population |
| NeatPopulation.Mutate | src/population/NEATPopulation.ts:76-89 | mutate always throws |
| NeatPopulation.EvolveNeverCompletesAPass | src/population/NEATPopulation.ts:76-89 | an evolve run of at least one pass on a NEATPopulation always ends in an error |

## Left out

- Numbers are `real`.
  NaN, ±Infinity and floating-point rounding are not modelled.
  An `Infinity` limit of `NEAT` is `None`.
  A NaN draw is `None` only where the source produces one, in `InstinctPopulation.Mutate`.
- `ArrayUtils.Max`, `ArrayUtils.Min`, `ArrayUtils.MaxValueIndex`, `ArrayUtils.MinValueIndex` and `ArrayUtils.Sum` follow src/utils/Utils.ts, which reads `undefined` or returns 0 on an empty array.
  The development bundle's copy of these helpers (dist/dev/index.js:127) throws a `RangeError` there instead.
- `Graph.NodeConnect` and `Graph.NodeDisconnect` return a bare error when the two-sided call throws on its second half.
  The first half, already done by the source before the throw, is not kept.
- `NodeRemoval.RemoveNode` returns a bare error on the `TypeError` of its unbound `removeGate` call.
  The disconnections and bypass connections made before that throw are not kept.
- `Species.Kill` returns a bare error on the `TypeError` past the end of the ranking.
  The deletions made before that throw are not kept.
- `Species.Kill` names the deleted members only when every member is scored.
  With an unscored member the comparator calls some pairs equal and orders others, so the outcome depends on TimSort's run detection, which `StableSort` does not model.
  The ranking used then is a stable sort under the same comparator, and only the count and the sub-multiset property are promised.
- `Graph.NodeAddGate` and `Graph.NodeRemoveGate` require the connection to be ungated or gated by the same node.
  The source also accepts a connection gated by another node, which leaves the old gater's `gated` set out of step.
  The model keeps the gate registries consistent instead.
- `NetworkJson.FromJSON` requires the JSON node indices to be 0, 1, 2, … in order.
  The source places each node at `nodes[index]` for any index, leaving holes for gaps and reordering for permutations.
- `Selection.PowerSelect` takes a natural-number power.
  The source accepts any number, such as 0.5 or a negative power.
- `Selection.TournamentSelect` takes a natural-number size.
  The source accepts any number.
- `NeatPopulation.CreateNodeIds` and `NeatPopulation.CreateConnIds` take the counter as a number.
  The source's static counters are never initialised; that case is the finding modelled by `NeatPopulation.CreateNodeIdsAsWritten`.
- `NeatPopulation.Reproduce` requires that no species would breed infinitely many children.
  Its only caller runs `killBadSpecies` first, and `NeatPopulation.KilledNeverUnbounded` proves the survivors always meet this; `NeatPopulation.KillAndReproduce` composes the two without the requirement.
- The `breed` of `NEATPopulation` is modelled as its steps: speciation, stagnation, stale-species and bad-species removal, and reproduction.
  The steps are not composed into one function.
  `cullSpecies` is left out: the `cull` and `fitnessSharing` it calls, like `getAvgAdjustedScore`, `bestNetwork` and `stagnation`, are not defined by src/architecture/Species.ts, so species are an abstract type reached through `NeatPopulation.SpeciesApi`.
- `Species.breed`, the species distance threshold (`NEAT.SPECIES_DISTANCE_THRESHOLD`) and the `pairing` function used by `NEATPopulation` are parameters.
  Their definitions are not in the modelled files.
- Logging (`log`, `console.log`) is not modelled.
  `Population.log` calls `getBest`, which sorts the networks, so `Population.Pass` sorts at that point.
- Neat.Mutated, Neat.YoungStaffed, Neat.NextGenerationStaffed, Neat.SlotsKept: in `NEAT.evolve`, `Array(provenance).fill(template.copy())` puts one shared network into every provenance slot, and each mutation of one slot mutates them all.
  These members treat the slots as independent copies, so with `provenance >= 2` and a chosen provenance slot, their promise that unchosen provenance slots keep a template copy is not the source's: there every provenance slot holds the one network, mutated once per chosen slot.
- NetworkConstruct.New: the constructor's weights `(Math.random() - .5) * inputSize * Math.sqrt(2 / inputSize)` (dist/dev/index.js:663) are the free parameter `weights`; the draw is abstracted and the model states no range for it.
- `NEAT.evolve` is asynchronous; the model is one synchronous call.
  The `clear` option makes `evaluate` reset each genome's activation state, which is not modelled.
- `NEAT.mutate` draws `Math.random()` per genome and then per mutation.
  The model passes one draw per slot and a roll sequence per mutation instead of one shared random stream.
- The default activation list of `NEAT` (`ALL_ACTIVATIONS`) is a catalogue parameter.
  The squashing functions themselves, and all numeric activation, propagation and training, are not part of this model; only the guards of `activate`, `propagate` and `train` are.
- The operators that `Neat` calls are tied to the library's definitions by the predicates `Neat.Faithful` and `Neat.Genuine`.
- The fitness function of `NEAT`, the test loss of `Population` and the selection methods passed to the populations are parameters.
- `Crossover.ChildNode` uses the intended input-node search (`Crossover.Scan`).
  As written, an input slot whose source parent has too few input nodes throws a `TypeError`, not the `RangeError` the row states; `Crossover.InputScanDiscrepancy` shows that the two searches agree everywhere else.
- `Neat.Ranked` is built on the intended screening (`Neat.Screen`).
  As written, `filterGenome` drops every genome `pickGenome` rejects, so the ranked population can be smaller than `populationSize`.
- `Neat.Final` is built on the intended screening.
  As written, the final screen drops rejected genomes, so the population need not keep its size.
- `Neat.Conclude` is built on the intended screening.
  As written, rejected genomes are dropped before the fittest is copied, and `population[0].copy()` throws a `TypeError` when every genome is rejected.
- `Neat.Advance` is built on the intended screening and the intended `mutateRandom` filter (`Neat.Allowed`).
  As written, the population can shrink, and `AddNodeMutation`, `AddConnectionMutation` and `AddGateMutation` stay on offer past `maxNodes`, `maxConnections` and `maxGates`.
- `Neat.Evolve` is built on the intended screening and the intended `mutateRandom` filter.
  As written, `evolve` differs in the same two ways: screening can shrink the population, and the growth limits are ignored.
- `NeatPopulation.Mutate` only throws, as the source's `mutate` does.
  Evolution of a `NEATPopulation` therefore never completes a pass.
- Layers, `Architect` and the other network builders are not part of this model.

## Findings

| source | as written | input that shows it | evidently intended | confidence | as-written member | corrected member |
|---|---|---|---|---|---|---|
| src/population/NEATPopulation.ts:7-8 | the static `nodeCounter` and `connCounter` are never initialised, so `nodeCounter++` yields NaN ids and the `nodeCounter === 0` guard at line 157 never fires | any template, numbered on the first construction | counters that start at 0 | not executed | NeatPopulation.CreateNodeIdsAsWritten, NeatPopulation.GuardMissesUninitialised | NeatPopulation.CreateNodeIds, NeatPopulation.InitialisedCounterIds |
| dist/dev/index.js:663 | the input-node search of `crossOver` tests `O++ >= length` before incrementing, so on a parent with too few input nodes it reads past the end and throws a `TypeError` | a parent whose node list is `[OUTPUT]` when an input node is wanted | the `RangeError` "something is wrong with the size of the input", as the output search throws | not executed | Crossover.InputScanWitness, Crossover.InputScanDiscrepancy | Crossover.Scan, Crossover.ScanFinds |
| src/architecture/Species.ts:74 | `reset` hands the `Set` of members to `pickRandom`, which reads its `length` (undefined) and picks `undefined`; line 78 then throws a `TypeError` | any species, for example one with a single member | a random member becomes the representative and only member | not executed | Species.ResetAsWritten, Species.ResetDiscrepancy | Species.Reset |
| src/population/InstinctPopulation.ts:46 | `randDouble()` is called without bounds, so the draw is NaN and `NaN <= mutationRate` is false: no network is ever mutated | any population with mutationRate 1 | a draw in `[0, 1)` compared with the rate | not executed | InstinctPopulation.NaNDrawsMutateNothing | InstinctPopulation.Mutate |
| dist/dev/index.js:372-380 | `filterGenome` filters the population by `pickGenome` and maps the kept genomes, so the unpicked genomes are dropped | a population where `pickGenome` selects nothing: it becomes empty | picked genomes replaced, the rest kept in place | not executed | Neat.FilterGenomeDropsUnpicked | Neat.FilterGenome, Neat.Screen |
| dist/dev/index.js:391-393 | the limit tests of `mutateRandom` compare the method's class name with `AddNodeMutation.constructor.name`, which is `Function`, so every method is always kept; moreover the filter is one `||` chain of six disjuncts, and no method can match all three class names, so the chain would keep every method even with correct names, and `Allowed` is a reading of the intent rather than a one-token fix | a network at `maxNodes` with only `AddNodeMutation` allowed | `AddNodeMutation` dropped at `maxNodes`, and likewise for connections and gates | not executed | Neat.AllowedAsWrittenKeepsAll, Neat.LimitIgnoredWitness | Neat.Allowed, Neat.MutateRandom |
