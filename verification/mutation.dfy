/**
 * The mutation operators: fourteen classes, each with a `mutate(network,
 * options)` that checks an optional size limit, gathers its candidates
 * (nodes, connections or node pairs) in the order the source visits them,
 * and changes one random candidate, or nothing when there is none. Every
 * `Math.random()` an operator makes is an explicit draw in [0, 1), passed in
 * the order the source makes the calls.
 */
module Mutation {
  import opened Results
  import opened Enums
  import opened Graph
  import opened Networks
  import OrderedSet
  import ArrayUtils
  import JsArray
  import NodeRemoval

  /** One mutation operator with its constructor arguments. */
  datatype Operator =
    | AddNodeMutation(randomActivation: bool)
    | SubNodeMutation(keepGates: bool)
    | AddConnectionMutation
    | SubConnectionMutation
    | ModWeightMutation(min: real, max: real)
    | ModBiasMutation(min: real, max: real)
    | ModActivationMutation(mutateOutput: bool)
    | AddSelfConnectionMutation
    | SubSelfConnectionMutation
    | AddGateMutation
    | SubGateMutation
    | AddBackConnectionMutation
    | SubBackConnectionMutation
    | SwapNodesMutation(mutateOutput: bool)

  /** `ALL_MUTATIONS`: every operator, built with its default arguments. */
  const AllMutations: seq<Operator> :=
    [AddNodeMutation(true), SubNodeMutation(true), AddConnectionMutation, SubConnectionMutation,
     ModWeightMutation(-1.0, 1.0), ModBiasMutation(-1.0, 1.0), ModActivationMutation(false),
     AddGateMutation, SubGateMutation, AddSelfConnectionMutation, SubSelfConnectionMutation,
     AddBackConnectionMutation, SubBackConnectionMutation, SwapNodesMutation(false)]

  /** `FEEDFORWARD_MUTATIONS`: the operators that make no gate, self connection or back connection. */
  const FeedForwardMutations: seq<Operator> :=
    [AddNodeMutation(true), SubNodeMutation(true), AddConnectionMutation, SubConnectionMutation,
     ModWeightMutation(-1.0, 1.0), ModBiasMutation(-1.0, 1.0), ModActivationMutation(false), SwapNodesMutation(false)]

  /** `NO_STRUCTURE_MUTATIONS`: weights, biases and activations only. */
  const NoStructureMutations: seq<Operator> :=
    [ModWeightMutation(-1.0, 1.0), ModBiasMutation(-1.0, 1.0), ModActivationMutation(false)]

  /** `ONLY_STRUCTURE`: every operator but the three of `NO_STRUCTURE_MUTATIONS`. */
  const OnlyStructure: seq<Operator> :=
    [AddNodeMutation(true), SubNodeMutation(true), AddConnectionMutation, SubConnectionMutation,
     AddGateMutation, SubGateMutation, AddSelfConnectionMutation, SubSelfConnectionMutation,
     AddBackConnectionMutation, SubBackConnectionMutation, SwapNodesMutation(false)]

  /**
   * The options `mutate` reads. `undefined` is `None`; a limit of
   * `Infinity`, which no size reaches, behaves as `None` does.
   */
  datatype Options = Options(maxNodes: Option<real>, maxConnections: Option<real>, maxGates: Option<real>,
                             allowedActivations: Option<seq<Squash>>)

  /** `limit !== undefined && size >= limit`: the operator does nothing. */
  predicate Reached(limit: Option<real>, size: nat) {
    limit.Some? && size as real >= limit.value
  }

  /** Every entry is a draw in [0, 1). */
  predicate Rolls(rolls: seq<real>) {
    forall i :: 0 <= i < |rolls| ==> IsDraw(rolls[i])
  }

  /** The draw at position `i`; a position past the end draws 0. */
  function Roll(rolls: seq<real>, i: int): (r: real)
    requires Rolls(rolls)
    ensures IsDraw(r)
  {
    if 0 <= i < |rolls| then rolls[i] else 0.0
  }

  /** `count` draws starting at position `i`. */
  function RollsFrom(rolls: seq<real>, i: nat, count: nat): (r: seq<real>)
    requires Rolls(rolls)
    ensures |r| == count && Rolls(r)
  {
    var r := seq(count, k => Roll(rolls, i + k));
    assert forall k :: 0 <= k < |r| ==> r[k] == Roll(rolls, i + k);
    r
  }

  /** `nodes.indexOf(x)`, -1 when absent. */
  function Index(s: seq<NodeId>, x: NodeId): (i: int)
    ensures x in s ==> 0 <= i < |s| && s[i] == x
    ensures x !in s ==> i == -1
  {
    match ArrayUtils.IndexOf(s, x)
    case None => -1
    case Some(p) => p
  }

  // ---------------------------------------------------------------------
  // Candidates
  // ---------------------------------------------------------------------

  /** The type of node `v`, `Hidden` for a node that does not exist. */
  function KindOf(n: Network, v: NodeId): NodeType {
    if v in n.heap.nodes then n.heap.nodes[v].kind else Hidden
  }

  /** `nodes.filter(isHiddenNode)`. */
  function HiddenNodes(n: Network): (r: seq<NodeId>)
    ensures forall v :: v in r <==> v in n.nodes && KindOf(n, v) == Hidden
    ensures OrderedSet.Distinct(n.nodes) ==> OrderedSet.Distinct(r)
  {
    var keep := v => KindOf(n, v) == Hidden;
    JsArray.FilterMembers(n.nodes, keep);
    FilterDistinct(n.nodes, keep);
    JsArray.Filter(n.nodes, keep)
  }

  /** `nodes.filter(n => !n.isInputNode())`. */
  function NonInputNodes(n: Network): (r: seq<NodeId>)
    ensures forall v :: v in r <==> v in n.nodes && KindOf(n, v) != Input
    ensures OrderedSet.Distinct(n.nodes) ==> OrderedSet.Distinct(r)
  {
    var keep := v => KindOf(n, v) != Input;
    JsArray.FilterMembers(n.nodes, keep);
    FilterDistinct(n.nodes, keep);
    JsArray.Filter(n.nodes, keep)
  }

  /** The nodes `ModActivationMutation` and `SwapNodesMutation` choose from. */
  function Relabelable(n: Network, mutateOutput: bool): (r: seq<NodeId>)
    ensures forall v :: v in r <==> v in n.nodes && (if mutateOutput then KindOf(n, v) != Input else KindOf(n, v) == Hidden)
    ensures OrderedSet.Distinct(n.nodes) ==> OrderedSet.Distinct(r)
  {
    if mutateOutput then NonInputNodes(n) else HiddenNodes(n)
  }

  /** The non-input nodes whose self connection has weight 0: those `AddSelfConnectionMutation` chooses from. */
  function Unlooped(n: Network): (r: seq<NodeId>)
    ensures forall v :: v in r <==> v in n.nodes && KindOf(n, v) != Input && Key(v, v) in n.heap.conns && n.heap.conns[Key(v, v)].weight == 0.0
  {
    var keep := v => KindOf(n, v) != Input && Key(v, v) in n.heap.conns && n.heap.conns[Key(v, v)].weight == 0.0;
    JsArray.FilterMembers(n.nodes, keep);
    JsArray.Filter(n.nodes, keep)
  }

  /** `Array.from(connections).filter(c => c.gateNode === null)`. */
  function Ungated(n: Network): (r: seq<Key>)
    ensures forall k :: k in r <==> k in n.connections && k in n.heap.conns && n.heap.conns[k].gate.None?
  {
    var keep := k => k in n.heap.conns && n.heap.conns[k].gate.None?;
    JsArray.FilterMembers(n.connections, keep);
    JsArray.Filter(n.connections, keep)
  }

  /** `Array.from(connections).filter(c => c.from === c.to)`. */
  function SelfConnections(n: Network): (r: seq<Key>)
    ensures forall k :: k in r <==> k in n.connections && k.from == k.to
  {
    var keep := (k: Key) => k.from == k.to;
    JsArray.FilterMembers(n.connections, keep);
    JsArray.Filter(n.connections, keep)
  }

  /**
   * The test of `SubConnectionMutation` (`forward`) and of
   * `SubBackConnectionMutation`: the source has more than one outgoing edge,
   * the target more than one incoming edge, and the target comes after the
   * source in the node list (before it, for a back connection).
   */
  predicate Spare(n: Network, k: Key, forward: bool) {
    |Outgoing(n.heap, k.from)| > 1 && |Incoming(n.heap, k.to)| > 1 &&
    if forward then Index(n.nodes, k.to) > Index(n.nodes, k.from) else Index(n.nodes, k.from) > Index(n.nodes, k.to)
  }

  /** The registered connections that pass `Spare`, in registry order: the three chained filters. */
  function Removable(n: Network, forward: bool): (r: seq<Key>)
    ensures forall k :: k in r <==> k in n.connections && Spare(n, k, forward)
  {
    var keep := k => Spare(n, k, forward);
    JsArray.FilterMembers(n.connections, keep);
    JsArray.Filter(n.connections, keep)
  }

  /** A filter keeps a sequence free of repeats. */
  lemma FilterDistinct<T>(s: seq<T>, keep: T -> bool)
    ensures OrderedSet.Distinct(s) ==> OrderedSet.Distinct(JsArray.Filter(s, keep))
  {
    var r := JsArray.Filter(s, keep);
    forall i | 0 <= i < |r| && OrderedSet.Distinct(s)
      ensures multiset(r)[r[i]] == 1
    {
      assert r[i] in multiset(r);
      var j :| 0 <= j < |s| && s[j] == r[i];
    }
  }

  /** The position pairs `(i, j)` with `lo <= j < hi`, in order of `j`. */
  function Row(i: nat, lo: nat, hi: nat): (r: seq<(nat, nat)>)
    ensures forall p :: p in r <==> p.0 == i && lo <= p.1 < hi
    decreases hi - lo
  {
    if lo >= hi then [] else [(i, lo)] + Row(i, lo + 1, hi)
  }

  /**
   * The position pairs `AddConnectionMutation` visits from row `i` on: a
   * source before the last `outputs` positions, a target after the source
   * and not before position `inputs`.
   */
  function ForwardSlots(i: nat, len: nat, inputs: nat, outputs: nat): (r: seq<(nat, nat)>)
    ensures forall p :: p in r <==> i <= p.0 && p.0 + outputs < len && p.0 < p.1 < len && inputs <= p.1
    decreases len - i
  {
    if i + outputs >= len then []
    else Row(i, if i + 1 < inputs then inputs else i + 1, len) + ForwardSlots(i + 1, len, inputs, outputs)
  }

  /**
   * The position pairs `AddBackConnectionMutation` visits from row `o` on:
   * a source at `o` or later, a target before it and not before position
   * `inputs`.
   */
  function BackSlots(o: nat, len: nat, inputs: nat): (r: seq<(nat, nat)>)
    ensures forall p :: p in r <==> o <= p.0 < len && inputs <= p.1 < p.0
    decreases len - o
  {
    if o >= len then [] else Row(o, inputs, o) + BackSlots(o + 1, len, inputs)
  }

  /** The slots whose first node does not project to the second, as connection keys, in slot order. */
  function Unlinked(n: Network, slots: seq<(nat, nat)>): (r: seq<Key>)
    requires Valid(n.heap) && NodesOk(n)
    requires forall p :: p in slots ==> p.0 < |n.nodes| && p.1 < |n.nodes|
    ensures forall k :: k in r ==> exists p :: p in slots && k == Key(n.nodes[p.0], n.nodes[p.1]) && !IsProjectingTo(n.heap, k.from, k.to)
    ensures forall p :: p in slots && !IsProjectingTo(n.heap, n.nodes[p.0], n.nodes[p.1]) ==> Key(n.nodes[p.0], n.nodes[p.1]) in r
  {
    if |slots| == 0 then []
    else
      var p := slots[0];
      var rest := Unlinked(n, slots[1..]);
      assert forall q :: q in slots[1..] ==> q in slots;
      assert forall q :: q in slots ==> q == p || q in slots[1..];
      if IsProjectingTo(n.heap, n.nodes[p.0], n.nodes[p.1]) then rest else [Key(n.nodes[p.0], n.nodes[p.1])] + rest
  }

  /**
   * `from -> to` may be added by `AddConnectionMutation`: `from` sits before
   * the last `outputSize` positions, `to` after `from` and not among the
   * first `inputSize` positions, and no edge joins them yet.
   */
  ghost predicate ForwardOpen(n: Network, k: Key) {
    exists i, j :: 0 <= i < j < |n.nodes| && i + n.outputSize < |n.nodes| && n.inputSize <= j &&
      n.nodes[i] == k.from && n.nodes[j] == k.to && k !in n.heap.conns
  }

  /**
   * `from -> to` may be added by `AddBackConnectionMutation`: `to` sits
   * before `from`, neither among the first `inputSize` positions, and no
   * edge joins them yet.
   */
  ghost predicate BackOpen(n: Network, k: Key) {
    exists i, j :: n.inputSize <= i < j < |n.nodes| && n.nodes[j] == k.from && n.nodes[i] == k.to && k !in n.heap.conns
  }

  /** The pairs `AddConnectionMutation` chooses from, in its loop order. */
  function ForwardPairs(n: Network): (r: seq<Key>)
    requires Valid(n.heap) && NodesOk(n)
  {
    Unlinked(n, ForwardSlots(0, |n.nodes|, n.inputSize, n.outputSize))
  }

  /** The pairs `AddBackConnectionMutation` chooses from, in its loop order. */
  function BackPairs(n: Network): (r: seq<Key>)
    requires Valid(n.heap) && NodesOk(n)
  {
    Unlinked(n, BackSlots(n.inputSize, |n.nodes|, n.inputSize))
  }

  /** Two nodes at different positions of the list are different nodes, so `isProjectingTo` between them asks for an edge. */
  lemma Apart(n: Network, i: nat, j: nat)
    requires Valid(n.heap) && NodesOk(n) && i < |n.nodes| && j < |n.nodes| && i != j
    ensures n.nodes[i] != n.nodes[j]
    ensures IsProjectingTo(n.heap, n.nodes[i], n.nodes[j]) <==> Key(n.nodes[i], n.nodes[j]) in n.heap.conns
  {
    if i < j { OrderedSet.DistinctPositions(n.nodes, i, j); } else { OrderedSet.DistinctPositions(n.nodes, j, i); }
  }

  /** Every key of `Unlinked` over slots of two different positions joins two different listed nodes with no edge yet. */
  lemma UnlinkedOpen(n: Network, slots: seq<(nat, nat)>)
    requires Valid(n.heap) && NodesOk(n)
    requires forall p :: p in slots ==> p.0 < |n.nodes| && p.1 < |n.nodes| && p.0 != p.1
    ensures forall k :: k in Unlinked(n, slots) ==> k.from in n.nodes && k.to in n.nodes && k.from != k.to && k !in n.heap.conns
  {
    forall k | k in Unlinked(n, slots)
      ensures k.from in n.nodes && k.to in n.nodes && k.from != k.to && k !in n.heap.conns
    {
      var p :| p in slots && k == Key(n.nodes[p.0], n.nodes[p.1]) && !IsProjectingTo(n.heap, k.from, k.to);
      Apart(n, p.0, p.1);
    }
  }

  /** The forward candidates are exactly the open forward pairs. */
  lemma ForwardPairsOpen(n: Network)
    requires Valid(n.heap) && NodesOk(n)
    ensures forall k :: k in ForwardPairs(n) <==> ForwardOpen(n, k)
    ensures forall k :: k in ForwardPairs(n) ==> k.from in n.nodes && k.to in n.nodes && k.from != k.to && k !in n.heap.conns
  {
    UnlinkedOpen(n, ForwardSlots(0, |n.nodes|, n.inputSize, n.outputSize));
    ForwardPairsSound(n);
    forall k | ForwardOpen(n, k)
      ensures k in ForwardPairs(n)
    {
      ForwardPairsComplete(n, k);
    }
  }

  /** Every forward candidate is an open forward pair. */
  lemma ForwardPairsSound(n: Network)
    requires Valid(n.heap) && NodesOk(n)
    ensures forall k :: k in ForwardPairs(n) ==> ForwardOpen(n, k)
  {
    var slots := ForwardSlots(0, |n.nodes|, n.inputSize, n.outputSize);
    forall k | k in ForwardPairs(n)
      ensures ForwardOpen(n, k)
    {
      var p :| p in slots && k == Key(n.nodes[p.0], n.nodes[p.1]) && !IsProjectingTo(n.heap, k.from, k.to);
      Apart(n, p.0, p.1);
    }
  }

  /** Every open forward pair is a forward candidate. */
  lemma ForwardPairsComplete(n: Network, k: Key)
    requires Valid(n.heap) && NodesOk(n) && ForwardOpen(n, k)
    ensures k in ForwardPairs(n)
  {
    var slots := ForwardSlots(0, |n.nodes|, n.inputSize, n.outputSize);
    var i, j :| 0 <= i < j < |n.nodes| && i + n.outputSize < |n.nodes| && n.inputSize <= j &&
      n.nodes[i] == k.from && n.nodes[j] == k.to && k !in n.heap.conns;
    Apart(n, i, j);
    assert (i, j) in slots;
  }

  /** The back candidates are exactly the open back pairs. */
  lemma BackPairsOpen(n: Network)
    requires Valid(n.heap) && NodesOk(n)
    ensures forall k :: k in BackPairs(n) <==> BackOpen(n, k)
    ensures forall k :: k in BackPairs(n) ==> k.from in n.nodes && k.to in n.nodes && k.from != k.to && k !in n.heap.conns
  {
    var slots := BackSlots(n.inputSize, |n.nodes|, n.inputSize);
    UnlinkedOpen(n, slots);
    forall k | k in BackPairs(n)
      ensures BackOpen(n, k)
    {
      var p :| p in slots && k == Key(n.nodes[p.0], n.nodes[p.1]) && !IsProjectingTo(n.heap, k.from, k.to);
    }
    forall k | BackOpen(n, k)
      ensures k in BackPairs(n)
    {
      var i, j :| n.inputSize <= i < j < |n.nodes| && n.nodes[j] == k.from && n.nodes[i] == k.to && k !in n.heap.conns;
      Apart(n, j, i);
      assert (j, i) in slots;
    }
  }

  // ---------------------------------------------------------------------
  // Steps shared by the operators
  // ---------------------------------------------------------------------

  /** A heap with the same connections and the same node ids keeps the network valid. */
  lemma RelabelValid(n: Network, h: Heap)
    requires NetValid(n) && Valid(h) && h.conns == n.heap.conns && h.nodes.Keys == n.heap.nodes.Keys
    ensures NetValid(n.(heap := h))
  {
  }

  /** A connection with a new weight keeps the network valid. */
  lemma ReweightValid(n: Network, k: Key, w: real)
    requires NetValid(n) && k in n.heap.conns
    ensures NetValid(n.(heap := n.heap.(conns := n.heap.conns[k := n.heap.conns[k].(weight := w)])))
  {
    var c := n.heap.conns[k];
    var h := Rewrite(n.heap, k, c.(weight := w));
    var r := n.(heap := h);
    assert k in GatedKeys(n.heap.conns) <==> c.gate.Some?;
    assert OrderedSet.Elements(r.gates) == if c.gate.Some? then OrderedSet.Elements(n.gates) + {k} else OrderedSet.Elements(n.gates) - {k};
    GateChangedValid(n, r, k);
  }

  /** One random pair of `pairs` connected with the default weight 0. */
  function Join(n: Network, pairs: seq<Key>, pick: real): (r: Network)
    requires NetValid(n) && IsDraw(pick)
    requires forall k :: k in pairs ==> k.from in n.nodes && k.to in n.nodes && k.from != k.to && k !in n.heap.conns
    ensures NetValid(r) && SameShape(n, r) && r.gates == n.gates
    ensures r == n <==> |pairs| == 0
    ensures r != n ==> exists k :: k in pairs && r.connections == n.connections + [k] && r.heap.conns == n.heap.conns[k := Conn(0.0, 1.0, None)]
  {
    match ArrayUtils.PickRandom(pairs, pick)
    case Err(_) => n
    case Ok(k) =>
      assert k in pairs;
      assert k !in n.connections;
      var r := Connect(n, k.from, k.to, 0.0).value.0;
      assert k in r.heap.conns;
      r
  }

  /** One random connection of `cands` disconnected. */
  function Cut(n: Network, cands: seq<Key>, pick: real): (r: Network)
    requires NetValid(n) && IsDraw(pick)
    requires forall k :: k in cands ==> k in n.connections && k.from != k.to
    ensures NetValid(r) && SameShape(n, r)
    ensures r == n <==> |cands| == 0
    ensures r != n ==> exists k :: k in cands && r.heap.conns == n.heap.conns - {k} && r.connections == OrderedSet.Delete(n.connections, k) &&
                                   r.gates == if k in n.gates then OrderedSet.Delete(n.gates, k) else n.gates
  {
    match ArrayUtils.PickRandom(cands, pick)
    case Err(_) => n
    case Ok(k) =>
      assert k in cands;
      var r := Disconnect(n, k.from, k.to).value.0;
      assert k in n.heap.conns && k !in r.heap.conns;
      r
  }

  /** The new node record of `AddNodeMutation`: hidden, a random bias in [-1, 1), and with `randomActivation` a random squash other than the logistic one. */
  function FreshHidden(randomActivation: bool, catalog: seq<Squash>, bias: real, squash: real): (v: Node)
    requires IsDraw(bias) && IsDraw(squash)
    ensures v.kind == Hidden && -1.0 <= v.bias < 1.0
    ensures !randomActivation ==> v.squash == Logistic
    ensures randomActivation ==> (v.squash == Logistic <==> forall s :: s in catalog ==> s == Logistic)
    ensures v.squash == Logistic || v.squash in catalog
  {
    Node(Hidden, ArrayUtils.RandDouble(-1.0, 1.0, bias), if randomActivation then OtherSquash(catalog, Logistic, squash) else Logistic)
  }

  /** Where `AddNodeMutation` inserts its node: right after `from`, but not among the input positions, and at most at the end. */
  function Place(n: Network, from: NodeId): (at: nat)
    ensures at <= |n.nodes|
    ensures from in n.nodes && Index(n.nodes, from) + 1 >= n.inputSize ==> at == Index(n.nodes, from) + 1
  {
    var c := if n.inputSize > 1 + Index(n.nodes, from) then n.inputSize else 1 + Index(n.nodes, from);
    if c > |n.nodes| then |n.nodes| else c
  }

  /** A new node record joins the heap, with only its self connection, and the node list at position `at`. */
  function Graft(n: Network, node: Node, at: nat): (r: (Network, NodeId))
    requires NetValid(n) && at <= |n.nodes|
    ensures NetValid(r.0) && r.1 == n.heap.next && r.1 !in n.heap.nodes && r.1 !in n.nodes
    ensures r.0.heap.nodes == n.heap.nodes[r.1 := node] && r.0.heap.conns == n.heap.conns[Key(r.1, r.1) := Conn(0.0, 1.0, None)]
    ensures r.0.nodes == n.nodes[..at] + [r.1] + n.nodes[at..]
    ensures r.0 == n.(heap := r.0.heap, nodes := r.0.nodes)
  {
    var v := n.heap.next;
    NewNodeValid(n.heap, node);
    var h := Heap(n.heap.nodes[v := node], n.heap.conns[Key(v, v) := Conn(0.0, 1.0, None)], v + 1);
    var r := n.(heap := h, nodes := n.nodes[..at] + [v] + n.nodes[at..]);
    GraftValid(n, r, v, at);
    (r, v)
  }

  /** Inserting a node that is new to the heap keeps the network valid. */
  lemma GraftValid(n: Network, r: Network, v: NodeId, at: nat)
    requires NetValid(n) && at <= |n.nodes| && v !in n.heap.nodes && Valid(r.heap)
    requires r.heap.nodes.Keys == n.heap.nodes.Keys + {v} && r.heap.conns == n.heap.conns[Key(v, v) := Conn(0.0, 1.0, None)]
    requires r == n.(heap := r.heap, nodes := n.nodes[..at] + [v] + n.nodes[at..])
    ensures NetValid(r) && v !in n.nodes
  {
    assert v !in n.nodes;
    InsertDistinct(n.nodes, at, v);
    GraftNodes(n, r, v);
    GraftRegistry(n, r, v);
    GraftGates(n, r, v);
  }

  /** The node list of a network that gained a node new to the heap. */
  lemma GraftNodes(n: Network, r: Network, v: NodeId)
    requires NodesOk(n) && r.heap.nodes.Keys == n.heap.nodes.Keys + {v}
    requires OrderedSet.Distinct(r.nodes) && OrderedSet.Elements(r.nodes) == OrderedSet.Elements(n.nodes) + {v}
    ensures NodesOk(r)
  {
    forall i | 0 <= i < |r.nodes|
      ensures r.nodes[i] in r.heap.nodes
    {
      assert r.nodes[i] in OrderedSet.Elements(r.nodes);
    }
  }

  /** The gates of a network that gained a node new to the heap. */
  lemma GraftGates(n: Network, r: Network, v: NodeId)
    requires GatesOk(n) && Key(v, v) !in n.heap.conns
    requires r.heap.conns == n.heap.conns[Key(v, v) := Conn(0.0, 1.0, None)]
    requires r.gates == n.gates && OrderedSet.Elements(r.nodes) == OrderedSet.Elements(n.nodes) + {v}
    ensures GatesOk(r)
  {
    assert GatedKeys(r.heap.conns) == GatedKeys(n.heap.conns);
    assert forall x :: x in n.nodes ==> x in OrderedSet.Elements(r.nodes);
  }

  /** The registry of a network whose list gained a node new to the heap. */
  lemma GraftRegistry(n: Network, r: Network, v: NodeId)
    requires RegistryOk(n) && Endpoints(n.heap) && v !in n.heap.nodes
    requires r.heap.conns == n.heap.conns[Key(v, v) := Conn(0.0, 1.0, None)]
    requires r.connections == n.connections && OrderedSet.Elements(r.nodes) == OrderedSet.Elements(n.nodes) + {v}
    ensures RegistryOk(r)
  {
    assert forall x :: x in n.nodes ==> x in OrderedSet.Elements(r.nodes);
  }

  /** A new element inserted anywhere into a sequence without repeats leaves it without repeats. */
  lemma InsertDistinct<T>(s: seq<T>, at: nat, v: T)
    requires OrderedSet.Distinct(s) && at <= |s| && v !in s
    ensures var r := s[..at] + [v] + s[at..];
      OrderedSet.Distinct(r) && OrderedSet.Elements(r) == OrderedSet.Elements(s) + {v}
  {
    var r := s[..at] + [v] + s[at..];
    assert s == s[..at] + s[at..];
    assert multiset(r) == multiset(s) + multiset{v};
    forall i | 0 <= i < |r|
      ensures multiset(r)[r[i]] == 1
    {
      if r[i] != v {
        assert r[i] in multiset(s);
        var j :| 0 <= j < |s| && s[j] == r[i];
      }
    }
    forall x | x in OrderedSet.Elements(r)
      ensures x in OrderedSet.Elements(s) + {v}
    {
      assert x in multiset(r);
    }
    forall x | x in OrderedSet.Elements(s) + {v}
      ensures x in OrderedSet.Elements(r)
    {
      assert x in multiset(r);
    }
  }

  // ---------------------------------------------------------------------
  // The operators
  // ---------------------------------------------------------------------

  /** A connection is registered only when it exists. */
  lemma Registered(n: Network, k: Key)
    requires NetValid(n) && k in n.connections
    ensures k in n.heap.conns && k.from in n.nodes && k.to in n.nodes
    ensures OrderedSet.Distinct(n.connections) && OrderedSet.Distinct(n.gates)
  {
  }

  /**
   * `AddConnectionMutation.mutate`: unless the connection limit is reached,
   * one open forward pair is connected with the default weight 0.
   */
  function MutateAddConnection(n: Network, o: Options, pick: real): (r: Network)
    requires NetValid(n) && IsDraw(pick)
    ensures NetValid(r) && SameShape(n, r) && r.gates == n.gates
    ensures r == n <==> Reached(o.maxConnections, |n.connections|) || |ForwardPairs(n)| == 0
    ensures r != n ==> exists k :: ForwardOpen(n, k) && r.connections == n.connections + [k] && r.heap.conns == n.heap.conns[k := Conn(0.0, 1.0, None)]
  {
    ForwardPairsOpen(n);
    if Reached(o.maxConnections, |n.connections|) then n else Join(n, ForwardPairs(n), pick)
  }

  /** `AddBackConnectionMutation.mutate`: one open back pair is connected with the default weight 0. */
  function MutateAddBackConnection(n: Network, pick: real): (r: Network)
    requires NetValid(n) && IsDraw(pick)
    ensures NetValid(r) && SameShape(n, r) && r.gates == n.gates
    ensures r == n <==> |BackPairs(n)| == 0
    ensures r != n ==> exists k :: BackOpen(n, k) && r.connections == n.connections + [k] && r.heap.conns == n.heap.conns[k := Conn(0.0, 1.0, None)]
  {
    BackPairsOpen(n);
    Join(n, BackPairs(n), pick)
  }

  /**
   * `SubConnectionMutation.mutate` (`forward`) and
   * `SubBackConnectionMutation.mutate`: one registered connection that
   * passes `Spare` is disconnected, with its gate if it has one.
   */
  function MutateSubConnection(n: Network, forward: bool, pick: real): (r: Network)
    requires NetValid(n) && IsDraw(pick)
    ensures NetValid(r) && SameShape(n, r)
    ensures r == n <==> forall k :: k in n.connections ==> !Spare(n, k, forward)
    ensures r != n ==> exists k :: k in n.connections && Spare(n, k, forward) &&
                                   r.heap.conns == n.heap.conns - {k} && r.connections == OrderedSet.Delete(n.connections, k) &&
                                   r.gates == if k in n.gates then OrderedSet.Delete(n.gates, k) else n.gates
  {
    var cands := Removable(n, forward);
    assert |cands| > 0 ==> cands[0] in cands;
    Cut(n, cands, pick)
  }

  /**
   * `ModWeightMutation.mutate`: a random registered connection's weight
   * moves by `randDouble(min, max)`; a `RangeError` when there is none.
   */
  function MutateModWeight(n: Network, min: real, max: real, pick: real, amount: real): (r: Result<Network>)
    requires NetValid(n) && IsDraw(pick) && IsDraw(amount)
    ensures r.Err? <==> |n.connections| == 0
    ensures r.Err? ==> r.error == RangeError("Cannot pick from an empty array")
    ensures r.Ok? ==> NetValid(r.value) && SameShape(n, r.value) && r.value.connections == n.connections && r.value.gates == n.gates
    ensures r.Ok? ==> exists k :: k in n.connections && k in r.value.heap.conns &&
                                  r.value.heap.conns == n.heap.conns[k := n.heap.conns[k].(weight := r.value.heap.conns[k].weight)] &&
                                  (min <= max ==> n.heap.conns[k].weight + min <= r.value.heap.conns[k].weight <= n.heap.conns[k].weight + max)
  {
    match ArrayUtils.PickRandom(n.connections, pick)
    case Err(e) => Err(e)
    case Ok(k) =>
      Registered(n, k);
      var w := n.heap.conns[k].weight + ArrayUtils.RandDouble(min, max, amount);
      ReweightValid(n, k, w);
      Ok(n.(heap := n.heap.(conns := n.heap.conns[k := n.heap.conns[k].(weight := w)])))
  }

  /**
   * `ModBiasMutation.mutate`: a random non-input node's bias moves by
   * `randDouble(min, max)`; a `RangeError` when every node is an input.
   */
  function MutateModBias(n: Network, min: real, max: real, pick: real, amount: real): (r: Result<Network>)
    requires NetValid(n) && IsDraw(pick) && IsDraw(amount)
    ensures r.Err? <==> forall v :: v in n.nodes ==> KindOf(n, v) == Input
    ensures r.Err? ==> r.error == RangeError("Cannot pick from an empty array")
    ensures r.Ok? ==> NetValid(r.value) && r.value == n.(heap := r.value.heap) && r.value.heap.conns == n.heap.conns
    ensures r.Ok? ==> exists v :: v in n.nodes && KindOf(n, v) != Input && v in r.value.heap.nodes &&
                                  r.value.heap.nodes == n.heap.nodes[v := n.heap.nodes[v].(bias := r.value.heap.nodes[v].bias)] &&
                                  (min <= max ==> n.heap.nodes[v].bias + min <= r.value.heap.nodes[v].bias <= n.heap.nodes[v].bias + max)
  {
    var cands := NonInputNodes(n);
    assert |cands| > 0 ==> cands[0] in cands;
    match ArrayUtils.PickRandom(cands, pick)
    case Err(e) => Err(e)
    case Ok(v) =>
      assert v in cands;
      var h := MutateBias(n.heap, v, Some((min, max)), amount);
      RelabelValid(n, h);
      assert h.nodes == n.heap.nodes[v := h.nodes[v]];
      Ok(n.(heap := h))
  }

  /**
   * `ModActivationMutation.mutate`: a random candidate (non-input nodes with
   * `mutateOutput`, hidden nodes otherwise) takes a random allowed squash
   * other than its own, and keeps its own when there is none.
   */
  function MutateModActivation(n: Network, mutateOutput: bool, allowed: Option<seq<Squash>>, catalog: seq<Squash>,
                               pick: real, choice: real): (r: Network)
    requires NetValid(n) && IsDraw(pick) && IsDraw(choice)
    ensures NetValid(r) && r == n.(heap := r.heap) && r.heap.conns == n.heap.conns
    ensures |Relabelable(n, mutateOutput)| == 0 ==> r == n
    ensures |Relabelable(n, mutateOutput)| > 0 ==>
      exists v :: v in Relabelable(n, mutateOutput) && v in r.heap.nodes &&
        r.heap.nodes == n.heap.nodes[v := n.heap.nodes[v].(squash := r.heap.nodes[v].squash)] &&
        (r.heap.nodes[v].squash == n.heap.nodes[v].squash <==> forall s :: s in allowed.GetOr(catalog) ==> s == n.heap.nodes[v].squash) &&
        (r.heap.nodes[v].squash in allowed.GetOr(catalog) || r.heap.nodes[v].squash == n.heap.nodes[v].squash)
  {
    var cands := Relabelable(n, mutateOutput);
    match ArrayUtils.PickRandom(cands, pick)
    case Err(_) => n
    case Ok(v) =>
      assert v in cands;
      var h := MutateActivation(n.heap, v, allowed, catalog, choice);
      RelabelValid(n, h);
      assert h.nodes == n.heap.nodes[v := h.nodes[v]];
      n.(heap := h)
  }

  /**
   * `AddSelfConnectionMutation.mutate`: a random non-input node whose self
   * connection has weight 0 is connected to itself with the default weight
   * 0. The connection is registered, but its weight stays 0.
   */
  function MutateAddSelfConnection(n: Network, pick: real): (r: Network)
    requires NetValid(n) && IsDraw(pick)
    ensures NetValid(r) && SameShape(n, r) && r.gates == n.gates
    ensures |Unlooped(n)| == 0 ==> r == n
    ensures |Unlooped(n)| > 0 ==> exists v :: v in Unlooped(n) && r.connections == OrderedSet.Add(n.connections, Key(v, v))
    ensures r.heap == n.heap
  {
    var cands := Unlooped(n);
    match ArrayUtils.PickRandom(cands, pick)
    case Err(_) => n
    case Ok(v) =>
      assert v in cands;
      var r := Connect(n, v, v, 0.0).value.0;
      assert r.heap.conns == n.heap.conns;
      r
  }

  /**
   * `SubSelfConnectionMutation.mutate`: a random registered self connection
   * is disconnected: it loses its gate, leaves the registry and gets weight 0.
   */
  function MutateSubSelfConnection(n: Network, pick: real): (r: Network)
    requires NetValid(n) && IsDraw(pick)
    ensures NetValid(r) && SameShape(n, r)
    ensures r == n <==> forall k :: k in n.connections ==> k.from != k.to
    ensures r != n ==> exists v :: Key(v, v) in n.connections && SelfDropped(n, r, v)
  {
    var cands := SelfConnections(n);
    assert |cands| > 0 ==> cands[0] in cands;
    match ArrayUtils.PickRandom(cands, pick)
    case Err(_) => n
    case Ok(k) =>
      assert k in cands;
      Unloop(n, k.from)
  }

  /**
   * `r` is `n` after `disconnect(v, v)`: the self connection of `v` left
   * the registry and `gates`, lost its gate and has weight 0; no other
   * connection changed.
   */
  ghost predicate SelfDropped(n: Network, r: Network, v: NodeId) {
    OrderedSet.Distinct(n.connections) && OrderedSet.Distinct(n.gates) && Key(v, v) in r.heap.conns && r.heap.conns.Keys == n.heap.conns.Keys &&
    r.heap.conns[Key(v, v)].weight == 0.0 && r.heap.conns[Key(v, v)].gate.None? &&
    r.connections == OrderedSet.Delete(n.connections, Key(v, v)) &&
    r.gates == (if Key(v, v) in n.gates then OrderedSet.Delete(n.gates, Key(v, v)) else n.gates) &&
    forall k :: k in n.heap.conns && k != Key(v, v) ==> r.heap.conns[k] == n.heap.conns[k]
  }

  /** `disconnect(v, v)` of a registered self connection. */
  function Unloop(n: Network, v: NodeId): (r: Network)
    requires NetValid(n) && Key(v, v) in n.connections
    ensures NetValid(r) && SameShape(n, r) && r != n
    ensures SelfDropped(n, r, v)
  {
    Registered(n, Key(v, v));
    var r := DisconnectSelf(n, v).0;
    assert Key(v, v) !in OrderedSet.Elements(r.connections);
    r
  }

  /**
   * `AddGateMutation.mutate`: unless the gate limit is reached, a random
   * non-input node gates a random ungated registered connection. The node
   * is drawn first, so a `RangeError` comes when there is an ungated
   * connection but every node is an input.
   */
  function MutateAddGate(n: Network, o: Options, nodePick: real, connPick: real): (r: Result<Network>)
    requires NetValid(n) && IsDraw(nodePick) && IsDraw(connPick)
    ensures Reached(o.maxGates, |n.gates|) || |Ungated(n)| == 0 ==> r == Ok(n)
    ensures !Reached(o.maxGates, |n.gates|) && |Ungated(n)| > 0 ==> (r.Err? <==> forall v :: v in n.nodes ==> KindOf(n, v) == Input)
    ensures r.Err? ==> r.error == RangeError("Cannot pick from an empty array")
    ensures r.Ok? ==> NetValid(r.value) && SameShape(n, r.value) && r.value.connections == n.connections
    ensures r.Ok? && r.value != n ==>
      exists g, k :: g in n.nodes && KindOf(n, g) != Input && k in Ungated(n) &&
        r.value.gates == n.gates + [k] && r.value.heap.conns == n.heap.conns[k := n.heap.conns[k].(gate := Some(g))]
  {
    if Reached(o.maxGates, |n.gates|) then Ok(n)
    else
      var ungated := Ungated(n);
      if |ungated| == 0 then Ok(n)
      else
        var nodes := NonInputNodes(n);
        assert |nodes| > 0 ==> nodes[0] in nodes;
        match ArrayUtils.PickRandom(nodes, nodePick)
        case Err(e) => Err(e)
        case Ok(g) =>
          assert g in nodes;
          var k := ArrayUtils.PickRandom(ungated, connPick).value;
          assert k in ungated;
          AddGate(n, g, k)
  }

  /** `SubGateMutation.mutate`: a random gated connection loses its gate. */
  function MutateSubGate(n: Network, pick: real): (r: Network)
    requires NetValid(n) && IsDraw(pick)
    ensures NetValid(r) && SameShape(n, r) && r.connections == n.connections
    ensures r == n <==> |n.gates| == 0
    ensures r != n ==> exists k :: k in n.gates && k in n.heap.conns && r.gates == OrderedSet.Delete(n.gates, k) &&
                                   r.heap.conns == n.heap.conns[k := n.heap.conns[k].(gate := None, gain := 1.0)]
  {
    match ArrayUtils.PickRandom(n.gates, pick)
    case Err(_) => n
    case Ok(k) =>
      assert k in n.gates;
      Ungate1(n, k)
  }

  /** `removeGate` of a gated connection. */
  function Ungate1(n: Network, k: Key): (r: Network)
    requires NetValid(n) && k in n.gates
    ensures NetValid(r) && SameShape(n, r) && r.connections == n.connections && r != n
    ensures r.gates == OrderedSet.Delete(n.gates, k) && k in n.heap.conns
    ensures r.heap.conns == n.heap.conns[k := n.heap.conns[k].(gate := None, gain := 1.0)]
  {
    var r := RemoveGate(n, k).value;
    assert k !in OrderedSet.Elements(r.gates);
    r
  }

  /**
   * Nodes `a` and `b` exchange bias and squash and keep their types;
   * nothing else changes.
   */
  ghost predicate Exchanged(h: Heap, r: Heap, a: NodeId, b: NodeId) {
    a in h.nodes && b in h.nodes && r.conns == h.conns && r.nodes.Keys == h.nodes.Keys &&
    r.nodes[a] == h.nodes[a].(bias := h.nodes[b].bias, squash := h.nodes[b].squash) &&
    r.nodes[b] == h.nodes[b].(bias := h.nodes[a].bias, squash := h.nodes[a].squash) &&
    forall m :: m in h.nodes && m != a && m != b ==> r.nodes[m] == h.nodes[m]
  }

  /** The swap at the end of `SwapNodesMutation.mutate`. */
  function SwapLabels(h: Heap, a: NodeId, b: NodeId): (r: Heap)
    requires Valid(h) && a in h.nodes && b in h.nodes && a != b
    ensures Valid(r) && Exchanged(h, r, a, b)
  {
    var x, y := h.nodes[a], h.nodes[b];
    SetLabels(SetLabels(h, a, y.bias, y.squash), b, x.bias, x.squash)
  }

  /** Swapping the same two nodes twice gives back the heap. */
  lemma SwapTwice(h: Heap, a: NodeId, b: NodeId)
    requires Valid(h) && a in h.nodes && b in h.nodes && a != b
    ensures SwapLabels(SwapLabels(h, a, b), a, b) == h
  {
    var r := SwapLabels(SwapLabels(h, a, b), a, b);
    assert r.nodes == h.nodes;
  }

  /**
   * `SwapNodesMutation.mutate`: with at least two candidates (non-input
   * nodes with `mutateOutput`, hidden nodes otherwise), a random one and a
   * random other one exchange bias and squash.
   */
  function MutateSwapNodes(n: Network, mutateOutput: bool, first: real, second: real): (r: Network)
    requires NetValid(n) && IsDraw(first) && IsDraw(second)
    ensures NetValid(r) && r == n.(heap := r.heap)
    ensures |Relabelable(n, mutateOutput)| < 2 ==> r == n
    ensures |Relabelable(n, mutateOutput)| >= 2 ==>
      exists a, b :: a in Relabelable(n, mutateOutput) && b in Relabelable(n, mutateOutput) && a != b && Exchanged(n.heap, r.heap, a, b)
  {
    var cands := Relabelable(n, mutateOutput);
    if |cands| < 2 then n
    else
      var a := ArrayUtils.PickRandom(cands, first).value;
      assert a in cands;
      var keep := t => t != a;
      var others := JsArray.Filter(cands, keep);
      JsArray.FilterMembers(cands, keep);
      OrderedSet.DistinctPositions(cands, 0, 1);
      assert cands[0] in others || cands[1] in others;
      var b := ArrayUtils.PickRandom(others, second).value;
      assert b in others;
      var h := SwapLabels(n.heap, a, b);
      RelabelValid(n, h);
      n.(heap := h)
  }

  /**
   * `SubNodeMutation.mutate`: a random hidden node is removed with
   * `removeNode(node, keepGates)`, which throws when the node still gates a
   * connection; nothing happens without hidden nodes.
   */
  function MutateSubNode(n: Network, keepGates: bool, pick: real, draws: seq<real>): (r: Result<Network>)
    requires NetValid(n) && IsDraw(pick) && |draws| >= |n.connections| && Rolls(draws)
    ensures |HiddenNodes(n)| == 0 ==> r == Ok(n)
    ensures |HiddenNodes(n)| > 0 ==> exists v :: v in n.nodes && KindOf(n, v) == Hidden && r == NodeRemoval.RemoveNode(n, v, keepGates, draws)
    ensures r.Ok? ==> NetValid(r.value) && Pruned(n, r.value, |HiddenNodes(n)| > 0)
  {
    var cands := HiddenNodes(n);
    match ArrayUtils.PickRandom(cands, pick)
    case Err(_) => Ok(n)
    case Ok(v) =>
      assert v in cands;
      Prune(n, v, keepGates, draws)
  }

  /**
   * The input and output nodes all stay, and with `removed` exactly one
   * node left the list.
   */
  ghost predicate Pruned(n: Network, r: Network, removed: bool) {
    r.inputSize == n.inputSize && r.outputSize == n.outputSize &&
    |r.nodes| == (if removed then |n.nodes| - 1 else |n.nodes|) &&
    forall v :: v in n.nodes && KindOf(n, v) != Hidden ==> v in r.nodes
  }

  /** `removeNode(node, keepGates)` of a hidden node. */
  function Prune(n: Network, v: NodeId, keepGates: bool, draws: seq<real>): (r: Result<Network>)
    requires NetValid(n) && v in n.nodes && KindOf(n, v) == Hidden
    requires |draws| >= |n.connections| && Rolls(draws)
    ensures r == NodeRemoval.RemoveNode(n, v, keepGates, draws)
    ensures r.Ok? ==> NetValid(r.value) && Pruned(n, r.value, true)
  {
    var r := NodeRemoval.RemoveNode(n, v, keepGates, draws);
    if r.Ok? then
      var rest := r.value.nodes;
      assert rest == OrderedSet.Delete(n.nodes, v);
      OrderedSet.DeleteMembers(n.nodes, v);
      assert forall u :: u in n.nodes && KindOf(n, u) != Hidden ==> u in rest;
      r
    else r
  }

  /**
   * `r` is `n` with connection `k` split by node `v`: `v` sits in the list
   * at `Place(n, k.from)`, `k` left the registry (and the graph, unless it
   * is a self connection), and `k.from -> v` with weight 1 and `v -> k.to`
   * with weight `w` were added to both.
   */
  ghost predicate SplitBy(n: Network, r: Network, k: Key, v: NodeId, w: real) {
    OrderedSet.Distinct(n.connections) &&
    r.nodes == n.nodes[..Place(n, k.from)] + [v] + n.nodes[Place(n, k.from)..] &&
    r.connections == OrderedSet.Delete(n.connections, k) + [Key(k.from, v), Key(v, k.to)] &&
    Key(k.from, v) in r.heap.conns && r.heap.conns[Key(k.from, v)].weight == 1.0 &&
    Key(v, k.to) in r.heap.conns && r.heap.conns[Key(v, k.to)].weight == w &&
    (k.from != k.to ==> k !in r.heap.conns)
  }

  /**
   * The body of `AddNodeMutation.mutate` once connection `k` is picked:
   * `k` is disconnected, the new node goes into the list, and `k.from ->
   * node` (weight 1) and `node -> k.to` (the weight of the disconnected
   * connection object) are connected. Then the gate is handed to one of the
   * two, but the test reads the gate of the connection object that
   * `disconnect` has already ungated.
   */
  function Split(n: Network, k: Key, node: Node, coin: real): (r: Result<Network>)
    requires NetValid(n) && k in n.connections && IsDraw(coin)
    ensures Disconnect(n, k.from, k.to).Ok?
    ensures r.Ok? ==> NetValid(r.value) && SplitBy(n, r.value, k, n.heap.next, Disconnect(n, k.from, k.to).value.1.weight)
    ensures r.Ok? ==> n.heap.next !in n.heap.nodes && r.value.heap.nodes == n.heap.nodes[n.heap.next := node]
    ensures r.Ok? ==> r.value.inputSize == n.inputSize && r.value.outputSize == n.outputSize && r.value.score == n.score
    ensures Disconnect(n, k.from, k.to).value.1.gate.None? ==>
      r.Ok? && r.value.gates == (if k in n.gates then OrderedSet.Delete(n.gates, k) else n.gates) &&
      r.value.heap.conns[Key(k.from, n.heap.next)].gate.None? && r.value.heap.conns[Key(n.heap.next, k.to)].gate.None?
  {
    var (m, u) := Opened(n, k, node);
    var v := n.heap.next;
    var b := Bridged(m, k.from, v, k.to, u.weight);
    Regate(b, u.gate, if coin >= 0.5 then Key(k.from, v) else Key(v, k.to))
  }

  /** `if (gater != null) addGate(gater, connection)`. */
  function Regate(n: Network, gater: Option<NodeId>, k: Key): (r: Result<Network>)
    requires NetValid(n) && k in n.heap.conns
    ensures gater.None? ==> r == Ok(n)
    ensures gater.Some? ==> r == AddGate(n, gater.value, k)
  {
    if gater.None? then Ok(n) else AddGate(n, gater.value, k)
  }

  /** `disconnect(from, to)` of a registered connection, then the new node inserted after `from`. */
  function Opened(n: Network, k: Key, node: Node): (r: (Network, Conn))
    requires NetValid(n) && k in n.connections
    ensures Disconnect(n, k.from, k.to).Ok? && r.1 == Disconnect(n, k.from, k.to).value.1
    ensures NetValid(r.0) && r.0.inputSize == n.inputSize && r.0.outputSize == n.outputSize && r.0.score == n.score
    ensures n.heap.next !in n.heap.nodes && r.0.heap.nodes == n.heap.nodes[n.heap.next := node]
    ensures r.0.nodes == n.nodes[..Place(n, k.from)] + [n.heap.next] + n.nodes[Place(n, k.from)..]
    ensures OrderedSet.Distinct(n.connections) && r.0.connections == OrderedSet.Delete(n.connections, k)
    ensures r.0.gates == if k in n.gates then OrderedSet.Delete(n.gates, k) else n.gates
    ensures k.from in r.0.nodes && k.to in r.0.nodes && n.heap.next in r.0.nodes
    ensures k.from != n.heap.next && k.to != n.heap.next
    ensures Key(k.from, n.heap.next) !in r.0.heap.conns && Key(n.heap.next, k.to) !in r.0.heap.conns
    ensures Key(k.from, n.heap.next) !in r.0.connections && Key(n.heap.next, k.to) !in r.0.connections
    ensures k.from != k.to ==> k !in r.0.heap.conns
  {
    var (n1, u) := Unhooked(n, k);
    assert n1.nodes == n.nodes;
    var (n2, v) := Graft(n1, node, Place(n, k.from));
    assert k.from in OrderedSet.Elements(n2.nodes) && k.to in OrderedSet.Elements(n2.nodes);
    assert Key(k.from, v) !in n1.heap.conns && Key(v, k.to) !in n1.heap.conns;
    (n2, u)
  }

  /** `disconnect(from, to)` of a registered connection. */
  function Unhooked(n: Network, k: Key): (r: (Network, Conn))
    requires NetValid(n) && k in n.connections
    ensures Disconnect(n, k.from, k.to).Ok? && r == Disconnect(n, k.from, k.to).value
    ensures NetValid(r.0) && SameShape(n, r.0) && k.from in n.nodes && k.to in n.nodes
    ensures OrderedSet.Distinct(n.connections) && r.0.connections == OrderedSet.Delete(n.connections, k)
    ensures forall x :: x in r.0.connections <==> x in n.connections && x != k
    ensures r.0.gates == if k in n.gates then OrderedSet.Delete(n.gates, k) else n.gates
    ensures r.0.heap.conns.Keys <= n.heap.conns.Keys
    ensures forall x :: x in n.heap.conns ==> x.from != n.heap.next && x.to != n.heap.next
    ensures k.from != k.to ==> k !in r.0.heap.conns
  {
    Registered(n, k);
    assert k == Key(k.from, k.to);
    OrderedSet.DeleteMembers(n.connections, k);
    NoEdgesAtNext(n.heap);
    Disconnect(n, k.from, k.to).value
  }

  /** `connect(from, node, 1)` and `connect(node, to, weight)` for two new connections. */
  function Bridged(m: Network, a: NodeId, v: NodeId, b: NodeId, w: real): (r: Network)
    requires NetValid(m) && a in m.nodes && v in m.nodes && b in m.nodes && a != v && b != v
    requires Key(a, v) !in m.heap.conns && Key(v, b) !in m.heap.conns
    requires Key(a, v) !in m.connections && Key(v, b) !in m.connections
    ensures NetValid(r) && r.nodes == m.nodes && r.heap.nodes == m.heap.nodes && r.gates == m.gates
    ensures r.inputSize == m.inputSize && r.outputSize == m.outputSize && r.score == m.score
    ensures r.connections == m.connections + [Key(a, v), Key(v, b)]
    ensures r.heap.conns == m.heap.conns[Key(a, v) := Conn(1.0, 1.0, None)][Key(v, b) := Conn(w, 1.0, None)]
  {
    var (m1, _) := Connect(m, a, v, 1.0).value;
    Connect(m1, v, b, w).value.0
  }

  /**
   * `disconnect` of a registered connection returns the connection object
   * ungated; for a self connection its weight is by then 0.
   */
  lemma DisconnectedConn(n: Network, k: Key)
    requires NetValid(n) && k in n.connections
    ensures Disconnect(n, k.from, k.to).Ok?
    ensures Disconnect(n, k.from, k.to).value.1.gate.None?
    ensures Disconnect(n, k.from, k.to).value.1.weight == if k.from == k.to then 0.0 else n.heap.conns[k].weight
  {
    Registered(n, k);
    var n1 := Ungate(n, k);
    if k.from == k.to {
      var h := SetSelfWeight(n1.heap, k.from, 0.0);
      assert ResetSelf(n1, k.from).1 == h.conns[k];
      assert DisconnectSelf(n, k.from) == ResetSelf(n1, k.from);
    } else {
      assert DropEdgeOf(n, k) == DropRegistered(n1, k);
    }
  }

  /**
   * `AddNodeMutation.mutate`: unless the node limit is reached, a new hidden
   * node splits a random registered connection; a `RangeError` when there
   * is none. The split connection's gate is lost, and splitting a self
   * connection gives the node's outgoing edge weight 0.
   */
  function MutateAddNode(n: Network, o: Options, randomActivation: bool, catalog: seq<Squash>,
                         bias: real, squash: real, pick: real, coin: real): (r: Result<Network>)
    requires NetValid(n) && IsDraw(bias) && IsDraw(squash) && IsDraw(pick) && IsDraw(coin)
    ensures Reached(o.maxNodes, |n.nodes|) ==> r == Ok(n)
    ensures !Reached(o.maxNodes, |n.nodes|) ==> (r.Err? <==> |n.connections| == 0)
    ensures r.Err? ==> r.error == RangeError("Cannot pick from an empty array")
    ensures r.Ok? ==> NetValid(r.value) && r.value.inputSize == n.inputSize && r.value.outputSize == n.outputSize
    ensures r.Ok? && !Reached(o.maxNodes, |n.nodes|) ==>
      exists k :: k in n.connections && SplitBy(n, r.value, k, n.heap.next, if k.from == k.to then 0.0 else n.heap.conns[k].weight) &&
        r.value.gates == (if k in n.gates then OrderedSet.Delete(n.gates, k) else n.gates)
    ensures r.Ok? && !Reached(o.maxNodes, |n.nodes|) ==>
      n.heap.next !in n.heap.nodes && r.value.heap.nodes == n.heap.nodes[n.heap.next := FreshHidden(randomActivation, catalog, bias, squash)]
  {
    if Reached(o.maxNodes, |n.nodes|) then Ok(n)
    else
      match ArrayUtils.PickRandom(n.connections, pick)
      case Err(e) => Err(e)
      case Ok(k) =>
        assert k in n.connections;
        DisconnectedConn(n, k);
        Split(n, k, FreshHidden(randomActivation, catalog, bias, squash), coin)
  }

  // ---------------------------------------------------------------------
  // Dispatch
  // ---------------------------------------------------------------------

  /** The operators of `NO_STRUCTURE_MUTATIONS`: they touch weights, biases and squashes only. */
  predicate Parametric(op: Operator) {
    op.ModWeightMutation? || op.ModBiasMutation? || op.ModActivationMutation?
  }

  /** The operators whose `mutate` can throw. */
  predicate MayThrow(op: Operator) {
    op.AddNodeMutation? || op.SubNodeMutation? || op.ModWeightMutation? || op.ModBiasMutation? || op.AddGateMutation?
  }

  /** The node list, the registry, `gates` and the set of existing connections are all as before. */
  ghost predicate SameTopology(n: Network, r: Network) {
    r.nodes == n.nodes && r.connections == n.connections && r.gates == n.gates && r.heap.conns.Keys == n.heap.conns.Keys
  }

  /** The draws after the first. */
  function Rest(rolls: seq<real>): (r: seq<real>)
    requires Rolls(rolls)
    ensures Rolls(r) && |r| == if |rolls| == 0 then 0 else |rolls| - 1
    ensures forall i :: 0 <= i < |r| ==> r[i] == rolls[i + 1]
  {
    if |rolls| == 0 then [] else rolls[1..]
  }

  /**
   * `Network.mutate(method, options)`, that is `method.mutate(network,
   * options)`. `rolls` holds the operator's draws in the order it makes
   * them; `catalog` is `ALL_ACTIVATIONS`, the squashes allowed when the
   * options name none.
   */
  function Mutate(op: Operator, n: Network, o: Options, catalog: seq<Squash>, rolls: seq<real>): (r: Result<Network>)
    requires NetValid(n) && Rolls(rolls)
    ensures r.Ok? ==> NetValid(r.value) && r.value.inputSize == n.inputSize && r.value.outputSize == n.outputSize
    ensures r.Err? ==> MayThrow(op)
    ensures r.Ok? && Parametric(op) ==> SameTopology(n, r.value)
  {
    if Parametric(op) then Tune(op, n, o, catalog, rolls)
    else if MayThrow(op) then Rebuild(op, n, o, catalog, rolls)
    else Ok(Rewire(op, n, o, rolls))
  }

  /** The operators of `NO_STRUCTURE_MUTATIONS`. */
  function Tune(op: Operator, n: Network, o: Options, catalog: seq<Squash>, rolls: seq<real>): (r: Result<Network>)
    requires NetValid(n) && Rolls(rolls) && Parametric(op)
    ensures r.Ok? ==> NetValid(r.value) && r.value.inputSize == n.inputSize && r.value.outputSize == n.outputSize
    ensures r.Ok? ==> SameTopology(n, r.value)
    ensures r.Err? ==> MayThrow(op)
  {
    match op
    case ModWeightMutation(min, max) =>
      var r := MutateModWeight(n, min, max, Roll(rolls, 0), Roll(rolls, 1));
      assert r.Ok? ==> r.value.heap.conns.Keys == n.heap.conns.Keys;
      r
    case ModBiasMutation(min, max) => MutateModBias(n, min, max, Roll(rolls, 0), Roll(rolls, 1))
    case ModActivationMutation(mutateOutput) =>
      Ok(MutateModActivation(n, mutateOutput, o.allowedActivations, catalog, Roll(rolls, 0), Roll(rolls, 1)))
  }

  /** The structural operators that can throw: node insertion and removal, and gating. */
  function Rebuild(op: Operator, n: Network, o: Options, catalog: seq<Squash>, rolls: seq<real>): (r: Result<Network>)
    requires NetValid(n) && Rolls(rolls) && MayThrow(op) && !Parametric(op)
    ensures r.Ok? ==> NetValid(r.value) && r.value.inputSize == n.inputSize && r.value.outputSize == n.outputSize
  {
    match op
    case AddNodeMutation(randomActivation) =>
      var s := if randomActivation then 1 else 0;
      MutateAddNode(n, o, randomActivation, catalog, Roll(rolls, 0), Roll(rolls, 1), Roll(rolls, 1 + s), Roll(rolls, 2 + s))
    case SubNodeMutation(keepGates) =>
      var r := MutateSubNode(n, keepGates, Roll(rolls, 0), RollsFrom(rolls, 1, |n.connections|));
      assert r.Ok? ==> Pruned(n, r.value, |HiddenNodes(n)| > 0);
      r
    case AddGateMutation => MutateAddGate(n, o, Roll(rolls, 0), Roll(rolls, 1))
  }

  /** The structural operators that cannot throw. */
  function Rewire(op: Operator, n: Network, o: Options, rolls: seq<real>): (r: Network)
    requires NetValid(n) && Rolls(rolls) && !MayThrow(op) && !Parametric(op)
    ensures NetValid(r) && r.inputSize == n.inputSize && r.outputSize == n.outputSize
  {
    match op
    case AddConnectionMutation => MutateAddConnection(n, o, Roll(rolls, 0))
    case SubConnectionMutation => MutateSubConnection(n, true, Roll(rolls, 0))
    case AddSelfConnectionMutation => MutateAddSelfConnection(n, Roll(rolls, 0))
    case SubSelfConnectionMutation => MutateSubSelfConnection(n, Roll(rolls, 0))
    case SubGateMutation => MutateSubGate(n, Roll(rolls, 0))
    case AddBackConnectionMutation => MutateAddBackConnection(n, Roll(rolls, 0))
    case SubBackConnectionMutation => MutateSubConnection(n, false, Roll(rolls, 0))
    case SwapNodesMutation(mutateOutput) =>
      MutateSwapNodes(n, mutateOutput, Roll(rolls, 0), Roll(rolls, 1))
  }

  /**
   * `Network.mutateRandom(methods = ALL_MUTATIONS, options = {})`: nothing
   * with no methods, otherwise `mutate` with a random one; the first draw
   * picks the method, the rest go to it.
   */
  function MutateRandom(n: Network, methods: seq<Operator>, o: Options, catalog: seq<Squash>, rolls: seq<real>): (r: Result<Network>)
    requires NetValid(n) && Rolls(rolls)
    ensures |methods| == 0 ==> r == Ok(n)
    ensures |methods| > 0 ==> exists i :: 0 <= i < |methods| && r == Mutate(methods[i], n, o, catalog, Rest(rolls))
    ensures r.Ok? ==> NetValid(r.value) && r.value.inputSize == n.inputSize && r.value.outputSize == n.outputSize
    ensures r.Err? ==> exists op :: op in methods && MayThrow(op)
    ensures r.Ok? && (forall op :: op in methods ==> Parametric(op)) ==> SameTopology(n, r.value)
  {
    match ArrayUtils.PickRandom(methods, Roll(rolls, 0))
    case Err(_) => Ok(n)
    case Ok(op) =>
      assert op in methods;
      Mutate(op, n, o, catalog, Rest(rolls))
  }

  /** With `NO_STRUCTURE_MUTATIONS`, `mutateRandom` never changes the topology. */
  lemma NoStructureKeepsTopology(n: Network, o: Options, catalog: seq<Squash>, rolls: seq<real>)
    requires NetValid(n) && Rolls(rolls)
    ensures var r := MutateRandom(n, NoStructureMutations, o, catalog, rolls);
      r.Ok? ==> SameTopology(n, r.value)
  {
    assert forall op :: op in NoStructureMutations ==> Parametric(op);
  }

  /**
   * Splitting a gated connection loses its gate: it leaves `gates`, and
   * neither new connection is gated.
   */
  lemma AddNodeLosesGate(n: Network, k: Key, node: Node, coin: real)
    requires NetValid(n) && k in n.connections && k in n.gates && IsDraw(coin)
    ensures var r := Split(n, k, node, coin);
      r.Ok? && r.value.gates == OrderedSet.Delete(n.gates, k) && |r.value.gates| == |n.gates| - 1 &&
      r.value.heap.conns[Key(k.from, n.heap.next)].gate.None? && r.value.heap.conns[Key(n.heap.next, k.to)].gate.None?
  {
    DisconnectedConn(n, k);
  }

  /**
   * Splitting a self connection leaves the new node's outgoing connection
   * with weight 0, whatever the self connection's weight was.
   */
  lemma AddNodeZeroesLoop(n: Network, v: NodeId, node: Node, coin: real)
    requires NetValid(n) && Key(v, v) in n.connections && IsDraw(coin)
    ensures var r := Split(n, Key(v, v), node, coin);
      r.Ok? ==> r.value.heap.conns[Key(n.heap.next, v)].weight == 0.0
  {
    DisconnectedConn(n, Key(v, v));
  }

  /** A removed connection was spare: every node keeps at least one outgoing and one incoming edge it had. */
  lemma SubConnectionKeepsLinks(n: Network, forward: bool, pick: real, v: NodeId)
    requires NetValid(n) && IsDraw(pick)
    ensures var r := MutateSubConnection(n, forward, pick);
      (Outgoing(n.heap, v) != {} ==> Outgoing(r.heap, v) != {}) && (Incoming(n.heap, v) != {} ==> Incoming(r.heap, v) != {})
  {
    var r := MutateSubConnection(n, forward, pick);
    if r != n {
      var k :| k in n.connections && Spare(n, k, forward) && r.heap.conns == n.heap.conns - {k};
      SpareLeavesLinks(n.heap, r.heap, k, v);
    }
  }

  /** Dropping an edge whose source has another outgoing edge and whose target has another incoming edge. */
  lemma SpareLeavesLinks(h: Heap, r: Heap, k: Key, v: NodeId)
    requires r.conns == h.conns - {k} && |Outgoing(h, k.from)| > 1 && |Incoming(h, k.to)| > 1
    ensures Outgoing(h, v) != {} ==> Outgoing(r, v) != {}
    ensures Incoming(h, v) != {} ==> Incoming(r, v) != {}
  {
    assert Outgoing(r, v) == Outgoing(h, v) - {k};
    assert Incoming(r, v) == Incoming(h, v) - {k};
    if v == k.from {
      assert |Outgoing(h, v) - {k}| >= |Outgoing(h, v)| - 1;
    }
    if v == k.to {
      assert |Incoming(h, v) - {k}| >= |Incoming(h, v)| - 1;
    }
  }

  /** Every gated connection can be the one `SubGateMutation` ungates. */
  lemma SubGateReaches(n: Network, i: nat)
    requires NetValid(n) && i < |n.gates|
    ensures IsDraw(i as real / |n.gates| as real)
    ensures var r := MutateSubGate(n, i as real / |n.gates| as real);
      r == Ungate1(n, n.gates[i]) && n.gates[i] !in r.gates
  {
    ArrayUtils.PickReaches(n.gates, i);
  }
}
