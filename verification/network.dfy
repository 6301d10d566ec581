/**
 * The `Network` class over the graph arena: the ordered node list, the
 * `connections` and `gates` registries (JavaScript `Set`s, kept as
 * duplicate-free sequences in insertion order), the input and output sizes
 * and the score. A network's operations keep the registries in step with
 * the graph: every edge between two distinct nodes is registered, every
 * registered connection joins two nodes of the list, and `gates` holds
 * exactly the gated connections, whose gate nodes are in the list.
 */
module Networks {
  import opened Results
  import opened Enums
  import opened Graph
  import OrderedSet

  datatype Network = Network(heap: Heap, nodes: seq<NodeId>, connections: seq<Key>, gates: seq<Key>,
                             inputSize: nat, outputSize: nat, score: Option<real>)

  /** The connections that have a gate. */
  function GatedKeys(conns: map<Key, Conn>): set<Key> {
    set k | k in conns && conns[k].gate.Some?
  }

  /** The node list has no repeats and names live nodes. */
  ghost predicate NodesOk(n: Network) {
    OrderedSet.Distinct(n.nodes) && forall i :: 0 <= i < |n.nodes| ==> n.nodes[i] in n.heap.nodes
  }

  /** Registered connections exist and join listed nodes; every edge between distinct nodes is registered. */
  ghost predicate RegistryOk(n: Network) {
    OrderedSet.Distinct(n.connections) &&
    (forall k :: k in n.connections ==> k in n.heap.conns && k.from in n.nodes && k.to in n.nodes) &&
    (forall k :: k in n.heap.conns && k.from != k.to ==> k in n.connections)
  }

  /** `gates` holds exactly the gated connections, and their gates are listed nodes. */
  ghost predicate GatesOk(n: Network) {
    OrderedSet.Distinct(n.gates) && OrderedSet.Elements(n.gates) == GatedKeys(n.heap.conns) &&
    forall k :: k in n.heap.conns && n.heap.conns[k].gate.Some? ==> n.heap.conns[k].gate.value in n.nodes
  }

  /** The invariant every `Network` operation keeps. */
  ghost predicate NetValid(n: Network) {
    Valid(n.heap) && NodesOk(n) && RegistryOk(n) && GatesOk(n)
  }

  /** Everything but the heap and the registries is left alone. */
  ghost predicate SameShape(n: Network, r: Network) {
    r.nodes == n.nodes && r.inputSize == n.inputSize && r.outputSize == n.outputSize && r.score == n.score &&
    r.heap.nodes == n.heap.nodes && r.heap.next == n.heap.next
  }

  /**
   * `Network.connect(from, to, weight = 0)`: `Node.connect` followed by the
   * registration of the connection it returns, a self connection included.
   */
  function Connect(n: Network, a: NodeId, b: NodeId, weight: real): (r: Result<(Network, Key)>)
    requires NetValid(n) && a in n.nodes && b in n.nodes
    ensures r.Err? <==> a != b && Key(a, b) in n.heap.conns
    ensures r.Err? ==> r.error.ReferenceError?
    ensures r.Ok? ==> NetValid(r.value.0) && SameShape(n, r.value.0) && r.value.1 == Key(a, b)
    ensures r.Ok? ==> r.value.0.connections == OrderedSet.Add(n.connections, Key(a, b)) && r.value.0.gates == n.gates
    ensures r.Ok? ==> r.value.0.heap.conns == n.heap.conns[Key(a, b) := if a == b then n.heap.conns[Key(a, a)].(weight := weight)
                                                                       else Conn(weight, 1.0, None)]
  {
    match NodeConnect(n.heap, a, b, weight, false)
    case Err(e) => Err(e)
    case Ok((h, k)) =>
      var r := n.(heap := h, connections := OrderedSet.Add(n.connections, k));
      var c := h.conns[k];
      assert h.conns == n.heap.conns[k := c];
      ConnectValid(n, r, k, c);
      Ok((r, k))
  }

  /**
   * `Network.removeGate(connection)`: an `Error` unless the connection is in
   * `gates`; otherwise it leaves `gates` and its gate node lets it go.
   */
  function RemoveGate(n: Network, k: Key): (r: Result<Network>)
    requires NetValid(n)
    ensures r.Err? <==> k !in n.gates
    ensures r.Err? ==> r.error == PlainError("This connection is not gated!")
    ensures r.Ok? ==> NetValid(r.value) && SameShape(n, r.value) && r.value.connections == n.connections
    ensures r.Ok? ==> r.value.gates == OrderedSet.Delete(n.gates, k) && k in n.heap.conns
    ensures r.Ok? ==> r.value.heap.conns == n.heap.conns[k := n.heap.conns[k].(gate := None, gain := 1.0)]
  {
    if k !in n.gates then Err(PlainError("This connection is not gated!"))
    else
      assert k in OrderedSet.Elements(n.gates);
      var g := n.heap.conns[k].gate.value;
      var h := NodeRemoveGate(n.heap, g, k);
      assert h.conns == n.heap.conns[k := n.heap.conns[k].(gate := None, gain := 1.0)];
      var r := n.(heap := h, gates := OrderedSet.Delete(n.gates, k));
      GateChangedValid(n, r, k);
      Ok(r)
  }

  /**
   * `Network.addGate(node, connection)`: a `ReferenceError` for a node that
   * is not in the list; a connection that already has a gate is left as it
   * is; otherwise the node gates it and it joins `gates`.
   */
  function AddGate(n: Network, g: NodeId, k: Key): (r: Result<Network>)
    requires NetValid(n) && k in n.heap.conns
    ensures r.Err? <==> g !in n.nodes
    ensures r.Err? ==> r.error == ReferenceError("This node is not part of the network!")
    ensures r.Ok? ==> NetValid(r.value) && SameShape(n, r.value) && r.value.connections == n.connections
    ensures r.Ok? && n.heap.conns[k].gate.Some? ==> r.value == n
    ensures r.Ok? && n.heap.conns[k].gate.None? ==> r.value.gates == n.gates + [k]
    ensures r.Ok? && n.heap.conns[k].gate.None? ==> r.value.heap.conns == n.heap.conns[k := n.heap.conns[k].(gate := Some(g))]
  {
    if g !in n.nodes then Err(ReferenceError("This node is not part of the network!"))
    else if n.heap.conns[k].gate.Some? then Ok(n)
    else
      assert k !in GatedKeys(n.heap.conns);
      assert k !in OrderedSet.Elements(n.gates);
      var h := NodeAddGate(n.heap, g, k);
      assert h.conns == n.heap.conns[k := n.heap.conns[k].(gate := Some(g))];
      var r := n.(heap := h, gates := OrderedSet.Add(n.gates, k));
      GateChangedValid(n, r, k);
      Ok(r)
  }

  /**
   * `Network.disconnect(from, to)`: a registered connection `from -> to`
   * first loses its gate through `removeGate` and leaves the registry, then
   * `Node.disconnect` runs, which fails when there is no such edge. For a
   * node and itself the self weight becomes 0.
   */
  function Disconnect(n: Network, a: NodeId, b: NodeId): (r: Result<(Network, Conn)>)
    requires NetValid(n) && a in n.nodes && b in n.nodes
    ensures r.Err? <==> a != b && Key(a, b) !in n.heap.conns
    ensures r.Err? ==> r.error == PlainError("No Connection found")
    ensures r.Ok? ==> NetValid(r.value.0) && SameShape(n, r.value.0)
    ensures r.Ok? ==> r.value.0.connections == OrderedSet.Delete(n.connections, Key(a, b))
    ensures r.Ok? ==> r.value.0.gates == if Key(a, b) in n.gates && Key(a, b) in n.connections then OrderedSet.Delete(n.gates, Key(a, b)) else n.gates
    ensures r.Ok? && a != b ==> r.value.0.heap.conns == n.heap.conns - {Key(a, b)} && r.value.1.weight == n.heap.conns[Key(a, b)].weight
    ensures r.Ok? && a == b ==> r.value.0.heap.conns.Keys == n.heap.conns.Keys && SelfWeight(r.value.0.heap, a) == 0.0
    ensures r.Ok? && a == b ==> forall k :: k in n.heap.conns && k != Key(a, a) ==> r.value.0.heap.conns[k] == n.heap.conns[k]
  {
    if a == b then Ok(DisconnectSelf(n, a)) else DisconnectEdge(n, a, b)
  }

  /** `Network.disconnect(node, node)`. */
  function DisconnectSelf(n: Network, a: NodeId): (r: (Network, Conn))
    requires NetValid(n) && a in n.nodes
    ensures NetValid(r.0) && SameShape(n, r.0)
    ensures r.0.connections == OrderedSet.Delete(n.connections, Key(a, a))
    ensures r.0.gates == if Key(a, a) in n.gates && Key(a, a) in n.connections then OrderedSet.Delete(n.gates, Key(a, a)) else n.gates
    ensures r.0.heap.conns.Keys == n.heap.conns.Keys && SelfWeight(r.0.heap, a) == 0.0
    ensures forall k :: k in n.heap.conns && k != Key(a, a) ==> r.0.heap.conns[k] == n.heap.conns[k]
    ensures r.0.heap.conns[Key(a, a)].gate == if Key(a, a) in n.connections then None else n.heap.conns[Key(a, a)].gate
  {
    var n1 := Ungate(n, Key(a, a));
    var u := ResetSelf(n1, a);
    u
  }

  /** The second half of `Network.disconnect(node, node)`: the self weight becomes 0 and the registry forgets the loop. */
  function ResetSelf(n: Network, a: NodeId): (r: (Network, Conn))
    requires NetValid(n) && a in n.nodes
    ensures NetValid(r.0) && SameShape(n, r.0) && r.0.gates == n.gates
    ensures r.0.connections == OrderedSet.Delete(n.connections, Key(a, a))
    ensures r.0.heap.conns.Keys == n.heap.conns.Keys && SelfWeight(r.0.heap, a) == 0.0
    ensures forall k :: k in n.heap.conns && k != Key(a, a) ==> r.0.heap.conns[k] == n.heap.conns[k]
    ensures r.0.heap.conns[Key(a, a)].gate == n.heap.conns[Key(a, a)].gate
  {
    var k := Key(a, a);
    var h := SetSelfWeight(n.heap, a, 0.0);
    var r := n.(heap := h, connections := OrderedSet.Delete(n.connections, k));
    DropSelfValid(n, r, k);
    (r, h.conns[k])
  }

  /** `Network.disconnect(from, to)` between distinct nodes. */
  function DisconnectEdge(n: Network, a: NodeId, b: NodeId): (r: Result<(Network, Conn)>)
    requires NetValid(n) && a in n.nodes && b in n.nodes && a != b
    ensures r.Err? <==> Key(a, b) !in n.heap.conns
    ensures r.Err? ==> r.error == PlainError("No Connection found")
    ensures r.Ok? ==> NetValid(r.value.0)
    ensures r.Ok? ==> SameShape(n, r.value.0)
    ensures r.Ok? ==> r.value.0.connections == OrderedSet.Delete(n.connections, Key(a, b))
    ensures r.Ok? ==> r.value.0.gates == if Key(a, b) in n.gates && Key(a, b) in n.connections then OrderedSet.Delete(n.gates, Key(a, b)) else n.gates
    ensures r.Ok? ==> r.value.0.heap.conns == n.heap.conns - {Key(a, b)} && r.value.1.weight == n.heap.conns[Key(a, b)].weight
  {
    var k := Key(a, b);
    if k !in n.heap.conns then Err(PlainError("No Connection found")) else Ok(DropEdgeOf(n, k))
  }

  /** `Network.disconnect` of an existing edge between distinct nodes. */
  function DropEdgeOf(n: Network, k: Key): (r: (Network, Conn))
    requires NetValid(n) && k in n.heap.conns && k.from != k.to
    ensures NetValid(r.0) && SameShape(n, r.0)
    ensures r.0.connections == OrderedSet.Delete(n.connections, k)
    ensures r.0.gates == if k in n.gates && k in n.connections then OrderedSet.Delete(n.gates, k) else n.gates
    ensures r.0.heap.conns == n.heap.conns - {k} && r.1.weight == n.heap.conns[k].weight
  {
    var n1 := Ungate(n, k);
    var u := DropRegistered(n1, k);
    UpdateThenRemove(n.heap.conns, k, n1.heap.conns[k]);
    u
  }

  /** The second half of `Network.disconnect` for an ungated edge: it leaves the registry and the graph. */
  function DropRegistered(n: Network, k: Key): (r: (Network, Conn))
    requires NetValid(n) && k in n.heap.conns && k.from != k.to && n.heap.conns[k].gate.None?
    ensures NetValid(r.0) && SameShape(n, r.0) && r.0.gates == n.gates
    ensures r.0.connections == OrderedSet.Delete(n.connections, k)
    ensures r.0.heap.conns == n.heap.conns - {k} && r.1 == n.heap.conns[k]
  {
    var u := Unlink(n.heap, k);
    var r := n.(heap := u.0, connections := OrderedSet.Delete(n.connections, k));
    DropEdgeValid(n, r, k);
    (r, u.1)
  }

  /** The first half of `Network.disconnect`: a registered, gated `k` loses its gate. */
  function Ungate(n: Network, k: Key): (r: Network)
    requires NetValid(n)
    ensures NetValid(r) && SameShape(n, r) && r.connections == n.connections
    ensures k in n.connections && k in n.gates ==> r.gates == OrderedSet.Delete(n.gates, k)
    ensures k in n.connections && k in n.gates ==> r.heap.conns == n.heap.conns[k := n.heap.conns[k].(gate := None, gain := 1.0)]
    ensures !(k in n.connections && k in n.gates) ==> r == n
    ensures k in n.connections ==> r.heap.conns[k].gate.None?
    ensures r.heap.conns.Keys == n.heap.conns.Keys
    ensures forall k' :: k' in n.heap.conns && k' != k ==> r.heap.conns[k'] == n.heap.conns[k']
  {
    if k in n.connections && k in n.gates then RemoveGate(n, k).value
    else
      assert k in n.connections ==> k !in OrderedSet.Elements(n.gates);
      n
  }

  // Proofs that the updates keep the invariant.

  /** Adding key `k` with an ungated record, or rewriting a record without touching its gate, keeps the gated keys. */
  lemma GatedKeysRewritten(conns: map<Key, Conn>, k: Key, c: Conn)
    requires k in conns ==> c.gate == conns[k].gate
    requires k !in conns ==> c.gate.None?
    ensures GatedKeys(conns[k := c]) == GatedKeys(conns)
  {
  }

  /** Giving `k` a gate adds it to the gated keys, taking it away removes it. */
  lemma GatedKeysRegated(conns: map<Key, Conn>, k: Key, c: Conn)
    requires k in conns
    ensures GatedKeys(conns[k := c]) == if c.gate.Some? then GatedKeys(conns) + {k} else GatedKeys(conns) - {k}
  {
  }

  /** Removing a key forgets what it was last set to. */
  lemma UpdateThenRemove(conns: map<Key, Conn>, k: Key, c: Conn)
    ensures conns[k := c] - {k} == conns - {k}
  {
  }

  /** Dropping an ungated key leaves the gated keys alone. */
  lemma GatedKeysRemoved(conns: map<Key, Conn>, k: Key)
    requires k in conns ==> conns[k].gate.None?
    ensures GatedKeys(conns - {k}) == GatedKeys(conns)
  {
  }

  lemma ConnectValid(n: Network, r: Network, k: Key, c: Conn)
    requires NetValid(n) && k.from in n.nodes && k.to in n.nodes
    requires Valid(r.heap) && r.heap.nodes.Keys == n.heap.nodes.Keys && r.heap.conns == n.heap.conns[k := c]
    requires k in n.heap.conns ==> c.gate == n.heap.conns[k].gate
    requires k !in n.heap.conns ==> c.gate.None?
    requires r == n.(heap := r.heap, connections := OrderedSet.Add(n.connections, k))
    ensures NetValid(r)
  {
    GatedKeysRewritten(n.heap.conns, k, c);
    ConnectRegistry(n, r, k, c);
    ConnectGates(n, r, k, c);
  }

  lemma ConnectRegistry(n: Network, r: Network, k: Key, c: Conn)
    requires RegistryOk(n) && NodesOk(n) && k.from in n.nodes && k.to in n.nodes
    requires r.heap.nodes.Keys == n.heap.nodes.Keys && r.heap.conns == n.heap.conns[k := c]
    requires r.nodes == n.nodes && r.connections == OrderedSet.Add(n.connections, k)
    ensures RegistryOk(r) && NodesOk(r)
  {
  }

  lemma ConnectGates(n: Network, r: Network, k: Key, c: Conn)
    requires GatesOk(n) && r.heap.conns == n.heap.conns[k := c]
    requires k in n.heap.conns ==> c.gate == n.heap.conns[k].gate
    requires k !in n.heap.conns ==> c.gate.None?
    requires r.nodes == n.nodes && r.gates == n.gates && GatedKeys(r.heap.conns) == GatedKeys(n.heap.conns)
    ensures GatesOk(r)
  {
  }

  lemma GateChangedValid(n: Network, r: Network, k: Key)
    requires NetValid(n) && k in n.heap.conns
    requires Valid(r.heap) && r.heap.nodes.Keys == n.heap.nodes.Keys && k in r.heap.conns && r.heap.conns == n.heap.conns[k := r.heap.conns[k]]
    requires r.heap.conns[k].gate.Some? ==> r.heap.conns[k].gate.value in n.nodes
    requires r.nodes == n.nodes && r.connections == n.connections
    requires OrderedSet.Distinct(r.gates)
    requires OrderedSet.Elements(r.gates) == if r.heap.conns[k].gate.Some? then OrderedSet.Elements(n.gates) + {k} else OrderedSet.Elements(n.gates) - {k}
    ensures NetValid(r)
  {
    GatedKeysRegated(n.heap.conns, k, r.heap.conns[k]);
    GateChangedRegistry(n, r, k);
    GateChangedGates(n, r, k);
  }

  lemma GateChangedRegistry(n: Network, r: Network, k: Key)
    requires RegistryOk(n) && NodesOk(n) && k in n.heap.conns
    requires r.heap.nodes.Keys == n.heap.nodes.Keys && r.heap.conns.Keys == n.heap.conns.Keys
    requires r.nodes == n.nodes && r.connections == n.connections
    ensures RegistryOk(r) && NodesOk(r)
  {
  }

  lemma GateChangedGates(n: Network, r: Network, k: Key)
    requires GatesOk(n) && k in n.heap.conns && k in r.heap.conns
    requires r.heap.conns == n.heap.conns[k := r.heap.conns[k]]
    requires r.heap.conns[k].gate.Some? ==> r.heap.conns[k].gate.value in n.nodes
    requires r.nodes == n.nodes && OrderedSet.Distinct(r.gates) && OrderedSet.Elements(r.gates) == GatedKeys(r.heap.conns)
    ensures GatesOk(r)
  {
  }

  /** Dropping an ungated edge from the graph and the registry keeps the network valid. */
  lemma DropEdgeValid(n: Network, r: Network, k: Key)
    requires NetValid(n) && k.from in n.nodes && k.to in n.nodes && k.from != k.to
    requires k in n.heap.conns ==> n.heap.conns[k].gate.None?
    requires Valid(r.heap) && r.heap.nodes.Keys == n.heap.nodes.Keys && r.heap.conns == n.heap.conns - {k}
    requires r == n.(heap := r.heap, connections := OrderedSet.Delete(n.connections, k))
    ensures NetValid(r)
  {
    GatedKeysRemoved(n.heap.conns, k);
    DisconnectRegistry(n, r, k);
    DisconnectGates(n, r, k);
  }

  /** Resetting an ungated self connection and dropping it from the registry keeps the network valid. */
  lemma DropSelfValid(n: Network, r: Network, k: Key)
    requires NetValid(n) && k.from in n.nodes && k.from == k.to
    requires Valid(r.heap) && r.heap.nodes.Keys == n.heap.nodes.Keys
    requires r.heap.conns.Keys == n.heap.conns.Keys && forall k' :: k' in n.heap.conns ==> r.heap.conns[k'].gate == n.heap.conns[k'].gate
    requires r == n.(heap := r.heap, connections := OrderedSet.Delete(n.connections, k))
    ensures NetValid(r)
  {
    assert GatedKeys(r.heap.conns) == GatedKeys(n.heap.conns);
    DisconnectRegistry(n, r, k);
    DisconnectGates(n, r, k);
  }

  lemma DisconnectRegistry(n: Network, r: Network, k: Key)
    requires RegistryOk(n) && NodesOk(n)
    requires r.heap.nodes.Keys == n.heap.nodes.Keys
    requires k.from != k.to ==> r.heap.conns == n.heap.conns - {k}
    requires k.from == k.to ==> r.heap.conns.Keys == n.heap.conns.Keys
    requires r.nodes == n.nodes && r.connections == OrderedSet.Delete(n.connections, k)
    ensures RegistryOk(r) && NodesOk(r)
  {
    assert OrderedSet.Elements(r.connections) == OrderedSet.Elements(n.connections) - {k};
    forall k' | k' in r.connections
      ensures k' in r.heap.conns && k'.from in r.nodes && k'.to in r.nodes
    {
      assert k' in OrderedSet.Elements(r.connections);
    }
    forall k' | k' in r.heap.conns && k'.from != k'.to
      ensures k' in r.connections
    {
      assert k' in OrderedSet.Elements(r.connections);
    }
  }

  lemma DisconnectGates(n: Network, r: Network, k: Key)
    requires GatesOk(n)
    requires k.from != k.to ==> r.heap.conns == n.heap.conns - {k}
    requires k.from == k.to ==> r.heap.conns.Keys == n.heap.conns.Keys && forall k' :: k' in n.heap.conns ==> r.heap.conns[k'].gate == n.heap.conns[k'].gate
    requires r.nodes == n.nodes && r.gates == n.gates && GatedKeys(r.heap.conns) == GatedKeys(n.heap.conns)
    ensures GatesOk(r)
  {
  }
}
