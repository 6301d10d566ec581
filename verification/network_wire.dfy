/**
 * Building a network from plain records, as `Network.fromJSON` and
 * `Network.crossOver` do: first the node list, every node with only its
 * unweighted self connection, then one `Network.connect` per connection
 * record, followed by `Network.addGate` when the record names a gate.
 *
 * A node is named by its position in the list; the nodes of a freshly built
 * network get the ids 0, 1, ... in list order.
 */
module Wiring {
  import opened Results
  import opened Graph
  import opened Networks
  import OrderedSet

  /** The record `Connection.toJSON` produces: endpoint and gate positions in the node list, and the weight. */
  datatype ConnJson = ConnJson(fromIndex: nat, toIndex: nat, gateNodeIndex: Option<nat>, weight: real)

  /** The ids 0 to n - 1 in order. */
  function Iota(n: nat): (r: seq<NodeId>)
    ensures |r| == n && OrderedSet.Distinct(r)
    ensures forall i :: 0 <= i < n ==> r[i] == i
  {
    if n == 0 then [] else OrderedSet.Add(Iota(n - 1), n - 1)
  }

  /** The self connection of every node below `n`, unweighted and ungated. */
  function SelfLoopsBelow(n: nat): (m: map<Key, Conn>)
    ensures forall k :: k in m <==> k.from == k.to && k.from < n
    ensures forall k :: k in m ==> m[k] == Conn(0.0, 1.0, None)
  {
    map i | 0 <= i < n :: Key(i, i) := Conn(0.0, 1.0, None)
  }

  /**
   * A network holding `nodes` and nothing else: what `new Network(...)`
   * leaves once `fromJSON` or `crossOver` has emptied its node list and its
   * connection registry and pushed the new nodes.
   */
  function Blank(nodes: seq<Node>, inputSize: nat, outputSize: nat): (r: Network)
    ensures NetValid(r)
    ensures |r.nodes| == |nodes| && forall i :: 0 <= i < |nodes| ==> r.nodes[i] == i && i in r.heap.nodes && r.heap.nodes[i] == nodes[i]
    ensures forall k :: k in r.heap.conns ==> k.from == k.to < |nodes| && r.heap.conns[k] == Conn(0.0, 1.0, None)
    ensures r.connections == [] && r.gates == []
    ensures r.inputSize == inputSize && r.outputSize == outputSize && r.score == None
  {
    var r := Network(Heap(NodeMap(nodes), SelfLoopsBelow(|nodes|), |nodes|), Iota(|nodes|), [], [], inputSize, outputSize, None);
    BlankValid(r, |nodes|);
    r
  }

  /** The node list as a map from position to node. */
  function NodeMap(nodes: seq<Node>): (m: map<NodeId, Node>)
    ensures forall x: NodeId :: x in m <==> x < |nodes|
    ensures forall i :: 0 <= i < |nodes| ==> m[i] == nodes[i]
  {
    map i: NodeId | i < |nodes| :: nodes[i]
  }

  /** A network whose ids are 0 to size - 1, each with only its self connection, keeps the invariant. */
  lemma BlankValid(r: Network, size: nat)
    requires r.nodes == Iota(size) && r.heap.next == size && r.heap.conns == SelfLoopsBelow(size)
    requires forall x: NodeId :: x in r.heap.nodes <==> x < size
    requires r.connections == [] && r.gates == []
    ensures NetValid(r)
  {
    assert Valid(r.heap);
    assert NodesOk(r);
    assert GatesOk(r) by { assert GatedKeys(r.heap.conns) == {}; }
  }

  /** The record's endpoints, and its gate if it names one, are positions of a list of `size` nodes. */
  predicate InRange(c: ConnJson, size: nat) {
    c.fromIndex < size && c.toIndex < size && (c.gateNodeIndex.Some? ==> c.gateNodeIndex.value < size)
  }

  /** The record joins two different positions. */
  predicate Between(c: ConnJson) {
    c.fromIndex != c.toIndex
  }

  /** The connection the record names among `nodes`. */
  function KeyAt(nodes: seq<NodeId>, c: ConnJson): Key
    requires c.fromIndex < |nodes| && c.toIndex < |nodes|
  {
    Key(nodes[c.fromIndex], nodes[c.toIndex])
  }

  /** The gate node the record names among `nodes`, `None` for a `null` gate index. */
  function GateAt(nodes: seq<NodeId>, c: ConnJson): Option<NodeId>
    requires InRange(c, |nodes|)
  {
    if c.gateNodeIndex.Some? then Some(nodes[c.gateNodeIndex.value]) else None
  }

  /** The connections the records name, in record order. */
  function Named(nodes: seq<NodeId>, specs: seq<ConnJson>): (ks: seq<Key>)
    requires forall i :: 0 <= i < |specs| ==> InRange(specs[i], |nodes|)
    ensures |ks| == |specs| && forall i :: 0 <= i < |specs| ==> InRange(specs[i], |nodes|) && ks[i] == KeyAt(nodes, specs[i])
  {
    if |specs| == 0 then []
    else
      assert InRange(specs[0], |nodes|);
      [KeyAt(nodes, specs[0])] + Named(nodes, specs[1..])
  }

  /**
   * The records can all be wired into `n`: their positions are in range, no
   * two of them join the same two different positions, and no such pair is
   * connected already.
   */
  ghost predicate Wireable(n: Network, specs: seq<ConnJson>) {
    (forall i :: 0 <= i < |specs| ==> InRange(specs[i], |n.nodes|)) &&
    (forall i, j :: 0 <= i < j < |specs| && Between(specs[i]) ==>
       (specs[i].fromIndex, specs[i].toIndex) != (specs[j].fromIndex, specs[j].toIndex)) &&
    (forall i :: 0 <= i < |specs| && InRange(specs[i], |n.nodes|) && Between(specs[i]) ==> KeyAt(n.nodes, specs[i]) !in n.heap.conns)
  }

  /** The connection the record names exists, with the record's weight and gate. */
  ghost predicate Placed(m: Network, c: ConnJson) {
    InRange(c, |m.nodes|) && KeyAt(m.nodes, c) in m.heap.conns &&
    m.heap.conns[KeyAt(m.nodes, c)].weight == c.weight && m.heap.conns[KeyAt(m.nodes, c)].gate == GateAt(m.nodes, c)
  }

  /** `Set.prototype.add` of every key in turn. */
  function AddAll(s: seq<Key>, ks: seq<Key>): seq<Key>
    decreases |ks|
  {
    if |ks| == 0 then s else AddAll(OrderedSet.Add(s, ks[0]), ks[1..])
  }

  /** Different positions of a valid network's node list hold different nodes. */
  lemma PositionsDiffer(n: Network, i: nat, j: nat)
    requires NodesOk(n) && i < |n.nodes| && j < |n.nodes| && i != j
    ensures n.nodes[i] != n.nodes[j]
  {
    if i < j { OrderedSet.DistinctPositions(n.nodes, i, j); } else { OrderedSet.DistinctPositions(n.nodes, j, i); }
  }

  /** The parts of a network that wiring leaves alone: the node list, the sizes, the score and the node records. */
  function Frame(n: Network): (seq<NodeId>, nat, nat, Option<real>, map<NodeId, Node>, NodeId) {
    (n.nodes, n.inputSize, n.outputSize, n.score, n.heap.nodes, n.heap.next)
  }

  /** Keeping the frame is keeping the shape. */
  lemma FrameShape(n: Network, r: Network)
    requires Frame(r) == Frame(n)
    ensures SameShape(n, r)
  {
  }

  /**
   * One connection record: `connect(nodes[fromIndex], nodes[toIndex], weight)`
   * and, when the record names a gate, `addGate(nodes[gateNodeIndex], ...)`.
   * A position past the end of the list reads `undefined`: as an endpoint it
   * makes `connect` throw a `TypeError`, as a gate it makes `addGate` throw
   * its `ReferenceError`.
   */
  function Place(n: Network, c: ConnJson): (r: Result<Network>)
    requires NetValid(n)
    ensures r.Ok? ==> NetValid(r.value) && Frame(r.value) == Frame(n)
  {
    if c.fromIndex >= |n.nodes| then Err(TypeError("Cannot read properties of undefined (reading 'connect')"))
    else if c.toIndex >= |n.nodes| then Err(TypeError("Cannot read properties of undefined (reading 'incoming')"))
    else
      match Join(n, c)
      case Err(e) => Err(e)
      case Ok(m) => GateNamed(m, c, KeyAt(n.nodes, c))
  }

  /** The record a connection made by `connect(from, to, weight)` holds: a fresh edge, or the reweighted self connection. */
  function Joined(n: Network, c: ConnJson): Conn
    requires NetValid(n) && c.fromIndex < |n.nodes| && c.toIndex < |n.nodes|
  {
    if Between(c) then Conn(c.weight, 1.0, None) else n.heap.conns[KeyAt(n.nodes, c)].(weight := c.weight)
  }

  /** The record of the connection once the record's gate, if any, has been added to an ungated connection. */
  function Settled(n: Network, c: ConnJson): Conn
    requires NetValid(n) && InRange(c, |n.nodes|)
  {
    var j := Joined(n, c);
    if c.gateNodeIndex.Some? && j.gate.None? then j.(gate := Some(n.nodes[c.gateNodeIndex.value])) else j
  }

  /** `connect(nodes[fromIndex], nodes[toIndex], weight)` for two positions in range. */
  function Join(n: Network, c: ConnJson): (r: Result<Network>)
    requires NetValid(n) && c.fromIndex < |n.nodes| && c.toIndex < |n.nodes|
    ensures r.Ok? <==> !Between(c) || KeyAt(n.nodes, c) !in n.heap.conns
    ensures r.Err? ==> r.error.ReferenceError?
    ensures r.Ok? ==> NetValid(r.value) && Frame(r.value) == Frame(n)
  {
    var a := n.nodes[c.fromIndex];
    var b := n.nodes[c.toIndex];
    assert a != b <==> Between(c) by {
      if Between(c) { PositionsDiffer(n, c.fromIndex, c.toIndex); }
    }
    match Connect(n, a, b, c.weight)
    case Err(e) => Err(e)
    case Ok((m, _)) => Ok(m)
  }

  /** `connect` registers the connection and gives it the joined record; every other connection keeps its record. */
  lemma JoinEffect(n: Network, c: ConnJson, m: Network)
    requires NetValid(n) && c.fromIndex < |n.nodes| && c.toIndex < |n.nodes| && Join(n, c) == Ok(m)
    ensures m.connections == OrderedSet.Add(n.connections, KeyAt(n.nodes, c))
    ensures m.heap.conns.Keys == n.heap.conns.Keys + {KeyAt(n.nodes, c)}
    ensures m.heap.conns[KeyAt(n.nodes, c)] == Joined(n, c)
    ensures forall k :: k in n.heap.conns && k != KeyAt(n.nodes, c) ==> m.heap.conns[k] == n.heap.conns[k]
  {
    var a := n.nodes[c.fromIndex];
    var b := n.nodes[c.toIndex];
    assert a != b <==> Between(c) by {
      if Between(c) { PositionsDiffer(n, c.fromIndex, c.toIndex); }
    }
    assert Connect(n, a, b, c.weight).Ok? && Connect(n, a, b, c.weight).value.0 == m;
  }

  /** `addGate(nodes[gateNodeIndex], connection)` when the record names a gate; nothing otherwise. */
  function GateNamed(m: Network, c: ConnJson, k: Key): (r: Result<Network>)
    requires NetValid(m) && k in m.heap.conns
    ensures r.Ok? <==> (c.gateNodeIndex.Some? ==> c.gateNodeIndex.value < |m.nodes|)
    ensures r.Err? ==> r.error == ReferenceError("This node is not part of the network!")
    ensures r.Ok? ==> NetValid(r.value) && Frame(r.value) == Frame(m) && r.value.connections == m.connections
  {
    if c.gateNodeIndex.None? then Ok(m)
    else if c.gateNodeIndex.value >= |m.nodes| then Err(ReferenceError("This node is not part of the network!"))
    else AddGate(m, m.nodes[c.gateNodeIndex.value], k)
  }

  /** `addGate` gates the connection unless it already has a gate; every other connection keeps its record. */
  lemma GateNamedEffect(m: Network, c: ConnJson, k: Key, r: Network)
    requires NetValid(m) && k in m.heap.conns && GateNamed(m, c, k) == Ok(r)
    ensures r.heap.conns.Keys == m.heap.conns.Keys
    ensures forall k' :: k' in m.heap.conns && k' != k ==> r.heap.conns[k'] == m.heap.conns[k']
    ensures r.heap.conns[k] == if c.gateNodeIndex.Some? && m.heap.conns[k].gate.None?
                                 then m.heap.conns[k].(gate := Some(m.nodes[c.gateNodeIndex.value]))
                                 else m.heap.conns[k]
  {
    if c.gateNodeIndex.Some? {
      var g := m.nodes[c.gateNodeIndex.value];
      assert AddGate(m, g, k) == Ok(r);
    }
  }

  /** A record can be placed exactly when its positions are in range and it does not join an already connected pair. */
  lemma PlaceOk(n: Network, c: ConnJson)
    requires NetValid(n)
    ensures Place(n, c).Ok? <==> InRange(c, |n.nodes|) && (Between(c) ==> KeyAt(n.nodes, c) !in n.heap.conns)
  {
  }

  /** The exception each kind of bad record raises. */
  lemma PlaceErrors(n: Network, c: ConnJson)
    requires NetValid(n)
    ensures c.fromIndex >= |n.nodes| ==> Place(n, c) == Err(TypeError("Cannot read properties of undefined (reading 'connect')"))
    ensures c.fromIndex < |n.nodes| <= c.toIndex ==> Place(n, c) == Err(TypeError("Cannot read properties of undefined (reading 'incoming')"))
    ensures c.fromIndex < |n.nodes| && c.toIndex < |n.nodes| && Between(c) && KeyAt(n.nodes, c) in n.heap.conns ==>
              Place(n, c).Err? && Place(n, c).error.ReferenceError?
    ensures c.fromIndex < |n.nodes| && c.toIndex < |n.nodes| && (Between(c) ==> KeyAt(n.nodes, c) !in n.heap.conns) && !InRange(c, |n.nodes|) ==>
              Place(n, c) == Err(ReferenceError("This node is not part of the network!"))
  {
  }

  /** Placing a record adds its connection to the registry. */
  lemma PlaceRegistry(n: Network, c: ConnJson, m: Network)
    requires NetValid(n) && Place(n, c) == Ok(m)
    ensures InRange(c, |n.nodes|) && m.connections == OrderedSet.Add(n.connections, KeyAt(n.nodes, c))
  {
    var j := Join(n, c).value;
    JoinEffect(n, c, j);
  }

  /** What placing a record does to the connection map: its connection gets the settled record, nothing else changes. */
  lemma PlaceEffect(n: Network, c: ConnJson, m: Network)
    requires NetValid(n) && Place(n, c) == Ok(m)
    ensures InRange(c, |n.nodes|) && m.nodes == n.nodes
    ensures m.heap.conns.Keys == n.heap.conns.Keys + {KeyAt(n.nodes, c)}
    ensures m.heap.conns[KeyAt(n.nodes, c)] == Settled(n, c)
    ensures forall k :: k in n.heap.conns && k != KeyAt(n.nodes, c) ==> m.heap.conns[k] == n.heap.conns[k]
  {
    var j := Join(n, c).value;
    JoinEffect(n, c, j);
    GateNamedEffect(j, c, KeyAt(n.nodes, c), m);
  }

  /** A placed record between two different positions has the record's weight and gate. */
  lemma SettledPlaced(n: Network, c: ConnJson, m: Network)
    requires NetValid(n) && InRange(c, |n.nodes|) && Between(c) && m.nodes == n.nodes
    requires KeyAt(n.nodes, c) in m.heap.conns && m.heap.conns[KeyAt(n.nodes, c)] == Settled(n, c)
    ensures Placed(m, c)
  {
  }

  /** `connections.forEach(...)` over the records, stopping at the first exception. */
  function Wire(n: Network, specs: seq<ConnJson>): (r: Result<Network>)
    requires NetValid(n)
    ensures r.Ok? ==> NetValid(r.value) && Frame(r.value) == Frame(n)
    decreases |specs|
  {
    if |specs| == 0 then Ok(n)
    else
      match Place(n, specs[0])
      case Err(e) => Err(e)
      case Ok(m) => Wire(m, specs[1..])
  }

  /** The records wire without an exception exactly when they are wireable. */
  lemma {:induction false} WireOk(n: Network, specs: seq<ConnJson>)
    requires NetValid(n)
    ensures Wire(n, specs).Ok? <==> Wireable(n, specs)
    decreases |specs|
  {
    if |specs| > 0 {
      PlaceOk(n, specs[0]);
      WireableHead(n, specs);
      if Place(n, specs[0]).Ok? {
        var m := Place(n, specs[0]).value;
        WireableStep(n, specs, m);
        WireOk(m, specs[1..]);
      }
    }
  }

  /** Wiring adds exactly the named connections. */
  lemma {:induction false} WireKeys(n: Network, specs: seq<ConnJson>)
    requires NetValid(n) && Wireable(n, specs)
    ensures Wire(n, specs).Ok?
    ensures Wire(n, specs).value.heap.conns.Keys == n.heap.conns.Keys + OrderedSet.Elements(Named(n.nodes, specs))
    decreases |specs|
  {
    WireOk(n, specs);
    if |specs| > 0 {
      var m := Place(n, specs[0]).value;
      PlaceEffect(n, specs[0], m);
      WireableStep(n, specs, m);
      NamedHead(n, specs);
      WireKeys(m, specs[1..]);
      assert Wire(n, specs) == Wire(m, specs[1..]);
    }
  }

  /** Wiring leaves every connection it does not name as it was. */
  lemma {:induction false} WireKeeps(n: Network, specs: seq<ConnJson>)
    requires NetValid(n) && Wireable(n, specs)
    ensures Wire(n, specs).Ok?
    ensures forall k :: k in n.heap.conns && k !in Named(n.nodes, specs) ==> k in Wire(n, specs).value.heap.conns && Wire(n, specs).value.heap.conns[k] == n.heap.conns[k]
    decreases |specs|
  {
    WireOk(n, specs);
    if |specs| > 0 {
      var m := Place(n, specs[0]).value;
      PlaceEffect(n, specs[0], m);
      WireableStep(n, specs, m);
      NamedHead(n, specs);
      WireKeeps(m, specs[1..]);
      assert Wire(n, specs) == Wire(m, specs[1..]);
    }
  }

  /** Once wired, every record between two different positions is placed. */
  lemma {:induction false} WirePlaced(n: Network, specs: seq<ConnJson>)
    requires NetValid(n) && Wireable(n, specs)
    ensures Wire(n, specs).Ok?
    ensures forall c :: c in specs && Between(c) ==> Placed(Wire(n, specs).value, c)
    decreases |specs|
  {
    WireOk(n, specs);
    if |specs| > 0 {
      var m := Place(n, specs[0]).value;
      var rest := specs[1..];
      WireableStep(n, specs, m);
      var r := Wire(m, rest).value;
      assert Wire(n, specs).value == r;
      assert Between(specs[0]) ==> Placed(r, specs[0]) by {
        if Between(specs[0]) { WireHeadPlaced(n, specs, m); }
      }
      WirePlaced(m, rest);
      assert forall c :: c in specs ==> c == specs[0] || c in rest;
    }
  }

  /** The first record stays placed while the rest are wired. */
  lemma WireHeadPlaced(n: Network, specs: seq<ConnJson>, m: Network)
    requires NetValid(n) && |specs| > 0 && Wireable(n, specs) && Between(specs[0]) && Place(n, specs[0]) == Ok(m)
    requires Wireable(m, specs[1..])
    ensures Wire(m, specs[1..]).Ok? && Placed(Wire(m, specs[1..]).value, specs[0])
  {
    var c := specs[0];
    PlaceEffect(n, c, m);
    NamedHead(n, specs);
    WireKeeps(m, specs[1..]);
    SettledPlaced(n, c, Wire(m, specs[1..]).value);
  }

  /** Wiring registers the named connections in record order. */
  lemma {:induction false} WireRegistry(n: Network, specs: seq<ConnJson>)
    requires NetValid(n) && Wireable(n, specs)
    ensures Wire(n, specs).Ok?
    ensures Wire(n, specs).value.connections == AddAll(n.connections, Named(n.nodes, specs))
    decreases |specs|
  {
    WireOk(n, specs);
    if |specs| > 0 {
      var m := Place(n, specs[0]).value;
      PlaceRegistry(n, specs[0], m);
      WireableStep(n, specs, m);
      NamedHead(n, specs);
      WireRegistry(m, specs[1..]);
    }
  }

  /** A list whose first record cannot be placed is not wireable. */
  lemma WireableHead(n: Network, specs: seq<ConnJson>)
    requires NetValid(n) && |specs| > 0
    ensures Wireable(n, specs) ==> InRange(specs[0], |n.nodes|) && (Between(specs[0]) ==> KeyAt(n.nodes, specs[0]) !in n.heap.conns)
  {
    if Wireable(n, specs) {
      assert InRange(specs[0], |n.nodes|);
    }
  }

  /** Two records name the same connection only when they name the same positions. */
  lemma KeyInjective(n: Network, c: ConnJson, d: ConnJson)
    requires NodesOk(n) && InRange(c, |n.nodes|) && InRange(d, |n.nodes|)
    ensures KeyAt(n.nodes, c) == KeyAt(n.nodes, d) ==> (c.fromIndex, c.toIndex) == (d.fromIndex, d.toIndex)
  {
    if c.fromIndex != d.fromIndex { PositionsDiffer(n, c.fromIndex, d.fromIndex); }
    if c.toIndex != d.toIndex { PositionsDiffer(n, c.toIndex, d.toIndex); }
  }

  /** A record between two different positions names an edge, not a self connection. */
  lemma BetweenEdge(n: Network, c: ConnJson)
    requires NodesOk(n) && InRange(c, |n.nodes|) && Between(c)
    ensures KeyAt(n.nodes, c).from != KeyAt(n.nodes, c).to
  {
    PositionsDiffer(n, c.fromIndex, c.toIndex);
  }

  /** The list is wireable exactly when what follows the first record is wireable once it is placed. */
  lemma WireableStep(n: Network, specs: seq<ConnJson>, m: Network)
    requires NetValid(n) && |specs| > 0 && Place(n, specs[0]) == Ok(m)
    ensures Wireable(n, specs) <==> Wireable(m, specs[1..])
  {
    PlaceOk(n, specs[0]);
    PlaceEffect(n, specs[0], m);
    if Wireable(n, specs) { WireableForward(n, specs, m); }
    if Wireable(m, specs[1..]) { WireableBack(n, specs, m); }
  }

  /** Placing the first record of a wireable list leaves the rest wireable. */
  lemma WireableForward(n: Network, specs: seq<ConnJson>, m: Network)
    requires NodesOk(n) && |specs| > 0 && Wireable(n, specs) && m.nodes == n.nodes
    requires m.heap.conns.Keys == n.heap.conns.Keys + {KeyAt(n.nodes, specs[0])}
    ensures Wireable(m, specs[1..])
  {
    var c := specs[0];
    var rest := specs[1..];
    assert InRange(c, |n.nodes|);
    forall i, j | 0 <= i < j < |rest| && Between(rest[i])
      ensures (rest[i].fromIndex, rest[i].toIndex) != (rest[j].fromIndex, rest[j].toIndex)
    {
      assert specs[i + 1] == rest[i] && specs[j + 1] == rest[j];
    }
    forall j | 0 <= j < |rest| && InRange(rest[j], |m.nodes|) && Between(rest[j])
      ensures KeyAt(m.nodes, rest[j]) !in m.heap.conns
    {
      assert specs[j + 1] == rest[j];
      KeyInjective(n, rest[j], c);
      BetweenEdge(n, rest[j]);
    }
  }

  /** A first record that places, followed by a list wireable after it, makes a wireable list. */
  lemma WireableBack(n: Network, specs: seq<ConnJson>, m: Network)
    requires NodesOk(n) && |specs| > 0 && m.nodes == n.nodes && Wireable(m, specs[1..])
    requires InRange(specs[0], |n.nodes|) && (Between(specs[0]) ==> KeyAt(n.nodes, specs[0]) !in n.heap.conns)
    requires m.heap.conns.Keys == n.heap.conns.Keys + {KeyAt(n.nodes, specs[0])}
    ensures Wireable(n, specs)
  {
    var c := specs[0];
    var rest := specs[1..];
    forall i | 0 <= i < |specs| ensures InRange(specs[i], |n.nodes|) {
      if i > 0 { assert rest[i - 1] == specs[i]; }
    }
    forall i, j | 0 <= i < j < |specs| && Between(specs[i])
      ensures (specs[i].fromIndex, specs[i].toIndex) != (specs[j].fromIndex, specs[j].toIndex)
    {
      assert rest[j - 1] == specs[j];
      if i > 0 {
        assert rest[i - 1] == specs[i];
      } else if Between(specs[j]) {
        KeyInjective(n, c, specs[j]);
      }
    }
    forall i | 0 <= i < |specs| && InRange(specs[i], |n.nodes|) && Between(specs[i])
      ensures KeyAt(n.nodes, specs[i]) !in n.heap.conns
    {
      if i > 0 { assert rest[i - 1] == specs[i]; }
    }
  }

  /** The keys a list names are those of its first record and of the rest; a wireable list names a real edge once. */
  lemma NamedHead(n: Network, specs: seq<ConnJson>)
    requires NetValid(n) && |specs| > 0 && Wireable(n, specs)
    ensures Named(n.nodes, specs) == [KeyAt(n.nodes, specs[0])] + Named(n.nodes, specs[1..])
    ensures OrderedSet.Elements(Named(n.nodes, specs)) == {KeyAt(n.nodes, specs[0])} + OrderedSet.Elements(Named(n.nodes, specs[1..]))
    ensures Between(specs[0]) ==> KeyAt(n.nodes, specs[0]) !in Named(n.nodes, specs[1..])
  {
    var c := specs[0];
    var rest := specs[1..];
    var named := Named(n.nodes, specs);
    assert InRange(c, |n.nodes|);
    assert named == [KeyAt(n.nodes, c)] + Named(n.nodes, rest);
    if Between(c) {
      forall j | 0 <= j < |rest| ensures Named(n.nodes, rest)[j] != KeyAt(n.nodes, c) {
        assert specs[j + 1] == rest[j];
        if rest[j].fromIndex != c.fromIndex { PositionsDiffer(n, rest[j].fromIndex, c.fromIndex); }
        else if rest[j].toIndex != c.toIndex { PositionsDiffer(n, rest[j].toIndex, c.toIndex); }
      }
    }
  }

  /** Adding keys that are new and pairwise different appends them in order. */
  lemma {:induction false} AddAllFresh(s: seq<Key>, ks: seq<Key>)
    requires forall i, j :: 0 <= i < j < |ks| ==> ks[i] != ks[j]
    requires forall i :: 0 <= i < |ks| ==> ks[i] !in s
    ensures AddAll(s, ks) == s + ks
    decreases |ks|
  {
    if |ks| > 0 {
      var s1 := s + [ks[0]];
      var rest := ks[1..];
      AddFresh(s, ks[0]);
      assert forall i :: 0 <= i < |rest| ==> rest[i] !in s1 by {
        forall i | 0 <= i < |rest| ensures rest[i] !in s1 { assert rest[i] == ks[i + 1]; }
      }
      assert forall i, j :: 0 <= i < j < |rest| ==> rest[i] != rest[j] by {
        forall i, j | 0 <= i < j < |rest| ensures rest[i] != rest[j] { assert rest[i] == ks[i + 1] && rest[j] == ks[j + 1]; }
      }
      AddAllFresh(s1, rest);
      assert s + ks == s1 + rest;
    }
  }

  /** Adding a new key appends it. */
  lemma AddFresh(s: seq<Key>, k: Key)
    requires k !in s
    ensures OrderedSet.Add(s, k) == s + [k]
  {
  }
}
