/**
 * The genome graph as an arena: node and connection records live in maps,
 * nodes are named by ids and a connection by its endpoint pair. This is
 * faithful because `Node.connect` refuses a second edge between the same
 * ordered pair, so a pair names at most one live connection. Every node owns
 * a self connection, kept at `Key(n, n)`, which `Node.connect(self)` and
 * `Node.disconnect(self)` only reweight.
 *
 * A node's `incoming`, `outgoing` and `gated` sets are not stored: `Node`
 * changes them only together with the connection objects they hold (an edge
 * enters both endpoint sets when it is made and leaves both, and its gate's
 * set, when it is dropped; `addGate` and `removeGate` set `gateNode` and the
 * gated set together), so they are views of the connection map.
 *
 * The operations of the `Node` class that change the graph are functions
 * from heap to heap; the learning state (activation, traces, error terms) is
 * not modelled.
 */
module Graph {
  import opened Results
  import opened Enums
  import ArrayUtils
  import JsArray

  type NodeId = nat

  /** An activation function, named by its place in the activation catalog. */
  type Squash = nat

  /** `LogisticActivation`, the squash every new node starts with. */
  const Logistic: Squash := 0

  /** A connection is named by the ids of its endpoints. */
  datatype Key = Key(from: NodeId, to: NodeId)

  /** The connection record: weight, gain, and the id of its gate node (`gateNode`, `null` as `None`). */
  datatype Conn = Conn(weight: real, gain: real, gate: Option<NodeId>)

  /** The node record: type, bias and squash. */
  datatype Node = Node(kind: NodeType, bias: real, squash: Squash)

  /** Every node and connection in existence; `next` is the id the next node gets. */
  datatype Heap = Heap(nodes: map<NodeId, Node>, conns: map<Key, Conn>, next: NodeId)

  const Empty := Heap(map[], map[], 0)

  /** Every id in use is below `next`. */
  ghost predicate Fresh(h: Heap) {
    forall n :: n in h.nodes ==> n < h.next
  }

  /** Every node owns its self connection. */
  ghost predicate SelfLoops(h: Heap) {
    forall n :: n in h.nodes ==> Key(n, n) in h.conns
  }

  /** Both endpoints of every connection exist. */
  ghost predicate Endpoints(h: Heap) {
    forall k :: k in h.conns ==> k.from in h.nodes && k.to in h.nodes
  }

  /** Every gate node exists. */
  ghost predicate GatesExist(h: Heap) {
    forall k :: k in h.conns && h.conns[k].gate.Some? ==> h.conns[k].gate.value in h.nodes
  }

  /** The invariant every `Node` operation keeps. */
  ghost predicate Valid(h: Heap) {
    Fresh(h) && SelfLoops(h) && Endpoints(h) && GatesExist(h)
  }

  /** `node.outgoing`: the edges leaving `n` for another node. */
  function Outgoing(h: Heap, n: NodeId): set<Key> {
    set k | k in h.conns && k.from == n && k.to != n
  }

  /** `node.incoming`: the edges entering `n` from another node. */
  function Incoming(h: Heap, n: NodeId): set<Key> {
    set k | k in h.conns && k.to == n && k.from != n
  }

  /** `node.gated`: the connections whose gate is `g`. */
  function GatedBy(conns: map<Key, Conn>, g: NodeId): set<Key> {
    set k | k in conns && conns[k].gate == Some(g)
  }

  /** The weight of a node's self connection. */
  function SelfWeight(h: Heap, n: NodeId): real
    requires Valid(h) && n in h.nodes
  {
    h.conns[Key(n, n)].weight
  }

  /** `new Node(kind)` with its random bias given: logistic squash, an unweighted self connection, no edges. */
  function NewNode(h: Heap, kind: NodeType, bias: real): (r: (Heap, NodeId))
    requires Valid(h)
    ensures Valid(r.0)
    ensures r.1 !in h.nodes && r.0.nodes == h.nodes[r.1 := Node(kind, bias, Logistic)]
    ensures r.0.conns == h.conns[Key(r.1, r.1) := Conn(0.0, 1.0, None)] && Key(r.1, r.1) !in h.conns
    ensures Outgoing(r.0, r.1) == {} && Incoming(r.0, r.1) == {} && GatedBy(r.0.conns, r.1) == {}
  {
    var n := h.next;
    NewNodeValid(h, Node(kind, bias, Logistic));
    (Heap(h.nodes[n := Node(kind, bias, Logistic)], h.conns[Key(n, n) := Conn(0.0, 1.0, None)], n + 1), n)
  }

  /** A node added at `next` with its self connection keeps the heap valid, and no edge or gate mentions it. */
  lemma NewNodeValid(h: Heap, v: Node)
    requires Valid(h)
    ensures var n := h.next; var r := Heap(h.nodes[n := v], h.conns[Key(n, n) := Conn(0.0, 1.0, None)], n + 1);
      Valid(r) && n !in h.nodes && Key(n, n) !in h.conns &&
      Outgoing(r, n) == {} && Incoming(r, n) == {} && GatedBy(r.conns, n) == {}
  {
    var n := h.next;
    var r := Heap(h.nodes[n := v], h.conns[Key(n, n) := Conn(0.0, 1.0, None)], n + 1);
    NoEdgesAtNext(h);
    assert Fresh(r) && SelfLoops(r) && Endpoints(r);
    assert GatesExist(r);
    NoneAtNext(h, r.conns);
  }

  /** No connection touches the id the next node gets, and none is gated by it. */
  lemma NoEdgesAtNext(h: Heap)
    requires Valid(h)
    ensures forall k :: k in h.conns ==> k.from != h.next && k.to != h.next
    ensures GatedBy(h.conns, h.next) == {}
  {
    assert forall k :: k in h.conns && h.conns[k].gate.Some? ==> h.conns[k].gate.value != h.next;
  }

  /** Only the self connection of the new node mentions it. */
  lemma NoneAtNext(h: Heap, conns: map<Key, Conn>)
    requires Valid(h) && conns == h.conns[Key(h.next, h.next) := Conn(0.0, 1.0, None)]
    ensures var r := Heap(h.nodes, conns, h.next); Outgoing(r, h.next) == {} && Incoming(r, h.next) == {} && GatedBy(conns, h.next) == {}
  {
    NoEdgesAtNext(h);
    GatedByRewrite(h.conns, Key(h.next, h.next), Conn(0.0, 1.0, None), h.next);
  }

  /**
   * `isProjectingTo`: to itself when the self connection has a non-zero
   * weight, to another node when some outgoing edge ends there.
   */
  function IsProjectingTo(h: Heap, a: NodeId, b: NodeId): (p: bool)
    requires Valid(h) && a in h.nodes
    ensures a != b ==> (p <==> Key(a, b) in h.conns)
  {
    if a == b then SelfWeight(h, a) != 0.0
    else
      assert Key(a, b) in h.conns ==> Key(a, b) in Outgoing(h, a);
      exists k :: k in Outgoing(h, a) && k.to == b
  }

  /** Connection `k` given record `c`, whose gate, if any, exists. */
  function Rewrite(h: Heap, k: Key, c: Conn): (r: Heap)
    requires Valid(h) && k.from in h.nodes && k.to in h.nodes && (c.gate.Some? ==> c.gate.value in h.nodes)
    ensures Valid(r) && r.nodes == h.nodes && r.next == h.next && r.conns == h.conns[k := c]
    ensures forall g: NodeId :: GatedBy(r.conns, g) == if c.gate == Some(g) then GatedBy(h.conns, g) + {k} else GatedBy(h.conns, g) - {k}
  {
    var r := h.(conns := h.conns[k := c]);
    forall g: NodeId ensures GatedBy(r.conns, g) == if c.gate == Some(g) then GatedBy(h.conns, g) + {k} else GatedBy(h.conns, g) - {k} {
      GatedByRewrite(h.conns, k, c, g);
    }
    r
  }

  /** How one record change moves a connection in or out of a `gated` set. */
  lemma GatedByRewrite(conns: map<Key, Conn>, k: Key, c: Conn, g: NodeId)
    ensures GatedBy(conns[k := c], g) == if c.gate == Some(g) then GatedBy(conns, g) + {k} else GatedBy(conns, g) - {k}
  {
  }

  /** A fresh edge `a -> b` with gain 1 and no gate, entered in `a.outgoing` and `b.incoming`. */
  function Link(h: Heap, a: NodeId, b: NodeId, weight: real): (r: Heap)
    requires Valid(h) && a in h.nodes && b in h.nodes && a != b && Key(a, b) !in h.conns
    ensures Valid(r) && r.nodes == h.nodes && r.next == h.next
    ensures r.conns == h.conns[Key(a, b) := Conn(weight, 1.0, None)]
    ensures Outgoing(r, a) == Outgoing(h, a) + {Key(a, b)} && Incoming(r, b) == Incoming(h, b) + {Key(a, b)}
    ensures forall g: NodeId :: GatedBy(r.conns, g) == GatedBy(h.conns, g)
  {
    var r := Rewrite(h, Key(a, b), Conn(weight, 1.0, None));
    EdgeSetsGrow(h, Key(a, b), Conn(weight, 1.0, None));
    r
  }

  /** A new edge between distinct nodes enters the `outgoing` set of its source and the `incoming` set of its target. */
  lemma EdgeSetsGrow(h: Heap, k: Key, c: Conn)
    requires k.from != k.to
    ensures var r := h.(conns := h.conns[k := c]);
      Outgoing(r, k.from) == Outgoing(h, k.from) + {k} && Incoming(r, k.to) == Incoming(h, k.to) + {k}
  {
  }

  /**
   * The removal of edge `k` between distinct nodes from both endpoint sets
   * and from its gate's `gated` set. The connection object, returned, keeps
   * its weight; a gated one comes back with no gate and gain 1.
   */
  function Unlink(h: Heap, k: Key): (r: (Heap, Conn))
    requires Valid(h) && k in h.conns && k.from != k.to
    ensures Valid(r.0) && r.0.nodes == h.nodes && r.0.next == h.next
    ensures r.0.conns == h.conns - {k}
    ensures Outgoing(r.0, k.from) == Outgoing(h, k.from) - {k} && Incoming(r.0, k.to) == Incoming(h, k.to) - {k}
    ensures forall g: NodeId :: GatedBy(r.0.conns, g) == GatedBy(h.conns, g) - {k}
    ensures r.1.weight == h.conns[k].weight && r.1.gate == None
    ensures h.conns[k].gate.Some? ==> r.1.gain == 1.0
    ensures h.conns[k].gate.None? ==> r.1 == h.conns[k]
  {
    var c := h.conns[k];
    var r := h.(conns := h.conns - {k});
    RemoveValid(h, k);
    forall g: NodeId ensures GatedBy(r.conns, g) == GatedBy(h.conns, g) - {k} {
      GatedByRemove(h.conns, k, g);
    }
    (r, if c.gate.Some? then c.(gate := None, gain := 1.0) else c)
  }

  /** Dropping an edge between distinct nodes keeps the heap valid and takes it out of both endpoint sets. */
  lemma RemoveValid(h: Heap, k: Key)
    requires Valid(h) && k.from != k.to
    ensures var r := h.(conns := h.conns - {k});
      Valid(r) && Outgoing(r, k.from) == Outgoing(h, k.from) - {k} && Incoming(r, k.to) == Incoming(h, k.to) - {k}
  {
  }

  /** A dropped connection leaves the `gated` set it was in. */
  lemma GatedByRemove(conns: map<Key, Conn>, k: Key, g: NodeId)
    ensures GatedBy(conns - {k}, g) == GatedBy(conns, g) - {k}
  {
  }

  /** The self connection of `n` reweighted; nothing else changes. */
  function SetSelfWeight(h: Heap, n: NodeId, weight: real): (r: Heap)
    requires Valid(h) && n in h.nodes
    ensures Valid(r) && r.nodes == h.nodes && r.next == h.next && r.conns.Keys == h.conns.Keys
    ensures SelfWeight(r, n) == weight && r.conns[Key(n, n)].gate == h.conns[Key(n, n)].gate
    ensures forall k :: k in h.conns && k != Key(n, n) ==> r.conns[k] == h.conns[k]
  {
    var k := Key(n, n);
    h.(conns := h.conns[k := h.conns[k].(weight := weight)])
  }

  /**
   * `Node.connect(other, weight = 1, twoSided = false)`. To itself: only the
   * self connection's weight is set. To another node: a `ReferenceError`
   * when an edge is already there, otherwise a new edge, and with
   * `twoSided` also the reverse edge of weight 1.
   */
  function NodeConnect(h: Heap, a: NodeId, b: NodeId, weight: real, twoSided: bool): (r: Result<(Heap, Key)>)
    requires Valid(h) && a in h.nodes && b in h.nodes
    ensures r.Ok? ==> Valid(r.value.0) && r.value.0.nodes == h.nodes && r.value.0.next == h.next
    ensures r.Err? ==> r.error == ReferenceError("Their is already a connection!")
    ensures a == b ==> r.Ok? && r.value.1 == Key(a, a)
    ensures a == b ==> r.value.0.conns == h.conns[Key(a, a) := h.conns[Key(a, a)].(weight := weight)]
    ensures a != b ==> (r.Err? <==> Key(a, b) in h.conns || (twoSided && Key(b, a) in h.conns))
    ensures a != b && r.Ok? ==> r.value.1 == Key(a, b)
    ensures a != b && r.Ok? ==> Key(a, b) in Outgoing(r.value.0, a) && Key(a, b) in Incoming(r.value.0, b)
    ensures a != b && r.Ok? ==> r.value.0.conns == if twoSided then h.conns[Key(a, b) := Conn(weight, 1.0, None)][Key(b, a) := Conn(1.0, 1.0, None)]
                                                   else h.conns[Key(a, b) := Conn(weight, 1.0, None)]
    ensures a != b && r.Ok? && twoSided ==> Key(b, a) in Outgoing(r.value.0, b) && Key(b, a) in Incoming(r.value.0, a)
  {
    if a == b then Ok((SetSelfWeight(h, a, weight), Key(a, a)))
    else if IsProjectingTo(h, a, b) then Err(ReferenceError("Their is already a connection!"))
    else
      var h1 := Link(h, a, b, weight);
      if !twoSided then Ok((h1, Key(a, b)))
      else if IsProjectingTo(h1, b, a) then Err(ReferenceError("Their is already a connection!"))
      else
        var h2 := Link(h1, b, a, 1.0);
        assert Key(a, b) in Outgoing(h2, a) && Key(a, b) in Incoming(h2, b);
        Ok((h2, Key(a, b)))
  }

  /**
   * `Node.disconnect(other, twoSided = false)`. From itself: the self weight
   * becomes 0 and the self connection is returned. From another node: an
   * `Error` when there is no edge, otherwise the edge leaves both endpoint
   * sets and loses its gate, and with `twoSided` the reverse edge goes too.
   */
  function NodeDisconnect(h: Heap, a: NodeId, b: NodeId, twoSided: bool): (r: Result<(Heap, Conn)>)
    requires Valid(h) && a in h.nodes && b in h.nodes
    ensures r.Ok? ==> Valid(r.value.0) && r.value.0.nodes == h.nodes && r.value.0.next == h.next
    ensures r.Err? ==> r.error == PlainError("No Connection found")
    ensures a == b ==> r.Ok? && r.value.0.conns.Keys == h.conns.Keys
    ensures a == b ==> SelfWeight(r.value.0, a) == 0.0 && r.value.1 == r.value.0.conns[Key(a, a)]
    ensures a == b ==> forall k :: k in h.conns && k != Key(a, a) ==> r.value.0.conns[k] == h.conns[k]
    ensures a != b ==> (r.Err? <==> Key(a, b) !in h.conns || (twoSided && Key(b, a) !in h.conns))
    ensures a != b && r.Ok? ==> r.value.0.conns == if twoSided then h.conns - {Key(a, b), Key(b, a)} else h.conns - {Key(a, b)}
    ensures a != b && r.Ok? ==> r.value.1.weight == h.conns[Key(a, b)].weight && r.value.1.gate == None
  {
    if a == b then
      var h1 := SetSelfWeight(h, a, 0.0);
      Ok((h1, h1.conns[Key(a, a)]))
    else EdgeDisconnect(h, a, b, twoSided)
  }

  /** `Node.disconnect` between two distinct nodes. */
  function EdgeDisconnect(h: Heap, a: NodeId, b: NodeId, twoSided: bool): (r: Result<(Heap, Conn)>)
    requires Valid(h) && a in h.nodes && b in h.nodes && a != b
    ensures r.Ok? ==> Valid(r.value.0) && r.value.0.nodes == h.nodes && r.value.0.next == h.next
    ensures r.Err? ==> r.error == PlainError("No Connection found")
    ensures r.Err? <==> Key(a, b) !in h.conns || (twoSided && Key(b, a) !in h.conns)
    ensures r.Ok? ==> r.value.0.conns == if twoSided then h.conns - {Key(a, b), Key(b, a)} else h.conns - {Key(a, b)}
    ensures r.Ok? ==> r.value.1.weight == h.conns[Key(a, b)].weight && r.value.1.gate == None
  {
    match DropEdge(h, a, b)
    case Err(e) => Err(e)
    case Ok((h1, c)) =>
      if !twoSided then Ok((h1, c))
      else
        match DropEdge(h1, b, a)
        case Err(e) => Err(e)
        case Ok((h2, _)) =>
          RemoveTwice(h.conns, Key(a, b), Key(b, a));
          Ok((h2, c))
  }

  /** Removing two keys one after the other removes both. */
  lemma RemoveTwice(m: map<Key, Conn>, k1: Key, k2: Key)
    ensures m - {k1} - {k2} == m - {k1, k2}
  {
  }

  /** One direction of `Node.disconnect`: the edge `a -> b` removed, or an `Error` when there is none. */
  function DropEdge(h: Heap, a: NodeId, b: NodeId): (r: Result<(Heap, Conn)>)
    requires Valid(h) && a in h.nodes && b in h.nodes && a != b
    ensures r.Ok? ==> Valid(r.value.0) && r.value.0.nodes == h.nodes && r.value.0.next == h.next
    ensures r.Err? <==> Key(a, b) !in h.conns
    ensures r.Err? ==> r.error == PlainError("No Connection found")
    ensures r.Ok? ==> r.value.0.conns == h.conns - {Key(a, b)}
    ensures r.Ok? ==> r.value.1.weight == h.conns[Key(a, b)].weight && r.value.1.gate == None
  {
    if !IsProjectingTo(h, a, b) then Err(PlainError("No Connection found"))
    else Ok(Unlink(h, Key(a, b)))
  }

  /**
   * `Node.addGate`: `g` gates `k`. The connection must not be gated by
   * another node, whose `gated` set would otherwise keep it.
   */
  function NodeAddGate(h: Heap, g: NodeId, k: Key): (r: Heap)
    requires Valid(h) && g in h.nodes && k in h.conns && h.conns[k].gate in {None, Some(g)}
    ensures Valid(r) && r.nodes == h.nodes && r.next == h.next
    ensures r.conns == h.conns[k := h.conns[k].(gate := Some(g))]
    ensures GatedBy(r.conns, g) == GatedBy(h.conns, g) + {k}
    ensures forall g': NodeId :: g' != g ==> GatedBy(r.conns, g') == GatedBy(h.conns, g')
  {
    Rewrite(h, k, h.conns[k].(gate := Some(g)))
  }

  /**
   * `Node.removeGate`: `k` leaves `g.gated`, loses its gate and gets gain 1.
   * The connection must not be gated by another node.
   */
  function NodeRemoveGate(h: Heap, g: NodeId, k: Key): (r: Heap)
    requires Valid(h) && g in h.nodes && k in h.conns && h.conns[k].gate in {None, Some(g)}
    ensures Valid(r) && r.nodes == h.nodes && r.next == h.next
    ensures r.conns == h.conns[k := h.conns[k].(gate := None, gain := 1.0)]
    ensures GatedBy(r.conns, g) == GatedBy(h.conns, g) - {k}
    ensures forall g': NodeId :: g' != g ==> GatedBy(r.conns, g') == GatedBy(h.conns, g')
  {
    Rewrite(h, k, h.conns[k].(gate := None, gain := 1.0))
  }

  /** `Node.clear` on the graph: every connection the node gates gets gain 0. */
  function NodeClear(h: Heap, n: NodeId): (r: Heap)
    requires Valid(h) && n in h.nodes
    ensures Valid(r) && r.nodes == h.nodes && r.next == h.next && r.conns.Keys == h.conns.Keys
    ensures forall k :: k in h.conns ==> r.conns[k].weight == h.conns[k].weight && r.conns[k].gate == h.conns[k].gate
    ensures forall k :: k in h.conns ==> r.conns[k].gain == if h.conns[k].gate == Some(n) then 0.0 else h.conns[k].gain
  {
    h.(conns := ZeroGains(h.conns, GatedBy(h.conns, n)))
  }

  /** The records with the gain of every connection in `gated` set to 0. */
  function ZeroGains(conns: map<Key, Conn>, gated: set<Key>): (r: map<Key, Conn>)
    ensures r.Keys == conns.Keys
    ensures forall k :: k in conns ==> r[k].weight == conns[k].weight && r[k].gate == conns[k].gate
    ensures forall k :: k in conns ==> r[k].gain == if k in gated then 0.0 else conns[k].gain
  {
    map k | k in conns :: if k in gated then conns[k].(gain := 0.0) else conns[k]
  }

  /** The default range of `mutateBias`, that of a new `ModBiasMutation`. */
  const DefaultBiasRange: (real, real) := (-1.0, 1.0)

  /** `Node.mutateBias(range)`: the bias moves by `randDouble(min, max)`. */
  function MutateBias(h: Heap, n: NodeId, range: Option<(real, real)>, draw: real): (r: Heap)
    requires Valid(h) && n in h.nodes && IsDraw(draw)
    ensures Valid(r) && r.conns == h.conns && r.nodes.Keys == h.nodes.Keys
    ensures forall m :: m in h.nodes && m != n ==> r.nodes[m] == h.nodes[m]
    ensures r.nodes[n] == h.nodes[n].(bias := r.nodes[n].bias)
    ensures var (lo, hi) := range.GetOr(DefaultBiasRange);
            lo <= hi ==> h.nodes[n].bias + lo <= r.nodes[n].bias <= h.nodes[n].bias + hi
  {
    var (lo, hi) := range.GetOr(DefaultBiasRange);
    SetLabels(h, n, h.nodes[n].bias + ArrayUtils.RandDouble(lo, hi, draw), h.nodes[n].squash)
  }

  /**
   * `Node.mutateActivation(allowed = every activation)`: a random allowed
   * squash other than the current one, and no change when there is none.
   */
  function MutateActivation(h: Heap, n: NodeId, allowed: Option<seq<Squash>>, catalog: seq<Squash>, draw: real): (r: Heap)
    requires Valid(h) && n in h.nodes && IsDraw(draw)
    ensures Valid(r) && r.conns == h.conns && r.nodes.Keys == h.nodes.Keys
    ensures forall m :: m in h.nodes && m != n ==> r.nodes[m] == h.nodes[m]
    ensures r.nodes[n] == h.nodes[n].(squash := r.nodes[n].squash)
    ensures r.nodes[n].squash == h.nodes[n].squash <==> forall s :: s in allowed.GetOr(catalog) ==> s == h.nodes[n].squash
    ensures r.nodes[n].squash in allowed.GetOr(catalog) || r.nodes[n].squash == h.nodes[n].squash
  {
    SetLabels(h, n, h.nodes[n].bias, OtherSquash(allowed.GetOr(catalog), h.nodes[n].squash, draw))
  }

  /** The squash `mutateActivation` settles on: a random allowed one other than `current`, else `current`. */
  function OtherSquash(allowed: seq<Squash>, current: Squash, draw: real): (s: Squash)
    requires IsDraw(draw)
    ensures s == current <==> forall t :: t in allowed ==> t == current
    ensures s in allowed || s == current
  {
    var candidates := JsArray.Filter(allowed, t => t != current);
    CandidatesOtherThan(allowed, current);
    match ArrayUtils.PickRandom(candidates, draw)
    case Err(_) => current
    case Ok(t) =>
      assert t in multiset(candidates);
      t
  }

  /** The squashes other than `current` that `mutateActivation` may choose from. */
  lemma CandidatesOtherThan(allowed: seq<Squash>, current: Squash)
    ensures var candidates := JsArray.Filter(allowed, t => t != current);
      (|candidates| == 0 <==> forall t :: t in allowed ==> t == current) &&
      forall t :: t in candidates ==> t in allowed && t != current
  {
    var keep := t => t != current;
    var candidates := JsArray.Filter(allowed, keep);
    JsArray.FilterKeepsPassing(allowed, keep);
    forall t | t in candidates
      ensures t in allowed && t != current
    {
      assert t in multiset(candidates);
      var i :| 0 <= i < |candidates| && candidates[i] == t;
      assert keep(candidates[i]);
    }
    if |candidates| == 0 {
      forall t | t in allowed
        ensures t == current
      {
        var i :| 0 <= i < |allowed| && allowed[i] == t;
      }
    }
  }

  /** Node `n` with a new bias and squash; nothing else changes. */
  function SetLabels(h: Heap, n: NodeId, bias: real, squash: Squash): (r: Heap)
    requires Valid(h) && n in h.nodes
    ensures Valid(r) && r.conns == h.conns && r.nodes.Keys == h.nodes.Keys
    ensures forall m :: m in h.nodes && m != n ==> r.nodes[m] == h.nodes[m]
    ensures r.nodes[n] == h.nodes[n].(bias := bias, squash := squash)
  {
    h.(nodes := h.nodes[n := h.nodes[n].(bias := bias, squash := squash)])
  }

  /** Disconnecting a freshly connected pair gives back the heap and the new connection record. */
  lemma ConnectDisconnect(h: Heap, a: NodeId, b: NodeId, weight: real)
    requires Valid(h) && a in h.nodes && b in h.nodes && a != b && Key(a, b) !in h.conns
    ensures NodeConnect(h, a, b, weight, false).Ok?
    ensures var h1 := NodeConnect(h, a, b, weight, false).value.0;
      IsProjectingTo(h1, a, b) && NodeDisconnect(h1, a, b, false) == Ok((h, Conn(weight, 1.0, None)))
  {
    var h1 := Link(h, a, b, weight);
    assert NodeConnect(h, a, b, weight, false) == Ok((h1, Key(a, b)));
    assert DropEdge(h1, a, b) == Ok(Unlink(h1, Key(a, b)));
    AddThenRemove(h.conns, Key(a, b), Conn(weight, 1.0, None));
  }

  /** Adding a fresh key and removing it again gives back the map. */
  lemma AddThenRemove(m: map<Key, Conn>, k: Key, c: Conn)
    requires k !in m
    ensures m[k := c] - {k} == m
  {
  }
}
