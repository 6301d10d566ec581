/**
 * `Network.toJSON`, `Network.fromJSON`, `Network.prototype.copy` and the
 * `Network` constructor.
 *
 * `toJSON` numbers the nodes by their list position, writes one record per
 * node, then the self connection of every node whose self weight is not 0,
 * then every registered connection. `fromJSON` rebuilds the node list from
 * the node records and replays the connection records through `connect` and
 * `addGate`; `copy` is `fromJSON(toJSON())`.
 */
module NetworkJson {
  import opened Results
  import opened Enums
  import opened Graph
  import opened Networks
  import opened Wiring
  import ArrayUtils
  import OrderedSet

  /** The record `Node.toJSON` produces (its `mask` is learning state and is not modelled). */
  datatype NodeJson = NodeJson(bias: real, kind: NodeType, squash: Squash, index: nat)

  /** The record `Network.toJSON` produces. */
  datatype NetJson = NetJson(nodes: seq<NodeJson>, connections: seq<ConnJson>, inputSize: nat, outputSize: nat)

  /** The index `toJSON` gives a listed node: its position in the node list. */
  function Pos(n: Network, v: NodeId): (i: nat)
    requires v in n.nodes
    ensures i < |n.nodes| && n.nodes[i] == v
  {
    ArrayUtils.IndexOf(n.nodes, v).value
  }

  /** The node `Node.fromJSON` makes of a record. */
  function NodeOf(j: NodeJson): Node {
    Node(j.kind, j.bias, j.squash)
  }

  /** The nodes the records describe, in order. */
  function NodesOf(js: seq<NodeJson>): (vs: seq<Node>)
    ensures |vs| == |js| && forall i :: 0 <= i < |js| ==> vs[i] == NodeOf(js[i])
  {
    if |js| == 0 then [] else [NodeOf(js[0])] + NodesOf(js[1..])
  }

  /** A listed node is alive and owns its self connection. */
  lemma Listed(n: Network, v: NodeId)
    requires NetValid(n) && v in n.nodes
    ensures v in n.heap.nodes && Key(v, v) in n.heap.conns
  {
    var i :| 0 <= i < |n.nodes| && n.nodes[i] == v;
  }

  /** `Connection.toJSON` once the nodes are numbered by position: the record names the connection it was made from. */
  function EntryOf(n: Network, k: Key): (c: ConnJson)
    requires NetValid(n) && k in n.heap.conns && k.from in n.nodes && k.to in n.nodes
    ensures InRange(c, |n.nodes|) && KeyAt(n.nodes, c) == k && (Between(c) <==> k.from != k.to)
    ensures c.weight == n.heap.conns[k].weight && GateAt(n.nodes, c) == n.heap.conns[k].gate
  {
    var c := n.heap.conns[k];
    ConnJson(Pos(n, k.from), Pos(n, k.to), if c.gate.Some? then Some(Pos(n, c.gate.value)) else None, c.weight)
  }

  /** `Node.toJSON` of the node at position `i`. */
  function NodeEntry(n: Network, i: nat): (j: NodeJson)
    requires NetValid(n) && i < |n.nodes|
    ensures j.index == i && NodeOf(j) == n.heap.nodes[n.nodes[i]]
  {
    var v := n.heap.nodes[n.nodes[i]];
    NodeJson(v.bias, v.kind, v.squash, i)
  }

  /** The records of the self connections of `vs` whose weight is not 0, in list order. */
  function SelfEntries(n: Network, vs: seq<NodeId>): (r: seq<ConnJson>)
    requires NetValid(n) && forall v :: v in vs ==> v in n.nodes
    ensures forall c :: c in r ==> !Between(c) && InRange(c, |n.nodes|)
  {
    if |vs| == 0 then []
    else
      var v := vs[0];
      Listed(n, v);
      var rest := SelfEntries(n, vs[1..]);
      if SelfWeight(n.heap, v) != 0.0 then [EntryOf(n, Key(v, v))] + rest else rest
  }

  /** The records of the registered connections `ks`, in registry order. */
  function Entries(n: Network, ks: seq<Key>): (r: seq<ConnJson>)
    requires NetValid(n) && forall k :: k in ks ==> k in n.connections
    ensures |r| == |ks| && forall i :: 0 <= i < |ks| ==> ks[i] in n.connections && r[i] == EntryOf(n, ks[i])
  {
    if |ks| == 0 then [] else [EntryOf(n, ks[0])] + Entries(n, ks[1..])
  }

  /** The connection records `toJSON` writes: the nonzero self connections in node order, then the registry. */
  function Records(n: Network): seq<ConnJson>
    requires NetValid(n)
  {
    SelfEntries(n, n.nodes) + Entries(n, n.connections)
  }

  /** `Network.toJSON`. */
  function ToJSON(n: Network): (j: NetJson)
    requires NetValid(n)
    ensures |j.nodes| == |n.nodes| && j.inputSize == n.inputSize && j.outputSize == n.outputSize
    ensures forall i :: 0 <= i < |n.nodes| ==> j.nodes[i].index == i && NodeOf(j.nodes[i]) == n.heap.nodes[n.nodes[i]]
    ensures j.connections == Records(n)
  {
    NetJson(seq(|n.nodes|, i requires 0 <= i < |n.nodes| => NodeEntry(n, i)), Records(n), n.inputSize, n.outputSize)
  }

  /** The node records are numbered 0, 1, ... in order, as `toJSON` numbers them. */
  predicate Numbered(j: NetJson) {
    forall i :: 0 <= i < |j.nodes| ==> j.nodes[i].index == i
  }

  /** The network `fromJSON` starts from: the described nodes, each with only its self connection. */
  function Skeleton(j: NetJson): (r: Network)
    ensures NetValid(r)
  {
    Blank(NodesOf(j.nodes), j.inputSize, j.outputSize)
  }

  /**
   * `Network.fromJSON`: the nodes are placed at their indices and the
   * connection records replayed in order; the first record that cannot be
   * replayed raises its exception.
   */
  function FromJSON(j: NetJson): (r: Result<Network>)
    requires Numbered(j)
    ensures r.Ok? ==> NetValid(r.value) && r.value.inputSize == j.inputSize && r.value.outputSize == j.outputSize
    ensures r.Ok? ==> |r.value.nodes| == |j.nodes| && r.value.score == None
    ensures r.Ok? ==> forall i :: 0 <= i < |j.nodes| ==> r.value.nodes[i] == i && r.value.heap.nodes[i] == NodeOf(j.nodes[i])
  {
    Wire(Skeleton(j), j.connections)
  }

  /** `Network.prototype.copy`. */
  function Copy(n: Network): (r: Result<Network>)
    requires NetValid(n)
    ensures r.Ok? ==> NetValid(r.value)
  {
    FromJSON(ToJSON(n))
  }

  /** `fromJSON` succeeds exactly when the connection records are wireable into the skeleton. */
  lemma FromJSONOk(j: NetJson)
    requires Numbered(j)
    ensures FromJSON(j).Ok? <==> Wireable(Skeleton(j), j.connections)
  {
    WireOk(Skeleton(j), j.connections);
  }

  /** Every registered connection has its record among those `toJSON` writes. */
  lemma RecordsCover(n: Network)
    requires NetValid(n)
    ensures forall k :: k in n.connections ==> EntryOf(n, k) in Records(n)
  {
    var regs := Entries(n, n.connections);
    forall k | k in n.connections ensures EntryOf(n, k) in Records(n) {
      var i :| 0 <= i < |n.connections| && n.connections[i] == k;
      assert regs[i] == EntryOf(n, k);
      assert regs[i] in Records(n);
    }
  }

  /** Every record `toJSON` writes is in range, and one between two positions is the record of a registered connection. */
  lemma RecordsFrom(n: Network)
    requires NetValid(n)
    ensures forall c :: c in Records(n) ==> InRange(c, |n.nodes|)
    ensures forall c :: c in Records(n) && Between(c) ==> KeyAt(n.nodes, c) in n.connections && c == EntryOf(n, KeyAt(n.nodes, c))
  {
    var regs := Entries(n, n.connections);
    forall c | c in regs
      ensures InRange(c, |n.nodes|) && KeyAt(n.nodes, c) in n.connections && c == EntryOf(n, KeyAt(n.nodes, c))
    {
      var i :| 0 <= i < |regs| && regs[i] == c;
    }
  }

  /** No two of the records join the same pair of positions. */
  predicate PairsDiffer(cs: seq<ConnJson>) {
    forall i, j :: 0 <= i < j < |cs| ==> (cs[i].fromIndex, cs[i].toIndex) != (cs[j].fromIndex, cs[j].toIndex)
  }

  /** The records of distinct registered connections join different pairs of positions. */
  lemma EntriesPairs(n: Network, ks: seq<Key>)
    requires NetValid(n) && OrderedSet.Distinct(ks) && forall k :: k in ks ==> k in n.connections
    ensures PairsDiffer(Entries(n, ks))
  {
    var r := Entries(n, ks);
    forall i, j | 0 <= i < j < |r| ensures (r[i].fromIndex, r[i].toIndex) != (r[j].fromIndex, r[j].toIndex) {
      OrderedSet.DistinctPositions(ks, i, j);
      assert KeyAt(n.nodes, r[i]) == ks[i] && KeyAt(n.nodes, r[j]) == ks[j];
    }
  }

  /** Records that join no two different positions, then records joining pairwise different pairs, never repeat a pair. */
  lemma PairsAfterSelfs(selfs: seq<ConnJson>, regs: seq<ConnJson>)
    requires forall c :: c in selfs ==> !Between(c)
    requires PairsDiffer(regs)
    ensures var cs := selfs + regs;
      forall i, j :: 0 <= i < j < |cs| && Between(cs[i]) ==> (cs[i].fromIndex, cs[i].toIndex) != (cs[j].fromIndex, cs[j].toIndex)
  {
    var cs := selfs + regs;
    forall i | 0 <= i < |selfs| ensures !Between(cs[i]) {
      assert cs[i] == selfs[i] && selfs[i] in selfs;
    }
    forall i, j | |selfs| <= i < j < |cs|
      ensures (cs[i].fromIndex, cs[i].toIndex) != (cs[j].fromIndex, cs[j].toIndex)
    {
      assert cs[i] == regs[i - |selfs|] && cs[j] == regs[j - |selfs|];
    }
  }

  /** Records in range that never repeat a pair can be wired into a network whose ids are its positions and which has no edges. */
  lemma WireableIntoBare(s: Network, cs: seq<ConnJson>)
    requires forall i :: 0 <= i < |s.nodes| ==> s.nodes[i] == i
    requires forall k :: k in s.heap.conns ==> k.from == k.to
    requires forall c :: c in cs ==> InRange(c, |s.nodes|)
    requires forall i, j :: 0 <= i < j < |cs| && Between(cs[i]) ==> (cs[i].fromIndex, cs[i].toIndex) != (cs[j].fromIndex, cs[j].toIndex)
    ensures Wireable(s, cs)
  {
    forall i | 0 <= i < |cs| ensures InRange(cs[i], |s.nodes|) {
      assert cs[i] in cs;
    }
    forall i | 0 <= i < |cs| && InRange(cs[i], |s.nodes|) && Between(cs[i])
      ensures KeyAt(s.nodes, cs[i]) !in s.heap.conns
    {
      assert s.nodes[cs[i].fromIndex] == cs[i].fromIndex && s.nodes[cs[i].toIndex] == cs[i].toIndex;
    }
  }

  /** What `toJSON` writes can always be read back. */
  lemma ToJSONWireable(n: Network)
    requires NetValid(n)
    ensures Numbered(ToJSON(n)) && Wireable(Skeleton(ToJSON(n)), ToJSON(n).connections)
  {
    var j := ToJSON(n);
    var s := Skeleton(j);
    var cs := j.connections;
    assert |s.nodes| == |n.nodes|;
    assert forall c :: c in cs ==> InRange(c, |s.nodes|) by { RecordsFrom(n); }
    assert forall i, k :: 0 <= i < k < |cs| && Between(cs[i]) ==> (cs[i].fromIndex, cs[i].toIndex) != (cs[k].fromIndex, cs[k].toIndex) by {
      var selfs := SelfEntries(n, n.nodes);
      var regs := Entries(n, n.connections);
      EntriesPairs(n, n.connections);
      PairsAfterSelfs(selfs, regs);
    }
    WireableIntoBare(s, cs);
  }

  /**
   * `copy()` never throws, and the copy has the same sizes, the same node
   * count and, position by position, the same node kinds, biases and
   * squashes; its nodes are numbered by position and its score is unset.
   */
  lemma CopyNodes(n: Network)
    requires NetValid(n)
    ensures Copy(n).Ok?
    ensures Copy(n).value.inputSize == n.inputSize && Copy(n).value.outputSize == n.outputSize
    ensures |Copy(n).value.nodes| == |n.nodes| && Copy(n).value.score == None
    ensures forall i :: 0 <= i < |n.nodes| ==> Copy(n).value.nodes[i] == i && Copy(n).value.heap.nodes[i] == n.heap.nodes[n.nodes[i]]
  {
    var j := ToJSON(n);
    ToJSONWireable(n);
    FromJSONOk(j);
    var r := FromJSON(j).value;
    assert Copy(n).value == r;
    forall i | 0 <= i < |n.nodes| ensures r.nodes[i] == i && r.heap.nodes[i] == n.heap.nodes[n.nodes[i]] {
      assert r.heap.nodes[i] == NodeOf(j.nodes[i]);
    }
  }

  /** The node a gate position names in a list of nodes; `None` for no gate. */
  function Relabel(nodes: seq<NodeId>, g: Option<NodeId>): Option<NodeId> {
    if g.Some? && g.value < |nodes| then Some(nodes[g.value]) else None
  }

  /** A placed record of an edge of `n` carries that edge's weight and gate into `r`. */
  lemma EdgeCarried(n: Network, r: Network, cs: seq<ConnJson>, a: nat, b: nat)
    requires NetValid(n) && a < |n.nodes| && b < |n.nodes| && a != b && Key(n.nodes[a], n.nodes[b]) in n.heap.conns
    requires |r.nodes| == |n.nodes| && forall i :: 0 <= i < |r.nodes| ==> r.nodes[i] == i
    requires forall k :: k in n.connections ==> EntryOf(n, k) in cs
    requires forall c :: c in cs && Between(c) ==> Placed(r, c)
    ensures Key(a, b) in r.heap.conns
    ensures r.heap.conns[Key(a, b)].weight == n.heap.conns[Key(n.nodes[a], n.nodes[b])].weight
    ensures Relabel(n.nodes, r.heap.conns[Key(a, b)].gate) == n.heap.conns[Key(n.nodes[a], n.nodes[b])].gate
  {
    var k := Key(n.nodes[a], n.nodes[b]);
    PositionsDiffer(n, a, b);
    var c := EntryOf(n, k);
    assert c in cs;
    if c.fromIndex != a { PositionsDiffer(n, c.fromIndex, a); }
    if c.toIndex != b { PositionsDiffer(n, c.toIndex, b); }
    assert Placed(r, c);
  }

  /**
   * Every edge of the original between two different nodes is in the copy,
   * between the same positions, with the same weight and a gate at the
   * same position.
   */
  lemma CopyEdges(n: Network)
    requires NetValid(n)
    ensures Copy(n).Ok?
    ensures forall a, b :: 0 <= a < |n.nodes| && 0 <= b < |n.nodes| && a != b && Key(n.nodes[a], n.nodes[b]) in n.heap.conns ==>
              Key(a, b) in Copy(n).value.heap.conns &&
              Copy(n).value.heap.conns[Key(a, b)].weight == n.heap.conns[Key(n.nodes[a], n.nodes[b])].weight &&
              Relabel(n.nodes, Copy(n).value.heap.conns[Key(a, b)].gate) == n.heap.conns[Key(n.nodes[a], n.nodes[b])].gate
  {
    var j := ToJSON(n);
    ToJSONWireable(n);
    RecordsCover(n);
    CopyNodes(n);
    WirePlaced(Skeleton(j), j.connections);
    var r := Copy(n).value;
    forall a, b | 0 <= a < |n.nodes| && 0 <= b < |n.nodes| && a != b && Key(n.nodes[a], n.nodes[b]) in n.heap.conns
      ensures Key(a, b) in r.heap.conns
      ensures r.heap.conns[Key(a, b)].weight == n.heap.conns[Key(n.nodes[a], n.nodes[b])].weight
      ensures Relabel(n.nodes, r.heap.conns[Key(a, b)].gate) == n.heap.conns[Key(n.nodes[a], n.nodes[b])].gate
    {
      EdgeCarried(n, r, j.connections, a, b);
    }
  }

  /** A key between two different positions that wiring added into a network without edges comes from a record joining them. */
  lemma NamedBetween(s: Network, cs: seq<ConnJson>, a: nat, b: nat)
    requires forall i :: 0 <= i < |s.nodes| ==> s.nodes[i] == i
    requires forall c :: c in cs ==> InRange(c, |s.nodes|)
    requires Key(a, b) in Named(s.nodes, cs)
    ensures exists c :: c in cs && c.fromIndex == a && c.toIndex == b
  {
    var named := Named(s.nodes, cs);
    var i :| 0 <= i < |named| && named[i] == Key(a, b);
    assert cs[i] in cs;
  }

  /** The copy has an edge between two different positions only where the original has one. */
  lemma CopyNoNewEdges(n: Network)
    requires NetValid(n)
    ensures Copy(n).Ok?
    ensures forall a, b :: 0 <= a < |n.nodes| && 0 <= b < |n.nodes| && a != b && Key(a, b) in Copy(n).value.heap.conns ==>
              Key(n.nodes[a], n.nodes[b]) in n.heap.conns
  {
    var j := ToJSON(n);
    var s := Skeleton(j);
    ToJSONWireable(n);
    RecordsFrom(n);
    WireKeys(s, j.connections);
    var r := Copy(n).value;
    forall a, b | 0 <= a < |n.nodes| && 0 <= b < |n.nodes| && a != b && Key(a, b) in r.heap.conns
      ensures Key(n.nodes[a], n.nodes[b]) in n.heap.conns
    {
      assert Key(a, b) !in s.heap.conns;
      NamedBetween(s, j.connections, a, b);
      var c :| c in j.connections && c.fromIndex == a && c.toIndex == b;
      assert KeyAt(n.nodes, c) == Key(n.nodes[a], n.nodes[b]);
    }
  }
}
