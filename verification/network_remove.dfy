/**
 * `Network.removeNode(node, keepGates)`. The node loses its self connection
 * and every edge it shares with another node; each former predecessor is
 * then joined to each former successor it does not already project to, by
 * a connection of weight 0; with `keepGates` the gates of the removed edges
 * (other than the node itself) are handed out in order to randomly picked
 * new connections. Last, `t.gated.forEach(this.removeGate)` runs with
 * `this` unbound: it throws a `TypeError` as soon as the node still gates a
 * connection, and only otherwise does the node leave the list.
 *
 * The node's incoming and outgoing edges are visited in registry order,
 * which is their insertion order into the node's own sets, since every edge
 * of a network is made and registered by `Network.connect`.
 */
module NodeRemoval {
  import opened Results
  import opened Graph
  import opened Networks
  import OrderedSet
  import ArrayUtils
  import JsArray

  /** The edges a node shares with another node. */
  function Touching(conns: set<Key>, t: NodeId): set<Key> {
    set k | k in conns && k.from != k.to && (k.from == t || k.to == t)
  }

  /** A sequence whose elements occur at most as often as in a distinct one is distinct. */
  lemma DistinctBelow<T>(r: seq<T>, s: seq<T>)
    requires OrderedSet.Distinct(s) && multiset(r) <= multiset(s)
    ensures OrderedSet.Distinct(r)
  {
    forall i | 0 <= i < |r|
      ensures multiset(r)[r[i]] == 1
    {
      assert r[i] in multiset(r);
      var j :| 0 <= j < |s| && s[j] == r[i];
    }
  }

  /**
   * `Network.disconnect` of each edge of `edges` in turn: all of them leave
   * the graph, the registry and `gates`, and nothing else does.
   */
  function DisconnectAll(n: Network, edges: seq<Key>): (r: Network)
    requires NetValid(n) && OrderedSet.Distinct(edges)
    requires OrderedSet.Elements(edges) <= OrderedSet.Elements(n.connections)
    requires forall k :: k in edges ==> k.from != k.to
    ensures NetValid(r) && SameShape(n, r)
    ensures r.heap.conns == n.heap.conns - OrderedSet.Elements(edges)
    ensures OrderedSet.Elements(r.connections) == OrderedSet.Elements(n.connections) - OrderedSet.Elements(edges)
    ensures OrderedSet.Elements(r.gates) == OrderedSet.Elements(n.gates) - OrderedSet.Elements(edges)
    decreases |edges|
  {
    if |edges| == 0 then
      assert OrderedSet.Elements(edges) == {};
      n
    else
      var e := edges[0];
      assert e in OrderedSet.Elements(edges);
      var n1 := DisconnectOne(n, e);
      OrderedSet.DistinctTail(edges);
      assert forall k :: k in edges[1..] ==> k in OrderedSet.Elements(edges);
      var r := DisconnectAll(n1, edges[1..]);
      RemoveInTurn(n.heap.conns, e, OrderedSet.Elements(edges[1..]));
      SetRemoveInTurn(OrderedSet.Elements(n.connections), e, OrderedSet.Elements(edges[1..]));
      SetRemoveInTurn(OrderedSet.Elements(n.gates), e, OrderedSet.Elements(edges[1..]));
      r
  }

  /** `Network.disconnect` of one registered edge between distinct nodes. */
  function DisconnectOne(n: Network, e: Key): (r: Network)
    requires NetValid(n) && e in n.connections && e.from != e.to
    ensures NetValid(r) && SameShape(n, r)
    ensures r.heap.conns == n.heap.conns - {e}
    ensures OrderedSet.Elements(r.connections) == OrderedSet.Elements(n.connections) - {e}
    ensures OrderedSet.Elements(r.gates) == OrderedSet.Elements(n.gates) - {e}
  {
    assert e in OrderedSet.Elements(n.connections);
    var r := DropEdgeOf(n, e).0;
    DeletedOrAbsent(n.gates, r.gates, e);
    r
  }

  /** Deleting `e`, or leaving alone a set without it, removes `e` from the elements. */
  lemma DeletedOrAbsent(s: seq<Key>, r: seq<Key>, e: Key)
    requires OrderedSet.Distinct(s)
    requires r == if e in s then OrderedSet.Delete(s, e) else s
    ensures OrderedSet.Elements(r) == OrderedSet.Elements(s) - {e}
  {
  }

  /** Removing one element and then a set removes their union. */
  lemma SetRemoveInTurn(s: set<Key>, e: Key, rest: set<Key>)
    ensures s - {e} - rest == s - ({e} + rest)
  {
  }

  /** Removing one key and then a set of keys removes their union. */
  lemma RemoveInTurn(m: map<Key, Conn>, e: Key, rest: set<Key>)
    ensures m - {e} - rest == m - ({e} + rest)
  {
  }
  /**
   * `r` is `n` with new ungated connections of weight 0, each from one of
   * `froms` to one of `tos`, registered as `created`; nothing else changes.
   */
  ghost predicate Joined(n: Network, r: Network, created: seq<Key>, froms: set<NodeId>, tos: set<NodeId>) {
    NetValid(r) && SameShape(n, r) && r.gates == n.gates &&
    (forall k :: k in n.heap.conns ==> k in r.heap.conns && r.heap.conns[k] == n.heap.conns[k]) &&
    (forall k :: k in r.heap.conns && k !in n.heap.conns ==> k.from in froms && k.to in tos && r.heap.conns[k] == Conn(0.0, 1.0, None)) &&
    (forall k :: k in created ==> k in r.heap.conns && k.from in froms && k.to in tos) &&
    OrderedSet.Elements(r.connections) == OrderedSet.Elements(n.connections) + OrderedSet.Elements(created)
  }

  /** Two rounds of joining make one. */
  lemma JoinedTrans(n: Network, m: Network, r: Network, c1: seq<Key>, c2: seq<Key>, froms: set<NodeId>, tos: set<NodeId>)
    requires Joined(n, m, c1, froms, tos) && Joined(m, r, c2, froms, tos)
    ensures Joined(n, r, c1 + c2, froms, tos)
  {
    assert OrderedSet.Elements(c1 + c2) == OrderedSet.Elements(c1) + OrderedSet.Elements(c2);
  }

  /** Joining from fewer nodes is joining from more. */
  lemma JoinedWider(n: Network, r: Network, c: seq<Key>, froms: set<NodeId>, froms': set<NodeId>, tos: set<NodeId>)
    requires Joined(n, r, c, froms, tos) && froms <= froms'
    ensures Joined(n, r, c, froms', tos)
  {
  }

  /** `from.isProjectingTo(to) || created.push(network.connect(from, to))` for one pair. */
  function ConnectPair(n: Network, p: NodeId, s: NodeId): (r: (Network, seq<Key>))
    requires NetValid(n) && p in n.nodes && s in n.nodes
    ensures Joined(n, r.0, r.1, {p}, {s})
    ensures p != s ==> Key(p, s) in r.0.heap.conns
    ensures p != s ==> (r.1 == [Key(p, s)] <==> Key(p, s) !in n.heap.conns)
    ensures r.1 == [] || r.1 == [Key(p, s)]
    ensures r.1 == [] <==> IsProjectingTo(n.heap, p, s)
  {
    if IsProjectingTo(n.heap, p, s) then
      assert Joined(n, n, [], {p}, {s});
      (n, [])
    else
      var n1 := NewPair(n, p, s);
      (n1, [Key(p, s)])
  }

  /** `network.connect(from, to)` for a pair that is not projecting yet. */
  function NewPair(n: Network, p: NodeId, s: NodeId): (r: Network)
    requires NetValid(n) && p in n.nodes && s in n.nodes && !IsProjectingTo(n.heap, p, s)
    ensures Joined(n, r, [Key(p, s)], {p}, {s})
  {
    var (r, k) := Connect(n, p, s, 0.0).value;
    assert p == s ==> r.heap.conns == n.heap.conns;
    assert OrderedSet.Elements([k]) == {k};
    r
  }

  /** Connects `p` to each of `succs` it does not project to yet; returns the new connections. */
  function ConnectEach(n: Network, p: NodeId, succs: seq<NodeId>): (r: (Network, seq<Key>))
    requires NetValid(n) && p in n.nodes && forall s :: s in succs ==> s in n.nodes
    ensures Joined(n, r.0, r.1, {p}, OrderedSet.Elements(succs))
    ensures forall s :: s in succs && s != p ==> Key(p, s) in r.0.heap.conns
    decreases |succs|
  {
    if |succs| == 0 then
      assert Joined(n, n, [], {p}, OrderedSet.Elements(succs));
      (n, [])
    else
      var tos := OrderedSet.Elements(succs);
      var (n1, c1) := ConnectPair(n, p, succs[0]);
      var (n2, c2) := ConnectEach(n1, p, succs[1..]);
      JoinedWiderTo(n, n1, c1, {p}, {succs[0]}, tos);
      JoinedWiderTo(n1, n2, c2, {p}, OrderedSet.Elements(succs[1..]), tos);
      JoinedTrans(n, n1, n2, c1, c2, {p}, tos);
      (n2, c1 + c2)
  }

  /** Joining to fewer nodes is joining to more. */
  lemma JoinedWiderTo(n: Network, r: Network, c: seq<Key>, froms: set<NodeId>, tos: set<NodeId>, tos': set<NodeId>)
    requires Joined(n, r, c, froms, tos) && tos <= tos'
    ensures Joined(n, r, c, froms, tos')
  {
  }
  /** Joins each of `preds` to each of `succs` it does not project to yet; returns the new connections. */
  function Bypass(n: Network, preds: seq<NodeId>, succs: seq<NodeId>): (r: (Network, seq<Key>))
    requires NetValid(n) && (forall p :: p in preds ==> p in n.nodes) && (forall s :: s in succs ==> s in n.nodes)
    ensures Joined(n, r.0, r.1, OrderedSet.Elements(preds), OrderedSet.Elements(succs))
    ensures forall p, s :: p in preds && s in succs && p != s ==> Key(p, s) in r.0.heap.conns
    decreases |preds|
  {
    if |preds| == 0 then
      assert Joined(n, n, [], OrderedSet.Elements(preds), OrderedSet.Elements(succs));
      (n, [])
    else
      var (n1, c1) := ConnectEach(n, preds[0], succs);
      var (n2, c2) := Bypass(n1, preds[1..], succs);
      BypassSteps(n, n1, n2, c1, c2, preds, OrderedSet.Elements(succs));
      (n2, c1 + c2)
  }

  /** The first predecessor's round followed by the others' is a round for all of them. */
  lemma BypassSteps(n: Network, n1: Network, n2: Network, c1: seq<Key>, c2: seq<Key>, preds: seq<NodeId>, tos: set<NodeId>)
    requires |preds| > 0 && Joined(n, n1, c1, {preds[0]}, tos) && Joined(n1, n2, c2, OrderedSet.Elements(preds[1..]), tos)
    ensures Joined(n, n2, c1 + c2, OrderedSet.Elements(preds), tos)
  {
    var froms := OrderedSet.Elements(preds);
    assert forall p :: p in preds[1..] ==> p in preds;
    JoinedWider(n, n1, c1, {preds[0]}, froms, tos);
    JoinedWider(n1, n2, c2, OrderedSet.Elements(preds[1..]), froms, tos);
    JoinedTrans(n, n1, n2, c1, c2, froms, tos);
  }

  /**
   * `r` is `n` where some connections of `created` that had no gate have
   * been given one of `gaters`; nothing else changes.
   */
  ghost predicate Regated(n: Network, r: Network, gaters: set<NodeId>, created: set<Key>) {
    NetValid(r) && SameShape(n, r) && r.connections == n.connections && r.heap.conns.Keys == n.heap.conns.Keys &&
    (forall k :: k in n.heap.conns ==> KeptOrGated(n.heap.conns[k], r.heap.conns[k], k in created, gaters)) &&
    OrderedSet.Elements(n.gates) <= OrderedSet.Elements(r.gates) <= OrderedSet.Elements(n.gates) + created
  }

  /** A record is unchanged, or, when `mayGate`, it had no gate and now has one of `gaters`. */
  predicate KeptOrGated(before: Conn, after: Conn, mayGate: bool, gaters: set<NodeId>) {
    after == before || (mayGate && before.gate.None? && after.gate.Some? && after.gate.value in gaters && after == before.(gate := after.gate))
  }

  /** Two rounds of regating make one. */
  lemma RegatedTrans(n: Network, m: Network, r: Network, gaters: set<NodeId>, created: set<Key>)
    requires Regated(n, m, gaters, created) && Regated(m, r, gaters, created)
    ensures Regated(n, r, gaters, created)
  {
  }

  /**
   * The loop that hands out the kept gates: while both lists are non-empty,
   * the next gate node gates a randomly picked new connection, which then
   * leaves the list; `addGate` ignores a connection that already has a gate.
   */
  function Rehome(n: Network, gaters: seq<NodeId>, created: seq<Key>, draws: seq<real>): (r: Network)
    requires NetValid(n) && (forall a :: a in gaters ==> a in n.nodes) && (forall k :: k in created ==> k in n.heap.conns)
    requires |draws| >= |gaters| && forall i :: 0 <= i < |draws| ==> IsDraw(draws[i])
    ensures Regated(n, r, OrderedSet.Elements(gaters), OrderedSet.Elements(created))
    ensures |gaters| == 0 || |created| == 0 ==> r == n
    decreases |gaters|
  {
    if |gaters| == 0 || |created| == 0 then n
    else
      var (n1, rest) := GateOne(n, gaters, created, draws);
      var r := Rehome(n1, gaters[1..], rest, draws[1..]);
      RehomeSteps(n, n1, r, gaters, created, rest);
      r
  }

  /**
   * One round of the loop: the next gate node gates a randomly picked new
   * connection, which leaves the list; the result is the network after the
   * round and what is left of the list.
   */
  function GateOne(n: Network, gaters: seq<NodeId>, created: seq<Key>, draws: seq<real>): (r: (Network, seq<Key>))
    requires NetValid(n) && |gaters| > 0 && (forall a :: a in gaters ==> a in n.nodes)
    requires |created| > 0 && (forall k :: k in created ==> k in n.heap.conns)
    requires |draws| >= |gaters| && forall i :: 0 <= i < |draws| ==> IsDraw(draws[i])
    ensures Regated(n, r.0, OrderedSet.Elements(gaters), OrderedSet.Elements(created))
    ensures |r.1| < |created| && OrderedSet.Elements(r.1) <= OrderedSet.Elements(created)
    ensures (forall a :: a in gaters[1..] ==> a in r.0.nodes) && (forall k :: k in r.1 ==> k in r.0.heap.conns)
    ensures |draws[1..]| >= |gaters[1..]| && forall i :: 0 <= i < |draws[1..]| ==> IsDraw(draws[1..][i])
  {
    var u := ArrayUtils.PickRandom(created, draws[0]).value;
    var n1 := AddGate(n, gaters[0], u).value;
    var rest := ArrayUtils.RemoveFromArray(created, u).1;
    RegatedStep(n, n1, gaters, created, u);
    RemovedIsSubset(created, u);
    RoundArgs(n, n1, gaters, created, rest, draws);
    (n1, rest)
  }

  /** The arguments of the next round meet its precondition. */
  lemma RoundArgs(n: Network, n1: Network, gaters: seq<NodeId>, created: seq<Key>, rest: seq<Key>, draws: seq<real>)
    requires |gaters| > 0 && (forall a :: a in gaters ==> a in n.nodes) && (forall k :: k in created ==> k in n.heap.conns)
    requires |draws| >= |gaters| && forall i :: 0 <= i < |draws| ==> IsDraw(draws[i])
    requires n1.nodes == n.nodes && n1.heap.conns.Keys == n.heap.conns.Keys
    requires OrderedSet.Elements(rest) <= OrderedSet.Elements(created)
    ensures (forall a :: a in gaters[1..] ==> a in n1.nodes) && (forall k :: k in rest ==> k in n1.heap.conns)
    ensures |draws[1..]| >= |gaters[1..]| && forall i :: 0 <= i < |draws[1..]| ==> IsDraw(draws[1..][i])
  {
    forall k | k in rest ensures k in n1.heap.conns { assert k in OrderedSet.Elements(rest); }
    forall i | 0 <= i < |draws[1..]| ensures IsDraw(draws[1..][i]) { assert draws[1..][i] == draws[i + 1]; }
  }

  /** What `removeFromArray` leaves is part of what it was given. */
  lemma RemovedIsSubset(created: seq<Key>, u: Key)
    ensures OrderedSet.Elements(ArrayUtils.RemoveFromArray(created, u).1) <= OrderedSet.Elements(created)
  {
    var rest := ArrayUtils.RemoveFromArray(created, u).1;
    forall k | k in rest ensures k in created { assert k in multiset(rest); }
  }

  /** One round followed by the rest of the loop regates. */
  lemma RehomeSteps(n: Network, n1: Network, r: Network, gaters: seq<NodeId>, created: seq<Key>, rest: seq<Key>)
    requires |gaters| > 0
    requires Regated(n, n1, OrderedSet.Elements(gaters), OrderedSet.Elements(created))
    requires Regated(n1, r, OrderedSet.Elements(gaters[1..]), OrderedSet.Elements(rest))
    requires OrderedSet.Elements(rest) <= OrderedSet.Elements(created)
    ensures Regated(n, r, OrderedSet.Elements(gaters), OrderedSet.Elements(created))
  {
    assert forall a :: a in gaters[1..] ==> a in gaters;
    RegatedWider(n1, r, OrderedSet.Elements(gaters[1..]), OrderedSet.Elements(rest), OrderedSet.Elements(gaters), OrderedSet.Elements(created));
    RegatedTrans(n, n1, r, OrderedSet.Elements(gaters), OrderedSet.Elements(created));
  }

  /** One `addGate` of the loop regates. */
  lemma RegatedStep(n: Network, n1: Network, gaters: seq<NodeId>, created: seq<Key>, u: Key)
    requires NetValid(n) && |gaters| > 0 && gaters[0] in n.nodes && u in created && u in n.heap.conns
    requires AddGate(n, gaters[0], u) == Ok(n1)
    ensures Regated(n, n1, OrderedSet.Elements(gaters), OrderedSet.Elements(created))
  {
    if n.heap.conns[u].gate.None? {
      GateRegated(n, n1, gaters[0], u, OrderedSet.Elements(gaters), OrderedSet.Elements(created));
    }
  }

  /** Giving one connection of `created` a gate from `gaters` regates. */
  lemma GateRegated(n: Network, n1: Network, g: NodeId, u: Key, gaters: set<NodeId>, created: set<Key>)
    requires NetValid(n1) && SameShape(n, n1) && n1.connections == n.connections
    requires u in n.heap.conns && n.heap.conns[u].gate.None? && g in gaters && u in created
    requires n1.heap.conns == n.heap.conns[u := n.heap.conns[u].(gate := Some(g))]
    requires n1.gates == n.gates + [u]
    ensures Regated(n, n1, gaters, created)
  {
    assert OrderedSet.Elements(n1.gates) == OrderedSet.Elements(n.gates) + {u};
  }

  /** Regating from fewer gate nodes onto fewer connections is regating from more onto more. */
  lemma RegatedWider(n: Network, r: Network, gaters: set<NodeId>, created: set<Key>, gaters': set<NodeId>, created': set<Key>)
    requires Regated(n, r, gaters, created) && gaters <= gaters' && created <= created'
    ensures Regated(n, r, gaters', created')
  {
  }

  /** The test that picks the edges entering `t` from another node. */
  function EntersTest(t: NodeId): Key -> bool {
    (k: Key) => k.to == t && k.from != t
  }

  /** The test that picks the edges leaving `t` for another node. */
  function LeavesTest(t: NodeId): Key -> bool {
    (k: Key) => k.from == t && k.to != t
  }

  /** `t.incoming`: the edges entering `t` from another node, in registry order. */
  function InEdges(n: Network, t: NodeId): (r: seq<Key>)
    ensures forall k :: k in r ==> k.to == t && k.from != t
  {
    var r := JsArray.Filter(n.connections, EntersTest(t));
    assert forall i :: 0 <= i < |r| ==> EntersTest(t)(r[i]);
    r
  }

  /** `t.outgoing`: the edges leaving `t` for another node, in registry order. */
  function OutEdges(n: Network, t: NodeId): (r: seq<Key>)
    ensures forall k :: k in r ==> k.from == t && k.to != t
  {
    var r := JsArray.Filter(n.connections, LeavesTest(t));
    assert forall i :: 0 <= i < |r| ==> LeavesTest(t)(r[i]);
    r
  }

  /** Two distinct sequences with no element in common make a distinct sequence. */
  lemma DistinctConcat<T>(a: seq<T>, b: seq<T>)
    requires OrderedSet.Distinct(a) && OrderedSet.Distinct(b)
    requires forall x :: x in a ==> x !in b
    ensures OrderedSet.Distinct(a + b)
  {
    var s := a + b;
    assert multiset(s) == multiset(a) + multiset(b);
    forall i | 0 <= i < |s| ensures multiset(s)[s[i]] == 1 {
      if i < |a| {
        assert s[i] == a[i] && a[i] in a;
      } else {
        assert s[i] == b[i - |a|] && b[i - |a|] in b;
      }
    }
  }

  /** The incoming and outgoing edges of a node, together, list each edge it shares with another node once. */
  lemma EdgesOfNode(n: Network, t: NodeId)
    requires NetValid(n)
    ensures var edges := InEdges(n, t) + OutEdges(n, t);
      OrderedSet.Distinct(edges) && OrderedSet.Elements(edges) == Touching(n.heap.conns.Keys, t) &&
      |edges| <= |n.connections|
  {
    var ins := InEdges(n, t);
    var outs := OutEdges(n, t);
    DistinctBelow(ins, n.connections);
    DistinctBelow(outs, n.connections);
    DistinctConcat(ins, outs);
    EdgesRegistered(n, ins);
    EdgesRegistered(n, outs);
    EdgesCovered(n, t);
    EdgesCount(ins + outs, n.connections);
  }

  /** A selection of the registry holds registered connections only. */
  lemma EdgesRegistered(n: Network, edges: seq<Key>)
    requires multiset(edges) <= multiset(n.connections)
    ensures OrderedSet.Elements(edges) <= OrderedSet.Elements(n.connections)
  {
    forall k | k in edges ensures k in n.connections { assert k in multiset(edges); }
  }

  /** A distinct sequence of elements of a distinct sequence is no longer than it. */
  lemma EdgesCount(edges: seq<Key>, all: seq<Key>)
    requires OrderedSet.Distinct(edges) && OrderedSet.Distinct(all)
    requires OrderedSet.Elements(edges) <= OrderedSet.Elements(all)
    ensures |edges| <= |all|
  {
    OrderedSet.DistinctCardinality(edges);
    OrderedSet.DistinctCardinality(all);
    var e, a := OrderedSet.Elements(edges), OrderedSet.Elements(all);
    assert a == e + (a - e);
  }

  /** Every edge a node shares with another node is incoming or outgoing, and nothing else is. */
  lemma EdgesCovered(n: Network, t: NodeId)
    requires NetValid(n)
    requires OrderedSet.Elements(InEdges(n, t)) <= OrderedSet.Elements(n.connections)
    requires OrderedSet.Elements(OutEdges(n, t)) <= OrderedSet.Elements(n.connections)
    ensures OrderedSet.Elements(InEdges(n, t) + OutEdges(n, t)) == Touching(n.heap.conns.Keys, t)
  {
    var ins := InEdges(n, t);
    var outs := OutEdges(n, t);
    forall k | k in Touching(n.heap.conns.Keys, t) ensures k in ins + outs {
      assert k in n.connections;
      if k.to == t {
        JsArray.FilterKeeps(n.connections, EntersTest(t), k);
      } else {
        JsArray.FilterKeeps(n.connections, LeavesTest(t), k);
      }
    }
    forall k | k in ins + outs ensures k in Touching(n.heap.conns.Keys, t) {
      assert k in ins || k in outs;
      assert k in OrderedSet.Elements(n.connections);
    }
  }

  /**
   * The gate nodes of `edges`, in order, that `removeNode` keeps: with
   * `keepGates`, every gate other than `t` itself; otherwise none.
   */
  function Gaters(conns: map<Key, Conn>, edges: seq<Key>, keepGates: bool, t: NodeId): (g: seq<NodeId>)
    requires forall k :: k in edges ==> k in conns
    ensures |g| <= |edges|
    ensures forall a :: a in g ==> a != t && exists k :: k in edges && conns[k].gate == Some(a)
    ensures keepGates ==> forall k :: k in edges && conns[k].gate.Some? && conns[k].gate.value != t ==> conns[k].gate.value in g
    ensures !keepGates ==> g == []
  {
    if |edges| == 0 then []
    else
      var rest := Gaters(conns, edges[1..], keepGates, t);
      var gate := conns[edges[0]].gate;
      assert forall k :: k in edges[1..] ==> k in edges;
      if keepGates && gate.Some? && gate.value != t then [gate.value] + rest else rest
  }

  /** The far ends of `edges`: their sources when `sources`, else their targets. */
  function Ends(edges: seq<Key>, sources: bool): (e: seq<NodeId>)
    ensures |e| == |edges|
    ensures forall i :: 0 <= i < |edges| ==> e[i] == if sources then edges[i].from else edges[i].to
  {
    if |edges| == 0 then [] else [if sources then edges[0].from else edges[0].to] + Ends(edges[1..], sources)
  }

  /** Each edge contributes its far end. */
  lemma EndsHold(edges: seq<Key>, k: Key, sources: bool)
    requires k in edges
    ensures (if sources then k.from else k.to) in Ends(edges, sources)
  {
    var i :| 0 <= i < |edges| && edges[i] == k;
    assert Ends(edges, sources)[i] == if sources then k.from else k.to;
  }

  /** The gate nodes of the edges a node shares with others, other than the node itself. */
  function RemovedGates(n: Network, t: NodeId): set<NodeId> {
    set k | k in Touching(n.heap.conns.Keys, t) && n.heap.conns[k].gate.Some? && n.heap.conns[k].gate.value != t :: n.heap.conns[k].gate.value
  }

  /**
   * `m` is `n` on the way to losing `t`: `t` shares no edge with another
   * node, its self connection is unregistered with weight 0 and keeps its
   * gate only if it was unregistered before; every other old connection is
   * kept, and every new one joins a former predecessor of `t` to a former
   * successor with weight 0; any of them may have been given a gate from
   * `gs` where it had none.
   */
  ghost predicate Reduced(n: Network, t: NodeId, gs: set<NodeId>, m: Network) {
    NetValid(n) && t in n.nodes && NetValid(m) && SameShape(n, m) &&
    SelfAlone(n, t, m) && OldKept(n, t, gs, m) && NewBridged(n, t, gs, m)
  }

  /**
   * In `m`, `t` shares no edge with another node, and its self connection
   * is unregistered, has weight 0 and keeps its gate only if it was
   * unregistered in `n`.
   */
  ghost predicate SelfAlone(n: Network, t: NodeId, m: Network) {
    (forall k :: k in m.heap.conns && (k.from == t || k.to == t) ==> k == Key(t, t)) &&
    Key(t, t) in n.heap.conns && Key(t, t) in m.heap.conns && Key(t, t) !in m.connections &&
    m.heap.conns[Key(t, t)].weight == 0.0 &&
    m.heap.conns[Key(t, t)].gate == (if Key(t, t) in n.connections then None else n.heap.conns[Key(t, t)].gate)
  }

  /** Every connection of `n` away from `t` is in `m`, at most given a gate from `gs`. */
  ghost predicate OldKept(n: Network, t: NodeId, gs: set<NodeId>, m: Network) {
    forall k :: k in n.heap.conns && k.from != t && k.to != t ==> k in m.heap.conns && KeptOrGated(n.heap.conns[k], m.heap.conns[k], true, gs)
  }

  /** Every connection new in `m` bridges `t` with weight 0, at most given a gate from `gs`. */
  ghost predicate NewBridged(n: Network, t: NodeId, gs: set<NodeId>, m: Network) {
    forall k :: k in m.heap.conns && k !in n.heap.conns ==> Bridges(n, t, k) && KeptOrGated(Conn(0.0, 1.0, None), m.heap.conns[k], true, gs)
  }

  /** `k` joins a former predecessor of `t` to a former successor. */
  ghost predicate Bridges(n: Network, t: NodeId, k: Key) {
    k.from != t && k.to != t && Key(k.from, t) in n.heap.conns && Key(t, k.to) in n.heap.conns
  }

  /**
   * The first half of `removeNode`: `disconnect(t, t)`, then `disconnect`
   * of each of `edges`, the edges `t` shares with another node.
   */
  function Detach(n: Network, t: NodeId, edges: seq<Key>): (r: Network)
    requires NetValid(n) && t in n.nodes
    requires OrderedSet.Distinct(edges) && OrderedSet.Elements(edges) == Touching(n.heap.conns.Keys, t)
    ensures Reduced(n, t, {}, r)
  {
    var (n1, _) := DisconnectSelf(n, t);
    TouchingRegistered(n, n1, t, edges);
    var r := DisconnectAll(n1, edges);
    DetachReduced(n, t, edges, n1, r);
    r
  }

  /** What `Detach` leaves is on the way to losing `t`. */
  lemma DetachReduced(n: Network, t: NodeId, edges: seq<Key>, n1: Network, r: Network)
    requires NetValid(n) && t in n.nodes && OrderedSet.Elements(edges) == Touching(n.heap.conns.Keys, t)
    requires NetValid(n1) && SameShape(n, n1) && n1.connections == OrderedSet.Delete(n.connections, Key(t, t))
    requires n1.heap.conns.Keys == n.heap.conns.Keys && SelfWeight(n1.heap, t) == 0.0
    requires forall k :: k in n.heap.conns && k != Key(t, t) ==> n1.heap.conns[k] == n.heap.conns[k]
    requires n1.heap.conns[Key(t, t)].gate == if Key(t, t) in n.connections then None else n.heap.conns[Key(t, t)].gate
    requires NetValid(r) && SameShape(n1, r) && r.heap.conns == n1.heap.conns - OrderedSet.Elements(edges)
    requires OrderedSet.Elements(r.connections) == OrderedSet.Elements(n1.connections) - OrderedSet.Elements(edges)
    ensures Reduced(n, t, {}, r)
  {
    assert Key(t, t) !in OrderedSet.Elements(r.connections);
  }

  /** The edges a node shares with others are registered, and stay so once its self connection leaves. */
  lemma TouchingRegistered(n: Network, n1: Network, t: NodeId, edges: seq<Key>)
    requires NetValid(n) && OrderedSet.Elements(edges) == Touching(n.heap.conns.Keys, t)
    requires OrderedSet.Elements(n1.connections) == OrderedSet.Elements(n.connections) - {Key(t, t)}
    ensures OrderedSet.Elements(edges) <= OrderedSet.Elements(n1.connections)
    ensures forall k :: k in edges ==> k.from != k.to
  {
    assert forall k :: k in edges ==> k in OrderedSet.Elements(edges);
  }

  /** The sources of the incoming edges are exactly the other nodes projecting to `t`. */
  lemma PredsOf(n: Network, t: NodeId)
    requires NetValid(n)
    ensures forall p :: p in Ends(InEdges(n, t), true) ==> p != t && Key(p, t) in n.heap.conns && p in n.nodes
    ensures forall a :: Key(a, t) in n.heap.conns && a != t ==> a in Ends(InEdges(n, t), true)
  {
    var ins := InEdges(n, t);
    EdgesRegistered(n, ins);
    forall p | p in Ends(ins, true) ensures p != t && Key(p, t) in n.heap.conns && p in n.nodes {
      var i :| 0 <= i < |ins| && Ends(ins, true)[i] == p;
      assert ins[i] in OrderedSet.Elements(n.connections);
    }
    forall a | Key(a, t) in n.heap.conns && a != t ensures a in Ends(ins, true) {
      JsArray.FilterKeeps(n.connections, EntersTest(t), Key(a, t));
      EndsHold(ins, Key(a, t), true);
    }
  }

  /** The targets of the outgoing edges are exactly the other nodes `t` projects to. */
  lemma SuccsOf(n: Network, t: NodeId)
    requires NetValid(n)
    ensures forall s :: s in Ends(OutEdges(n, t), false) ==> s != t && Key(t, s) in n.heap.conns && s in n.nodes
    ensures forall b :: Key(t, b) in n.heap.conns && b != t ==> b in Ends(OutEdges(n, t), false)
  {
    var outs := OutEdges(n, t);
    EdgesRegistered(n, outs);
    forall s | s in Ends(outs, false) ensures s != t && Key(t, s) in n.heap.conns && s in n.nodes {
      var i :| 0 <= i < |outs| && Ends(outs, false)[i] == s;
      assert outs[i] in OrderedSet.Elements(n.connections);
    }
    forall b | Key(t, b) in n.heap.conns && b != t ensures b in Ends(outs, false) {
      JsArray.FilterKeeps(n.connections, LeavesTest(t), Key(t, b));
      EndsHold(outs, Key(t, b), false);
    }
  }

  /** Joining former predecessors of `t` to former successors keeps a network on the way to losing `t`. */
  lemma JoinedReduced(n: Network, t: NodeId, m: Network, m': Network, created: seq<Key>, froms: set<NodeId>, tos: set<NodeId>)
    requires Reduced(n, t, {}, m) && Joined(m, m', created, froms, tos)
    requires forall p :: p in froms ==> p != t && Key(p, t) in n.heap.conns
    requires forall s :: s in tos ==> s != t && Key(t, s) in n.heap.conns
    ensures Reduced(n, t, {}, m')
    ensures forall k :: k in created ==> k.from != t
  {
    JoinedSelf(n, t, m, m', created, froms, tos);
    JoinedOld(n, t, m, m', created, froms, tos);
    JoinedNew(n, t, m, m', created, froms, tos);
  }

  /** Joining keeps `t` alone. */
  lemma JoinedSelf(n: Network, t: NodeId, m: Network, m': Network, created: seq<Key>, froms: set<NodeId>, tos: set<NodeId>)
    requires SelfAlone(n, t, m) && Joined(m, m', created, froms, tos)
    requires forall p :: p in froms ==> p != t
    requires forall s :: s in tos ==> s != t
    ensures SelfAlone(n, t, m')
    ensures forall k :: k in created ==> k.from != t
  {
    assert Key(t, t) !in OrderedSet.Elements(m.connections);
    assert Key(t, t) !in OrderedSet.Elements(created);
    assert Key(t, t) !in OrderedSet.Elements(m'.connections);
  }

  /** Joining keeps the old connections. */
  lemma JoinedOld(n: Network, t: NodeId, m: Network, m': Network, created: seq<Key>, froms: set<NodeId>, tos: set<NodeId>)
    requires OldKept(n, t, {}, m) && Joined(m, m', created, froms, tos)
    ensures OldKept(n, t, {}, m')
  {
  }

  /** Joining adds bridges only. */
  lemma JoinedNew(n: Network, t: NodeId, m: Network, m': Network, created: seq<Key>, froms: set<NodeId>, tos: set<NodeId>)
    requires NewBridged(n, t, {}, m) && Joined(m, m', created, froms, tos)
    requires forall p :: p in froms ==> p != t && Key(p, t) in n.heap.conns
    requires forall s :: s in tos ==> s != t && Key(t, s) in n.heap.conns
    ensures NewBridged(n, t, {}, m')
  {
  }

  /** Handing out gates from `gs` keeps a network on the way to losing `t`. */
  lemma RegatedReduced(n: Network, t: NodeId, gs: set<NodeId>, m: Network, m': Network, gaters: set<NodeId>, created: set<Key>)
    requires Reduced(n, t, {}, m) && Regated(m, m', gaters, created) && gaters <= gs
    requires forall k :: k in created ==> k.from != t
    ensures Reduced(n, t, gs, m')
  {
    RegatedSelf(n, t, m, m', gaters, created);
    RegatedOld(n, t, gs, m, m', gaters, created);
    RegatedNew(n, t, gs, m, m', gaters, created);
  }

  /** Handing out gates keeps `t` alone. */
  lemma RegatedSelf(n: Network, t: NodeId, m: Network, m': Network, gaters: set<NodeId>, created: set<Key>)
    requires SelfAlone(n, t, m) && Regated(m, m', gaters, created)
    requires forall k :: k in created ==> k.from != t
    ensures SelfAlone(n, t, m')
  {
    assert Key(t, t) !in created;
  }

  /** Handing out gates keeps the old connections, some of them now gated. */
  lemma RegatedOld(n: Network, t: NodeId, gs: set<NodeId>, m: Network, m': Network, gaters: set<NodeId>, created: set<Key>)
    requires OldKept(n, t, {}, m) && Regated(m, m', gaters, created) && gaters <= gs
    ensures OldKept(n, t, gs, m')
  {
  }

  /** Handing out gates adds no connection. */
  lemma RegatedNew(n: Network, t: NodeId, gs: set<NodeId>, m: Network, m': Network, gaters: set<NodeId>, created: set<Key>)
    requires NewBridged(n, t, {}, m) && Regated(m, m', gaters, created) && gaters <= gs
    ensures NewBridged(n, t, gs, m')
  {
  }

  /**
   * The node still gates a connection that survives the disconnections: one
   * it shares with no other node and that is not its own registered self
   * connection.
   */
  ghost predicate StillGates(n: Network, t: NodeId) {
    exists k :: k in n.heap.conns && n.heap.conns[k].gate == Some(t) && k !in Touching(n.heap.conns.Keys, t) &&
      (k == Key(t, t) ==> k !in n.connections)
  }

  /** On the way to losing `t`, the node gates something exactly when it still gated something at the start. */
  lemma StillGatesIff(n: Network, t: NodeId, gs: set<NodeId>, m: Network)
    requires Reduced(n, t, gs, m) && t !in gs
    ensures GatedBy(m.heap.conns, t) != {} <==> StillGates(n, t)
  {
    if GatedBy(m.heap.conns, t) != {} {
      var k :| k in GatedBy(m.heap.conns, t);
      GatedStillGates(n, t, gs, m, k);
    }
    if StillGates(n, t) {
      var k :| k in n.heap.conns && n.heap.conns[k].gate == Some(t) && k !in Touching(n.heap.conns.Keys, t) &&
        (k == Key(t, t) ==> k !in n.connections);
      StillGatesGated(n, t, gs, m, k);
    }
  }

  /** A connection `t` gates on the way was gated by it at the start and survives. */
  lemma GatedStillGates(n: Network, t: NodeId, gs: set<NodeId>, m: Network, k: Key)
    requires Reduced(n, t, gs, m) && t !in gs && k in GatedBy(m.heap.conns, t)
    ensures StillGates(n, t)
  {
    assert k in n.heap.conns && n.heap.conns[k].gate == Some(t);
  }

  /** A connection `t` gated at the start that survives is still gated by it. */
  lemma StillGatesGated(n: Network, t: NodeId, gs: set<NodeId>, m: Network, k: Key)
    requires Reduced(n, t, gs, m)
    requires k in n.heap.conns && n.heap.conns[k].gate == Some(t) && k !in Touching(n.heap.conns.Keys, t)
    requires k == Key(t, t) ==> k !in n.connections
    ensures GatedBy(m.heap.conns, t) != {}
  {
    assert k in GatedBy(m.heap.conns, t);
  }

  /** Once the node gates nothing, dropping it from the list leaves a valid network. */
  lemma FinishValid(n: Network, t: NodeId, gs: set<NodeId>, m: Network)
    requires Reduced(n, t, gs, m) && GatedBy(m.heap.conns, t) == {}
    ensures NetValid(m.(nodes := OrderedSet.Delete(m.nodes, t)))
  {
    var r := m.(nodes := OrderedSet.Delete(m.nodes, t));
    assert OrderedSet.Elements(r.nodes) == OrderedSet.Elements(m.nodes) - {t};
    forall k | k in r.connections ensures k.from in r.nodes && k.to in r.nodes {
      assert k != Key(t, t);
      assert k.from in OrderedSet.Elements(m.nodes) && k.to in OrderedSet.Elements(m.nodes);
    }
    forall k | k in r.heap.conns && r.heap.conns[k].gate.Some? ensures r.heap.conns[k].gate.value in r.nodes {
      assert k !in GatedBy(m.heap.conns, t);
      assert r.heap.conns[k].gate.value in OrderedSet.Elements(m.nodes);
    }
    forall i | 0 <= i < |r.nodes| ensures r.nodes[i] in r.heap.nodes {
      assert r.nodes[i] in OrderedSet.Elements(m.nodes);
    }
  }

  /** Without gates to hand out, no connection gains a gate. */
  lemma NoNewGates(n: Network, t: NodeId, gs: set<NodeId>, m: Network)
    requires Reduced(n, t, gs, m)
    ensures gs == {} ==> OrderedSet.Elements(m.gates) <= OrderedSet.Elements(n.gates)
  {
    if gs == {} {
      forall k | k in GatedKeys(m.heap.conns) ensures k in GatedKeys(n.heap.conns) {
        assert k in n.heap.conns;
      }
    }
  }

  /**
   * `Network.removeNode(t, keepGates)`. The draws feed the `pickRandom`
   * calls that hand the kept gates to new connections; one per registered
   * connection is always enough.
   */
  function RemoveNode(n: Network, t: NodeId, keepGates: bool, draws: seq<real>): (r: Result<Network>)
    requires NetValid(n)
    requires |draws| >= |n.connections| && forall i :: 0 <= i < |draws| ==> IsDraw(draws[i])
    ensures t !in n.nodes ==> r == Err(ReferenceError("This node does not exist in the network!"))
    ensures t in n.nodes ==> (r.Err? <==> StillGates(n, t))
    ensures t in n.nodes && r.Err? ==> r.error == TypeError("Cannot read properties of undefined (reading 'gates')")
    ensures r.Ok? ==> NetValid(r.value) && r.value.nodes == OrderedSet.Delete(n.nodes, t)
    ensures r.Ok? ==> r.value.heap.nodes == n.heap.nodes && r.value.inputSize == n.inputSize && r.value.outputSize == n.outputSize
    ensures r.Ok? ==> forall k :: k in r.value.heap.conns && (k.from == t || k.to == t) ==> k == Key(t, t) && k !in r.value.connections
    ensures r.Ok? ==> forall k :: k in n.heap.conns && k.from != t && k.to != t ==>
                        k in r.value.heap.conns && KeptOrGated(n.heap.conns[k], r.value.heap.conns[k], keepGates, RemovedGates(n, t))
    ensures r.Ok? ==> forall k :: k in r.value.heap.conns && k !in n.heap.conns ==>
                        Bridges(n, t, k) && KeptOrGated(Conn(0.0, 1.0, None), r.value.heap.conns[k], keepGates, RemovedGates(n, t))
    ensures r.Ok? ==> forall a, b :: Key(a, t) in n.heap.conns && Key(t, b) in n.heap.conns && a != t && b != t && a != b ==>
                        Key(a, b) in r.value.heap.conns
    ensures r.Ok? && !keepGates ==> OrderedSet.Elements(r.value.gates) <= OrderedSet.Elements(n.gates)
  {
    if t !in n.nodes then Err(ReferenceError("This node does not exist in the network!"))
    else Conclude(n, t, keepGates, Reroute(n, t, keepGates, draws))
  }

  /**
   * The end of `removeNode`: `t.gated.forEach(this.removeGate)` throws as
   * soon as the node still gates something; otherwise the node leaves the
   * list.
   */
  function Conclude(n: Network, t: NodeId, keepGates: bool, m: Network): (r: Result<Network>)
    requires Reduced(n, t, if keepGates then RemovedGates(n, t) else {}, m)
    requires forall a, b :: Key(a, t) in n.heap.conns && Key(t, b) in n.heap.conns && a != t && b != t && a != b ==>
               Key(a, b) in m.heap.conns
    ensures r.Err? <==> StillGates(n, t)
    ensures r.Err? ==> r.error == TypeError("Cannot read properties of undefined (reading 'gates')")
    ensures r.Ok? ==> NetValid(r.value) && r.value.nodes == OrderedSet.Delete(n.nodes, t)
    ensures r.Ok? ==> r.value.heap.nodes == n.heap.nodes && r.value.inputSize == n.inputSize && r.value.outputSize == n.outputSize
    ensures r.Ok? ==> forall k :: k in r.value.heap.conns && (k.from == t || k.to == t) ==> k == Key(t, t) && k !in r.value.connections
    ensures r.Ok? ==> forall k :: k in n.heap.conns && k.from != t && k.to != t ==>
                        k in r.value.heap.conns && KeptOrGated(n.heap.conns[k], r.value.heap.conns[k], keepGates, RemovedGates(n, t))
    ensures r.Ok? ==> forall k :: k in r.value.heap.conns && k !in n.heap.conns ==>
                        Bridges(n, t, k) && KeptOrGated(Conn(0.0, 1.0, None), r.value.heap.conns[k], keepGates, RemovedGates(n, t))
    ensures r.Ok? ==> forall a, b :: Key(a, t) in n.heap.conns && Key(t, b) in n.heap.conns && a != t && b != t && a != b ==>
                        Key(a, b) in r.value.heap.conns
    ensures r.Ok? && !keepGates ==> OrderedSet.Elements(r.value.gates) <= OrderedSet.Elements(n.gates)
  {
    var gs := if keepGates then RemovedGates(n, t) else {};
    StillGatesIff(n, t, gs, m);
    if GatedBy(m.heap.conns, t) != {} then Err(TypeError("Cannot read properties of undefined (reading 'gates')"))
    else Ok(Drop(n, t, keepGates, m))
  }

  /** `removeFromArray(this.nodes, t)` once `t` gates nothing, with what the earlier steps guarantee. */
  function Drop(n: Network, t: NodeId, keepGates: bool, m: Network): (r: Network)
    requires Reduced(n, t, if keepGates then RemovedGates(n, t) else {}, m) && GatedBy(m.heap.conns, t) == {}
    ensures NetValid(r) && r.heap == m.heap && r.connections == m.connections
    ensures !keepGates ==> OrderedSet.Elements(r.gates) <= OrderedSet.Elements(n.gates)
    ensures r.nodes == OrderedSet.Delete(n.nodes, t)
    ensures r.heap.nodes == n.heap.nodes && r.inputSize == n.inputSize && r.outputSize == n.outputSize
    ensures forall k :: k in r.heap.conns && (k.from == t || k.to == t) ==> k == Key(t, t) && k !in r.connections
    ensures forall k :: k in n.heap.conns && k.from != t && k.to != t ==>
              k in r.heap.conns && KeptOrGated(n.heap.conns[k], r.heap.conns[k], keepGates, RemovedGates(n, t))
    ensures forall k :: k in r.heap.conns && k !in n.heap.conns ==>
              Bridges(n, t, k) && KeptOrGated(Conn(0.0, 1.0, None), r.heap.conns[k], keepGates, RemovedGates(n, t))
  {
    var gs := if keepGates then RemovedGates(n, t) else {};
    FinishValid(n, t, gs, m);
    NoNewGates(n, t, gs, m);
    m.(nodes := OrderedSet.Delete(m.nodes, t))
  }

  /**
   * `removeNode` up to the final `t.gated.forEach(this.removeGate)`: the
   * disconnections, the bypass connections and the handing out of kept
   * gates.
   */
  function Reroute(n: Network, t: NodeId, keepGates: bool, draws: seq<real>): (m: Network)
    requires NetValid(n) && t in n.nodes
    requires |draws| >= |n.connections| && forall i :: 0 <= i < |draws| ==> IsDraw(draws[i])
    ensures Reduced(n, t, if keepGates then RemovedGates(n, t) else {}, m)
    ensures forall a, b :: Key(a, t) in n.heap.conns && Key(t, b) in n.heap.conns && a != t && b != t && a != b ==>
              Key(a, b) in m.heap.conns
  {
    var edges := InEdges(n, t) + OutEdges(n, t);
    EdgesOfNode(n, t);
    var gaters := KeptGaters(n, t, keepGates, edges);
    var n2 := Detach(n, t, edges);
    var (n3, created) := Rejoin(n, t, n2);
    HandOut(n, t, if keepGates then RemovedGates(n, t) else {}, n3, gaters, created, draws)
  }

  /** The bypass step of `removeNode`: each former predecessor is joined to each former successor. */
  function Rejoin(n: Network, t: NodeId, m: Network): (r: (Network, seq<Key>))
    requires Reduced(n, t, {}, m)
    ensures Reduced(n, t, {}, r.0)
    ensures forall k :: k in r.1 ==> k in r.0.heap.conns && k.from != t
    ensures forall a, b :: Key(a, t) in n.heap.conns && Key(t, b) in n.heap.conns && a != t && b != t && a != b ==>
              Key(a, b) in r.0.heap.conns
  {
    PredsOf(n, t);
    SuccsOf(n, t);
    var preds, succs := Ends(InEdges(n, t), true), Ends(OutEdges(n, t), false);
    var (m', created) := Bypass(m, preds, succs);
    JoinedReduced(n, t, m, m', created, OrderedSet.Elements(preds), OrderedSet.Elements(succs));
    (m', created)
  }

  /** The last loop of `removeNode`: the kept gates go to new connections. */
  function HandOut(n: Network, t: NodeId, gs: set<NodeId>, m: Network, gaters: seq<NodeId>, created: seq<Key>, draws: seq<real>): (r: Network)
    requires Reduced(n, t, {}, m) && OrderedSet.Elements(gaters) <= gs && forall a :: a in gaters ==> a in m.nodes
    requires forall k :: k in created ==> k in m.heap.conns && k.from != t
    requires |draws| >= |gaters| && forall i :: 0 <= i < |draws| ==> IsDraw(draws[i])
    ensures Reduced(n, t, gs, r) && r.heap.conns.Keys == m.heap.conns.Keys
  {
    var r := Rehome(m, gaters, created, draws);
    RegatedReduced(n, t, gs, m, r, OrderedSet.Elements(gaters), OrderedSet.Elements(created));
    r
  }

  /** The gate nodes `removeNode` keeps, as `Gaters` lists them, are listed nodes gating a removed edge. */
  function KeptGaters(n: Network, t: NodeId, keepGates: bool, edges: seq<Key>): (g: seq<NodeId>)
    requires NetValid(n) && OrderedSet.Elements(edges) == Touching(n.heap.conns.Keys, t)
    ensures forall k :: k in edges ==> k in n.heap.conns
    ensures g == Gaters(n.heap.conns, edges, keepGates, t) && |g| <= |edges|
    ensures forall a :: a in g ==> a in n.nodes
    ensures OrderedSet.Elements(g) <= if keepGates then RemovedGates(n, t) else {}
  {
    assert forall k :: k in edges ==> k in OrderedSet.Elements(edges);
    var g := Gaters(n.heap.conns, edges, keepGates, t);
    forall a | a in g ensures a in n.nodes && (keepGates ==> a in RemovedGates(n, t)) {
      var k :| k in edges && n.heap.conns[k].gate == Some(a);
      assert k in Touching(n.heap.conns.Keys, t);
    }
    g
  }
}
