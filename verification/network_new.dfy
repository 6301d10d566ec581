/**
 * The `Network` constructor: `inputSize` input nodes, then `outputSize`
 * output nodes, each with a random bias in [-1, 1) and the logistic squash,
 * and one connection from every input node to every output node, made in
 * input-major order. The weights the constructor draws are passed in.
 */
module NetworkConstruct {
  import opened Results
  import opened Enums
  import opened Graph
  import opened Networks
  import opened Wiring
  import ArrayUtils
  import OrderedSet

  /** `new Node(kind)`: a bias drawn from [-1, 1) and the logistic squash. */
  function Fresh(kind: NodeType, draw: real): (v: Node)
    requires IsDraw(draw)
    ensures v.kind == kind && v.squash == Logistic && -1.0 <= v.bias < 1.0
  {
    Node(kind, ArrayUtils.RandDouble(-1.0, 1.0, draw), Logistic)
  }

  /** The constructor's node list: inputs, then outputs, one bias draw each. */
  function Scaffold(inputs: nat, outputs: nat, draws: seq<real>): (vs: seq<Node>)
    requires |draws| == inputs + outputs && forall i :: 0 <= i < |draws| ==> IsDraw(draws[i])
    ensures |vs| == inputs + outputs
    ensures forall i :: 0 <= i < |vs| ==> vs[i] == Fresh(if i < inputs then Input else Output, draws[i])
  {
    seq(inputs + outputs, i requires 0 <= i < inputs + outputs => Fresh(if i < inputs then Input else Output, draws[i]))
  }

  /** `(k / d, k % d)`, by repeated subtraction. */
  function Split(k: nat, d: nat): (p: (nat, nat))
    requires d > 0
    ensures p.1 < d
    decreases k
  {
    if k < d then (0, k) else var p := Split(k - d, d); (p.0 + 1, p.1)
  }

  /** The quotient and remainder recompose the number. */
  lemma {:induction false} SplitSum(k: nat, d: nat)
    requires d > 0
    ensures Split(k, d).0 * d + Split(k, d).1 == k
    decreases k
  {
    if k >= d {
      SplitSum(k - d, d);
      assert (Split(k - d, d).0 + 1) * d == Split(k - d, d).0 * d + d;
    }
  }

  /** Different numbers have different quotient-remainder pairs. */
  lemma SplitInjective(i: nat, j: nat, d: nat)
    requires d > 0 && i != j
    ensures Split(i, d) != Split(j, d)
  {
    SplitSum(i, d);
    SplitSum(j, d);
  }

  /** Quotient and remainder are unique. */
  lemma {:induction false} SplitUnique(q: nat, d: nat, r: nat)
    requires r < d
    ensures Split(q * d + r, d) == (q, r)
    decreases q
  {
    if q > 0 {
      assert q * d + r - d == (q - 1) * d + r;
      SplitUnique(q - 1, d, r);
    }
  }

  /** Below `n * d` the quotient is below `n`. */
  lemma {:induction false} SplitBelow(k: nat, d: nat, n: nat)
    requires d > 0 && k < n * d
    ensures Split(k, d).0 < n
    decreases n
  {
    if k >= d {
      assert n * d - d == (n - 1) * d;
      SplitBelow(k - d, d, n - 1);
    }
  }

  /** Multiplication by a natural number is monotone. */
  lemma MulLe(x: nat, y: nat, d: nat)
    requires x <= y
    ensures x * d <= y * d
  {
    assert y * d - x * d == (y - x) * d;
  }

  /** The `k`-th connection the constructor makes: from input `k / outputs` to output `k % outputs`. */
  function GridAt(inputs: nat, outputs: nat, weights: seq<real>, k: nat): (c: ConnJson)
    requires outputs > 0 && k < |weights|
    ensures c.gateNodeIndex.None? && c.weight == weights[k]
  {
    ConnJson(Split(k, outputs).0, inputs + Split(k, outputs).1, None, weights[k])
  }

  /** Every connection the constructor makes, in the order it makes them. */
  function Grid(inputs: nat, outputs: nat, weights: seq<real>): (cs: seq<ConnJson>)
    requires |weights| == inputs * outputs
    ensures |cs| == inputs * outputs
  {
    if outputs == 0 then []
    else seq(inputs * outputs, k requires 0 <= k < inputs * outputs => GridAt(inputs, outputs, weights, k))
  }

  /** The `k`-th grid connection goes from an input position to an output position. */
  lemma GridBounds(inputs: nat, outputs: nat, k: nat)
    requires outputs > 0 && k < inputs * outputs
    ensures Split(k, outputs).0 < inputs
  {
    SplitBelow(k, outputs, inputs);
  }

  /** The pair `(a, b)` of an input and an output position is made at step `a * outputs + (b - inputs)`. */
  lemma GridCovers(inputs: nat, outputs: nat, a: nat, b: nat)
    requires a < inputs && inputs <= b < inputs + outputs
    ensures a * outputs + (b - inputs) < inputs * outputs
    ensures Split(a * outputs + (b - inputs), outputs) == (a, b - inputs)
  {
    MulLe(a + 1, inputs, outputs);
    assert (a + 1) * outputs == a * outputs + outputs;
    SplitUnique(a, outputs, b - inputs);
  }

  /** The network the constructor starts wiring: the node list and only self connections. */
  function Bare(inputs: nat, outputs: nat, draws: seq<real>): (r: Network)
    requires |draws| == inputs + outputs && forall i :: 0 <= i < |draws| ==> IsDraw(draws[i])
    ensures NetValid(r) && r.inputSize == inputs && r.outputSize == outputs && r.score == None
    ensures |r.nodes| == inputs + outputs && forall i :: 0 <= i < inputs + outputs ==> r.nodes[i] == i
    ensures forall k :: k in r.heap.conns ==> k.from == k.to
    ensures r.connections == []
    ensures forall i :: 0 <= i < inputs + outputs ==> i in r.heap.nodes && Kinded(r.heap.nodes[i], if i < inputs then Input else Output)
  {
    var vs := Scaffold(inputs, outputs, draws);
    var r := Blank(vs, inputs, outputs);
    assert forall i :: 0 <= i < inputs + outputs ==> Kinded(vs[i], if i < inputs then Input else Output);
    assert forall i :: 0 <= i < inputs + outputs ==> r.heap.nodes[i] == vs[i];
    r
  }

  /** A node the constructor makes: of the given kind, logistic, with a bias in [-1, 1). */
  predicate Kinded(v: Node, kind: NodeType) {
    v.kind == kind && v.squash == Logistic && -1.0 <= v.bias <= 1.0
  }

  /** The grid can be wired into the bare network. */
  lemma GridWireable(inputs: nat, outputs: nat, draws: seq<real>, weights: seq<real>)
    requires |draws| == inputs + outputs && forall i :: 0 <= i < |draws| ==> IsDraw(draws[i])
    requires |weights| == inputs * outputs
    ensures Wireable(Bare(inputs, outputs, draws), Grid(inputs, outputs, weights))
  {
    var s := Bare(inputs, outputs, draws);
    var cs := Grid(inputs, outputs, weights);
    GridShape(inputs, outputs, weights);
    forall i | 0 <= i < |cs| && InRange(cs[i], |s.nodes|) && Between(cs[i])
      ensures KeyAt(s.nodes, cs[i]) !in s.heap.conns
    {
      assert s.nodes[cs[i].fromIndex] == cs[i].fromIndex && s.nodes[cs[i].toIndex] == cs[i].toIndex;
    }
  }

  /** Every grid record goes from an input position to an output position, and no two join the same pair. */
  lemma GridShape(inputs: nat, outputs: nat, weights: seq<real>)
    requires |weights| == inputs * outputs
    ensures forall i :: 0 <= i < |Grid(inputs, outputs, weights)| ==>
              InRange(Grid(inputs, outputs, weights)[i], inputs + outputs) &&
              Grid(inputs, outputs, weights)[i].fromIndex < inputs <= Grid(inputs, outputs, weights)[i].toIndex
    ensures forall i, j :: 0 <= i < j < |Grid(inputs, outputs, weights)| ==>
              (Grid(inputs, outputs, weights)[i].fromIndex, Grid(inputs, outputs, weights)[i].toIndex) !=
              (Grid(inputs, outputs, weights)[j].fromIndex, Grid(inputs, outputs, weights)[j].toIndex)
  {
    var cs := Grid(inputs, outputs, weights);
    if outputs > 0 {
      forall i | 0 <= i < |cs| ensures InRange(cs[i], inputs + outputs) && cs[i].fromIndex < inputs <= cs[i].toIndex {
        GridBounds(inputs, outputs, i);
      }
      forall i, j | 0 <= i < j < |cs| ensures (cs[i].fromIndex, cs[i].toIndex) != (cs[j].fromIndex, cs[j].toIndex) {
        assert cs[i] == GridAt(inputs, outputs, weights, i) && cs[j] == GridAt(inputs, outputs, weights, j);
        SplitInjective(i, j, outputs);
      }
    }
  }

  /**
   * `new Network(inputSize, outputSize)`: never throws; holds the input
   * nodes then the output nodes, with the logistic squash and biases in
   * [-1, 1), and no score.
   */
  function New(inputs: nat, outputs: nat, draws: seq<real>, weights: seq<real>): (r: Network)
    requires |draws| == inputs + outputs && forall i :: 0 <= i < |draws| ==> IsDraw(draws[i])
    requires |weights| == inputs * outputs
    ensures NetValid(r) && r.inputSize == inputs && r.outputSize == outputs && r.score == None
    ensures |r.nodes| == inputs + outputs && forall i :: 0 <= i < inputs + outputs ==> r.nodes[i] == i
    ensures forall i :: 0 <= i < inputs + outputs ==> i in r.heap.nodes && Kinded(r.heap.nodes[i], if i < inputs then Input else Output)
  {
    var s := Bare(inputs, outputs, draws);
    var cs := Grid(inputs, outputs, weights);
    GridWireable(inputs, outputs, draws, weights);
    WireOk(s, cs);
    var r := Wire(s, cs).value;
    assert Frame(r) == Frame(s);
    r
  }

  /** Step `k` of the constructor's double loop connects input `k / outputs` to output `k % outputs` with weight `weights[k]` and no gate. */
  ghost predicate GridHeld(r: Network, inputs: nat, outputs: nat, weights: seq<real>)
    requires outputs > 0
  {
    forall k :: 0 <= k < |weights| ==>
      Key(Split(k, outputs).0, inputs + Split(k, outputs).1) in r.heap.conns &&
      r.heap.conns[Key(Split(k, outputs).0, inputs + Split(k, outputs).1)].weight == weights[k] &&
      r.heap.conns[Key(Split(k, outputs).0, inputs + Split(k, outputs).1)].gate == None
  }

  /** The `k`-th weight drawn is the weight of the connection from input `k / outputs` to output `k % outputs`. */
  lemma NewWeights(inputs: nat, outputs: nat, draws: seq<real>, weights: seq<real>)
    requires |draws| == inputs + outputs && forall i :: 0 <= i < |draws| ==> IsDraw(draws[i])
    requires |weights| == inputs * outputs && outputs > 0
    ensures GridHeld(New(inputs, outputs, draws, weights), inputs, outputs, weights)
  {
    NewPlaced(inputs, outputs, draws, weights);
    GridEdges(New(inputs, outputs, draws, weights), inputs, outputs, weights);
  }

  /** The constructed network is the grid wired into the bare network, every grid record placed. */
  lemma NewPlaced(inputs: nat, outputs: nat, draws: seq<real>, weights: seq<real>)
    requires |draws| == inputs + outputs && forall i :: 0 <= i < |draws| ==> IsDraw(draws[i])
    requires |weights| == inputs * outputs
    ensures forall c :: c in Grid(inputs, outputs, weights) && Between(c) ==> Placed(New(inputs, outputs, draws, weights), c)
  {
    var s := Bare(inputs, outputs, draws);
    var cs := Grid(inputs, outputs, weights);
    GridWireable(inputs, outputs, draws, weights);
    WirePlaced(s, cs);
    assert New(inputs, outputs, draws, weights) == Wire(s, cs).value;
  }

  /** A network where every grid record is placed over the identity node list holds every grid connection. */
  lemma GridEdges(r: Network, inputs: nat, outputs: nat, weights: seq<real>)
    requires outputs > 0 && |weights| == inputs * outputs
    requires |r.nodes| == inputs + outputs && forall i :: 0 <= i < inputs + outputs ==> r.nodes[i] == i
    requires forall c :: c in Grid(inputs, outputs, weights) && Between(c) ==> Placed(r, c)
    ensures GridHeld(r, inputs, outputs, weights)
  {
    forall k | 0 <= k < |weights|
      ensures Key(Split(k, outputs).0, inputs + Split(k, outputs).1) in r.heap.conns
      ensures r.heap.conns[Key(Split(k, outputs).0, inputs + Split(k, outputs).1)].weight == weights[k]
      ensures r.heap.conns[Key(Split(k, outputs).0, inputs + Split(k, outputs).1)].gate == None
    {
      GridEdge(r, inputs, outputs, weights, k);
    }
  }

  /** A network where every grid record is placed over the identity node list holds the `k`-th grid connection. */
  lemma GridEdge(r: Network, inputs: nat, outputs: nat, weights: seq<real>, k: nat)
    requires outputs > 0 && |weights| == inputs * outputs && k < |weights|
    requires |r.nodes| == inputs + outputs && forall i :: 0 <= i < inputs + outputs ==> r.nodes[i] == i
    requires forall c :: c in Grid(inputs, outputs, weights) && Between(c) ==> Placed(r, c)
    ensures Key(Split(k, outputs).0, inputs + Split(k, outputs).1) in r.heap.conns
    ensures r.heap.conns[Key(Split(k, outputs).0, inputs + Split(k, outputs).1)].weight == weights[k]
    ensures r.heap.conns[Key(Split(k, outputs).0, inputs + Split(k, outputs).1)].gate == None
  {
    GridBounds(inputs, outputs, k);
    var c := GridAt(inputs, outputs, weights, k);
    assert Grid(inputs, outputs, weights)[k] == c;
    assert Placed(r, c);
    assert KeyAt(r.nodes, c) == Key(Split(k, outputs).0, inputs + Split(k, outputs).1);
  }

  /** Every input node is connected to every output node. */
  lemma NewComplete(inputs: nat, outputs: nat, draws: seq<real>, weights: seq<real>)
    requires |draws| == inputs + outputs && forall i :: 0 <= i < |draws| ==> IsDraw(draws[i])
    requires |weights| == inputs * outputs
    ensures forall a, b :: 0 <= a < inputs <= b < inputs + outputs ==> Key(a, b) in New(inputs, outputs, draws, weights).heap.conns
  {
    if outputs > 0 {
      NewWeights(inputs, outputs, draws, weights);
      CellEdges(New(inputs, outputs, draws, weights), inputs, outputs, weights);
    }
  }

  /** A network holding every grid connection connects every input to every output. */
  lemma CellEdges(r: Network, inputs: nat, outputs: nat, weights: seq<real>)
    requires outputs > 0 && |weights| == inputs * outputs && GridHeld(r, inputs, outputs, weights)
    ensures forall a, b :: 0 <= a < inputs <= b < inputs + outputs ==> Key(a, b) in r.heap.conns
  {
    forall a, b | 0 <= a < inputs <= b < inputs + outputs ensures Key(a, b) in r.heap.conns {
      CellEdge(r, inputs, outputs, weights, a, b);
    }
  }

  /** A network holding every grid connection holds the one from input `a` to output `b`. */
  lemma CellEdge(r: Network, inputs: nat, outputs: nat, weights: seq<real>, a: nat, b: nat)
    requires outputs > 0 && |weights| == inputs * outputs && a < inputs <= b < inputs + outputs
    requires GridHeld(r, inputs, outputs, weights)
    ensures Key(a, b) in r.heap.conns
  {
    GridCovers(inputs, outputs, a, b);
    var k := a * outputs + (b - inputs);
    assert Split(k, outputs) == (a, b - inputs);
  }

  /** The constructor registers exactly `inputSize * outputSize` connections, in input-major order. */
  lemma NewRegistry(inputs: nat, outputs: nat, draws: seq<real>, weights: seq<real>)
    requires |draws| == inputs + outputs && forall i :: 0 <= i < |draws| ==> IsDraw(draws[i])
    requires |weights| == inputs * outputs
    ensures |New(inputs, outputs, draws, weights).connections| == inputs * outputs
    ensures outputs > 0 ==> forall k :: 0 <= k < |weights| ==>
              New(inputs, outputs, draws, weights).connections[k] == Key(Split(k, outputs).0, inputs + Split(k, outputs).1)
  {
    NewConnections(inputs, outputs, draws, weights);
    GridOrder(New(inputs, outputs, draws, weights).connections, Bare(inputs, outputs, draws).nodes, inputs, outputs, weights);
  }

  /** Every connection the constructor registers goes from an input node to an output node. */
  lemma NewRegistryEdges(inputs: nat, outputs: nat, draws: seq<real>, weights: seq<real>)
    requires |draws| == inputs + outputs && forall i :: 0 <= i < |draws| ==> IsDraw(draws[i])
    requires |weights| == inputs * outputs
    ensures forall k :: k in New(inputs, outputs, draws, weights).connections ==> k.from < inputs <= k.to < inputs + outputs
  {
    NewConnections(inputs, outputs, draws, weights);
    GridOrder(New(inputs, outputs, draws, weights).connections, Bare(inputs, outputs, draws).nodes, inputs, outputs, weights);
  }

  /** The keys the grid names over the identity node list: one per step, in step order, each from an input to an output. */
  lemma GridOrder(ks: seq<Key>, nodes: seq<NodeId>, inputs: nat, outputs: nat, weights: seq<real>)
    requires |weights| == inputs * outputs
    requires |nodes| == inputs + outputs && forall i :: 0 <= i < |nodes| ==> nodes[i] == i
    requires forall k :: 0 <= k < |weights| ==> InRange(Grid(inputs, outputs, weights)[k], |nodes|)
    requires ks == Named(nodes, Grid(inputs, outputs, weights))
    ensures |ks| == inputs * outputs
    ensures outputs > 0 ==> forall k :: 0 <= k < |weights| ==> ks[k] == Key(Split(k, outputs).0, inputs + Split(k, outputs).1)
    ensures forall k :: k in ks ==> k.from < inputs <= k.to < inputs + outputs
  {
    GridRegistry(nodes, inputs, outputs, weights);
    if outputs > 0 { GridNamed(nodes, inputs, outputs, weights); }
  }

  /** The constructor's registry is the grid's connections over the bare network's node list, in step order. */
  lemma NewConnections(inputs: nat, outputs: nat, draws: seq<real>, weights: seq<real>)
    requires |draws| == inputs + outputs && forall i :: 0 <= i < |draws| ==> IsDraw(draws[i])
    requires |weights| == inputs * outputs
    ensures forall k :: 0 <= k < |weights| ==> InRange(Grid(inputs, outputs, weights)[k], |Bare(inputs, outputs, draws).nodes|)
    ensures New(inputs, outputs, draws, weights).connections == Named(Bare(inputs, outputs, draws).nodes, Grid(inputs, outputs, weights))
  {
    var s := Bare(inputs, outputs, draws);
    var cs := Grid(inputs, outputs, weights);
    GridWireable(inputs, outputs, draws, weights);
    WireRegistry(s, cs);
    GridRegistry(s.nodes, inputs, outputs, weights);
    assert New(inputs, outputs, draws, weights) == Wire(s, cs).value;
  }

  /** Over the identity node list, registering the grid's connections into an empty registry lists them in step order. */
  lemma GridRegistry(nodes: seq<NodeId>, inputs: nat, outputs: nat, weights: seq<real>)
    requires |weights| == inputs * outputs
    requires |nodes| == inputs + outputs && forall i :: 0 <= i < |nodes| ==> nodes[i] == i
    ensures forall k :: 0 <= k < |weights| ==> InRange(Grid(inputs, outputs, weights)[k], |nodes|)
    ensures AddAll([], Named(nodes, Grid(inputs, outputs, weights))) == Named(nodes, Grid(inputs, outputs, weights))
    ensures forall k :: k in Named(nodes, Grid(inputs, outputs, weights)) ==> k.from < inputs <= k.to < inputs + outputs
  {
    if outputs > 0 {
      GridNamed(nodes, inputs, outputs, weights);
      var named := Named(nodes, Grid(inputs, outputs, weights));
      GridDistinct(nodes, inputs, outputs, weights);
      forall i | 0 <= i < |named| ensures named[i].from < inputs <= named[i].to < inputs + outputs {
        GridBounds(inputs, outputs, i);
      }
      AddAllFresh([], named);
    }
  }

  /** Over the identity node list, the grid names every connection once. */
  lemma GridDistinct(nodes: seq<NodeId>, inputs: nat, outputs: nat, weights: seq<real>)
    requires outputs > 0 && |weights| == inputs * outputs
    requires |nodes| == inputs + outputs && forall i :: 0 <= i < |nodes| ==> nodes[i] == i
    ensures forall k :: 0 <= k < |weights| ==> InRange(Grid(inputs, outputs, weights)[k], |nodes|)
    ensures forall i, j :: 0 <= i < j < |weights| ==>
              Named(nodes, Grid(inputs, outputs, weights))[i] != Named(nodes, Grid(inputs, outputs, weights))[j]
  {
    GridNamed(nodes, inputs, outputs, weights);
    var named := Named(nodes, Grid(inputs, outputs, weights));
    forall i, j | 0 <= i < j < |named| ensures named[i] != named[j] {
      SplitInjective(i, j, outputs);
    }
  }

  /** Over the identity node list, the `k`-th grid record names the connection from input `k / outputs` to output `k % outputs`. */
  lemma GridNamed(nodes: seq<NodeId>, inputs: nat, outputs: nat, weights: seq<real>)
    requires outputs > 0 && |weights| == inputs * outputs
    requires |nodes| == inputs + outputs && forall i :: 0 <= i < |nodes| ==> nodes[i] == i
    ensures forall k :: 0 <= k < |weights| ==> InRange(Grid(inputs, outputs, weights)[k], |nodes|)
    ensures forall k :: 0 <= k < |weights| ==>
              Named(nodes, Grid(inputs, outputs, weights))[k] == Key(Split(k, outputs).0, inputs + Split(k, outputs).1)
  {
    var cs := Grid(inputs, outputs, weights);
    forall k | 0 <= k < |weights| ensures InRange(cs[k], |nodes|) {
      GridBounds(inputs, outputs, k);
    }
    forall k | 0 <= k < |weights| ensures Named(nodes, cs)[k] == Key(Split(k, outputs).0, inputs + Split(k, outputs).1) {
      GridBounds(inputs, outputs, k);
      assert cs[k] == GridAt(inputs, outputs, weights, k);
    }
  }
}
