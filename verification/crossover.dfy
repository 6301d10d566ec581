/**
 * `Network.crossOver(network1, network2, equal)` (dist/dev/index.js, line
 * 663): the child's node count, its node list (inputs, then outputs, then
 * hidden nodes, each copying the bias and squash of a parent node), and its
 * connections, taken from the two parents' genes matched by innovation id.
 * Every random choice is passed in: one `randInt` draw for the node count,
 * one coin and one pick draw per child position, one coin per gene of the
 * first parent.
 */
module Crossover {
  import opened Results
  import opened Enums
  import opened Graph
  import opened Networks
  import opened Wiring
  import NetworkJson
  import Connection
  import ArrayUtils

  // ---------------------------------------------------------------------
  // Genes
  // ---------------------------------------------------------------------

  /** The innovation id of a connection record: the pairing of its endpoint positions. */
  function Id(c: ConnJson): nat {
    Connection.InnovationID(c.fromIndex, c.toIndex)
  }

  /** Records with equal ids join the same pair of positions. */
  lemma SameId(c: ConnJson, d: ConnJson)
    requires Id(c) == Id(d)
    ensures c.fromIndex == d.fromIndex && c.toIndex == d.toIndex
  {
    Connection.InnovationIDInjective(c.fromIndex, c.toIndex, d.fromIndex, d.toIndex);
  }

  /**
   * The gene table `x[innovationID(from.index, to.index)] = toJSON()`, filled
   * record by record, so a later record with the same id overwrites.
   */
  function Table(cs: seq<ConnJson>): (m: map<nat, ConnJson>)
    ensures forall id :: id in m ==> Id(m[id]) == id && m[id] in cs
    ensures forall c :: c in cs ==> Id(c) in m
  {
    if |cs| == 0 then map[]
    else
      var last := cs[|cs| - 1];
      var m := Table(cs[..|cs| - 1]);
      assert forall c :: c in cs ==> c in cs[..|cs| - 1] || c == last;
      assert forall c :: c in cs[..|cs| - 1] ==> c in cs;
      m[Id(last) := last]
  }

  /** When no two records join the same pair, nothing is overwritten: each record is its id's gene. */
  lemma TableHolds(cs: seq<ConnJson>)
    requires NetworkJson.PairsDiffer(cs)
    ensures forall c :: c in cs ==> Table(cs)[Id(c)] == c
  {
    var m := Table(cs);
    forall c | c in cs
      ensures m[Id(c)] == c
    {
      var g := m[Id(c)];
      var i :| 0 <= i < |cs| && cs[i] == c;
      var j :| 0 <= j < |cs| && cs[j] == g;
      SameId(c, g);
      assert !(i < j) && !(j < i);
    }
  }

  /** The table files every gene under its own id. */
  lemma TableKeyed(cs: seq<ConnJson>)
    ensures Keyed(Table(cs))
  {
  }

  /** A bound above every id of the records. */
  function IdBound(cs: seq<ConnJson>): (b: nat)
    ensures forall c :: c in cs ==> Id(c) < b
  {
    if |cs| == 0 then 0
    else
      var b := IdBound(cs[..|cs| - 1]);
      var last := cs[|cs| - 1];
      assert forall c :: c in cs ==> c in cs[..|cs| - 1] || c == last;
      if b <= Id(last) then Id(last) + 1 else b
  }

  /** The ids below `b` that the table holds, ascending. */
  function KeysBelow(m: map<nat, ConnJson>, b: nat): (ks: seq<nat>)
    ensures forall i, j :: 0 <= i < j < |ks| ==> ks[i] < ks[j]
    ensures forall id :: id in ks <==> id in m && id < b
  {
    if b == 0 then []
    else
      var ks := KeysBelow(m, b - 1);
      assert forall i :: 0 <= i < |ks| ==> ks[i] in ks;
      if b - 1 in m then ks + [b - 1] else ks
  }

  /** `Object.keys` of a parent's gene table: its ids in ascending order. */
  function Keys(cs: seq<ConnJson>): (ks: seq<nat>)
    ensures forall i, j :: 0 <= i < j < |ks| ==> ks[i] < ks[j]
    ensures forall id :: id in ks <==> id in Table(cs)
  {
    KeysBelow(Table(cs), IdBound(cs))
  }

  /** Each id the table holds names a gene of that id. */
  ghost predicate Keyed(m: map<nat, ConnJson>) {
    forall id :: id in m ==> Id(m[id]) == id
  }

  /**
   * The descending pass over the first parent's ids `xs[0..]`: a gene both
   * parents have is taken from either, by the coin of its position; a gene
   * only the first parent has is taken when `keepFirst`.
   */
  function Matched(xs: seq<nat>, x: map<nat, ConnJson>, d: map<nat, ConnJson>, coins: seq<bool>, keepFirst: bool): (r: seq<ConnJson>)
    requires forall id :: id in xs ==> id in x
    requires |coins| >= |xs|
  {
    if |xs| == 0 then []
    else
      var w := |xs| - 1;
      var id := xs[w];
      var here := if id in d then [if coins[w] then x[id] else d[id]] else if keepFirst then [x[id]] else [];
      here + Matched(xs[..w], x, d, coins, keepFirst)
  }

  /** The second parent's genes the first parent lacks, in ascending id order. */
  function Unmatched(ds: seq<nat>, x: map<nat, ConnJson>, d: map<nat, ConnJson>): (r: seq<ConnJson>)
    requires forall id :: id in ds ==> id in d
  {
    if |ds| == 0 then []
    else (if ds[0] in x then [] else [d[ds[0]]]) + Unmatched(ds[1..], x, d)
  }

  /** No two records share an id. */
  predicate IdsDiffer(cs: seq<ConnJson>) {
    forall i, j :: 0 <= i < j < |cs| ==> Id(cs[i]) != Id(cs[j])
  }

  /** Each record is the gene of its id in one of the two tables. */
  ghost predicate FromTables(cs: seq<ConnJson>, x: map<nat, ConnJson>, d: map<nat, ConnJson>) {
    forall c :: c in cs ==> (Id(c) in x && x[Id(c)] == c) || (Id(c) in d && d[Id(c)] == c)
  }

  /** The records' ids strictly decrease. */
  predicate Descending(cs: seq<ConnJson>) {
    forall i, j :: 0 <= i < j < |cs| ==> Id(cs[i]) > Id(cs[j])
  }

  /** The records' ids strictly increase. */
  predicate Ascending(cs: seq<ConnJson>) {
    forall i, j :: 0 <= i < j < |cs| ==> Id(cs[i]) < Id(cs[j])
  }

  /** A record in front of records of smaller ids keeps the ids descending. */
  lemma DescendingCons(here: seq<ConnJson>, tail: seq<ConnJson>, id: nat)
    requires |here| <= 1 && (forall c :: c in here ==> Id(c) == id)
    requires Descending(tail) && forall c :: c in tail ==> Id(c) < id
    ensures Descending(here + tail)
  {
    var r := here + tail;
    forall i, j | 0 <= i < j < |r|
      ensures Id(r[i]) > Id(r[j])
    {
      assert r[j] == tail[j - |here|] && r[j] in tail;
      if i >= |here| {
        assert r[i] == tail[i - |here|];
      }
    }
  }

  /** A record in front of records of larger ids keeps the ids ascending. */
  lemma AscendingCons(here: seq<ConnJson>, tail: seq<ConnJson>, id: nat)
    requires |here| <= 1 && (forall c :: c in here ==> Id(c) == id)
    requires Ascending(tail) && forall c :: c in tail ==> Id(c) > id
    ensures Ascending(here + tail)
  {
    var r := here + tail;
    forall i, j | 0 <= i < j < |r|
      ensures Id(r[i]) < Id(r[j])
    {
      assert r[j] == tail[j - |here|] && r[j] in tail;
      if i >= |here| {
        assert r[i] == tail[i - |here|];
      }
    }
  }

  /** The descending pass takes its genes from the tables, in strictly descending id order, with ids of the first parent. */
  lemma {:induction false} MatchedOrder(xs: seq<nat>, x: map<nat, ConnJson>, d: map<nat, ConnJson>, coins: seq<bool>, keepFirst: bool)
    requires forall id :: id in xs ==> id in x
    requires |coins| >= |xs|
    requires forall i, j :: 0 <= i < j < |xs| ==> xs[i] < xs[j]
    requires Keyed(x) && Keyed(d)
    ensures Descending(Matched(xs, x, d, coins, keepFirst))
    ensures forall c :: c in Matched(xs, x, d, coins, keepFirst) ==> Id(c) in xs
    ensures FromTables(Matched(xs, x, d, coins, keepFirst), x, d)
  {
    if |xs| > 0 {
      var w := |xs| - 1;
      var id := xs[w];
      var rest := xs[..w];
      MatchedOrder(rest, x, d, coins, keepFirst);
      var tail := Matched(rest, x, d, coins, keepFirst);
      var here := if id in d then [if coins[w] then x[id] else d[id]] else if keepFirst then [x[id]] else [];
      assert forall c :: c in tail ==> Id(c) < id by {
        forall c | c in tail ensures Id(c) < id {
          var k :| 0 <= k < |rest| && rest[k] == Id(c);
        }
      }
      DescendingCons(here, tail, id);
      assert forall c :: c in here + tail ==> c in here || c in tail;
    }
  }

  /** Without `keepFirst` the descending pass takes only genes of shared ids. */
  lemma {:induction false} MatchedShared(xs: seq<nat>, x: map<nat, ConnJson>, d: map<nat, ConnJson>, coins: seq<bool>)
    requires forall id :: id in xs ==> id in x
    requires |coins| >= |xs|
    requires Keyed(x) && Keyed(d)
    ensures forall c :: c in Matched(xs, x, d, coins, false) ==> Id(c) in d
  {
    if |xs| > 0 {
      var w := |xs| - 1;
      MatchedShared(xs[..w], x, d, coins);
    }
  }

  /**
   * Every shared id yields one of its two genes, and every id only the first
   * parent has yields its gene exactly when `keepFirst`.
   */
  lemma {:induction false} MatchedCovers(xs: seq<nat>, x: map<nat, ConnJson>, d: map<nat, ConnJson>, coins: seq<bool>, keepFirst: bool)
    requires forall id :: id in xs ==> id in x
    requires |coins| >= |xs|
    requires Keyed(x) && Keyed(d)
    ensures forall id :: id in xs && id in d ==> x[id] in Matched(xs, x, d, coins, keepFirst) || d[id] in Matched(xs, x, d, coins, keepFirst)
    ensures forall id :: id in xs && id !in d ==> (x[id] in Matched(xs, x, d, coins, keepFirst) <==> keepFirst)
  {
    if |xs| > 0 {
      var w := |xs| - 1;
      var rest := xs[..w];
      MatchedCovers(rest, x, d, coins, keepFirst);
      assert forall k :: k in xs ==> k in rest || k == xs[w];
      if !keepFirst {
        MatchedShared(xs, x, d, coins);
      }
    }
  }

  /** The ascending pass: strictly ascending ids, each the second parent's gene of an id the first lacks. */
  lemma {:induction false} UnmatchedOrder(ds: seq<nat>, x: map<nat, ConnJson>, d: map<nat, ConnJson>)
    requires forall id :: id in ds ==> id in d
    requires forall i, j :: 0 <= i < j < |ds| ==> ds[i] < ds[j]
    requires Keyed(d)
    ensures Ascending(Unmatched(ds, x, d))
    ensures forall c :: c in Unmatched(ds, x, d) ==> Id(c) in ds && Id(c) !in x && Id(c) in d && d[Id(c)] == c
  {
    if |ds| > 0 {
      var rest := ds[1..];
      UnmatchedOrder(rest, x, d);
      var tail := Unmatched(rest, x, d);
      var here := if ds[0] in x then [] else [d[ds[0]]];
      assert forall c :: c in tail ==> Id(c) > ds[0] by {
        forall c | c in tail ensures Id(c) > ds[0] {
          var k :| 0 <= k < |rest| && rest[k] == Id(c);
          assert rest[k] == ds[k + 1];
        }
      }
      AscendingCons(here, tail, ds[0]);
      assert forall c :: c in here + tail ==> c in here || c in tail;
    }
  }

  /** The ascending pass yields the gene of every id only the second parent has. */
  lemma {:induction false} UnmatchedCovers(ds: seq<nat>, x: map<nat, ConnJson>, d: map<nat, ConnJson>)
    requires forall id :: id in ds ==> id in d
    ensures forall id :: id in ds && id !in x ==> d[id] in Unmatched(ds, x, d)
  {
    if |ds| > 0 {
      UnmatchedCovers(ds[1..], x, d);
      assert forall k :: k in ds ==> k in ds[1..] || k == ds[0];
    }
  }

  // ---------------------------------------------------------------------
  // The gene list
  // ---------------------------------------------------------------------

  /** A parent's genes: the records of its registered connections, positions as `toJSON` numbers them. */
  function Genes(n: Network): (gs: seq<ConnJson>)
    requires NetValid(n)
    ensures |gs| == |n.connections| && NetworkJson.PairsDiffer(gs)
  {
    NetworkJson.EntriesPairs(n, n.connections);
    NetworkJson.Entries(n, n.connections)
  }

  /** The score `crossOver` compares: `score ?? 0`. */
  function Fitness(n: Network): real {
    n.score.GetOr(0.0)
  }

  /** The coin at position `i`; a coin past the end of the list counts as `false`. */
  function Coin(coins: seq<bool>, i: nat): bool {
    i < |coins| && coins[i]
  }

  /** The gene table of a parent holds exactly its genes, each under its own id. */
  lemma GeneTable(n: Network)
    requires NetValid(n)
    ensures Keyed(Table(Genes(n)))
    ensures forall c :: c in Genes(n) ==> Id(c) in Table(Genes(n)) && Table(Genes(n))[Id(c)] == c
    ensures forall id :: id in Table(Genes(n)) ==> Table(Genes(n))[id] in Genes(n)
  {
    TableHolds(Genes(n));
  }

  /**
   * The gene list `I`: the descending pass over the first parent's ids,
   * keeping its own genes when it is at least as fit (or `equal`), then,
   * when the second parent is at least as fit (or `equal`), the second
   * parent's genes the first lacks.
   */
  function Aligned(t: Network, e: Network, equal: bool, coins: seq<bool>): seq<ConnJson>
    requires NetValid(t) && NetValid(e)
  {
    Align(Genes(t), Genes(e), coins, Fitness(t) >= Fitness(e) || equal, Fitness(e) >= Fitness(t) || equal)
  }

  /** The two passes over the gene tables of two gene lists. */
  function Align(gt: seq<ConnJson>, ge: seq<ConnJson>, coins: seq<bool>, keepFirst: bool, keepSecond: bool): seq<ConnJson> {
    var xs := Keys(gt);
    Passes(xs, Keys(ge), Table(gt), Table(ge), Padded(coins, |xs|), keepFirst, keepSecond)
  }

  /** The coins, padded with `false` to at least `n`. */
  function Padded(coins: seq<bool>, n: nat): (r: seq<bool>)
    ensures |r| >= n
    ensures forall i :: 0 <= i < |r| ==> r[i] == Coin(coins, i)
  {
    if |coins| >= n then coins else coins + seq(n - |coins|, _ => false)
  }

  /** What the two passes build from two keyed tables and their ascending id lists. */
  function Passes(xs: seq<nat>, ds: seq<nat>, x: map<nat, ConnJson>, d: map<nat, ConnJson>, cs: seq<bool>,
                  keepFirst: bool, keepSecond: bool): seq<ConnJson>
    requires forall id :: id in xs ==> id in x
    requires forall id :: id in ds ==> id in d
    requires |cs| >= |xs|
  {
    Matched(xs, x, d, cs, keepFirst) + (if keepSecond then Unmatched(ds, x, d) else [])
  }

  /** The two passes never repeat an id and take every gene from the tables. */
  lemma PassesDiffer(xs: seq<nat>, ds: seq<nat>, x: map<nat, ConnJson>, d: map<nat, ConnJson>, cs: seq<bool>,
                     keepFirst: bool, keepSecond: bool)
    requires forall id :: id in xs ==> id in x
    requires forall id :: id in ds ==> id in d
    requires |cs| >= |xs|
    requires forall i, j :: 0 <= i < j < |xs| ==> xs[i] < xs[j]
    requires forall i, j :: 0 <= i < j < |ds| ==> ds[i] < ds[j]
    requires Keyed(x) && Keyed(d)
    ensures IdsDiffer(Passes(xs, ds, x, d, cs, keepFirst, keepSecond))
    ensures FromTables(Passes(xs, ds, x, d, cs, keepFirst, keepSecond), x, d)
  {
    var m := Matched(xs, x, d, cs, keepFirst);
    var u := if keepSecond then Unmatched(ds, x, d) else [];
    MatchedOrder(xs, x, d, cs, keepFirst);
    UnmatchedOrder(ds, x, d);
    var gs := m + u;
    forall i, j | 0 <= i < j < |gs|
      ensures Id(gs[i]) != Id(gs[j])
    {
      if j < |m| {
        assert gs[i] == m[i] && gs[j] == m[j];
      } else if i >= |m| {
        assert gs[i] == u[i - |m|] && gs[j] == u[j - |m|];
      } else {
        assert gs[i] == m[i] && gs[i] in m && gs[j] == u[j - |m|] && gs[j] in u;
      }
    }
    assert forall c :: c in gs ==> c in m || c in u;
  }

  /**
   * A shared id contributes one of its two genes, an id only in `x` its gene
   * exactly when `keepFirst`, an id only in `d` its gene exactly when
   * `keepSecond`.
   */
  ghost predicate Covers(gs: seq<ConnJson>, x: map<nat, ConnJson>, d: map<nat, ConnJson>, keepFirst: bool, keepSecond: bool) {
    (forall id :: id in x && id in d ==> x[id] in gs || d[id] in gs) &&
    (forall id :: id in x && id !in d ==> (x[id] in gs <==> keepFirst)) &&
    (forall id :: id in d && id !in x ==> (d[id] in gs <==> keepSecond))
  }

  /**
   * The two passes cover the tables: a shared id contributes one of its two
   * genes, an id only in `x` its gene exactly when `keepFirst`, an id only
   * in `d` its gene exactly when `keepSecond`.
   */
  lemma PassesCover(xs: seq<nat>, ds: seq<nat>, x: map<nat, ConnJson>, d: map<nat, ConnJson>, cs: seq<bool>,
                    keepFirst: bool, keepSecond: bool)
    requires forall id :: id in xs <==> id in x
    requires forall id :: id in ds <==> id in d
    requires |cs| >= |xs|
    requires forall i, j :: 0 <= i < j < |xs| ==> xs[i] < xs[j]
    requires forall i, j :: 0 <= i < j < |ds| ==> ds[i] < ds[j]
    requires Keyed(x) && Keyed(d)
    ensures Covers(Passes(xs, ds, x, d, cs, keepFirst, keepSecond), x, d, keepFirst, keepSecond)
  {
    var m := Matched(xs, x, d, cs, keepFirst);
    var u := if keepSecond then Unmatched(ds, x, d) else [];
    MatchedOrder(xs, x, d, cs, keepFirst);
    MatchedCovers(xs, x, d, cs, keepFirst);
    UnmatchedOrder(ds, x, d);
    UnmatchedCovers(ds, x, d);
    var gs := m + u;
    assert forall c :: c in gs <==> c in m || c in u;
    forall id | id in x && id !in d && x[id] in gs
      ensures keepFirst
    {
      assert x[id] !in u;
    }
    forall id | id in d && id !in x && d[id] in gs
      ensures keepSecond
    {
      assert d[id] !in m;
    }
  }

  /**
   * Genes are matched by innovation id. Every gene of the list is one
   * parent's gene of its id, no id occurs twice, every id both parents have
   * contributes one of its two genes, an id only the first parent has
   * contributes its gene exactly when `keepFirst` (the first parent is at
   * least as fit, or `equal`), and an id only the second parent has exactly
   * when `keepSecond`.
   */
  lemma AlignGenes(gt: seq<ConnJson>, ge: seq<ConnJson>, coins: seq<bool>, keepFirst: bool, keepSecond: bool)
    ensures IdsDiffer(Align(gt, ge, coins, keepFirst, keepSecond))
    ensures FromTables(Align(gt, ge, coins, keepFirst, keepSecond), Table(gt), Table(ge))
    ensures Covers(Align(gt, ge, coins, keepFirst, keepSecond), Table(gt), Table(ge), keepFirst, keepSecond)
  {
    var x := Table(gt);
    var d := Table(ge);
    TableKeyed(gt);
    TableKeyed(ge);
    var xs := Keys(gt);
    var ds := Keys(ge);
    var cs := Padded(coins, |xs|);
    PassesDiffer(xs, ds, x, d, cs, keepFirst, keepSecond);
    PassesCover(xs, ds, x, d, cs, keepFirst, keepSecond);
  }

  /** The record as the child receives it: a gate at or past the child's node count is dropped. */
  function Trimmed(c: ConnJson, size: nat): (r: ConnJson)
    ensures Id(r) == Id(c) && r.weight == c.weight
  {
    c.(gateNodeIndex := if c.gateNodeIndex.Some? && c.gateNodeIndex.value < size then c.gateNodeIndex else None)
  }

  /** The records the child replays: those with both endpoints below its node count, trimmed. */
  function Kept(cs: seq<ConnJson>, size: nat): (r: seq<ConnJson>)
    ensures forall c :: c in r ==> InRange(c, size)
    ensures forall c :: c in r ==> exists g :: g in cs && g.fromIndex < size && g.toIndex < size && c == Trimmed(g, size)
    ensures forall g :: g in cs && g.fromIndex < size && g.toIndex < size ==> Trimmed(g, size) in r
  {
    if |cs| == 0 then []
    else
      var g := cs[0];
      var rest := Kept(cs[1..], size);
      assert forall c :: c in cs ==> c == g || c in cs[1..];
      if g.fromIndex < size && g.toIndex < size then [Trimmed(g, size)] + rest else rest
  }

  /** Keeping records never makes two of them share an id. */
  lemma {:induction false} KeptIdsDiffer(cs: seq<ConnJson>, size: nat)
    requires IdsDiffer(cs)
    ensures IdsDiffer(Kept(cs, size))
  {
    if |cs| > 0 {
      var rest := cs[1..];
      assert IdsDiffer(rest) by {
        forall i, j | 0 <= i < j < |rest| ensures Id(rest[i]) != Id(rest[j]) {
          assert rest[i] == cs[i + 1] && rest[j] == cs[j + 1];
        }
      }
      KeptIdsDiffer(rest, size);
      var k := Kept(rest, size);
      if cs[0].fromIndex < size && cs[0].toIndex < size {
        var r := [Trimmed(cs[0], size)] + k;
        forall c | c in k ensures Id(c) != Id(cs[0]) {
          var g :| g in rest && c == Trimmed(g, size);
          var j :| 0 <= j < |rest| && rest[j] == g;
          assert cs[j + 1] == g;
        }
        forall i, j | 0 <= i < j < |r| ensures Id(r[i]) != Id(r[j]) {
          assert r[j] == k[j - 1] && r[j] in k;
          if i > 0 {
            assert r[i] == k[i - 1];
          }
        }
      }
    }
  }

  /** Records with pairwise different ids join pairwise different pairs of positions. */
  lemma IdsDifferPairs(cs: seq<ConnJson>)
    requires IdsDiffer(cs)
    ensures NetworkJson.PairsDiffer(cs)
  {
    forall i, j | 0 <= i < j < |cs|
      ensures (cs[i].fromIndex, cs[i].toIndex) != (cs[j].fromIndex, cs[j].toIndex)
    {
      assert Id(cs[i]) != Id(cs[j]);
    }
  }

  // ---------------------------------------------------------------------
  // The child's nodes
  // ---------------------------------------------------------------------

  /** The random choices `crossOver` makes, by purpose. */
  datatype Draws = Draws(size: real, parents: seq<bool>, picks: seq<real>, genes: seq<bool>)

  /** Every real draw lies in [0, 1). */
  predicate Fits(d: Draws) {
    IsDraw(d.size) && forall i :: 0 <= i < |d.picks| ==> IsDraw(d.picks[i])
  }

  /** The pick draw for position `i`; a position past the end of the list draws 0. */
  function Pick(picks: seq<real>, i: nat): (r: real)
    requires forall k :: 0 <= k < |picks| ==> IsDraw(picks[k])
    ensures IsDraw(r)
  {
    if i < |picks| then picks[i] else 0.0
  }

  /** The larger of two counts. */
  function Max(a: nat, b: nat): nat {
    if a < b then b else a
  }

  /** The smaller of two counts. */
  function Min(a: nat, b: nat): nat {
    if a < b then a else b
  }

  /**
   * The child's node count: a `randInt` between the parents' counts when
   * `equal` is set or the scores tie, otherwise the fitter parent's count.
   */
  function ChildSize(t: Network, e: Network, equal: bool, draw: real): (u: nat)
    requires IsDraw(draw)
    ensures equal || Fitness(t) == Fitness(e) ==> Min(|t.nodes|, |e.nodes|) <= u <= Max(|t.nodes|, |e.nodes|)
    ensures !equal && Fitness(t) > Fitness(e) ==> u == |t.nodes|
    ensures !equal && Fitness(t) < Fitness(e) ==> u == |e.nodes|
  {
    if equal || Fitness(t) == Fitness(e) then
      ArrayUtils.RandInt(Min(|t.nodes|, |e.nodes|), Max(|t.nodes|, |e.nodes|) + 1, draw)
    else if Fitness(t) > Fitness(e) then |t.nodes|
    else |e.nodes|
  }

  /** The kind of the child's node at position `w`: inputs, then outputs, then hidden nodes. */
  function KindAt(w: nat, inputs: nat, outputs: nat): NodeType {
    if w < inputs then Input else if w < inputs + outputs then Output else Hidden
  }

  /** A parent's node at position `i` of its node list. */
  function NodeAt(n: Network, i: nat): Node
    requires NetValid(n) && i < |n.nodes|
  {
    n.heap.nodes[n.nodes[i]]
  }

  /** A parent's nodes in list order. */
  function Members(n: Network): (vs: seq<Node>)
    requires NetValid(n)
    ensures |vs| == |n.nodes| && forall i :: 0 <= i < |n.nodes| ==> vs[i] == NodeAt(n, i)
  {
    seq(|n.nodes|, i requires 0 <= i < |n.nodes| => NodeAt(n, i))
  }

  /** A parent's node kinds in list order. */
  function Kinds(n: Network): (ks: seq<NodeType>)
    requires NetValid(n)
    ensures |ks| == |n.nodes| && forall i :: 0 <= i < |n.nodes| ==> ks[i] == NodeAt(n, i).kind
  {
    seq(|n.nodes|, i requires 0 <= i < |n.nodes| => NodeAt(n, i).kind)
  }

  /**
   * The search for the `w`-th node of `kind` (counting from 0), as the
   * output search is written: `found` nodes of `kind` lie among the first
   * `next`, and the test `++O >= length` throws a `RangeError` carrying
   * `msg` once the list runs out.
   */
  function Scan(ks: seq<NodeType>, kind: NodeType, w: nat, found: nat, next: nat, msg: string): (r: Result<nat>)
    requires found <= next <= |ks|
    ensures r.Ok? ==> r.value < |ks|
    decreases |ks| - next
  {
    if found > w then Ok(next - 1)
    else if next >= |ks| then Err(RangeError(msg))
    else Scan(ks, kind, w, found + (if ks[next] == kind then 1 else 0), next + 1, msg)
  }

  /**
   * The search finds the node of `kind` with exactly `w` nodes of `kind`
   * before it, and throws exactly when there are no more than `w` of them.
   */
  lemma {:induction false} ScanFinds(ks: seq<NodeType>, kind: NodeType, w: nat, next: nat, msg: string)
    requires next <= |ks| && Count(ks[..next], kind) <= w
    ensures var r := Scan(ks, kind, w, Count(ks[..next], kind), next, msg);
      (r.Ok? ==> ks[r.value] == kind && Count(ks[..r.value], kind) == w) &&
      (r.Err? <==> Count(ks, kind) <= w) &&
      (r.Err? ==> r.error == RangeError(msg))
    decreases |ks| - next
  {
    var found := Count(ks[..next], kind);
    if next >= |ks| {
      assert ks[..next] == ks;
    } else {
      assert ks[..next + 1][..next] == ks[..next];
      var found' := Count(ks[..next + 1], kind);
      assert found' == found + (if ks[next] == kind then 1 else 0);
      if found' > w {
        if next + 1 < |ks| {
          CountGrows(ks, kind, next, |ks|);
        }
        assert ks[..|ks|] == ks;
      } else {
        ScanFinds(ks, kind, w, next + 1, msg);
      }
    }
  }

  /**
   * The input search as written: `O++ >= length` tests the position before
   * the increment, so the search reads one past the end, calls
   * `isInputNode` on `undefined` and throws a `TypeError` instead.
   */
  function ScanAsWritten(ks: seq<NodeType>, kind: NodeType, w: nat, found: nat, next: nat): (r: Result<nat>)
    requires found <= next <= |ks|
    decreases |ks| - next
  {
    if found > w then var p: nat := next - 1; Ok(p)
    else if next - 1 >= |ks| then Err(RangeError("something is wrong with the size of the input"))
    else if next >= |ks| then Err(TypeError("Cannot read properties of undefined (reading 'isInputNode')"))
    else ScanAsWritten(ks, kind, w, found + (if ks[next] == kind then 1 else 0), next + 1)
  }

  /**
   * The written search finds the same node as the intended one, but never
   * throws its `RangeError`: when a parent has too few input nodes it
   * throws a `TypeError`.
   */
  lemma {:induction false} InputScanDiscrepancy(ks: seq<NodeType>, w: nat, found: nat, next: nat)
    requires found <= next <= |ks|
    ensures ScanAsWritten(ks, Input, w, found, next).Ok? == Scan(ks, Input, w, found, next, "something is wrong with the size of the input").Ok?
    ensures ScanAsWritten(ks, Input, w, found, next).Ok? ==>
      ScanAsWritten(ks, Input, w, found, next) == Scan(ks, Input, w, found, next, "something is wrong with the size of the input")
    ensures ScanAsWritten(ks, Input, w, found, next).Err? ==>
      ScanAsWritten(ks, Input, w, found, next).error == TypeError("Cannot read properties of undefined (reading 'isInputNode')")
    decreases |ks| - next
  {
    if found <= w && next < |ks| {
      InputScanDiscrepancy(ks, w, found + (if ks[next] == Input then 1 else 0), next + 1);
    }
  }

  /** A parent with no input node: the written search throws a `TypeError` where the intended one throws a `RangeError`. */
  lemma InputScanWitness()
    ensures ScanAsWritten([Output], Input, 0, 0, 0) == Err(TypeError("Cannot read properties of undefined (reading 'isInputNode')"))
    ensures Scan([Output], Input, 0, 0, 0, "something is wrong with the size of the input") ==
      Err(RangeError("something is wrong with the size of the input"))
  {
  }

  /** The parent a child position copies from: chosen by the coin, except that a hidden position past one parent's end uses the other. */
  function Source(t: Network, e: Network, w: nat, coin: bool): Network {
    if w < t.inputSize + t.outputSize then (if coin then t else e)
    else if w >= |t.nodes| then e
    else if w >= |e.nodes| then t
    else if coin then t else e
  }

  /** A new node of `kind` with the bias and squash of `s`. */
  function Like(kind: NodeType, s: Node): Node {
    Node(kind, s.bias, s.squash)
  }

  /**
   * The node made for the `w`-th position of `kind`: it copies the parent's
   * node of that kind with exactly `w` nodes of that kind before it, and the
   * search throws when the parent has no more than `w` of them.
   */
  function Copied(z: Network, kind: NodeType, w: nat, msg: string): (r: Result<Node>)
    requires NetValid(z)
    ensures r.Ok? ==> exists p :: 0 <= p < |z.nodes| && NodeAt(z, p).kind == kind && Count(Kinds(z)[..p], kind) == w &&
                                  r.value == Like(kind, NodeAt(z, p))
    ensures r.Err? <==> Count(Kinds(z), kind) <= w
    ensures r.Err? ==> r.error == RangeError(msg)
  {
    var ks := Kinds(z);
    assert ks[..0] == [];
    ScanFinds(ks, kind, w, 0, msg);
    match Scan(ks, kind, w, 0, 0, msg)
    case Err(f) => Err(f)
    case Ok(p) => Ok(Like(kind, NodeAt(z, p)))
  }

  /** The hidden node made from a random node of the parent, of any kind. */
  function Drawn(z: Network, pick: real): (r: Result<Node>)
    requires NetValid(z) && IsDraw(pick)
    ensures r.Ok? ==> exists i :: 0 <= i < |z.nodes| && r.value == Like(Hidden, NodeAt(z, i))
    ensures r.Err? <==> |z.nodes| == 0
  {
    match ArrayUtils.PickRandom(Members(z), pick)
    case Err(f) => Err(f)
    case Ok(s) => Ok(Like(Hidden, s))
  }

  /**
   * The node at child position `w`, of the kind the position calls for:
   * an input or output position copies the matching node of the chosen
   * parent, and only those can throw; a hidden position below both
   * parents' ends copies a random node of the chosen parent.
   */
  function ChildNode(t: Network, e: Network, w: nat, coin: bool, pick: real): (r: Result<Node>)
    requires NetValid(t) && NetValid(e) && IsDraw(pick)
    ensures r.Ok? ==> r.value.kind == KindAt(w, t.inputSize, t.outputSize)
    ensures w < t.inputSize ==> (r.Err? <==> Count(Kinds(Source(t, e, w, coin)), Input) <= w)
    ensures t.inputSize <= w < t.inputSize + t.outputSize ==> (r.Err? <==> Count(Kinds(Source(t, e, w, coin)), Output) <= w - t.inputSize)
    ensures t.inputSize + t.outputSize <= w < Max(|t.nodes|, |e.nodes|) ==> r.Ok?
    ensures r.Err? ==> r.error.RangeError?
  {
    var z := Source(t, e, w, coin);
    if w < t.inputSize then Copied(z, Input, w, "something is wrong with the size of the input")
    else if w < t.inputSize + t.outputSize then Copied(z, Output, w - t.inputSize, "something is wrong with the size of the output")
    else Drawn(z, pick)
  }

  /** The nodes of child positions `0 .. u - 1`, built in order; the first position that throws ends the build. */
  function ChildNodes(t: Network, e: Network, u: nat, coins: seq<bool>, picks: seq<real>): (r: Result<seq<Node>>)
    requires NetValid(t) && NetValid(e) && forall i :: 0 <= i < |picks| ==> IsDraw(picks[i])
    ensures r.Ok? ==> |r.value| == u && forall w :: 0 <= w < u ==> ChildNode(t, e, w, Coin(coins, w), Pick(picks, w)) == Ok(r.value[w])
    ensures r.Err? <==> exists w :: 0 <= w < u && ChildNode(t, e, w, Coin(coins, w), Pick(picks, w)).Err?
    decreases u
  {
    if u == 0 then Ok([])
    else
      match ChildNodes(t, e, u - 1, coins, picks)
      case Err(f) => Err(f)
      case Ok(vs) =>
        match ChildNode(t, e, u - 1, Coin(coins, u - 1), Pick(picks, u - 1))
        case Err(f) => Err(f)
        case Ok(v) => Ok(vs + [v])
  }

  // ---------------------------------------------------------------------
  // The child
  // ---------------------------------------------------------------------

  /** Genes with pairwise different ids can all be replayed into a fresh child. */
  lemma ChildWireable(vs: seq<Node>, inputs: nat, outputs: nat, gs: seq<ConnJson>)
    requires IdsDiffer(gs)
    ensures Wireable(Blank(vs, inputs, outputs), Kept(gs, |vs|))
  {
    var s := Blank(vs, inputs, outputs);
    var cs := Kept(gs, |vs|);
    KeptIdsDiffer(gs, |vs|);
    IdsDifferPairs(cs);
    NetworkJson.WireableIntoBare(s, cs);
  }

  /**
   * The child built from its nodes and the gene list: a fresh network of
   * the nodes, then `connect` and `addGate` for every kept gene in order.
   */
  function Build(vs: seq<Node>, inputs: nat, outputs: nat, gs: seq<ConnJson>): (r: Network)
    requires IdsDiffer(gs)
    ensures NetValid(r) && r.inputSize == inputs && r.outputSize == outputs && r.score.None?
    ensures |r.nodes| == |vs| && forall i :: 0 <= i < |vs| ==> r.nodes[i] == i && i in r.heap.nodes && r.heap.nodes[i] == vs[i]
  {
    var s := Blank(vs, inputs, outputs);
    ChildWireable(vs, inputs, outputs, gs);
    WireOk(s, Kept(gs, |vs|));
    Wire(s, Kept(gs, |vs|)).value
  }

  /** Every connection of the child joins two of its own nodes, and every one between two different nodes comes from a kept gene. */
  lemma BuildEdges(vs: seq<Node>, inputs: nat, outputs: nat, gs: seq<ConnJson>)
    requires IdsDiffer(gs)
    ensures var r := Build(vs, inputs, outputs, gs);
      forall k :: k in r.heap.conns ==>
        k.from < |vs| && k.to < |vs| &&
        (k.from != k.to ==> exists c :: c in Kept(gs, |vs|) && Between(c) && KeyAt(r.nodes, c) == k)
  {
    var s := Blank(vs, inputs, outputs);
    var cs := Kept(gs, |vs|);
    ChildWireable(vs, inputs, outputs, gs);
    WireKeys(s, cs);
    var r := Build(vs, inputs, outputs, gs);
    assert r.nodes == s.nodes;
    KeysBetween(s.nodes, cs, s.heap.conns.Keys, r.heap.conns.Keys);
  }

  /**
   * Self-loops below the node count plus the keys the records name: every
   * key joins two positions, and one between two different positions is
   * named by a record between them.
   */
  lemma KeysBetween(nodes: seq<NodeId>, cs: seq<ConnJson>, blank: set<Key>, keys: set<Key>)
    requires forall i :: 0 <= i < |nodes| ==> nodes[i] == i
    requires forall k :: k in blank ==> k.from == k.to < |nodes|
    requires forall i :: 0 <= i < |cs| ==> InRange(cs[i], |nodes|)
    requires keys == blank + OrderedSet.Elements(Named(nodes, cs))
    ensures forall k :: k in keys ==>
      k.from < |nodes| && k.to < |nodes| &&
      (k.from != k.to ==> exists c :: c in cs && Between(c) && KeyAt(nodes, c) == k)
  {
    var named := Named(nodes, cs);
    forall k | k in keys
      ensures k.from < |nodes| && k.to < |nodes|
      ensures k.from != k.to ==> exists c :: c in cs && Between(c) && KeyAt(nodes, c) == k
    {
      if k !in blank {
        var i :| 0 <= i < |named| && named[i] == k;
        assert cs[i] in cs && KeyAt(nodes, cs[i]) == k;
      }
    }
  }

  /** Every kept gene between two different positions is a connection of the child, with the gene's weight and its trimmed gate. */
  lemma BuildGenes(vs: seq<Node>, inputs: nat, outputs: nat, gs: seq<ConnJson>)
    requires IdsDiffer(gs)
    ensures forall c :: c in gs && c.fromIndex < |vs| && c.toIndex < |vs| && Between(c) ==>
      Placed(Build(vs, inputs, outputs, gs), Trimmed(c, |vs|))
  {
    var s := Blank(vs, inputs, outputs);
    var cs := Kept(gs, |vs|);
    ChildWireable(vs, inputs, outputs, gs);
    WirePlaced(s, cs);
  }

  /**
   * `Network.crossOver`: throws when the parents' input or output sizes
   * differ, or when a chosen parent lacks the input or output node a
   * position asks for; otherwise the child has `ChildSize` nodes and the
   * parents' sizes, its score is unset, and it is built from its nodes and
   * the gene list.
   */
  function CrossOver(t: Network, e: Network, equal: bool, draws: Draws): (r: Result<Network>)
    requires NetValid(t) && NetValid(e) && Fits(draws)
    ensures t.inputSize != e.inputSize || t.outputSize != e.outputSize ==>
      r == Err(PlainError("Networks don`t have the same input/output size!"))
    ensures r.Err? <==> t.inputSize != e.inputSize || t.outputSize != e.outputSize ||
                        ChildNodes(t, e, ChildSize(t, e, equal, draws.size), draws.parents, draws.picks).Err?
    ensures r.Ok? ==> NetValid(r.value) && r.value.inputSize == t.inputSize && r.value.outputSize == t.outputSize && r.value.score.None?
    ensures r.Ok? ==> |r.value.nodes| == ChildSize(t, e, equal, draws.size)
    ensures r.Ok? ==> IdsDiffer(Aligned(t, e, equal, draws.genes))
    ensures r.Ok? ==>
      r.value == Build(ChildNodes(t, e, ChildSize(t, e, equal, draws.size), draws.parents, draws.picks).value,
                       t.inputSize, t.outputSize, Aligned(t, e, equal, draws.genes))
  {
    if t.inputSize != e.inputSize || t.outputSize != e.outputSize then
      Err(PlainError("Networks don`t have the same input/output size!"))
    else
      var u := ChildSize(t, e, equal, draws.size);
      match ChildNodes(t, e, u, draws.parents, draws.picks)
      case Err(f) => Err(f)
      case Ok(vs) =>
        var gs := Aligned(t, e, equal, draws.genes);
        AlignGenes(Genes(t), Genes(e), draws.genes, Fitness(t) >= Fitness(e) || equal, Fitness(e) >= Fitness(t) || equal);
        Ok(Build(vs, t.inputSize, t.outputSize, gs))
  }

  /**
   * The child's layout: its node at position `i` is an input node below the
   * input size, an output node below input plus output size, and hidden
   * past that; every connection joins two of its nodes.
   */
  lemma CrossOverLayout(t: Network, e: Network, equal: bool, draws: Draws)
    requires NetValid(t) && NetValid(e) && Fits(draws)
    ensures var r := CrossOver(t, e, equal, draws);
      r.Ok? ==> (forall i :: 0 <= i < |r.value.nodes| ==> r.value.nodes[i] == i && r.value.heap.nodes[i].kind == KindAt(i, t.inputSize, t.outputSize)) &&
                (forall k :: k in r.value.heap.conns ==> k.from < |r.value.nodes| && k.to < |r.value.nodes|)
  {
    var r := CrossOver(t, e, equal, draws);
    if r.Ok? {
      var u := ChildSize(t, e, equal, draws.size);
      var vs := ChildNodes(t, e, u, draws.parents, draws.picks).value;
      var gs := Aligned(t, e, equal, draws.genes);
      BuildEdges(vs, t.inputSize, t.outputSize, gs);
      forall i | 0 <= i < |r.value.nodes|
        ensures r.value.heap.nodes[i].kind == KindAt(i, t.inputSize, t.outputSize)
      {
        assert ChildNode(t, e, i, Coin(draws.parents, i), Pick(draws.picks, i)) == Ok(vs[i]);
      }
    }
  }

  /**
   * The child's connections: every gene of the aligned list whose endpoints
   * lie below the child's node count, between two different positions, is
   * a connection of the child with the gene's weight and its gate when that
   * lies below the count too; and the child has no other connection
   * between two different nodes.
   */
  lemma CrossOverGenes(t: Network, e: Network, equal: bool, draws: Draws)
    requires NetValid(t) && NetValid(e) && Fits(draws)
    ensures var r := CrossOver(t, e, equal, draws);
      r.Ok? ==> (forall c :: c in Aligned(t, e, equal, draws.genes) && c.fromIndex < |r.value.nodes| && c.toIndex < |r.value.nodes| && Between(c) ==>
                   Placed(r.value, Trimmed(c, |r.value.nodes|))) &&
                (forall k :: k in r.value.heap.conns && k.from != k.to ==>
                   exists c :: c in Kept(Aligned(t, e, equal, draws.genes), |r.value.nodes|) && Between(c) && KeyAt(r.value.nodes, c) == k)
  {
    var r := CrossOver(t, e, equal, draws);
    if r.Ok? {
      var u := ChildSize(t, e, equal, draws.size);
      var vs := ChildNodes(t, e, u, draws.parents, draws.picks).value;
      var gs := Aligned(t, e, equal, draws.genes);
      BuildGenes(vs, t.inputSize, t.outputSize, gs);
      BuildEdges(vs, t.inputSize, t.outputSize, gs);
    }
  }
}
