/** The node kinds of src/enums/NodeType (`INPUT = 0`, `HIDDEN = 1`, `OUTPUT = 2`). */
module Enums {
  datatype NodeType = Input | Hidden | Output

  /** How many of `types` are of kind `t`. */
  function Count(types: seq<NodeType>, t: NodeType): (n: nat)
    ensures n <= |types|
  {
    if |types| == 0 then 0
    else Count(types[..|types| - 1], t) + (if types[|types| - 1] == t then 1 else 0)
  }

  /** Counting a longer prefix counts at least as many, and strictly more past a node of kind `t`. */
  lemma {:induction false} CountGrows(types: seq<NodeType>, t: NodeType, p: nat, q: nat)
    requires p < q <= |types|
    ensures Count(types[..p], t) <= Count(types[..q], t)
    ensures types[p] == t ==> Count(types[..p], t) < Count(types[..q], t)
  {
    assert types[..q][..q - 1] == types[..q - 1];
    if q - 1 > p {
      CountGrows(types, t, p, q - 1);
    } else {
      assert types[..p] == types[..q - 1];
    }
  }
}
