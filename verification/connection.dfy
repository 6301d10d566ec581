/**
 * `Connection.innovationID(a, b) = 0.5 * (a + b) * (a + b + 1) + b`, the
 * Cantor pairing of two node indices. `Network.crossOver` keys each parent's
 * genes by it, so two genes meet exactly when their endpoint index pairs do.
 */
module Connection {

  /** The triangular number `s(s + 1) / 2`. */
  function Triangle(s: nat): (t: nat)
    ensures 2 * t == s * (s + 1)
  {
    if s == 0 then 0 else Triangle(s - 1) + s
  }

  /** `Connection.innovationID`. */
  function InnovationID(a: nat, b: nat): (id: nat)
    ensures Triangle(a + b) <= id < Triangle(a + b + 1)
  {
    Triangle(a + b) + b
  }

  /** Past the diagonal `s`, every triangular number is at least the next one. */
  lemma {:induction false} TriangleGrows(s: nat, u: nat)
    requires s < u
    ensures Triangle(s + 1) <= Triangle(u)
  {
    if u > s + 1 {
      TriangleGrows(s, u - 1);
    }
  }

  /** Different pairs get different innovation ids. */
  lemma InnovationIDInjective(a: nat, b: nat, c: nat, d: nat)
    requires InnovationID(a, b) == InnovationID(c, d)
    ensures a == c && b == d
  {
    if a + b < c + d {
      TriangleGrows(a + b, c + d);
    } else if c + d < a + b {
      TriangleGrows(c + d, a + b);
    }
  }

  /** The id is symmetric in neither argument: swapping two distinct indices changes it. */
  lemma InnovationIDOrdered(a: nat, b: nat)
    requires a != b
    ensures InnovationID(a, b) != InnovationID(b, a)
  {
    if InnovationID(a, b) == InnovationID(b, a) {
      InnovationIDInjective(a, b, b, a);
    }
  }
}
