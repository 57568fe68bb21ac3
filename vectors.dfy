/** One-dimensional numeric arrays as numpy and unyt treat them: component-wise
    arithmetic with broadcasting of length-1 operands, component-wise min/max,
    products, and conversion between length units given as positive factors to a
    common base length. */
module Vectors {
  import opened Wrappers

  type Vec = seq<real>

  /** An array of `n` copies of `x`. */
  function Repeat(x: real, n: nat): (r: Vec)
    ensures |r| == n && forall i :: 0 <= i < n ==> r[i] == x
  {
    seq(n, _ => x)
  }

  /** Component `i` of `v` as broadcasting reads it: a one-element array
      supplies its only entry for every index. */
  function At(v: Vec, i: nat): real
    requires |v| == 1 || i < |v|
  {
    if |v| == 1 then v[0] else v[i]
  }

  /** Whether numpy can broadcast two 1-D arrays together. */
  predicate Broadcastable(a: Vec, b: Vec) {
    |a| == |b| || |a| == 1 || |b| == 1
  }

  /** The length of the broadcast result. */
  function BroadcastLength(a: Vec, b: Vec): nat {
    if |a| == 1 then |b| else |a|
  }

  /** numpy broadcasting of two 1-D arrays: equal lengths pass through, a
      length-1 operand is stretched to the other's length, anything else raises
      ValueError. */
  function Broadcast(a: Vec, b: Vec): (r: Result<(Vec, Vec)>)
    ensures r.Ok? <==> Broadcastable(a, b)
    ensures r.Ok? ==> |r.value.0| == |r.value.1| == BroadcastLength(a, b)
    ensures r.Ok? ==> forall i :: 0 <= i < |r.value.0| ==>
      r.value.0[i] == At(a, i) && r.value.1[i] == At(b, i)
    ensures r.Ok? && |a| == |b| ==> r.value == (a, b)
    ensures !r.Ok? ==> r == Err(ValueError)
  {
    if |a| == |b| then Ok((a, b))
    else if |a| == 1 then Ok((Repeat(a[0], |b|), b))
    else if |b| == 1 then Ok((a, Repeat(b[0], |a|)))
    else Err(ValueError)
  }

  predicate NonZero(v: Vec) {
    forall i :: 0 <= i < |v| ==> v[i] != 0.0
  }

  function Add(a: Vec, b: Vec): (r: Vec)
    requires |a| == |b|
    ensures |r| == |a| && forall i :: 0 <= i < |a| ==> r[i] == a[i] + b[i]
  {
    seq(|a|, i requires 0 <= i < |a| => a[i] + b[i])
  }

  function Sub(a: Vec, b: Vec): (r: Vec)
    requires |a| == |b|
    ensures |r| == |a| && forall i :: 0 <= i < |a| ==> r[i] == a[i] - b[i]
  {
    seq(|a|, i requires 0 <= i < |a| => a[i] - b[i])
  }

  function Mul(a: Vec, b: Vec): (r: Vec)
    requires |a| == |b|
    ensures |r| == |a| && forall i :: 0 <= i < |a| ==> r[i] == a[i] * b[i]
  {
    seq(|a|, i requires 0 <= i < |a| => a[i] * b[i])
  }

  function Div(a: Vec, b: Vec): (r: Vec)
    requires |a| == |b| && NonZero(b)
    ensures |r| == |a| && forall i :: 0 <= i < |a| ==> r[i] == a[i] / b[i]
  {
    seq(|a|, i requires 0 <= i < |a| => a[i] / b[i])
  }

  /** Every component multiplied by one scalar. */
  function Scale(a: Vec, c: real): (r: Vec)
    ensures |r| == |a| && forall i :: 0 <= i < |a| ==> r[i] == a[i] * c
  {
    seq(|a|, i requires 0 <= i < |a| => a[i] * c)
  }

  /** Every component divided by one non-zero scalar. */
  function DivScalar(a: Vec, c: real): (r: Vec)
    requires c != 0.0
    ensures |r| == |a| && forall i :: 0 <= i < |a| ==> r[i] == a[i] / c
  {
    seq(|a|, i requires 0 <= i < |a| => a[i] / c)
  }

  /** `a + b` with broadcasting. */
  function AddB(a: Vec, b: Vec): (r: Result<Vec>)
    ensures r.Ok? <==> Broadcastable(a, b)
    ensures r.Err? ==> r.error == ValueError
    ensures r.Ok? ==> |r.value| == BroadcastLength(a, b)
    ensures r.Ok? ==> forall i :: 0 <= i < |r.value| ==> r.value[i] == At(a, i) + At(b, i)
  {
    var p :- Broadcast(a, b);
    Ok(Add(p.0, p.1))
  }

  /** `a - b` with broadcasting. */
  function SubB(a: Vec, b: Vec): (r: Result<Vec>)
    ensures r.Ok? <==> Broadcastable(a, b)
    ensures r.Err? ==> r.error == ValueError
    ensures r.Ok? ==> |r.value| == BroadcastLength(a, b)
    ensures r.Ok? ==> forall i :: 0 <= i < |r.value| ==> r.value[i] == At(a, i) - At(b, i)
  {
    var p :- Broadcast(a, b);
    Ok(Sub(p.0, p.1))
  }

  /** `a * b` with broadcasting. */
  function MulB(a: Vec, b: Vec): (r: Result<Vec>)
    ensures r.Ok? <==> Broadcastable(a, b)
    ensures r.Err? ==> r.error == ValueError
    ensures r.Ok? ==> |r.value| == BroadcastLength(a, b)
    ensures r.Ok? ==> forall i :: 0 <= i < |r.value| ==> r.value[i] == At(a, i) * At(b, i)
  {
    var p :- Broadcast(a, b);
    Ok(Mul(p.0, p.1))
  }

  /** `a / b` with broadcasting; a zero divisor (an infinity in numpy) is excluded. */
  function DivB(a: Vec, b: Vec): (r: Result<Vec>)
    requires NonZero(b)
    ensures r.Ok? <==> Broadcastable(a, b)
    ensures r.Err? ==> r.error == ValueError
    ensures r.Ok? ==> |r.value| == BroadcastLength(a, b)
    ensures r.Ok? ==> forall i :: 0 <= i < |r.value| ==> r.value[i] == At(a, i) / At(b, i)
  {
    var p :- Broadcast(a, b);
    Ok(Div(p.0, p.1))
  }

  /** `np.min([a, b], axis=0)`. */
  function CompMin(a: Vec, b: Vec): (r: Vec)
    requires |a| == |b|
    ensures |r| == |a|
    ensures forall i :: 0 <= i < |a| ==> r[i] <= a[i] && r[i] <= b[i]
    ensures forall i :: 0 <= i < |a| ==> r[i] == a[i] || r[i] == b[i]
  {
    seq(|a|, i requires 0 <= i < |a| => if a[i] <= b[i] then a[i] else b[i])
  }

  /** `np.max([a, b], axis=0)`. */
  function CompMax(a: Vec, b: Vec): (r: Vec)
    requires |a| == |b|
    ensures |r| == |a|
    ensures forall i :: 0 <= i < |a| ==> r[i] >= a[i] && r[i] >= b[i]
    ensures forall i :: 0 <= i < |a| ==> r[i] == a[i] || r[i] == b[i]
  {
    seq(|a|, i requires 0 <= i < |a| => if a[i] >= b[i] then a[i] else b[i])
  }

  /** `np.any(v != c)`. */
  predicate AnyNotEqual(v: Vec, c: real) {
    exists i :: 0 <= i < |v| && v[i] != c
  }

  /** `np.prod(v)`; the empty product is 1. */
  function Product(v: Vec): real
    decreases |v|
  {
    if |v| == 0 then 1.0 else v[0] * Product(v[1..])
  }

  predicate SameLengths(vs: seq<Vec>, n: nat) {
    forall k :: 0 <= k < |vs| ==> |vs[k]| == n
  }

  /** The component-wise minimum of a non-empty list of equal-length vectors,
      folded left to right as repeated `np.min([acc, v], axis=0)`. */
  function MinAll(vs: seq<Vec>): (r: Vec)
    requires |vs| > 0 && SameLengths(vs, |vs[0]|)
    ensures |r| == |vs[0]|
    decreases |vs|
  {
    if |vs| == 1 then vs[0] else CompMin(MinAll(vs[..|vs| - 1]), vs[|vs| - 1])
  }

  /** The component-wise maximum, folded the same way. */
  function MaxAll(vs: seq<Vec>): (r: Vec)
    requires |vs| > 0 && SameLengths(vs, |vs[0]|)
    ensures |r| == |vs[0]|
    decreases |vs|
  {
    if |vs| == 1 then vs[0] else CompMax(MaxAll(vs[..|vs| - 1]), vs[|vs| - 1])
  }

  /** The folded minimum lies below every vector of the list. */
  lemma {:induction false} MinAllIsLower(vs: seq<Vec>, k: nat, i: nat)
    requires |vs| > 0 && SameLengths(vs, |vs[0]|)
    requires k < |vs| && i < |vs[0]|
    ensures MinAll(vs)[i] <= vs[k][i]
    decreases |vs|
  {
    if |vs| > 1 && k < |vs| - 1 {
      MinAllIsLower(vs[..|vs| - 1], k, i);
    }
  }

  /** Every component of the folded minimum is taken from one of the vectors. */
  lemma {:induction false} MinAllAttained(vs: seq<Vec>, i: nat) returns (k: nat)
    requires |vs| > 0 && SameLengths(vs, |vs[0]|)
    requires i < |vs[0]|
    ensures k < |vs| && MinAll(vs)[i] == vs[k][i]
    decreases |vs|
  {
    if |vs| == 1 {
      k := 0;
    } else if MinAll(vs)[i] == vs[|vs| - 1][i] {
      k := |vs| - 1;
    } else {
      k := MinAllAttained(vs[..|vs| - 1], i);
    }
  }

  /** The folded maximum lies above every vector of the list. */
  lemma {:induction false} MaxAllIsUpper(vs: seq<Vec>, k: nat, i: nat)
    requires |vs| > 0 && SameLengths(vs, |vs[0]|)
    requires k < |vs| && i < |vs[0]|
    ensures MaxAll(vs)[i] >= vs[k][i]
    decreases |vs|
  {
    if |vs| > 1 && k < |vs| - 1 {
      MaxAllIsUpper(vs[..|vs| - 1], k, i);
    }
  }

  /** Every component of the folded maximum is taken from one of the vectors. */
  lemma {:induction false} MaxAllAttained(vs: seq<Vec>, i: nat) returns (k: nat)
    requires |vs| > 0 && SameLengths(vs, |vs[0]|)
    requires i < |vs[0]|
    ensures k < |vs| && MaxAll(vs)[i] == vs[k][i]
    decreases |vs|
  {
    if |vs| == 1 {
      k := 0;
    } else if MaxAll(vs)[i] == vs[|vs| - 1][i] {
      k := |vs| - 1;
    } else {
      k := MaxAllAttained(vs[..|vs| - 1], i);
    }
  }

  /** A length unit: its name and how many base lengths one of it is. */
  datatype Unit = Unit(name: string, factor: real)

  predicate ValidUnit(u: Unit) {
    u.factor > 0.0
  }

  /** The numbers that express the physical vector `v` (in base lengths) in unit `u`. */
  function InUnit(v: Vec, u: Unit): (r: Vec)
    requires ValidUnit(u)
    ensures |r| == |v|
  {
    seq(|v|, i requires 0 <= i < |v| => v[i] / u.factor)
  }

  /** The physical vector (in base lengths) that numbers `v` in unit `u` denote. */
  function Physical(v: Vec, u: Unit): (r: Vec)
    ensures |r| == |v|
  {
    seq(|v|, i requires 0 <= i < |v| => v[i] * u.factor)
  }

  /** `unyt_array.to(u)`: numbers in unit `from` re-expressed in unit `to`. */
  function Convert(v: Vec, from: Unit, to: Unit): (r: Vec)
    requires ValidUnit(to)
    ensures |r| == |v|
  {
    InUnit(Physical(v, from), to)
  }

  /** Expressing a physical vector in a unit and reading it back is the identity. */
  lemma PhysicalInUnit(v: Vec, u: Unit)
    requires ValidUnit(u)
    ensures Physical(InUnit(v, u), u) == v
  {
    forall i | 0 <= i < |v| ensures Physical(InUnit(v, u), u)[i] == v[i] {
      assert v[i] / u.factor * u.factor == v[i];
    }
  }

  /** A conversion keeps the physical value of the vector. */
  lemma ConvertKeepsPhysical(v: Vec, from: Unit, to: Unit)
    requires ValidUnit(to)
    ensures Physical(Convert(v, from, to), to) == Physical(v, from)
  {
    PhysicalInUnit(Physical(v, from), to);
  }

  /** Converting to the unit a vector is already in changes nothing. */
  lemma ConvertSameUnit(v: Vec, u: Unit)
    requires ValidUnit(u)
    ensures Convert(v, u, u) == v
  {
    forall i | 0 <= i < |v| ensures Convert(v, u, u)[i] == v[i] {
      assert v[i] * u.factor / u.factor == v[i];
    }
  }

  /** Because a unit's factor is positive, the minimum can be taken in any unit. */
  lemma PhysicalCompMin(a: Vec, b: Vec, u: Unit)
    requires ValidUnit(u) && |a| == |b|
    ensures Physical(CompMin(a, b), u) == CompMin(Physical(a, u), Physical(b, u))
  {
    forall i | 0 <= i < |a|
      ensures Physical(CompMin(a, b), u)[i] == CompMin(Physical(a, u), Physical(b, u))[i]
    {
      if a[i] <= b[i] {
        assert a[i] * u.factor <= b[i] * u.factor;
      } else {
        assert a[i] * u.factor > b[i] * u.factor;
      }
    }
  }

  /** Because a unit's factor is positive, the maximum can be taken in any unit. */
  lemma PhysicalCompMax(a: Vec, b: Vec, u: Unit)
    requires ValidUnit(u) && |a| == |b|
    ensures Physical(CompMax(a, b), u) == CompMax(Physical(a, u), Physical(b, u))
  {
    forall i | 0 <= i < |a|
      ensures Physical(CompMax(a, b), u)[i] == CompMax(Physical(a, u), Physical(b, u))[i]
    {
      if a[i] >= b[i] {
        assert a[i] * u.factor >= b[i] * u.factor;
      } else {
        assert a[i] * u.factor < b[i] * u.factor;
      }
    }
  }
}
