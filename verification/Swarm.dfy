/** Headings of a swarm: alignment, noise and the order parameter, in real arithmetic.  The square root is any
    function whose value is not negative and has the right square; random samples are arbitrary. */
module Swarm {

  const TINY: real := 0.000000000001

  type Vector = seq<real>

  ghost predicate IsRoot(sqrt: real -> real) {
    forall x: real :: x >= 0.0 ==> sqrt(x) >= 0.0 && sqrt(x) * sqrt(x) == x
  }

  // ---------------------------------------------------------------- inner products

  function Dot(a: Vector, b: Vector): real
    requires |a| == |b|
  {
    if a == [] then 0.0 else a[0] * b[0] + Dot(a[1..], b[1..])
  }

  function Sum(a: Vector, b: Vector): (r: Vector)
    requires |a| == |b|
    ensures |r| == |a|
  {
    if a == [] then [] else [a[0] + b[0]] + Sum(a[1..], b[1..])
  }

  function Scale(c: real, a: Vector): (r: Vector)
    ensures |r| == |a|
  {
    if a == [] then [] else [c * a[0]] + Scale(c, a[1..])
  }

  function Zero(n: nat): (r: Vector)
    ensures |r| == n
  {
    if n == 0 then [] else [0.0] + Zero(n - 1)
  }

  lemma {:induction false} DotSymmetric(a: Vector, b: Vector)
    requires |a| == |b|
    ensures Dot(a, b) == Dot(b, a)
  {
    if a != [] {
      DotSymmetric(a[1..], b[1..]);
    }
  }

  lemma {:induction false} DotSelf(a: Vector)
    ensures Dot(a, a) >= 0.0
  {
    if a != [] {
      DotSelf(a[1..]);
      Square(a[0]);
    }
  }

  lemma Square(x: real)
    ensures x * x >= 0.0
  {
  }

  lemma {:induction false} DotSum(a: Vector, b: Vector, c: Vector)
    requires |a| == |b| == |c|
    ensures Dot(Sum(a, b), c) == Dot(a, c) + Dot(b, c)
  {
    if a != [] {
      DotSum(a[1..], b[1..], c[1..]);
      assert (a[0] + b[0]) * c[0] == a[0] * c[0] + b[0] * c[0];
    }
  }

  lemma {:induction false} DotScale(k: real, a: Vector, b: Vector)
    requires |a| == |b|
    ensures Dot(Scale(k, a), b) == k * Dot(a, b)
  {
    if a != [] {
      DotScale(k, a[1..], b[1..]);
      var x, y, d := a[0], b[0], Dot(a[1..], b[1..]);
      assert (k * x) * y == k * (x * y);
      assert k * (x * y) + k * d == k * (x * y + d);
    }
  }

  lemma DotOfSum(a: Vector, b: Vector)
    requires |a| == |b|
    ensures Dot(Sum(a, b), Sum(a, b)) == Dot(a, a) + 2.0 * Dot(a, b) + Dot(b, b)
  {
    var c := Sum(a, b);
    DotSum(a, b, c);
    DotSymmetric(a, c);
    DotSymmetric(b, c);
    DotSum(a, b, a);
    DotSum(a, b, b);
    DotSymmetric(a, b);
  }

  lemma ScaledRight(t: real, a: Vector, b: Vector, ab: real)
    requires |a| == |b| && ab == Dot(a, b)
    ensures Dot(a, Scale(t, b)) == t * ab
  {
    DotSymmetric(a, Scale(t, b));
    DotScale(t, b, a);
    DotSymmetric(a, b);
  }

  lemma ScaledBoth(t: real, b: Vector, bb: real)
    requires bb == Dot(b, b)
    ensures Dot(Scale(t, b), Scale(t, b)) == t * (t * bb)
  {
    ScaledRight(t, b, b, bb);
    DotScale(t, b, Scale(t, b));
  }

  /** The squared length of a + t b. */
  lemma DotCombined(a: Vector, t: real, b: Vector, aa: real, ab: real, bb: real)
    requires |a| == |b| && aa == Dot(a, a) && ab == Dot(a, b) && bb == Dot(b, b)
    ensures var c := Sum(a, Scale(t, b));
      Dot(c, c) == aa + 2.0 * (t * ab) + t * (t * bb)
  {
    DotOfSum(a, Scale(t, b));
    ScaledRight(t, a, b, ab);
    ScaledBoth(t, b, bb);
  }

  lemma PositiveSquare(x: real)
    requires x != 0.0
    ensures x * x > 0.0
  {
    if x < 0.0 {
      var y := 0.0 - x;
      assert y * y > 0.0;
      assert x * x == y * y + x * (x + y) - y * (x + y);
    }
  }

  lemma {:induction false} DotNull(a: Vector, b: Vector)
    requires |a| == |b| && Dot(b, b) == 0.0
    ensures Dot(a, b) == 0.0
  {
    if a != [] {
      DotSelf(b[1..]);
      Square(b[0]);
      if b[0] != 0.0 {
        PositiveSquare(b[0]);
      }
      DotNull(a[1..], b[1..]);
    }
  }

  lemma QuadraticNonnegative(a: Vector, b: Vector, t: real, aa: real, ab: real, bb: real)
    requires |a| == |b| && aa == Dot(a, a) && ab == Dot(a, b) && bb == Dot(b, b)
    ensures aa + 2.0 * (t * ab) + t * (t * bb) >= 0.0
  {
    DotCombined(a, t, b, aa, ab, bb);
    DotSelf(Sum(a, Scale(t, b)));
  }

  lemma CauchySchwarz(a: Vector, b: Vector)
    requires |a| == |b|
    ensures Dot(a, b) * Dot(a, b) <= Dot(a, a) * Dot(b, b)
  {
    var aa, ab, bb := Dot(a, a), Dot(a, b), Dot(b, b);
    DotSelf(b);
    if bb == 0.0 {
      DotNull(a, b);
      assert ab * ab == 0.0 && aa * bb == 0.0;
    } else {
      var t := Quotient(0.0 - ab, bb);
      QuadraticNonnegative(a, b, t, aa, ab, bb);
      Discriminant(aa, ab, bb, t);
    }
  }

  lemma Quotient(x: real, y: real) returns (t: real)
    requires y != 0.0
    ensures t * y == x
  {
    t := x / y;
  }

  lemma Discriminant(aa: real, ab: real, bb: real, t: real)
    requires bb > 0.0 && t * bb == 0.0 - ab && aa + 2.0 * (t * ab) + t * (t * bb) >= 0.0
    ensures ab * ab <= aa * bb
  {
    assert t * (t * bb) == -(t * ab);
    var rest := aa + t * ab;
    assert rest >= 0.0;
    Distribute(aa, t, ab, bb);
    assert rest * bb >= 0.0;
  }

  lemma Distribute(aa: real, t: real, ab: real, bb: real)
    ensures (aa + t * ab) * bb == aa * bb + (t * bb) * ab
  {
  }

  // ---------------------------------------------------------------- norms

  function Norm(sqrt: real -> real, v: Vector): real {
    sqrt(Dot(v, v))
  }

  lemma NormSquare(sqrt: real -> real, v: Vector)
    requires IsRoot(sqrt)
    ensures Norm(sqrt, v) >= 0.0 && Norm(sqrt, v) * Norm(sqrt, v) == Dot(v, v)
  {
    DotSelf(v);
  }

  lemma NormIsRoot(sqrt: real -> real, v: Vector)
    requires IsRoot(sqrt)
    ensures Root(Norm(sqrt, v), Dot(v, v))
  {
    DotSelf(v);
  }

  lemma SquareGrows(x: real, y: real)
    requires x > y >= 0.0
    ensures x * x > y * y
  {
    var gap := x - y;
    assert x * x == y * y + 2.0 * (y * gap) + gap * gap;
  }

  lemma SquareOrder(x: real, y: real)
    requires y >= 0.0 && x * x <= y * y
    ensures x <= y
  {
    if x > y {
      SquareGrows(x, y);
    }
  }

  lemma ProductSquare(x: real, y: real)
    ensures (x * y) * (x * y) == (x * x) * (y * y)
  {
  }

  lemma RootOfProduct(x: real, y: real, ab: real, xx: real, yy: real)
    requires x >= 0.0 && y >= 0.0 && xx == x * x && yy == y * y && ab * ab <= xx * yy
    ensures ab <= x * y
  {
    ProductSquare(x, y);
    assert x * y >= 0.0;
    SquareOrder(ab, x * y);
  }

  /** x is the length whose square is xx. */
  predicate Root(x: real, xx: real) {
    x >= 0.0 && x * x == xx
  }

  lemma DotBoundFor(a: Vector, b: Vector, x: real, y: real)
    requires |a| == |b| && Root(x, Dot(a, a)) && Root(y, Dot(b, b))
    ensures Dot(a, b) <= x * y
  {
    var aa, ab, bb := Dot(a, a), Dot(a, b), Dot(b, b);
    assert x * x == aa && y * y == bb;
    assert ab * ab <= aa * bb by {
      CauchySchwarz(a, b);
    }
    RootOfProduct(x, y, ab, aa, bb);
  }

  lemma DotAboveFor(a: Vector, b: Vector, x: real, y: real)
    requires |a| == |b| && Root(x, Dot(a, a)) && Root(y, Dot(b, b))
    ensures Dot(a, b) >= 0.0 - x * y
  {
    var aa, ab, bb := Dot(a, a), Dot(a, b), Dot(b, b);
    CauchySchwarz(a, b);
    var negated := 0.0 - ab;
    assert negated * negated == ab * ab;
    RootOfProduct(x, y, negated, aa, bb);
  }

  lemma TriangleFor(a: Vector, b: Vector, x: real, y: real, z: real)
    requires |a| == |b| && Root(x, Dot(a, a)) && Root(y, Dot(b, b)) && Root(z, Dot(Sum(a, b), Sum(a, b)))
    ensures z <= x + y
  {
    var aa, ab, bb, cc := Dot(a, a), Dot(a, b), Dot(b, b), Dot(Sum(a, b), Sum(a, b));
    DotBoundFor(a, b, x, y);
    DotOfSum(a, b);
    RootOfSum(x, y, z, ab, aa, bb, cc);
  }

  lemma RootOfSum(x: real, y: real, z: real, ab: real, xx: real, yy: real, zz: real)
    requires x >= 0.0 && y >= 0.0 && xx == x * x && yy == y * y && zz == z * z
    requires zz == xx + 2.0 * ab + yy && ab <= x * y
    ensures z <= x + y
  {
    assert (x + y) * (x + y) == x * x + 2.0 * (x * y) + y * y;
    SquareOrder(z, x + y);
  }

  lemma Triangle(sqrt: real -> real, a: Vector, b: Vector)
    requires IsRoot(sqrt) && |a| == |b|
    ensures Norm(sqrt, Sum(a, b)) <= Norm(sqrt, a) + Norm(sqrt, b)
  {
    NormIsRoot(sqrt, a);
    NormIsRoot(sqrt, b);
    NormIsRoot(sqrt, Sum(a, b));
    TriangleFor(a, b, Norm(sqrt, a), Norm(sqrt, b), Norm(sqrt, Sum(a, b)));
  }

  lemma SameSquare(x: real, y: real)
    requires x >= 0.0 && y >= 0.0 && x * x == y * y
    ensures x == y
  {
    SquareOrder(x, y);
    SquareOrder(y, x);
  }

  lemma NormScale(sqrt: real -> real, c: real, v: Vector)
    requires IsRoot(sqrt) && c >= 0.0
    ensures Norm(sqrt, Scale(c, v)) == c * Norm(sqrt, v)
  {
    var n := Norm(sqrt, v);
    NormSquare(sqrt, v);
    NormSquare(sqrt, Scale(c, v));
    ScaledBoth(c, v, n * n);
    ProductSquare(c, n);
    assert (c * c) * (n * n) == c * (c * (n * n));
    assert c * n >= 0.0;
    SameSquare(Norm(sqrt, Scale(c, v)), c * n);
  }

  lemma {:induction false} DotZero(n: nat)
    ensures Dot(Zero(n), Zero(n)) == 0.0
  {
    if n > 0 {
      DotZero(n - 1);
    }
  }

  lemma NormZero(sqrt: real -> real, n: nat)
    requires IsRoot(sqrt)
    ensures Norm(sqrt, Zero(n)) == 0.0
  {
    DotZero(n);
    NormSquare(sqrt, Zero(n));
    SameSquare(Norm(sqrt, Zero(n)), 0.0);
  }

  // ---------------------------------------------------------------- vector loops

  lemma {:induction false} ScaleAt(c: real, a: Vector, k: nat)
    requires k < |a|
    ensures Scale(c, a)[k] == c * a[k]
  {
    if k > 0 {
      ScaleAt(c, a[1..], k - 1);
    }
  }

  lemma {:induction false} SumAt(a: Vector, b: Vector, k: nat)
    requires k < |a| == |b|
    ensures Sum(a, b)[k] == a[k] + b[k]
  {
    if k > 0 {
      SumAt(a[1..], b[1..], k - 1);
    }
  }

  lemma {:induction false} DotSplit(a: Vector, b: Vector, i: nat)
    requires |a| == |b| && i < |a|
    ensures Dot(a[..i + 1], b[..i + 1]) == Dot(a[..i], b[..i]) + a[i] * b[i]
  {
    if i > 0 {
      DotSplit(a[1..], b[1..], i - 1);
      assert a[..i + 1][1..] == a[1..][..i] && b[..i + 1][1..] == b[1..][..i];
      assert a[..i][1..] == a[1..][..i - 1] && b[..i][1..] == b[1..][..i - 1];
    }
  }

  method DotProduct(a: Vector, b: Vector) returns (s: real)
    requires |a| == |b|
    ensures s == Dot(a, b)
  {
    s := 0.0;
    for i := 0 to |a|
      invariant s == Dot(a[..i], b[..i])
    {
      DotSplit(a, b, i);
      s := s + a[i] * b[i];
    }
    assert a[..|a|] == a && b[..|a|] == b;
  }

  method AddVectors(a: Vector, b: Vector) returns (r: Vector)
    requires |a| == |b|
    ensures r == Sum(a, b)
  {
    r := [];
    for i := 0 to |a|
      invariant r == Sum(a, b)[..i]
    {
      SumAt(a, b, i);
      r := r + [a[i] + b[i]];
    }
  }

  lemma Cancel(c: real, k: real, x: real)
    requires c * k == 1.0
    ensures c * (k * x) == x
  {
    var one := c * k;
    assert c * (k * x) == one * x;
  }

  lemma ScaleTwice(c: real, k: real, a: Vector)
    requires c * k == 1.0
    ensures Scale(c, Scale(k, a)) == a
  {
    forall i | 0 <= i < |a| ensures Scale(c, Scale(k, a))[i] == a[i] {
      ScaleAt(c, Scale(k, a), i);
      ScaleAt(k, a, i);
      Cancel(c, k, a[i]);
    }
  }

  function Normalized(sqrt: real -> real, v: Vector): (u: Vector)
    ensures |u| == |v|
  {
    var n := Norm(sqrt, v);
    if n > TINY && n != 0.0 then Scale(1.0 / n, v) else v
  }

  /** Of length one, or tiny. */
  predicate Direction(sqrt: real -> real, v: Vector) {
    Norm(sqrt, v) == 1.0 || Norm(sqrt, v) <= TINY
  }

  /** The result is no longer than one in any case. */
  lemma NormalizedShort(sqrt: real -> real, v: Vector)
    requires IsRoot(sqrt)
    ensures var n, u := Norm(sqrt, v), Normalized(sqrt, v);
      && Norm(sqrt, u) <= 1.0 && Direction(sqrt, u)
      && if n > TINY then Norm(sqrt, u) == 1.0 && v == Scale(n, u) else u == v
  {
    var n := Norm(sqrt, v);
    if n > TINY {
      NormScale(sqrt, 1.0 / n, v);
      ScaleTwice(n, 1.0 / n, v);
    }
  }

  /** Divides a vector by its length unless that is tiny: the result is no longer than one in any case. */
  method Normalize(sqrt: real -> real, v: Vector) returns (u: Vector)
    requires IsRoot(sqrt)
    ensures |u| == |v| && Norm(sqrt, u) <= 1.0 && Direction(sqrt, u) && u == Normalized(sqrt, v)
    ensures var n := Norm(sqrt, v);
      if n > TINY then Norm(sqrt, u) == 1.0 && v == Scale(n, u) else u == v
  {
    var d := DotProduct(v, v);
    var n := sqrt(d);
    NormalizedShort(sqrt, v);
    if n <= TINY {
      return v;
    }
    u := [];
    var k := 1.0 / n;
    for i := 0 to |v|
      invariant u == Scale(k, v)[..i]
    {
      ScaleAt(k, v, i);
      assert v[i] / n == k * v[i];
      u := u + [v[i] / n];
    }
    assert u == Scale(k, v) == Normalized(sqrt, v);
  }

  lemma PositiveProduct(x: real, p: real)
    requires x > 0.0 && p > 0.0
    ensures x * p > 0.0
  {
  }

  lemma Ratio(ab: real, p: real)
    requires p > 0.0 && 0.0 - p <= ab <= p
    ensures -1.0 <= ab / p <= 1.0
  {
    var q := ab / p;
    assert q * p == ab;
    if q > 1.0 {
      PositiveProduct(q - 1.0, p);
    } else if q < -1.0 {
      PositiveProduct(-1.0 - q, p);
    }
  }

  lemma Share(n: real, count: real)
    requires 0.0 <= n <= count && count > 0.0
    ensures 0.0 <= n / count <= 1.0
  {
    Ratio(n, count);
    var q := n / count;
    if q < 0.0 {
      PositiveProduct(0.0 - q, count);
    }
  }

  lemma CosineRange(a: Vector, b: Vector, x: real, y: real)
    requires |a| == |b| && Root(x, Dot(a, a)) && Root(y, Dot(b, b)) && x > 0.0 && y > 0.0
    ensures x * y > 0.0 && -1.0 <= Dot(a, b) / (x * y) <= 1.0
  {
    DotBoundFor(a, b, x, y);
    DotAboveFor(a, b, x, y);
    var p := x * y;
    assert p > 0.0;
    Ratio(Dot(a, b), p);
  }

  method VectorNorm(sqrt: real -> real, v: Vector) returns (n: real)
    requires IsRoot(sqrt)
    ensures n == Norm(sqrt, v) && Root(n, Dot(v, v))
  {
    var d := DotProduct(v, v);
    NormIsRoot(sqrt, v);
    n := sqrt(d);
  }

  function Distance(sqrt: real -> real, a: Vector, b: Vector): real
    requires |a| == |b|
  {
    var x, y := Norm(sqrt, a), Norm(sqrt, b);
    if x < TINY || y < TINY || x * y == 0.0 then 1.0 else 1.0 - Dot(a, b) / (x * y)
  }

  /** One less the cosine, or one if a vector is tiny: between zero and two. */
  method CosineDistance(sqrt: real -> real, a: Vector, b: Vector) returns (d: real)
    requires IsRoot(sqrt) && |a| == |b|
    ensures 0.0 <= d <= 2.0 && d == Distance(sqrt, a, b)
  {
    var ab := DotProduct(a, b);
    var na := VectorNorm(sqrt, a);
    var nb := VectorNorm(sqrt, b);
    if na < TINY || nb < TINY {
      return 1.0;
    }
    CosineRange(a, b, na, nb);
    d := 1.0 - ab / (na * nb);
  }

  // ---------------------------------------------------------------- the field

  datatype Turn = Aligns | Shakes | Recruits

  /** Headings of a population; members of a cluster are references that may be out of range or repeated. */
  class SwarmField {
    const sqrt: real -> real
    const sample: (nat, nat) -> real
    const dim: nat
    const radius: real
    var headings: seq<Vector>
    var dormant: seq<bool>
    var draws: nat

    ghost predicate Valid()
      reads this
    {
      && IsRoot(sqrt) && |dormant| == |headings|
      && forall i | 0 <= i < |headings| :: |headings[i]| == dim && Norm(sqrt, headings[i]) <= 1.0
    }

    predicate Active(ref: nat)
      reads this
      requires |dormant| == |headings|
    {
      ref < |headings| && !dormant[ref]
    }

    /** The random vector drawn as number n. */
    function SampleAt(n: nat): (v: Vector)
      ensures |v| == dim
    {
      seq(dim, i requires 0 <= i < dim => sample(n, i))
    }

    method Sample() returns (v: Vector)
      modifies `draws
      ensures v == SampleAt(old(draws)) && draws == old(draws) + 1
    {
      v := SampleAt(draws);
      draws := draws + 1;
    }

    method RandomUnit() returns (v: Vector)
      requires IsRoot(sqrt)
      modifies `draws
      ensures |v| == dim && Norm(sqrt, v) <= 1.0 && Direction(sqrt, v)
      ensures v == Normalized(sqrt, SampleAt(old(draws))) && draws == old(draws) + 1
    {
      v := Sample();
      v := Normalize(sqrt, v);
    }

    constructor (sqrt: real -> real, sample: (nat, nat) -> real, population: nat, dim: nat, radius: real)
      requires IsRoot(sqrt)
      ensures Valid() && |headings| == population && (forall i | 0 <= i < population :: dormant[i])
      ensures this.sqrt == sqrt && this.dim == dim
    {
      this.sqrt, this.sample, this.dim, this.radius := sqrt, sample, dim, radius;
      headings, draws := [], 0;
      dormant := seq(population, _ => true);
      new;
      for i := 0 to population
        invariant |dormant| == population && forall k | 0 <= k < population :: dormant[k]
        invariant |headings| == i && forall k | 0 <= k < i :: |headings[k]| == dim && Norm(sqrt, headings[k]) <= 1.0
      {
        var v := RandomUnit();
        headings := headings + [v];
      }
    }

    /** The headings of the active members within the radius of a heading. */
    ghost function Near(all: seq<Vector>, asleep: seq<bool>, heading: Vector, members: seq<nat>): (h: seq<Vector>)
      requires Shaped(all, asleep) && |heading| == dim
      ensures forall i | 0 <= i < |h| :: |h[i]| == dim
    {
      if members == [] then []
      else
        var m := |members| - 1;
        Near(all, asleep, heading, members[..m])
        + if IsNear(all, asleep, heading, members[m]) then [all[members[m]]] else []
    }

    ghost predicate Shaped(all: seq<Vector>, asleep: seq<bool>) {
      |asleep| == |all| && forall i | 0 <= i < |all| :: |all[i]| == dim
    }

    ghost predicate IsNear(all: seq<Vector>, asleep: seq<bool>, heading: Vector, ref: nat)
      requires Shaped(all, asleep) && |heading| == dim
    {
      ref < |all| && !asleep[ref] && Distance(sqrt, heading, all[ref]) < radius
    }

    method Neighbours(heading: Vector, members: seq<nat>) returns (sum: Vector, count: nat)
      requires Valid() && |heading| == dim
      ensures var near := Near(headings, dormant, heading, members); sum == Total(dim, near) && count == |near|
    {
      sum, count := Zero(dim), 0;
      assert members[..0] == [];
      for m := 0 to |members|
        invariant var near := Near(headings, dormant, heading, members[..m]); sum == Total(dim, near) && count == |near|
      {
        assert members[..m + 1][..m] == members[..m];
        ghost var before := Near(headings, dormant, heading, members[..m]);
        if Active(members[m]) {
          var d := CosineDistance(sqrt, heading, headings[members[m]]);
          if d < radius {
            TotalAppend(dim, before, headings[members[m]]);
            sum := AddVectors(sum, headings[members[m]]);
            count := count + 1;
          } else {
            assert Near(headings, dormant, heading, members[..m + 1]) == before;
          }
        } else {
          assert Near(headings, dormant, heading, members[..m + 1]) == before;
        }
      }
      assert members[..|members|] == members;
    }

    /** What one turn does to one agent: an active one with a neighbour takes the direction of its neighbours'
        sum plus noise; an active one is pushed off its direction by noise; a recruit gets a random one. */
    ghost function Turned(turn: Turn, all: seq<Vector>, asleep: seq<bool>, draw: nat, ref: nat, members: seq<nat>):
        (r: (seq<Vector>, nat))
      requires Shaped(all, asleep)
      ensures Shaped(r.0, asleep)
    {
      if ref >= |all| || (asleep[ref] && !turn.Recruits?) then (all, draw)
      else
        var near := Near(all, asleep, all[ref], members);
        if turn.Aligns? && near == [] then (all, draw)
        else
          var v := match turn
            case Aligns => Sum(Total(dim, near), SampleAt(draw))
            case Shakes => Sum(all[ref], SampleAt(draw))
            case Recruits => SampleAt(draw);
          (all[ref := Normalized(sqrt, v)], draw + 1)
    }

    /** The first k members take their turns one after the other, each seeing the headings already updated. */
    ghost function AllTurned(turn: Turn, all: seq<Vector>, asleep: seq<bool>, draw: nat, members: seq<nat>, k: nat):
        (r: (seq<Vector>, nat))
      requires Shaped(all, asleep) && k <= |members|
      ensures Shaped(r.0, asleep)
    {
      if k == 0 then (all, draw)
      else
        var (before, at) := AllTurned(turn, all, asleep, draw, members, k - 1);
        Turned(turn, before, asleep, at, members[k - 1], members)
    }

    /** After the turns of the first k members everybody else, and a dormant agent that is not recruited, is as
        before; whoever was pushed or recruited has a direction. */
    lemma {:induction false} TurnsChangeMembers(turn: Turn, all: seq<Vector>, asleep: seq<bool>, draw: nat,
                                                members: seq<nat>, k: nat)
      requires IsRoot(sqrt) && Shaped(all, asleep) && k <= |members|
      ensures var h := AllTurned(turn, all, asleep, draw, members, k).0;
        && |h| == |all|
        && (forall i: nat | i < |h| && (i !in members[..k] || (asleep[i] && !turn.Recruits?)) :: h[i] == all[i])
        && (forall i: nat | i < |h| && i in members[..k] && (!asleep[i] || turn.Recruits?) ::
              turn.Aligns? || Direction(sqrt, h[i]))
    {
      if k > 0 {
        TurnsChangeMembers(turn, all, asleep, draw, members, k - 1);
        var (before, at) := AllTurned(turn, all, asleep, draw, members, k - 1);
        TurnChangesOne(turn, before, asleep, at, members[k - 1], members);
        assert members[..k] == members[..k - 1] + [members[k - 1]];
      }
    }

    lemma TurnChangesOne(turn: Turn, all: seq<Vector>, asleep: seq<bool>, draw: nat, ref: nat, members: seq<nat>)
      requires IsRoot(sqrt) && Shaped(all, asleep)
      ensures var h := Turned(turn, all, asleep, draw, ref, members).0;
        && |h| == |all| && (forall i: nat | i < |h| && i != ref :: h[i] == all[i])
        && (ref < |h| ==>
              if asleep[ref] && !turn.Recruits? then h[ref] == all[ref] else turn.Aligns? || Direction(sqrt, h[ref]))
    {
      if ref < |all| && (!asleep[ref] || turn.Recruits?) {
        var near := Near(all, asleep, all[ref], members);
        NormalizedShort(sqrt, Sum(Total(dim, near), SampleAt(draw)));
        NormalizedShort(sqrt, Sum(all[ref], SampleAt(draw)));
        NormalizedShort(sqrt, SampleAt(draw));
      }
    }

    /** Only the agent whose turn it is changes, and it then has a direction. */
    ghost predicate OnlyTurned(before: seq<Vector>, ref: nat)
      reads this
    {
      && |headings| == |before|
      && forall i | 0 <= i < |before| :: headings[i] == before[i] || (i == ref && Direction(sqrt, headings[i]))
    }

    /** Takes the direction of a vector with noise added to it. */
    method TurnTo(ref: nat, toward: Vector)
      requires Valid() && ref < |headings| && |toward| == dim
      modifies `headings, `draws
      ensures Valid() && OnlyTurned(old(headings), ref) && Direction(sqrt, headings[ref])
      ensures headings == old(headings)[ref := Normalized(sqrt, Sum(toward, SampleAt(old(draws))))]
      ensures draws == old(draws) + 1
    {
      var noise := Sample();
      var v := AddVectors(toward, noise);
      v := Normalize(sqrt, v);
      headings := headings[ref := v];
    }

    method AlignOne(ref: nat, members: seq<nat>)
      requires Valid()
      modifies `headings, `draws
      ensures Valid() && OnlyTurned(old(headings), ref)
      ensures (headings, draws) == Turned(Aligns, old(headings), dormant, old(draws), ref, members)
    {
      if Active(ref) {
        var sum, count := Neighbours(headings[ref], members);
        if count > 0 {
          TurnTo(ref, sum);
        }
      }
    }

    /** Aligns each member in turn; only active members change. */
    method AlignCluster(members: seq<nat>)
      requires Valid()
      modifies `headings, `draws
      ensures Valid() && (headings, draws) == AllTurned(Aligns, old(headings), dormant, old(draws), members, |members|)
      ensures |headings| == |old(headings)|
      ensures forall i | 0 <= i < |headings| && (i !in members || dormant[i]) :: headings[i] == old(headings)[i]
    {
      for m := 0 to |members|
        invariant Valid() && (headings, draws) == AllTurned(Aligns, old(headings), dormant, old(draws), members, m)
      {
        AlignOne(members[m], members);
      }
      TurnsChangeMembers(Aligns, old(headings), dormant, old(draws), members, |members|);
      assert members[..|members|] == members;
    }

    method ShakeOne(ref: nat, ghost members: seq<nat>)
      requires Valid()
      modifies `headings, `draws
      ensures Valid() && OnlyTurned(old(headings), ref) && (Active(ref) ==> Direction(sqrt, headings[ref]))
      ensures (headings, draws) == Turned(Shakes, old(headings), dormant, old(draws), ref, members)
    {
      if Active(ref) {
        TurnTo(ref, headings[ref]);
      }
    }

    /** Every active member gets a direction again after the burst of noise. */
    method InjectNoise(members: seq<nat>)
      requires Valid()
      modifies `headings, `draws
      ensures Valid() && (headings, draws) == AllTurned(Shakes, old(headings), dormant, old(draws), members, |members|)
      ensures |headings| == |old(headings)|
      ensures forall i | 0 <= i < |headings| && (i !in members || dormant[i]) :: headings[i] == old(headings)[i]
      ensures forall i | 0 <= i < |headings| && i in members && !dormant[i] :: Direction(sqrt, headings[i])
    {
      for m := 0 to |members|
        invariant Valid() && (headings, draws) == AllTurned(Shakes, old(headings), dormant, old(draws), members, m)
      {
        ShakeOne(members[m], members);
      }
      TurnsChangeMembers(Shakes, old(headings), dormant, old(draws), members, |members|);
      assert members[..|members|] == members;
    }

    predicate Recruited(ref: nat)
      reads this
    {
      ref < |headings| ==> Direction(sqrt, headings[ref])
    }

    method RecruitOne(ref: nat, ghost refs: seq<nat>)
      requires Valid()
      modifies `headings, `draws
      ensures Valid() && OnlyTurned(old(headings), ref) && Recruited(ref)
      ensures (headings, draws) == Turned(Recruits, old(headings), dormant, old(draws), ref, refs)
    {
      if ref < |headings| {
        var v := RandomUnit();
        headings := headings[ref := v];
      }
    }

    /** Recruits get a random direction, dormant or not. */
    method Randomize(refs: seq<nat>)
      requires Valid()
      modifies `headings, `draws
      ensures Valid() && (headings, draws) == AllTurned(Recruits, old(headings), dormant, old(draws), refs, |refs|)
      ensures |headings| == |old(headings)|
      ensures forall i | 0 <= i < |headings| && i !in refs :: headings[i] == old(headings)[i]
      ensures forall ref <- refs :: Recruited(ref)
    {
      for m := 0 to |refs|
        invariant Valid() && (headings, draws) == AllTurned(Recruits, old(headings), dormant, old(draws), refs, m)
      {
        RecruitOne(refs[m], refs);
      }
      TurnsChangeMembers(Recruits, old(headings), dormant, old(draws), refs, |refs|);
      assert refs[..|refs|] == refs;
    }

    method SetDormant(i: nat, value: bool)
      requires Valid()
      modifies `dormant
      ensures Valid() && dormant == if i < |old(dormant)| then old(dormant)[i := value] else old(dormant)
    {
      if i < |dormant| {
        dormant := dormant[i := value];
      }
    }

    method SumActive(members: seq<nat>) returns (sum: Vector, count: nat)
      requires Valid()
      ensures count == |ActiveHeadings(members)| && sum == Total(dim, ActiveHeadings(members))
    {
      sum, count := Zero(dim), 0;
      assert members[..0] == [];
      for m := 0 to |members|
        invariant count == |ActiveHeadings(members[..m])| && sum == Total(dim, ActiveHeadings(members[..m]))
      {
        assert members[..m + 1][..m] == members[..m];
        if Active(members[m]) {
          TotalAppend(dim, ActiveHeadings(members[..m]), headings[members[m]]);
          sum := AddVectors(sum, headings[members[m]]);
          count := count + 1;
        } else {
          assert ActiveHeadings(members[..m + 1]) == ActiveHeadings(members[..m]);
        }
      }
      assert members[..|members|] == members;
    }

    /** The length of the active members' heading sum over their number: between zero and one. */
    method OrderParameter(members: seq<nat>) returns (phi: real)
      requires Valid()
      ensures 0.0 <= phi <= 1.0
      ensures var h := ActiveHeadings(members);
        phi == if h == [] then 0.0 else Norm(sqrt, Total(dim, h)) / |h| as real
    {
      var sum, count := SumActive(members);
      if count == 0 {
        return 0.0;
      }
      var n := VectorNorm(sqrt, sum);
      TotalBound(sqrt, dim, ActiveHeadings(members));
      Share(n, count as real);
      phi := n / count as real;
    }

    ghost function ActiveHeadings(members: seq<nat>): (h: seq<Vector>)
      requires Valid()
      reads this
      ensures forall i | 0 <= i < |h| :: |h[i]| == dim && Norm(sqrt, h[i]) <= 1.0
    {
      if members == [] then []
      else
        var m := |members| - 1;
        ActiveHeadings(members[..m]) + if Active(members[m]) then [headings[members[m]]] else []
    }
  }

  ghost function Total(dim: nat, h: seq<Vector>): (r: Vector)
    requires forall i | 0 <= i < |h| :: |h[i]| == dim
    ensures |r| == dim
  {
    if h == [] then Zero(dim) else Sum(Total(dim, h[..|h| - 1]), h[|h| - 1])
  }

  lemma TotalAppend(dim: nat, h: seq<Vector>, v: Vector)
    requires |v| == dim && forall i | 0 <= i < |h| :: |h[i]| == dim
    ensures Total(dim, h + [v]) == Sum(Total(dim, h), v)
  {
    assert (h + [v])[..|h|] == h;
  }

  /** The sum of vectors no longer than one is no longer than their number. */
  lemma {:induction false} TotalBound(sqrt: real -> real, dim: nat, h: seq<Vector>)
    requires IsRoot(sqrt) && forall i | 0 <= i < |h| :: |h[i]| == dim && Norm(sqrt, h[i]) <= 1.0
    ensures 0.0 <= Norm(sqrt, Total(dim, h)) <= |h| as real
  {
    NormIsRoot(sqrt, Total(dim, h));
    if h == [] {
      NormZero(sqrt, dim);
    } else {
      var m := |h| - 1;
      TotalBound(sqrt, dim, h[..m]);
      Triangle(sqrt, Total(dim, h[..m]), h[m]);
    }
  }

  // ---------------------------------------------------------------- whole runs

  datatype Step =
    | Align(members: seq<nat>)
    | Noise(members: seq<nat>)
    | Recruit(refs: seq<nat>)
    | Lifecycle(agent: nat, dormant: bool)

  /** All that changes in a field. */
  datatype Flock = Flock(headings: seq<Vector>, dormant: seq<bool>, draws: nat)

  ghost function Look(field: SwarmField): Flock
    reads field
  {
    Flock(field.headings, field.dormant, field.draws)
  }

  ghost function Took(field: SwarmField, turn: Turn, f: Flock, members: seq<nat>): (f': Flock)
    requires field.Shaped(f.headings, f.dormant)
    ensures field.Shaped(f'.headings, f'.dormant)
  {
    var (headings, draws) := field.AllTurned(turn, f.headings, f.dormant, f.draws, members, |members|);
    Flock(headings, f.dormant, draws)
  }

  ghost function AfterStep(field: SwarmField, f: Flock, step: Step): (f': Flock)
    requires field.Shaped(f.headings, f.dormant)
    ensures field.Shaped(f'.headings, f'.dormant)
  {
    match step
    case Align(members) => Took(field, Aligns, f, members)
    case Noise(members) => Took(field, Shakes, f, members)
    case Recruit(refs) => Took(field, Recruits, f, refs)
    case Lifecycle(agent, dormant) => if agent < |f.dormant| then f.(dormant := f.dormant[agent := dormant]) else f
  }

  ghost function AfterAll(field: SwarmField, f: Flock, steps: seq<Step>): (f': Flock)
    requires field.Shaped(f.headings, f.dormant)
    ensures field.Shaped(f'.headings, f'.dormant)
  {
    if steps == [] then f else AfterStep(field, AfterAll(field, f, steps[..|steps| - 1]), steps[|steps| - 1])
  }

  method Do(field: SwarmField, step: Step)
    requires field.Valid()
    modifies field
    ensures field.Valid() && Look(field) == AfterStep(field, old(Look(field)), step)
  {
    match step {
      case Align(members) => field.AlignCluster(members);
      case Noise(members) => field.InjectNoise(members);
      case Recruit(refs) => field.Randomize(refs);
      case Lifecycle(agent, dormant) => field.SetDormant(agent, dormant);
    }
  }

  /** Any run of alignment, noise, recruiting and lifecycle steps does what its steps do one after the other,
      leaves every heading no longer than one, and so gives any cluster an order parameter between zero and
      one: the length of its active members' heading sum over their number. */
  method Run(field: SwarmField, steps: seq<Step>, cluster: seq<nat>) returns (phi: real)
    requires field.Valid()
    modifies field
    ensures field.Valid() && Look(field) == AfterAll(field, old(Look(field)), steps)
    ensures 0.0 <= phi <= 1.0
    ensures var h := field.ActiveHeadings(cluster);
      phi == if h == [] then 0.0 else Norm(field.sqrt, Total(field.dim, h)) / |h| as real
  {
    for i := 0 to |steps|
      invariant field.Valid() && Look(field) == AfterAll(field, old(Look(field)), steps[..i])
    {
      Do(field, steps[i]);
      assert steps[..i + 1][..i] == steps[..i];
    }
    assert steps[..|steps|] == steps;
    phi := field.OrderParameter(cluster);
  }

  /** Full consensus: if all active headings are the same vector the order parameter is its length, so one
      for a unit vector. */
  lemma {:induction false} ConsensusTotal(sqrt: real -> real, dim: nat, h: seq<Vector>, v: Vector)
    requires IsRoot(sqrt) && |v| == dim && forall i | 0 <= i < |h| :: h[i] == v
    ensures Norm(sqrt, Total(dim, h)) == |h| as real * Norm(sqrt, v)
  {
    ConsensusScale(dim, h, v);
    NormScale(sqrt, |h| as real, v);
  }

  lemma {:induction false} ConsensusScale(dim: nat, h: seq<Vector>, v: Vector)
    requires |v| == dim && forall i | 0 <= i < |h| :: h[i] == v
    ensures Total(dim, h) == Scale(|h| as real, v)
  {
    if h == [] {
      ScaleByZero(v);
    } else {
      ConsensusScale(dim, h[..|h| - 1], v);
      ScaleOneMore((|h| - 1) as real, v);
    }
  }

  lemma {:induction false} ScaleByZero(v: Vector)
    ensures Scale(0.0, v) == Zero(|v|)
  {
    if v != [] {
      ScaleByZero(v[1..]);
    }
  }

  lemma {:induction false} ScaleOneMore(c: real, v: Vector)
    ensures Sum(Scale(c, v), v) == Scale(c + 1.0, v)
  {
    if v != [] {
      ScaleOneMore(c, v[1..]);
      assert c * v[0] + v[0] == (c + 1.0) * v[0];
    }
  }
}
