/** What distance, neighbourhood and alignment mean for headings: a heading is near itself, near headings are
    those of the members near by, and a flock in agreement stays in agreement. */
module SwarmLaws {
  import opened Swarm

  // ---------------------------------------------------------------- distance

  lemma DistanceSymmetric(sqrt: real -> real, a: Vector, b: Vector)
    requires |a| == |b|
    ensures Distance(sqrt, a, b) == Distance(sqrt, b, a)
  {
    DotSymmetric(a, b);
  }

  lemma Cosine(ab: real, p: real, q: real)
    requires p != 0.0 && ab == q * p
    ensures ab / p == q
  {
  }

  lemma DistanceIs(sqrt: real -> real, a: Vector, b: Vector, p: real, q: real)
    requires |a| == |b| && Norm(sqrt, a) >= TINY && Norm(sqrt, b) >= TINY
    requires p == Norm(sqrt, a) * Norm(sqrt, b) && Dot(a, b) == q * p
    ensures Distance(sqrt, a, b) == 1.0 - q
  {
    PositiveProduct(Norm(sqrt, a), Norm(sqrt, b));
    Cosine(Dot(a, b), p, q);
    assert Distance(sqrt, a, b) == 1.0 - Dot(a, b) / p;
  }

  lemma DotAlong(a: Vector, c: real, x: real, y: real)
    requires Dot(a, a) == x * x && y == c * x
    ensures Dot(a, Scale(c, a)) == 1.0 * (x * y)
  {
    ScaledRight(c, a, a, x * x);
    assert c * (x * x) == x * (c * x);
  }

  /** Headings of one direction are at distance zero, whatever their lengths. */
  lemma DistanceAlong(sqrt: real -> real, a: Vector, c: real)
    requires IsRoot(sqrt) && Norm(sqrt, a) >= TINY && c > 0.0 && c * Norm(sqrt, a) >= TINY
    ensures Distance(sqrt, a, Scale(c, a)) == 0.0
  {
    var x, y := Norm(sqrt, a), Norm(sqrt, Scale(c, a));
    NormSquare(sqrt, a);
    NormScale(sqrt, c, a);
    DotAlong(a, c, x, y);
    DistanceIs(sqrt, a, Scale(c, a), x * y, 1.0);
  }

  lemma NormAcross(sqrt: real -> real, a: Vector)
    requires IsRoot(sqrt)
    ensures Norm(sqrt, Scale(-1.0, a)) == Norm(sqrt, a)
  {
    ScaledBoth(-1.0, a, Dot(a, a));
    assert Dot(Scale(-1.0, a), Scale(-1.0, a)) == Dot(a, a);
  }

  lemma DotAcross(a: Vector, x: real)
    requires Dot(a, a) == x * x
    ensures Dot(a, Scale(-1.0, a)) == 0.0 - x * x
  {
    ScaledRight(-1.0, a, a, x * x);
  }

  lemma OpposedFor(sqrt: real -> real, a: Vector, b: Vector, x: real)
    requires |a| == |b| && x == Norm(sqrt, a) == Norm(sqrt, b) >= TINY && Dot(a, b) == 0.0 - x * x
    ensures Distance(sqrt, a, b) == 2.0
  {
    var p := x * x;
    assert Dot(a, b) == -1.0 * p;
    DistanceIs(sqrt, a, b, p, -1.0);
  }

  /** Opposite headings are at distance two. */
  lemma DistanceAcross(sqrt: real -> real, a: Vector)
    requires IsRoot(sqrt) && Norm(sqrt, a) >= TINY
    ensures Distance(sqrt, a, Scale(-1.0, a)) == 2.0
  {
    NormSquare(sqrt, a);
    NormAcross(sqrt, a);
    DotAcross(a, Norm(sqrt, a));
    OpposedFor(sqrt, a, Scale(-1.0, a), Norm(sqrt, a));
  }

  // ---------------------------------------------------------------- neighbours

  /** The neighbours' headings are those of the active members within the radius, and no others. */
  lemma {:induction false} NearHas(field: SwarmField, all: seq<Vector>, asleep: seq<bool>, heading: Vector,
                                   members: seq<nat>, v: Vector)
    requires field.Shaped(all, asleep) && |heading| == field.dim
    ensures v in field.Near(all, asleep, heading, members)
       <==> exists ref <- members :: field.IsNear(all, asleep, heading, ref) && all[ref] == v
  {
    if members != [] {
      var m := |members| - 1;
      NearHas(field, all, asleep, heading, members[..m], v);
      assert members == members[..m] + [members[m]];
    }
  }

  // ---------------------------------------------------------------- agreement

  ghost predicate Silent(field: SwarmField) {
    forall n, i :: field.sample(n, i) == 0.0
  }

  lemma {:induction false} ZeroAt(n: nat, i: nat)
    requires i < n
    ensures Zero(n)[i] == 0.0
  {
    if i > 0 {
      ZeroAt(n - 1, i - 1);
    }
  }

  lemma SilentAdds(field: SwarmField, v: Vector, draw: nat)
    requires Silent(field) && |v| == field.dim
    ensures Sum(v, field.SampleAt(draw)) == v
  {
    var noise := field.SampleAt(draw);
    forall i | 0 <= i < |v| ensures Sum(v, noise)[i] == v[i] {
      SumAt(v, noise, i);
    }
  }

  /** A multiple of a heading of length one has that heading. */
  lemma HeadingOf(sqrt: real -> real, c: real, v: Vector)
    requires IsRoot(sqrt) && Norm(sqrt, v) == 1.0 && c >= 1.0
    ensures Normalized(sqrt, Scale(c, v)) == v
  {
    NormScale(sqrt, c, v);
    ScaleTwice(1.0 / c, c, v);
  }

  ghost predicate Agree(all: seq<Vector>, asleep: seq<bool>, members: seq<nat>, v: Vector) {
    |asleep| == |all| && forall ref <- members :: ref < |all| && !asleep[ref] ==> all[ref] == v
  }

  /** In agreement a turn to align, or to shake, changes nothing when there is no noise. */
  lemma TurnKeepsAgreement(field: SwarmField, turn: Turn, all: seq<Vector>, asleep: seq<bool>, draw: nat, ref: nat,
                           members: seq<nat>, v: Vector)
    requires IsRoot(field.sqrt) && field.Shaped(all, asleep) && Silent(field) && !turn.Recruits?
    requires Agree(all, asleep, members, v) && ref in members && Norm(field.sqrt, v) == 1.0 && |v| == field.dim
    ensures field.Turned(turn, all, asleep, draw, ref, members).0 == all
  {
    if ref < |all| && !asleep[ref] {
      var near := field.Near(all, asleep, v, members);
      forall i | 0 <= i < |near| ensures near[i] == v {
        NearHas(field, all, asleep, v, members, near[i]);
      }
      ConsensusScale(field.dim, near, v);
      SilentAdds(field, Total(field.dim, near), draw);
      SilentAdds(field, v, draw);
      OneOf(v);
      HeadingOf(field.sqrt, 1.0, v);
      if near != [] {
        HeadingOf(field.sqrt, |near| as real, v);
      }
    }
  }

  lemma {:induction false} OneOf(v: Vector)
    ensures Scale(1.0, v) == v
  {
    if v != [] {
      OneOf(v[1..]);
    }
  }

  /** A cluster whose active members share a heading of length one keeps it through any alignment, and through
      any shaking, without noise. */
  lemma {:induction false} AgreementIsKept(field: SwarmField, turn: Turn, all: seq<Vector>, asleep: seq<bool>,
                                           draw: nat, members: seq<nat>, k: nat, v: Vector)
    requires IsRoot(field.sqrt) && field.Shaped(all, asleep) && Silent(field) && !turn.Recruits? && k <= |members|
    requires Agree(all, asleep, members, v) && Norm(field.sqrt, v) == 1.0 && |v| == field.dim
    ensures field.AllTurned(turn, all, asleep, draw, members, k).0 == all
  {
    if k > 0 {
      AgreementIsKept(field, turn, all, asleep, draw, members, k - 1, v);
      var at := field.AllTurned(turn, all, asleep, draw, members, k - 1).1;
      TurnKeepsAgreement(field, turn, all, asleep, at, members[k - 1], members, v);
    }
  }

  /** An active member of a cluster always has itself for a neighbour. */
  lemma NearItself(field: SwarmField, all: seq<Vector>, asleep: seq<bool>, ref: nat, members: seq<nat>)
    requires IsRoot(field.sqrt) && field.Shaped(all, asleep) && field.radius > 0.0
    requires ref in members && ref < |all| && !asleep[ref] && Norm(field.sqrt, all[ref]) == 1.0
    ensures all[ref] in field.Near(all, asleep, all[ref], members)
  {
    OneOf(all[ref]);
    DistanceAlong(field.sqrt, all[ref], 1.0);
    NearHas(field, all, asleep, all[ref], members, all[ref]);
  }

  // ---------------------------------------------------------------- turns

  /** Entry k of what an agent turns to before noise: its neighbours' sum, its own heading, or nothing. */
  ghost function Aim(field: SwarmField, turn: Turn, heading: Vector, near: seq<Vector>, k: nat): real
    requires |heading| == field.dim && k < field.dim && forall i | 0 <= i < |near| :: |near[i]| == field.dim
  {
    match turn
    case Aligns => Entries(near, k)
    case Shakes => heading[k]
    case Recruits => 0.0
  }

  function Entries(h: seq<Vector>, k: nat): real
    requires forall i | 0 <= i < |h| :: k < |h[i]|
  {
    if h == [] then 0.0 else Entries(h[..|h| - 1], k) + h[|h| - 1][k]
  }

  lemma {:induction false} TotalAt(dim: nat, h: seq<Vector>, k: nat)
    requires k < dim && forall i | 0 <= i < |h| :: |h[i]| == dim
    ensures Total(dim, h)[k] == Entries(h, k)
  {
    if h == [] {
      ZeroAt(dim, k);
    } else {
      var m := |h| - 1;
      TotalAt(dim, h[..m], k);
      SumAt(Total(dim, h[..m]), h[m], k);
    }
  }

  ghost function Goal(field: SwarmField, turn: Turn, heading: Vector, near: seq<Vector>, draw: nat): (v: Vector)
    requires |heading| == field.dim && forall i | 0 <= i < |near| :: |near[i]| == field.dim
    ensures |v| == field.dim
  {
    match turn
    case Aligns => Sum(Total(field.dim, near), field.SampleAt(draw))
    case Shakes => Sum(heading, field.SampleAt(draw))
    case Recruits => field.SampleAt(draw)
  }

  lemma GoalAt(field: SwarmField, turn: Turn, heading: Vector, near: seq<Vector>, draw: nat, k: nat)
    requires |heading| == field.dim && k < field.dim && forall i | 0 <= i < |near| :: |near[i]| == field.dim
    ensures Goal(field, turn, heading, near, draw)[k] == Aim(field, turn, heading, near, k) + field.sample(draw, k)
  {
    TotalAt(field.dim, near, k);
    SumAt(Total(field.dim, near), field.SampleAt(draw), k);
    SumAt(heading, field.SampleAt(draw), k);
  }

  lemma TurnedIs(field: SwarmField, turn: Turn, all: seq<Vector>, asleep: seq<bool>, draw: nat, ref: nat,
                 members: seq<nat>, near: seq<Vector>)
    requires field.Shaped(all, asleep) && ref < |all| && (!asleep[ref] || turn.Recruits?)
    requires near == field.Near(all, asleep, all[ref], members)
    ensures field.Turned(turn, all, asleep, draw, ref, members).0 ==
      if turn.Aligns? && near == [] then all
      else all[ref := Normalized(field.sqrt, Goal(field, turn, all[ref], near, draw))]
  {
  }

  /** An agent that takes its turn comes out with a heading that, stretched by a length not below zero, is in every
      entry what it aims at and the noise added to it; one that has nobody near by does not turn to align. */
  lemma TurnsTo(field: SwarmField, turn: Turn, all: seq<Vector>, asleep: seq<bool>, draw: nat, ref: nat,
                members: seq<nat>, k: nat) returns (length: real)
    requires IsRoot(field.sqrt) && field.Shaped(all, asleep) && ref < |all| && k < field.dim
    requires !asleep[ref] || turn.Recruits?
    ensures length >= 0.0
    ensures var near, now := field.Near(all, asleep, all[ref], members),
                             field.Turned(turn, all, asleep, draw, ref, members).0;
      if turn.Aligns? && near == [] then now == all
      else
        && |now| == |all| && |now[ref]| == field.dim
        && length * now[ref][k] == Aim(field, turn, all[ref], near, k) + field.sample(draw, k)
  {
    var near := field.Near(all, asleep, all[ref], members);
    TurnedIs(field, turn, all, asleep, draw, ref, members, near);
    GoalAt(field, turn, all[ref], near, draw, k);
    length := Stretched(field.sqrt, Goal(field, turn, all[ref], near, draw), k);
  }

  lemma Stretched(sqrt: real -> real, v: Vector, k: nat) returns (length: real)
    requires IsRoot(sqrt) && k < |v|
    ensures length >= 0.0 && length * Normalized(sqrt, v)[k] == v[k]
    ensures Norm(sqrt, v) > TINY ==> length == Norm(sqrt, v)
  {
    NormalizedShort(sqrt, v);
    length := if Norm(sqrt, v) > TINY then Norm(sqrt, v) else 1.0;
    ScaleAt(length, Normalized(sqrt, v), k);
  }
}
