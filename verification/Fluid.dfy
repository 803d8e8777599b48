/** The density update of the fluid grid, in real arithmetic: inlet, diffusion, advection, settling, decay and
    the final clamp.  Velocities are whatever the other half of the step left behind; the sine is any
    function with values between -1 and 1. */
module Fluid {
  import opened Arithmetic

  const CAP: real := 1.40
  const INLET_CAP: real := 1.35
  const SETTLED: real := 1.15
  const NEGLIGIBLE: real := 0.000000001

  function Clamp(x: real, lo: real, hi: real): real { if x < lo then lo else if hi < x then hi else x }

  /** Every cell between zero and m. */
  ghost predicate Within(s: seq<real>, m: real) {
    forall i | 0 <= i < |s| :: 0.0 <= s[i] <= m
  }

  function Mass(s: seq<real>): real {
    if s == [] then 0.0 else s[0] + Mass(s[1..])
  }

  lemma {:induction false} MassUpdate(s: seq<real>, i: nat, x: real)
    requires i < |s|
    ensures Mass(s[i := x]) == Mass(s) - s[i] + x
  {
    if i == 0 {
      assert s[0 := x][1..] == s[1..];
    } else {
      assert s[i := x][1..] == s[1..][i - 1 := x];
      MassUpdate(s[1..], i - 1, x);
    }
  }

  lemma IndexBound(r: nat, c: nat, n: nat)
    requires r < n && c < n
    ensures r * n + c < n * n
  {
    Steps(r, n, n);
  }

  function Averaged(source: real, sum: real, a: real): real
    requires a > 0.0
  {
    (source + a * sum) / (1.0 + 4.0 * a)
  }

  /** An average with nonnegative weights stays between the bounds of what it averages. */
  lemma AveragedWithin(source: real, sum: real, a: real, m: real)
    requires a > 0.0 && 0.0 <= source <= m && 0.0 <= sum <= 4.0 * m
    ensures 0.0 <= Averaged(source, sum, a) <= m
  {
    var w := 1.0 + 4.0 * a;
    var top := source + a * sum;
    ProductOrder(a, sum, 4.0 * m);
    assert a * (4.0 * m) == 4.0 * (a * m);
    assert m * w == m + 4.0 * (a * m);
    assert 0.0 <= top <= m * w;
    QuotientBound(top, m, w);
  }

  lemma ProductOrder(a: real, x: real, y: real)
    requires a >= 0.0 && 0.0 <= x <= y
    ensures 0.0 <= a * x <= a * y
  {
    assert a * (y - x) >= 0.0;
  }

  lemma QuotientBound(top: real, m: real, w: real)
    requires w > 0.0 && 0.0 <= top <= m * w
    ensures 0.0 <= top / w <= m
  {
    var q := top / w;
    assert q * w == top;
    if q > m {
      Positive(q - m, w);
    } else if q < 0.0 {
      Positive(0.0 - q, w);
    }
  }

  lemma Positive(x: real, y: real)
    requires x > 0.0 && y > 0.0
    ensures x * y > 0.0
  {
  }

  /** Weights 1 - s and s. */
  function Mix(p: real, q: real, s: real): real {
    p * (1.0 - s) + q * s
  }

  lemma Complement(t: real, s: real, m: real)
    requires t + s == 1.0
    ensures t * m + s * m == m
  {
    assert (t + s) * m == t * m + s * m;
  }

  lemma MixWithin(p: real, q: real, s: real, m: real)
    requires 0.0 <= s <= 1.0 && 0.0 <= p <= m && 0.0 <= q <= m
    ensures 0.0 <= Mix(p, q, s) <= m
  {
    var t := 1.0 - s;
    ProductOrder(t, p, m);
    ProductOrder(s, q, m);
    Complement(t, s, m);
  }

  function Mix4(q00: real, q01: real, q10: real, q11: real, sx: real, sy: real): real {
    Mix(Mix(q00, q01, sx), Mix(q10, q11, sx), sy)
  }

  lemma Mix4Within(q00: real, q01: real, q10: real, q11: real, sx: real, sy: real, m: real)
    requires 0.0 <= sx <= 1.0 && 0.0 <= sy <= 1.0
    requires 0.0 <= q00 <= m && 0.0 <= q01 <= m && 0.0 <= q10 <= m && 0.0 <= q11 <= m
    ensures 0.0 <= Mix4(q00, q01, q10, q11, sx, sy) <= m
  {
    MixWithin(q00, q01, sx, m);
    MixWithin(q10, q11, sx, m);
    MixWithin(Mix(q00, q01, sx), Mix(q10, q11, sx), sy, m);
  }

  /** Settling conserves the total mass, empties no cell below zero and fills none above the larger of the
      settled level and its prior value. */
  ghost predicate Settling(now: seq<real>, before: seq<real>) {
    && |now| == |before| && Mass(now) == Mass(before)
    && forall i | 0 <= i < |now| :: 0.0 <= now[i] <= Max(SETTLED, before[i])
  }

  /** The coordinate a velocity carries a value from, kept within the grid. */
  function Origin(at: nat, scale: real, velocity: real, n: nat): real {
    Clamp(at as real - scale * velocity, 0.5, n as real - 1.5)
  }

  function Moved(s: seq<real>, i: nat, j: nat, amount: real): seq<real>
    requires i < |s| && j < |s|
  {
    var t := s[i := s[i] - amount];
    t[j := t[j] + amount]
  }

  lemma MoveSettles(now: seq<real>, before: seq<real>, i: nat, j: nat, amount: real)
    requires Settling(now, before) && i < |now| && j < |now|
    requires 0.0 <= amount <= now[i] && now[j] + amount <= SETTLED
    ensures Settling(Moved(now, i, j, amount), before)
  {
    var t := now[i := now[i] - amount];
    MassUpdate(now, i, now[i] - amount);
    MassUpdate(t, j, t[j] + amount);
  }

  function Amount(x: real, fraction: real, capacity: real): real {
    Min(x * fraction, capacity)
  }

  lemma AmountBound(x: real, fraction: real, capacity: real)
    requires x >= 0.0 && 0.0 <= fraction <= 1.0 && capacity > 0.0
    ensures 0.0 <= Amount(x, fraction, capacity) <= x && Amount(x, fraction, capacity) <= capacity
  {
    var t := 1.0 - fraction;
    assert x * fraction >= 0.0 && x * t >= 0.0;
    assert x * fraction + x * t == x * (fraction + t) == x;
  }

  /** Water in the basin hardly decays. */
  function Decayed(x: real, inBasin: bool, decay: real): real {
    x * if inBasin then 0.99998 else decay
  }

  lemma DecayedWithin(x: real, inBasin: bool, decay: real)
    requires 0.0 <= decay <= 1.0 && 0.0 <= x <= CAP
    ensures 0.0 <= Decayed(x, inBasin, decay) <= CAP
  {
    AmountBound(x, if inBasin then 0.99998 else decay, CAP);
    var t := 1.0 - decay;
    assert x * decay + x * t == x && x * t >= 0.0;
  }

  function PouredCell(x: real, inNozzle: bool, inletDensity: real, sine: real): real {
    if inNozzle then Min(INLET_CAP, x + inletDensity * (0.88 + 0.16 * sine)) else x
  }

  lemma PouredWithin(x: real, inNozzle: bool, inletDensity: real, sine: real)
    requires 0.0 <= x <= CAP && inletDensity >= 0.0 && -1.0 <= sine <= 1.0
    ensures 0.0 <= PouredCell(x, inNozzle, inletDensity, sine) <= CAP
  {
    var pulse := 0.88 + 0.16 * sine;
    assert pulse >= 0.0 && inletDensity * pulse >= 0.0;
  }

  /** What one step takes from outside: the velocities and the parameters. */
  datatype Input = Input(nozzle: set<nat>, pouring: bool, inletDensity: real, sine: real, diffusion: real, dt: real,
                         u: seq<real>, v: seq<real>, decay: real) {
    predicate Fits(cells: nat) {
      |u| == |v| == cells && inletDensity >= 0.0 && -1.0 <= sine <= 1.0 && 0.0 <= decay <= 1.0
    }
  }

  function Empty(n: nat): (f: seq<real>)
    ensures |f| == n && forall i | 0 <= i < n :: f[i] == 0.0
  {
    seq(n, _ => 0.0)
  }

  class FlowGrid {
    const N: nat
    const solid: seq<bool>
    const basin: seq<bool>
    var density: array<real>

    predicate Walls() {
      N >= 2 && |solid| == N * N
    }

    ghost predicate Valid()
      reads this
    {
      Walls() && |solid| == |basin| == density.Length
    }

    constructor (n: nat, solid: seq<bool>, basin: seq<bool>)
      requires n >= 2 && |solid| == |basin| == n * n
      ensures Valid() && fresh(density) && N == n && this.solid == solid && this.basin == basin
      ensures density[..] == Empty(n * n)
    {
      N, this.solid, this.basin := n, solid, basin;
      density := new real[n * n](_ => 0.0);
      new;
      assert density[..] == Empty(n * n);
    }

    function Index(r: nat, c: nat): (i: nat)
      requires r < N && c < N
      ensures i < N * N
    {
      IndexBound(r, c, N);
      r * N + c
    }

    /** Everything outside the grid counts as solid. */
    predicate IsSolid(r: int, c: int)
      requires |solid| == N * N
    {
      r < 0 || c < 0 || r >= N || c >= N || solid[Index(r, c)]
    }

    function NeighborValue(field: seq<real>, r: nat, c: nat, nr: int, nc: int, zeroOnSolid: bool): real
      requires |solid| == |field| == N * N && r < N && c < N
    {
      if IsSolid(nr, nc) then (if zeroOnSolid then 0.0 else field[Index(r, c)]) else field[Index(nr, nc)]
    }

    function Neighbours(field: seq<real>, r: nat, c: nat, zeroOnSolid: bool): real
      requires |solid| == |field| == N * N && r < N && c < N
    {
      NeighborValue(field, r, c, r - 1, c, zeroOnSolid) + NeighborValue(field, r, c, r + 1, c, zeroOnSolid)
        + NeighborValue(field, r, c, r, c - 1, zeroOnSolid) + NeighborValue(field, r, c, r, c + 1, zeroOnSolid)
    }

    method ApplySolidBoundaries(field: array<real>)
      requires field.Length == |solid|
      modifies field
      ensures field[..] == Walled(old(field[..]))
    {
      for i := 0 to field.Length
        invariant forall k | 0 <= k < |solid| :: field[k] == if k < i && solid[k] then 0.0 else old(field[k])
      {
        if solid[i] {
          field[i] := 0.0;
        }
      }
    }

    /** The average of a cell's source and its neighbours as they are now. */
    function Relaxed(f: seq<real>, source: seq<real>, a: real, zeroOnSolid: bool, r: nat, c: nat): real
      requires |solid| == |f| == |source| == N * N && r < N && c < N && a > 0.0
    {
      Averaged(source[Index(r, c)], Neighbours(f, r, c, zeroOnSolid), a)
    }

    lemma RelaxedWithin(f: seq<real>, source: seq<real>, a: real, zeroOnSolid: bool, r: nat, c: nat, m: real)
      requires |solid| == |f| == |source| == N * N && r < N && c < N && a > 0.0
      requires m >= 0.0 && Within(f, m) && Within(source, m)
      ensures 0.0 <= Relaxed(f, source, a, zeroOnSolid, r, c) <= m
    {
      AveragedWithin(source[Index(r, c)], Neighbours(f, r, c, zeroOnSolid), a, m);
    }

    function CellSwept(f: seq<real>, source: seq<real>, a: real, zeroOnSolid: bool, r: nat, c: nat): (f': seq<real>)
      requires |solid| == |f| == |source| == N * N && r < N && c < N && a > 0.0
      ensures |f'| == |f|
    {
      var i := Index(r, c);
      if solid[i] then f
      else f[i := Relaxed(f, source, a, zeroOnSolid, r, c)]
    }

    /** The inner cells of row r before column c, left to right. */
    function RowSwept(f: seq<real>, source: seq<real>, a: real, zeroOnSolid: bool, r: nat, c: nat): (f': seq<real>)
      requires |solid| == |f| == |source| == N * N && r < N && c <= N && a > 0.0
      ensures |f'| == |f|
    {
      if c <= 1 then f else CellSwept(RowSwept(f, source, a, zeroOnSolid, r, c - 1), source, a, zeroOnSolid, r, c - 1)
    }

    /** The inner rows before row r, top to bottom. */
    function RowsSwept(f: seq<real>, source: seq<real>, a: real, zeroOnSolid: bool, r: nat): (f': seq<real>)
      requires |solid| == |f| == |source| == N * N && 1 <= r <= N && a > 0.0
      ensures |f'| == |f|
    {
      if r <= 1 then f
      else RowSwept(RowsSwept(f, source, a, zeroOnSolid, r - 1), source, a, zeroOnSolid, r - 1, N - 1)
    }

    lemma {:induction false} RowSweptWithin(f: seq<real>, source: seq<real>, a: real, zeroOnSolid: bool, r: nat,
                                            c: nat, m: real)
      requires |solid| == |f| == |source| == N * N && r < N && c <= N && a > 0.0
      requires m >= 0.0 && Within(f, m) && Within(source, m)
      ensures Within(RowSwept(f, source, a, zeroOnSolid, r, c), m)
    {
      if c > 1 {
        RowSweptWithin(f, source, a, zeroOnSolid, r, c - 1, m);
        RelaxedWithin(RowSwept(f, source, a, zeroOnSolid, r, c - 1), source, a, zeroOnSolid, r, c - 1, m);
      }
    }

    lemma {:induction false} RowsSweptWithin(f: seq<real>, source: seq<real>, a: real, zeroOnSolid: bool, r: nat,
                                             m: real)
      requires |solid| == |f| == |source| == N * N && 1 <= r <= N && a > 0.0
      requires m >= 0.0 && Within(f, m) && Within(source, m)
      ensures Within(RowsSwept(f, source, a, zeroOnSolid, r), m)
    {
      if r > 1 {
        RowsSweptWithin(f, source, a, zeroOnSolid, r - 1, m);
        RowSweptWithin(RowsSwept(f, source, a, zeroOnSolid, r - 1), source, a, zeroOnSolid, r - 1, N - 1, m);
      }
    }

    function Walled(f: seq<real>): (f': seq<real>)
      requires |solid| == |f|
      ensures |f'| == |f|
      ensures forall i | 0 <= i < |f| :: f'[i] == if solid[i] then 0.0 else f[i]
    {
      seq(|f|, i requires 0 <= i < |f| => if solid[i] then 0.0 else f[i])
    }

    /** A number of Gauss-Seidel sweeps from the source. */
    function Diffused(source: seq<real>, a: real, zeroOnSolid: bool, iters: nat): (f': seq<real>)
      requires Walls() && |source| == N * N && a > 0.0
      ensures |f'| == |source|
    {
      if iters == 0 then source
      else Walled(RowsSwept(Diffused(source, a, zeroOnSolid, iters - 1), source, a, zeroOnSolid, N - 1))
    }

    /** Maximum principle: no number of sweeps leaves the bounds of the source. */
    lemma {:induction false} DiffusedWithin(source: seq<real>, a: real, zeroOnSolid: bool, iters: nat, m: real)
      requires Walls() && |source| == N * N && a > 0.0 && m >= 0.0 && Within(source, m)
      ensures Within(Diffused(source, a, zeroOnSolid, iters), m)
    {
      if iters > 0 {
        DiffusedWithin(source, a, zeroOnSolid, iters - 1, m);
        RowsSweptWithin(Diffused(source, a, zeroOnSolid, iters - 1), source, a, zeroOnSolid, N - 1, m);
      }
    }

    function Coefficient(diff: real, dt: real): real {
      dt * diff * ((N - 2) * (N - 2)) as real
    }

    function DiffusionOf(source: seq<real>, diff: real, dt: real, zeroOnSolid: bool, iters: nat): (f': seq<real>)
      requires Walls() && |source| == N * N
      ensures |f'| == |source|
    {
      var a := Coefficient(diff, dt);
      if a < NEGLIGIBLE then Walled(source) else Diffused(source, a, zeroOnSolid, iters)
    }

    method Diffuse(field: array<real>, source: seq<real>, diff: real, dt: real, iters: nat, zeroOnSolid: bool)
      requires Valid() && |source| == field.Length == N * N
      modifies field
      ensures field[..] == DiffusionOf(source, diff, dt, zeroOnSolid, iters)
    {
      forall i | 0 <= i < field.Length {
        field[i] := source[i];
      }
      assert field[..] == source;
      var a := Coefficient(diff, dt);
      if a < NEGLIGIBLE {
        ApplySolidBoundaries(field);
        return;
      }
      for iter := 0 to iters
        invariant field[..] == Diffused(source, a, zeroOnSolid, iter)
      {
        Sweep(field, source, a, zeroOnSolid);
        ApplySolidBoundaries(field);
      }
    }

    method Sweep(field: array<real>, source: seq<real>, a: real, zeroOnSolid: bool)
      requires Valid() && |source| == field.Length == N * N && a > 0.0
      modifies field
      ensures field[..] == RowsSwept(old(field[..]), source, a, zeroOnSolid, N - 1)
    {
      ghost var start := field[..];
      for r := 1 to N - 1
        invariant field[..] == RowsSwept(start, source, a, zeroOnSolid, r)
      {
        ghost var row := field[..];
        for c := 1 to N - 1
          invariant field[..] == RowSwept(row, source, a, zeroOnSolid, r, c)
        {
          SweepCell(field, source, a, zeroOnSolid, r, c);
        }
      }
    }

    method SweepCell(field: array<real>, source: seq<real>, a: real, zeroOnSolid: bool, r: nat, c: nat)
      requires Valid() && |source| == field.Length == N * N && a > 0.0 && r < N && c < N
      modifies field
      ensures field[..] == CellSwept(old(field[..]), source, a, zeroOnSolid, r, c)
    {
      var i := Index(r, c);
      if !solid[i] {
        var sum := Neighbours(field[..], r, c, zeroOnSolid);
        field[i] := Averaged(source[i], sum, a);
      }
    }

    lemma DiffuseWithin(source: seq<real>, diff: real, dt: real, zeroOnSolid: bool, iters: nat, m: real)
      requires Walls() && |source| == N * N && m >= 0.0 && Within(source, m)
      ensures Within(DiffusionOf(source, diff, dt, zeroOnSolid, iters), m)
    {
      var a := Coefficient(diff, dt);
      if a >= NEGLIGIBLE {
        DiffusedWithin(source, a, zeroOnSolid, iters, m);
      }
    }

    function CellOrZero(field: seq<real>, r: int, c: int): real
      requires |solid| == |field| == N * N
    {
      if IsSolid(r, c) then 0.0 else field[Index(r, c)]
    }

    /** The four cells around a point, weighted by nearness; solid cells count as zero. */
    function BilinearSample(field: seq<real>, y: real, x: real): real
      requires |solid| == |field| == N * N
    {
      var x0, y0 := x.Floor, y.Floor;
      var sx, sy := x - x0 as real, y - y0 as real;
      Mix4(CellOrZero(field, y0, x0), CellOrZero(field, y0, x0 + 1),
           CellOrZero(field, y0 + 1, x0), CellOrZero(field, y0 + 1, x0 + 1), sx, sy)
    }

    lemma SampleWithin(field: seq<real>, y: real, x: real, m: real)
      requires |solid| == |field| == N * N && m >= 0.0 && Within(field, m)
      ensures 0.0 <= BilinearSample(field, y, x) <= m
    {
      var x0, y0 := x.Floor, y.Floor;
      var sx, sy := x - x0 as real, y - y0 as real;
      Mix4Within(CellOrZero(field, y0, x0), CellOrZero(field, y0, x0 + 1),
                 CellOrZero(field, y0 + 1, x0), CellOrZero(field, y0 + 1, x0 + 1), sx, sy, m);
    }

    /** Where the velocities carry a cell's value from, whatever they are. */
    function Carried(source: seq<real>, u: seq<real>, v: seq<real>, scale: real, r: nat, c: nat): real
      requires Walls() && |source| == |u| == |v| == N * N && r < N && c < N
    {
      var i := Index(r, c);
      BilinearSample(source, Origin(r, scale, v[i], N), Origin(c, scale, u[i], N))
    }

    lemma CarriedWithin(source: seq<real>, u: seq<real>, v: seq<real>, scale: real, r: nat, c: nat, m: real)
      requires Walls() && |source| == |u| == |v| == N * N && r < N && c < N && m >= 0.0 && Within(source, m)
      ensures 0.0 <= Carried(source, u, v, scale, r, c) <= m
    {
      var i := Index(r, c);
      SampleWithin(source, Origin(r, scale, v[i], N), Origin(c, scale, u[i], N), m);
    }

    function CellAdvected(f: seq<real>, source: seq<real>, u: seq<real>, v: seq<real>, scale: real, r: nat,
                          c: nat): (f': seq<real>)
      requires Walls() && |f| == |source| == |u| == |v| == N * N && r < N && c < N
      ensures |f'| == |f|
    {
      var i := Index(r, c);
      if solid[i] then f else f[i := Carried(source, u, v, scale, r, c)]
    }

    function RowAdvected(f: seq<real>, source: seq<real>, u: seq<real>, v: seq<real>, scale: real, r: nat,
                         c: nat): (f': seq<real>)
      requires Walls() && |f| == |source| == |u| == |v| == N * N && r < N && c <= N
      ensures |f'| == |f|
    {
      if c <= 1 then f else CellAdvected(RowAdvected(f, source, u, v, scale, r, c - 1), source, u, v, scale, r, c - 1)
    }

    function RowsAdvected(f: seq<real>, source: seq<real>, u: seq<real>, v: seq<real>, scale: real,
                          r: nat): (f': seq<real>)
      requires Walls() && |f| == |source| == |u| == |v| == N * N && 1 <= r <= N
      ensures |f'| == |f|
    {
      if r <= 1 then f else RowAdvected(RowsAdvected(f, source, u, v, scale, r - 1), source, u, v, scale, r - 1, N - 1)
    }

    function Advected(source: seq<real>, u: seq<real>, v: seq<real>, scale: real): (f': seq<real>)
      requires Walls() && |source| == |u| == |v| == N * N
      ensures |f'| == |source|
    {
      Walled(RowsAdvected(Empty(N * N), source, u, v, scale, N - 1))
    }

    lemma {:induction false} RowAdvectedWithin(f: seq<real>, source: seq<real>, u: seq<real>, v: seq<real>,
                                               scale: real, r: nat, c: nat, m: real)
      requires Walls() && |f| == |source| == |u| == |v| == N * N && r < N && c <= N
      requires m >= 0.0 && Within(f, m) && Within(source, m)
      ensures Within(RowAdvected(f, source, u, v, scale, r, c), m)
    {
      if c > 1 {
        RowAdvectedWithin(f, source, u, v, scale, r, c - 1, m);
        CarriedWithin(source, u, v, scale, r, c - 1, m);
      }
    }

    lemma {:induction false} RowsAdvectedWithin(f: seq<real>, source: seq<real>, u: seq<real>, v: seq<real>,
                                                scale: real, r: nat, m: real)
      requires Walls() && |f| == |source| == |u| == |v| == N * N && 1 <= r <= N
      requires m >= 0.0 && Within(f, m) && Within(source, m)
      ensures Within(RowsAdvected(f, source, u, v, scale, r), m)
    {
      if r > 1 {
        RowsAdvectedWithin(f, source, u, v, scale, r - 1, m);
        RowAdvectedWithin(RowsAdvected(f, source, u, v, scale, r - 1), source, u, v, scale, r - 1, N - 1, m);
      }
    }

    /** Maximum principle: advection stays within the bounds of its source, whatever the velocities. */
    lemma AdvectionWithin(source: seq<real>, u: seq<real>, v: seq<real>, dt: real, m: real)
      requires Walls() && |source| == |u| == |v| == N * N && m >= 0.0 && Within(source, m)
      ensures Within(AdvectionOf(source, u, v, dt), m)
    {
      RowsAdvectedWithin(Empty(N * N), source, u, v, dt * (N - 2) as real, N - 1, m);
    }

    function AdvectionOf(source: seq<real>, u: seq<real>, v: seq<real>, dt: real): (f': seq<real>)
      requires Walls() && |source| == |u| == |v| == N * N
      ensures |f'| == |source|
    {
      Advected(source, u, v, dt * (N - 2) as real)
    }

    method Advect(field: array<real>, source: seq<real>, u: seq<real>, v: seq<real>, dt: real)
      requires Valid() && |source| == |u| == |v| == field.Length == N * N
      modifies field
      ensures field[..] == AdvectionOf(source, u, v, dt)
    {
      forall i | 0 <= i < field.Length {
        field[i] := 0.0;
      }
      ghost var start := Empty(N * N);
      assert field[..] == start;
      var scale := dt * (N - 2) as real;
      for r := 1 to N - 1
        invariant field[..] == RowsAdvected(start, source, u, v, scale, r)
      {
        ghost var row := field[..];
        for c := 1 to N - 1
          invariant field[..] == RowAdvected(row, source, u, v, scale, r, c)
        {
          AdvectCell(field, source, u, v, scale, r, c);
        }
      }
      ApplySolidBoundaries(field);
    }

    method AdvectCell(field: array<real>, source: seq<real>, u: seq<real>, v: seq<real>, scale: real, r: nat, c: nat)
      requires Valid() && |source| == |u| == |v| == field.Length == N * N && r < N && c < N
      modifies field
      ensures field[..] == CellAdvected(old(field[..]), source, u, v, scale, r, c)
    {
      var i := Index(r, c);
      if !solid[i] {
        var x, y := Origin(c, scale, u[i], N), Origin(r, scale, v[i], N);
        field[i] := BilinearSample(source, y, x);
      }
    }

    // ---- settling

    /** Moves a fraction of cell i, as far as the target has room below the settled level. */
    function Tried(next: seq<real>, i: nat, nr: int, nc: int, fraction: real): (next': seq<real>)
      requires Walls() && |next| == N * N && i < N * N
      ensures |next'| == |next|
    {
      if IsSolid(nr, nc) || next[Index(nr, nc)] >= SETTLED then next
      else Moved(next, i, Index(nr, nc), Amount(next[i], fraction, SETTLED - next[Index(nr, nc)]))
    }

    /** A cell falls straight down, then to the side its velocity points to. */
    function Fallen(next: seq<real>, i: nat, r: nat, c: nat, u: real): (next': seq<real>)
      requires Walls() && |next| == N * N && i < N * N
      ensures |next'| == |next|
    {
      var down := Tried(next, i, r + 1, c, 0.42);
      var side := if u >= 0.0 then c + 1 else c - 1;
      if down[i] > 0.02 then Tried(Tried(down, i, r + 1, side, 0.18), i, r, side, 0.07) else down
    }

    function CellSettled(next: seq<real>, before: seq<real>, u: seq<real>, r: nat, c: nat): (next': seq<real>)
      requires Walls() && |next| == |before| == |u| == N * N && r < N && c < N
      ensures |next'| == |next|
    {
      var i := Index(r, c);
      if solid[i] || before[i] < 0.01 then next else Fallen(next, i, r, c, u[i])
    }

    function RowSettled(next: seq<real>, before: seq<real>, u: seq<real>, r: nat, c: nat): (next': seq<real>)
      requires Walls() && |next| == |before| == |u| == N * N && r < N && c <= N
      ensures |next'| == |next|
    {
      if c <= 1 then next else CellSettled(RowSettled(next, before, u, r, c - 1), before, u, r, c - 1)
    }

    /** The inner rows below row r, bottom up. */
    function RowsSettled(next: seq<real>, before: seq<real>, u: seq<real>, r: nat): (next': seq<real>)
      requires Walls() && |next| == |before| == |u| == N * N
      ensures |next'| == |next|
      decreases N - r
    {
      if r + 2 >= N then next else RowSettled(RowsSettled(next, before, u, r + 1), before, u, r + 1, N - 1)
    }

    lemma TriedSettles(next: seq<real>, before: seq<real>, i: nat, nr: int, nc: int, fraction: real)
      requires Walls() && |next| == N * N && i < N * N && 0.0 <= fraction <= 1.0 && Settling(next, before)
      ensures Settling(Tried(next, i, nr, nc, fraction), before)
    {
      if !IsSolid(nr, nc) && next[Index(nr, nc)] < SETTLED {
        var j := Index(nr, nc);
        AmountBound(next[i], fraction, SETTLED - next[j]);
        MoveSettles(next, before, i, j, Amount(next[i], fraction, SETTLED - next[j]));
      }
    }

    lemma FallenSettles(next: seq<real>, before: seq<real>, i: nat, r: nat, c: nat, u: real)
      requires Walls() && |next| == N * N && i < N * N && Settling(next, before)
      ensures Settling(Fallen(next, i, r, c, u), before)
    {
      var down := Tried(next, i, r + 1, c, 0.42);
      var side := if u >= 0.0 then c + 1 else c - 1;
      TriedSettles(next, before, i, r + 1, c, 0.42);
      TriedSettles(down, before, i, r + 1, side, 0.18);
      TriedSettles(Tried(down, i, r + 1, side, 0.18), before, i, r, side, 0.07);
    }

    lemma {:induction false} RowSettles(next: seq<real>, before: seq<real>, u: seq<real>, r: nat, c: nat)
      requires Walls() && |next| == |u| == N * N && r < N && c <= N && Settling(next, before)
      ensures Settling(RowSettled(next, before, u, r, c), before)
    {
      if c > 1 {
        RowSettles(next, before, u, r, c - 1);
        FallenSettles(RowSettled(next, before, u, r, c - 1), before, Index(r, c - 1), r, c - 1, u[Index(r, c - 1)]);
      }
    }

    /** Settling conserves the total mass and fills no cell above the larger of the settled level and its
        prior value. */
    lemma {:induction false} RowsSettle(next: seq<real>, before: seq<real>, u: seq<real>, r: nat)
      requires Walls() && |next| == |u| == N * N && Settling(next, before)
      ensures Settling(RowsSettled(next, before, u, r), before)
      decreases N - r
    {
      if r + 2 < N {
        RowsSettle(next, before, u, r + 1);
        RowSettles(RowsSettled(next, before, u, r + 1), before, u, r + 1, N - 1);
      }
    }

    method TryMove(next: array<real>, i: nat, nr: int, nc: int, fraction: real)
      requires Valid() && next.Length == N * N && i < N * N
      modifies next
      ensures next[..] == Tried(old(next[..]), i, nr, nc, fraction)
    {
      if IsSolid(nr, nc) {
        return;
      }
      var j := Index(nr, nc);
      var capacity := Max(0.0, SETTLED - next[j]);
      if capacity <= 0.0 {
        return;
      }
      var amount := Amount(next[i], fraction, capacity);
      next[i] := next[i] - amount;
      next[j] := next[j] + amount;
    }

    method FallFrom(next: array<real>, i: nat, r: nat, c: nat, u: real)
      requires Valid() && next.Length == N * N && i < N * N
      modifies next
      ensures next[..] == Fallen(old(next[..]), i, r, c, u)
    {
      TryMove(next, i, r + 1, c, 0.42);
      if next[i] > 0.02 {
        if u >= 0.0 {
          TryMove(next, i, r + 1, c + 1, 0.18);
          TryMove(next, i, r, c + 1, 0.07);
        } else {
          TryMove(next, i, r + 1, c - 1, 0.18);
          TryMove(next, i, r, c - 1, 0.07);
        }
      }
    }

    /** Lets every cell fall into the cells below and beside it, bottom row first. */
    method SettleDensity(u: seq<real>)
      requires Valid() && |u| == N * N
      modifies `density
      ensures Valid() && fresh(density)
      ensures density[..] == RowsSettled(old(density[..]), old(density[..]), u, 0)
    {
      var before := density[..];
      var next := new real[|before|](i requires 0 <= i < |before| => before[i]);
      assert next[..] == before;
      var r := N - 2;
      while r >= 1
        invariant 0 <= r < N - 1 && density == old(density) && density[..] == before
        invariant next[..] == RowsSettled(before, before, u, r)
      {
        ghost var row := next[..];
        for c := 1 to N - 1
          invariant density == old(density) && density[..] == before
          invariant next[..] == RowSettled(row, before, u, r, c)
        {
          var i := Index(r, c);
          if !solid[i] && density[i] >= 0.01 {
            FallFrom(next, i, r, c, u[i]);
          }
        }
        r := r - 1;
      }
      density := next;
    }

    // ---- the rest of the step

    /** The inlet pours into the nozzle cells, up to its own cap. */
    function Poured(f: seq<real>, nozzle: set<nat>, inletDensity: real, sine: real): (f': seq<real>)
      ensures |f'| == |f|
    {
      seq(|f|, i requires 0 <= i < |f| => PouredCell(f[i], i in nozzle, inletDensity, sine))
    }

    method AddInlet(nozzle: set<nat>, inletDensity: real, sine: real)
      requires Valid()
      modifies density
      ensures density[..] == Poured(old(density[..]), nozzle, inletDensity, sine)
    {
      forall i | 0 <= i < density.Length && i in nozzle {
        density[i] := PouredCell(density[i], true, inletDensity, sine);
      }
    }

    function DecayOf(f: seq<real>, decay: real): (f': seq<real>)
      requires |f| == |solid| == |basin|
      ensures |f'| == |f|
    {
      seq(|f|, i requires 0 <= i < |f| => if solid[i] then f[i] else Decayed(f[i], basin[i], decay))
    }

    method Decay(decay: real)
      requires Valid()
      modifies density
      ensures density[..] == DecayOf(old(density[..]), decay)
    {
      for i := 0 to density.Length
        invariant forall k | 0 <= k < |solid| ::
          density[k] == if k < i && !solid[k] then Decayed(old(density[k]), basin[k], decay) else old(density[k])
      {
        if !solid[i] {
          density[i] := Decayed(density[i], basin[i], decay);
        }
      }
    }

    function Clamped(f: seq<real>): (f': seq<real>)
      requires |f| == |solid|
      ensures |f'| == |f|
    {
      seq(|f|, i requires 0 <= i < |f| => if solid[i] then 0.0 else Clamp(f[i], 0.0, CAP))
    }

    method ClampDensity()
      requires Valid()
      modifies density
      ensures density[..] == Clamped(old(density[..]))
    {
      for i := 0 to density.Length
        invariant forall k | 0 <= k < |solid| ::
          density[k] == if k >= i then old(density[k]) else if solid[k] then 0.0 else Clamp(old(density[k]), 0.0, CAP)
      {
        density[i] := if solid[i] then 0.0 else Clamp(density[i], 0.0, CAP);
      }
    }

    /** The inlet and the diffusion. */
    function Spread(f: seq<real>, x: Input): (f': seq<real>)
      requires Walls() && |f| == N * N
      ensures |f'| == |f|
    {
      var poured := if x.pouring then Poured(f, x.nozzle, x.inletDensity, x.sine) else f;
      DiffusionOf(poured, x.diffusion, x.dt, false, 8)
    }

    /** Advection and settling. */
    function Flowed(f: seq<real>, x: Input): (f': seq<real>)
      requires Walls() && |f| == N * N && x.Fits(N * N)
      ensures |f'| == |f|
    {
      var carried := AdvectionOf(f, x.u, x.v, x.dt);
      RowsSettled(carried, carried, x.u, 0)
    }

    /** What reaches the final clamp. */
    function BeforeClamp(f: seq<real>, x: Input): (f': seq<real>)
      requires Walls() && |basin| == |f| == N * N && x.Fits(N * N)
      ensures |f'| == |f|
    {
      DecayOf(Flowed(Spread(f, x), x), x.decay)
    }

    lemma SpreadWithin(f: seq<real>, x: Input)
      requires Walls() && |f| == N * N && x.Fits(N * N) && Within(f, CAP)
      ensures Within(Spread(f, x), CAP)
    {
      forall i | 0 <= i < |f| ensures 0.0 <= PouredCell(f[i], i in x.nozzle, x.inletDensity, x.sine) <= CAP {
        PouredWithin(f[i], i in x.nozzle, x.inletDensity, x.sine);
      }
      var poured := if x.pouring then Poured(f, x.nozzle, x.inletDensity, x.sine) else f;
      DiffuseWithin(poured, x.diffusion, x.dt, false, 8, CAP);
    }

    lemma FlowedWithin(f: seq<real>, x: Input)
      requires Walls() && |f| == N * N && x.Fits(N * N) && Within(f, CAP)
      ensures Within(Flowed(f, x), CAP)
    {
      AdvectionWithin(f, x.u, x.v, x.dt, CAP);
      var carried := AdvectionOf(f, x.u, x.v, x.dt);
      RowsSettle(carried, carried, x.u, 0);
    }

    lemma DecayWithin(f: seq<real>, decay: real)
      requires |f| == |solid| == |basin| && 0.0 <= decay <= 1.0 && Within(f, CAP)
      ensures Within(DecayOf(f, decay), CAP) && Clamped(DecayOf(f, decay)) == Walled(DecayOf(f, decay))
    {
      forall i | 0 <= i < |f| ensures 0.0 <= Decayed(f[i], basin[i], decay) <= CAP {
        DecayedWithin(f[i], basin[i], decay);
      }
    }

    /** Maximum principle for a whole step: densities within the cap stay there before the clamp, which
        therefore only clears solid cells. */
    lemma StepWithin(f: seq<real>, x: Input)
      requires Walls() && |basin| == |f| == N * N && x.Fits(N * N) && Within(f, CAP)
      ensures Within(BeforeClamp(f, x), CAP)
      ensures Clamped(BeforeClamp(f, x)) == Walled(BeforeClamp(f, x))
    {
      SpreadWithin(f, x);
      FlowedWithin(Spread(f, x), x);
      DecayWithin(Flowed(Spread(f, x), x), x.decay);
    }

    method SpreadDensity(x: Input)
      requires Valid()
      modifies density
      ensures density[..] == Spread(old(density[..]), x)
    {
      if x.pouring {
        AddInlet(x.nozzle, x.inletDensity, x.sine);
      }
      var previous := density[..];
      Diffuse(density, previous, x.diffusion, x.dt, 8, false);
    }

    method FlowDensity(x: Input)
      requires Valid() && x.Fits(N * N)
      modifies this, density
      ensures Valid() && fresh(density) && density[..] == Flowed(old(density[..]), x)
    {
      var previous := density[..];
      Advect(density, previous, x.u, x.v, x.dt);
      SettleDensity(x.u);
    }

    /** The density part of one step. */
    method Step(x: Input)
      requires Valid() && x.Fits(N * N)
      modifies this, density
      ensures Valid() && fresh(density) && density[..] == Clamped(BeforeClamp(old(density[..]), x))
    {
      SpreadDensity(x);
      FlowDensity(x);
      Decay(x.decay);
      ClampDensity();
    }

    /** The densities after a run: one clamped step after the other. */
    function Simulated(f: seq<real>, inputs: seq<Input>): (f': seq<real>)
      requires Walls() && |basin| == |f| == N * N && forall x <- inputs :: x.Fits(N * N)
      ensures |f'| == |f|
    {
      if inputs == [] then f
      else
        var n := |inputs| - 1;
        Clamped(BeforeClamp(Simulated(f, inputs[..n]), inputs[n]))
    }

    /** Densities within the cap stay there over any run, and in every step the clamp changes no fluid cell. */
    lemma {:induction false} SimulatedWithin(f: seq<real>, inputs: seq<Input>)
      requires Walls() && |basin| == |f| == N * N && (forall x <- inputs :: x.Fits(N * N)) && Within(f, CAP)
      ensures Within(Simulated(f, inputs), CAP)
      ensures inputs != [] ==>
        var n := |inputs| - 1;
        Simulated(f, inputs) == Walled(BeforeClamp(Simulated(f, inputs[..n]), inputs[n]))
    {
      if inputs != [] {
        var n := |inputs| - 1;
        SimulatedWithin(f, inputs[..n]);
        StepWithin(Simulated(f, inputs[..n]), inputs[n]);
      }
    }

    method Simulate(inputs: seq<Input>)
      requires Valid() && forall x <- inputs :: x.Fits(N * N)
      modifies this, density
      ensures Valid() && density[..] == Simulated(old(density[..]), inputs)
    {
      assert inputs[..0] == [];
      for i := 0 to |inputs|
        invariant Valid() && (density == old(density) || fresh(density))
        invariant density[..] == Simulated(old(density[..]), inputs[..i])
      {
        assert inputs[i] in inputs && inputs[..i + 1][..i] == inputs[..i];
        Step(inputs[i]);
      }
      assert inputs[..|inputs|] == inputs;
    }
  }

  /** Any run from an empty grid keeps every density between zero and the cap. */
  method Run(n: nat, solid: seq<bool>, basin: seq<bool>, inputs: seq<Input>) returns (grid: FlowGrid)
    requires n >= 2 && |solid| == |basin| == n * n && forall x <- inputs :: x.Fits(n * n)
    ensures fresh(grid) && grid.Valid() && grid.N == n && grid.solid == solid && grid.basin == basin
    ensures grid.density[..] == grid.Simulated(Empty(n * n), inputs) && Within(grid.density[..], CAP)
  {
    grid := new FlowGrid(n, solid, basin);
    grid.SimulatedWithin(grid.density[..], inputs);
    grid.Simulate(inputs);
  }
}
