/** What the phases of a fluid step do to the water: settling lets it sink and drift with the flow, advection
    carries values along the velocities, and a field that diffusion's sweep keeps is one that solves the
    implicit diffusion equation. */
module FluidLaws {
  import opened Arithmetic
  import opened Fluid

  // ---------------------------------------------------------------- settling

  /** The water in the cells of a region, among the first k. */
  function MassIn(s: seq<real>, region: nat -> bool, k: nat): real
    requires k <= |s|
  {
    if k == 0 then 0.0 else MassIn(s, region, k - 1) + if region(k - 1) then s[k - 1] else 0.0
  }

  lemma {:induction false} MassInUpdate(s: seq<real>, region: nat -> bool, k: nat, i: nat, x: real)
    requires k <= |s| && i < |s|
    ensures MassIn(s[i := x], region, k) == MassIn(s, region, k) + if i < k && region(i) then x - s[i] else 0.0
  {
    if k > 0 {
      MassInUpdate(s, region, k - 1, i, x);
    }
  }

  lemma {:induction false} MassOfPrefix(s: seq<real>, k: nat)
    requires k < |s|
    ensures Mass(s[..k + 1]) == Mass(s[..k]) + s[k]
  {
    if k > 0 {
      assert s[..k + 1][1..] == s[1..][..k] && s[..k][1..] == s[1..][..k - 1];
      MassOfPrefix(s[1..], k - 1);
    }
  }

  /** The cells from m on. */
  function From(m: nat): nat -> bool {
    (i: nat) => i >= m
  }

  /** What is not in the cells from m on is in those before. */
  lemma {:induction false} MassAfter(s: seq<real>, m: nat, k: nat)
    requires m <= k <= |s|
    ensures MassIn(s, From(m), k) == Mass(s[..k]) - Mass(s[..m])
    decreases k
  {
    if k > m {
      MassAfter(s, m, k - 1);
      MassOfPrefix(s, k - 1);
    } else {
      NoneBefore(s, m, k);
    }
  }

  lemma {:induction false} NoneBefore(s: seq<real>, m: nat, k: nat)
    requires k <= m <= |s|
    ensures MassIn(s, From(m), k) == 0.0
  {
    if k > 0 {
      NoneBefore(s, m, k - 1);
    }
  }

  /** A region that no falling water can leave: with each inner cell it has the cell below and, on the side the
      velocity points to, the cell beside and the one below that. */
  ghost predicate Closed(g: FlowGrid, region: nat -> bool, u: seq<real>)
    requires g.Walls() && |u| == g.N * g.N
  {
    forall r: nat, c: nat | 1 <= r < g.N - 1 && 1 <= c < g.N - 1 && region(g.Index(r, c)) ::
      && region(g.Index(r + 1, c))
      && region(g.Index(r, Side(u[g.Index(r, c)], c))) && region(g.Index(r + 1, Side(u[g.Index(r, c)], c)))
  }

  function Side(u: real, c: nat): nat
    requires c > 0
  {
    if u >= 0.0 then c + 1 else c - 1
  }

  /** A field on its way from `first`, with no less in the region than `before`. */
  ghost predicate Gains(now: seq<real>, before: seq<real>, first: seq<real>, region: nat -> bool) {
    Settling(now, first) && |now| == |before| && MassIn(now, region, |now|) >= MassIn(before, region, |before|)
  }

  lemma MoveGains(now: seq<real>, region: nat -> bool, i: nat, j: nat, amount: real)
    requires i < |now| && j < |now| && amount >= 0.0 && (region(i) ==> region(j))
    ensures MassIn(Moved(now, i, j, amount), region, |now|) >= MassIn(now, region, |now|)
  {
    var t := now[i := now[i] - amount];
    MassInUpdate(now, region, |now|, i, now[i] - amount);
    MassInUpdate(t, region, |now|, j, t[j] + amount);
  }

  lemma TryGains(g: FlowGrid, now: seq<real>, before: seq<real>, first: seq<real>, region: nat -> bool,
                 i: nat, nr: nat, nc: nat, fraction: real)
    requires g.Walls() && |now| == g.N * g.N && i < g.N * g.N && nr < g.N && nc < g.N && 0.0 <= fraction <= 1.0
    requires Gains(now, before, first, region) && (region(i) ==> region(g.Index(nr, nc)))
    ensures Gains(g.Tried(now, i, nr, nc, fraction), before, first, region)
  {
    var j := g.Index(nr, nc);
    g.TriedSettles(now, first, i, nr, nc, fraction);
    if !g.IsSolid(nr, nc) && now[j] < SETTLED {
      AmountBound(now[i], fraction, SETTLED - now[j]);
      MoveGains(now, region, i, j, Amount(now[i], fraction, SETTLED - now[j]));
    }
  }

  lemma FallGains(g: FlowGrid, now: seq<real>, before: seq<real>, first: seq<real>, region: nat -> bool,
                  i: nat, r: nat, c: nat, u: real)
    requires g.Walls() && |now| == g.N * g.N && i < g.N * g.N && 1 <= r < g.N - 1 && 1 <= c < g.N - 1
    requires Gains(now, before, first, region)
    requires region(i) ==>
      region(g.Index(r + 1, c)) && region(g.Index(r, Side(u, c))) && region(g.Index(r + 1, Side(u, c)))
    ensures Gains(g.Fallen(now, i, r, c, u), before, first, region)
  {
    var side := Side(u, c);
    var down := g.Tried(now, i, r + 1, c, 0.42);
    TryGains(g, now, before, first, region, i, r + 1, c, 0.42);
    TryGains(g, down, before, first, region, i, r + 1, side, 0.18);
    TryGains(g, g.Tried(down, i, r + 1, side, 0.18), before, first, region, i, r, side, 0.07);
  }

  lemma {:induction false} RowGains(g: FlowGrid, now: seq<real>, before: seq<real>, first: seq<real>,
                                    region: nat -> bool, u: seq<real>, r: nat, c: nat)
    requires g.Walls() && |now| == |u| == g.N * g.N && 1 <= r < g.N - 1 && c <= g.N - 1
    requires Closed(g, region, u) && Gains(now, before, first, region)
    ensures Gains(g.RowSettled(now, first, u, r, c), before, first, region)
  {
    if c > 1 {
      var i := g.Index(r, c - 1);
      RowGains(g, now, before, first, region, u, r, c - 1);
      FallGains(g, g.RowSettled(now, first, u, r, c - 1), before, first, region, i, r, c - 1, u[i]);
    }
  }

  /** Settling takes no water out of a closed region. */
  lemma {:induction false} RegionGains(g: FlowGrid, region: nat -> bool, f: seq<real>, u: seq<real>, r: nat)
    requires g.Walls() && |f| == |u| == g.N * g.N && Closed(g, region, u) && forall i | 0 <= i < |f| :: f[i] >= 0.0
    ensures Gains(g.RowsSettled(f, f, u, r), f, f, region)
    decreases g.N - r
  {
    if r + 2 < g.N {
      RegionGains(g, region, f, u, r + 1);
      RowGains(g, g.RowsSettled(f, f, u, r + 1), f, f, region, u, r + 1, g.N - 1);
    }
  }

  lemma RowsDown(g: FlowGrid, u: seq<real>, row: nat)
    requires g.Walls() && |u| == g.N * g.N && row <= g.N
    ensures Closed(g, From(row * g.N), u)
  {
    forall r: nat, c: nat | 1 <= r < g.N - 1 && 1 <= c < g.N - 1 && g.Index(r, c) >= row * g.N ensures r >= row {
      if r < row {
        RowEnds(g, r, row);
      }
    }
    forall r: nat, c: nat | row <= r < g.N && c < g.N ensures g.Index(r, c) >= row * g.N {
      RowEnds(g, row - 1, r);
    }
  }

  lemma RowEnds(g: FlowGrid, r: int, row: nat)
    requires r < row
    ensures r * g.N + g.N <= row * g.N
  {
    assert (row - r - 1) * g.N >= 0;
  }

  lemma SinksPast(g: FlowGrid, f: seq<real>, u: seq<real>, m: nat)
    requires g.Walls() && |f| == |u| == g.N * g.N && m <= |f| && Closed(g, From(m), u)
    requires forall i | 0 <= i < |f| :: f[i] >= 0.0
    ensures var settled := g.RowsSettled(f, f, u, 0);
      Mass(settled) == Mass(f) && Mass(settled[..m]) <= Mass(f[..m])
  {
    var settled := g.RowsSettled(f, f, u, 0);
    RegionGains(g, From(m), f, u, 0);
    MassAfter(f, m, |f|);
    MassAfter(settled, m, |f|);
    assert f[..|f|] == f && settled[..|f|] == settled;
  }

  /** Settling never raises the water: above any row there is no more of it than before, and all of it is
      still there. */
  lemma SettlingSinks(g: FlowGrid, f: seq<real>, u: seq<real>, row: nat)
    requires g.Walls() && |f| == |u| == g.N * g.N && row <= g.N && forall i | 0 <= i < |f| :: f[i] >= 0.0
    ensures row * g.N <= |f|
    ensures var settled := g.RowsSettled(f, f, u, 0);
      Mass(settled) == Mass(f) && Mass(settled[..row * g.N]) <= Mass(f[..row * g.N])
  {
    RowEnds(g, row - 1, g.N);
    RowsDown(g, u, row);
    SinksPast(g, f, u, row * g.N);
  }

  /** The cells in a column and those to the right of it. */
  function RightFrom(n: nat, column: nat): nat -> bool {
    (i: nat) => n > 0 && i % n >= column
  }

  /** The cells to the left of a column. */
  function LeftOf(n: nat, column: nat): nat -> bool {
    (i: nat) => n > 0 && i % n < column
  }

  lemma ColumnOf(g: FlowGrid, r: nat, c: nat)
    requires r < g.N && c < g.N
    ensures g.N > 0 && g.Index(r, c) % g.N == c
  {
    DivModUnique(g.Index(r, c), r, c, g.N);
  }

  lemma DownwindClosed(g: FlowGrid, u: seq<real>, column: nat)
    requires g.Walls() && |u| == g.N * g.N
    ensures (forall i | 0 <= i < |u| :: u[i] >= 0.0) ==> Closed(g, RightFrom(g.N, column), u)
    ensures (forall i | 0 <= i < |u| :: u[i] < 0.0) ==> Closed(g, LeftOf(g.N, column), u)
  {
    forall r: nat, c: nat | r < g.N && c < g.N
      ensures RightFrom(g.N, column)(g.Index(r, c)) == (c >= column)
      ensures LeftOf(g.N, column)(g.Index(r, c)) == (c < column)
    {
      ColumnOf(g, r, c);
    }
    RightwardClosed(g, RightFrom(g.N, column), u, column);
    LeftwardClosed(g, LeftOf(g.N, column), u, column);
  }

  lemma RightwardClosed(g: FlowGrid, region: nat -> bool, u: seq<real>, column: nat)
    requires g.Walls() && |u| == g.N * g.N
    requires forall r: nat, c: nat | r < g.N && c < g.N :: region(g.Index(r, c)) == (c >= column)
    ensures (forall i | 0 <= i < |u| :: u[i] >= 0.0) ==> Closed(g, region, u)
  {
  }

  lemma LeftwardClosed(g: FlowGrid, region: nat -> bool, u: seq<real>, column: nat)
    requires g.Walls() && |u| == g.N * g.N
    requires forall r: nat, c: nat | r < g.N && c < g.N :: region(g.Index(r, c)) == (c < column)
    ensures (forall i | 0 <= i < |u| :: u[i] < 0.0) ==> Closed(g, region, u)
  {
  }

  /** Water that settles drifts with the flow: where the flow is to the right everywhere, no column and those
      right of it lose any water; where it is to the left, those left of it do not. */
  lemma SettlingDrifts(g: FlowGrid, f: seq<real>, u: seq<real>, column: nat)
    requires g.Walls() && |f| == |u| == g.N * g.N && forall i | 0 <= i < |f| :: f[i] >= 0.0
    ensures (forall i | 0 <= i < |u| :: u[i] >= 0.0) ==>
      MassIn(g.RowsSettled(f, f, u, 0), RightFrom(g.N, column), |f|) >= MassIn(f, RightFrom(g.N, column), |f|)
    ensures (forall i | 0 <= i < |u| :: u[i] < 0.0) ==>
      MassIn(g.RowsSettled(f, f, u, 0), LeftOf(g.N, column), |f|) >= MassIn(f, LeftOf(g.N, column), |f|)
  {
    DownwindClosed(g, u, column);
    if forall i | 0 <= i < |u| :: u[i] >= 0.0 {
      RegionGains(g, RightFrom(g.N, column), f, u, 0);
    }
    if forall i | 0 <= i < |u| :: u[i] < 0.0 {
      RegionGains(g, LeftOf(g.N, column), f, u, 0);
    }
  }

  /** What a cell lets fall into an open one with room arrives there, and it keeps more than it must only where
      the other is then full. */
  lemma TryFills(g: FlowGrid, next: seq<real>, i: nat, nr: nat, nc: nat, fraction: real)
    requires g.Walls() && |next| == g.N * g.N && i < g.N * g.N && nr < g.N && nc < g.N && 0.0 <= fraction <= 1.0
    requires next[i] >= 0.0 && !g.IsSolid(nr, nc) && i != g.Index(nr, nc) && next[g.Index(nr, nc)] < SETTLED
    ensures var now, j := g.Tried(next, i, nr, nc, fraction), g.Index(nr, nc);
      && now[i] + now[j] == next[i] + next[j] && now[j] <= SETTLED
      && next[i] >= now[i] >= (1.0 - fraction) * next[i]
      && (now[i] > (1.0 - fraction) * next[i] ==> now[j] == SETTLED)
      && forall k | 0 <= k < |next| && k != i && k != j :: now[k] == next[k]
  {
    AmountBound(next[i], fraction, SETTLED - next[g.Index(nr, nc)]);
  }

  /** The inlet never lowers a nozzle cell below its cap and touches no other cell; decay takes nothing from
      solid cells, hardly anything from the basin and, at rate zero, everything elsewhere. */
  lemma InletAndDecay(g: FlowGrid, f: seq<real>, x: Input, i: nat)
    requires g.Walls() && |g.basin| == |f| == g.N * g.N && x.Fits(g.N * g.N) && i < |f| && f[i] >= 0.0
    ensures var poured := g.Poured(f, x.nozzle, x.inletDensity, x.sine);
      if i in x.nozzle then poured[i] >= f[i] || poured[i] == INLET_CAP else poured[i] == f[i]
    ensures var left := g.DecayOf(f, x.decay);
      && (g.solid[i] ==> left[i] == f[i])
      && (!g.solid[i] && g.basin[i] ==> left[i] == 0.99998 * f[i])
      && (!g.solid[i] && !g.basin[i] && x.decay == 0.0 ==> left[i] == 0.0)
  {
    var pulse := 0.88 + 0.16 * x.sine;
    assert pulse >= 0.0 && x.inletDensity * pulse >= 0.0;
  }

  // ---------------------------------------------------------------- advection

  /** Advection gives every inner fluid cell the value at its back-traced point, every other cell nothing. */
  lemma {:induction false} RowAdvectedAt(g: FlowGrid, f: seq<real>, source: seq<real>, u: seq<real>, v: seq<real>,
                                         scale: real, r: nat, c: nat, y: nat, x: nat)
    requires g.Walls() && |f| == |source| == |u| == |v| == g.N * g.N
    requires r < g.N && c <= g.N && y < g.N && x < g.N
    ensures g.RowAdvected(f, source, u, v, scale, r, c)[g.Index(y, x)] ==
      if y == r && 1 <= x < c && !g.solid[g.Index(y, x)] then g.Carried(source, u, v, scale, y, x) else f[g.Index(y, x)]
  {
    if c > 1 {
      RowAdvectedAt(g, f, source, u, v, scale, r, c - 1, y, x);
      Apart(g, y, x, r, c - 1);
    }
  }

  lemma Apart(g: FlowGrid, y: nat, x: nat, r: nat, c: nat)
    requires y < g.N && x < g.N && r < g.N && c < g.N
    ensures g.Index(y, x) == g.Index(r, c) <==> y == r && x == c
  {
    DivModUnique(g.Index(y, x), y, x, g.N);
    DivModUnique(g.Index(r, c), r, c, g.N);
  }

  lemma {:induction false} RowsAdvectedAt(g: FlowGrid, f: seq<real>, source: seq<real>, u: seq<real>, v: seq<real>,
                                          scale: real, r: nat, y: nat, x: nat)
    requires g.Walls() && |f| == |source| == |u| == |v| == g.N * g.N && 1 <= r <= g.N && y < g.N && x < g.N
    ensures g.RowsAdvected(f, source, u, v, scale, r)[g.Index(y, x)] ==
      if 1 <= y < r && 1 <= x < g.N - 1 && !g.solid[g.Index(y, x)]
      then g.Carried(source, u, v, scale, y, x) else f[g.Index(y, x)]
  {
    if r > 1 {
      RowsAdvectedAt(g, f, source, u, v, scale, r - 1, y, x);
      RowAdvectedAt(g, g.RowsAdvected(f, source, u, v, scale, r - 1), source, u, v, scale, r - 1, g.N - 1, y, x);
    }
  }

  /** Where the velocities move a value by whole cells from one inner cell to another, it arrives as it was:
      a cell takes the value found down the velocity, rows by v and columns by u. */
  lemma AdvectionCarries(g: FlowGrid, source: seq<real>, u: seq<real>, v: seq<real>, dt: real,
                         y: nat, x: nat, down: int, right: int)
    requires g.Walls() && |source| == |u| == |v| == g.N * g.N && 1 <= y < g.N - 1 && 1 <= x < g.N - 1
    requires var i, scale := g.Index(y, x), dt * (g.N - 2) as real;
      !g.solid[i] && scale * v[i] == down as real && scale * u[i] == right as real
    requires 1 <= y - down < g.N - 1 && 1 <= x - right < g.N - 1 && !g.solid[g.Index(y - down, x - right)]
    ensures g.AdvectionOf(source, u, v, dt)[g.Index(y, x)] == source[g.Index(y - down, x - right)]
  {
    var scale := dt * (g.N - 2) as real;
    RowsAdvectedAt(g, Empty(g.N * g.N), source, u, v, scale, g.N - 1, y, x);
    WholeCell(g, source, y - down, x - right);
  }

  lemma WholeCell(g: FlowGrid, source: seq<real>, y: nat, x: nat)
    requires g.Walls() && |source| == g.N * g.N && y < g.N && x < g.N && !g.solid[g.Index(y, x)]
    ensures g.BilinearSample(source, y as real, x as real) == source[g.Index(y, x)]
  {
  }

  // ---------------------------------------------------------------- diffusion

  /** Every inner fluid cell differs from its source by what flows in from its four neighbours. */
  ghost predicate Solves(g: FlowGrid, f: seq<real>, source: seq<real>, a: real, zeroOnSolid: bool)
    requires g.Walls() && |f| == |source| == g.N * g.N
  {
    SolvedBefore(g, f, source, a, zeroOnSolid, g.N - 1)
  }

  ghost predicate SolvedBefore(g: FlowGrid, f: seq<real>, source: seq<real>, a: real, zeroOnSolid: bool, row: nat)
    requires g.Walls() && |f| == |source| == g.N * g.N && row <= g.N
  {
    forall r: nat, c: nat | 1 <= r < row && 1 <= c < g.N - 1 && !g.solid[g.Index(r, c)] ::
      Balanced(g, f, source, a, zeroOnSolid, r, c)
  }

  predicate Balanced(g: FlowGrid, f: seq<real>, source: seq<real>, a: real, zeroOnSolid: bool, r: nat, c: nat)
    requires g.Walls() && |f| == |source| == g.N * g.N && r < g.N && c < g.N
  {
    Balance(source[g.Index(r, c)], f[g.Index(r, c)], a, Inflow(g, f, zeroOnSolid, r, c))
  }

  predicate Balance(source: real, x: real, a: real, inflow: real) {
    x - source == a * inflow
  }

  /** How much more than the cell itself its four neighbours hold. */
  function Inflow(g: FlowGrid, f: seq<real>, zeroOnSolid: bool, r: nat, c: nat): real
    requires g.Walls() && |f| == g.N * g.N && r < g.N && c < g.N
  {
    var x := f[g.Index(r, c)];
    (g.NeighborValue(f, r, c, r - 1, c, zeroOnSolid) - x) + (g.NeighborValue(f, r, c, r + 1, c, zeroOnSolid) - x)
      + (g.NeighborValue(f, r, c, r, c - 1, zeroOnSolid) - x) + (g.NeighborValue(f, r, c, r, c + 1, zeroOnSolid) - x)
  }

  lemma KeptIffBalanced(g: FlowGrid, f: seq<real>, source: seq<real>, a: real, zeroOnSolid: bool, r: nat, c: nat)
    requires g.Walls() && |f| == |source| == g.N * g.N && r < g.N && c < g.N && a > 0.0
    ensures g.Relaxed(f, source, a, zeroOnSolid, r, c) == f[g.Index(r, c)]
       <==> Balanced(g, f, source, a, zeroOnSolid, r, c)
  {
    var x, sum := f[g.Index(r, c)], g.Neighbours(f, r, c, zeroOnSolid);
    AverageIs(source[g.Index(r, c)], sum, a, x);
    assert Inflow(g, f, zeroOnSolid, r, c) == sum - 4.0 * x;
  }

  lemma AverageIs(source: real, sum: real, a: real, x: real)
    requires a > 0.0
    ensures Averaged(source, sum, a) == x <==> Balance(source, x, a, sum - 4.0 * x)
  {
    var w := 1.0 + 4.0 * a;
    var q := (source + a * sum) / w;
    assert q * w == source + a * sum;
    assert x * w == x + 4.0 * (a * x) && a * (sum - 4.0 * x) == a * sum - 4.0 * (a * x);
    if q > x {
      Positive(q - x, w);
    } else if q < x {
      Positive(x - q, w);
    }
  }

  /** A row's sweep writes its inner cells before column c, and nothing else. */
  lemma {:induction false} RowSweptElsewhere(g: FlowGrid, f: seq<real>, source: seq<real>, a: real,
                                             zeroOnSolid: bool, r: nat, c: nat, y: nat, x: nat)
    requires g.Walls() && |f| == |source| == g.N * g.N && a > 0.0
    requires r < g.N && c <= g.N && y < g.N && x < g.N && (y != r || x >= c || x == 0)
    ensures g.RowSwept(f, source, a, zeroOnSolid, r, c)[g.Index(y, x)] == f[g.Index(y, x)]
  {
    if c > 1 {
      RowSweptElsewhere(g, f, source, a, zeroOnSolid, r, c - 1, y, x);
      Apart(g, y, x, r, c - 1);
    }
  }

  ghost predicate RowSolved(g: FlowGrid, f: seq<real>, source: seq<real>, a: real, zeroOnSolid: bool, r: nat, c: nat)
    requires g.Walls() && |f| == |source| == g.N * g.N && r < g.N && c <= g.N
  {
    forall x: nat | 1 <= x < c && !g.solid[g.Index(r, x)] :: Balanced(g, f, source, a, zeroOnSolid, r, x)
  }

  /** The sweep of a row leaves the field as it is exactly if all the cells it writes are balanced. */
  lemma {:induction false} RowKeptIff(g: FlowGrid, f: seq<real>, source: seq<real>, a: real, zeroOnSolid: bool,
                                      r: nat, c: nat)
    requires g.Walls() && |f| == |source| == g.N * g.N && a > 0.0 && r < g.N && c <= g.N
    ensures g.RowSwept(f, source, a, zeroOnSolid, r, c) == f <==> RowSolved(g, f, source, a, zeroOnSolid, r, c)
  {
    if c > 1 {
      var i, start := g.Index(r, c - 1), g.RowSwept(f, source, a, zeroOnSolid, r, c - 1);
      RowKeptIff(g, f, source, a, zeroOnSolid, r, c - 1);
      RowSweptElsewhere(g, f, source, a, zeroOnSolid, r, c - 1, r, c - 1);
      KeptIffBalanced(g, f, source, a, zeroOnSolid, r, c - 1);
      if g.RowSwept(f, source, a, zeroOnSolid, r, c) == f {
        assert start == f[i := start[i]];
      }
    }
  }

  lemma CellAt(g: FlowGrid, i: nat) returns (r: nat, c: nat)
    requires g.Walls() && i < g.N * g.N
    ensures r < g.N && c < g.N && g.Index(r, c) == i
  {
    r, c := i / g.N, i % g.N;
    if r >= g.N {
      RowEnds(g, g.N - 1, r);
    }
  }

  /** The sweep of the rows before row r leaves the rest alone. */
  lemma {:induction false} RowsSweptElsewhere(g: FlowGrid, f: seq<real>, source: seq<real>, a: real,
                                              zeroOnSolid: bool, r: nat, y: nat, x: nat)
    requires g.Walls() && |f| == |source| == g.N * g.N && a > 0.0 && 1 <= r <= y < g.N && x < g.N
    ensures g.RowsSwept(f, source, a, zeroOnSolid, r)[g.Index(y, x)] == f[g.Index(y, x)]
  {
    if r > 1 {
      RowsSweptElsewhere(g, f, source, a, zeroOnSolid, r - 1, y, x);
      RowSweptElsewhere(g, g.RowsSwept(f, source, a, zeroOnSolid, r - 1), source, a, zeroOnSolid, r - 1, g.N - 1, y, x);
    }
  }

  /** If the rows before r + 1 come out as they were, so did the rows before r. */
  lemma RowsKeptBefore(g: FlowGrid, f: seq<real>, source: seq<real>, a: real, zeroOnSolid: bool, r: nat)
    requires g.Walls() && |f| == |source| == g.N * g.N && a > 0.0 && 1 <= r < g.N
    requires g.RowsSwept(f, source, a, zeroOnSolid, r + 1) == f
    ensures g.RowsSwept(f, source, a, zeroOnSolid, r) == f
  {
    var start := g.RowsSwept(f, source, a, zeroOnSolid, r);
    forall i: nat | i < |f| ensures start[i] == f[i] {
      var y, x := CellAt(g, i);
      if y == r {
        RowsSweptElsewhere(g, f, source, a, zeroOnSolid, r, y, x);
      } else {
        RowSweptElsewhere(g, start, source, a, zeroOnSolid, r, g.N - 1, y, x);
      }
    }
  }

  lemma {:induction false} RowsKeptIff(g: FlowGrid, f: seq<real>, source: seq<real>, a: real, zeroOnSolid: bool,
                                       r: nat)
    requires g.Walls() && |f| == |source| == g.N * g.N && a > 0.0 && 1 <= r <= g.N
    ensures g.RowsSwept(f, source, a, zeroOnSolid, r) == f
       <==> SolvedBefore(g, f, source, a, zeroOnSolid, r)
  {
    if r > 1 {
      RowsKeptIff(g, f, source, a, zeroOnSolid, r - 1);
      RowKeptIff(g, f, source, a, zeroOnSolid, r - 1, g.N - 1);
      if g.RowsSwept(f, source, a, zeroOnSolid, r) == f {
        RowsKeptBefore(g, f, source, a, zeroOnSolid, r - 1);
      }
    }
  }

  /** A field comes out of a sweep as it was exactly if it solves the implicit diffusion equation. */
  lemma SweepKeepsIff(g: FlowGrid, f: seq<real>, source: seq<real>, a: real, zeroOnSolid: bool)
    requires g.Walls() && |f| == |source| == g.N * g.N && a > 0.0
    ensures g.RowsSwept(f, source, a, zeroOnSolid, g.N - 1) == f <==> Solves(g, f, source, a, zeroOnSolid)
  {
    RowsKeptIff(g, f, source, a, zeroOnSolid, g.N - 1);
  }
}
