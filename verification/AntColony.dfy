/** Pheromone-weighted tour construction, the global best and the pheromone update of the route solver, in
    real arithmetic.  Powers and random draws are parameters. */
module AntColony {
  import opened Arithmetic
  import opened Sequences
  import opened TwoOpt

  const TAU_MIN: real := 0.01
  const TAU_MAX: real := 10.0
  const TAU_INIT: real := 0.1
  const EVAP_RATE: real := 0.12
  const Q_DEPOSIT: real := 100.0
  const NEGLIGIBLE: real := 0.000000000001
  const HUGE: real := 1000000000000000000.0

  // ---------------------------------------------------------------- constructing a tour

  /** Every one of n cities once. */
  ghost predicate Tour(n: nat, t: seq<City>) {
    |t| == n && Distinct(t) && forall i | 0 <= i < n :: t[i] < n
  }

  /** Cities not visited yet. */
  function Free(visited: seq<bool>): nat {
    if visited == [] then 0 else (if visited[0] then 0 else 1) + Free(visited[1..])
  }

  lemma {:induction false} FreeAfter(visited: seq<bool>, c: nat)
    requires c < |visited| && !visited[c]
    ensures Free(visited[c := true]) == Free(visited) - 1
  {
    if c == 0 {
      assert visited[0 := true][1..] == visited[1..];
    } else {
      assert visited[c := true][1..] == visited[1..][c - 1 := true];
      FreeAfter(visited[1..], c - 1);
    }
  }

  lemma {:induction false} FreeExists(visited: seq<bool>)
    ensures Free(visited) > 0 ==> exists c :: 0 <= c < |visited| && !visited[c]
    ensures (forall c | 0 <= c < |visited| :: !visited[c]) ==> Free(visited) == |visited|
  {
    if visited != [] {
      FreeExists(visited[1..]);
      if Free(visited) > 0 && visited[0] {
        var c :| 0 <= c < |visited| - 1 && !visited[1..][c];
        assert !visited[c + 1];
      }
    }
  }

  /** The weight of the unvisited cities below j. */
  function Cumulative(visited: seq<bool>, weight: (City, City) -> real, cur: City, j: nat): real
    requires j <= |visited|
  {
    if j == 0 then 0.0 else Cumulative(visited, weight, cur, j - 1) + if visited[j - 1] then 0.0 else weight(cur, j - 1)
  }

  /** Over a stretch of cities the running weight rises by the weight of the only one of them that is not visited,
      or by nothing if there is none. */
  lemma {:induction false} CumulativeOver(visited: seq<bool>, weight: (City, City) -> real, cur: City, j: nat, c: nat,
                                          k: nat)
    requires j <= c < k <= |visited| && forall i | j <= i < k && i != c :: visited[i]
    ensures Cumulative(visited, weight, cur, k)
      == Cumulative(visited, weight, cur, j) + if visited[c] then 0.0 else weight(cur, c)
    decreases k
  {
    if c < k - 1 {
      CumulativeOver(visited, weight, cur, j, c, k - 1);
    } else if j < c {
      CumulativeOver(visited, weight, cur, j, j, c);
    }
  }

  method FirstFree(visited: array<bool>) returns (c: City)
    requires Free(visited[..]) > 0
    ensures c < visited.Length && !visited[c] && forall k | 0 <= k < c :: visited[k]
  {
    FreeExists(visited[..]);
    c := 0;
    while visited[c]
      invariant c < visited.Length && forall k | 0 <= k < c :: visited[k]
      decreases visited.Length - c
    {
      c := c + 1;
    }
  }

  method TotalWeight(visited: array<bool>, weight: (City, City) -> real, cur: City) returns (total: real)
    ensures total == Cumulative(visited[..], weight, cur, visited.Length)
  {
    total := 0.0;
    for j := 0 to visited.Length
      invariant total == Cumulative(visited[..], weight, cur, j)
    {
      if !visited[j] {
        total := total + weight(cur, j);
      }
    }
  }

  /** The first unvisited city at which the running weight reaches r. */
  ghost predicate FirstReaching(visited: seq<bool>, weight: (City, City) -> real, cur: City, r: real, c: City) {
    && c < |visited| && !visited[c] && Cumulative(visited, weight, cur, c + 1) >= r
    && forall k | 0 <= k < c && !visited[k] :: Cumulative(visited, weight, cur, k + 1) < r
  }

  ghost predicate FirstUnvisited(visited: seq<bool>, c: City) {
    c < |visited| && !visited[c] && forall k | 0 <= k < c :: visited[k]
  }

  ghost predicate Spun(visited: seq<bool>, weight: (City, City) -> real, cur: City, r: real, c: City) {
    if exists k :: FirstReaching(visited, weight, cur, r, k) then FirstReaching(visited, weight, cur, r, c)
    else FirstUnvisited(visited, c)
  }

  ghost predicate Chosen(visited: seq<bool>, weight: (City, City) -> real, cur: City, draw: (nat, real) -> real,
                         step: nat, c: City) {
    var total := Cumulative(visited, weight, cur, |visited|);
    if total < NEGLIGIBLE then FirstUnvisited(visited, c) else Spun(visited, weight, cur, draw(step, total), c)
  }

  /** Weighted choice: the first unvisited city at which the running weight reaches r.  If the weights are
      negligible, or none reached it, the first unvisited one. */
  method Choose(visited: array<bool>, weight: (City, City) -> real, cur: City, draw: (nat, real) -> real, step: nat)
    returns (c: City)
    requires Free(visited[..]) > 0
    ensures c < visited.Length && !visited[c] && Chosen(visited[..], weight, cur, draw, step, c)
  {
    var total := TotalWeight(visited, weight, cur);
    if total < NEGLIGIBLE {
      c := FirstFree(visited);
      return;
    }
    c := Spin(visited, weight, cur, draw(step, total));
  }

  method Spin(visited: array<bool>, weight: (City, City) -> real, cur: City, r: real) returns (c: City)
    requires Free(visited[..]) > 0
    ensures c < visited.Length && !visited[c] && Spun(visited[..], weight, cur, r, c)
  {
    var cumul := 0.0;
    for j := 0 to visited.Length
      invariant cumul == Cumulative(visited[..], weight, cur, j)
      invariant forall k | 0 <= k < j && !visited[k] :: Cumulative(visited[..], weight, cur, k + 1) < r
    {
      if !visited[j] {
        cumul := cumul + weight(cur, j);
        if cumul >= r {
          assert FirstReaching(visited[..], weight, cur, r, j);
          return j;
        }
      }
    }
    c := FirstFree(visited);
  }

  /** In real arithmetic a draw within the total always reaches some city, zero included as long as one
      is left to visit: the last resort is never needed. */
  lemma {:induction false} SomeCityReaches(visited: seq<bool>, weight: (City, City) -> real, cur: City, r: real, j: nat)
    requires j <= |visited| && r <= Cumulative(visited, weight, cur, j)
    requires r > 0.0 || exists k :: 0 <= k < j && !visited[k]
    ensures exists c :: FirstReaching(visited, weight, cur, r, c)
  {
    if visited[j - 1] {
      SomeCityReaches(visited, weight, cur, r, j - 1);
    } else if k :| 0 <= k < j - 1 && !visited[k] && r <= Cumulative(visited, weight, cur, k + 1) {
      SomeCityReaches(visited, weight, cur, r, k + 1);
    } else {
      assert FirstReaching(visited, weight, cur, r, j - 1);
    }
  }

  ghost function Visited(n: nat, t: seq<City>): (v: seq<bool>)
    ensures |v| == n && forall c | 0 <= c < n :: v[c] == (c in t)
  {
    seq(n, c => c in t)
  }

  /** Each city after the first was chosen by weight from its predecessor among those not visited before. */
  ghost predicate ChosenBy(n: nat, t: seq<City>, weight: (City, City) -> real, draw: (nat, real) -> real, k: nat)
    requires 0 < k < |t|
  {
    Chosen(Visited(n, t[..k]), weight, t[k - 1], draw, k, t[k])
  }

  lemma OneMoreChosen(n: nat, t: seq<City>, c: City, weight: (City, City) -> real, draw: (nat, real) -> real)
    requires t != [] && (forall k | 1 <= k < |t| :: ChosenBy(n, t, weight, draw, k))
    requires Chosen(Visited(n, t), weight, t[|t| - 1], draw, |t|, c)
    ensures forall k | 1 <= k < |t| + 1 :: ChosenBy(n, t + [c], weight, draw, k)
  {
    forall k | 1 <= k < |t| + 1 ensures ChosenBy(n, t + [c], weight, draw, k) {
      if k < |t| {
        assert (t + [c])[..k] == t[..k] && ChosenBy(n, t, weight, draw, k);
      } else {
        assert (t + [c])[..k] == t;
      }
    }
  }

  /** Whatever the weights and the draws, the constructed tour visits every city once, from the start. */
  method ConstructTour(n: nat, start: City, weight: (City, City) -> real, draw: (nat, real) -> real)
    returns (tour: seq<City>)
    requires start < n
    ensures Tour(n, tour) && tour[0] == start
    ensures forall k | 1 <= k < n :: ChosenBy(n, tour, weight, draw, k)
  {
    var visited := new bool[n](_ => false);
    FreeExists(visited[..]);
    FreeAfter(visited[..], start);
    tour := [start];
    visited[start] := true;
    for step := 1 to n
      invariant |tour| == step && Distinct(tour) && tour[0] == start && Free(visited[..]) == n - step
      invariant forall c <- tour :: c < n && visited[c]
      invariant visited[..] == Visited(n, tour)
      invariant forall k | 1 <= k < step :: ChosenBy(n, tour, weight, draw, k)
    {
      var cur := tour[|tour| - 1];
      var c := Choose(visited, weight, cur, draw, step);
      FreeAfter(visited[..], c);
      OneMoreChosen(n, tour, c, weight, draw);
      ghost var was := visited[..];
      tour := tour + [c];
      visited[c] := true;
      assert visited[..] == was[c := true];
    }
    assert forall i | 0 <= i < n :: tour[i] in tour;
  }

  // ---------------------------------------------------------------- the global best

  /** The shortest of the round's tours, if any is shorter than the huge start value. */
  method RoundBest(lengths: seq<real>) returns (len: real, idx: nat)
    ensures forall a | 0 <= a < |lengths| :: lengths[a] >= len
    ensures len == HUGE || (idx < |lengths| && lengths[idx] == len && len < HUGE)
  {
    len, idx := HUGE, 0;
    for a := 0 to |lengths|
      invariant forall k | 0 <= k < a :: lengths[k] >= len
      invariant len == HUGE || (idx < |lengths| && lengths[idx] == len && len < HUGE)
    {
      if lengths[a] < len {
        len, idx := lengths[a], a;
      }
    }
  }

  /** The best tour so far is a tour and its recorded length is its length; no round makes it longer, nor
      leaves it longer than any tour of the round. */
  method UpdateBest(d: (City, City) -> real, n: nat, best: seq<City>, bestLength: real, tours: seq<seq<City>>,
                    lengths: seq<real>)
    returns (best': seq<City>, bestLength': real, improved: bool)
    requires Symmetric(d) && Tour(n, best) && bestLength == Length(d, best) && bestLength <= HUGE
    requires |lengths| == |tours|
    requires forall a | 0 <= a < |tours| :: Tour(n, tours[a]) && lengths[a] == Length(d, tours[a])
    ensures Tour(n, best') && bestLength' == Length(d, best')
    ensures bestLength' <= bestLength && forall a | 0 <= a < |tours| :: bestLength' <= lengths[a]
    ensures improved <==> bestLength' < bestLength
    ensures !improved ==> best' == best
  {
    var len, idx := RoundBest(lengths);
    if len >= bestLength {
      return best, bestLength, false;
    }
    var t := tours[idx];
    var a := new City[|t|](i requires 0 <= i < |t| => t[i]);
    assert a[..] == t;
    var optimal := Polish(d, a, 10);
    SameCities(n, t, a[..]);
    bestLength' := TourLength(d, a);
    best', improved := a[..], true;
  }

  /** A rearranged tour is a tour. */
  lemma SameCities(n: nat, t: seq<City>, u: seq<City>)
    requires Tour(n, t) && multiset(u) == multiset(t)
    ensures Tour(n, u)
  {
    assert |u| == |multiset(u)| == |multiset(t)| == |t|;
    forall c | c in u ensures c < n {
      assert c in multiset(u);
      assert c in t;
    }
    assert forall i | 0 <= i < n :: u[i] in u;
    forall i, j | 0 <= i < j < |u| ensures u[i] != u[j] {
      if u[i] == u[j] {
        CountsTwice(u, i, j);
        DistinctCountsOnce(t, u[i]);
      }
    }
  }

  lemma CountsTwice(u: seq<City>, i: nat, j: nat)
    requires i < j < |u| && u[i] == u[j]
    ensures multiset(u)[u[i]] >= 2
  {
    assert u == u[..j] + [u[j]] + u[j + 1..];
    assert u[i] in u[..j] by {
      assert u[..j][i] == u[i];
    }
  }

  lemma {:induction false} DistinctCountsOnce(t: seq<City>, c: City)
    requires Distinct(t)
    ensures multiset(t)[c] <= 1
  {
    if t != [] {
      assert t == [t[0]] + t[1..];
      DistinctCountsOnce(t[1..], c);
      assert t[0] !in t[1..];
    }
  }

  // ---------------------------------------------------------------- pheromone

  /** Between the limits, and the same both ways. */
  ghost predicate Sane(tau: array2<real>)
    reads tau
  {
    && tau.Length0 == tau.Length1
    && forall i, j | 0 <= i < tau.Length0 && 0 <= j < tau.Length0 ::
      TAU_MIN <= tau[i, j] <= TAU_MAX && tau[i, j] == tau[j, i]
  }

  method Evaporate(tau: array2<real>)
    requires Sane(tau)
    modifies tau
    ensures Sane(tau)
    ensures forall i, j | 0 <= i < tau.Length0 && 0 <= j < tau.Length0 ::
      tau[i, j] == Max(TAU_MIN, old(tau[i, j]) * (1.0 - EVAP_RATE)) <= old(tau[i, j])
  {
    for i := 0 to tau.Length0
      invariant forall k, l | 0 <= k < tau.Length0 && 0 <= l < tau.Length0 ::
        tau[k, l] == if k < i then Max(TAU_MIN, old(tau[k, l]) * (1.0 - EVAP_RATE)) else old(tau[k, l])
    {
      for j := 0 to tau.Length0
        invariant forall k, l | 0 <= k < tau.Length0 && 0 <= l < tau.Length0 ::
          tau[k, l] ==
            if k < i || (k == i && l < j) then Max(TAU_MIN, old(tau[k, l]) * (1.0 - EVAP_RATE)) else old(tau[k, l])
      {
        tau[i, j] := Max(TAU_MIN, tau[i, j] * (1.0 - EVAP_RATE));
      }
    }
  }

  /** Step s of the tour goes between i and j, in either direction. */
  predicate Joins(tour: seq<City>, s: nat, i: City, j: City)
    requires s < |tour|
  {
    var ci, cj := tour[s], tour[After(s, |tour|)];
    (ci == i && cj == j) || (ci == j && cj == i)
  }

  /** What the first k steps of a tour lay between i and j: an amount for each step between them. */
  function LaidBy(tour: seq<City>, k: nat, amount: real, i: City, j: City): (sum: real)
    requires k <= |tour|
    ensures amount >= 0.0 ==> sum >= 0.0
  {
    if k == 0 then 0.0
    else LaidBy(tour, k - 1, amount, i, j) + if Joins(tour, k - 1, i, j) then amount else 0.0
  }

  /** In a tour of three or more cities two are next to each other once at most. */
  lemma NextToOnce(tour: seq<City>, s: nat, t: nat, i: City, j: City)
    requires Distinct(tour) && 3 <= |tour| && s < |tour| && t < |tour| && s != t && Joins(tour, t, i, j)
    ensures !Joins(tour, s, i, j)
  {
    assert tour[s] != tour[t];
  }

  /** A tour of three or more cities lays its amount once on each of its edges, in either direction, and nothing
      elsewhere. */
  lemma {:induction false} EdgesGetAmount(tour: seq<City>, k: nat, amount: real, i: City, j: City)
    requires Distinct(tour) && 3 <= |tour| && k <= |tour|
    ensures LaidBy(tour, k, amount, i, j) == if exists s :: 0 <= s < k && Joins(tour, s, i, j) then amount else 0.0
  {
    if k > 0 {
      EdgesGetAmount(tour, k - 1, amount, i, j);
      if Joins(tour, k - 1, i, j) {
        forall s | 0 <= s < k - 1 ensures !Joins(tour, s, i, j) {
          NextToOnce(tour, s, k - 1, i, j);
        }
      }
    }
  }

  /** Stopping at the limit on the way is stopping at it in the end. */
  lemma CapTwice(t: real, d: real)
    requires d >= 0.0
    ensures Min(TAU_MAX, Min(TAU_MAX, t) + d) == Min(TAU_MAX, t + d)
  {
  }

  /** Strengthens the edges of a tour in both directions: every pair of cities by the same amount for each step
      between them, up to the limit. */
  method Deposit(tau: array2<real>, tour: seq<City>, amount: real)
    requires Sane(tau) && Tour(tau.Length0, tour) && amount >= 0.0
    modifies tau
    ensures Sane(tau)
    ensures forall i, j | 0 <= i < tau.Length0 && 0 <= j < tau.Length0 ::
      tau[i, j] == Min(TAU_MAX, old(tau[i, j]) + LaidBy(tour, |tour|, amount, i, j))
  {
    for s := 0 to |tour|
      invariant Sane(tau)
      invariant forall i, j | 0 <= i < tau.Length0 && 0 <= j < tau.Length0 ::
        tau[i, j] == Min(TAU_MAX, old(tau[i, j]) + LaidBy(tour, s, amount, i, j))
    {
      DepositStep(tau, tour, s, amount);
      forall i, j | 0 <= i < tau.Length0 && 0 <= j < tau.Length0
        ensures tau[i, j] == Min(TAU_MAX, old(tau[i, j]) + LaidBy(tour, s + 1, amount, i, j))
      {
        CapTwice(old(tau[i, j]) + LaidBy(tour, s, amount, i, j), amount);
      }
    }
  }

  /** One step of the tour, in both directions. */
  method DepositStep(tau: array2<real>, tour: seq<City>, s: nat, deposit: real)
    requires Sane(tau) && Tour(tau.Length0, tour) && s < |tour| && deposit >= 0.0
    modifies tau
    ensures Sane(tau)
    ensures forall i, j | 0 <= i < tau.Length0 && 0 <= j < tau.Length0 ::
      tau[i, j] == if Joins(tour, s, i, j) then Min(TAU_MAX, old(tau[i, j]) + deposit) else old(tau[i, j])
  {
    var next := (s + 1) % |tour|;
    AfterIsRemainder(s, |tour|);
    var ci, cj := tour[s], tour[next];
    tau[ci, cj] := Min(TAU_MAX, tau[ci, cj] + deposit);
    tau[cj, ci] := tau[ci, cj];
  }

  // ---------------------------------------------------------------- stagnation

  const PATIENCE: nat := 25

  /** The counter once a round's outcome is known, and as the round leaves it. */
  function Counted(stagnation: nat, improved: bool): nat {
    if improved then 0 else stagnation + 1
  }

  function Stagnation(rounds: seq<bool>): nat {
    if rounds == [] then 0
    else
      var c := Counted(Stagnation(rounds[..|rounds| - 1]), rounds[|rounds| - 1]);
      if c > PATIENCE then 0 else c
  }

  /** Rounds in a row, up to the last, that improved nothing. */
  function Barren(rounds: seq<bool>): nat {
    if rounds == [] || rounds[|rounds| - 1] then 0 else 1 + Barren(rounds[..|rounds| - 1])
  }

  lemma OneRound(b: nat)
    ensures (b + 1) % (PATIENCE + 1) == if b % (PATIENCE + 1) == PATIENCE then 0 else b % (PATIENCE + 1) + 1
  {
    var q, m := b / (PATIENCE + 1), b % (PATIENCE + 1);
    if m == PATIENCE {
      DivModUnique(b + 1, q + 1, 0, PATIENCE + 1);
    } else {
      DivModUnique(b + 1, q, m + 1, PATIENCE + 1);
    }
  }

  /** The counter is the number of barren rounds modulo 26, so the pheromone is reset after every 26th of them
      in a row and at no other time. */
  lemma {:induction false} StagnationCountsBarren(rounds: seq<bool>)
    ensures Stagnation(rounds) == Barren(rounds) % (PATIENCE + 1)
    ensures rounds != [] ==>
      var c := Counted(Stagnation(rounds[..|rounds| - 1]), rounds[|rounds| - 1]);
      c > PATIENCE <==> Barren(rounds) > 0 && Barren(rounds) % (PATIENCE + 1) == 0
  {
    if rounds != [] {
      var before, last := rounds[..|rounds| - 1], rounds[|rounds| - 1];
      StagnationCountsBarren(before);
      OneRound(Barren(before));
      assert Barren(rounds) == if last then 0 else Barren(before) + 1;
    }
  }

  /** Forgets all pheromone once nothing has improved for too long. */
  method Escape(tau: array2<real>, stagnation: nat) returns (left: nat)
    requires Sane(tau)
    modifies tau
    ensures Sane(tau) && left == if stagnation > PATIENCE then 0 else stagnation
    ensures forall i, j | 0 <= i < tau.Length0 && 0 <= j < tau.Length0 ::
      tau[i, j] == if stagnation > PATIENCE then TAU_INIT else old(tau[i, j])
  {
    left := stagnation;
    if stagnation > PATIENCE {
      forall i, j | 0 <= i < tau.Length0 && 0 <= j < tau.Length0 {
        tau[i, j] := TAU_INIT;
      }
      left := 0;
    }
  }

  /** What the first k ants lay between two cities. */
  function Laid(tours: seq<seq<City>>, lengths: seq<real>, k: nat, i: City, j: City): (sum: real)
    requires k <= |tours| == |lengths| && forall a | 0 <= a < |tours| :: lengths[a] > 0.0
    ensures sum >= 0.0
  {
    if k == 0 then 0.0
    else
      Laid(tours, lengths, k - 1, i, j)
      + LaidBy(tours[k - 1], |tours[k - 1]|, Q_DEPOSIT / lengths[k - 1], i, j)
  }

  /** One ant more adds what it lays, the deposit shared out over its length. */
  lemma {:induction false} OneMoreAnt(tours: seq<seq<City>>, lengths: seq<real>, k: nat, tour: seq<City>, length: real,
                                      i: City, j: City)
    requires k <= |tours| == |lengths| && length > 0.0 && forall a | 0 <= a < |tours| :: lengths[a] > 0.0
    ensures Laid(tours + [tour], lengths + [length], k, i, j) == Laid(tours, lengths, k, i, j)
    ensures Laid(tours + [tour], lengths + [length], |tours| + 1, i, j)
      == Laid(tours + [tour], lengths + [length], |tours|, i, j)
         + LaidBy(tour, |tour|, Q_DEPOSIT / length, i, j)
  {
    if k > 0 {
      OneMoreAnt(tours, lengths, k - 1, tour, length, i, j);
    }
  }

  function Evaporated(t: real): real {
    Max(TAU_MIN, t * (1.0 - EVAP_RATE))
  }

  /** What a round leaves between two cities unless it forgets all: what evaporation leaves, and what the ants and
      twice the best tour lay, up to the limit. */
  function RoundLeaves(t: real, tours: seq<seq<City>>, lengths: seq<real>, best: seq<City>, bestLength: real,
                       i: City, j: City): real
    requires |tours| == |lengths| && bestLength > 0.0 && forall a | 0 <= a < |tours| :: lengths[a] > 0.0
  {
    Min(TAU_MAX, Evaporated(t) + Laid(tours, lengths, |tours|, i, j)
                 + LaidBy(best, |best|, Q_DEPOSIT * 2.0 / bestLength, i, j))
  }

  /** Every ant's deposit. */
  method DepositAll(tau: array2<real>, tours: seq<seq<City>>, lengths: seq<real>)
    requires Sane(tau) && |lengths| == |tours|
    requires forall a | 0 <= a < |tours| :: Tour(tau.Length0, tours[a]) && lengths[a] > 0.0
    modifies tau
    ensures Sane(tau)
    ensures forall i, j | 0 <= i < tau.Length0 && 0 <= j < tau.Length0 ::
      tau[i, j] == Min(TAU_MAX, old(tau[i, j]) + Laid(tours, lengths, |tours|, i, j))
  {
    for a := 0 to |tours|
      invariant Sane(tau)
      invariant forall i, j | 0 <= i < tau.Length0 && 0 <= j < tau.Length0 ::
        tau[i, j] == Min(TAU_MAX, old(tau[i, j]) + Laid(tours, lengths, a, i, j))
    {
      var amount := Q_DEPOSIT / lengths[a];
      Deposit(tau, tours[a], amount);
      forall i, j | 0 <= i < tau.Length0 && 0 <= j < tau.Length0
        ensures tau[i, j] == Min(TAU_MAX, old(tau[i, j]) + Laid(tours, lengths, a + 1, i, j))
      {
        CapTwice(old(tau[i, j]) + Laid(tours, lengths, a, i, j), LaidBy(tours[a], |tours[a]|, amount, i, j));
      }
    }
  }

  /** Evaporation and every deposit of a round. */
  method LayAll(tau: array2<real>, tours: seq<seq<City>>, lengths: seq<real>, best: seq<City>, bestLength: real)
    requires Sane(tau) && Tour(tau.Length0, best) && bestLength > 0.0 && |lengths| == |tours|
    requires forall a | 0 <= a < |tours| :: Tour(tau.Length0, tours[a]) && lengths[a] > 0.0
    modifies tau
    ensures Sane(tau)
    ensures forall i, j | 0 <= i < tau.Length0 && 0 <= j < tau.Length0 ::
      tau[i, j] == RoundLeaves(old(tau[i, j]), tours, lengths, best, bestLength, i, j)
  {
    Evaporate(tau);
    DepositAll(tau, tours, lengths);
    var amount := Q_DEPOSIT * 2.0 / bestLength;
    Deposit(tau, best, amount);
    forall i, j | 0 <= i < tau.Length0 && 0 <= j < tau.Length0
      ensures tau[i, j] == RoundLeaves(old(tau[i, j]), tours, lengths, best, bestLength, i, j)
    {
      CapTwice(Evaporated(old(tau[i, j])) + Laid(tours, lengths, |tours|, i, j),
               LaidBy(best, |best|, amount, i, j));
    }
  }

  /** The pheromone update of a round: evaporation, every ant's deposit, twice the deposit on the best tour, and
      the escape after every 26th round in a row that improved nothing. */
  method UpdatePheromone(tau: array2<real>, tours: seq<seq<City>>, lengths: seq<real>, best: seq<City>,
                         bestLength: real, ghost rounds: seq<bool>, stagnation: nat, improved: bool)
    returns (left: nat)
    requires Sane(tau) && Tour(tau.Length0, best) && bestLength > 0.0 && |lengths| == |tours|
    requires forall a | 0 <= a < |tours| :: Tour(tau.Length0, tours[a]) && lengths[a] > 0.0
    requires stagnation == Stagnation(rounds)
    modifies tau
    ensures Sane(tau) && left == Stagnation(rounds + [improved])
    ensures forall i, j | 0 <= i < tau.Length0 && 0 <= j < tau.Length0 ::
      tau[i, j] ==
        if !improved && Barren(rounds + [improved]) % (PATIENCE + 1) == 0 then TAU_INIT
        else RoundLeaves(old(tau[i, j]), tours, lengths, best, bestLength, i, j)
  {
    StagnationCountsBarren(rounds + [improved]);
    assert (rounds + [improved])[..|rounds|] == rounds;
    LayAll(tau, tours, lengths, best, bestLength);
    left := Escape(tau, Counted(stagnation, improved));
  }
}
