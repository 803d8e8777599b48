/** Local search on closed tours over a symmetric distance, in real arithmetic. */
module TwoOpt {

  type City = nat

  const TOLERANCE: real := 0.000001

  ghost predicate Symmetric(d: (City, City) -> real) {
    forall a: City, b: City :: d(a, b) == d(b, a)
  }

  // ---------------------------------------------------------------- lengths

  /** The length of an open path. */
  function Path(d: (City, City) -> real, s: seq<City>): real {
    if |s| <= 1 then 0.0 else d(s[0], s[1]) + Path(d, s[1..])
  }

  /** The length of the closed tour. */
  function Length(d: (City, City) -> real, t: seq<City>): real {
    if t == [] then 0.0 else Path(d, t + [t[0]])
  }

  function Reversed(s: seq<City>): (r: seq<City>)
    ensures |r| == |s|
  {
    if s == [] then [] else Reversed(s[1..]) + [s[0]]
  }

  lemma {:induction false} ReversedAt(s: seq<City>, k: nat)
    requires k < |s|
    ensures Reversed(s)[k] == s[|s| - 1 - k]
  {
    if k < |s| - 1 {
      ReversedAt(s[1..], k);
    }
  }

  lemma {:induction false} ReversedKeeps(s: seq<City>)
    ensures multiset(Reversed(s)) == multiset(s)
  {
    if s != [] {
      ReversedKeeps(s[1..]);
      assert s == [s[0]] + s[1..];
    }
  }

  lemma {:induction false} PathConcat(d: (City, City) -> real, a: seq<City>, b: seq<City>)
    requires a != [] && b != []
    ensures Path(d, a + b) == Path(d, a) + d(a[|a| - 1], b[0]) + Path(d, b)
  {
    if |a| == 1 {
      assert (a + b)[1..] == b;
    } else {
      assert (a + b)[1..] == a[1..] + b;
      PathConcat(d, a[1..], b);
    }
  }

  lemma {:induction false} PathReversed(d: (City, City) -> real, s: seq<City>)
    requires Symmetric(d)
    ensures Path(d, Reversed(s)) == Path(d, s)
  {
    if |s| > 1 {
      var r := Reversed(s[1..]);
      PathReversed(d, s[1..]);
      PathConcat(d, r, [s[0]]);
      ReversedAt(s[1..], |s| - 2);
    }
  }

  /** The position after i on a tour of n. */
  function After(i: nat, n: nat): nat {
    if i + 1 == n then 0 else i + 1
  }

  lemma AfterIsRemainder(i: nat, n: nat)
    requires i < n
    ensures (i + 1) % n == After(i, n)
  {
  }

  /** The sum of the tour's first i edges. */
  function Edges(d: (City, City) -> real, t: seq<City>, i: nat): real
    requires i <= |t|
  {
    if i == 0 then 0.0 else Edges(d, t, i - 1) + d(t[i - 1], t[After(i - 1, |t|)])
  }

  lemma {:induction false} EdgesArePath(d: (City, City) -> real, t: seq<City>, i: nat)
    requires i < |t|
    ensures Edges(d, t, i) == Path(d, t[..i + 1])
  {
    if i > 0 {
      EdgesArePath(d, t, i - 1);
      assert t[..i + 1] == t[..i] + [t[i]];
      PathConcat(d, t[..i], [t[i]]);
    }
  }

  lemma AllButLastArePath(d: (City, City) -> real, t: seq<City>)
    requires t != []
    ensures Edges(d, t, |t| - 1) == Path(d, t)
  {
    var i := |t| - 1;
    EdgesArePath(d, t, i);
    assert t[..i + 1] == t;
  }

  lemma AllEdgesAreLength(d: (City, City) -> real, t: seq<City>)
    ensures Edges(d, t, |t|) == Length(d, t)
  {
    if t != [] {
      AllButLastArePath(d, t);
      LengthCloses(d, t);
    }
  }

  lemma LengthCloses(d: (City, City) -> real, t: seq<City>)
    requires t != []
    ensures Length(d, t) == Path(d, t) + d(t[|t| - 1], t[0])
  {
    PathConcat(d, t, [t[0]]);
  }

  method TourLength(d: (City, City) -> real, tour: array<City>) returns (len: real)
    ensures len == Length(d, tour[..])
  {
    len := 0.0;
    for i := 0 to tour.Length
      invariant len == Edges(d, tour[..], i)
    {
      AfterIsRemainder(i, tour.Length);
      var j := (i + 1) % tour.Length;
      len := len + d(tour[i], tour[j]);
    }
    AllEdgesAreLength(d, tour[..]);
  }

  // ---------------------------------------------------------------- one exchange

  function RangeReversed(t: seq<City>, lo: nat, hi: nat): seq<City>
    requires lo <= hi <= |t|
  {
    t[..lo] + Reversed(t[lo..hi]) + t[hi..]
  }

  lemma RangeReversedAt(t: seq<City>, lo: nat, hi: nat, k: nat)
    requires lo <= hi <= |t| && k < |t|
    ensures |RangeReversed(t, lo, hi)| == |t|
    ensures RangeReversed(t, lo, hi)[k] == if lo <= k < hi then t[lo + hi - 1 - k] else t[k]
  {
    if lo <= k < hi {
      ReversedAt(t[lo..hi], k - lo);
    }
  }

  /** The tour with the stretch from i + 1 to j reversed. */
  function Exchanged(t: seq<City>, i: nat, j: nat): seq<City>
    requires i < j < |t|
  {
    RangeReversed(t, i + 1, j + 1)
  }

  /** The pairs a pass looks at. */
  predicate Candidate(n: nat, i: nat, j: nat) {
    i + 2 <= j < n && !(i == 0 && j == n - 1)
  }

  function OldEdges(d: (City, City) -> real, t: seq<City>, i: nat, j: nat): real
    requires Candidate(|t|, i, j)
  {
    d(t[i], t[i + 1]) + d(t[j], t[After(j, |t|)])
  }

  function NewEdges(d: (City, City) -> real, t: seq<City>, i: nat, j: nat): real
    requires Candidate(|t|, i, j)
  {
    d(t[i], t[j]) + d(t[i + 1], t[After(j, |t|)])
  }

  lemma ThreeParts(d: (City, City) -> real, a: seq<City>, s: seq<City>, c: seq<City>)
    requires a != [] && s != [] && c != []
    ensures Path(d, a + s + c)
      == Path(d, a) + d(a[|a| - 1], s[0]) + Path(d, s) + d(s[|s| - 1], c[0]) + Path(d, c)
  {
    var l := a + s;
    PathConcat(d, a, s);
    assert l[|l| - 1] == s[|s| - 1];
    PathConcat(d, l, c);
  }

  /** The pieces of a tour around an exchange. */
  lemma Pieces(t: seq<City>, i: nat, j: nat)
    requires Candidate(|t|, i, j)
    ensures var a, s, c := t[..i + 1], t[i + 1..j + 1], t[j + 1..] + [t[0]];
      && t + [t[0]] == a + s + c
      && Exchanged(t, i, j) + [Exchanged(t, i, j)[0]] == a + Reversed(s) + c
      && c[0] == t[After(j, |t|)]
  {
  }

  lemma ExchangeKeeps(t: seq<City>, i: nat, j: nat)
    requires i < j < |t|
    ensures multiset(Exchanged(t, i, j)) == multiset(t) && |Exchanged(t, i, j)| == |t|
  {
    var a, s, b := t[..i + 1], t[i + 1..j + 1], t[j + 1..];
    assert t == a + s + b;
    ReversedKeeps(s);
  }

  /** Reversing a stretch exchanges two edges: the length changes by exactly their difference. */
  lemma ExchangeDelta(d: (City, City) -> real, t: seq<City>, i: nat, j: nat)
    requires Symmetric(d) && Candidate(|t|, i, j)
    ensures Length(d, Exchanged(t, i, j)) == Length(d, t) - OldEdges(d, t, i, j) + NewEdges(d, t, i, j)
  {
    var a, s, c := t[..i + 1], t[i + 1..j + 1], t[j + 1..] + [t[0]];
    Pieces(t, i, j);
    ReversedAt(s, 0);
    ReversedAt(s, |s| - 1);
    PathReversed(d, s);
    ThreeParts(d, a, s, c);
    ThreeParts(d, a, Reversed(s), c);
    assert d(t[j], t[i + 1]) == d(t[i + 1], t[j]);
  }

  /** Reverses a[lo..hi) in place. */
  method ReverseRange(a: array<City>, lo: nat, hi: nat)
    requires lo <= hi <= a.Length
    modifies a
    ensures a[..] == RangeReversed(old(a[..]), lo, hi)
  {
    var i, j := lo, hi;
    ghost var was := a[..];
    while i < j
      invariant lo <= i && j <= hi && i + j == lo + hi && i <= j + 1
      invariant forall k | lo <= k < i || j <= k < hi :: a[k] == was[lo + hi - 1 - k]
      invariant forall k | 0 <= k < lo || i <= k < j || hi <= k < a.Length :: a[k] == was[k]
    {
      j := j - 1;
      a[i], a[j] := a[j], a[i];
      i := i + 1;
    }
    forall k | 0 <= k < a.Length ensures a[k] == RangeReversed(was, lo, hi)[k] {
      RangeReversedAt(was, lo, hi, k);
    }
  }

  // ---------------------------------------------------------------- a pass

  /** No exchange shortens the tour by more than the tolerance. */
  ghost predicate Settled(d: (City, City) -> real, t: seq<City>, i: nat, j: nat) {
    Candidate(|t|, i, j) ==> NewEdges(d, t, i, j) >= OldEdges(d, t, i, j) - TOLERANCE
  }

  ghost predicate LocallyOptimal(d: (City, City) -> real, t: seq<City>) {
    forall i: nat, j: nat :: Settled(d, t, i, j)
  }

  /** In terms of tours rather than edges. */
  lemma LocallyOptimalMeans(d: (City, City) -> real, t: seq<City>)
    requires Symmetric(d)
    ensures LocallyOptimal(d, t) <==>
      forall i: nat, j: nat | Candidate(|t|, i, j) :: Length(d, Exchanged(t, i, j)) >= Length(d, t) - TOLERANCE
  {
    forall i: nat, j: nat | Candidate(|t|, i, j)
      ensures Settled(d, t, i, j) <==> Length(d, Exchanged(t, i, j)) >= Length(d, t) - TOLERANCE
    {
      ExchangeDelta(d, t, i, j);
    }
  }

  lemma ExchangeEffect(d: (City, City) -> real, t: seq<City>, i: nat, j: nat, u: seq<City>)
    requires Symmetric(d) && Candidate(|t|, i, j) && u == RangeReversed(t, i + 1, j + 1)
    ensures multiset(u) == multiset(t)
    ensures Length(d, u) == Length(d, t) - OldEdges(d, t, i, j) + NewEdges(d, t, i, j)
  {
    ExchangeDelta(d, t, i, j);
    ExchangeKeeps(t, i, j);
  }

  method Exchange(d: (City, City) -> real, a: array<City>, i: nat, j: nat)
    requires Symmetric(d) && Candidate(a.Length, i, j)
    modifies a
    ensures multiset(a[..]) == multiset(old(a[..]))
    ensures Length(d, a[..]) == Length(d, old(a[..])) - OldEdges(d, old(a[..]), i, j) + NewEdges(d, old(a[..]), i, j)
  {
    ghost var t := a[..];
    ReverseRange(a, i + 1, j + 1);
    ExchangeEffect(d, t, i, j, a[..]);
  }

  /** Exchanges the two edges if that helps by more than the tolerance. */
  method TryExchange(d: (City, City) -> real, a: array<City>, i: nat, j: nat) returns (improved: bool)
    requires Symmetric(d) && Candidate(a.Length, i, j)
    modifies a
    ensures multiset(a[..]) == multiset(old(a[..]))
    ensures improved ==> Length(d, a[..]) < Length(d, old(a[..])) - TOLERANCE
    ensures !improved ==> a[..] == old(a[..]) && Settled(d, a[..], i, j)
  {
    var n := a.Length;
    var next := (j + 1) % n;
    AfterIsRemainder(j, n);
    var dOld := d(a[i], a[i + 1]) + d(a[j], a[next]);
    var dNew := d(a[i], a[j]) + d(a[i + 1], a[next]);
    assert dOld == OldEdges(d, a[..], i, j) && dNew == NewEdges(d, a[..], i, j);
    improved := dNew < dOld - TOLERANCE;
    if improved {
      Exchange(d, a, i, j);
    }
  }

  /** One pass keeps the tour a permutation.  It reports an improvement only if the tour got shorter by more
      than the tolerance, and none only if the tour is locally optimal. */
  method TwoOptPass(d: (City, City) -> real, a: array<City>) returns (improved: bool)
    requires Symmetric(d)
    modifies a
    ensures multiset(a[..]) == multiset(old(a[..]))
    ensures improved ==> Length(d, a[..]) < Length(d, old(a[..])) - TOLERANCE
    ensures !improved ==> a[..] == old(a[..]) && LocallyOptimal(d, a[..])
  {
    var n := a.Length;
    ghost var was := a[..];
    improved := false;
    var i := 0;
    while i + 1 < n
      invariant 0 <= i && multiset(a[..]) == multiset(was)
      invariant improved ==> Length(d, a[..]) < Length(d, was) - TOLERANCE
      invariant !improved ==> a[..] == was && forall k: nat, l: nat | k < i :: Settled(d, was, k, l)
    {
      var j := i + 2;
      while j < n
        invariant i + 2 <= j && multiset(a[..]) == multiset(was)
        invariant improved ==> Length(d, a[..]) < Length(d, was) - TOLERANCE
        invariant !improved ==>
          a[..] == was && forall k: nat, l: nat | k < i || (k == i && l < j) :: Settled(d, was, k, l)
      {
        if !(j == n - 1 && i == 0) {
          var better := TryExchange(d, a, i, j);
          improved := improved || better;
        }
        j := j + 1;
      }
      i := i + 1;
    }
  }

  ghost predicate Nonnegative(d: (City, City) -> real) {
    forall a: City, b: City :: d(a, b) >= 0.0
  }

  lemma {:induction false} PathNonnegative(d: (City, City) -> real, s: seq<City>)
    requires Nonnegative(d)
    ensures Path(d, s) >= 0.0
  {
    if |s| > 1 {
      PathNonnegative(d, s[1..]);
    }
  }

  /** Up to `passes` passes, until one reports nothing. */
  method Polish(d: (City, City) -> real, a: array<City>, passes: nat) returns (optimal: bool)
    requires Symmetric(d)
    modifies a
    ensures multiset(a[..]) == multiset(old(a[..])) && Length(d, a[..]) <= Length(d, old(a[..]))
    ensures optimal ==> LocallyOptimal(d, a[..])
    ensures !optimal ==> Length(d, a[..]) <= Length(d, old(a[..])) - passes as real * TOLERANCE
  {
    ghost var was := a[..];
    for pass := 0 to passes
      invariant multiset(a[..]) == multiset(was)
      invariant Length(d, a[..]) <= Length(d, was) - pass as real * TOLERANCE
    {
      var improved := TwoOptPass(d, a);
      if !improved {
        return true;
      }
    }
    optimal := false;
  }

  /** Passes repeated until none helps: that comes to an end, at a local optimum. */
  method PolishFully(d: (City, City) -> real, a: array<City>)
    requires Symmetric(d) && Nonnegative(d)
    modifies a
    ensures multiset(a[..]) == multiset(old(a[..])) && Length(d, a[..]) <= Length(d, old(a[..]))
    ensures LocallyOptimal(d, a[..])
  {
    ghost var was := a[..];
    var improved := true;
    PathNonnegative(d, a[..] + if a[..] == [] then [] else [a[0]]);
    while improved
      invariant multiset(a[..]) == multiset(was) && Length(d, a[..]) <= Length(d, was)
      invariant Length(d, a[..]) >= 0.0
      invariant !improved ==> LocallyOptimal(d, a[..])
      decreases improved, (Length(d, a[..]) / TOLERANCE).Floor
    {
      improved := TwoOptPass(d, a);
      PathNonnegative(d, a[..] + if a[..] == [] then [] else [a[0]]);
    }
  }
}
