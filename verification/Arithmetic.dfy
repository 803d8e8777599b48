/** Multiples, remainders, and wrapping by masking. */
module Arithmetic {

  function Min(a: real, b: real): real { if b < a then b else a }

  function Max(a: real, b: real): real { if a < b then b else a }

  /** The multiples of m lie m apart. */
  lemma {:induction false} Steps(x: int, y: int, m: nat)
    requires x < y
    ensures x * m + m <= y * m
    decreases y - x
  {
    if x + 1 < y {
      Steps(x, y - 1, m);
    }
  }

  lemma DivModUnique(a: int, q: int, r: nat, m: nat)
    requires m > 0 && a == q * m + r && r < m
    ensures a % m == r && a / m == q
  {
    var q', r' := a / m, a % m;
    assert a == q' * m + r';
    if q' < q {
      Steps(q', q, m);
    } else if q' > q {
      Steps(q, q', m);
    }
  }

  predicate IsPow2(n: nat) {
    n == 1 || (n > 1 && n % 2 == 0 && IsPow2(n / 2))
  }

  /** Bitwise and. */
  function And(a: nat, b: nat): nat
    decreases b
  {
    if b == 0 then 0 else (if a % 2 == 1 && b % 2 == 1 then 1 else 0) + 2 * And(a / 2, b / 2)
  }

  lemma HalfRemainder(a: nat, half: nat)
    requires half > 0
    ensures a % (2 * half) == a % 2 + 2 * ((a / 2) % half)
  {
    var q, r := (a / 2) / half, (a / 2) % half;
    assert a / 2 == q * half + r;
    assert q * (2 * half) == 2 * (q * half);
    DivModUnique(a, q, 2 * r + a % 2, 2 * half);
  }

  /** Masking with a power of two less one is the remainder, so probing wraps within the slots. */
  lemma {:induction false} MaskIsRemainder(a: nat, cap: nat)
    requires IsPow2(cap)
    ensures And(a, cap - 1) == a % cap
    decreases cap
  {
    if cap > 1 {
      var half := cap / 2;
      MaskIsRemainder(a / 2, half);
      assert (cap - 1) % 2 == 1 && (cap - 1) / 2 == half - 1;
      HalfRemainder(a, half);
    }
  }

  /** Positions less than cap apart wrap to different slots. */
  lemma WrapsDiffer(pos: int, d: nat, e: nat, cap: nat)
    requires d < e < cap
    ensures (pos + d) % cap != (pos + e) % cap
  {
    var q, q' := (pos + d) / cap, (pos + e) / cap;
    if q' < q {
      Steps(q', q, cap);
    } else if q < q' {
      Steps(q, q', cap);
    }
  }
}
