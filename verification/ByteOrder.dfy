/** Byte strings in unsigned lexicographic order. */
module ByteOrder {

  type Byte = b: nat | b < 256

  function Less(a: seq<Byte>, b: seq<Byte>): bool {
    if b == [] then false
    else if a == [] then true
    else a[0] < b[0] || (a[0] == b[0] && Less(a[1..], b[1..]))
  }

  predicate Leq(a: seq<Byte>, b: seq<Byte>) {
    !Less(b, a)
  }

  predicate StartsWith(k: seq<Byte>, p: seq<Byte>) {
    |p| <= |k| && k[..|p|] == p
  }

  /** Exactly one of less, equal and greater holds. */
  lemma {:induction false} LessTotal(a: seq<Byte>, b: seq<Byte>)
    ensures a == b <==> !Less(a, b) && !Less(b, a)
    ensures !(Less(a, b) && Less(b, a))
  {
    if a != [] && b != [] {
      LessTotal(a[1..], b[1..]);
      assert a == [a[0]] + a[1..] && b == [b[0]] + b[1..];
    }
  }

  lemma {:induction false} LessTransitive(a: seq<Byte>, b: seq<Byte>, c: seq<Byte>)
    requires Less(a, b) && Less(b, c)
    ensures Less(a, c)
  {
    if a != [] {
      if a[0] == b[0] == c[0] {
        LessTransitive(a[1..], b[1..], c[1..]);
      }
    }
  }

  lemma LeqLess(a: seq<Byte>, b: seq<Byte>, c: seq<Byte>)
    requires Leq(a, b) && Less(b, c)
    ensures Less(a, c)
  {
    LessTotal(a, b);
    if a != b {
      LessTransitive(a, b, c);
    }
  }

  lemma LessLeq(a: seq<Byte>, b: seq<Byte>, c: seq<Byte>)
    requires Less(a, b) && Leq(b, c)
    ensures Less(a, c)
  {
    LessTotal(b, c);
    if b != c {
      LessTransitive(a, b, c);
    }
  }

  /** A shared beginning does not matter to the order. */
  lemma {:induction false} SharedPrefix(p: seq<Byte>, a: seq<Byte>, b: seq<Byte>)
    ensures Less(p + a, p + b) == Less(a, b)
  {
    if p == [] {
      assert p + a == a && p + b == b;
    } else {
      assert (p + a)[1..] == p[1..] + a && (p + b)[1..] == p[1..] + b;
      SharedPrefix(p[1..], a, b);
    }
  }

  /** What lies between two strings with a shared beginning has it too. */
  lemma {:induction false} Between(p: seq<Byte>, a: seq<Byte>, b: seq<Byte>, k: seq<Byte>)
    requires Leq(p + a, k) && Less(k, p + b)
    ensures StartsWith(k, p)
  {
    if p != [] {
      assert (p + a)[1..] == p[1..] + a && (p + b)[1..] == p[1..] + b;
      Between(p[1..], a, b, k[1..]);
      assert k == [k[0]] + k[1..] && p == [p[0]] + p[1..];
      assert k[..|p|] == [k[0]] + k[1..][..|p| - 1];
    }
  }
}
