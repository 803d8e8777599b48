/** The work-stealing deque's ring as one thread sees it: the same operations without interleaving.  The
    interleaved protocol is the step system in ChaseLevProtocol. */
module RingDeque {
  import opened Optional
  import opened Arithmetic

  const INITIAL_CAPACITY: nat := 64

  /** The slot of an index. */
  function Wrap(i: nat, cap: nat): (r: nat)
    requires cap > 0
    ensures r < cap
  {
    i % cap
  }

  lemma MaskWraps(i: nat, cap: nat)
    requires IsPow2(cap)
    ensures And(i, cap - 1) == Wrap(i, cap)
  {
    MaskIsRemainder(i, cap);
  }

  lemma SlotsDiffer(top: nat, k: nat, n: nat, cap: nat)
    requires k < n < cap
    ensures Wrap(top + k, cap) != Wrap(top + n, cap)
  {
    WrapsDiffer(top, k, n, cap);
  }

  /** The ring holds the items from index top on, around its end. */
  ghost predicate Holds<T>(ring: seq<T>, top: nat, items: seq<T>) {
    |items| <= |ring| && forall k | 0 <= k < |items| :: ring[Wrap(top + k, |ring|)] == items[k]
  }

  /** While there is room the next slot is no item's. */
  lemma HoldsOneMore<T>(ring: seq<T>, top: nat, items: seq<T>, x: T)
    requires Holds(ring, top, items) && |items| < |ring|
    ensures Holds(ring[Wrap(top + |items|, |ring|) := x], top, items + [x])
  {
    var n := |items|;
    var ring' := ring[Wrap(top + n, |ring|) := x];
    forall k | 0 <= k < n + 1 ensures ring'[Wrap(top + k, |ring'|)] == (items + [x])[k] {
      if k < n {
        SlotsDiffer(top, k, n, |ring|);
      }
    }
  }

  lemma HoldsFewer<T>(ring: seq<T>, top: nat, items: seq<T>)
    requires Holds(ring, top, items) && items != []
    ensures Holds(ring, top, items[..|items| - 1]) && Holds(ring, top + 1, items[1..])
  {
    forall k | 0 <= k < |items| - 1 ensures ring[Wrap(top + 1 + k, |ring|)] == items[1..][k] {
      assert top + 1 + k == top + (k + 1);
    }
  }

  class RingDeque<T(0)> {
    var buffer: array<T>
    var mask: nat
    var top: nat
    var bottom: nat
    /** The leases in the deque, the next one to steal first and the next one to pop last. */
    ghost var items: seq<T>

    ghost predicate Valid()
      reads this, buffer
    {
      && buffer.Length > 0 && IsPow2(buffer.Length) && mask == buffer.Length - 1
      && top <= bottom && |items| == bottom - top && Holds(buffer[..], top, items)
    }

    constructor ()
      ensures Valid() && items == [] && fresh(buffer)
    {
      buffer := new T[INITIAL_CAPACITY];
      mask, top, bottom, items := INITIAL_CAPACITY - 1, 0, 0, [];
    }

    /** Copies the lease at index i to its slot in a larger ring. */
    method CopyOver(grown: array<T>, i: nat)
      requires Valid() && grown != buffer && IsPow2(grown.Length) && buffer.Length < grown.Length
      requires top <= i < bottom && Holds(grown[..], top, items[..i - top])
      modifies grown
      ensures Holds(grown[..], top, items[..i + 1 - top])
    {
      var capacity := grown.Length;
      MaskWraps(i, buffer.Length);
      MaskWraps(i, capacity);
      ghost var n, before := i - top, grown[..];
      var x := buffer[And(i, mask)];
      assert x == items[n] && items[..n + 1] == items[..n] + [x];
      HoldsOneMore(before, top, items[..n], x);
      grown[And(i, capacity - 1)] := x;
      assert grown[..] == before[Wrap(top + n, capacity) := x];
    }

    method Grow()
      requires Valid()
      modifies this
      ensures Valid() && fresh(buffer) && buffer.Length == 2 * old(buffer.Length)
      ensures items == old(items) && top == old(top) && bottom == old(bottom)
    {
      var capacity := (mask + 1) * 2;
      var grown := new T[capacity];
      for i := top to bottom
        invariant unchanged(this) && unchanged(buffer) && Holds(grown[..], top, items[..i - top])
      {
        CopyOver(grown, i);
      }
      assert items[..bottom - top] == items;
      buffer, mask := grown, capacity - 1;
    }

    /** Owner's end; the ring doubles when it is full. */
    method Push(x: T)
      requires Valid()
      modifies this, buffer
      ensures Valid() && items == old(items) + [x] && (buffer == old(buffer) || fresh(buffer))
    {
      if bottom - top > mask {
        Grow();
      }
      MaskWraps(bottom, buffer.Length);
      ghost var before := buffer[..];
      HoldsOneMore(before, top, items, x);
      buffer[And(bottom, mask)] := x;
      assert buffer[..] == before[Wrap(top + |items|, buffer.Length) := x];
      bottom := bottom + 1;
      items := items + [x];
    }

    /** Owner's end: last in, first out. */
    method Pop() returns (r: Option<T>)
      requires Valid()
      modifies this
      ensures Valid() && buffer == old(buffer)
      ensures if old(items) == [] then r == None && items == []
        else r == Some(old(items)[|old(items)| - 1]) && items == old(items)[..|old(items)| - 1]
    {
      var b: int := bottom - 1;
      var size := b - top;
      if size < 0 {
        bottom := top;
        return None;
      }
      MaskWraps(b, buffer.Length);
      HoldsFewer(buffer[..], top, items);
      assert b == top + (|items| - 1);
      var lease := buffer[And(b, mask)];
      items := items[..|items| - 1];
      if size > 0 {
        bottom := b;
        return Some(lease);
      }
      top := top + 1;
      bottom := top;
      r := Some(lease);
    }

    /** Thieves' end: first in, first out. */
    method Steal() returns (r: Option<T>)
      requires Valid()
      modifies this
      ensures Valid() && buffer == old(buffer)
      ensures if old(items) == [] then r == None && items == []
        else r == Some(old(items)[0]) && items == old(items)[1..]
    {
      if top >= bottom {
        return None;
      }
      MaskWraps(top, buffer.Length);
      HoldsFewer(buffer[..], top, items);
      assert buffer[Wrap(top + 0, buffer.Length)] == items[0];
      r := Some(buffer[And(top, mask)]);
      top := top + 1;
      items := items[1..];
    }
  }
}
