/** The work-stealing deque as a step system: one owner running push and pop, any number of
    thieves running steal, and one atomic load, store or compare-and-swap per step.  Memory is
    sequentially consistent, so a run is a sequence of actions and every interleaving is one.

    Each push hands out a fresh ticket, so "the lease returned" is a ticket and two pushes never
    look alike.  Slots keep their old value when a lease is moved out of them, as the source's
    trivially movable leases do. */
module ChaseLevProtocol {
  import opened Arithmetic

  datatype Slot = Blank | Lease(ticket: nat)

  /** How a pop that lost the race for the last lease stores `bottom`: the store the deque needs,
      or the one in the code, where the failed compare-and-swap has overwritten the expected top. */
  datatype Variant = Intended | AsWritten

  datatype Owner =
    | Idle
    | PushLoadTop(x: nat, b: int)
    | PushLoadBuffer(x: nat, b: int, t: int)
    | PushPublish(x: nat, b: int, grown: seq<Slot>)
    | PushWrite(x: nat, b: int)
    | PushAdvance(x: nat, b: int)
    | PopStoreBottom(b: int)
    | PopLoadTop(b: int)
    | PopEmpty(b: int, t: int)
    | PopTake(b: int, t: int)
    | PopCas(b: int, y: Slot)
    | PopWon(b: int, y: Slot)
    | PopLost(b: int, seen: int)

  predicate Pushing(o: Owner) {
    o.PushLoadTop? || o.PushLoadBuffer? || o.PushPublish? || o.PushWrite? || o.PushAdvance?
  }

  datatype Thief =
    | Resting
    | LoadBottom(t: int)
    | LoadBuffer(t: int)
    | ReadSlot(t: int, k: nat)
    | TryCas(t: int, y: Slot)

  /** `buffers` lists every ring ever installed, the current one last; `pushed`, `written` and
      `returned` record tickets handed out, the last ticket pushed at each index, and the slots
      that pop and steal gave back. */
  datatype State = State(
    top: int,
    bottom: int,
    buffers: seq<seq<Slot>>,
    owner: Owner,
    thieves: seq<Thief>,
    pushed: nat,
    written: map<int, nat>,
    returned: seq<Slot>)

  datatype Action = BeginPush | BeginPop | OwnerStep | ThiefStep(id: nat)

  const INITIAL_CAPACITY: nat := 64

  function Init(thieves: nat): State {
    State(0, 0, [seq(INITIAL_CAPACITY, _ => Blank)], Idle, seq(thieves, _ => Resting), 0, map[], [])
  }

  // ---------------------------------------------------------------- steps

  ghost predicate Shaped(s: State) {
    |s.buffers| > 0 && forall k :: 0 <= k < |s.buffers| ==> RingSize(|s.buffers[k]|)
  }

  ghost predicate RingSize(n: nat) {
    exists k: nat :: n == INITIAL_CAPACITY * Pow2(k)
  }

  function Pow2(k: nat): (r: nat)
    ensures r >= 1
  {
    if k == 0 then 1 else 2 * Pow2(k - 1)
  }

  function Current(s: State): seq<Slot>
    requires |s.buffers| > 0
  {
    s.buffers[|s.buffers| - 1]
  }

  /** A ring read: the mask of a power-of-two ring is a remainder. */
  function At(ring: seq<Slot>, i: int): Slot
    requires |ring| > 0
  {
    ring[i % |ring|]
  }

  /** The ring that replaces a full one: twice the size, with indices t up to b copied over. */
  function Grow(ring: seq<Slot>, t: int, b: int): (r: seq<Slot>)
    requires |ring| > 0
    ensures |r| == 2 * |ring|
  {
    seq(2 * |ring|, j requires 0 <= j < 2 * |ring| =>
      var i := t + (j - t) % (2 * |ring|);
      if i < b then At(ring, i) else Blank)
  }

  function OwnerNext(v: Variant, s: State): State
    requires Shaped(s)
  {
    var ring := Current(s);
    match s.owner
    case Idle => s
    case PushLoadTop(x, b) => s.(owner := PushLoadBuffer(x, b, s.top))
    case PushLoadBuffer(x, b, t) =>
      if b - t > |ring| - 1
      then s.(owner := PushPublish(x, b, Grow(ring, t, b)))
      else s.(owner := PushWrite(x, b))
    case PushPublish(x, b, grown) => s.(buffers := s.buffers + [grown], owner := PushWrite(x, b))
    case PushWrite(x, b) =>
      s.(buffers := s.buffers[|s.buffers| - 1 := ring[b % |ring| := Lease(x)]],
         written := s.written[b := x],
         owner := PushAdvance(x, b))
    case PushAdvance(x, b) => s.(bottom := b + 1, owner := Idle)
    case PopStoreBottom(b) => s.(bottom := b, owner := PopLoadTop(b))
    case PopLoadTop(b) =>
      s.(owner := if b - s.top < 0 then PopEmpty(b, s.top) else PopTake(b, s.top))
    case PopEmpty(b, t) => s.(bottom := t, owner := Idle)
    case PopTake(b, t) =>
      var y := At(ring, b);
      if b - t > 0 then s.(returned := s.returned + [y], owner := Idle) else s.(owner := PopCas(b, y))
    case PopCas(b, y) =>
      // The expected value is the top loaded before, which equals b here.
      if s.top == b then s.(top := b + 1, owner := PopWon(b, y)) else s.(owner := PopLost(b, s.top))
    case PopWon(b, y) => s.(bottom := b + 1, returned := s.returned + [y], owner := Idle)
    case PopLost(b, seen) => s.(bottom := if v.Intended? then b + 1 else seen + 1, owner := Idle)
  }

  function ThiefNext(s: State, i: nat): State
    requires i < |s.thieves|
  {
    match s.thieves[i]
    case Resting => s.(thieves := s.thieves[i := LoadBottom(s.top)])
    case LoadBottom(t) =>
      s.(thieves := s.thieves[i := if t >= s.bottom then Resting else LoadBuffer(t)])
    case LoadBuffer(t) =>
      if |s.buffers| == 0 then s else s.(thieves := s.thieves[i := ReadSlot(t, |s.buffers| - 1)])
    case ReadSlot(t, k) =>
      if k >= |s.buffers| || |s.buffers[k]| == 0 then s
      else s.(thieves := s.thieves[i := TryCas(t, At(s.buffers[k], t))])
    case TryCas(t, y) =>
      if s.top == t
      then s.(top := t + 1, returned := s.returned + [y], thieves := s.thieves[i := Resting])
      else s.(thieves := s.thieves[i := Resting])
  }

  function Next(v: Variant, s: State, a: Action): State
    requires Shaped(s)
  {
    match a
    case BeginPush =>
      if s.owner.Idle? then s.(owner := PushLoadTop(s.pushed, s.bottom), pushed := s.pushed + 1) else s
    case BeginPop => if s.owner.Idle? then s.(owner := PopStoreBottom(s.bottom - 1)) else s
    case OwnerStep => OwnerNext(v, s)
    case ThiefStep(i) => if i < |s.thieves| then ThiefNext(s, i) else s
  }

  // ---------------------------------------------------------------- the invariant

  /** One past the last index a thief may still win.  A pop has claimed index b as soon as it has
      loaded a top below b; until then index b is still up for grabs, although bottom is already b. */
  function Limit(s: State): int {
    match s.owner
    case PopLoadTop(b) => b + 1
    case PopEmpty(b, _) => b + 1
    case PopTake(b, t) => if t < b then b else b + 1
    case PopCas(b, _) => b + 1
    case PopWon(b, _) => b + 1
    case PopLost(b, _) => b + 1
    case _ => s.bottom
  }

  ghost predicate OwnerOk(s: State)
    requires Shaped(s)
  {
    var ring := Current(s);
    match s.owner
    case Idle => true
    case PushLoadTop(x, b) => b == s.bottom
    case PushLoadBuffer(x, b, t) => b == s.bottom && 0 <= t <= s.top && b - t <= |ring|
    case PushPublish(x, b, grown) =>
      && b == s.bottom && |grown| == 2 * |ring|
      && forall i :: s.top <= i < b ==> At(grown, i) == At(ring, i)
    case PushWrite(x, b) => b == s.bottom && b - s.top < |ring|
    case PushAdvance(x, b) => b == s.bottom && b - s.top < |ring| && At(ring, b) == Lease(x)
    case PopStoreBottom(b) => b == s.bottom - 1
    case PopLoadTop(b) => b == s.bottom
    case PopEmpty(b, t) => b == s.bottom && t == b + 1 == s.top
    case PopTake(b, t) => b == s.bottom && 0 <= t <= b && t <= s.top
    case PopCas(b, y) => b == s.bottom && 0 <= b <= s.top && y == At(ring, b)
    case PopWon(b, y) => b == s.bottom && s.top == b + 1
    case PopLost(b, seen) => b == s.bottom && seen == b + 1 == s.top
  }

  ghost predicate ThiefOk(s: State, th: Thief)
    requires Shaped(s)
  {
    match th
    case Resting => true
    case LoadBottom(t) => 0 <= t <= s.top
    case LoadBuffer(t) => 0 <= t <= s.top && (t == s.top ==> t < Limit(s))
    case ReadSlot(t, k) =>
      && 0 <= t <= s.top && k < |s.buffers|
      && (t == s.top ==> t < Limit(s) && At(s.buffers[k], t) == At(Current(s), t))
    case TryCas(t, y) =>
      && 0 <= t <= s.top && (t == s.top ==> t < Limit(s) && y == At(Current(s), t))
  }

  ghost predicate Inv(s: State) {
    && Shaped(s)
    && 0 <= s.top <= Limit(s) <= s.top + |Current(s)|
    && OwnerOk(s)
    && forall i :: 0 <= i < |s.thieves| ==> ThiefOk(s, s.thieves[i])
  }

  /** The abstract deque: the leases pop and steal can still win, oldest first. */
  function Abs(s: State): (r: seq<Slot>)
    requires |s.buffers| > 0 && |Current(s)| > 0 && s.top <= Limit(s)
  {
    seq(Limit(s) - s.top, j => At(Current(s), s.top + j))
  }

  /** The lease only the owner holds: being pushed, or claimed by a pop that will return it. */
  function Hand(s: State): seq<Slot>
    requires |s.buffers| > 0 && |Current(s)| > 0
  {
    match s.owner
    case PushLoadTop(x, _) => [Lease(x)]
    case PushLoadBuffer(x, _, _) => [Lease(x)]
    case PushPublish(x, _, _) => [Lease(x)]
    case PushWrite(x, _) => [Lease(x)]
    case PushAdvance(x, _) => [Lease(x)]
    case PopTake(b, t) => if t < b then [At(Current(s), b)] else []
    case PopWon(_, y) => [y]
    case _ => []
  }

  // ---------------------------------------------------------------- small facts

  lemma RingGrows(n: nat)
    requires RingSize(n)
    ensures RingSize(2 * n) && n > 0
  {
    var k: nat :| n == INITIAL_CAPACITY * Pow2(k);
    assert Pow2(k + 1) == 2 * Pow2(k);
    assert 2 * n == INITIAL_CAPACITY * Pow2(k + 1);
  }

  /** Counting on from t by the distance of the remainders comes back to i. */
  lemma CountsOn(t: int, i: int, n: nat)
    requires t <= i < t + n
    ensures t + (i % n - t) % n == i
  {
    var q := i / n;
    assert i % n - t == -q * n + (i - t);
    DivModUnique(i % n - t, -q, i - t, n);
  }

  lemma GrowCopies(ring: seq<Slot>, t: int, b: int, i: int)
    requires |ring| > 0 && t <= i < b <= t + 2 * |ring|
    ensures At(Grow(ring, t, b), i) == At(ring, i)
  {
    CountsOn(t, i, 2 * |ring|);
  }
}
