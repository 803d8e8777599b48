/** What every step of the deque keeps, and what every run therefore returns. */
module ChaseLevSafety {
  import opened Arithmetic
  import opened ChaseLevProtocol

  // ---------------------------------------------------------------- the invariant is kept

  lemma InitInv(n: nat)
    ensures Inv(Init(n)) && Abs(Init(n)) == [] && Hand(Init(n)) == []
  {
    assert INITIAL_CAPACITY == INITIAL_CAPACITY * Pow2(0);
  }

  /** What a thief knows survives any step that keeps the old rings, does not move top back, and
      leaves the slot at top alone. */
  lemma ThiefOkFrame(s: State, s': State, th: Thief)
    requires Inv(s) && Shaped(s') && ThiefOk(s, th)
    requires s.top <= s'.top && |s.buffers| <= |s'.buffers|
    requires s'.top == s.top && s.top < Limit(s) ==>
      && s.top < Limit(s') && At(Current(s'), s.top) == At(Current(s), s.top)
      && forall k :: 0 <= k < |s.buffers| ==> At(s'.buffers[k], s.top) == At(s.buffers[k], s.top)
    ensures ThiefOk(s', th)
  {
  }

  lemma PublishKeeps(s: State, s': State)
    requires Inv(s) && s.owner.PushPublish? && s' == OwnerNext(Intended, s)
    ensures Inv(s') && Abs(s') == Abs(s) && Hand(s') == Hand(s)
  {
    var PushPublish(x, b, grown) := s.owner;
    RingGrows(|Current(s)|);
    assert Current(s') == grown;
    forall i | 0 <= i < |s.thieves| ensures ThiefOk(s', s'.thieves[i]) {
      ThiefOkFrame(s, s', s.thieves[i]);
    }
  }

  lemma WriteKeeps(s: State, s': State)
    requires Inv(s) && s.owner.PushWrite? && s' == OwnerNext(Intended, s)
    ensures Inv(s') && Abs(s') == Abs(s) && Hand(s') == Hand(s)
  {
    var PushWrite(x, b) := s.owner;
    var ring, k := Current(s), |s.buffers| - 1;
    assert |Current(s')| == |ring|;
    forall i | s.top <= i < b ensures At(Current(s'), i) == At(ring, i) {
      WrapsDiffer(i, 0, b - i, |ring|);
    }
    forall i | 0 <= i < |s.thieves| ensures ThiefOk(s', s'.thieves[i]) {
      ThiefOkFrame(s, s', s.thieves[i]);
    }
  }

  lemma GrownRing(ring: seq<Slot>, t: int, top: int, b: int)
    requires |ring| > 0 && t <= top && b <= t + |ring|
    ensures forall i :: top <= i < b ==> At(Grow(ring, t, b), i) == At(ring, i)
  {
    forall i | top <= i < b ensures At(Grow(ring, t, b), i) == At(ring, i) {
      GrowCopies(ring, t, b, i);
    }
  }

  lemma LoadBufferKeeps(s: State, s': State)
    requires Inv(s) && s.owner.PushLoadBuffer? && s' == OwnerNext(Intended, s)
    ensures Inv(s') && Abs(s') == Abs(s) && Hand(s') == Hand(s)
  {
    var PushLoadBuffer(x, b, t) := s.owner;
    GrownRing(Current(s), t, s.top, b);
    assert s' == s.(owner := s'.owner);
    assert Current(s') == Current(s) && Limit(s') == Limit(s);
    assert OwnerOk(s');
    forall i | 0 <= i < |s.thieves| ensures ThiefOk(s', s'.thieves[i]) {
      ThiefOkFrame(s, s', s.thieves[i]);
    }
  }

  /** Loads, and the store that ends a push: no ring changes and no index is claimed. */
  lemma LoadStepKeeps(s: State, s': State)
    requires Inv(s) && s' == OwnerNext(Intended, s)
    requires s.owner.Idle? || s.owner.PushLoadTop? || s.owner.PushAdvance? || s.owner.PopStoreBottom?
    ensures Inv(s')
  {
    forall i | 0 <= i < |s.thieves| ensures ThiefOk(s', s'.thieves[i]) {
      ThiefOkFrame(s, s', s.thieves[i]);
    }
  }

  /** A pop decides which index it may claim. */
  lemma PopDecideKeeps(s: State, s': State)
    requires Inv(s) && s' == OwnerNext(Intended, s)
    requires s.owner.PopLoadTop? || s.owner.PopTake? || s.owner.PopCas?
    ensures Inv(s')
  {
    forall i | 0 <= i < |s.thieves| ensures ThiefOk(s', s'.thieves[i]) {
      ThiefOkFrame(s, s', s.thieves[i]);
    }
  }

  /** The store that ends a pop. */
  lemma PopEndKeeps(v: Variant, s: State, s': State)
    requires Inv(s) && s' == OwnerNext(v, s)
    requires s.owner.PopEmpty? || s.owner.PopWon? || s.owner.PopLost?
    ensures Inv(s')
  {
    forall i | 0 <= i < |s.thieves| ensures ThiefOk(s', s'.thieves[i]) {
      ThiefOkFrame(s, s', s.thieves[i]);
    }
  }

  /** Winning takes top past the index it was at. */
  lemma WinKeeps(s: State, i: nat, s': State)
    requires Inv(s) && i < |s.thieves| && s.thieves[i].TryCas? && s.thieves[i].t == s.top && s' == ThiefNext(s, i)
    ensures Inv(s')
  {
    assert ThiefOk(s, s.thieves[i]);
    forall j | 0 <= j < |s.thieves| && j != i ensures ThiefOk(s', s'.thieves[j]) {
      ThiefOkFrame(s, s', s.thieves[j]);
    }
  }

  /** What a thief learns by a load is right. */
  lemma ThiefLearns(s: State, i: nat, s': State)
    requires Inv(s) && i < |s.thieves| && s' == ThiefNext(s, i) && s'.top == s.top
    ensures s' == s.(thieves := s.thieves[i := s'.thieves[i]]) && ThiefOk(s', s'.thieves[i])
  {
    assert ThiefOk(s, s.thieves[i]);
  }

  lemma ThiefStepKeeps(s: State, i: nat, s': State)
    requires Inv(s) && i < |s.thieves| && s' == ThiefNext(s, i)
    ensures Inv(s')
  {
    if s'.top != s.top {
      WinKeeps(s, i, s');
    } else {
      ThiefLearns(s, i, s');
      forall j | 0 <= j < |s.thieves| && j != i ensures ThiefOk(s', s'.thieves[j]) {
        ThiefOkFrame(s, s', s.thieves[j]);
      }
    }
  }

  lemma BeginKeeps(s: State, a: Action, s': State)
    requires Inv(s) && (a.BeginPush? || a.BeginPop?) && s' == Next(Intended, s, a)
    ensures Inv(s')
  {
    forall i | 0 <= i < |s.thieves| ensures ThiefOk(s', s'.thieves[i]) {
      ThiefOkFrame(s, s', s.thieves[i]);
    }
  }

  lemma StepKeepsInv(v: Variant, s: State, a: Action)
    requires Inv(s)
    ensures Inv(Next(v, s, a))
  {
    var s' := Next(v, s, a);
    match a
    case BeginPush => BeginKeeps(s, a, s');
    case BeginPop => BeginKeeps(s, a, s');
    case ThiefStep(i) => if i < |s.thieves| { ThiefStepKeeps(s, i, s'); }
    case OwnerStep =>
      match s.owner
      case PushPublish(_, _, _) => PublishKeeps(s, s');
      case PushWrite(_, _) => WriteKeeps(s, s');
      case PushLoadBuffer(_, _, _) => LoadBufferKeeps(s, s');
      case PopLoadTop(_) => PopDecideKeeps(s, s');
      case PopTake(_, _) => PopDecideKeeps(s, s');
      case PopCas(_, _) => PopDecideKeeps(s, s');
      case PopEmpty(_, _) => PopEndKeeps(v, s, s');
      case PopWon(_, _) => PopEndKeeps(v, s, s');
      case PopLost(_, _) => PopEndKeeps(v, s, s');
      case _ => LoadStepKeeps(s, s');
  }

  // ---------------------------------------------------------------- refinement of a plain deque

  /** The moves of a sequential deque whose pops pass through the owner's hand. */
  datatype Move = Silent | Promise | PushBack | ClaimBack | HandOver | StealFront | Phantom

  /** The move each step makes, decided by the program point alone. */
  function MoveOf(v: Variant, s: State, a: Action): Move {
    match a
    case BeginPush => if s.owner.Idle? then Promise else Silent
    case BeginPop => Silent
    case OwnerStep => (
      match s.owner
      case PushAdvance(_, _) => PushBack
      case PopLoadTop(b) => if s.top < b then ClaimBack else Silent
      case PopTake(b, t) => if t < b then HandOver else Silent
      case PopCas(b, _) => if s.top == b then ClaimBack else Silent
      case PopWon(_, _) => HandOver
      case PopLost(_, _) => if v.AsWritten? then Phantom else Silent
      case _ => Silent)
    case ThiefStep(i) =>
      if i < |s.thieves| && s.thieves[i].TryCas? && s.thieves[i].t == s.top then StealFront else Silent
  }

  /** All a client can tell of a state. */
  datatype View = View(deque: seq<Slot>, hand: seq<Slot>, returned: seq<Slot>, pushed: nat)

  ghost function Look(s: State): View
    requires Inv(s)
  {
    View(Abs(s), Hand(s), s.returned, s.pushed)
  }

  /** What a move does to the abstract deque, the owner's hand, the tickets and the returned log. */
  ghost predicate Moves(m: Move, u: View, u': View) {
    match m
    case Silent => u' == u
    case Promise => u.hand == [] && u' == u.(hand := [Lease(u.pushed)], pushed := u.pushed + 1)
    case PushBack => |u.hand| == 1 && u' == u.(deque := u.deque + u.hand, hand := [])
    case ClaimBack =>
      && u.hand == [] && |u'.hand| == 1 && u.deque == u'.deque + u'.hand
      && u'.returned == u.returned && u'.pushed == u.pushed
    case HandOver => |u.hand| == 1 && u' == u.(returned := u.returned + u.hand, hand := [])
    case StealFront =>
      |u.deque| > 0 && u' == u.(deque := u.deque[1..], returned := u.returned + [u.deque[0]])
    case Phantom => u.deque == [] && |u'.deque| == 1 && u' == u.(deque := u'.deque)
  }

  lemma PushAdvanceMoves(s: State, s': State)
    requires Inv(s) && s.owner.PushAdvance? && s' == OwnerNext(Intended, s) && Inv(s')
    ensures Moves(PushBack, Look(s), Look(s'))
  {
  }

  lemma ClaimMoves(s: State, s': State)
    requires Inv(s) && s' == OwnerNext(Intended, s) && Inv(s')
    requires (s.owner.PopLoadTop? && s.top < s.owner.b) || (s.owner.PopCas? && s.top == s.owner.b)
    ensures Moves(ClaimBack, Look(s), Look(s'))
  {
  }

  lemma HandOverMoves(v: Variant, s: State, s': State)
    requires Inv(s) && s' == OwnerNext(v, s) && Inv(s') && MoveOf(v, s, OwnerStep) == HandOver
    ensures Moves(HandOver, Look(s), Look(s'))
  {
  }

  lemma PhantomMoves(s: State, s': State)
    requires Inv(s) && s' == OwnerNext(AsWritten, s) && Inv(s') && s.owner.PopLost?
    ensures Moves(Phantom, Look(s), Look(s'))
  {
  }

  /** The remaining steps change nothing a client can tell. */
  lemma SilentMoves(v: Variant, s: State, s': State)
    requires Inv(s) && s' == OwnerNext(v, s) && Inv(s') && MoveOf(v, s, OwnerStep) == Silent
    requires !s.owner.PushPublish? && !s.owner.PushWrite? && !s.owner.PushLoadBuffer?
    ensures Moves(Silent, Look(s), Look(s'))
  {
    assert s'.buffers == s.buffers && s'.top == s.top && Limit(s') == Limit(s);
  }

  lemma RingStepMoves(s: State, s': State)
    requires Inv(s) && s' == OwnerNext(Intended, s) && Inv(s')
    requires s.owner.PushPublish? || s.owner.PushWrite? || s.owner.PushLoadBuffer?
    ensures Moves(Silent, Look(s), Look(s'))
  {
    if s.owner.PushPublish? {
      PublishKeeps(s, s');
    } else if s.owner.PushWrite? {
      WriteKeeps(s, s');
    } else {
      LoadBufferKeeps(s, s');
    }
  }

  lemma OwnerStepMoves(v: Variant, s: State, s': State)
    requires Inv(s) && s' == OwnerNext(v, s) && Inv(s')
    ensures Moves(MoveOf(v, s, OwnerStep), Look(s), Look(s'))
  {
    var m := MoveOf(v, s, OwnerStep);
    if s.owner.PushPublish? || s.owner.PushWrite? || s.owner.PushLoadBuffer? {
      RingStepMoves(s, s');
    } else if s.owner.PushAdvance? {
      PushAdvanceMoves(s, s');
    } else if m == ClaimBack {
      ClaimMoves(s, s');
    } else {
      match m {
        case HandOver => HandOverMoves(v, s, s');
        case Phantom => PhantomMoves(s, s');
        case _ => SilentMoves(v, s, s');
      }
    }
  }

  lemma StealMoves(s: State, i: nat, s': State)
    requires Inv(s) && i < |s.thieves| && s' == ThiefNext(s, i) && Inv(s')
    requires s.thieves[i].TryCas? && s.thieves[i].t == s.top
    ensures Moves(StealFront, Look(s), Look(s'))
  {
    assert ThiefOk(s, s.thieves[i]);
  }

  lemma ThiefStepMoves(v: Variant, s: State, i: nat, s': State)
    requires Inv(s) && s' == Next(v, s, ThiefStep(i)) && Inv(s')
    ensures Moves(MoveOf(v, s, ThiefStep(i)), Look(s), Look(s'))
  {
    if MoveOf(v, s, ThiefStep(i)).StealFront? {
      StealMoves(s, i, s');
    } else {
      assert s' == s.(thieves := s'.thieves);
    }
  }

  lemma BeginMoves(v: Variant, s: State, a: Action, s': State)
    requires Inv(s) && (a.BeginPush? || a.BeginPop?) && s' == Next(v, s, a) && Inv(s')
    ensures Moves(MoveOf(v, s, a), Look(s), Look(s'))
  {
  }

  /** Every step of every interleaving is a move of the sequential deque: the real deque refines it,
      with the linearization point of each operation where MoveOf says. */
  lemma StepRefinesDeque(v: Variant, s: State, a: Action)
    requires Inv(s)
    ensures Inv(Next(v, s, a)) && Moves(MoveOf(v, s, a), Look(s), Look(Next(v, s, a)))
  {
    StepKeepsInv(v, s, a);
    match a
    case OwnerStep => OwnerStepMoves(v, s, Next(v, s, a));
    case ThiefStep(i) => ThiefStepMoves(v, s, i, Next(v, s, a));
    case _ => BeginMoves(v, s, a, Next(v, s, a));
  }

  // ---------------------------------------------------------------- runs and the ledger

  /** The states of a run: every reachable state is the end of one. */
  ghost function Run(v: Variant, s: State, acts: seq<Action>): (r: State)
    requires Inv(s)
    ensures Inv(r)
    decreases |acts|
  {
    if acts == [] then s
    else
      StepKeepsInv(v, s, acts[0]);
      Run(v, Next(v, s, acts[0]), acts[1..])
  }

  /** Every ticket below n, once each. */
  ghost function Tickets(n: nat): multiset<Slot> {
    if n == 0 then multiset{} else Tickets(n - 1) + multiset{Lease(n - 1)}
  }

  lemma {:induction false} TicketsOnce(n: nat, y: Slot)
    ensures Tickets(n)[y] == if y.Lease? && y.ticket < n then 1 else 0
  {
    if n > 0 {
      TicketsOnce(n - 1, y);
    }
  }

  /** Where leases are: already returned, in the deque, or in the owner's hand. */
  ghost function Ledger(u: View): multiset<Slot> {
    multiset(u.returned) + multiset(u.deque) + multiset(u.hand)
  }

  /** Nothing is lost; what is listed beyond the tickets handed out is the given number of extras. */
  ghost predicate Accounts(u: View, extras: nat) {
    Tickets(u.pushed) <= Ledger(u) && |Ledger(u)| == u.pushed + extras
  }

  /** A sequential move only carries leases from one place to another. */
  lemma MoveKeepsLedger(m: Move, u: View, u': View)
    requires Moves(m, u, u') && !m.Promise? && !m.Phantom?
    ensures Ledger(u') == Ledger(u) && u'.pushed == u.pushed
  {
    match m
    case StealFront => assert u.deque == [u.deque[0]] + u.deque[1..];
    case ClaimBack => assert multiset(u.deque) == multiset(u'.deque) + multiset(u'.hand);
    case _ =>
  }

  lemma NewEntry(m: Move, u: View, u': View)
    requires Moves(m, u, u') && (m.Promise? || m.Phantom?)
    ensures exists y :: Ledger(u') == Ledger(u) + multiset{y} && (m.Promise? ==> y == Lease(u.pushed))
  {
    var y := if m.Promise? then Lease(u.pushed) else u'.deque[0];
    if m.Phantom? {
      assert u'.deque == [y];
    }
    assert Ledger(u') == Ledger(u) + multiset{y};
  }

  lemma MoveKeepsAccounts(m: Move, u: View, u': View, extras: nat)
    requires Moves(m, u, u') && Accounts(u, extras)
    ensures Accounts(u', if m.Phantom? then extras + 1 else extras)
  {
    if m.Promise? || m.Phantom? {
      NewEntry(m, u, u');
    } else {
      MoveKeepsLedger(m, u, u');
    }
  }

  /** How often a run stores bottom after losing the race for the last lease, as written. */
  ghost function LostRaces(v: Variant, s: State, acts: seq<Action>): nat
    requires Inv(s)
    decreases |acts|
  {
    if acts == [] then 0
    else
      StepKeepsInv(v, s, acts[0]);
      (if MoveOf(v, s, acts[0]).Phantom? then 1 else 0) + LostRaces(v, Next(v, s, acts[0]), acts[1..])
  }

  lemma {:induction false} RunKeepsAccounts(v: Variant, s: State, acts: seq<Action>, extras: nat)
    requires Inv(s) && Accounts(Look(s), extras)
    ensures Accounts(Look(Run(v, s, acts)), extras + LostRaces(v, s, acts))
    decreases |acts|
  {
    if acts != [] {
      StepRefinesDeque(v, s, acts[0]);
      var s', m := Next(v, s, acts[0]), MoveOf(v, s, acts[0]);
      MoveKeepsAccounts(m, Look(s), Look(s'), extras);
      RunKeepsAccounts(v, s', acts[1..], if m.Phantom? then extras + 1 else extras);
    }
  }

  lemma {:induction false} IntendedNeverLoses(s: State, acts: seq<Action>)
    requires Inv(s)
    ensures LostRaces(Intended, s, acts) == 0
    decreases |acts|
  {
    if acts != [] {
      StepKeepsInv(Intended, s, acts[0]);
      IntendedNeverLoses(Next(Intended, s, acts[0]), acts[1..]);
    }
  }

  lemma {:induction false} TicketsSize(n: nat)
    ensures |Tickets(n)| == n
  {
    if n > 0 {
      TicketsSize(n - 1);
    }
  }

  // ---------------------------------------------------------------- main results

  /** For every slot value, the number of times it was returned plus its copies in the deque and in
      the owner's hand: one for a ticket handed out, none for anything else.  Hence no lease is
      returned twice, none is lost, and none is made up. */
  ghost predicate ExactlyOnce(u: View) {
    forall y: Slot ::
      multiset(u.returned)[y] + multiset(u.deque)[y] + multiset(u.hand)[y]
      == if y.Lease? && y.ticket < u.pushed then 1 else 0
  }

  /** Exactly-once says that the ledger is the bag of tickets. */
  lemma ExactlyOnceIsBalance(u: View)
    ensures ExactlyOnce(u) <==> Ledger(u) == Tickets(u.pushed)
  {
    var t, l := Tickets(u.pushed), Ledger(u);
    forall y: Slot
      ensures l[y] == multiset(u.returned)[y] + multiset(u.deque)[y] + multiset(u.hand)[y]
      ensures t[y] == if y.Lease? && y.ticket < u.pushed then 1 else 0
    {
      TicketsOnce(u.pushed, y);
    }
    if ExactlyOnce(u) {
      forall y: Slot ensures l[y] == t[y] {
      }
    }
  }

  lemma AccountsExactlyOnce(u: View, extras: nat)
    requires Accounts(u, extras)
    ensures ExactlyOnce(u) <==> extras == 0
  {
    ExactlyOnceIsBalance(u);
    TicketsSize(u.pushed);
    var t, l := Tickets(u.pushed), Ledger(u);
    assert l == t + (l - t);
    assert |l| == |t| + |l - t|;
  }

  /** On every run of either variant the accounting is exact if and only if no pop stored the
      overwritten top; the intended store always qualifies. */
  lemma ExactlyOnceIffNoLostRace(v: Variant, thieves: nat, acts: seq<Action>)
    ensures Inv(Init(thieves))
    ensures ExactlyOnce(Look(Run(v, Init(thieves), acts))) <==> LostRaces(v, Init(thieves), acts) == 0
    ensures v.Intended? ==> ExactlyOnce(Look(Run(v, Init(thieves), acts)))
  {
    InitInv(thieves);
    RunKeepsAccounts(v, Init(thieves), acts, 0);
    AccountsExactlyOnce(Look(Run(v, Init(thieves), acts)), LostRaces(v, Init(thieves), acts));
    IntendedNeverLoses(Init(thieves), acts);
  }

  /** No run of either variant loses a lease: a ticket handed out has been returned, can still be
      won, or is in the owner's hand. */
  lemma NoLossOnEveryRun(v: Variant, thieves: nat, acts: seq<Action>, k: nat)
    ensures Inv(Init(thieves))
    ensures
      var u := Look(Run(v, Init(thieves), acts));
      k < u.pushed ==> Lease(k) in u.returned || Lease(k) in u.deque || Lease(k) in u.hand
  {
    InitInv(thieves);
    RunKeepsAccounts(v, Init(thieves), acts, 0);
    var u := Look(Run(v, Init(thieves), acts));
    TicketsOnce(u.pushed, Lease(k));
    if k < u.pushed {
      assert Lease(k) in Ledger(u);
    }
  }

  /** A pop gives nothing only when there is nothing: at its last step the deque is empty. */
  lemma EmptyPopIsHonest(s: State)
    requires Inv(s) && (s.owner.PopEmpty? || s.owner.PopLost?)
    ensures Abs(s) == [] && Hand(s) == []
  {
  }

  // ---------------------------------------------------------------- what a thief takes

  /** The ring remembers: an index that can still be won and has ever been pushed at holds the ticket
      last pushed there, popped since or not.  A ring is only replaced when every index pushed at and
      not yet passed by top lies in the part that is copied. */
  ghost predicate Remembers(s: State)
    requires Shaped(s)
  {
    var ring := Current(s);
    && (forall i :: i in s.written && i >= s.top ==> At(ring, i) == Lease(s.written[i]))
    && (forall i :: i in s.written ==> i < s.top + |ring|)
    && (match s.owner
        case PushLoadBuffer(_, _, t) => forall i :: i in s.written ==> i < t + |ring|
        case PushPublish(_, b, _) => forall i :: i in s.written ==> i < b
        case _ => true)
  }

  lemma WriteRemembers(s: State, s': State)
    requires Inv(s) && Remembers(s) && s.owner.PushWrite? && s' == OwnerNext(Intended, s) && Inv(s')
    ensures Remembers(s')
  {
    var b := s.owner.b;
    forall i | i in s'.written && i >= s'.top ensures At(Current(s'), i) == Lease(s'.written[i]) {
      if i < b {
        WrapsDiffer(i, 0, b - i, |Current(s)|);
      } else if i > b {
        WrapsDiffer(b, 0, i - b, |Current(s)|);
      }
    }
  }

  lemma PublishRemembers(s: State, s': State)
    requires Inv(s) && Remembers(s) && s.owner.PushPublish? && s' == OwnerNext(Intended, s) && Inv(s')
    ensures Remembers(s')
  {
    forall i | i in s'.written && i >= s'.top ensures At(Current(s'), i) == Lease(s'.written[i]) {
      assert At(s.owner.grown, i) == At(Current(s), i);
    }
  }

  /** Steps that leave the rings alone; a push that finds its ring full has everything below b. */
  lemma OtherRemembers(v: Variant, s: State, a: Action, s': State)
    requires Inv(s) && Remembers(s) && s' == Next(v, s, a) && Inv(s')
    requires a.OwnerStep? ==> !s.owner.PushWrite? && !s.owner.PushPublish?
    ensures Remembers(s')
  {
    assert s'.buffers == s.buffers && s'.written == s.written && s.top <= s'.top;
    if a.OwnerStep? && s.owner.PushLoadBuffer? {
      assert s'.owner.PushPublish? ==> s.owner.t + |Current(s)| <= s.owner.b;
    }
  }

  lemma StepRemembers(v: Variant, s: State, a: Action)
    requires Inv(s) && Remembers(s)
    ensures Inv(Next(v, s, a)) && Remembers(Next(v, s, a))
  {
    var s' := Next(v, s, a);
    StepKeepsInv(v, s, a);
    if a.OwnerStep? && s.owner.PushWrite? {
      WriteRemembers(s, s');
    } else if a.OwnerStep? && s.owner.PushPublish? {
      PublishRemembers(s, s');
    } else {
      OtherRemembers(v, s, a, s');
    }
  }

  /** Each index still to be won has been pushed at. */
  ghost predicate AllPushed(s: State) {
    && (forall i :: s.top <= i < Limit(s) ==> i in s.written)
    && (s.owner.PushAdvance? ==> s.owner.b in s.written)
  }

  lemma LostRaceAllPushedIff(s: State, s': State)
    requires Inv(s) && s.owner.PopLost? && s' == OwnerNext(AsWritten, s) && Inv(s')
    ensures AllPushed(s') <==> s.top in s.written
  {
    assert s'.top == s.top && Limit(s') == s.top + 1 && s'.written == s.written;
  }

  /** A step that writes nothing and claims nothing new. */
  lemma NoMoreToWin(s: State, s': State)
    requires AllPushed(s) && s'.written == s.written && s.top <= s'.top && Limit(s') <= Limit(s)
    requires !s'.owner.PushAdvance? || s'.owner == s.owner
    ensures AllPushed(s')
  {
  }

  lemma PushKeepsAllPushed(s: State, s': State)
    requires Inv(s) && AllPushed(s) && s' == OwnerNext(Intended, s) && Pushing(s.owner)
    ensures AllPushed(s')
  {
    assert s'.top == s.top;
  }

  lemma PopKeepsAllPushed(v: Variant, s: State, s': State)
    requires Inv(s) && AllPushed(s) && s' == OwnerNext(v, s) && !(s.owner.PopLost? && v.AsWritten?)
    requires !Pushing(s.owner)
    ensures AllPushed(s')
  {
    assert Limit(s') <= Limit(s);
    NoMoreToWin(s, s');
  }

  lemma OtherKeepsAllPushed(v: Variant, s: State, a: Action, s': State)
    requires Inv(s) && AllPushed(s) && s' == Next(v, s, a) && Inv(s') && !MoveOf(v, s, a).Phantom?
    ensures AllPushed(s')
  {
    if !a.OwnerStep? {
      NoMoreToWin(s, s');
    } else if Pushing(s.owner) {
      PushKeepsAllPushed(s, s');
    } else {
      PopKeepsAllPushed(v, s, s');
    }
  }

  /** The only step that can end this is a store after a lost race that lands on an index never
      pushed at, and such a store always does. */
  lemma StepKeepsAllPushedIff(v: Variant, s: State, a: Action)
    requires Inv(s) && AllPushed(s)
    ensures Inv(Next(v, s, a))
    ensures AllPushed(Next(v, s, a)) <==> (MoveOf(v, s, a).Phantom? ==> s.top in s.written)
  {
    StepKeepsInv(v, s, a);
    if MoveOf(v, s, a).Phantom? {
      LostRaceAllPushedIff(s, Next(v, s, a));
    } else {
      OtherKeepsAllPushed(v, s, a, Next(v, s, a));
    }
  }

  /** Whenever the run stores bottom after a lost race, as written, the index that then looks live
      has been pushed at before. */
  ghost predicate LostRacesCovered(v: Variant, s: State, acts: seq<Action>)
    requires Inv(s)
    decreases |acts|
  {
    if acts == [] then true
    else
      StepKeepsInv(v, s, acts[0]);
      && (MoveOf(v, s, acts[0]).Phantom? ==> s.top in s.written)
      && LostRacesCovered(v, Next(v, s, acts[0]), acts[1..])
  }

  ghost predicate AlwaysAllPushed(v: Variant, s: State, acts: seq<Action>)
    requires Inv(s)
    decreases |acts|
  {
    AllPushed(s)
    && if acts == [] then true
       else
         StepKeepsInv(v, s, acts[0]);
         AlwaysAllPushed(v, Next(v, s, acts[0]), acts[1..])
  }

  lemma {:induction false} RunRemembers(v: Variant, s: State, acts: seq<Action>)
    requires Inv(s) && Remembers(s)
    ensures Remembers(Run(v, s, acts))
    decreases |acts|
  {
    if acts != [] {
      StepRemembers(v, s, acts[0]);
      RunRemembers(v, Next(v, s, acts[0]), acts[1..]);
    }
  }

  /** Everything to be won has been pushed at throughout a run, exactly if its lost races are covered. */
  lemma {:induction false} AlwaysAllPushedIff(v: Variant, s: State, acts: seq<Action>)
    requires Inv(s) && AllPushed(s)
    ensures AlwaysAllPushed(v, s, acts) <==> LostRacesCovered(v, s, acts)
    ensures AlwaysAllPushed(v, s, acts) ==> AllPushed(Run(v, s, acts))
    ensures LostRaces(v, s, acts) == 0 ==> LostRacesCovered(v, s, acts)
    decreases |acts|
  {
    if acts != [] {
      StepKeepsAllPushedIff(v, s, acts[0]);
      var s' := Next(v, s, acts[0]);
      if AllPushed(s') {
        AlwaysAllPushedIff(v, s', acts[1..]);
      }
    }
  }

  /** On every run of either variant, a thief about to win its compare-and-swap holds the lease last
      pushed at that index if anything ever was, however often the owner has since wrapped the ring
      or replaced it.  Something was whenever the lost races are covered, so also without any. */
  lemma WinningThiefHasThePushedLease(v: Variant, thieves: nat, acts: seq<Action>, i: nat)
    ensures Inv(Init(thieves))
    ensures
      var s := Run(v, Init(thieves), acts);
      i < |s.thieves| && s.thieves[i].TryCas? && s.thieves[i].t == s.top ==>
      && (s.top in s.written ==> s.thieves[i].y == Lease(s.written[s.top]))
      && (LostRacesCovered(v, Init(thieves), acts) ==> s.top in s.written)
    ensures v.Intended? || LostRaces(v, Init(thieves), acts) == 0 ==> LostRacesCovered(v, Init(thieves), acts)
  {
    InitInv(thieves);
    RunRemembers(v, Init(thieves), acts);
    AlwaysAllPushedIff(v, Init(thieves), acts);
    IntendedNeverLoses(Init(thieves), acts);
    var s := Run(v, Init(thieves), acts);
    if i < |s.thieves| && s.thieves[i].TryCas? && s.thieves[i].t == s.top {
      assert ThiefOk(s, s.thieves[i]);
    }
  }
}
