/** The order in which the lease scheduler's workers take leases, and how a turn with a lease ends: over whole
    runs, told from when each lease was last queued and which worker last held it. */
module LeaseOrder {
  import opened LeaseScheduler
  import opened LeaseHistory

  // ---------------------------------------------------------------- when a lease was queued

  /** A submission, a wake, or a worker's handing it back puts a lease into a queue. */
  predicate QueuedBy(s: State, a: Action, x: Id) {
    match a
    case Schedule(id) => id == x
    case ScheduleAffine(id, _) => id == x
    case WakePush(k) => k < |s.waking| && s.waking[k] == x
    case WorkerStep(w, _) => Holds(s, w, x) && s.workers[w].stage == Requeue
    case _ => false
  }

  /** The step of the first i that queued lease x last. */
  function Since(run: seq<State>, acts: seq<Action>, i: nat, x: Id): (k: nat)
    requires i <= |acts| && |run| == |acts| + 1
    ensures k <= i
  {
    if i == 0 then 0 else if QueuedBy(run[i - 1], acts[i - 1], x) then i else Since(run, acts, i - 1, x)
  }

  ghost predicate Ordered(run: seq<State>, acts: seq<Action>, i: nat, q: seq<Id>)
    requires i <= |acts| && |run| == |acts| + 1
  {
    forall a, b | 0 <= a < b < |q| :: Since(run, acts, i, q[a]) < Since(run, acts, i, q[b])
  }

  predicate Shrunk(q: seq<Id>, q': seq<Id>) {
    q' == q || (q != [] && (q' == q[1..] || q' == q[..|q| - 1]))
  }

  /** A queue changes at its ends only, and grows by a lease that the step queues. */
  predicate Changed(s: State, a: Action, q: seq<Id>, q': seq<Id>) {
    Shrunk(q, q') || (q' != [] && q' == q + [q'[|q'| - 1]] && QueuedBy(s, a, q'[|q'| - 1]))
  }

  ghost predicate QueuesChanged(s: State, a: Action, s': State) {
    && |s'.deques| == |s.deques| && Changed(s, a, s.global, s'.global)
    && forall v | 0 <= v < |s.deques| :: Changed(s, a, s.deques[v], s'.deques[v])
  }

  lemma SeekChangesQueues(s: State, w: nat, choice: Choice, s': State)
    requires w < |s.workers| == |s.deques| && !s.workers[w].Holding? && s' == SeekStep(s, w, choice)
    ensures |s'.deques| == |s.deques| && Shrunk(s.global, s'.global)
    ensures forall v | 0 <= v < |s.deques| :: Shrunk(s.deques[v], s'.deques[v])
  {
  }

  lemma HoldChangesQueues(s: State, w: nat, choice: Choice, s': State)
    requires w < |s.workers| == |s.deques| && s.workers[w].Holding? && s.workers[w].id in s.controls
    requires s' == HoldStep(s, w, choice)
    ensures s'.global == s.global
    ensures s'.deques == s.deques ||
      (s.workers[w].stage.Requeue? && s'.deques == s.deques[w := s.deques[w] + [s.workers[w].id]])
  {
  }

  lemma PushChangesQueues(s: State, s1: State, a: Action, id: Id, worker: nat, s': State)
    requires s' == PushAffine(s1, id, worker) && s1.deques == s.deques && s1.global == s.global && QueuedBy(s, a, id)
    ensures QueuesChanged(s, a, s')
  {
    PushLeaves(s1, id, worker, s');
  }

  lemma WorkerChangesQueues(s: State, a: Action, s': State)
    requires Inv(s) && a.WorkerStep? && a.w < |s.workers| && s' == Next(s, a)
    ensures QueuesChanged(s, a, s')
  {
    if s.workers[a.w].Holding? {
      HolderSubmitted(s, a.w);
      HoldChangesQueues(s, a.w, a.choice, s');
    } else {
      SeekChangesQueues(s, a.w, a.choice, s');
    }
  }

  lemma StepChangesQueues(s: State, a: Action, s': State)
    requires Inv(s) && Permitted(s, a) && s' == Next(s, a)
    ensures QueuesChanged(s, a, s')
  {
    if a.WorkerStep? {
      if a.w < |s.workers| {
        WorkerChangesQueues(s, a, s');
      }
    } else if a.ScheduleAffine? {
      PushChangesQueues(s, s.(submitted := s.submitted + {a.id}), a, a.id, a.worker, s');
    } else if a.WakePush? && a.k < |s.waking| {
      var id := s.waking[a.k];
      PushChangesQueues(s, s.(waking := Without(s.waking, a.k)), a, id,
                        if id in s.affinity then s.affinity[id] else 0, s');
    }
  }

  /** What a step queues was not queued before. */
  lemma NotQueuedYet(s: State, a: Action, x: Id)
    requires Inv(s) && Permitted(s, a) && QueuedBy(s, a, x)
    ensures !Queued(s, x)
  {
    var p := match a
      case WakePush(_) => Waker
      case WorkerStep(w, _) => Hand(w, Requeue)
      case _ => Outside;
    assert At(s, x, p);
    if x in s.global {
      OnlyThere(s, x, p, Global);
    } else if v :| 0 <= v < |s.deques| && x in s.deques[v] {
      OnlyThere(s, x, p, Deque(v));
    }
  }

  lemma StaysOrdered(n: nat, run: seq<State>, acts: seq<Action>, i: nat, q: seq<Id>, q': seq<Id>)
    requires IsRun(n, run, acts) && i < |acts| && Ordered(run, acts, i, q)
    requires Changed(run[i], acts[i], q, q') && forall x <- q :: Queued(run[i], x)
    ensures Ordered(run, acts, i + 1, q')
  {
    RunInv(n, run, acts, i);
    forall x <- q ensures Since(run, acts, i + 1, x) == Since(run, acts, i, x) {
      if QueuedBy(run[i], acts[i], x) {
        NotQueuedYet(run[i], acts[i], x);
      }
    }
  }

  /** The leases in every queue stand in the order in which they were queued. */
  lemma {:induction false} QueuesOrdered(n: nat, run: seq<State>, acts: seq<Action>, i: nat)
    requires IsRun(n, run, acts) && i <= |acts|
    ensures Ordered(run, acts, i, run[i].global)
    ensures forall v | 0 <= v < |run[i].deques| :: Ordered(run, acts, i, run[i].deques[v])
  {
    if i > 0 {
      var s := run[i - 1];
      RunInv(n, run, acts, i - 1);
      QueuesOrdered(n, run, acts, i - 1);
      StepChangesQueues(s, acts[i - 1], run[i]);
      StaysOrdered(n, run, acts, i - 1, s.global, run[i].global);
      forall v | 0 <= v < |run[i].deques| ensures Ordered(run, acts, i, run[i].deques[v]) {
        StaysOrdered(n, run, acts, i - 1, s.deques[v], run[i].deques[v]);
      }
    }
  }

  // ---------------------------------------------------------------- looking for work

  ghost predicate Newest(run: seq<State>, acts: seq<Action>, i: nat, x: Id, q: seq<Id>)
    requires i <= |acts| && |run| == |acts| + 1
  {
    x in q && forall y <- q :: y != x ==> Since(run, acts, i, y) < Since(run, acts, i, x)
  }

  ghost predicate Oldest(run: seq<State>, acts: seq<Action>, i: nat, x: Id, q: seq<Id>)
    requires i <= |acts| && |run| == |acts| + 1
  {
    x in q && forall y <- q :: y != x ==> Since(run, acts, i, x) < Since(run, acts, i, y)
  }

  lemma EndsOfQueue(run: seq<State>, acts: seq<Action>, i: nat, q: seq<Id>)
    requires i <= |acts| && |run| == |acts| + 1 && Ordered(run, acts, i, q) && q != []
    ensures Newest(run, acts, i, q[|q| - 1], q) && Oldest(run, acts, i, q[0], q)
  {
  }

  lemma SeekTakesEnd(s: State, w: nat, choice: Choice, s': State)
    requires w < |s.workers| == |s.deques| && !s.workers[w].Holding? && s' == SeekStep(s, w, choice)
    ensures w < |s'.workers|
    ensures s'.workers[w].Holding? && s.workers[w].PopLocal? ==>
      var q := s.deques[w]; q != [] && s'.workers[w].id == q[|q| - 1]
    ensures s'.workers[w].Holding? && s.workers[w].Steal? ==>
      && choice.victim < |s.deques| && choice.victim != w
      && var q := s.deques[choice.victim]; q != [] && s'.workers[w].id == q[0]
    ensures s'.workers[w].Holding? && s.workers[w].PopGlobal? ==>
      s.global != [] && s'.workers[w].id == s.global[|s.global| - 1]
  {
  }

  /** A worker takes the newest lease of its own deque, the oldest of a peer's, or the newest of the global
      queue, going by when they were queued; and it has it alone. */
  lemma TakesInOrder(n: nat, run: seq<State>, acts: seq<Action>, i: nat, w: nat, choice: Choice)
    requires IsRun(n, run, acts) && i < |acts| && acts[i] == WorkerStep(w, choice)
    requires w < |run[i].workers| && !run[i].workers[w].Holding?
    ensures w < |run[i + 1].workers| && w < |run[i].deques|
    ensures run[i + 1].workers[w].Holding? ==> !Queued(run[i + 1], run[i + 1].workers[w].id)
    ensures run[i + 1].workers[w].Holding? && run[i].workers[w].PopLocal? ==>
      Newest(run, acts, i, run[i + 1].workers[w].id, run[i].deques[w])
    ensures run[i + 1].workers[w].Holding? && run[i].workers[w].Steal? ==>
      && choice.victim < |run[i].deques| && choice.victim != w
      && Oldest(run, acts, i, run[i + 1].workers[w].id, run[i].deques[choice.victim])
    ensures run[i + 1].workers[w].Holding? && run[i].workers[w].PopGlobal? ==>
      Newest(run, acts, i, run[i + 1].workers[w].id, run[i].global)
  {
    var s, s' := run[i], run[i + 1];
    QueuesOrdered(n, run, acts, i);
    SeekTakesEnd(s, w, choice, s');
    if s'.workers[w].Holding? {
      if s.workers[w].PopLocal? {
        EndsOfQueue(run, acts, i, s.deques[w]);
      } else if s.workers[w].Steal? {
        EndsOfQueue(run, acts, i, s.deques[choice.victim]);
      } else {
        EndsOfQueue(run, acts, i, s.global);
      }
      HeldIsNotQueued(n, run, acts, i + 1, w);
    }
  }

  lemma HeldIsNotQueued(n: nat, run: seq<State>, acts: seq<Action>, i: nat, w: nat)
    requires IsRun(n, run, acts) && i < |run| && w < |run[i].workers| && run[i].workers[w].Holding?
    ensures !Queued(run[i], run[i].workers[w].id)
  {
    var s, x := run[i], run[i].workers[w].id;
    var p := Hand(w, s.workers[w].stage);
    RunInv(n, run, acts, i);
    assert At(s, x, p);
    if x in s.global {
      OnlyThere(s, x, p, Global);
    } else if v :| 0 <= v < |s.deques| && x in s.deques[v] {
      OnlyThere(s, x, p, Deque(v));
    }
  }

  /** A worker that finds nothing has looked into an empty deque, a peer's that was empty or lost to another, or
      an empty global queue, and looks into the next one. */
  lemma LooksOn(s: State, w: nat, choice: Choice, s': State)
    requires w < |s.workers| == |s.deques| && !s.workers[w].Holding? && s' == SeekStep(s, w, choice)
    requires w < |s'.workers| && !s'.workers[w].Holding?
    ensures s' == s.(workers := s'.workers)
    ensures match s.workers[w] {
      case PopLocal => s.deques[w] == [] && (if |s.workers| > 1 then s'.workers[w].Steal? else s'.workers[w].PopGlobal?)
      case Steal =>
        && (choice.victim < |s.deques| && choice.victim != w && choice.wins ==> s.deques[choice.victim] == [])
        && s'.workers[w].PopGlobal?
      case _ => s.global == [] && s'.workers[w].PopLocal?
    }
  {
  }

  // ---------------------------------------------------------------- a turn with a lease

  /** Own steps a worker's turn with a lease can still take. */
  function TurnLeft(p: Worker): nat {
    match p
    case Holding(_, stage) => (
      match stage
      case LoadCancel => 8
      case LoadRequested => 7
      case LoadBuffered => 6
      case LoadCancelAgain => 5
      case Poll => 4
      case TakeCredit => 3
      case AddBuffered => 2
      case Requeue => 1
      case Park => 1)
    case _ => 0
  }

  lemma TurnAdvances(s: State, w: nat, choice: Choice, s': State)
    requires w < |s.workers| == |s.deques| && s.workers[w].Holding? && s.workers[w].id in s.controls
    requires s' == HoldStep(s, w, choice)
    ensures w < |s'.workers| && TurnLeft(s'.workers[w]) < TurnLeft(s.workers[w])
    ensures s'.workers[w].Holding? ==> s'.workers[w].id == s.workers[w].id
  {
  }

  lemma OthersLeaveHand(s: State, a: Action, w: nat, s': State)
    requires Inv(s) && Permitted(s, a) && w < |s.workers| && s' == Next(s, a)
    requires !a.WorkerStep? || a.w != w
    ensures w < |s'.workers| && s'.workers[w] == s.workers[w]
  {
    if a.WorkerStep? && a.w < |s.workers| {
      if s.workers[a.w].Holding? {
        HolderSubmitted(s, a.w);
        HoldStepFrame(s, a.w, a.choice, s');
      } else {
        SeekTakes(s, a.w, a.choice, s');
      }
    }
  }

  predicate IsOwn(a: Action, w: nat) {
    a.WorkerStep? && a.w == w
  }

  function OwnSteps(acts: seq<Action>, i: nat, k: nat, w: nat): nat
    requires i <= k <= |acts|
    decreases k - i
  {
    if i == k then 0 else (if IsOwn(acts[i], w) then 1 else 0) + OwnSteps(acts, i + 1, k, w)
  }

  /** The worker keeps the lease, with less of its turn left if the step is its own, or the step is its own and
      it puts the lease down. */
  predicate GoesOn(s: State, a: Action, s': State, w: nat, x: Id) {
    w < |s.workers| && w < |s'.workers|
    && if Holds(s', w, x)
       then TurnLeft(s'.workers[w]) <= TurnLeft(s.workers[w]) - if IsOwn(a, w) then 1 else 0
       else IsOwn(a, w) && !s'.workers[w].Holding?
  }

  lemma TurnGoesOn(n: nat, run: seq<State>, acts: seq<Action>, i: nat, w: nat, x: Id)
    requires IsRun(n, run, acts) && i < |acts| && Holds(run[i], w, x)
    ensures GoesOn(run[i], acts[i], run[i + 1], w, x)
  {
    RunInv(n, run, acts, i);
    HolderSubmitted(run[i], w);
    if IsOwn(acts[i], w) {
      TurnAdvances(run[i], w, acts[i].choice, run[i + 1]);
    } else {
      OthersLeaveHand(run[i], acts[i], w, run[i + 1]);
    }
  }

  lemma TurnsAreShort(p: Worker)
    ensures TurnLeft(p) <= 8
    ensures p.Holding? ==> TurnLeft(p) > 0
  {
  }

  lemma {:induction false} EndOfTurn(run: seq<State>, acts: seq<Action>, i: nat, w: nat, x: Id) returns (j: nat)
    requires |run| == |acts| + 1 && i <= |acts| && Holds(run[i], w, x)
    requires forall m | 0 <= m < |acts| && Holds(run[m], w, x) :: GoesOn(run[m], acts[m], run[m + 1], w, x)
    requires OwnSteps(acts, i, |acts|, w) >= TurnLeft(run[i].workers[w])
    ensures i <= j < |acts| && IsOwn(acts[j], w)
    ensures OwnSteps(acts, i, j + 1, w) <= TurnLeft(run[i].workers[w])
    ensures forall m | i <= m <= j :: Holds(run[m], w, x)
    ensures w < |run[j + 1].workers| && !run[j + 1].workers[w].Holding?
    decreases |acts| - i
  {
    TurnsAreShort(run[i].workers[w]);
    assert GoesOn(run[i], acts[i], run[i + 1], w, x);
    if Holds(run[i + 1], w, x) {
      j := EndOfTurn(run, acts, i + 1, w, x);
    } else {
      j := i;
      assert OwnSteps(acts, i + 1, i + 1, w) == 0;
    }
  }

  /** In every run a worker's turn with a lease is over after at most eight of its own steps, whoever moves in
      between; until then it holds that lease. */
  lemma TurnEnds(n: nat, run: seq<State>, acts: seq<Action>, i: nat, w: nat, x: Id) returns (j: nat)
    requires IsRun(n, run, acts) && i <= |acts| && Holds(run[i], w, x)
    requires OwnSteps(acts, i, |acts|, w) >= TurnLeft(run[i].workers[w])
    ensures i <= j < |acts| && IsOwn(acts[j], w)
    ensures OwnSteps(acts, i, j + 1, w) <= TurnLeft(run[i].workers[w]) <= 8
    ensures forall m | i <= m <= j :: Holds(run[m], w, x)
    ensures w < |run[j + 1].workers| && !run[j + 1].workers[w].Holding?
  {
    forall m | 0 <= m < |acts| && Holds(run[m], w, x) ensures GoesOn(run[m], acts[m], run[m + 1], w, x) {
      TurnGoesOn(n, run, acts, m, w, x);
    }
    TurnsAreShort(run[i].workers[w]);
    j := EndOfTurn(run, acts, i, w, x);
  }

  lemma SetDown(s: State, w: nat, choice: Choice, s': State, x: Id)
    requires w < |s.workers| == |s.deques| && Holds(s, w, x) && x in s.controls
    requires s' == HoldStep(s, w, choice) && !Holds(s', w, x)
    ensures w < |s'.workers| && !s'.workers[w].Holding?
    ensures if s.workers[w].stage.Requeue? then s'.deques == s.deques[w := s.deques[w] + [x]]
      else if s.workers[w].stage.Park? then s'.parked == s.parked + [x] else s'.retired == s.retired + [x]
  {
  }

  lemma EventsApart(e: Event)
    ensures !(Live(e) && SetsAside(e)) && !(Live(e) && Ends(e)) && !(SetsAside(e) && Ends(e))
  {
  }

  /** Where a turn leaves the lease: after a chunk or a yield at the newest end of the worker's own deque, after a
      pending answer or a check that set it aside in the lot, and after an end in the pile. */
  lemma TurnLeaves(n: nat, run: seq<State>, acts: seq<Action>, i: nat, w: nat, choice: Choice, x: Id)
    requires IsRun(n, run, acts) && i < |acts| && acts[i] == WorkerStep(w, choice) && Holds(run[i], w, x)
    requires !Holds(run[i + 1], w, x)
    ensures w < |run[i].deques| == |run[i + 1].deques|
    ensures var e := Last(run, acts, i + 1, x);
      && (Live(e) ==> run[i + 1].deques[w] == run[i].deques[w] + [x] && (e == Answered(Emit) || e == Answered(Yield)))
      && (SetsAside(e) ==> run[i + 1].parked == run[i].parked + [x])
      && (Ends(e) ==> run[i + 1].retired == run[i].retired + [x])
      && (Live(e) || SetsAside(e) || Ends(e))
  {
    var s, s', e := run[i], run[i + 1], Last(run, acts, i, x);
    RunInv(n, run, acts, i);
    RunInv(n, run, acts, i + 1);
    HolderSubmitted(s, w);
    var p := Placed(n, run, acts, i, x);
    assert At(s, x, Hand(w, s.workers[w].stage));
    HeldFits(s, w, choice, s', x, e);
    SetDown(s, w, choice, s', x);
    EventsApart(Last(run, acts, i + 1, x));
  }

  // ---------------------------------------------------------------- where a woken lease goes

  ghost predicate LastHeldBy(run: seq<State>, i: nat, x: Id, w: nat)
    requires i < |run|
  {
    exists j | 0 <= j <= i :: Holds(run[j], w, x) && forall m, v: nat | j < m <= i :: !Holds(run[m], v, x)
  }

  lemma AffinityKept(s: State, a: Action, s': State, x: Id)
    requires Inv(s) && Permitted(s, a) && s' == Next(s, a) && x in s'.affinity
    ensures (x in s.affinity && s'.affinity[x] == s.affinity[x]) || exists v: nat :: Holds(s', v, x)
  {
    if a.WorkerStep? && a.w < |s.workers| {
      if s.workers[a.w].Holding? {
        HolderSubmitted(s, a.w);
        HeldGoes(s, a.w, a.choice, s', s.workers[a.w].id);
      } else {
        SeekTakes(s, a.w, a.choice, s');
        assert s'.workers[a.w].Holding? ==> Holds(s', a.w, s'.workers[a.w].id);
      }
    } else if a.ScheduleAffine? {
      PushLeaves(s.(submitted := s.submitted + {a.id}), a.id, a.worker, s');
    }
  }

  lemma {:induction false} AffinityIsLastHolder(n: nat, run: seq<State>, acts: seq<Action>, i: nat, x: Id)
    requires IsRun(n, run, acts) && i <= |acts|
    ensures x in run[i].affinity ==> LastHeldBy(run, i, x, run[i].affinity[x])
  {
    if x in run[i].affinity {
      if v: nat :| Holds(run[i], v, x) {
        var p := Placed(n, run, acts, i, x);
        assert At(run[i], x, Hand(v, run[i].workers[v].stage));
      } else {
        AffinityIsLastHolder(n, run, acts, i - 1, x);
        RunInv(n, run, acts, i - 1);
        AffinityKept(run[i - 1], acts[i - 1], run[i], x);
        var w := run[i].affinity[x];
        var j :| 0 <= j <= i - 1 && Holds(run[j], w, x) && forall m, v: nat | j < m <= i - 1 :: !Holds(run[m], v, x);
        assert forall m, v: nat | j < m <= i :: !Holds(run[m], v, x);
      }
    }
  }

  /** A woken lease goes to the newest end of the deque of the worker that held it last. */
  lemma WokenGoesHome(n: nat, run: seq<State>, acts: seq<Action>, i: nat, k: nat) returns (w: nat)
    requires IsRun(n, run, acts) && i < |acts| && acts[i] == WakePush(k) && k < |run[i].waking|
    ensures LastHeldBy(run, i, run[i].waking[k], w)
    ensures w < |run[i].deques| && run[i + 1].deques == run[i].deques[w := run[i].deques[w] + [run[i].waking[k]]]
  {
    var x := run[i].waking[k];
    RunInv(n, run, acts, i);
    var p := Placed(n, run, acts, i, x);
    assert At(run[i], x, Waker);
    AffinityIsLastHolder(n, run, acts, i, x);
    w := run[i].affinity[x];
  }
}
