/** What has become of every lease of the lease scheduler, told from a history of what happened to it: who
    submitted or woke it, and what the last check or poll found. */
module LeaseHistory {
  import opened LeaseScheduler

  // ---------------------------------------------------------------- what happened

  /** What happened to a lease last: a submission, a wake, or a check or poll whose finding ends its turn. */
  datatype Event =
    | Never
    | Submitted
    | Taken
    | Woken
    | Reaped
    | NoDemand
    | Full
    | LateCancel
    | Answered(kind: PollKind)

  /** What a check or poll finds; one that is passed says nothing. */
  function Finding(stage: Stage, c: Control, kind: PollKind, before: Event): Event {
    match stage
    case LoadCancel => if c.cancelled then Reaped else before
    case LoadRequested => if c.requested == 0 then NoDemand else before
    case LoadBuffered => if c.buffered >= HIGH_WATERMARK then Full else before
    case LoadCancelAgain => if c.cancelled then LateCancel else before
    case Poll => Answered(kind)
    case _ => before
  }

  predicate Holds(s: State, w: nat, x: Id) {
    w < |s.workers| && s.workers[w].Holding? && s.workers[w].id == x
  }

  function Happened(s: State, a: Action, x: Id, before: Event): Event {
    match a
    case Schedule(id) => if id == x then Submitted else before
    case ScheduleAffine(id, _) => if id == x then Submitted else before
    case WakeTake(id) => if id == x && x in s.parked then Taken else before
    case WakePush(k) => if k < |s.waking| && s.waking[k] == x then Woken else before
    case WorkerStep(w, choice) =>
      if Holds(s, w, x) && x in s.controls then Finding(s.workers[w].stage, s.controls[x], choice.kind, before)
      else before
    case _ => before
  }

  /** What happened to lease x last in the first i steps. */
  function Last(run: seq<State>, acts: seq<Action>, i: nat, x: Id): Event
    requires i <= |acts| && |run| == |acts| + 1
  {
    if i == 0 then Never else Happened(run[i - 1], acts[i - 1], x, Last(run, acts, i - 1, x))
  }

  predicate Live(e: Event) {
    e == Submitted || e == Woken || e == Answered(Emit) || e == Answered(Yield)
  }

  predicate SetsAside(e: Event) {
    e == NoDemand || e == Full || e == LateCancel || e == Answered(Pending)
  }

  predicate Ends(e: Event) {
    e == Reaped || e == Answered(Done) || e == Answered(Error)
  }

  // ---------------------------------------------------------------- places

  datatype Place = Outside | Deque(v: nat) | Global | Lot | Waker | Hand(w: nat, stage: Stage) | Pile

  predicate At(s: State, x: Id, p: Place) {
    match p
    case Outside => x !in s.submitted
    case Deque(v) => v < |s.deques| && x in s.deques[v]
    case Global => x in s.global
    case Lot => x in s.parked
    case Waker => x in s.waking
    case Hand(w, stage) => Holds(s, w, x) && s.workers[w].stage == stage
    case Pile => x in s.retired
  }

  /** What the last event says about the place. */
  predicate Fits(p: Place, e: Event) {
    match p
    case Outside => e == Never
    case Deque(_) => Live(e)
    case Global => Live(e)
    case Lot => SetsAside(e)
    case Waker => e == Taken
    case Hand(_, stage) => StageFits(stage, e)
    case Pile => Ends(e)
  }

  predicate StageFits(stage: Stage, e: Event) {
    match stage
    case Park => SetsAside(e)
    case Requeue => e == Answered(Emit) || e == Answered(Yield)
    case TakeCredit => e == Answered(Emit)
    case AddBuffered => e == Answered(Emit)
    case _ => Live(e)
  }

  lemma {:induction false} PooledAtLeast(qs: seq<seq<Id>>, v: nat, x: Id)
    requires v < |qs|
    ensures Pooled(qs, x) >= Copies(qs[v], x)
  {
    if v > 0 {
      PooledAtLeast(qs[1..], v - 1, x);
    }
  }

  lemma {:induction false} PooledIn(qs: seq<seq<Id>>, x: Id) returns (v: nat)
    requires Pooled(qs, x) > 0
    ensures v < |qs| && x in qs[v]
  {
    if x in qs[0] {
      v := 0;
    } else {
      var k := PooledIn(qs[1..], x);
      v := k + 1;
    }
  }

  /** What place p contributes to the count of places. */
  function Share(s: State, x: Id, p: Place): nat {
    match p
    case Outside => 0
    case Deque(_) => Pooled(s.deques, x)
    case Global => Copies(s.global, x)
    case Lot => Copies(s.parked, x)
    case Waker => Copies(s.waking, x)
    case Hand(_, _) => Held(s.workers, x)
    case Pile => Copies(s.retired, x)
  }

  lemma AtCounts(s: State, x: Id, p: Place)
    requires At(s, x, p) && !p.Outside?
    ensures Share(s, x, p) > 0
  {
    match p
    case Deque(v) => PooledAtLeast(s.deques, v, x);
    case Hand(w, _) => HeldAtLeast(s.workers, w, x);
    case _ =>
  }

  lemma TwoDeques(qs: seq<seq<Id>>, v: nat, w: nat, x: Id)
    requires v < |qs| && w < |qs| && v != w && x in qs[v] && x in qs[w]
    ensures Pooled(qs, x) >= 2
  {
    PooledUpdate(qs, v, [], x);
    PooledAtLeast(qs[v := []], w, x);
  }

  /** A lease in one place is in no other. */
  lemma OnlyThere(s: State, x: Id, p: Place, q: Place)
    requires OnePlace(s) && At(s, x, p) && At(s, x, q)
    ensures p == q
  {
    assert Places(s, x) <= 1;
    if !p.Outside? {
      AtCounts(s, x, p);
    }
    if !q.Outside? {
      AtCounts(s, x, q);
    }
    if p.Deque? && q.Deque? && p != q {
      TwoDeques(s.deques, p.v, q.v, x);
    }
    if p.Hand? && q.Hand? && p.w != q.w {
      OneHolder(s, p.w, q.w);
    }
  }

  /** Every lease is somewhere. */
  lemma Whereabouts(s: State, x: Id) returns (p: Place)
    requires OnePlace(s)
    ensures At(s, x, p)
  {
    assert Places(s, x) == if x in s.submitted then 1 else 0;
    if x !in s.submitted {
      p := Outside;
    } else if Pooled(s.deques, x) > 0 {
      var v := PooledIn(s.deques, x);
      p := Deque(v);
    } else if Held(s.workers, x) > 0 {
      var w := Holder(s.workers, x);
      p := Hand(w, s.workers[w].stage);
    } else if x in s.global {
      p := Global;
    } else if x in s.parked {
      p := Lot;
    } else {
      p := if x in s.waking then Waker else Pile;
    }
  }

  // ---------------------------------------------------------------- following one lease

  /** Where a lease that a worker or a waker has had goes when it is woken: the worker that had it last. */
  predicate Homed(s: State, x: Id, p: Place) {
    && (p.Hand? || p.Lot? || p.Waker? || p.Pile? ==> x in s.affinity && s.affinity[x] < |s.workers|)
    && (p.Hand? && x in s.affinity ==> s.affinity[x] == p.w)
  }

  /** A worker that looks for work finds a queued lease and leaves every other one where it is. */
  lemma SeekTakes(s: State, w: nat, choice: Choice, s': State)
    requires w < |s.workers| == |s.deques| && !s.workers[w].Holding? && s' == SeekStep(s, w, choice)
    ensures |s'.deques| == |s.deques| && w < |s'.workers| && s'.workers == s.workers[w := s'.workers[w]]
    ensures s' == s.(workers := s'.workers, deques := s'.deques, global := s'.global, affinity := s'.affinity)
    ensures !s'.workers[w].Holding? ==> s'.deques == s.deques && s'.global == s.global && s'.affinity == s.affinity
    ensures s'.workers[w].Holding? ==>
      var z := s'.workers[w].id;
      && s'.workers[w].stage == LoadCancel && s'.affinity == s.affinity[z := w]
      && (z in s.global || exists v :: 0 <= v < |s.deques| && z in s.deques[v])
  {
  }

  lemma SeekLeaves(s: State, w: nat, choice: Choice, s': State, y: Id)
    requires w < |s.workers| == |s.deques| && !s.workers[w].Holding? && s' == SeekStep(s, w, choice)
    requires !Holds(s', w, y)
    ensures |s'.deques| == |s.deques| && (y in s.global ==> y in s'.global)
    ensures forall v | 0 <= v < |s.deques| :: y in s.deques[v] ==> y in s'.deques[v]
  {
  }

  lemma FollowSeek(s: State, w: nat, choice: Choice, s': State, x: Id, p: Place, e: Event) returns (p': Place)
    requires OnePlace(s) && w < |s.workers| == |s.deques| && !s.workers[w].Holding? && s' == SeekStep(s, w, choice)
    requires At(s, x, p) && Fits(p, e) && Homed(s, x, p)
    ensures At(s', x, p') && Fits(p', e) && Homed(s', x, p')
  {
    SeekTakes(s, w, choice, s');
    p' := p;
    if Holds(s', w, x) {
      p' := Hand(w, LoadCancel);
      var q := if x in s.global then Global else var v :| 0 <= v < |s.deques| && x in s.deques[v]; Deque(v);
      OnlyThere(s, x, p, q);
    } else {
      SeekLeaves(s, w, choice, s', x);
    }
  }

  lemma HeldFits(s: State, w: nat, choice: Choice, s': State, x: Id, e: Event)
    requires w < |s.workers| == |s.deques| && Holds(s, w, x) && x in s.controls && s' == HoldStep(s, w, choice)
    requires StageFits(s.workers[w].stage, e)
    ensures w < |s'.workers|
    ensures var stage, e' := s.workers[w].stage, Happened(s, WorkerStep(w, choice), x, e);
      if s'.workers[w].Holding? then StageFits(s'.workers[w].stage, e')
      else if stage.Requeue? then Live(e') else if stage.Park? then SetsAside(e') else Ends(e')
  {
  }

  lemma HeldGoes(s: State, w: nat, choice: Choice, s': State, x: Id)
    requires w < |s.workers| == |s.deques| && Holds(s, w, x) && x in s.controls && s' == HoldStep(s, w, choice)
    ensures w < |s'.workers| == |s.workers| && s'.affinity == s.affinity && (s'.workers[w].Holding? ==> Holds(s', w, x))
    ensures !s'.workers[w].Holding? ==>
      if s.workers[w].stage.Requeue? then At(s', x, Deque(w))
      else if s.workers[w].stage.Park? then At(s', x, Lot) else At(s', x, Pile)
  {
  }

  lemma FollowHeld(s: State, w: nat, choice: Choice, s': State, x: Id, e: Event) returns (p': Place)
    requires w < |s.workers| == |s.deques| && Holds(s, w, x) && x in s.controls && s' == HoldStep(s, w, choice)
    requires StageFits(s.workers[w].stage, e) && Homed(s, x, Hand(w, s.workers[w].stage))
    ensures At(s', x, p') && Fits(p', Happened(s, WorkerStep(w, choice), x, e)) && Homed(s', x, p')
  {
    HeldFits(s, w, choice, s', x, e);
    HeldGoes(s, w, choice, s', x);
    p' := if s'.workers[w].Holding? then Hand(w, s'.workers[w].stage)
          else if s.workers[w].stage.Requeue? then Deque(w)
          else if s.workers[w].stage.Park? then Lot
          else Pile;
  }

  lemma HoldLeaves(s: State, w: nat, choice: Choice, s': State, x: Id, p: Place)
    requires w < |s.workers| == |s.deques| && s.workers[w].Holding? && s.workers[w].id in s.controls
    requires s' == HoldStep(s, w, choice) && !Holds(s, w, x) && At(s, x, p) && Homed(s, x, p)
    ensures At(s', x, p) && Homed(s', x, p)
  {
  }

  lemma FollowWorker(s: State, w: nat, choice: Choice, s': State, x: Id, p: Place, e: Event) returns (p': Place)
    requires Inv(s) && w < |s.workers| && s' == Next(s, WorkerStep(w, choice))
    requires At(s, x, p) && Fits(p, e) && Homed(s, x, p)
    ensures At(s', x, p') && Fits(p', Happened(s, WorkerStep(w, choice), x, e)) && Homed(s', x, p')
  {
    if !s.workers[w].Holding? {
      p' := FollowSeek(s, w, choice, s', x, p, e);
    } else {
      HolderSubmitted(s, w);
      if Holds(s, w, x) {
        OnlyThere(s, x, p, Hand(w, s.workers[w].stage));
        p' := FollowHeld(s, w, choice, s', x, e);
      } else {
        HoldLeaves(s, w, choice, s', x, p);
        p' := p;
      }
    }
  }

  lemma PushLeaves(s: State, id: Id, worker: nat, s': State)
    requires s' == PushAffine(s, id, worker)
    ensures s' == s.(deques := s'.deques, global := s'.global) && |s'.deques| == |s.deques|
    ensures forall v | 0 <= v < |s.deques| :: s'.deques[v] == s.deques[v] || s'.deques[v] == s.deques[v] + [id]
    ensures s'.global == s.global || s'.global == s.global + [id]
    ensures At(s', id, if worker < |s.deques| then Deque(worker) else Global)
  {
  }

  lemma FollowSubmission(s: State, a: Action, s': State, x: Id, p: Place, e: Event) returns (p': Place)
    requires Inv(s) && Permitted(s, a) && (a.Schedule? || a.ScheduleAffine?) && s' == Next(s, a)
    requires At(s, x, p) && Fits(p, e) && Homed(s, x, p)
    ensures At(s', x, p') && Fits(p', Happened(s, a, x, e)) && Homed(s', x, p')
  {
    p' := p;
    if a.ScheduleAffine? {
      PushLeaves(s.(submitted := s.submitted + {a.id}), a.id, a.worker, s');
    }
    if a.id == x {
      p' := if a.ScheduleAffine? && a.worker < |s.deques| then Deque(a.worker) else Global;
    }
  }

  lemma FollowWakeTake(s: State, a: Action, s': State, x: Id, p: Place, e: Event) returns (p': Place)
    requires Inv(s) && a.WakeTake? && s' == Next(s, a)
    requires At(s, x, p) && Fits(p, e) && Homed(s, x, p)
    ensures At(s', x, p') && Fits(p', Happened(s, a, x, e)) && Homed(s', x, p')
  {
    p' := p;
    if a.id == x && x in s.parked {
      OnlyThere(s, x, p, Lot);
      p' := Waker;
    }
  }

  lemma FollowWakePush(s: State, a: Action, s': State, x: Id, p: Place, e: Event) returns (p': Place)
    requires Inv(s) && a.WakePush? && s' == Next(s, a)
    requires At(s, x, p) && Fits(p, e) && Homed(s, x, p)
    ensures At(s', x, p') && Fits(p', Happened(s, a, x, e)) && Homed(s', x, p')
  {
    p' := p;
    if a.k < |s.waking| {
      var id := s.waking[a.k];
      PushLeaves(s.(waking := Without(s.waking, a.k)), id, if id in s.affinity then s.affinity[id] else 0, s');
      if id == x {
        OnlyThere(s, x, p, Waker);
        p' := Deque(s.affinity[x]);
      }
    }
  }

  /** One step takes a lease from one place to another as what happened in it says. */
  lemma Follow(s: State, a: Action, s': State, x: Id, p: Place, e: Event) returns (p': Place)
    requires Inv(s) && Permitted(s, a) && s' == Next(s, a)
    requires At(s, x, p) && Fits(p, e) && Homed(s, x, p)
    ensures At(s', x, p') && Fits(p', Happened(s, a, x, e)) && Homed(s', x, p')
  {
    p' := p;
    if a.WorkerStep? {
      if a.w < |s.workers| {
        p' := FollowWorker(s, a.w, a.choice, s', x, p, e);
      }
    } else if a.Schedule? || a.ScheduleAffine? {
      p' := FollowSubmission(s, a, s', x, p, e);
    } else if a.WakeTake? {
      p' := FollowWakeTake(s, a, s', x, p, e);
    } else if a.WakePush? {
      p' := FollowWakePush(s, a, s', x, p, e);
    }
  }

  lemma {:induction false} Placed(n: nat, run: seq<State>, acts: seq<Action>, i: nat, x: Id) returns (p: Place)
    requires IsRun(n, run, acts) && i < |run|
    ensures At(run[i], x, p) && Fits(p, Last(run, acts, i, x)) && Homed(run[i], x, p)
    ensures forall q | At(run[i], x, q) :: q == p
  {
    RunInv(n, run, acts, i);
    if i == 0 {
      p := Outside;
    } else {
      RunInv(n, run, acts, i - 1);
      var q := Placed(n, run, acts, i - 1, x);
      p := Follow(run[i - 1], acts[i - 1], run[i], x, q, Last(run, acts, i - 1, x));
    }
    forall q | At(run[i], x, q) ensures q == p {
      OnlyThere(run[i], x, p, q);
    }
  }

  predicate Queued(s: State, x: Id) {
    x in s.global || exists v :: 0 <= v < |s.deques| && x in s.deques[v]
  }

  predicate HeldToPark(s: State, x: Id) {
    exists w :: 0 <= w < |s.workers| && Holds(s, w, x) && s.workers[w].stage == Park
  }

  predicate UnderWay(s: State, x: Id) {
    exists w :: 0 <= w < |s.workers| && Holds(s, w, x) && s.workers[w].stage != Park
  }

  /** The groups of places the events tell apart. */
  lemma Grouped(s: State, x: Id, p: Place)
    requires At(s, x, p) && forall q | At(s, x, q) :: q == p
    ensures x in s.parked || HeldToPark(s, x) <==> p.Lot? || (p.Hand? && p.stage == Park)
    ensures Queued(s, x) || UnderWay(s, x) <==> p.Deque? || p.Global? || (p.Hand? && p.stage != Park)
    ensures (x in s.retired <==> p.Pile?) && (x in s.waking <==> p.Waker?) && (x !in s.submitted <==> p.Outside?)
  {
    assert x in s.parked ==> At(s, x, Lot);
    assert x in s.global ==> At(s, x, Global);
    assert x in s.waking ==> At(s, x, Waker);
    assert x in s.retired ==> At(s, x, Pile);
    assert x !in s.submitted ==> At(s, x, Outside);
    forall v: nat | v < |s.deques| && x in s.deques[v] ensures p == Deque(v) {
      assert At(s, x, Deque(v));
    }
    forall w: nat | Holds(s, w, x) ensures p == Hand(w, s.workers[w].stage) {
      assert At(s, x, Hand(w, s.workers[w].stage));
    }
  }

  lemma FitsApart(p: Place, e: Event)
    requires Fits(p, e)
    ensures p.Lot? || (p.Hand? && p.stage == Park) <==> SetsAside(e)
    ensures p.Deque? || p.Global? || (p.Hand? && p.stage != Park) <==> Live(e)
    ensures (p.Pile? <==> Ends(e)) && (p.Waker? <==> e == Taken) && (p.Outside? <==> e == Never)
  {
  }

  /** At every point of every run, where a lease is follows from what happened to it last: it is retired exactly
      if it was found cancelled at its first check or answered that it was done or failed; parked, or about to
      be, exactly if it answered that it was pending or was found without demand, with a full buffer or cancelled
      late; in a waker's hands exactly if it was taken out of the lot; and queued or under way exactly if it was
      submitted, woken, or answered with a chunk or that it yields. */
  lemma WhereIsIt(n: nat, run: seq<State>, acts: seq<Action>, i: nat, x: Id)
    requires IsRun(n, run, acts) && i < |run|
    ensures x in run[i].retired <==> Ends(Last(run, acts, i, x))
    ensures x in run[i].parked || HeldToPark(run[i], x) <==> SetsAside(Last(run, acts, i, x))
    ensures x in run[i].waking <==> Last(run, acts, i, x) == Taken
    ensures Queued(run[i], x) || UnderWay(run[i], x) <==> Live(Last(run, acts, i, x))
    ensures x !in run[i].submitted <==> Last(run, acts, i, x) == Never
  {
    var p := Placed(n, run, acts, i, x);
    Grouped(run[i], x, p);
    FitsApart(p, Last(run, acts, i, x));
  }
}
