/** The lease scheduler: workers popping, stealing, checking demand, polling and requeueing, with
    submitters, wakers and consumers moving at any time.  Each queue, deque and parking-lot operation
    is one step, and so is each atomic access to a stream's control block.

    A lease is named by its control block: one lease per control. */
module LeaseScheduler {
  import opened Arithmetic

  type Id = nat

  const HIGH_WATERMARK: nat := 16
  const WORD: nat := 0x1_0000_0000

  /** `requested`, `buffered` and `cancelled` are the control block; the rest records its history:
      credits granted and taken, chunks handed to the consumer, published and consumed. */
  datatype Control = Control(
    requested: nat, buffered: nat, cancelled: bool,
    granted: nat, taken: nat, delivered: nat, published: nat, consumed: nat)

  datatype PollKind = Emit | Pending | Yield | Done | Error

  /** Where a worker stands with the lease in its hands. */
  datatype Stage =
    | LoadCancel
    | LoadRequested
    | LoadBuffered
    | LoadCancelAgain
    | Poll
    | TakeCredit
    | AddBuffered
    | Requeue
    | Park

  datatype Worker =
    | PopLocal
    | Steal
    | PopGlobal
    | Holding(id: Id, stage: Stage)

  datatype State = State(
    deques: seq<seq<Id>>,
    global: seq<Id>,
    parked: seq<Id>,
    waking: seq<Id>,
    workers: seq<Worker>,
    retired: seq<Id>,
    submitted: set<Id>,
    affinity: map<Id, nat>,
    controls: map<Id, Control>)

  /** The choices a worker's step leaves open: whom to rob, whether the robbery wins its race, and
      what the stream answers. */
  datatype Choice = Choice(victim: nat, wins: bool, kind: PollKind)

  datatype Action =
    | Open(id: Id)
    | Schedule(id: Id)
    | ScheduleAffine(id: Id, worker: nat)
    | WakeTake(id: Id)
    | WakePush(k: nat)
    | WorkerStep(w: nat, choice: Choice)
    | Request(id: Id, n: nat)
    | Consume(id: Id)
    | Cancel(id: Id)
    | LoseRace(w: nat, stale: Id)

  function Init(workers: nat): State {
    State(seq(workers, _ => []), [], [], [], seq(workers, _ => PopLocal), [], {}, map[], map[])
  }

  function FreshControl(): Control {
    Control(0, 0, false, 0, 0, 0, 0, 0)
  }

  // ---------------------------------------------------------------- steps

  /** schedule_affine: the named worker's deque, or the global queue when there is no such worker. */
  function PushAffine(s: State, id: Id, worker: nat): State {
    if worker < |s.deques|
    then s.(deques := s.deques[worker := s.deques[worker] + [id]])
    else s.(global := s.global + [id])
  }

  function IndexOf(q: seq<Id>, id: Id): (i: nat)
    ensures i <= |q|
    ensures i < |q| ==> q[i] == id
    ensures id in q <==> i < |q|
  {
    if q == [] then 0 else if q[0] == id then 0 else 1 + IndexOf(q[1..], id)
  }

  function Without(q: seq<Id>, i: nat): seq<Id>
    requires i < |q|
  {
    q[..i] + q[i + 1..]
  }

  function SetWorker(s: State, w: nat, p: Worker): State
    requires w < |s.workers|
  {
    s.(workers := s.workers[w := p])
  }

  function Take(s: State, w: nat, id: Id): State
    requires w < |s.workers|
  {
    SetWorker(s, w, Holding(id, LoadCancel)).(affinity := s.affinity[id := w])
  }

  /** A worker looking for work: its own deque newest first, then a peer's oldest, then the global
      queue's newest. */
  function SeekStep(s: State, w: nat, choice: Choice): State
    requires w < |s.workers| == |s.deques| && !s.workers[w].Holding?
  {
    match s.workers[w]
    case PopLocal =>
      var q := s.deques[w];
      if q != [] then Take(s.(deques := s.deques[w := q[..|q| - 1]]), w, q[|q| - 1])
      else SetWorker(s, w, if |s.workers| > 1 then Steal else PopGlobal)
    case Steal =>
      var v := choice.victim;
      if v < |s.deques| && v != w && s.deques[v] != [] && choice.wins
      then Take(s.(deques := s.deques[v := s.deques[v][1..]]), w, s.deques[v][0])
      else SetWorker(s, w, PopGlobal)
    case PopGlobal =>
      if s.global != []
      then Take(s.(global := s.global[..|s.global| - 1]), w, s.global[|s.global| - 1])
      else SetWorker(s, w, PopLocal)
  }

  function SetControl(s: State, id: Id, c: Control): State {
    s.(controls := s.controls[id := c])
  }

  /** A worker holding a lease: the cancellation and demand checks, the poll, and its dispatch. */
  function HoldStep(s: State, w: nat, choice: Choice): State
    requires w < |s.workers| == |s.deques| && s.workers[w].Holding?
    requires s.workers[w].id in s.controls
  {
    var Holding(id, stage) := s.workers[w];
    var c := s.controls[id];
    var retire := SetWorker(s, w, PopLocal).(retired := s.retired + [id]);
    match stage
    case LoadCancel => if c.cancelled then retire else SetWorker(s, w, Holding(id, LoadRequested))
    case LoadRequested => SetWorker(s, w, Holding(id, if c.requested > 0 then LoadBuffered else Park))
    case LoadBuffered =>
      SetWorker(s, w, Holding(id, if c.buffered < HIGH_WATERMARK then LoadCancelAgain else Park))
    case LoadCancelAgain => SetWorker(s, w, Holding(id, if c.cancelled then Park else Poll))
    case Poll => (
      match choice.kind
      case Emit =>
        SetControl(SetWorker(s, w, Holding(id, TakeCredit)), id, c.(delivered := c.delivered + 1))
      case Pending => SetWorker(s, w, Holding(id, Park))
      case Yield => SetWorker(s, w, Holding(id, Requeue))
      case Done => retire
      case Error => retire)
    case TakeCredit =>
      SetControl(SetWorker(s, w, Holding(id, AddBuffered)), id,
                 c.(requested := (c.requested + WORD - 1) % WORD, taken := c.taken + 1))
    case AddBuffered =>
      SetControl(SetWorker(s, w, Holding(id, Requeue)), id,
                 c.(buffered := (c.buffered + 1) % WORD, published := c.published + 1))
    case Requeue => PushAffine(SetWorker(s, w, PopLocal), id, w)
    case Park => SetWorker(s, w, PopLocal).(parked := s.parked + [id])
  }

  /** request, on_consume and cancel on a control block. */
  function Updated(c: Control, a: Action): Control {
    match a
    case Request(_, n) => c.(requested := (c.requested + n) % WORD, granted := c.granted + n)
    case Consume(_) => c.(buffered := (c.buffered + WORD - 1) % WORD, consumed := c.consumed + 1)
    case Cancel(_) => c.(cancelled := true)
    case _ => c
  }

  function Next(s: State, a: Action): State
    requires |s.workers| == |s.deques|
  {
    match a
    case Open(id) => if id in s.controls then s else SetControl(s, id, FreshControl())
    case Schedule(id) => s.(global := s.global + [id], submitted := s.submitted + {id})
    case ScheduleAffine(id, worker) => PushAffine(s.(submitted := s.submitted + {id}), id, worker)
    case WakeTake(id) =>
      var i := IndexOf(s.parked, id);
      if i < |s.parked| then s.(parked := Without(s.parked, i), waking := s.waking + [id]) else s
    case WakePush(k) =>
      if k >= |s.waking| then s
      else
        var id := s.waking[k];
        PushAffine(s.(waking := Without(s.waking, k)), id, if id in s.affinity then s.affinity[id] else 0)
    case WorkerStep(w, choice) =>
      if w >= |s.workers| then s
      else if !s.workers[w].Holding? then SeekStep(s, w, choice)
      else if s.workers[w].id in s.controls then HoldStep(s, w, choice)
      else s
    case Request(id, _) => if id in s.controls then SetControl(s, id, Updated(s.controls[id], a)) else s
    case Consume(id) => if id in s.controls then SetControl(s, id, Updated(s.controls[id], a)) else s
    case Cancel(id) => if id in s.controls then SetControl(s, id, Updated(s.controls[id], a)) else s
    case LoseRace(w, stale) =>
      if LostRace(s, a)
      then SetWorker(s, w, if |s.workers| > 1 then Steal else PopGlobal).(deques := s.deques[w := [stale]])
      else s
  }

  /** The owner's pop finds its last lease taken and, as the deque is written, leaves a stale slot looking
      live; what it holds is arbitrary, an id never submitted if it is blank. */
  predicate LostRace(s: State, a: Action) {
    a.LoseRace? && a.w < |s.workers| == |s.deques| && s.workers[a.w].PopLocal? && s.deques[a.w] == []
  }

  /** What the scheduler asks of its clients: submit one lease per open control, and consume only chunks
      that are buffered.  They may grant as much as they like.  The deque is to leave no stale slot. */
  ghost predicate Permitted(s: State, a: Action) {
    match a
    case Schedule(id) => id in s.controls && id !in s.submitted
    case ScheduleAffine(id, _) => id in s.controls && id !in s.submitted
    case Consume(id) => id in s.controls ==> s.controls[id].buffered > 0
    case LoseRace(_, _) => false
    case _ => true
  }

  // ---------------------------------------------------------------- conservation of leases

  function Copies(q: seq<Id>, x: Id): nat {
    multiset(q)[x]
  }

  function Pooled(qs: seq<seq<Id>>, x: Id): nat {
    if qs == [] then 0 else Copies(qs[0], x) + Pooled(qs[1..], x)
  }

  function InHand(p: Worker, x: Id): nat {
    if p.Holding? && p.id == x then 1 else 0
  }

  function Held(ws: seq<Worker>, x: Id): nat {
    if ws == [] then 0 else InHand(ws[0], x) + Held(ws[1..], x)
  }

  /** In how many places lease x is. */
  function Places(s: State, x: Id): nat {
    Pooled(s.deques, x) + Copies(s.global, x) + Copies(s.parked, x) + Copies(s.waking, x)
      + Held(s.workers, x) + Copies(s.retired, x)
  }

  lemma {:induction false} PooledUpdate(qs: seq<seq<Id>>, i: nat, q: seq<Id>, x: Id)
    requires i < |qs|
    ensures Pooled(qs[i := q], x) == Pooled(qs, x) - Copies(qs[i], x) + Copies(q, x)
  {
    assert qs[i := q][1..] == if i == 0 then qs[1..] else qs[1..][i - 1 := q];
    if i > 0 {
      PooledUpdate(qs[1..], i - 1, q, x);
    }
  }

  lemma {:induction false} HeldUpdate(ws: seq<Worker>, i: nat, p: Worker, x: Id)
    requires i < |ws|
    ensures Held(ws[i := p], x) == Held(ws, x) - InHand(ws[i], x) + InHand(p, x)
  {
    assert ws[i := p][1..] == if i == 0 then ws[1..] else ws[1..][i - 1 := p];
    if i > 0 {
      HeldUpdate(ws[1..], i - 1, p, x);
    }
  }

  lemma TakeOut(q: seq<Id>, i: nat, x: Id)
    requires i < |q|
    ensures Copies(Without(q, i), x) == Copies(q, x) - if x == q[i] then 1 else 0
  {
    assert q == q[..i] + [q[i]] + q[i + 1..];
  }

  lemma PushAffineAdds(s: State, id: Id, worker: nat, x: Id)
    ensures Places(PushAffine(s, id, worker), x) == Places(s, x) + if x == id then 1 else 0
  {
    if worker < |s.deques| {
      PooledUpdate(s.deques, worker, s.deques[worker] + [id], x);
    }
  }

  lemma TakeFromDeque(s: State, w: nat, v: nat, i: nat, x: Id)
    requires w < |s.workers| && !s.workers[w].Holding? && v < |s.deques| && i < |s.deques[v]|
    ensures Places(Take(s.(deques := s.deques[v := Without(s.deques[v], i)]), w, s.deques[v][i]), x) == Places(s, x)
  {
    var q := Without(s.deques[v], i);
    TakeOut(s.deques[v], i, x);
    PooledUpdate(s.deques, v, q, x);
    HeldUpdate(s.workers, w, Holding(s.deques[v][i], LoadCancel), x);
  }

  lemma TakeFromGlobal(s: State, w: nat, x: Id)
    requires w < |s.workers| && !s.workers[w].Holding? && s.global != []
    ensures var n := |s.global| - 1;
      Places(Take(s.(global := s.global[..n]), w, s.global[n]), x) == Places(s, x)
  {
    var n := |s.global| - 1;
    assert Without(s.global, n) == s.global[..n];
    TakeOut(s.global, n, x);
    HeldUpdate(s.workers, w, Holding(s.global[n], LoadCancel), x);
  }

  lemma LookElsewhere(s: State, w: nat, p: Worker, x: Id)
    requires w < |s.workers| && !s.workers[w].Holding? && !p.Holding?
    ensures Places(SetWorker(s, w, p), x) == Places(s, x)
  {
    HeldUpdate(s.workers, w, p, x);
  }

  lemma SeekConserves(s: State, w: nat, choice: Choice, x: Id)
    requires w < |s.workers| == |s.deques| && !s.workers[w].Holding?
    ensures Places(SeekStep(s, w, choice), x) == Places(s, x)
  {
    var q, v := s.deques[w], choice.victim;
    if s.workers[w].PopLocal? && q != [] {
      assert Without(q, |q| - 1) == q[..|q| - 1];
      TakeFromDeque(s, w, w, |q| - 1, x);
    } else if s.workers[w].Steal? && v < |s.deques| && v != w && s.deques[v] != [] && choice.wins {
      assert Without(s.deques[v], 0) == s.deques[v][1..];
      TakeFromDeque(s, w, v, 0, x);
    } else if s.workers[w].PopGlobal? && s.global != [] {
      TakeFromGlobal(s, w, x);
    } else {
      LookElsewhere(s, w, SeekStep(s, w, choice).workers[w], x);
    }
  }

  lemma RequeueConserves(s: State, w: nat, choice: Choice, x: Id)
    requires w < |s.workers| == |s.deques| && s.workers[w].Holding? && s.workers[w].id in s.controls
    requires s.workers[w].stage.Requeue?
    ensures Places(HoldStep(s, w, choice), x) == Places(s, x)
  {
    HeldUpdate(s.workers, w, PopLocal, x);
    PushAffineAdds(SetWorker(s, w, PopLocal), s.workers[w].id, w, x);
  }

  /** Short of a requeue, a lease in hand stays in hand, is parked, or is retired. */
  lemma HoldStepMoves(s: State, w: nat, choice: Choice, s': State)
    requires w < |s.workers| == |s.deques| && s.workers[w].Holding? && s.workers[w].id in s.controls
    requires !s.workers[w].stage.Requeue? && s' == HoldStep(s, w, choice)
    ensures w < |s'.workers| && s'.workers == s.workers[w := s'.workers[w]]
    ensures s'.deques == s.deques && s'.global == s.global && s'.waking == s.waking
    ensures s'.workers[w].Holding? ==>
      s'.workers[w].id == s.workers[w].id && s'.parked == s.parked && s'.retired == s.retired
    ensures !s'.workers[w].Holding? ==>
      || (s'.parked == s.parked && s'.retired == s.retired + [s.workers[w].id])
      || (s'.parked == s.parked + [s.workers[w].id] && s'.retired == s.retired)
  {
  }

  lemma HoldConserves(s: State, w: nat, choice: Choice, x: Id)
    requires w < |s.workers| == |s.deques| && s.workers[w].Holding? && s.workers[w].id in s.controls
    ensures Places(HoldStep(s, w, choice), x) == Places(s, x)
  {
    if s.workers[w].stage.Requeue? {
      RequeueConserves(s, w, choice, x);
    } else {
      var s' := HoldStep(s, w, choice);
      HoldStepMoves(s, w, choice, s');
      HeldUpdate(s.workers, w, s'.workers[w], x);
    }
  }

  lemma WakeConserves(s: State, a: Action, x: Id)
    requires |s.workers| == |s.deques| && (a.WakeTake? || a.WakePush?)
    ensures Places(Next(s, a), x) == Places(s, x)
  {
    if a.WakeTake? {
      var i := IndexOf(s.parked, a.id);
      if i < |s.parked| {
        TakeOut(s.parked, i, x);
      }
    } else if a.k < |s.waking| {
      var id := s.waking[a.k];
      TakeOut(s.waking, a.k, x);
      PushAffineAdds(s.(waking := Without(s.waking, a.k)), id, if id in s.affinity then s.affinity[id] else 0, x);
    }
  }

  lemma LostRaceAdds(s: State, a: Action, x: Id)
    requires LostRace(s, a)
    ensures Places(Next(s, a), x) == Places(s, x) + if a.stale == x then 1 else 0
  {
    PooledUpdate(s.deques, a.w, [a.stale], x);
    HeldUpdate(s.workers, a.w, if |s.workers| > 1 then Steal else PopGlobal, x);
  }

  /** No step creates or drops a lease, short of a submission and a stale slot. */
  lemma StepConserves(s: State, a: Action, x: Id)
    requires |s.workers| == |s.deques|
    ensures Places(Next(s, a), x) == Places(s, x)
      + (if (a.Schedule? || a.ScheduleAffine?) && a.id == x then 1 else 0)
      + (if LostRace(s, a) && a.stale == x then 1 else 0)
  {
    match a
    case ScheduleAffine(id, w) => PushAffineAdds(s.(submitted := s.submitted + {id}), id, w, x);
    case WakeTake(_) => WakeConserves(s, a, x);
    case WakePush(_) => WakeConserves(s, a, x);
    case LoseRace(_, _) => if LostRace(s, a) { LostRaceAdds(s, a, x); }
    case WorkerStep(w, choice) =>
      if w < |s.workers| {
        if !s.workers[w].Holding? {
          SeekConserves(s, w, choice, x);
        } else if s.workers[w].id in s.controls {
          HoldConserves(s, w, choice, x);
        }
      }
    case _ =>
  }

  /** Every submitted lease is in exactly one place, and nothing else is anywhere. */
  ghost predicate OnePlace(s: State) {
    forall x: Id :: Places(s, x) == if x in s.submitted then 1 else 0
  }

  ghost predicate Shaped(s: State) {
    |s.workers| == |s.deques| && s.submitted <= s.controls.Keys
  }

  lemma WorkerKeepsShape(s: State, w: nat, choice: Choice)
    requires Shaped(s) && w < |s.workers|
    ensures Shaped(Next(s, WorkerStep(w, choice)))
    ensures Next(s, WorkerStep(w, choice)).submitted == s.submitted
  {
  }

  lemma StepKeepsShape(s: State, a: Action)
    requires Shaped(s) && Permitted(s, a)
    ensures Shaped(Next(s, a))
    ensures Next(s, a).submitted == if a.Schedule? || a.ScheduleAffine? then s.submitted + {a.id} else s.submitted
  {
    if a.WorkerStep? && a.w < |s.workers| {
      WorkerKeepsShape(s, a.w, a.choice);
    }
  }

  lemma StepKeepsOnePlace(s: State, a: Action)
    requires Shaped(s) && OnePlace(s) && Permitted(s, a)
    ensures Shaped(Next(s, a)) && OnePlace(Next(s, a))
  {
    StepKeepsShape(s, a);
    forall x: Id ensures Places(Next(s, a), x) == if x in Next(s, a).submitted then 1 else 0 {
      StepConserves(s, a, x);
    }
  }

  // ---------------------------------------------------------------- credits

  /** No credit is taken that was not granted, and the counter shows those outstanding up to its width;
      chunks published are buffered or consumed, and the buffer is within its watermark. */
  ghost predicate Credits(c: Control) {
    && c.taken <= c.granted && c.requested == (c.granted - c.taken) % WORD
    && c.published == c.buffered + c.consumed && c.buffered <= HIGH_WATERMARK
  }

  ghost predicate Settled(c: Control) {
    c.delivered == c.taken == c.published
  }

  /** What the worker that holds the lease may rely on: the credit and the room it has seen are still
      there, since it alone takes them. */
  ghost predicate StageOk(stage: Stage, c: Control) {
    && (stage.LoadBuffered? || stage.LoadCancelAgain? || stage.Poll? || stage.TakeCredit? ==> c.taken < c.granted)
    && (stage.LoadCancelAgain? || stage.Poll? || stage.TakeCredit? || stage.AddBuffered?
        ==> c.buffered < HIGH_WATERMARK)
    && c.delivered == (if stage.TakeCredit? then c.taken + 1 else c.taken)
    && c.taken == (if stage.AddBuffered? then c.published + 1 else c.published)
  }

  ghost predicate WorkerOk(s: State, p: Worker) {
    p.Holding? ==> p.id in s.controls && StageOk(p.stage, s.controls[p.id])
  }

  ghost predicate ControlOk(s: State, id: Id) {
    id in s.controls ==> Credits(s.controls[id]) && (Held(s.workers, id) == 0 ==> Settled(s.controls[id]))
  }

  ghost predicate Inv(s: State) {
    && Shaped(s) && OnePlace(s)
    && (forall w :: 0 <= w < |s.workers| ==> WorkerOk(s, s.workers[w]))
    && (forall id: Id :: ControlOk(s, id))
  }

  lemma {:induction false} HeldAtLeast(ws: seq<Worker>, i: nat, x: Id)
    requires i < |ws|
    ensures Held(ws, x) >= InHand(ws[i], x)
  {
    if i > 0 {
      HeldAtLeast(ws[1..], i - 1, x);
    }
  }

  /** No two workers hold the same lease. */
  lemma OneHolder(s: State, i: nat, j: nat)
    requires OnePlace(s) && i < |s.workers| && j < |s.workers| && i != j
    requires s.workers[i].Holding? && s.workers[j].Holding?
    ensures s.workers[i].id != s.workers[j].id
  {
    var x := s.workers[i].id;
    HeldUpdate(s.workers, i, PopLocal, x);
    HeldAtLeast(s.workers[i := PopLocal], j, x);
    assert Places(s, x) <= 1;
  }

  lemma HolderSubmitted(s: State, w: nat)
    requires Shaped(s) && OnePlace(s) && w < |s.workers| && s.workers[w].Holding?
    ensures s.workers[w].id in s.controls
  {
    HeldAtLeast(s.workers, w, s.workers[w].id);
    assert Places(s, s.workers[w].id) >= 1;
  }

  /** A step that changes only what worker w holds and the control of one lease keeps the credits,
      given that it does so for that worker and that lease. */
  lemma LocalKeepsCredits(s: State, s': State, w: nat, id: Id)
    requires Inv(s) && Shaped(s') && OnePlace(s') && w < |s.workers|
    requires |s'.workers| == |s.workers| && s'.workers == s.workers[w := s'.workers[w]]
    requires forall x: Id :: x != id && x in s'.controls ==> x in s.controls && s'.controls[x] == s.controls[x]
    requires s.controls.Keys <= s'.controls.Keys
    requires s.workers[w].Holding? ==> s.workers[w].id == id
    requires s'.workers[w].Holding? ==> s'.workers[w].id == id
    requires forall v :: 0 <= v < |s.workers| && v != w && s.workers[v].Holding? ==> s.workers[v].id != id
    requires WorkerOk(s', s'.workers[w]) && ControlOk(s', id)
    ensures Inv(s')
  {
    forall v | 0 <= v < |s'.workers| ensures WorkerOk(s', s'.workers[v]) {
      assert v != w ==> WorkerOk(s, s.workers[v]);
    }
    forall x: Id ensures ControlOk(s', x) {
      assert ControlOk(s, x);
      HeldUpdate(s.workers, w, s'.workers[w], x);
    }
  }

  /** A worker that picks up a lease picks up a settled one. */
  lemma SeekKeepsInv(s: State, w: nat, choice: Choice)
    requires Inv(s) && w < |s.workers| && !s.workers[w].Holding?
    ensures Inv(SeekStep(s, w, choice))
  {
    var s' := SeekStep(s, w, choice);
    StepKeepsOnePlace(s, WorkerStep(w, choice));
    var p := s'.workers[w];
    assert s'.controls == s.controls && s'.workers == s.workers[w := p];
    if p.Holding? {
      HolderSubmitted(s', w);
      HeldUpdate(s.workers, w, p, p.id);
      assert Places(s', p.id) <= 1;
      assert ControlOk(s, p.id);
      forall v | 0 <= v < |s.workers| && v != w && s.workers[v].Holding? ensures s.workers[v].id != p.id {
        OneHolder(s', v, w);
      }
      LocalKeepsCredits(s, s', w, p.id);
    } else {
      forall v | 0 <= v < |s'.workers| ensures WorkerOk(s', s'.workers[v]) {
        assert v != w ==> WorkerOk(s, s.workers[v]);
      }
      forall x: Id ensures ControlOk(s', x) {
        assert ControlOk(s, x);
        HeldUpdate(s.workers, w, p, x);
      }
    }
  }

  lemma CountsOn(n: nat, k: nat)
    ensures (n % WORD + k) % WORD == (n + k) % WORD
  {
    var m := n % WORD + k;
    DivModUnique(n + k, n / WORD + m / WORD, m % WORD, WORD);
  }

  lemma OneFewer(n: nat)
    requires n > 0
    ensures (n % WORD + WORD - 1) % WORD == (n - 1) % WORD
  {
    CountsOn(n, WORD - 1);
    DivModUnique(n - 1 + WORD, (n - 1) / WORD + 1, (n - 1) % WORD, WORD);
  }

  /** Taking a credit and publishing a chunk are what the worker with the lease in hand may do to its control. */
  lemma TakenCredit(c: Control, c': Control)
    requires Credits(c) && StageOk(TakeCredit, c)
    requires c' == c.(requested := (c.requested + WORD - 1) % WORD, taken := c.taken + 1)
    ensures Credits(c') && StageOk(AddBuffered, c')
  {
    OneFewer(c.granted - c.taken);
  }

  lemma BufferedChunk(c: Control, c': Control)
    requires Credits(c) && StageOk(AddBuffered, c)
    requires c' == c.(buffered := (c.buffered + 1) % WORD, published := c.published + 1)
    ensures Credits(c') && Settled(c')
  {
  }

  /** The checks, the poll and the dispatch keep the credits of the lease in hand. */
  lemma HoldStepLocal(s: State, w: nat, choice: Choice, s': State)
    requires w < |s.workers| == |s.deques| && s.workers[w].Holding? && s.workers[w].id in s.controls
    requires Credits(s.controls[s.workers[w].id]) && StageOk(s.workers[w].stage, s.controls[s.workers[w].id])
    requires s' == HoldStep(s, w, choice)
    ensures s.workers[w].id in s'.controls && WorkerOk(s', s'.workers[w])
    ensures Credits(s'.controls[s.workers[w].id])
    ensures !s'.workers[w].Holding? ==> Settled(s'.controls[s.workers[w].id])
  {
    var c, c' := s.controls[s.workers[w].id], s'.controls[s.workers[w].id];
    if s.workers[w].stage.TakeCredit? {
      TakenCredit(c, c');
    } else if s.workers[w].stage.AddBuffered? {
      BufferedChunk(c, c');
    } else {
      assert c' == c || c' == c.(delivered := c.delivered + 1);
    }
  }

  lemma HoldStepFrame(s: State, w: nat, choice: Choice, s': State)
    requires Shaped(s) && w < |s.workers| && s.workers[w].Holding? && s.workers[w].id in s.controls
    requires s' == HoldStep(s, w, choice)
    ensures w < |s'.workers| && s'.workers == s.workers[w := s'.workers[w]]
    ensures s'.controls.Keys == s.controls.Keys
    ensures forall x: Id :: x != s.workers[w].id && x in s'.controls ==> s'.controls[x] == s.controls[x]
    ensures s'.workers[w].Holding? ==> s'.workers[w].id == s.workers[w].id
  {
  }

  lemma HoldKeepsInv(s: State, w: nat, choice: Choice)
    requires Inv(s) && w < |s.workers| && s.workers[w].Holding? && s.workers[w].id in s.controls
    ensures Inv(HoldStep(s, w, choice))
  {
    var s', id := HoldStep(s, w, choice), s.workers[w].id;
    StepKeepsOnePlace(s, WorkerStep(w, choice));
    HoldStepFrame(s, w, choice, s');
    assert WorkerOk(s, s.workers[w]) && ControlOk(s, id);
    HoldStepLocal(s, w, choice, s');
    HeldAtLeast(s'.workers, w, id);
    forall v | 0 <= v < |s.workers| && v != w && s.workers[v].Holding? ensures s.workers[v].id != id {
      OneHolder(s, v, w);
    }
    LocalKeepsCredits(s, s', w, id);
  }

  /** Nothing a worker or a consumer may rely on is lost. */
  ghost predicate Kept(c: Control, c': Control) {
    && Credits(c') && (Settled(c) ==> Settled(c'))
    && forall stage :: StageOk(stage, c) ==> StageOk(stage, c')
  }

  lemma UpdatedIsKept(c: Control, a: Action)
    requires Credits(c) && (a.Consume? ==> c.buffered > 0)
    ensures Kept(c, Updated(c, a))
  {
    if a.Request? {
      CountsOn(c.granted - c.taken, a.n);
    }
  }

  /** A client only opens a control block or updates one. */
  lemma ClientChangesControls(s: State, a: Action, s': State)
    requires Permitted(s, a) && !a.WorkerStep? && |s.workers| == |s.deques| && s' == Next(s, a)
    ensures s'.workers == s.workers
    ensures forall x: Id :: x in s.controls ==>
      x in s'.controls && (s'.controls[x] == s.controls[x] || s'.controls[x] == Updated(s.controls[x], a))
    ensures forall x: Id :: x in s'.controls && x !in s.controls ==> s'.controls[x] == FreshControl()
    ensures forall x: Id ::
      a.Consume? && x in s.controls && s'.controls[x] != s.controls[x] ==> s.controls[x].buffered > 0
  {
  }

  /** What submitters, wakers and consumers do keeps the credits of every lease. */
  lemma ClientKeepsInv(s: State, a: Action)
    requires Inv(s) && Permitted(s, a) && !a.WorkerStep?
    ensures Inv(Next(s, a))
  {
    var s' := Next(s, a);
    StepKeepsOnePlace(s, a);
    ClientChangesControls(s, a, s');
    forall x: Id | x in s.controls ensures Kept(s.controls[x], s'.controls[x]) {
      assert ControlOk(s, x);
      if s'.controls[x] != s.controls[x] {
        UpdatedIsKept(s.controls[x], a);
      }
    }
    forall x: Id ensures ControlOk(s', x) {
      assert ControlOk(s, x);
    }
    forall w | 0 <= w < |s'.workers| ensures WorkerOk(s', s'.workers[w]) {
      assert WorkerOk(s, s.workers[w]);
    }
  }

  lemma StepKeepsInv(s: State, a: Action)
    requires Inv(s) && Permitted(s, a)
    ensures Inv(Next(s, a))
  {
    if a.WorkerStep? {
      if a.w < |s.workers| {
        if !s.workers[a.w].Holding? {
          SeekKeepsInv(s, a.w, a.choice);
        } else if s.workers[a.w].id in s.controls {
          HoldKeepsInv(s, a.w, a.choice);
        }
      }
    } else {
      ClientKeepsInv(s, a);
    }
  }

  // ---------------------------------------------------------------- runs

  /** The states of a run of permitted actions. */
  ghost predicate IsRun(n: nat, run: seq<State>, acts: seq<Action>) {
    && |run| == |acts| + 1 && run[0] == Init(n)
    && forall i :: 0 <= i < |acts| ==>
         |run[i].workers| == |run[i].deques| && Permitted(run[i], acts[i]) && run[i + 1] == Next(run[i], acts[i])
  }

  lemma {:induction false} NobodyHolds(qs: seq<seq<Id>>, ws: seq<Worker>, x: Id)
    requires |qs| == |ws|
    requires forall i :: 0 <= i < |qs| ==> qs[i] == [] && ws[i] == PopLocal
    ensures Pooled(qs, x) == 0 && Held(ws, x) == 0
  {
    if qs != [] {
      NobodyHolds(qs[1..], ws[1..], x);
    }
  }

  lemma InitInv(n: nat)
    ensures Inv(Init(n))
  {
    forall x: Id ensures Places(Init(n), x) == 0 {
      NobodyHolds(Init(n).deques, Init(n).workers, x);
    }
  }

  lemma {:induction false} RunInv(n: nat, run: seq<State>, acts: seq<Action>, i: nat)
    requires IsRun(n, run, acts) && i < |run|
    ensures Inv(run[i])
  {
    if i == 0 {
      InitInv(n);
    } else {
      RunInv(n, run, acts, i - 1);
      StepKeepsInv(run[i - 1], acts[i - 1]);
    }
  }

  /** At every point of every run, a submitted lease is in exactly one of the deques, the global
      queue, the parking lot, a waker's or a worker's hands, and the retired pile. */
  lemma EveryLeaseInOnePlace(n: nat, run: seq<State>, acts: seq<Action>, i: nat, x: Id)
    requires IsRun(n, run, acts) && i < |run|
    ensures Places(run[i], x) == if x in run[i].submitted then 1 else 0
  {
    RunInv(n, run, acts, i);
  }

  // ---- with the deque as it is written

  ghost predicate IsRunAsWritten(n: nat, run: seq<State>, acts: seq<Action>) {
    && |run| == |acts| + 1 && run[0] == Init(n)
    && forall i :: 0 <= i < |acts| ==>
         && |run[i].workers| == |run[i].deques|
         && (acts[i].LoseRace? || Permitted(run[i], acts[i]))
         && run[i + 1] == Next(run[i], acts[i])
  }

  /** Stale slots left with this lease in them by the first i steps. */
  function StaleSlots(run: seq<State>, acts: seq<Action>, i: nat, x: Id): nat
    requires i <= |acts| && |run| == |acts| + 1
  {
    if i == 0 then 0
    else StaleSlots(run, acts, i - 1, x) + if LostRace(run[i - 1], acts[i - 1]) && acts[i - 1].stale == x then 1 else 0
  }

  function Due(s: State, x: Id): nat {
    if x in s.submitted then 1 else 0
  }

  lemma StepAsWritten(s: State, a: Action, s': State, x: Id)
    requires Shaped(s) && (a.LoseRace? || Permitted(s, a)) && s' == Next(s, a)
    ensures Shaped(s')
    ensures Places(s', x) - Due(s', x) == Places(s, x) - Due(s, x) + if LostRace(s, a) && a.stale == x then 1 else 0
  {
    StepConserves(s, a, x);
    if !a.LoseRace? {
      StepKeepsShape(s, a);
    }
  }

  lemma {:induction false} PlacesAsWritten(n: nat, run: seq<State>, acts: seq<Action>, i: nat, x: Id)
    requires IsRunAsWritten(n, run, acts) && i < |run|
    ensures Shaped(run[i]) && Places(run[i], x) == Due(run[i], x) + StaleSlots(run, acts, i, x)
  {
    if i == 0 {
      InitInv(n);
    } else {
      PlacesAsWritten(n, run, acts, i - 1, x);
      StepAsWritten(run[i - 1], acts[i - 1], run[i], x);
    }
  }

  lemma {:induction false} StaleSlotsFrom(run: seq<State>, acts: seq<Action>, i: nat, k: nat)
    requires k < i <= |acts| && |run| == |acts| + 1 && LostRace(run[k], acts[k])
    ensures StaleSlots(run, acts, i, acts[k].stale) > 0
  {
    if k < i - 1 {
      StaleSlotsFrom(run, acts, i - 1, k);
    }
  }

  lemma {:induction false} NoStaleSlots(run: seq<State>, acts: seq<Action>, i: nat, x: Id)
    requires i <= |acts| && |run| == |acts| + 1 && forall k | 0 <= k < i :: !LostRace(run[k], acts[k])
    ensures StaleSlots(run, acts, i, x) == 0
  {
    if i > 0 {
      NoStaleSlots(run, acts, i - 1, x);
    }
  }

  /** With the deque as it is written every lease is in one place, and nothing else anywhere, exactly until a
      pop loses the race for its last lease. */
  lemma OnePlaceIffNoLostRace(n: nat, run: seq<State>, acts: seq<Action>, i: nat)
    requires IsRunAsWritten(n, run, acts) && i < |run|
    ensures OnePlace(run[i]) <==> forall k | 0 <= k < i :: !LostRace(run[k], acts[k])
  {
    if k :| 0 <= k < i && LostRace(run[k], acts[k]) {
      PlacesAsWritten(n, run, acts, i, acts[k].stale);
      StaleSlotsFrom(run, acts, i, k);
    } else {
      forall x: Id ensures Places(run[i], x) == Due(run[i], x) {
        PlacesAsWritten(n, run, acts, i, x);
        NoStaleSlots(run, acts, i, x);
      }
    }
  }

  /** At every point of every run and however much is granted, no credit has been taken and no chunk
      handed over that was not granted, and at most sixteen chunks are buffered. */
  lemma BackpressureHolds(n: nat, run: seq<State>, acts: seq<Action>, i: nat, id: Id)
    requires IsRun(n, run, acts) && i < |run| && id in run[i].controls
    ensures
      var c := run[i].controls[id];
      && c.taken <= c.granted && c.requested == (c.granted - c.taken) % WORD
      && c.delivered <= c.granted
      && c.buffered <= HIGH_WATERMARK
      && c.consumed <= c.published <= c.delivered
  {
    RunInv(n, run, acts, i);
    var s := run[i];
    assert ControlOk(s, id);
    if Held(s.workers, id) > 0 {
      var w := Holder(s.workers, id);
      assert WorkerOk(s, s.workers[w]);
    }
  }

  /** A worker that takes a credit finds one: the counter it lowers is zero only if it has gone round. */
  lemma CreditNeverUnderflows(n: nat, run: seq<State>, acts: seq<Action>, i: nat, w: nat)
    requires IsRun(n, run, acts) && i < |run| && w < |run[i].workers|
    requires run[i].workers[w].Holding? && run[i].workers[w].stage.TakeCredit?
    ensures run[i].workers[w].id in run[i].controls
    ensures var c := run[i].controls[run[i].workers[w].id];
      c.taken < c.granted && (c.requested == 0 ==> c.granted - c.taken >= WORD)
  {
    RunInv(n, run, acts, i);
    var p := run[i].workers[w];
    assert WorkerOk(run[i], p) && ControlOk(run[i], p.id);
  }

  lemma {:induction false} Holder(ws: seq<Worker>, x: Id) returns (w: nat)
    requires Held(ws, x) > 0
    ensures w < |ws| && ws[w].Holding? && ws[w].id == x
  {
    if InHand(ws[0], x) > 0 {
      w := 0;
    } else {
      var v := Holder(ws[1..], x);
      w := v + 1;
    }
  }

  // ---------------------------------------------------------------- the width of the counter

  /** At every point of every run the counter is the number of outstanding credits exactly when that fits
      its width; a worker then sees no demand exactly when there is none. */
  lemma CounterExactIff(n: nat, run: seq<State>, acts: seq<Action>, i: nat, id: Id)
    requires IsRun(n, run, acts) && i < |run| && id in run[i].controls
    ensures
      var c := run[i].controls[id];
      && (c.requested == c.granted - c.taken <==> c.granted - c.taken < WORD)
      && (c.requested == 0 <==> (c.granted - c.taken) % WORD == 0)
  {
    RunInv(n, run, acts, i);
    assert ControlOk(run[i], id);
  }

  lemma OneMore(n: nat, run: seq<State>, acts: seq<Action>, a: Action, s: State)
    requires IsRun(n, run, acts)
    requires var last := run[|run| - 1];
      |last.workers| == |last.deques| && Permitted(last, a) && s == Next(last, a)
    ensures IsRun(n, run + [s], acts + [a])
  {
  }

  /** One worker and one lease, whose stream has been granted a whole turn of the counter. */
  function Granted(global: seq<Id>, w: Worker, parked: seq<Id>, affinity: map<Id, nat>): State {
    State([[]], global, parked, [], [w], [], {0}, affinity, map[0 := FreshControl().(granted := WORD)])
  }

  lemma ClientsGrant() returns (run: seq<State>, acts: seq<Action>)
    ensures IsRun(1, run, acts) && run[|run| - 1] == Granted([0], PopLocal, [], map[])
  {
    var s0, c := Init(1), FreshControl();
    var s1 := s0.(controls := map[0 := c]);
    var s2 := s0.(controls := map[0 := c.(requested := WORD - 1, granted := WORD - 1)]);
    var s3 := s0.(controls := map[0 := c.(granted := WORD)]);
    run, acts := [s0], [];
    OneMore(1, run, acts, Open(0), s1);
    run, acts := run + [s1], acts + [Open(0)];
    OneMore(1, run, acts, Request(0, WORD - 1), s2);
    run, acts := run + [s2], acts + [Request(0, WORD - 1)];
    OneMore(1, run, acts, Request(0, 1), s3);
    run, acts := run + [s3], acts + [Request(0, 1)];
    OneMore(1, run, acts, Schedule(0), Granted([0], PopLocal, [], map[]));
    run, acts := run + [Granted([0], PopLocal, [], map[])], acts + [Schedule(0)];
    assert s0.workers == [PopLocal] && s0.deques == [[]];
  }

  /** A grant that takes the counter once round is lost: the worker sees no demand and parks the lease. */
  lemma WrappedGrantIsLost() returns (run: seq<State>, acts: seq<Action>)
    ensures IsRun(1, run, acts)
    ensures var s := run[|run| - 1];
      s.parked == [0] && 0 in s.controls && s.controls[0].granted == WORD && s.controls[0].requested == 0
  {
    var step := WorkerStep(0, Choice(0, false, PollKind.Pending));
    run, acts := ClientsGrant();
    var next := [
      Granted([0], PopGlobal, [], map[]),
      Granted([], Holding(0, LoadCancel), [], map[0 := 0]),
      Granted([], Holding(0, LoadRequested), [], map[0 := 0]),
      Granted([], Holding(0, Park), [], map[0 := 0]),
      Granted([], PopLocal, [0], map[0 := 0])];
    for i := 0 to 5
      invariant IsRun(1, run, acts)
      invariant run[|run| - 1] == if i == 0 then Granted([0], PopLocal, [], map[]) else next[i - 1]
    {
      OneMore(1, run, acts, step, next[i]);
      run, acts := run + [next[i]], acts + [step];
    }
  }
}
