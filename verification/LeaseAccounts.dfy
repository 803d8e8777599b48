/** The control block of a lease agrees with what its clients did and what its stream answered: over whole runs,
    grants, chunks, consumption and cancellation are what the steps of the run say. */
module LeaseAccounts {
  import opened LeaseScheduler
  import opened LeaseHistory

  datatype Books = Books(granted: nat, emitted: nat, consumed: nat, cancelled: bool)

  /** One more step, for lease x: what is asked of a control block counts from when it is open. */
  function Booked(b: Books, s: State, a: Action, x: Id): Books {
    match a
    case Request(id, n) => if id == x && x in s.controls then b.(granted := b.granted + n) else b
    case Consume(id) => if id == x && x in s.controls then b.(consumed := b.consumed + 1) else b
    case Cancel(id) => if id == x && x in s.controls then b.(cancelled := true) else b
    case WorkerStep(w, choice) =>
      if Holds(s, w, x) && s.workers[w].stage == Poll && choice.kind == Emit then b.(emitted := b.emitted + 1) else b
    case _ => b
  }

  function BooksOf(run: seq<State>, acts: seq<Action>, i: nat, x: Id): Books
    requires i <= |acts| && |run| == |acts| + 1
  {
    if i == 0 then Books(0, 0, 0, false) else Booked(BooksOf(run, acts, i - 1, x), run[i - 1], acts[i - 1], x)
  }

  predicate Agrees(s: State, x: Id, b: Books) {
    if x in s.controls
    then b == Books(s.controls[x].granted, s.controls[x].delivered, s.controls[x].consumed, s.controls[x].cancelled)
    else b == Books(0, 0, 0, false)
  }

  lemma HoldAgrees(s: State, w: nat, choice: Choice, s': State, x: Id, b: Books)
    requires w < |s.workers| == |s.deques| && s.workers[w].Holding? && s.workers[w].id in s.controls
    requires s' == HoldStep(s, w, choice) && Agrees(s, x, b)
    ensures Agrees(s', x, Booked(b, s, WorkerStep(w, choice), x))
  {
  }

  lemma WorkerAgrees(s: State, w: nat, choice: Choice, s': State, x: Id, b: Books)
    requires Inv(s) && s' == Next(s, WorkerStep(w, choice)) && Agrees(s, x, b)
    ensures Agrees(s', x, Booked(b, s, WorkerStep(w, choice), x))
  {
    if w < |s.workers| {
      if s.workers[w].Holding? {
        HolderSubmitted(s, w);
        HoldAgrees(s, w, choice, s', x, b);
      } else {
        SeekTakes(s, w, choice, s');
      }
    }
  }

  lemma StepAgrees(s: State, a: Action, s': State, x: Id, b: Books)
    requires Inv(s) && Permitted(s, a) && s' == Next(s, a) && Agrees(s, x, b)
    ensures Agrees(s', x, Booked(b, s, a, x))
  {
    match a
    case WorkerStep(w, choice) => WorkerAgrees(s, w, choice, s', x, b);
    case ScheduleAffine(id, worker) => PushLeaves(s.(submitted := s.submitted + {id}), id, worker, s');
    case WakePush(k) =>
      if k < |s.waking| {
        var id := s.waking[k];
        PushLeaves(s.(waking := Without(s.waking, k)), id, if id in s.affinity then s.affinity[id] else 0, s');
      }
    case _ =>
  }

  lemma {:induction false} RunAgrees(n: nat, run: seq<State>, acts: seq<Action>, i: nat, x: Id)
    requires IsRun(n, run, acts) && i < |run|
    ensures Agrees(run[i], x, BooksOf(run, acts, i, x))
  {
    if i > 0 {
      RunInv(n, run, acts, i - 1);
      RunAgrees(n, run, acts, i - 1, x);
      StepAgrees(run[i - 1], acts[i - 1], run[i], x, BooksOf(run, acts, i - 1, x));
    }
  }

  /** What the invariant says about a control block, worker or no worker at it. */
  lemma InvBounds(s: State, x: Id)
    requires Inv(s) && x in s.controls
    ensures Credits(s.controls[x]) && (Held(s.workers, x) == 0 ==> Settled(s.controls[x]))
    ensures s.controls[x].published <= s.controls[x].delivered <= s.controls[x].granted
  {
    assert ControlOk(s, x);
    if Held(s.workers, x) > 0 {
      var w := Holder(s.workers, x);
      assert WorkerOk(s, s.workers[w]);
    }
  }

  lemma BooksBalance(c: Control, b: Books, idle: bool)
    requires Credits(c) && c.published <= c.delivered <= c.granted && (idle ==> Settled(c))
    requires b == Books(c.granted, c.delivered, c.consumed, c.cancelled)
    ensures b.consumed <= b.emitted <= b.granted && c.buffered <= b.emitted - b.consumed
    ensures idle ==> c.buffered == b.emitted - b.consumed && c.requested == (b.granted - b.emitted) % WORD
  {
  }

  /** No more chunks than asked for; while no worker has the lease the buffer holds the chunks not consumed, and
      the counter shows the demand not yet met. */
  predicate DemandMet(s: State, x: Id, b: Books) {
    x in s.controls ==>
      var c := s.controls[x];
      && b.consumed <= b.emitted <= b.granted && c.cancelled == b.cancelled
      && c.buffered <= b.emitted - b.consumed
      && (Held(s.workers, x) == 0 ==>
            c.buffered == b.emitted - b.consumed && c.requested == (b.granted - b.emitted) % WORD)
  }

  lemma InvMeetsDemand(s: State, x: Id, b: Books)
    requires Inv(s) && Agrees(s, x, b)
    ensures DemandMet(s, x, b)
  {
    if x in s.controls {
      InvBounds(s, x);
      BooksBalance(s.controls[x], b, Held(s.workers, x) == 0);
    }
  }

  /** In every run a stream never answers with more chunks than its consumer asked for, and its buffer and its
      counter are what the clients' steps and the stream's answers make them. */
  lemma DemandIsKept(n: nat, run: seq<State>, acts: seq<Action>, i: nat, x: Id)
    requires IsRun(n, run, acts) && i < |run|
    ensures DemandMet(run[i], x, BooksOf(run, acts, i, x))
  {
    RunInv(n, run, acts, i);
    RunAgrees(n, run, acts, i, x);
    InvMeetsDemand(run[i], x, BooksOf(run, acts, i, x));
  }
}
