/** The task pool as a step system: every mutex-guarded section, atomic access and task body is one step, in
    any interleaving of the workers, the submitters and any number of shutdown callers. */
module TaskPool {

  type Task = nat

  datatype Pc =
    | AtLocal | AtSubmitted | AtSteal | AtCheck | Waiting | Running(task: Task)
    | DrainLocal | DrainLocalRun(task: Task) | DrainSubmitted | DrainSubmittedRun(task: Task) | Exited

  /** A caller of shutdown: the first one joins the workers in turn, a later one returns at once. */
  datatype Caller = Idle | Joining(next: nat) | Returned(joined: bool)

  /** Tasks are numbered in submission order; `runs` counts how often each has run, and `early` is the
      number of tasks submitted before the shutdown flag was set. */
  datatype State = State(submitted: seq<Task>, locals: seq<seq<Task>>, pcs: seq<Pc>, shutdown: bool,
                         callers: seq<Caller>, runs: seq<nat>, early: nat)

  datatype Action = Submit | Work(worker: nat, victim: nat) | CallShutdown(caller: nat) | Join(caller: nat)

  function Start(workers: nat, callers: nat): State {
    State([], seq(workers, _ => []), seq(workers, _ => AtLocal), false, seq(callers, _ => Idle), [], 0)
  }

  predicate Enabled(s: State, a: Action) {
    |s.locals| == |s.pcs| &&
    match a
    case Submit => true
    case Work(i, v) => i < |s.pcs| && !s.pcs[i].Exited? && v < |s.pcs| && (s.pcs[i].AtSteal? ==> v != i)
    case CallShutdown(c) => c < |s.callers| && s.callers[c].Idle?
    case Join(c) =>
      && c < |s.callers| && s.callers[c].Joining?
      && (s.callers[c].next < |s.pcs| ==> s.pcs[s.callers[c].next].Exited?)
  }

  function Go(s: State, i: nat, pc: Pc): State
    requires i < |s.pcs|
  {
    s.(pcs := s.pcs[i := pc])
  }

  function Ran(s: State, t: Task): State {
    if t < |s.runs| then s.(runs := s.runs[t := s.runs[t] + 1]) else s
  }

  /** One step of a worker. */
  function WorkStep(s: State, i: nat, victim: nat): State
    requires Enabled(s, Work(i, victim))
  {
    match s.pcs[i]
    case AtLocal =>
      var n := |s.locals[i]|;
      if n > 0 then Go(s, i, Running(s.locals[i][n - 1])).(locals := s.locals[i := s.locals[i][..n - 1]])
      else Go(s, i, AtSubmitted)
    case AtSubmitted =>
      if s.submitted != [] then Go(s, i, Running(s.submitted[0])).(submitted := s.submitted[1..])
      else Go(s, i, if |s.pcs| > 1 then AtSteal else AtCheck)
    case AtSteal =>
      if s.locals[victim] != [] then
        Go(s, i, Running(s.locals[victim][0])).(locals := s.locals[victim := s.locals[victim][1..]])
      else Go(s, i, AtCheck)
    case Running(t) => Go(Ran(s, t), i, AtLocal)
    case AtCheck => Go(s, i, if s.shutdown then DrainLocal else Waiting)
    case Waiting => Go(s, i, AtLocal)
    case DrainLocal =>
      var n := |s.locals[i]|;
      if n > 0 then Go(s, i, DrainLocalRun(s.locals[i][n - 1])).(locals := s.locals[i := s.locals[i][..n - 1]])
      else Go(s, i, DrainSubmitted)
    case DrainLocalRun(t) => Go(Ran(s, t), i, DrainLocal)
    case DrainSubmitted =>
      if s.submitted != [] then Go(s, i, DrainSubmittedRun(s.submitted[0])).(submitted := s.submitted[1..])
      else Go(s, i, Exited)
    case DrainSubmittedRun(t) => Go(Ran(s, t), i, DrainSubmitted)
  }

  function Next(s: State, a: Action): State
    requires Enabled(s, a)
  {
    match a
    case Submit => s.(submitted := s.submitted + [|s.runs|], runs := s.runs + [0])
    case Work(i, v) => WorkStep(s, i, v)
    case CallShutdown(c) =>
      if s.shutdown then s.(callers := s.callers[c := Returned(false)])
      else s.(shutdown := true, early := |s.runs|, callers := s.callers[c := Joining(0)])
    case Join(c) =>
      var k := s.callers[c].next;
      s.(callers := s.callers[c := if k < |s.pcs| then Joining(k + 1) else Returned(true)])
  }

  // ---------------------------------------------------------------- the invariant

  predicate Quiet(pc: Pc) {
    !(pc.Running? || pc.DrainLocalRun? || pc.DrainSubmittedRun?)
  }

  predicate Holds(pc: Pc, t: Task) {
    !Quiet(pc) && pc.task == t
  }

  ghost predicate Held(s: State, t: Task) {
    exists i :: 0 <= i < |s.pcs| && Holds(s.pcs[i], t)
  }

  /** The first task still in the submission queue; tasks leave it in the order they came. */
  function Head(s: State): int {
    |s.runs| - |s.submitted|
  }

  /** Every task is queued, held by one worker, or has run once: exactly one of the three. */
  ghost predicate OnePlace(s: State) {
    && Head(s) >= 0
    && (forall j | 0 <= j < |s.submitted| :: s.submitted[j] == Head(s) + j)
    && (forall i | 0 <= i < |s.pcs| && !Quiet(s.pcs[i]) :: s.pcs[i].task < Head(s))
    && (forall i, j | 0 <= i < j < |s.pcs| && !Quiet(s.pcs[i]) && !Quiet(s.pcs[j]) :: s.pcs[i].task != s.pcs[j].task)
    && (forall t | 0 <= t < |s.runs| :: s.runs[t] == if t >= Head(s) || Held(s, t) then 0 else 1)
  }

  predicate Draining(pc: Pc) {
    pc.DrainLocal? || pc.DrainLocalRun? || pc.DrainSubmitted? || pc.DrainSubmittedRun? || pc.Exited?
  }

  /** Nothing is ever pushed to a worker's own queue; a worker drains only after the flag; once one worker
      has left, no early task is queued; a joiner has passed only workers that left. */
  ghost predicate Orderly(s: State) {
    && |s.locals| == |s.pcs| && s.early <= |s.runs|
    && (forall i | 0 <= i < |s.locals| :: s.locals[i] == [])
    && (forall i | 0 <= i < |s.pcs| && Draining(s.pcs[i]) :: s.shutdown)
    && (forall i | 0 <= i < |s.pcs| && s.pcs[i].AtSteal? :: |s.pcs| > 1)
    && (forall i | 0 <= i < |s.pcs| && s.pcs[i].Exited? :: s.early <= Head(s))
    && (forall c | 0 <= c < |s.callers| && s.callers[c].Joining? ::
          s.shutdown && forall i | 0 <= i < s.callers[c].next && i < |s.pcs| :: s.pcs[i].Exited?)
    && (forall c | 0 <= c < |s.callers| && s.callers[c].Returned? && s.callers[c].joined ::
          s.shutdown && forall i | 0 <= i < |s.pcs| :: s.pcs[i].Exited?)
  }

  ghost predicate Inv(s: State) {
    OnePlace(s) && Orderly(s)
  }

  lemma StartInv(workers: nat, callers: nat)
    ensures Inv(Start(workers, callers)) && OneSetter(Start(workers, callers))
  {
  }

  datatype Kind = Moves | Takes | Runs

  function KindOf(s: State, i: nat): Kind
    requires i < |s.pcs|
  {
    if !Quiet(s.pcs[i]) then Runs
    else if (s.pcs[i].AtSubmitted? || s.pcs[i].DrainSubmitted?) && s.submitted != [] then Takes
    else Moves
  }

  /** Since the workers' own queues are empty, a worker moves on, takes the first submitted task, or runs
      the one it holds. */
  lemma WorkIs(s: State, i: nat, v: nat)
    requires Orderly(s) && Enabled(s, Work(i, v))
    ensures
      var s' := WorkStep(s, i, v);
      && i < |s'.pcs|
      && var pc, pc' := s.pcs[i], s'.pcs[i];
      && (Draining(pc') ==> s.shutdown)
      && (pc'.Exited? ==> s.submitted == []) && (pc'.AtSteal? ==> |s.pcs| > 1)
      && match KindOf(s, i)
         case Moves => s' == Go(s, i, pc') && Quiet(pc')
         case Takes => s' == Go(s, i, pc').(submitted := s.submitted[1..]) && Holds(pc', s.submitted[0])
         case Runs => s' == Go(Ran(s, pc.task), i, pc') && Quiet(pc')
  {
  }

  lemma WorkOrderly(s: State, i: nat, v: nat)
    requires Orderly(s) && Enabled(s, Work(i, v))
    ensures Orderly(WorkStep(s, i, v))
  {
    WorkIs(s, i, v);
  }

  lemma OtherOrderly(s: State, a: Action)
    requires Orderly(s) && Enabled(s, a) && !a.Work?
    ensures Orderly(Next(s, a))
  {
  }

  lemma SubmitOnePlace(s: State)
    requires OnePlace(s)
    ensures OnePlace(s.(submitted := s.submitted + [|s.runs|], runs := s.runs + [0]))
  {
    var n := |s.runs|;
    var s' := s.(submitted := s.submitted + [n], runs := s.runs + [0]);
    forall t: nat ensures Held(s', t) == Held(s, t) {
    }
  }

  lemma MoveOnePlace(s: State, i: nat, pc: Pc)
    requires OnePlace(s) && i < |s.pcs| && Quiet(s.pcs[i]) && Quiet(pc)
    ensures OnePlace(Go(s, i, pc))
  {
    var s' := Go(s, i, pc);
    forall t: nat ensures Held(s', t) == Held(s, t) {
      if Held(s, t) {
        var j :| 0 <= j < |s.pcs| && Holds(s.pcs[j], t);
        assert Holds(s'.pcs[j], t);
      }
    }
  }

  lemma TakeOnePlace(s: State, i: nat, pc: Pc)
    requires OnePlace(s) && i < |s.pcs| && Quiet(s.pcs[i]) && s.submitted != [] && Holds(pc, s.submitted[0])
    ensures OnePlace(Go(s, i, pc).(submitted := s.submitted[1..]))
  {
    var s', t0 := Go(s, i, pc).(submitted := s.submitted[1..]), s.submitted[0];
    forall t: nat ensures Held(s', t) <==> Held(s, t) || t == t0 {
      if Held(s, t) {
        var j :| 0 <= j < |s.pcs| && Holds(s.pcs[j], t);
        assert Holds(s'.pcs[j], t);
      }
      assert Holds(s'.pcs[i], t0);
    }
  }

  lemma RunOnePlace(s: State, i: nat, pc: Pc)
    requires OnePlace(s) && i < |s.pcs| && !Quiet(s.pcs[i]) && Quiet(pc)
    ensures OnePlace(Go(Ran(s, s.pcs[i].task), i, pc))
  {
    var t0 := s.pcs[i].task;
    var s' := Go(Ran(s, t0), i, pc);
    assert Holds(s.pcs[i], t0) && Held(s, t0);
    forall t: nat ensures Held(s', t) <==> Held(s, t) && t != t0 {
      if Held(s, t) && t != t0 {
        var j :| 0 <= j < |s.pcs| && Holds(s.pcs[j], t);
        assert Holds(s'.pcs[j], t);
      }
    }
  }

  lemma StepInv(s: State, a: Action)
    requires Inv(s) && Enabled(s, a)
    ensures Inv(Next(s, a))
  {
    if a.Work? {
      WorkOrderly(s, a.worker, a.victim);
      WorkIs(s, a.worker, a.victim);
      var pc' := WorkStep(s, a.worker, a.victim).pcs[a.worker];
      match KindOf(s, a.worker) {
        case Moves => MoveOnePlace(s, a.worker, pc');
        case Takes => TakeOnePlace(s, a.worker, pc');
        case Runs => RunOnePlace(s, a.worker, pc');
      }
    } else {
      OtherOrderly(s, a);
      if a.Submit? {
        SubmitOnePlace(s);
      } else {
        SamePlaces(s, Next(s, a));
      }
    }
  }

  lemma SamePlaces(s: State, s': State)
    requires OnePlace(s) && s'.submitted == s.submitted && s'.pcs == s.pcs && s'.runs == s.runs
    ensures OnePlace(s')
  {
    forall t: nat ensures Held(s', t) == Held(s, t) {
    }
  }

  // ---------------------------------------------------------------- whole runs

  ghost predicate Possible(s: State, run: seq<Action>)
    decreases |run|
  {
    run == [] || (Enabled(s, run[0]) && Possible(Next(s, run[0]), run[1..]))
  }

  function After(s: State, run: seq<Action>): State
    requires Possible(s, run)
    decreases |run|
  {
    if run == [] then s else After(Next(s, run[0]), run[1..])
  }

  lemma {:induction false} RunInv(s: State, run: seq<Action>)
    requires Inv(s) && Possible(s, run)
    ensures Inv(After(s, run)) && |After(s, run).pcs| == |s.pcs|
    ensures s.shutdown ==> After(s, run).early == s.early && After(s, run).shutdown
    decreases |run|
  {
    if run != [] {
      StepInv(s, run[0]);
      if run[0].Work? {
        WorkIs(s, run[0].worker, run[0].victim);
      }
      RunInv(Next(s, run[0]), run[1..]);
    }
  }

  /** In every interleaving of at least one worker, no task runs twice, and when the shutdown call that set
      the flag has returned, every task submitted before the flag was set has run exactly once. */
  lemma ReturnedMeansDone(workers: nat, callers: nat, run: seq<Action>, t: Task)
    requires workers > 0 && Possible(Start(workers, callers), run)
    ensures
      var s := After(Start(workers, callers), run);
      && (t < |s.runs| ==> s.runs[t] <= 1)
      && (t < s.early && Returned(true) in s.callers ==> t < |s.runs| && s.runs[t] == 1)
  {
    StartInv(workers, callers);
    RunInv(Start(workers, callers), run);
    var s := After(Start(workers, callers), run);
    if Returned(true) in s.callers {
      assert s.pcs[0].Exited?;
      assert !Held(s, t);
    }
  }

  // ---- and it does return

  function Rank(pc: Pc): nat {
    match pc
    case Running(_) => 8
    case Waiting => 8
    case AtLocal => 7
    case AtSubmitted => 6
    case AtSteal => 5
    case AtCheck => 4
    case DrainLocalRun(_) => 4
    case DrainLocal => 3
    case DrainSubmittedRun(_) => 2
    case DrainSubmitted => 1
    case Exited => 0
  }

  function Ranks(pcs: seq<Pc>): nat {
    if pcs == [] then 0 else Rank(pcs[0]) + Ranks(pcs[1..])
  }

  lemma {:induction false} RanksUpdate(pcs: seq<Pc>, i: nat, pc: Pc)
    requires i < |pcs|
    ensures Ranks(pcs[i := pc]) == Ranks(pcs) - Rank(pcs[i]) + Rank(pc)
  {
    if i == 0 {
      assert pcs[0 := pc][1..] == pcs[1..];
    } else {
      assert pcs[i := pc][1..] == pcs[1..][i - 1 := pc];
      RanksUpdate(pcs[1..], i - 1, pc);
    }
  }

  function Measure(s: State): nat {
    10 * |s.submitted| + Ranks(s.pcs)
  }

  /** Once the flag is set every step of a worker brings the pool closer to its end, and a worker that has
      not left can always step: with no further submissions all workers leave, whatever the schedule. */
  lemma ShutdownProgresses(s: State, i: nat, v: nat)
    requires Inv(s) && s.shutdown && Enabled(s, Work(i, v))
    ensures Measure(WorkStep(s, i, v)) < Measure(s)
  {
    WorkIs(s, i, v);
    RanksUpdate(s.pcs, i, WorkStep(s, i, v).pcs[i]);
  }

  lemma {:induction false} NothingLeftMeansAllLeft(pcs: seq<Pc>)
    ensures Ranks(pcs) == 0 <==> forall i | 0 <= i < |pcs| :: pcs[i].Exited?
  {
    if pcs != [] {
      NothingLeftMeansAllLeft(pcs[1..]);
    }
  }

  lemma WorkerCanStep(s: State, i: nat)
    requires Inv(s) && i < |s.pcs| && !s.pcs[i].Exited?
    ensures exists v :: 0 <= v < |s.pcs| && Enabled(s, Work(i, v))
  {
    assert Enabled(s, Work(i, if i == 0 && |s.pcs| > 1 then 1 else 0));
  }

  predicate AllLeft(s: State) {
    forall i | 0 <= i < |s.pcs| :: s.pcs[i].Exited?
  }

  function WorkSteps(run: seq<Action>): nat {
    if run == [] then 0 else (if run[0].Work? then 1 else 0) + WorkSteps(run[1..])
  }

  function Submissions(run: seq<Action>): nat {
    if run == [] then 0 else (if run[0].Submit? then 1 else 0) + Submissions(run[1..])
  }

  /** In any run from then on the workers take no more steps than the measure allows, ten for each further
      submission included; once they have taken that many, or none can take another, all have left. */
  lemma {:induction false} ShutdownEnds(s: State, run: seq<Action>)
    requires Inv(s) && s.shutdown && Possible(s, run)
    ensures Inv(After(s, run)) && After(s, run).shutdown
    ensures WorkSteps(run) + Measure(After(s, run)) <= Measure(s) + 10 * Submissions(run)
    ensures WorkSteps(run) == Measure(s) + 10 * Submissions(run) ==> AllLeft(After(s, run))
    ensures (forall i: nat, v: nat :: !Enabled(After(s, run), Work(i, v))) <==> AllLeft(After(s, run))
    decreases |run|
  {
    if run == [] {
      NothingLeftMeansAllLeft(s.pcs);
      if i :| 0 <= i < |s.pcs| && !s.pcs[i].Exited? {
        WorkerCanStep(s, i);
      }
    } else {
      StepInv(s, run[0]);
      if run[0].Work? {
        ShutdownProgresses(s, run[0].worker, run[0].victim);
        WorkIs(s, run[0].worker, run[0].victim);
      }
      ShutdownEnds(Next(s, run[0]), run[1..]);
      NothingLeftMeansAllLeft(After(s, run).pcs);
    }
  }

  lemma FirstStep(s: State, a: Action, run: seq<Action>)
    requires Enabled(s, a) && Possible(Next(s, a), run)
    ensures Possible(s, [a] + run) && After(s, [a] + run) == After(Next(s, a), run)
  {
    assert ([a] + run)[1..] == run;
  }

  lemma {:induction false} JoinAll(s: State, c: nat) returns (run: seq<Action>)
    requires Inv(s) && AllLeft(s) && c < |s.callers| && s.callers[c].Joining?
    ensures Possible(s, run) && c < |After(s, run).callers| && After(s, run).callers[c] == Returned(true)
    decreases |s.pcs| - s.callers[c].next
  {
    var a := Join(c);
    StepInv(s, a);
    if s.callers[c].next < |s.pcs| {
      run := JoinAll(Next(s, a), c);
    } else {
      run := [];
    }
    FirstStep(s, a, run);
    run := [a] + run;
  }

  /** From every state the shutdown call that set the flag can still return. */
  lemma {:induction false} ShutdownCanReturn(s: State, c: nat) returns (run: seq<Action>)
    requires Inv(s) && s.shutdown && c < |s.callers| && s.callers[c].Joining?
    ensures Possible(s, run) && c < |After(s, run).callers| && After(s, run).callers[c] == Returned(true)
    decreases Measure(s)
  {
    if AllLeft(s) {
      run := JoinAll(s, c);
    } else {
      var i: nat :| i < |s.pcs| && !s.pcs[i].Exited?;
      WorkerCanStep(s, i);
      var v: nat :| v < |s.pcs| && Enabled(s, Work(i, v));
      StepInv(s, Work(i, v));
      WorkIs(s, i, v);
      ShutdownProgresses(s, i, v);
      run := ShutdownCanReturn(Next(s, Work(i, v)), c);
      FirstStep(s, Work(i, v), run);
      run := [Work(i, v)] + run;
    }
  }

  // ---- what is not promised

  /** After the last worker has left nothing runs any more: a task submitted from then on is lost. */
  lemma {:induction false} NothingRunsAfterwards(s: State, run: seq<Action>)
    requires Possible(s, run) && forall i | 0 <= i < |s.pcs| :: s.pcs[i].Exited?
    ensures var s' := After(s, run);
      && s'.pcs == s.pcs && |s'.runs| >= |s.runs|
      && (forall t | 0 <= t < |s'.runs| :: s'.runs[t] == if t < |s.runs| then s.runs[t] else 0)
    decreases |run|
  {
    if run != [] {
      NothingRunsAfterwards(Next(s, run[0]), run[1..]);
    }
  }

  /** The caller that set the flag is joining the workers, or has joined them all. */
  predicate Setter(c: Caller) {
    c.Joining? || c == Returned(true)
  }

  ghost predicate OneSetter(s: State) {
    && (forall c | 0 <= c < |s.callers| && Setter(s.callers[c]) :: s.shutdown)
    && (forall c, d | 0 <= c < d < |s.callers| :: !(Setter(s.callers[c]) && Setter(s.callers[d])))
  }

  lemma StepKeepsOneSetter(s: State, a: Action)
    requires Inv(s) && OneSetter(s) && Enabled(s, a)
    ensures OneSetter(Next(s, a))
  {
    if a.Work? {
      WorkIs(s, a.worker, a.victim);
    }
  }

  /** In every run one caller at most has the guarantee of ReturnedMeansDone: the one that set the flag. */
  lemma {:induction false} OnlyOneSetter(s: State, run: seq<Action>)
    requires Inv(s) && OneSetter(s) && Possible(s, run)
    ensures OneSetter(After(s, run))
    decreases |run|
  {
    if run != [] {
      StepInv(s, run[0]);
      StepKeepsOneSetter(s, run[0]);
      OnlyOneSetter(Next(s, run[0]), run[1..]);
    }
  }

  /** Any other caller gets none: whenever the flag is set its call returns at once and runs nothing, so every
      task still queued or held is still to be run, and it never counts as the one that joined. */
  lemma LaterCallPromisesNothing(s: State, c: nat, run: seq<Action>)
    requires Inv(s) && s.shutdown && c < |s.callers| && s.callers[c].Idle? && Possible(Next(s, CallShutdown(c)), run)
    ensures var s' := Next(s, CallShutdown(c));
      && s' == s.(callers := s.callers[c := Returned(false)])
      && (forall t | 0 <= t < |s.runs| && (t in s.submitted || Held(s, t)) :: s'.runs[t] == 0)
      && c < |After(s', run).callers| && After(s', run).callers[c] == Returned(false)
  {
    ReturnedForGood(Next(s, CallShutdown(c)), c, run);
  }

  lemma {:induction false} ReturnedForGood(s: State, c: nat, run: seq<Action>)
    requires c < |s.callers| && s.callers[c].Returned? && Possible(s, run)
    ensures c < |After(s, run).callers| && After(s, run).callers[c] == s.callers[c]
    decreases |run|
  {
    if run != [] {
      ReturnedForGood(Next(s, run[0]), c, run[1..]);
    }
  }

  /** A second shutdown call returns at once, with the submitted task still queued. */
  lemma SecondCallReturnsEarly() returns (run: seq<Action>)
    ensures Possible(Start(2, 2), run)
    ensures var s := After(Start(2, 2), run);
      |s.callers| == 2 && s.callers[1] == Returned(false) && s.early == 1 && s.runs == [0]
  {
    run := [Submit, CallShutdown(0), CallShutdown(1)];
    var s1 := Next(Start(2, 2), run[0]);
    var s2 := Next(s1, run[1]);
    var s3 := Next(s2, run[2]);
    assert run[1..] == [CallShutdown(0), CallShutdown(1)] && run[1..][1..] == [CallShutdown(1)];
    assert run[1..][1..][1..] == [];
    assert Possible(s3, []) && Possible(s2, run[1..][1..]) && Possible(s1, run[1..]);
    assert After(s2, run[1..][1..]) == s3 && After(s1, run[1..]) == s3;
  }
}
