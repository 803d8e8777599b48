/** One reference-counted buffer shared by threads: every fetch_add and fetch_sub on its count, every destructor
    call and the final deallocation is one step, in any interleaving. */
module ArcThreads {
  import opened Arithmetic

  /** The count is 32 bits wide and wraps. */
  const WIDTH: nat := 0x1_0000_0000

  /** Where a thread stands: the one whose fetch_sub returned one destroys the elements, then frees. */
  datatype Pc = Running | Destroying(i: nat)

  datatype Thread = Thread(shares: nat, pc: Pc)

  /** `destroyed` and `frees` count destructor calls by element, and deallocations. */
  datatype State = State(refs: nat, destroyed: seq<nat>, frees: nat, threads: seq<Thread>)

  /** Hand moves a handle to another thread. */
  datatype Action = Acquire(t: nat) | Release(t: nat) | Hand(t: nat, u: nat) | Work(t: nat)

  /** A new buffer is the share of thread 0. */
  function Start(threads: nat, length: nat): State {
    State(1, seq(length, _ => 0), 0, seq(threads, t => Thread(if t == 0 then 1 else 0, Running)))
  }

  /** A thread acquires, releases and hands over shares of its own. */
  predicate Enabled(s: State, a: Action) {
    a.t < |s.threads| && (a.Work? <==> s.threads[a.t].pc.Destroying?) &&
    match a
    case Hand(t, u) => s.threads[t].shares > 0 && u < |s.threads|
    case Work(_) => true
    case _ => s.threads[a.t].shares > 0
  }

  function Next(s: State, a: Action): State
    requires Enabled(s, a)
  {
    var th := s.threads[a.t];
    match a
    case Acquire(t) =>
      s.(refs := (s.refs + 1) % WIDTH, threads := s.threads[t := th.(shares := th.shares + 1)])
    case Release(t) =>
      s.(refs := (s.refs + WIDTH - 1) % WIDTH,
         threads := s.threads[t := Thread(th.shares - 1, if s.refs == 1 then Destroying(0) else Running)])
    case Hand(t, u) =>
      var gave := s.threads[t := th.(shares := th.shares - 1)];
      s.(threads := gave[u := gave[u].(shares := gave[u].shares + 1)])
    case Work(t) =>
      if th.pc.i < |s.destroyed|
      then s.(destroyed := s.destroyed[th.pc.i := s.destroyed[th.pc.i] + 1],
              threads := s.threads[t := th.(pc := Destroying(th.pc.i + 1))])
      else s.(frees := s.frees + 1, threads := s.threads[t := th.(pc := Running)])
  }

  // ---------------------------------------------------------------- counting shares

  function Shares(ths: seq<Thread>): nat {
    if ths == [] then 0 else ths[0].shares + Shares(ths[1..])
  }

  lemma {:induction false} SharesUpdate(ths: seq<Thread>, t: nat, th: Thread)
    requires t < |ths|
    ensures Shares(ths[t := th]) == Shares(ths) - ths[t].shares + th.shares && Shares(ths) >= ths[t].shares
  {
    assert ths[t := th][1..] == if t == 0 then ths[1..] else ths[1..][t - 1 := th];
    if t > 0 {
      SharesUpdate(ths[1..], t - 1, th);
    }
  }

  lemma {:induction false} NoShares(ths: seq<Thread>)
    requires forall t | 0 <= t < |ths| :: ths[t].shares == 0
    ensures Shares(ths) == 0
  {
    if ths != [] {
      NoShares(ths[1..]);
    }
  }

  /** The count is the number of shares up to its width, whatever happens. */
  ghost predicate Counted(s: State) {
    s.refs == Shares(s.threads) % WIDTH
  }

  function Change(a: Action): int {
    match a
    case Acquire(_) => 1
    case Release(_) => -1
    case _ => 0
  }

  lemma SharesChange(s: State, a: Action)
    requires Enabled(s, a)
    ensures Shares(Next(s, a).threads) == Shares(s.threads) + Change(a)
  {
    var s' := Next(s, a);
    SharesUpdate(s.threads, a.t, s'.threads[a.t]);
    if a.Hand? {
      var th := s.threads[a.t];
      var gave := s.threads[a.t := th.(shares := th.shares - 1)];
      SharesUpdate(s.threads, a.t, gave[a.t]);
      SharesUpdate(gave, a.u, gave[a.u].(shares := gave[a.u].shares + 1));
    }
  }

  lemma StepCounts(s: State, a: Action)
    requires Counted(s) && Enabled(s, a)
    ensures Counted(Next(s, a))
  {
    SharesChange(s, a);
    SharesUpdate(s.threads, a.t, s.threads[a.t]);
    var n := Shares(s.threads);
    var q, r := n / WIDTH, n % WIDTH;
    if a.Acquire? {
      var k := (r + 1) / WIDTH;
      DivModUnique(n + 1, q + k, (r + 1) % WIDTH, WIDTH);
    } else if a.Release? {
      var k := (r + WIDTH - 1) / WIDTH;
      DivModUnique(n - 1, q + k - 1, (r + WIDTH - 1) % WIDTH, WIDTH);
    }
  }

  /** A release turns to destroying the elements exactly when the number of shares is one modulo 2^32; so with
      no more than 2^32 of them, exactly when it gives up the last. */
  lemma LastReleaseIff(s: State, t: nat)
    requires Counted(s) && Enabled(s, Release(t))
    ensures Next(s, Release(t)).threads[t].pc.Destroying? <==> Shares(s.threads) % WIDTH == 1
    ensures Shares(s.threads) <= WIDTH ==>
      (Next(s, Release(t)).threads[t].pc.Destroying? <==> Shares(Next(s, Release(t)).threads) == 0)
  {
    SharesChange(s, Release(t));
    SharesUpdate(s.threads, t, s.threads[t]);
  }

  // ---------------------------------------------------------------- the invariant

  /** While there is a share the buffer is whole and nobody is tearing it down. */
  ghost predicate Whole(s: State) {
    && s.frees == 0
    && (forall i | 0 <= i < |s.destroyed| :: s.destroyed[i] == 0)
    && (forall t | 0 <= t < |s.threads| :: s.threads[t].pc.Running?)
  }

  /** Thread t alone tears it down, and has got as far as its program counter says. */
  ghost predicate TornDownBy(s: State, t: nat) {
    && t < |s.threads| && s.threads[t].pc.Destroying? && s.frees == 0 && s.threads[t].pc.i <= |s.destroyed|
    && (forall i | 0 <= i < |s.destroyed| :: s.destroyed[i] == if i < s.threads[t].pc.i then 1 else 0)
    && (forall u | 0 <= u < |s.threads| && u != t :: s.threads[u].pc.Running?)
  }

  ghost predicate Gone(s: State) {
    && s.frees == 1
    && (forall i | 0 <= i < |s.destroyed| :: s.destroyed[i] == 1)
    && (forall t | 0 <= t < |s.threads| :: s.threads[t].pc.Running?)
  }

  ghost predicate Inv(s: State) {
    && Counted(s)
    && (if Shares(s.threads) > 0 then Whole(s) else Gone(s) || exists t: nat :: TornDownBy(s, t))
  }

  lemma StartInv(threads: nat, length: nat)
    requires threads > 0
    ensures Inv(Start(threads, length)) && Shares(Start(threads, length).threads) == 1
  {
    var ths := Start(threads, length).threads;
    NoShares(ths[1..]);
  }

  lemma ShareStep(s: State, a: Action)
    requires Inv(s) && Enabled(s, a) && !a.Work? && Shares(s.threads) <= WIDTH
    ensures Inv(Next(s, a))
  {
    StepCounts(s, a);
    SharesChange(s, a);
    SharesUpdate(s.threads, a.t, s.threads[a.t]);
    var s' := Next(s, a);
    if a.Release? {
      LastReleaseIff(s, a.t);
      if Shares(s'.threads) == 0 {
        assert TornDownBy(s', a.t);
      }
    }
  }

  lemma WorkStep(s: State, t: nat)
    requires Inv(s) && Enabled(s, Work(t))
    ensures Shares(s.threads) == 0 && TornDownBy(s, t) && Inv(Next(s, Work(t)))
    ensures if s.threads[t].pc.i < |s.destroyed| then TornDownBy(Next(s, Work(t)), t) else Gone(Next(s, Work(t)))
  {
    StepCounts(s, Work(t));
    SharesChange(s, Work(t));
    var u: nat :| TornDownBy(s, u);
    assert u == t;
    var s' := Next(s, Work(t));
    if s.threads[t].pc.i < |s.destroyed| {
      assert TornDownBy(s', t);
    }
  }

  lemma StepInv(s: State, a: Action)
    requires Inv(s) && Enabled(s, a) && Shares(s.threads) <= WIDTH
    ensures Inv(Next(s, a))
  {
    if a.Work? {
      WorkStep(s, a.t);
    } else {
      ShareStep(s, a);
    }
  }

  // ---------------------------------------------------------------- runs

  ghost predicate Possible(s: State, run: seq<Action>)
    decreases |run|
  {
    run == [] || (Enabled(s, run[0]) && Possible(Next(s, run[0]), run[1..]))
  }

  function After(s: State, run: seq<Action>): State
    requires Possible(s, run)
    decreases |run|
  {
    if run == [] then s else After(Next(s, run[0]), run[1..])
  }

  /** There are never more than 2^32 shares at a time. */
  ghost predicate Bounded(s: State, run: seq<Action>)
    requires Possible(s, run)
    decreases |run|
  {
    Shares(s.threads) <= WIDTH && (run == [] || Bounded(Next(s, run[0]), run[1..]))
  }

  lemma {:induction false} RunInv(s: State, run: seq<Action>)
    requires Inv(s) && Possible(s, run) && Bounded(s, run)
    ensures Inv(After(s, run))
    decreases |run|
  {
    if run != [] {
      StepInv(s, run[0]);
      RunInv(Next(s, run[0]), run[1..]);
    }
  }

  /** In every interleaving: no element is destroyed and nothing freed while any thread has a share, nothing ever
      happens twice, and once the shares are gone and no thread is still tearing down, every element has been
      destroyed and the buffer freed exactly once. */
  lemma FreedExactlyOnce(threads: nat, length: nat, run: seq<Action>, t: nat)
    requires threads > 0 && Possible(Start(threads, length), run) && Bounded(Start(threads, length), run)
    ensures
      var s := After(Start(threads, length), run);
      && s.frees <= 1 && (forall i | 0 <= i < |s.destroyed| :: s.destroyed[i] <= 1)
      && (t < |s.threads| && s.threads[t].shares > 0 ==> Whole(s))
      && (Shares(s.threads) == 0 && (forall u | 0 <= u < |s.threads| :: s.threads[u].pc.Running?) ==> Gone(s))
  {
    StartInv(threads, length);
    RunInv(Start(threads, length), run);
    var s := After(Start(threads, length), run);
    if t < |s.threads| {
      SharesUpdate(s.threads, t, s.threads[t]);
    }
  }

  /** Once the last share is gone the tearing down ends, after one step an element and one to free. */
  lemma {:induction false} TearingDownEnds(s: State, t: nat) returns (run: seq<Action>)
    requires Inv(s) && Shares(s.threads) == 0 && TornDownBy(s, t)
    ensures Possible(s, run) && Gone(After(s, run)) && |run| == |s.destroyed| - s.threads[t].pc.i + 1
    decreases |s.destroyed| - s.threads[t].pc.i
  {
    var s' := Next(s, Work(t));
    WorkStep(s, t);
    SharesChange(s, Work(t));
    if s.threads[t].pc.i < |s.destroyed| {
      run := TearingDownEnds(s', t);
    } else {
      run := [];
    }
    assert ([Work(t)] + run)[1..] == run;
    run := [Work(t)] + run;
  }

  // ---------------------------------------------------------------- beyond the width of the count

  /** A thread acquires k shares more and then releases one. */
  lemma {:induction false} AcquireMany(s: State, t: nat, k: nat) returns (run: seq<Action>)
    requires Counted(s) && Enabled(s, Acquire(t))
    ensures Possible(s, run)
    ensures
      var s' := After(s, run);
      && |s'.threads| == |s.threads| && Counted(s') && s'.frees == s.frees && s'.destroyed == s.destroyed
      && Shares(s'.threads) == Shares(s.threads) + k - 1
      && (s'.threads[t].pc.Destroying? <==> (Shares(s.threads) + k) % WIDTH == 1)
    decreases k
  {
    if k == 0 {
      LastReleaseIff(s, t);
      SharesChange(s, Release(t));
      StepCounts(s, Release(t));
      run := [Release(t)];
    } else {
      SharesChange(s, Acquire(t));
      StepCounts(s, Acquire(t));
      var s' := Next(s, Acquire(t));
      run := AcquireMany(s', t, k - 1);
      assert ([Acquire(t)] + run)[1..] == run;
      run := [Acquire(t)] + run;
    }
  }

  /** With one share more than 2^32 the bound fails: the next release starts to destroy the elements although
      2^32 shares are left. */
  lemma TooManySharesFreeEarly(length: nat) returns (run: seq<Action>)
    ensures Possible(Start(1, length), run)
    ensures
      var s := After(Start(1, length), run);
      |s.threads| == 1 && Shares(s.threads) == WIDTH && s.threads[0].pc.Destroying?
  {
    StartInv(1, length);
    run := AcquireMany(Start(1, length), 0, WIDTH);
  }
}
