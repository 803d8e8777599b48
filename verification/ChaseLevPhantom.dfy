/** What the store after a lost race does as written: it makes a stale slot look live. */
module ChaseLevPhantom {
  import opened ChaseLevProtocol
  import opened ChaseLevSafety

  lemma {:induction false} RunSplit(v: Variant, s: State, acts: seq<Action>, more: seq<Action>)
    requires Inv(s)
    ensures Run(v, s, acts + more) == Run(v, Run(v, s, acts), more)
    decreases |acts|
  {
    if acts == [] {
      assert acts + more == more;
    } else {
      StepKeepsInv(v, s, acts[0]);
      assert (acts + more)[1..] == acts[1..] + more;
      RunSplit(v, Next(v, s, acts[0]), acts[1..], more);
    }
  }

  function OwnerSteps(n: nat): (r: seq<Action>)
    ensures |r| == n
  {
    if n == 0 then [] else [OwnerStep] + OwnerSteps(n - 1)
  }

  /** The end of a pop that lost its race, then one more pop with nobody else moving. */
  function LonePop(): seq<Action> {
    [OwnerStep] + ([BeginPop] + OwnerSteps(5))
  }

  lemma RunStep(v: Variant, s: State, a: Action, more: seq<Action>)
    requires Inv(s)
    ensures Inv(Next(v, s, a)) && Run(v, s, [a] + more) == Run(v, Next(v, s, a), more)
  {
    StepKeepsInv(v, s, a);
    assert ([a] + more)[1..] == more;
  }

  lemma SoloStep(v: Variant, s: State, s': State, n: nat)
    requires Inv(s) && s' == OwnerNext(v, s)
    ensures Inv(s') && Run(v, s, OwnerSteps(n + 1)) == Run(v, s', OwnerSteps(n))
  {
    RunStep(v, s, OwnerStep, OwnerSteps(n));
  }

  lemma SoloCas(v: Variant, s: State)
    requires Inv(s) && s.owner.PopCas? && s.owner.b == s.top
    ensures Run(v, s, OwnerSteps(2)).returned == s.returned + [s.owner.y]
  {
    var s1 := s.(top := s.top + 1, owner := PopWon(s.top, s.owner.y));
    SoloStep(v, s, s1, 1);
    SoloStep(v, s1, OwnerNext(v, s1), 0);
  }

  lemma PopLoads(v: Variant, s: State, b: int, n: nat)
    requires Inv(s) && s.owner == PopStoreBottom(b) && s.top <= b
    ensures var s' := s.(bottom := b, owner := PopTake(b, s.top));
      Inv(s') && Run(v, s, OwnerSteps(n + 2)) == Run(v, s', OwnerSteps(n))
  {
    var s1 := s.(bottom := b, owner := PopLoadTop(b));
    SoloStep(v, s, s1, n + 1);
    SoloStep(v, s1, s1.(owner := PopTake(b, s.top)), n);
  }

  /** A pop of the one index that looks live, with nobody else moving. */
  lemma SoloPopOfOne(v: Variant, s: State, y: Slot)
    requires Inv(s) && s.owner == PopStoreBottom(s.top) && s.bottom == s.top + 1
    requires y == At(Current(s), s.top)
    ensures Run(v, s, OwnerSteps(5)).returned == s.returned + [y]
  {
    PopLoads(v, s, s.top, 3);
    SoloTake(v, s.(bottom := s.top, owner := PopTake(s.top, s.top)), y);
  }

  lemma SoloTake(v: Variant, s: State, y: Slot)
    requires Inv(s) && s.owner == PopTake(s.top, s.top) && y == At(Current(s), s.top)
    ensures Run(v, s, OwnerSteps(3)).returned == s.returned + [y]
  {
    SoloStep(v, s, s.(owner := PopCas(s.top, y)), 2);
    SoloCas(v, s.(owner := PopCas(s.top, y)));
  }

  lemma SoloPopOfNone(v: Variant, s: State)
    requires Inv(s) && s.owner == PopStoreBottom(s.top - 1) && s.bottom == s.top
    ensures Run(v, s, OwnerSteps(5)).returned == s.returned
  {
    var t := s.top;
    var s1 := s.(bottom := t - 1, owner := PopLoadTop(t - 1));
    var s2 := s1.(owner := PopEmpty(t - 1, t));
    var s3 := s2.(bottom := t, owner := Idle);
    SoloStep(v, s, s1, 4);
    SoloStep(v, s1, s2, 3);
    SoloStep(v, s2, s3, 2);
    SoloStep(v, s3, s3, 1);
    SoloStep(v, s3, s3, 0);
  }

  /** Where the owner stands once a lost pop has ended and the next has loaded bottom. */
  function AfterLost(s: State, bottom: int): State {
    s.(bottom := bottom, owner := PopStoreBottom(bottom - 1))
  }

  lemma LostThenPop(v: Variant, s: State, bottom: int, more: seq<Action>)
    requires Inv(s) && s.owner.PopLost? && bottom == if v.Intended? then s.top else s.top + 1
    ensures Inv(AfterLost(s, bottom))
    ensures Run(v, s, [OwnerStep] + ([BeginPop] + more)) == Run(v, AfterLost(s, bottom), more)
  {
    var s1 := s.(bottom := bottom, owner := Idle);
    RunStep(v, s, OwnerStep, [BeginPop] + more);
    assert Next(v, s, OwnerStep) == s1;
    RunStep(v, s1, BeginPop, more);
  }

  /** After any lost race the deque is empty (EmptyPopIsHonest), yet as written the owner's next pop
      returns whatever the slot at top still holds ... */
  lemma LostRaceYieldsStaleSlot(s: State)
    requires Inv(s) && s.owner.PopLost?
    ensures Run(AsWritten, s, LonePop()).returned == s.returned + [At(Current(s), s.top)]
  {
    LostThenPop(AsWritten, s, s.top + 1, OwnerSteps(5));
    SoloPopOfOne(AsWritten, AfterLost(s, s.top + 1), At(Current(s), s.top));
  }

  /** ... and with the intended store it returns nothing. */
  lemma IntendedStoreYieldsNothing(s: State)
    requires Inv(s) && s.owner.PopLost?
    ensures Run(Intended, s, LonePop()).returned == s.returned
  {
    LostThenPop(Intended, s, s.top, OwnerSteps(5));
    SoloPopOfNone(Intended, AfterLost(s, s.top));
  }

  // ---------------------------------------------------------------- operations with nobody else moving

  lemma StartPush(v: Variant, s: State, more: seq<Action>)
    requires Inv(s) && s.owner.Idle?
    ensures var s' := s.(pushed := s.pushed + 1, owner := PushLoadTop(s.pushed, s.bottom));
      Inv(s') && Run(v, s, [BeginPush] + more) == Run(v, s', more)
  {
    RunStep(v, s, BeginPush, more);
  }

  lemma StartPop(v: Variant, s: State, more: seq<Action>)
    requires Inv(s) && s.owner.Idle?
    ensures var s' := s.(owner := PopStoreBottom(s.bottom - 1));
      Inv(s') && Run(v, s, [BeginPop] + more) == Run(v, s', more)
  {
    RunStep(v, s, BeginPop, more);
  }

  function ThiefSteps(i: nat, n: nat): (r: seq<Action>)
    ensures |r| == n
  {
    if n == 0 then [] else [ThiefStep(i)] + ThiefSteps(i, n - 1)
  }

  ghost predicate Room(s: State)
    requires Inv(s)
  {
    s.owner.Idle? && s.bottom - s.top < |Current(s)|
  }

  function Pushed(s: State): State
    requires |s.buffers| > 0 && |Current(s)| > 0
  {
    var b := s.bottom;
    s.(buffers := s.buffers[|s.buffers| - 1 := Current(s)[b % |Current(s)| := Lease(s.pushed)]],
       written := s.written[b := s.pushed], bottom := b + 1, pushed := s.pushed + 1)
  }

  lemma PushWrites(v: Variant, s: State)
    requires Inv(s) && s.owner.PushWrite?
    ensures var b := s.owner.b;
      var s' := s.(
        buffers := s.buffers[|s.buffers| - 1 := Current(s)[b % |Current(s)| := Lease(s.owner.x)]],
        written := s.written[b := s.owner.x], bottom := b + 1, owner := Idle);
      Inv(s') && Run(v, s, OwnerSteps(2)) == s'
  {
    var s1 := OwnerNext(v, s);
    SoloStep(v, s, s1, 1);
    SoloStep(v, s1, OwnerNext(v, s1), 0);
  }

  lemma PushFindsRoom(v: Variant, s: State, n: nat)
    requires Inv(s) && s.owner.PushLoadTop? && s.bottom - s.top < |Current(s)|
    ensures var s' := s.(owner := PushWrite(s.owner.x, s.owner.b));
      Inv(s') && Run(v, s, OwnerSteps(n + 2)) == Run(v, s', OwnerSteps(n))
  {
    var s1 := s.(owner := PushLoadBuffer(s.owner.x, s.owner.b, s.top));
    SoloStep(v, s, s1, n + 1);
    SoloStep(v, s1, s.(owner := PushWrite(s.owner.x, s.owner.b)), n);
  }

  function Writing(s: State): State {
    s.(pushed := s.pushed + 1, owner := PushWrite(s.pushed, s.bottom))
  }

  lemma LonePushWrites(v: Variant, s: State, n: nat)
    requires Inv(s) && Room(s)
    ensures Inv(Writing(s)) && Run(v, s, [BeginPush] + OwnerSteps(n + 2)) == Run(v, Writing(s), OwnerSteps(n))
  {
    StartPush(v, s, OwnerSteps(n + 2));
    PushFindsRoom(v, s.(pushed := s.pushed + 1, owner := PushLoadTop(s.pushed, s.bottom)), n);
  }

  /** A push that finds room. */
  lemma LonePush(v: Variant, s: State)
    requires Inv(s) && Room(s)
    ensures Inv(Pushed(s)) && Run(v, s, [BeginPush] + OwnerSteps(4)) == Pushed(s)
  {
    LonePushWrites(v, s, 2);
    PushWrites(v, Writing(s));
  }

  lemma PopTakes(v: Variant, s: State)
    requires Inv(s) && s.owner == PopTake(s.bottom, s.top) && s.top < s.bottom
    ensures var s' := s.(returned := s.returned + [At(Current(s), s.bottom)], owner := Idle);
      Inv(s') && Run(v, s, OwnerSteps(1)) == s'
  {
    SoloStep(v, s, OwnerNext(v, s), 0);
  }

  function Taking(s: State): State {
    s.(bottom := s.bottom - 1, owner := PopTake(s.bottom - 1, s.top))
  }

  lemma LonePopTakes(v: Variant, s: State, n: nat)
    requires Inv(s) && s.owner.Idle? && s.bottom - s.top >= 2
    ensures Inv(Taking(s)) && Run(v, s, [BeginPop] + OwnerSteps(n + 2)) == Run(v, Taking(s), OwnerSteps(n))
  {
    StartPop(v, s, OwnerSteps(n + 2));
    PopLoads(v, s.(owner := PopStoreBottom(s.bottom - 1)), s.bottom - 1, n);
  }

  /** A pop of the newest of several leases. */
  lemma LonePopOfSeveral(v: Variant, s: State)
    requires Inv(s) && s.owner.Idle? && s.bottom - s.top >= 2
    ensures var s' := s.(bottom := s.bottom - 1, returned := s.returned + [At(Current(s), s.bottom - 1)]);
      Inv(s') && Run(v, s, [BeginPop] + OwnerSteps(3)) == s'
  {
    LonePopTakes(v, s, 1);
    PopTakes(v, Taking(s));
  }

  /** A steal up to its compare-and-swap. */
  lemma LoneAim(v: Variant, s: State, i: nat)
    requires Inv(s) && i < |s.thieves| && s.thieves[i].Resting? && s.top < s.bottom
    ensures var s' := s.(thieves := s.thieves[i := TryCas(s.top, At(Current(s), s.top))]);
      Inv(s') && Run(v, s, ThiefSteps(i, 4)) == s'
  {
    var t, k := s.top, |s.buffers| - 1;
    var s1 := s.(thieves := s.thieves[i := LoadBottom(t)]);
    var s2 := s.(thieves := s.thieves[i := LoadBuffer(t)]);
    var s3 := s.(thieves := s.thieves[i := ReadSlot(t, k)]);
    var s4 := s.(thieves := s.thieves[i := TryCas(t, At(Current(s), t))]);
    RunStep(v, s, ThiefStep(i), ThiefSteps(i, 3));
    assert ThiefNext(s, i) == s1 && ThiefNext(s1, i) == s2 && ThiefNext(s2, i) == s3 && ThiefNext(s3, i) == s4;
    RunStep(v, s1, ThiefStep(i), ThiefSteps(i, 2));
    RunStep(v, s2, ThiefStep(i), ThiefSteps(i, 1));
    RunStep(v, s3, ThiefStep(i), ThiefSteps(i, 0));
  }

  /** A thief takes aim at the last lease, a pop gets as far as its compare-and-swap, and the thief
      is first. */
  function Race(i: nat): seq<Action> {
    ThiefSteps(i, 4) + ([BeginPop] + (OwnerSteps(3) + ([ThiefStep(i)] + OwnerSteps(1))))
  }

  function RaceLost(s: State): State
    requires |s.buffers| > 0 && |Current(s)| > 0
  {
    s.(bottom := s.top, top := s.top + 1, owner := PopLost(s.top, s.top + 1),
       returned := s.returned + [At(Current(s), s.top)])
  }

  lemma PopReachesCas(v: Variant, s: State, b: int, more: seq<Action>)
    requires Inv(s) && s.owner.Idle? && b == s.top == s.bottom - 1
    ensures var s' := s.(bottom := b, owner := PopCas(b, At(Current(s), b)));
      Inv(s') && Run(v, s, [BeginPop] + (OwnerSteps(3) + more)) == Run(v, s', more)
  {
    var s1 := s.(owner := PopStoreBottom(b));
    var s2 := s.(bottom := b, owner := PopTake(b, b));
    StartPop(v, s, OwnerSteps(3) + more);
    PopLoads(v, s1, b, 1);
    SoloStep(v, s2, s2.(owner := PopCas(b, At(Current(s), b))), 0);
    RunSplit(v, s1, OwnerSteps(3), more);
  }

  /** Any last lease can be lost in this way. */
  lemma RaceIsLost(v: Variant, s: State, i: nat)
    requires Inv(s) && s.owner.Idle? && s.bottom == s.top + 1 && i < |s.thieves| && s.thieves[i].Resting?
    ensures Inv(RaceLost(s)) && Run(v, s, Race(i)) == RaceLost(s)
  {
    var b, y := s.top, At(Current(s), s.top);
    var s1 := s.(thieves := s.thieves[i := TryCas(b, y)]);
    LoneAim(v, s, i);
    var rest := [ThiefStep(i)] + OwnerSteps(1);
    RunSplit(v, s, ThiefSteps(i, 4), [BeginPop] + (OwnerSteps(3) + rest));
    PopReachesCas(v, s1, b, rest);
    var s2 := s1.(bottom := b, owner := PopCas(b, y));
    RunStep(v, s2, ThiefStep(i), OwnerSteps(1));
    var s3 := s.(bottom := b, owner := PopCas(b, y), top := b + 1, returned := s.returned + [y]);
    assert s1.thieves[i := Resting] == s.thieves;
    assert Next(v, s2, ThiefStep(i)) == s3;
    SoloStep(v, s3, RaceLost(s), 0);
  }

  // ---------------------------------------------------------------- runs of the code as written

  /** The first of two leases is at stake, the second is back and still in its slot. */
  lemma TwoPushedOnePopped(thieves: nat) returns (acts: seq<Action>, s: State)
    ensures Inv(Init(thieves)) && Inv(s) && s == Run(AsWritten, Init(thieves), acts)
    ensures s.owner.Idle? && s.top == 0 && s.bottom == 1 && s.thieves == Init(thieves).thieves
    ensures At(Current(s), 0) == Lease(0) && At(Current(s), 1) == Lease(1) && s.returned == [Lease(1)]
  {
    InitInv(thieves);
    var s0 := Init(thieves);
    var push, pop := [BeginPush] + OwnerSteps(4), [BeginPop] + OwnerSteps(3);
    LonePush(AsWritten, s0);
    LonePush(AsWritten, Pushed(s0));
    var s2 := Pushed(Pushed(s0));
    assert At(Current(s2), 0) == Lease(0) && At(Current(s2), 1) == Lease(1);
    LonePopOfSeveral(AsWritten, s2);
    acts, s := push + (push + pop), s2.(bottom := 1, returned := [Lease(1)]);
    RunSplit(AsWritten, s0, push, push + pop);
    RunSplit(AsWritten, Pushed(s0), push, pop);
  }

  /** Push two leases, pop one, lose the race for the other, pop again: as written the first popped
      lease comes back a second time. */
  lemma AsWrittenCanReturnALeaseTwice(thieves: nat)
    requires thieves > 0
    ensures Inv(Init(thieves))
    ensures exists acts :: Run(AsWritten, Init(thieves), acts).returned == [Lease(1), Lease(0), Lease(1)]
  {
    var acts, s := TwoPushedOnePopped(thieves);
    RaceIsLost(AsWritten, s, 0);
    LostRaceYieldsStaleSlot(RaceLost(s));
    RunSplit(AsWritten, s, Race(0), LonePop());
    RunSplit(AsWritten, Init(thieves), acts, Race(0) + LonePop());
    assert Run(AsWritten, Init(thieves), acts + (Race(0) + LonePop())).returned == [Lease(1), Lease(0), Lease(1)];
  }

  /** The thief's compare-and-swap is about to succeed. */
  predicate Winning(s: State, i: nat) {
    i < |s.thieves| && s.thieves[i].TryCas? && s.thieves[i].t == s.top
  }

  predicate HasPushedLease(s: State, i: nat)
    requires Winning(s, i)
  {
    s.top in s.written && s.thieves[i].y == Lease(s.written[s.top])
  }

  /** After any lost race the next thief to act alone is about to win what the slot at top holds, and
      that is the lease last pushed there exactly if anything ever was. */
  lemma StaleSlotStolen(s: State, i: nat)
    requires Inv(s) && Remembers(s) && s.owner.PopLost? && i < |s.thieves| && s.thieves[i].Resting?
    ensures
      var s' := Run(AsWritten, s, [OwnerStep] + ThiefSteps(i, 4));
      && Winning(s', i) && s'.thieves[i].y == At(Current(s), s.top)
      && (HasPushedLease(s', i) <==> s.top in s.written)
  {
    var s1 := s.(bottom := s.top + 1, owner := Idle);
    RunStep(AsWritten, s, OwnerStep, ThiefSteps(i, 4));
    assert Next(AsWritten, s, OwnerStep) == s1;
    LoneAim(AsWritten, s1, i);
  }

  lemma OnlyLeaseLost(thieves: nat) returns (acts: seq<Action>, s: State)
    requires thieves > 0
    ensures Inv(Init(thieves)) && Inv(s) && s == Run(AsWritten, Init(thieves), acts)
    ensures s.owner.PopLost? && s.thieves == Init(thieves).thieves
    ensures s.top == 1 && s.top !in s.written && At(Current(s), s.top) == Blank
  {
    InitInv(thieves);
    var s0, push := Init(thieves), [BeginPush] + OwnerSteps(4);
    LonePush(AsWritten, s0);
    var s1 := Pushed(s0);
    assert s1.owner.Idle? && s1.bottom == 1 && s1.top == 0 && s1.thieves == s0.thieves;
    assert 1 !in s1.written && At(Current(s1), 1) == Blank;
    RaceIsLost(AsWritten, s1, 0);
    RunSplit(AsWritten, s0, push, Race(0));
    acts, s := push + Race(0), RaceLost(s1);
  }

  /** Push one lease, lose the race for it: as written the next thief is about to win a slot that
      nothing was ever pushed to. */
  lemma AsWrittenThiefCanWinNoLease(thieves: nat)
    requires thieves > 0
    ensures Inv(Init(thieves))
    ensures exists acts ::
      var s := Run(AsWritten, Init(thieves), acts);
      Winning(s, 0) && !HasPushedLease(s, 0) && s.thieves[0].y == Blank
  {
    var acts, s := OnlyLeaseLost(thieves);
    RunRemembers(AsWritten, Init(thieves), acts);
    StaleSlotStolen(s, 0);
    RunSplit(AsWritten, Init(thieves), acts, [OwnerStep] + ThiefSteps(0, 4));
    assert Run(AsWritten, Init(thieves), acts + ([OwnerStep] + ThiefSteps(0, 4)))
      == Run(AsWritten, s, [OwnerStep] + ThiefSteps(0, 4));
  }
}
