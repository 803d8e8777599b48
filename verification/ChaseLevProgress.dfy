/** Every operation of the deque comes to its end, whoever moves in between, and a steal that comes too late
    takes nothing. */
module ChaseLevProgress {
  import opened ChaseLevProtocol
  import opened ChaseLevSafety

  // ---------------------------------------------------------------- thieves

  /** Steps a thief's steal can still take. */
  function StealLeft(th: Thief): nat {
    match th
    case Resting => 0
    case LoadBottom(_) => 4
    case LoadBuffer(_) => 3
    case ReadSlot(_, _) => 2
    case TryCas(_, _) => 1
  }

  /** A thief's own step brings its steal closer to the end; one at rest begins a steal. */
  lemma StealAdvances(s: State, i: nat, s': State)
    requires Inv(s) && i < |s.thieves| && s' == ThiefNext(s, i)
    ensures |s'.thieves| == |s.thieves|
    ensures if s.thieves[i].Resting? then s'.thieves[i] == LoadBottom(s.top)
      else StealLeft(s'.thieves[i]) < StealLeft(s.thieves[i])
  {
    assert ThiefOk(s, s.thieves[i]);
  }

  /** Nobody else moves a thief, top never falls, and what is returned stays returned. */
  lemma OthersLeaveThief(v: Variant, s: State, a: Action, i: nat, s': State)
    requires Inv(s) && i < |s.thieves| && s' == Next(v, s, a)
    ensures |s'.thieves| == |s.thieves| && s.top <= s'.top
    ensures a != ThiefStep(i) ==> s'.thieves[i] == s.thieves[i]
  {
  }

  /** How many steps of a run are thief i's. */
  function OwnSteps(acts: seq<Action>, i: nat): nat {
    if acts == [] then 0 else (if acts[0] == ThiefStep(i) then 1 else 0) + OwnSteps(acts[1..], i)
  }

  /** What thief i's own steps of a run returned. */
  ghost function TakenBy(v: Variant, s: State, acts: seq<Action>, i: nat): seq<Slot>
    requires Inv(s)
    decreases |acts|
  {
    if acts == [] then []
    else
      StepKeepsInv(v, s, acts[0]);
      var s' := Next(v, s, acts[0]);
      (if acts[0] == ThiefStep(i) && |s.returned| <= |s'.returned| then s'.returned[|s.returned|..] else [])
      + TakenBy(v, s', acts[1..], i)
  }

  /** Top has passed the index a steal is after. */
  predicate TooLate(s: State, i: nat) {
    i < |s.thieves| && !s.thieves[i].Resting? && s.thieves[i].t < s.top
  }

  /** What a thief's own step returns: the slot it read, and only by winning. */
  lemma StealReturns(s: State, i: nat, s': State)
    requires Inv(s) && i < |s.thieves| && s' == ThiefNext(s, i)
    ensures s'.returned ==
      if s.thieves[i].TryCas? && s.thieves[i].t == s.top then s.returned + [s.thieves[i].y] else s.returned
    ensures s'.returned != s.returned ==> s'.thieves[i].Resting?
    ensures !s'.thieves[i].Resting? && !s.thieves[i].Resting? ==> s'.thieves[i].t == s.thieves[i].t
  {
  }

  /** A steal that gives up has found nothing between top and bottom, or has been overtaken. */
  lemma GivesUpHonestly(s: State, i: nat, s': State)
    requires Inv(s) && i < |s.thieves| && !s.thieves[i].Resting? && s' == ThiefNext(s, i)
    requires s'.thieves[i].Resting? && s'.returned == s.returned
    ensures s.bottom <= s.top || s.thieves[i].t < s.top
  {
    assert ThiefOk(s, s.thieves[i]);
  }

  /** In every run a steal under way ends after at most as many of the thief's own steps as it has left: the
      thief is then at rest, has taken at most one slot, and none if top had passed its index. */
  lemma {:induction false} StealEnds(v: Variant, s: State, acts: seq<Action>, i: nat) returns (k: nat)
    requires Inv(s) && i < |s.thieves| && !s.thieves[i].Resting? && OwnSteps(acts, i) >= StealLeft(s.thieves[i])
    ensures k <= |acts| && OwnSteps(acts[..k], i) <= StealLeft(s.thieves[i])
    ensures
      var s' := Run(v, s, acts[..k]);
      && i < |s'.thieves| && s'.thieves[i].Resting?
      && |TakenBy(v, s, acts[..k], i)| <= 1 && (TooLate(s, i) ==> TakenBy(v, s, acts[..k], i) == [])
    decreases |acts|
  {
    var s' := Next(v, s, acts[0]);
    StepKeepsInv(v, s, acts[0]);
    OthersLeaveThief(v, s, acts[0], i, s');
    if acts[0] == ThiefStep(i) {
      StealAdvances(s, i, s');
      StealReturns(s, i, s');
    }
    if s'.thieves[i].Resting? {
      k := 1;
      assert acts[..1][1..] == [] && acts[..1][0] == acts[0];
      assert OwnSteps([], i) == 0 && TakenBy(v, s', [], i) == [];
    } else {
      var rest := StealEnds(v, s', acts[1..], i);
      k := rest + 1;
      assert acts[..k][1..] == acts[1..][..rest] && acts[..k][0] == acts[0];
    }
  }

  /** Five of its own steps always bring a thief to rest again, wherever it starts. */
  lemma FiveStepsEndASteal(v: Variant, s: State, acts: seq<Action>, i: nat) returns (k: nat)
    requires Inv(s) && i < |s.thieves| && OwnSteps(acts, i) >= 5
    ensures 0 < k <= |acts| && 0 < OwnSteps(acts[..k], i) <= 5
    ensures var s' := Run(v, s, acts[..k]); i < |s'.thieves| && s'.thieves[i].Resting?
    decreases |acts|
  {
    var s' := Next(v, s, acts[0]);
    StepKeepsInv(v, s, acts[0]);
    OthersLeaveThief(v, s, acts[0], i, s');
    if acts[0] != ThiefStep(i) {
      var rest := FiveStepsEndASteal(v, s', acts[1..], i);
      k := rest + 1;
      assert acts[..k][1..] == acts[1..][..rest] && acts[..k][0] == acts[0];
    } else {
      StealAdvances(s, i, s');
      var rest := 0;
      if !s'.thieves[i].Resting? {
        rest := StealEnds(v, s', acts[1..], i);
      }
      k := rest + 1;
      assert acts[..k][1..] == acts[1..][..rest] && acts[..k][0] == acts[0];
      assert OwnSteps(acts[1..][..0], i) == 0;
    }
  }

  // ---------------------------------------------------------------- the owner

  /** Steps the owner's push or pop can still take. */
  function OwnerLeft(o: Owner): nat {
    match o
    case Idle => 0
    case PushLoadTop(_, _) => 5
    case PushLoadBuffer(_, _, _) => 4
    case PushPublish(_, _, _) => 3
    case PushWrite(_, _) => 2
    case PushAdvance(_, _) => 1
    case PopStoreBottom(_) => 5
    case PopLoadTop(_) => 4
    case PopTake(_, _) => 3
    case PopCas(_, _) => 2
    case PopEmpty(_, _) => 1
    case PopWon(_, _) => 1
    case PopLost(_, _) => 1
  }

  lemma OwnerAdvances(v: Variant, s: State, s': State)
    requires Shaped(s) && !s.owner.Idle? && s' == OwnerNext(v, s)
    ensures OwnerLeft(s'.owner) < OwnerLeft(s.owner)
  {
  }

  lemma OthersLeaveOwner(v: Variant, s: State, a: Action, s': State)
    requires Shaped(s) && !s.owner.Idle? && !a.OwnerStep? && s' == Next(v, s, a)
    ensures s'.owner == s.owner
  {
  }

  function OwnersSteps(acts: seq<Action>): nat {
    if acts == [] then 0 else (if acts[0].OwnerStep? then 1 else 0) + OwnersSteps(acts[1..])
  }

  /** In every run a push or pop under way is over after at most five of the owner's steps. */
  lemma {:induction false} OwnerEnds(v: Variant, s: State, acts: seq<Action>) returns (k: nat)
    requires Inv(s) && !s.owner.Idle? && OwnersSteps(acts) >= OwnerLeft(s.owner)
    ensures k <= |acts| && OwnersSteps(acts[..k]) <= OwnerLeft(s.owner) <= 5
    ensures Run(v, s, acts[..k]).owner.Idle?
    decreases |acts|
  {
    var s' := Next(v, s, acts[0]);
    StepKeepsInv(v, s, acts[0]);
    if acts[0].OwnerStep? {
      OwnerAdvances(v, s, s');
    } else {
      OthersLeaveOwner(v, s, acts[0], s');
    }
    if s'.owner.Idle? {
      k := 1;
      assert acts[..1][1..] == [] && acts[..1][0] == acts[0];
    } else {
      var rest := OwnerEnds(v, s', acts[1..]);
      k := rest + 1;
      assert acts[..k][1..] == acts[1..][..rest] && acts[..k][0] == acts[0];
    }
  }
}
