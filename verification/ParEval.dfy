/** Merging asynchronous streams by round-robin polling, and collecting the result.  A source is the script of
    answers it will give: chunks, pending, yield or an error in any pattern, and done at the end. */
module ParEval {
  import opened Arithmetic
  import opened Optional
  import opened Sequences

  datatype Event<+T> = Emits(chunk: seq<T>) | IsPending | Yields | Fails(error: string)

  datatype Poll<+T> = Emit(chunk: seq<T>) | Pending | Yield | Done | Error(error: string)

  /** The elements a source has still to deliver. */
  function Rest<T>(script: seq<Event<T>>): seq<T> {
    if script == [] then []
    else (if script[0].Emits? then script[0].chunk else []) + Rest(script[1..])
  }

  function Rests<T>(scripts: seq<seq<Event<T>>>): (rests: seq<seq<T>>)
    ensures |rests| == |scripts| && forall s | 0 <= s < |scripts| :: rests[s] == Rest(scripts[s])
  {
    if scripts == [] then [] else [Rest(scripts[0])] + Rests(scripts[1..])
  }

  predicate Errs<T>(script: seq<Event<T>>)
    ensures Errs(script) <==> exists k | 0 <= k < |script| :: script[k].Fails?
  {
    script != [] && (script[0].Fails? || Errs(script[1..]))
  }

  ghost predicate AnyErrs<T>(scripts: seq<seq<Event<T>>>) {
    exists s :: 0 <= s < |scripts| && Errs(scripts[s])
  }

  /** One answer of one source was taken. */
  ghost predicate Took<T>(before: seq<seq<Event<T>>>, after: seq<seq<Event<T>>>, i: nat, r: Poll<T>) {
    i < |before| && after == before[i := if before[i] == [] then [] else before[i][1..]]
    && match r
       case Done => before[i] == []
       case Emit(chunk) => before[i] != [] && before[i][0] == Emits(chunk)
       case Pending => before[i] != [] && before[i][0] == IsPending
       case Yield => before[i] != [] && before[i][0] == Yields
       case Error(e) => before[i] != [] && before[i][0] == Fails(e)
  }

  lemma TookRests<T>(before: seq<seq<Event<T>>>, after: seq<seq<Event<T>>>, i: nat, r: Poll<T>)
    requires Took(before, after, i, r)
    ensures forall s | 0 <= s < |before| && s != i :: Rests(after)[s] == Rests(before)[s]
    ensures r.Emit? ==> Rests(before)[i] == r.chunk + Rests(after)[i]
    ensures !r.Emit? ==> Rests(after) == Rests(before)
  {
    var head := if r.Emit? then r.chunk else [];
    RestStep(before[i], after[i], head);
    if !r.Emit? {
      SameRests(before, after);
    }
  }

  lemma RestStep<T>(script: seq<Event<T>>, tail: seq<Event<T>>, head: seq<T>)
    requires tail == if script == [] then [] else script[1..]
    requires head == if script != [] && script[0].Emits? then script[0].chunk else []
    ensures Rest(script) == head + Rest(tail)
    ensures head == [] ==> Rest(script) == Rest(tail)
  {
    if script == [] {
      assert Rest(script) == [];
    }
    assert [] + Rest(tail) == Rest(tail);
  }

  lemma SameRests<T>(before: seq<seq<Event<T>>>, after: seq<seq<Event<T>>>)
    requires |before| == |after| && forall s | 0 <= s < |before| :: Rest(before[s]) == Rest(after[s])
    ensures Rests(before) == Rests(after)
  {
    assert forall s | 0 <= s < |before| :: Rests(before)[s] == Rests(after)[s];
  }

  lemma TookErrs<T>(before: seq<seq<Event<T>>>, after: seq<seq<Event<T>>>, i: nat, r: Poll<T>)
    requires Took(before, after, i, r)
    ensures r.Error? ==> AnyErrs(before)
    ensures !r.Error? ==> AnyErrs(after) == AnyErrs(before)
  {
    if r.Error? {
      assert Errs(before[i]);
    } else {
      assert Errs(after[i]) == Errs(before[i]);
      if AnyErrs(before) {
        var s :| 0 <= s < |before| && Errs(before[s]);
        assert Errs(after[s]);
      }
      if AnyErrs(after) {
        var s :| 0 <= s < |after| && Errs(after[s]);
        assert Errs(before[s]);
      }
    }
  }

  /** The elements that came from one source. */
  function From<T>(out: seq<T>, origin: seq<nat>, s: nat): seq<T>
    requires |out| == |origin|
  {
    if out == [] then []
    else
      var n := |out| - 1;
      From(out[..n], origin[..n], s) + if origin[n] == s then [out[n]] else []
  }

  /** The output is an interleaving of the sources: every element once, each source's own order kept. */
  ghost predicate Interleaves<T>(out: seq<T>, origin: seq<nat>, parts: seq<seq<T>>) {
    && |out| == |origin| && (forall k | 0 <= k < |origin| :: origin[k] < |parts|)
    && forall s | 0 <= s < |parts| :: From(out, origin, s) == parts[s]
  }

  lemma {:induction false} FromAppend<T>(out: seq<T>, origin: seq<nat>, chunk: seq<T>, tags: seq<nat>, t: nat, s: nat)
    requires |out| == |origin| && |chunk| == |tags| && forall k | 0 <= k < |tags| :: tags[k] == t
    ensures From(out + chunk, origin + tags, s) == From(out, origin, s) + if s == t then chunk else []
  {
    if chunk == [] {
      assert out + chunk == out && origin + tags == origin;
    } else {
      var n := |chunk| - 1;
      FromAppend(out, origin, chunk[..n], tags[..n], t, s);
      assert (out + chunk)[..|out| + n] == out + chunk[..n] && (origin + tags)[..|out| + n] == origin + tags[..n];
      assert chunk == chunk[..n] + [chunk[n]];
    }
  }

  function Events<T>(scripts: seq<seq<Event<T>>>): nat {
    if scripts == [] then 0 else |scripts[0]| + Events(scripts[1..])
  }

  function Undone(flags: seq<bool>): nat {
    if flags == [] then 0 else (if flags[0] then 0 else 1) + Undone(flags[1..])
  }

  lemma {:induction false} EventsUpdate<T>(scripts: seq<seq<Event<T>>>, i: nat, script: seq<Event<T>>)
    requires i < |scripts|
    ensures Events(scripts[i := script]) == Events(scripts) - |scripts[i]| + |script|
  {
    if i == 0 {
      assert scripts[0 := script][1..] == scripts[1..];
    } else {
      assert scripts[i := script][1..] == scripts[1..][i - 1 := script];
      EventsUpdate(scripts[1..], i - 1, script);
    }
  }

  lemma {:induction false} UndoneUpdate(flags: seq<bool>, i: nat)
    requires i < |flags| && !flags[i]
    ensures Undone(flags[i := true]) == Undone(flags) - 1
  {
    if i == 0 {
      assert flags[0 := true][1..] == flags[1..];
    } else {
      assert flags[i := true][1..] == flags[1..][i - 1 := true];
      UndoneUpdate(flags[1..], i - 1);
    }
  }

  class Merge<T> {
    var scripts: seq<seq<Event<T>>>
    var doneFlags: seq<bool>
    var nextIdx: nat

    ghost predicate Valid()
      reads this
    {
      |doneFlags| == |scripts| && forall i | 0 <= i < |scripts| && doneFlags[i] :: scripts[i] == []
    }

    ghost function Work(): nat
      reads this
    {
      Events(scripts) + Undone(doneFlags)
    }

    constructor (scripts: seq<seq<Event<T>>>)
      ensures Valid() && this.scripts == scripts
    {
      this.scripts, doneFlags, nextIdx := scripts, seq(|scripts|, _ => false), 0;
    }

    method PollSource(i: nat) returns (r: Poll<T>)
      requires Valid() && i < |scripts| && !doneFlags[i]
      modifies this
      ensures Took(old(scripts), scripts, i, r) && Valid() && nextIdx == old(nextIdx)
      ensures doneFlags == if r.Done? then old(doneFlags)[i := true] else old(doneFlags)
      ensures Work() < old(Work())
    {
      if scripts[i] == [] {
        UndoneUpdate(doneFlags, i);
        doneFlags := doneFlags[i := true];
        assert scripts == scripts[i := []];
        return Done;
      }
      var next := scripts[i][0];
      EventsUpdate(scripts, i, scripts[i][1..]);
      scripts := scripts[i := scripts[i][1..]];
      match next
      case Emits(chunk) => r := Emit(chunk);
      case IsPending => r := Pending;
      case Yields => r := Yield;
      case Fails(e) => r := Error(e);
    }

    /** One turn over the sources, from where the last one stopped.  A chunk is the next part of one source;
        nothing is lost otherwise; done is said only when every source is. */
    method PollNext() returns (r: Poll<T>, ghost from: nat)
      requires Valid()
      modifies this
      ensures Valid() && |scripts| == |old(scripts)| && !r.Yield?
      ensures Turned(old(scripts), scripts, r, from)
      ensures r.Emit? ==> InTurn(old(scripts), old(nextIdx), nextIdx, from)
      ensures r.Done? ==> forall s | 0 <= s < |scripts| :: scripts[s] == []
      ensures !r.Done? ==> Work() < old(Work())
    {
      from := 0;
      if scripts == [] {
        return Done, from;
      }
      ghost var start := nextIdx;
      var stop;
      stop, r, from := Turn();
      if !stop {
        r := EndTurn(start);
      }
    }

    /** Something has happened since there was so much work, or every source met was finished. */
    ghost predicate Advanced(work: nat, start: nat, tried: nat)
      reads this
    {
      Work() < work || (Work() == work && MetAllDone(doneFlags, start, tried))
    }

    method Turn() returns (stop: bool, r: Poll<T>, ghost from: nat)
      requires Valid() && scripts != []
      modifies this
      ensures Valid() && |scripts| == |old(scripts)|
      ensures if stop then (r.Emit? || r.Error?) && Turned(old(scripts), scripts, r, from) && Work() < old(Work())
        else NothingTaken(old(scripts), scripts)
      ensures stop && r.Emit? ==> InTurn(old(scripts), old(nextIdx), nextIdx, from)
      ensures Advanced(old(Work()), old(nextIdx), |scripts|)
    {
      stop, r, from := false, Pending, 0;
      var n := |scripts|;
      var tried := 0;
      ghost var start := nextIdx;
      while tried < n
        invariant 0 <= tried <= n && nextIdx == start + tried && n == |scripts| && Valid()
        invariant Turning(old(scripts), scripts, start, tried) && !stop && Advanced(old(Work()), start, tried)
      {
        stop, r, from := TryOne(old(scripts), old(Work()), start, tried);
        if stop {
          return;
        }
        tried := tried + 1;
      }
    }

    /** A turn without a chunk: done if every source is, and else pending. */
    method EndTurn(ghost start: nat) returns (r: Poll<T>)
      requires Valid()
      ensures r.Done? || r.Pending?
      ensures r.Done? <==> forall j | 0 <= j < |doneFlags| :: doneFlags[j]
      ensures |scripts| > 0 && MetAllDone(doneFlags, start, |scripts|) ==> r.Done?
    {
      var done := AllDone();
      if |scripts| > 0 && MetAllDone(doneFlags, start, |scripts|) {
        AllMet(doneFlags, start, |scripts|);
      }
      r := if done then Done else Pending;
    }

    /** Comes by one source; stops there if it has a chunk or an error. */
    method TryOne(ghost before: seq<seq<Event<T>>>, ghost work: nat, ghost start: nat, ghost tried: nat)
      returns (stop: bool, r: Poll<T>, ghost from: nat)
      requires Valid() && tried < |scripts| && nextIdx == start + tried && Turning(before, scripts, start, tried)
      requires Advanced(work, start, tried)
      modifies this
      ensures Valid() && |scripts| == |old(scripts)| && nextIdx == old(nextIdx) + 1
      ensures stop ==> (r.Emit? || r.Error?) && Turned(before, scripts, r, from) && Work() < work
      ensures stop && r.Emit? ==> InTurn(before, start, nextIdx, from)
      ensures !stop ==> Turning(before, scripts, start, tried + 1) && Advanced(work, start, tried + 1)
    {
      var n := |scripts|;
      var idx := nextIdx % n;
      assert idx == At(start, tried, n);
      nextIdx := nextIdx + 1;
      r, from, stop := Pending, idx, false;
      if doneFlags[idx] {
        return;
      }
      ghost var last := scripts;
      r := PollSource(idx);
      stop := r.Emit? || r.Error?;
      if stop {
        TurnStops(before, last, scripts, r, start, tried);
      } else {
        TurnGoesOn(before, last, scripts, r, start, tried);
      }
    }

    method AllDone() returns (done: bool)
      ensures done <==> forall j | 0 <= j < |doneFlags| :: doneFlags[j]
    {
      for i := 0 to |doneFlags|
        invariant forall j | 0 <= j < i :: doneFlags[j]
      {
        if !doneFlags[i] {
          return false;
        }
      }
      done := true;
    }
  }

  ghost predicate NothingTaken<T>(before: seq<seq<Event<T>>>, after: seq<seq<Event<T>>>) {
    |after| == |before| && Rests(after) == Rests(before) && AnyErrs(after) == AnyErrs(before)
  }

  predicate Ready<T>(script: seq<Event<T>>) {
    script != [] && script[0].Emits?
  }

  /** The chunk comes from the first ready source in rotation, and the next turn starts behind it: no ready
      source is passed over. */
  ghost predicate InTurn<T>(before: seq<seq<Event<T>>>, start: nat, next: nat, from: nat) {
    var n := |before|;
    && start < next <= start + n
    && from == At(start, next - 1 - start, n)
    && forall t | 0 <= t < next - 1 - start :: !Ready(before[At(start, t, n)])
  }

  /** Part of a turn without a chunk: the sources met had none, the others are as they were. */
  ghost predicate Turning<T>(before: seq<seq<Event<T>>>, now: seq<seq<Event<T>>>, start: nat, tried: nat) {
    var n := |before|;
    && n > 0 && NothingTaken(before, now)
    && (forall t | 0 <= t < tried :: !Ready(before[At(start, t, n)]))
    && (forall t | tried <= t < n :: now[At(start, t, n)] == before[At(start, t, n)])
  }

  /** A chunk or an error ends the turn. */
  lemma TurnStops<T>(before: seq<seq<Event<T>>>, last: seq<seq<Event<T>>>, now: seq<seq<Event<T>>>, r: Poll<T>,
                     start: nat, tried: nat)
    requires tried < |before| && Turning(before, last, start, tried)
    requires Took(last, now, At(start, tried, |before|), r) && (r.Emit? || r.Error?)
    ensures Turned(before, now, r, At(start, tried, |before|))
  {
    TookRests(last, now, At(start, tried, |before|), r);
    TookErrs(last, now, At(start, tried, |before|), r);
  }

  lemma NothingMoreTaken<T>(before: seq<seq<Event<T>>>, last: seq<seq<Event<T>>>, now: seq<seq<Event<T>>>, r: Poll<T>,
                            i: nat)
    requires NothingTaken(before, last) && Took(last, now, i, r) && !r.Emit? && !r.Error?
    ensures NothingTaken(before, now)
  {
    TookRests(last, now, i, r);
    TookErrs(last, now, i, r);
  }

  /** The source met was not ready, and those still to be met are as before. */
  lemma RotationGoesOn<T>(before: seq<seq<Event<T>>>, last: seq<seq<Event<T>>>, now: seq<seq<Event<T>>>, r: Poll<T>,
                          start: nat, tried: nat)
    requires tried < |before| && Turning(before, last, start, tried)
    requires Took(last, now, At(start, tried, |before|), r) && !r.Emit? && !r.Error?
    ensures forall t | 0 <= t < tried + 1 :: !Ready(before[At(start, t, |before|)])
    ensures forall t | tried + 1 <= t < |before| ::
      now[At(start, t, |before|)] == before[At(start, t, |before|)]
  {
    var n, i := |before|, At(start, tried, |before|);
    assert last[i] == before[i] && !Ready(before[i]);
    forall t | tried + 1 <= t < n ensures now[At(start, t, n)] == before[At(start, t, n)] {
      AtDiffers(start, tried, t, n);
      assert last[At(start, t, n)] == before[At(start, t, n)];
    }
  }

  lemma TurnGoesOn<T>(before: seq<seq<Event<T>>>, last: seq<seq<Event<T>>>, now: seq<seq<Event<T>>>, r: Poll<T>,
                      start: nat, tried: nat)
    requires tried < |before| && Turning(before, last, start, tried)
    requires Took(last, now, At(start, tried, |before|), r) && !r.Emit? && !r.Error?
    ensures Turning(before, now, start, tried + 1)
  {
    NothingMoreTaken(before, last, now, r, At(start, tried, |before|));
    RotationGoesOn(before, last, now, r, start, tried);
  }

  lemma AtDiffers(start: nat, t: nat, u: nat, n: nat)
    requires t < u < n
    ensures At(start, t, n) != At(start, u, n)
  {
    WrapsDiffer(start, t, u, n);
  }

  /** The effect of one turn. */
  ghost predicate Turned<T>(before: seq<seq<Event<T>>>, after: seq<seq<Event<T>>>, r: Poll<T>, from: nat) {
    && |after| == |before|
    && (r.Emit? ==>
      && from < |after| && Rests(before)[from] == r.chunk + Rests(after)[from]
      && forall s | 0 <= s < |after| && s != from :: Rests(after)[s] == Rests(before)[s])
    && (!r.Emit? ==> Rests(after) == Rests(before))
    && (if r.Error? then AnyErrs(before) else AnyErrs(after) == AnyErrs(before))
  }

  /** The source a turn comes by after t others. */
  function At(start: nat, t: nat, n: nat): (i: nat)
    requires n > 0
    ensures i < n
  {
    (start + t) % n
  }

  /** A turn comes by every source. */
  lemma Covers(start: nat, n: nat, j: nat) returns (t: nat)
    requires j < n
    ensures t < n && At(start, t, n) == j
  {
    var q, m := start / n, start % n;
    assert start == q * n + m;
    t := if j >= m then j - m else j + n - m;
    var q' := if j >= m then q else q + 1;
    assert start + t == q' * n + j;
    DivModUnique(start + t, q', j, n);
  }

  /** What was there at first is what has been collected and what is left, source by source. */
  ghost predicate Accounted<T>(out: seq<T>, origin: seq<nat>, all: seq<seq<T>>, rests: seq<seq<T>>) {
    && |out| == |origin| && |rests| == |all| && (forall k | 0 <= k < |origin| :: origin[k] < |all|)
    && forall s | 0 <= s < |all| :: all[s] == From(out, origin, s) + rests[s]
  }

  lemma CollectOne<T>(out: seq<T>, origin: seq<nat>, chunk: seq<T>, tags: seq<nat>, from: nat, s: nat,
                      all: seq<T>, before: seq<T>, after: seq<T>)
    requires |out| == |origin| && |chunk| == |tags| && forall k | 0 <= k < |tags| :: tags[k] == from
    requires all == From(out, origin, s) + before && (if s == from then before == chunk + after else before == after)
    ensures all == From(out + chunk, origin + tags, s) + after
  {
    var had := From(out, origin, s);
    FromAppend(out, origin, chunk, tags, from, s);
    if s == from {
      Regrouped(had, chunk, after);
    } else {
      assert had + [] == had;
    }
  }

  ghost predicate MetAllDone(flags: seq<bool>, start: nat, tried: nat) {
    |flags| > 0 && forall t | 0 <= t < tried :: flags[At(start, t, |flags|)]
  }

  lemma AllMet(flags: seq<bool>, start: nat, n: nat)
    requires n == |flags| && MetAllDone(flags, start, n)
    ensures forall j | 0 <= j < n :: flags[j]
  {
    forall j | 0 <= j < n ensures flags[j] {
      var t := Covers(start, n, j);
    }
  }

  /** Puts a chunk's elements behind what has been collected, each with the source it came from. */
  lemma CollectMore<T>(out: seq<T>, origin: seq<nat>, chunk: seq<T>, tags: seq<nat>, from: nat,
                       all: seq<seq<T>>, before: seq<seq<T>>, after: seq<seq<T>>)
    requires |chunk| == |tags| && forall k | 0 <= k < |tags| :: tags[k] == from
    requires |all| == |after| && from < |all| && Accounted(out, origin, all, before)
    requires before[from] == chunk + after[from]
    requires forall s | 0 <= s < |all| && s != from :: after[s] == before[s]
    ensures Accounted(out + chunk, origin + tags, all, after)
  {
    forall s | 0 <= s < |all| ensures all[s] == From(out + chunk, origin + tags, s) + after[s] {
      CollectOne(out, origin, chunk, tags, from, s, all[s], before[s], after[s]);
    }
  }

  lemma CollectedAll<T>(out: seq<T>, origin: seq<nat>, all: seq<seq<T>>, rests: seq<seq<T>>)
    requires Accounted(out, origin, all, rests) && forall s | 0 <= s < |rests| :: rests[s] == []
    ensures Interleaves(out, origin, all)
  {
    forall s | 0 <= s < |all| ensures From(out, origin, s) == all[s] {
      assert From(out, origin, s) + [] == From(out, origin, s);
    }
  }

  /** Polls to the end.  Without errors the result is an interleaving of the sources; otherwise, and only
      then, it is an error.  It always comes to an end. */
  method CollectBlocking<T>(merge: Merge<T>) returns (r: Result<seq<T>>, ghost origin: seq<nat>)
    requires merge.Valid()
    modifies merge
    ensures r.Err? <==> AnyErrs(old(merge.scripts))
    ensures r.Ok? ==> Interleaves(r.value, origin, Rests(old(merge.scripts)))
  {
    var out: seq<T> := [];
    origin := [];
    ghost var all, errs := Rests(merge.scripts), AnyErrs(merge.scripts);
    while true
      invariant merge.Valid() && |merge.scripts| == |all| && AnyErrs(merge.scripts) == errs
      invariant Accounted(out, origin, all, Rests(merge.scripts))
      decreases merge.Work()
    {
      ghost var before := Rests(merge.scripts);
      var p;
      ghost var from;
      p, from := merge.PollNext();
      match p
      case Emit(chunk) =>
        ghost var tags := seq(|chunk|, _ => from);
        CollectMore(out, origin, chunk, tags, from, all, before, Rests(merge.scripts));
        out, origin := out + chunk, origin + tags;
      case Done =>
        CollectedAll(out, origin, all, Rests(merge.scripts));
        return Ok(out), origin;
      case Error(e) =>
        return Err(e), origin;
      case _ =>
    }
  }
}
