/** Pull streams and their combinators.  A handle hides its implementation behind a table of functions
    in the source; here one class carries the implementation as a tag.  Every stream stands for the
    elements it has still to deliver, whatever their chunking. */
module PullStreams {
  import opened Optional
  import opened Sequences

  function Flat<T>(chunks: seq<seq<T>>): seq<T> {
    if chunks == [] then [] else chunks[0] + Flat(chunks[1..])
  }

  function Mapped<T>(fn: T -> T, s: seq<T>): (r: seq<T>)
    ensures |r| == |s| && forall i | 0 <= i < |s| :: r[i] == fn(s[i])
  {
    if s == [] then [] else [fn(s[0])] + Mapped(fn, s[1..])
  }

  function Kept<T>(pred: T -> bool, s: seq<T>): seq<T> {
    if s == [] then [] else (if pred(s[0]) then [s[0]] else []) + Kept(pred, s[1..])
  }

  /** What the filter keeps is exactly the elements that meet its test, in their order. */
  lemma {:induction false} KeptIsSifted<T>(pred: T -> bool, s: seq<T>) returns (at: seq<nat>)
    ensures Sifted(pred, s, Kept(pred, s), at)
  {
    if s == [] {
      at := [];
    } else {
      var n := |s| - 1;
      at := KeptIsSifted(pred, s[..n]);
      KeptAppend(pred, s[..n], [s[n]]);
      assert s == s[..n] + [s[n]];
      assert [s[n]][1..] == [] && Kept(pred, [s[n]]) == if pred(s[n]) then [s[n]] else [];
      SiftedMore(pred, s[..n], Kept(pred, s[..n]), at, s[n]);
      if pred(s[n]) {
        at := at + [n];
      } else {
        assert Kept(pred, s) == Kept(pred, s[..n]) + [];
      }
    }
  }

  /** The elements of all chunks, chunk after chunk. */
  lemma {:induction false} FlatAppend<T>(a: seq<seq<T>>, chunk: seq<T>)
    ensures Flat<T>([]) == [] && Flat(a + [chunk]) == Flat(a) + chunk
  {
    if a == [] {
      assert a + [chunk] == [chunk] && [chunk][1..] == [];
    } else {
      assert (a + [chunk])[1..] == a[1..] + [chunk];
      FlatAppend(a[1..], chunk);
    }
  }

  lemma {:induction false} MappedAppend<T>(fn: T -> T, a: seq<T>, b: seq<T>)
    ensures Mapped(fn, a + b) == Mapped(fn, a) + Mapped(fn, b)
  {
    if a == [] {
      assert a + b == b;
    } else {
      assert (a + b)[1..] == a[1..] + b;
      MappedAppend(fn, a[1..], b);
    }
  }

  lemma {:induction false} KeptAppend<T>(pred: T -> bool, a: seq<T>, b: seq<T>)
    ensures Kept(pred, a + b) == Kept(pred, a) + Kept(pred, b)
  {
    if a == [] {
      assert a + b == b;
    } else {
      assert (a + b)[1..] == a[1..] + b;
      KeptAppend(pred, a[1..], b);
      var head := if pred(a[0]) then [a[0]] else [];
      assert (head + Kept(pred, a[1..])) + Kept(pred, b) == head + (Kept(pred, a[1..]) + Kept(pred, b));
    }
  }

  // ---------------------------------------------------------------- what a stream stands for

  /** The elements still to be delivered, whether the stream is done for good, and a bound on the pulls
      it can still answer with a chunk. */
  datatype View<T> = View(rest: seq<T>, done: bool, work: nat)

  /** The promise of every pull: a chunk is the next part of what is left; "done" is said only when
      nothing is left, and once done always done. */
  ghost predicate Answers<T>(v: View<T>, r: Option<seq<T>>, v': View<T>) {
    && (r.None? ==> v.rest == [] && v'.rest == [] && v'.done && v'.work <= v.work)
    && (v.done ==> r.None?)
    && (r.Some? ==> v.rest == r.value + v'.rest && v'.work < v.work)
  }

  ghost function ChunksView<T>(chunks: seq<seq<T>>): View<T> {
    View(Flat(chunks), chunks == [], |chunks|)
  }

  ghost function MapView<T>(fn: T -> T, v: View<T>): View<T> {
    View(Mapped(fn, v.rest), v.done, v.work)
  }

  ghost function FilterView<T>(pred: T -> bool, v: View<T>): View<T> {
    View(Kept(pred, v.rest), v.done, v.work)
  }

  ghost function TakeView<T>(n: nat, v: View<T>): View<T> {
    View(Taken(n, v.rest), n == 0 || v.done, v.work)
  }

  ghost function BatchView<T>(size: nat, buffer: seq<T>, upstreamDone: bool, v: View<T>): View<T> {
    View(if size == 0 then [] else buffer + (if upstreamDone then [] else v.rest),
         buffer == [] && (size == 0 || upstreamDone),
         |buffer| + |v.rest| + v.work)
  }

  lemma MapAnswers<T>(fn: T -> T, v: View<T>, p: Option<seq<T>>, v': View<T>)
    requires Answers(v, p, v')
    ensures Answers(MapView(fn, v), if p.Some? then Some(Mapped(fn, p.value)) else None, MapView(fn, v'))
  {
    if p.Some? {
      MappedAppend(fn, p.value, v'.rest);
    }
  }

  lemma FilterAnswers<T>(pred: T -> bool, v: View<T>, p: Option<seq<T>>, v': View<T>)
    requires Answers(v, p, v')
    ensures Answers(FilterView(pred, v), if p.Some? then Some(Kept(pred, p.value)) else None, FilterView(pred, v'))
  {
    if p.Some? {
      KeptAppend(pred, p.value, v'.rest);
    }
  }

  lemma TakeAnswers<T>(n: nat, v: View<T>, p: Option<seq<T>>, v': View<T>)
    requires Answers(v, p, v') && n > 0
    ensures Answers(TakeView(n, v), if p.Some? then Some(Taken(n, p.value)) else None,
                    TakeView(if p.Some? then n - |Taken(n, p.value)| else n, v'))
  {
  }

  lemma FillAnswers<T>(size: nat, buffer: seq<T>, v: View<T>, p: Option<seq<T>>, v': View<T>)
    requires Answers(v, p, v') && size > 0
    ensures
      var before := BatchView(size, buffer, false, v);
      var after := BatchView(size, buffer + (if p.Some? then p.value else []), p.None?, v');
      && before.rest == after.rest && !before.done
      && (p.Some? ==> v'.work < v.work && after.work < before.work)
      && (p.None? ==> |after.rest| == |buffer| && after.work <= before.work)
  {
  }

  /** Handing out the front of a buffer that is full, or has all there is. */
  lemma CutAnswers<T>(start: View<T>, size: nat, buffer: seq<T>, upstreamDone: bool, v: View<T>)
    requires buffer != [] && size > 0 && (|buffer| >= size || upstreamDone)
    requires var full := BatchView(size, buffer, upstreamDone, v);
      full.rest == start.rest && full.work <= start.work && !start.done
    ensures var n := if size <= |buffer| then size else |buffer|;
      && Answers(start, Some(buffer[..n]), BatchView(size, buffer[n..], upstreamDone, v))
      && n == |Taken(size, start.rest)|
  {
    var n := if size <= |buffer| then size else |buffer|;
    var more := if upstreamDone then [] else v.rest;
    assert buffer == buffer[..n] + buffer[n..];
    assert (buffer[..n] + buffer[n..]) + more == buffer[..n] + (buffer[n..] + more);
  }

  // ---------------------------------------------------------------- recipes

  datatype Stage<!T> =
    | Map(fn: T -> T)
    | Filter(pred: T -> bool)
    | Take(n: nat)
    | FlatMap(expand: T -> Recipe<T>)
    | Batch(size: nat)

  /** A pipeline over a chunked source.  What flat_map makes of an element is a pipeline of its own. */
  datatype Recipe<!T> = Recipe(chunks: seq<seq<T>>, stages: seq<Stage<T>>)

  /** What a pipeline computes on plain sequences. */
  function Apply<T(!new)>(d: nat, stages: seq<Stage<T>>, s: seq<T>): seq<T>
    decreases d, 0, |stages|
  {
    if stages == [] then s
    else
      var inner := Apply(d, stages[..|stages| - 1], s);
      match stages[|stages| - 1]
      case Map(fn) => Mapped(fn, inner)
      case Filter(pred) => Kept(pred, inner)
      case Take(n) => Taken(n, inner)
      case FlatMap(expand) => if d == 0 then [] else Expanded(d - 1, expand, inner)
      case Batch(size) => if size == 0 then [] else inner
  }

  /** What the pipelines of the elements of s compute, one after the other. */
  function Expanded<T(!new)>(d: nat, expand: T -> Recipe<T>, s: seq<T>): seq<T>
    decreases d, 1, |s|
  {
    if s == [] then []
    else
      var r := expand(s[0]);
      Apply(d, r.stages, Flat(r.chunks)) + Expanded(d, expand, s[1..])
  }

  /** Flat maps are nested at most d deep, as far as the elements that occur are concerned. */
  ghost predicate Nested<T(!new)>(d: nat, stages: seq<Stage<T>>, s: seq<T>)
    decreases d, 0, |stages|
  {
    if stages == [] then true
    else
      var n := |stages| - 1;
      && Nested(d, stages[..n], s)
      && (stages[n].FlatMap? ==> d > 0 && NestedIn(d - 1, stages[n].expand, Apply(d, stages[..n], s)))
  }

  /** So are the pipelines of the elements of s. */
  ghost predicate NestedIn<T(!new)>(d: nat, expand: T -> Recipe<T>, s: seq<T>)
    decreases d, 1, 0
  {
    forall x <- s :: Nested(d, expand(x).stages, Flat(expand(x).chunks))
  }

  /** One stage after the others: elements mapped one by one, those that fail a test left out, a beginning, each
      element's own pipeline in its place, or the same elements repacked. */
  lemma ApplyMore<T(!new)>(d: nat, stages: seq<Stage<T>>, stage: Stage<T>, s: seq<T>) returns (at: seq<nat>)
    requires Nested(d, stages + [stage], s)
    ensures Apply(d, [], s) == s
    ensures
      var was, now := Apply(d, stages, s), Apply(d, stages + [stage], s);
      match stage
      case Map(fn) => |now| == |was| && forall i | 0 <= i < |was| :: now[i] == fn(was[i])
      case Filter(pred) => Sifted(pred, was, now, at)
      case Take(n) => now <= was && |now| == if n < |was| then n else |was|
      case FlatMap(expand) => d > 0 && now == Expanded(d - 1, expand, was)
      case Batch(size) => now == if size == 0 then [] else was
  {
    assert (stages + [stage])[..|stages|] == stages;
    at := [];
    if stage.Filter? {
      at := KeptIsSifted(stage.pred, Apply(d, stages, s));
    }
  }

  lemma {:induction false} ExpandedMore<T(!new)>(d: nat, expand: T -> Recipe<T>, s: seq<T>, x: T)
    ensures Expanded(d, expand, []) == []
    ensures Expanded(d, expand, s + [x])
      == Expanded(d, expand, s) + Apply(d, expand(x).stages, Flat(expand(x).chunks))
  {
    if s == [] {
      assert s + [x] == [x] && [x][1..] == [];
    } else {
      assert (s + [x])[1..] == s[1..] + [x];
      ExpandedMore(d, expand, s[1..], x);
    }
  }

  /** What the stream a pipeline makes stands for. */
  ghost function Start<T(!new)>(d: nat, stages: seq<Stage<T>>, chunks: seq<seq<T>>): View<T>
    decreases d, 1, |stages|
  {
    if stages == [] then ChunksView(chunks)
    else
      var v := Start(d, stages[..|stages| - 1], chunks);
      AddedView(d, stages[|stages| - 1], v)
  }

  /** One more stage. */
  ghost function AddedView<T(!new)>(d: nat, stage: Stage<T>, v: View<T>): View<T>
    decreases d, 0, 0
  {
    match stage
    case Map(fn) => MapView(fn, v)
    case Filter(pred) => FilterView(pred, v)
    case Take(n) => TakeView(n, v)
    case FlatMap(expand) => if d == 0 then v else FlatMapView(d - 1, expand, None, [], v)
    case Batch(size) => BatchView(size, [], false, v)
  }

  /** What the sub-streams of s will deliver, one after the other. */
  ghost function Opened<T(!new)>(d: nat, expand: T -> Recipe<T>, s: seq<T>): seq<T>
    decreases d, 2, |s|
  {
    if s == [] then [] else Start(d, expand(s[0]).stages, expand(s[0]).chunks).rest + Opened(d, expand, s[1..])
  }

  /** Pulls the sub-streams of s can take. */
  ghost function Pulls<T(!new)>(d: nat, expand: T -> Recipe<T>, s: seq<T>): nat
    decreases d, 2, |s|
  {
    if s == [] then 0 else 2 + Start(d, expand(s[0]).stages, expand(s[0]).chunks).work + Pulls(d, expand, s[1..])
  }

  ghost function FlatMapView<T(!new)>(d: nat, expand: T -> Recipe<T>, sub: Option<View<T>>, pending: seq<T>,
                                      v: View<T>): View<T>
    decreases d, 3, 0
  {
    View((if sub.Some? then sub.value.rest else []) + (Opened(d, expand, pending) + Opened(d, expand, v.rest)),
         sub.None? && pending == [] && v.done,
         (if sub.Some? then 1 + sub.value.work else 0) + Pulls(d, expand, pending) + Pulls(d, expand, v.rest) + v.work)
  }

  lemma {:induction false} OpenedAppend<T(!new)>(d: nat, expand: T -> Recipe<T>, a: seq<T>, b: seq<T>)
    ensures Opened(d, expand, a + b) == Opened(d, expand, a) + Opened(d, expand, b)
    ensures Pulls(d, expand, a + b) == Pulls(d, expand, a) + Pulls(d, expand, b)
  {
    if a == [] {
      assert a + b == b;
    } else {
      assert (a + b)[1..] == a[1..] + b;
      OpenedAppend(d, expand, a[1..], b);
      var head := Start(d, expand(a[0]).stages, expand(a[0]).chunks).rest;
      Regrouped(head, Opened(d, expand, a[1..]), Opened(d, expand, b));
    }
  }

  /** A pull of the current sub-stream. */
  lemma SubAnswers<T(!new)>(d: nat, expand: T -> Recipe<T>, sub: View<T>, p: Option<seq<T>>, sub': View<T>,
                            pending: seq<T>, v: View<T>)
    requires Answers(sub, p, sub')
    ensures
      var before := FlatMapView(d, expand, Some(sub), pending, v);
      var after := FlatMapView(d, expand, if p.Some? then Some(sub') else None, pending, v);
      && before.rest == (if p.Some? then p.value else []) + after.rest
      && after.work < before.work && !before.done
  {
  }

  lemma OpenAnswers<T(!new)>(d: nat, expand: T -> Recipe<T>, pending: seq<T>, v: View<T>)
    requires pending != []
    ensures
      var before := FlatMapView(d, expand, None, pending, v);
      var sub := Start(d, expand(pending[0]).stages, expand(pending[0]).chunks);
      var after := FlatMapView(d, expand, Some(sub), pending[1..], v);
      before.rest == after.rest && after.work < before.work && !before.done
  {
  }

  lemma ElementsAnswers<T(!new)>(d: nat, expand: T -> Recipe<T>, v: View<T>, p: Option<seq<T>>, v': View<T>)
    requires Answers(v, p, v')
    ensures
      var before := FlatMapView(d, expand, None, [], v);
      var after := FlatMapView(d, expand, None, if p.Some? then p.value else [], v');
      && before.rest == after.rest
      && (p.Some? ==> after.work < before.work && !before.done)
      && (p.None? ==> after.rest == [] && after.done && after.work <= before.work)
  {
    if p.Some? {
      OpenedAppend(d, expand, p.value, v'.rest);
    }
  }

  // ---------------------------------------------------------------- streams

  datatype Impl<!T(!new)> =
    | Chunks(chunks: seq<seq<T>>)
    | MapImpl(source: Stream<T>, fn: T -> T)
    | FilterImpl(source: Stream<T>, pred: T -> bool)
    | TakeImpl(source: Stream<T>, remaining: nat)
    | FlatMapImpl(source: Stream<T>, expand: T -> Recipe<T>, sub: Option<Stream<T>>, pending: seq<T>)
    | BatchImpl(source: Stream<T>, size: nat, buffer: seq<T>, upstreamDone: bool)

  /** The same combinator over another source. */
  function Rebased<T(!new)>(impl: Impl<T>, source: Stream<T>): Impl<T> {
    match impl
    case Chunks(chunks) => Chunks(chunks)
    case MapImpl(_, fn) => MapImpl(source, fn)
    case FilterImpl(_, pred) => FilterImpl(source, pred)
    case TakeImpl(_, n) => TakeImpl(source, n)
    case FlatMapImpl(_, expand, sub, pending) => FlatMapImpl(source, expand, sub, pending)
    case BatchImpl(_, size, buffer, upstreamDone) => BatchImpl(source, size, buffer, upstreamDone)
  }

  class Stream<T(!new)> {
    var impl: Impl<T>
    ghost var Repr: set<object>
    /** How deep the stream is nested; pulling a stream only pulls shallower ones. */
    ghost const rank: nat
    /** How deep flat maps are nested within sub-streams; a sub-stream's level is lower. */
    ghost const level: nat

    ghost predicate Owns(child: Stream<T>)
      reads this
    {
      this in Repr && child in Repr
    }

    ghost predicate Above(child: Stream<T>)
      reads this, child
    {
      child.Repr <= Repr && this !in child.Repr && child.rank < rank && child.level <= level
    }

    ghost predicate Opens(child: Stream<T>)
      reads this, child
    {
      child.Repr <= Repr && this !in child.Repr && child.level < level
    }

    ghost predicate Valid()
      reads this, Repr
      decreases Repr, 0
    {
      && this in Repr
      && match impl
         case Chunks(_) => true
         case FlatMapImpl(source, expand, sub, _) =>
           && Owns(source) && Above(source) && source.Valid() && level > 0
           && NestedIn(level - 1, expand, impl.pending) && NestedIn(level - 1, expand, source.Look().rest)
           && (sub.Some? ==> Owns(sub.value) && Opens(sub.value) && sub.value.Valid() && sub.value.Repr !! source.Repr)
         case BatchImpl(source, size, buffer, _) =>
           Owns(source) && Above(source) && source.Valid() && (size == 0 ==> buffer == [])
         case _ => Owns(impl.source) && Above(impl.source) && impl.source.Valid()
    }

    ghost function Look(): View<T>
      requires Valid()
      reads this, Repr
      decreases Repr, 1
    {
      match impl
      case Chunks(chunks) => ChunksView(chunks)
      case MapImpl(source, fn) => MapView(fn, source.Look())
      case FilterImpl(source, pred) => FilterView(pred, source.Look())
      case TakeImpl(source, n) => TakeView(n, source.Look())
      case FlatMapImpl(source, expand, sub, pending) =>
        FlatMapView(level - 1, expand, if sub.Some? then Some(sub.value.Look()) else None, pending, source.Look())
      case BatchImpl(source, size, buffer, done) => BatchView(size, buffer, done, source.Look())
    }

    constructor FromChunks(chunks: seq<seq<T>>, ghost level: nat)
      ensures Valid() && fresh(Repr) && impl == Chunks(chunks) && this.level == level
      ensures Look() == ChunksView(chunks)
    {
      impl := Chunks(chunks);
      Repr, rank, this.level := {this}, 0, level;
    }

    /** A combinator over streams of its own. */
    constructor Over(impl: Impl<T>, ghost level: nat)
      requires !impl.Chunks? && impl.source.Valid() && (impl.BatchImpl? && impl.size == 0 ==> impl.buffer == [])
      requires impl.source.level <= level
      requires impl.FlatMapImpl? ==>
        && level > 0 && NestedIn(level - 1, impl.expand, impl.pending)
        && NestedIn(level - 1, impl.expand, impl.source.Look().rest)
      requires impl.FlatMapImpl? && impl.sub.Some? ==>
        impl.sub.value.Valid() && impl.sub.value.level < level && impl.sub.value.Repr !! impl.source.Repr
      ensures Valid() && this.impl == impl && this.level == level
      ensures Repr == {this} + impl.source.Repr
        + if impl.FlatMapImpl? && impl.sub.Some? then impl.sub.value.Repr else {}
    {
      this.impl, this.level := impl, level;
      rank := 1 + impl.source.rank;
      Repr := {this} + impl.source.Repr + if impl.FlatMapImpl? && impl.sub.Some? then impl.sub.value.Repr else {};
    }

    method Pull() returns (r: Option<seq<T>>)
      requires Valid()
      modifies Repr
      ensures Valid() && fresh(Repr - old(Repr)) && Answers(old(Look()), r, Look())
      ensures old(impl).BatchImpl? && old(impl).size > 0 && r.Some? ==>
        |r.value| == |Taken(old(impl).size, old(Look()).rest)|
      decreases level, rank, 4
    {
      match impl
      case Chunks(_) => r := PullChunk();
      case MapImpl(_, _) => r := PullMap();
      case FilterImpl(_, _) => r := PullFilter();
      case TakeImpl(_, _) => r := PullTake();
      case FlatMapImpl(_, _, _, _) => r := PullFlatMap();
      case BatchImpl(_, _, _, _) => r := PullBatch();
    }

    method PullChunk() returns (r: Option<seq<T>>)
      requires Valid() && impl.Chunks?
      modifies this
      ensures Valid() && Repr == old(Repr) && Answers(old(Look()), r, Look())
      decreases level, rank, 2
    {
      if impl.chunks == [] {
        return None;
      }
      r := Some(impl.chunks[0]);
      impl := Chunks(impl.chunks[1..]);
    }

    /** Pulls the only stream this one is over. */
    method PullSource() returns (p: Option<seq<T>>)
      requires Valid() && !impl.Chunks? && (impl.FlatMapImpl? ==> impl.sub.None?)
      modifies Repr
      ensures Valid() && fresh(Repr - old(Repr)) && impl == old(impl)
      ensures impl.source.Valid() && Answers(old(impl.source.Look()), p, impl.source.Look())
      decreases level, rank, 0
    {
      p := impl.source.Pull();
      Repr := Repr + impl.source.Repr;
    }

    method PullMap() returns (r: Option<seq<T>>)
      requires Valid() && impl.MapImpl?
      modifies Repr
      ensures Valid() && fresh(Repr - old(Repr)) && Answers(old(Look()), r, Look())
      decreases level, rank, 2
    {
      ghost var v := impl.source.Look();
      var p := PullSource();
      MapAnswers(impl.fn, v, p, impl.source.Look());
      r := if p.None? then None else Some(Mapped(impl.fn, p.value));
    }

    /** Skips source chunks that filter to nothing. */
    method PullFilter() returns (r: Option<seq<T>>)
      requires Valid() && impl.FilterImpl?
      modifies Repr
      ensures Valid() && fresh(Repr - old(Repr)) && Answers(old(Look()), r, Look())
      decreases level, rank, 2
    {
      ghost var start := Look();
      while true
        invariant Valid() && fresh(Repr - old(Repr)) && impl == old(impl)
        invariant Look().rest == start.rest && Look().work <= start.work && (start.done ==> Look().done)
        decreases Look().work
      {
        ghost var v := impl.source.Look();
        var p := PullSource();
        FilterAnswers(impl.pred, v, p, impl.source.Look());
        if p.None? {
          return None;
        }
        var kept := Kept(impl.pred, p.value);
        if kept != [] {
          return Some(kept);
        }
      }
    }

    method PullTake() returns (r: Option<seq<T>>)
      requires Valid() && impl.TakeImpl?
      modifies Repr
      ensures Valid() && fresh(Repr - old(Repr)) && Answers(old(Look()), r, Look())
      decreases level, rank, 2
    {
      var n := impl.remaining;
      if n == 0 {
        return None;
      }
      ghost var v := impl.source.Look();
      var p := PullSource();
      TakeAnswers(n, v, p, impl.source.Look());
      if p.None? {
        return None;
      }
      if |p.value| <= n {
        impl := TakeImpl(impl.source, n - |p.value|);
        return p;
      }
      impl := TakeImpl(impl.source, 0);
      return Some(p.value[..n]);
    }

    /** Drains the current sub-stream, then opens the next element's, then pulls the source. */
    method PullFlatMap() returns (r: Option<seq<T>>)
      requires Valid() && impl.FlatMapImpl?
      modifies Repr
      ensures Valid() && fresh(Repr - old(Repr)) && Answers(old(Look()), r, Look())
      decreases level, rank, 2
    {
      ghost var start := Look();
      while true
        invariant Valid() && fresh(Repr - old(Repr)) && impl.FlatMapImpl?
        invariant Look().rest == start.rest && Look().work <= start.work && (start.done ==> Look().done)
        decreases Look().work
      {
        if impl.sub.Some? {
          r := PullSub();
          if r.Some? {
            return;
          }
        } else if impl.pending != [] {
          OpenNext();
        } else {
          var done := PullElements();
          if done {
            return None;
          }
        }
      }
    }

    /** One pull of the current sub-stream; the source is not touched. */
    method PullChild() returns (p: Option<seq<T>>)
      requires Valid() && impl.FlatMapImpl? && impl.sub.Some?
      modifies Repr
      ensures Valid() && fresh(Repr - old(Repr)) && impl == old(impl)
      ensures impl.source.Valid() && impl.source.Look() == old(impl.source.Look())
      ensures impl.sub.value.Valid() && Answers(old(impl.sub.value.Look()), p, impl.sub.value.Look())
      decreases level, rank, 0
    {
      ghost var source := impl.source;
      p := impl.sub.value.Pull();
      assert source.Valid() && source.Repr == old(source.Repr) && source.Look() == old(source.Look());
      Adopt();
    }

    /** Takes in what the current sub-stream has come to own. */
    ghost method Adopt()
      requires impl.FlatMapImpl? && impl.sub.Some? && Owns(impl.source) && Above(impl.source) && impl.source.Valid()
      requires level > 0 && NestedIn(level - 1, impl.expand, impl.pending)
      requires NestedIn(level - 1, impl.expand, impl.source.Look().rest)
      requires var sub := impl.sub.value;
        sub in Repr && this !in sub.Repr && sub.level < level && sub.Valid() && sub.Repr !! impl.source.Repr
      modifies this`Repr
      ensures Repr == old(Repr) + impl.sub.value.Repr && Valid()
      ensures impl.source.Valid() && impl.source.Look() == old(impl.source.Look())
      ensures impl.sub.value.Valid() && impl.sub.value.Look() == old(impl.sub.value.Look())
    {
      Repr := Repr + impl.sub.value.Repr;
    }

    /** One pull of the current sub-stream, which is dropped when it is done. */
    method PullSub() returns (r: Option<seq<T>>)
      requires Valid() && impl.FlatMapImpl? && impl.sub.Some?
      modifies Repr
      ensures Valid() && fresh(Repr - old(Repr)) && impl.FlatMapImpl? && !old(Look()).done
      ensures Look().work < old(Look()).work
      ensures old(Look()).rest == (if r.Some? then r.value else []) + Look().rest
      decreases level, rank, 1
    {
      ghost var w, v := impl.sub.value.Look(), impl.source.Look();
      r := PullChild();
      SubAnswers(level - 1, impl.expand, w, r, impl.sub.value.Look(), impl.pending, v);
      if r.None? {
        DropSub();
      }
    }

    method DropSub()
      requires Valid() && impl.FlatMapImpl?
      modifies this
      ensures impl == old(impl).(sub := None) && Valid() && Repr == old(Repr)
      ensures impl.source.Valid() && impl.source.Look() == old(impl.source.Look())
    {
      impl := impl.(sub := None);
    }

    /** Opens the sub-stream of the first buffered element. */
    method OpenNext()
      requires Valid() && impl.FlatMapImpl? && impl.sub.None? && impl.pending != []
      modifies this
      ensures Valid() && fresh(Repr - old(Repr)) && impl.FlatMapImpl? && !old(Look()).done
      ensures Look().work < old(Look()).work && Look().rest == old(Look()).rest
    {
      ghost var v := impl.source.Look();
      OpenAnswers(level - 1, impl.expand, impl.pending, v);
      OpenFirst(v);
    }

    method OpenFirst(ghost v: View<T>)
      requires Valid() && impl.FlatMapImpl? && impl.sub.None? && impl.pending != [] && v == impl.source.Look()
      modifies this
      ensures Valid() && fresh(Repr - old(Repr)) && impl.FlatMapImpl?
      ensures var FlatMapImpl(_, expand, _, pending) := old(impl);
        var sub := Start(level - 1, expand(pending[0]).stages, expand(pending[0]).chunks);
        Look() == FlatMapView(level - 1, expand, Some(sub), pending[1..], v)
    {
      var sub := Open(impl.pending[0]);
      Install(sub, v);
    }

    /** Makes the stream of an element's pipeline. */
    method Open(x: T) returns (sub: Stream<T>)
      requires Valid() && impl.FlatMapImpl? && x in impl.pending
      ensures sub.Valid() && fresh(sub.Repr) && sub.level == level - 1
      ensures sub.Look() == Start(level - 1, impl.expand(x).stages, impl.expand(x).chunks)
    {
      sub := Build(impl.expand(x), level - 1);
    }

    /** The new sub-stream takes the place of its element. */
    method Install(sub: Stream<T>, ghost v: View<T>)
      requires Valid() && impl.FlatMapImpl? && impl.sub.None? && impl.pending != []
      requires sub.Valid() && sub.level < level && sub.Repr !! Repr && v == impl.source.Look()
      modifies this
      ensures impl == old(impl).(sub := Some(sub), pending := old(impl.pending)[1..])
      ensures Valid() && Repr == old(Repr) + sub.Repr
      ensures Look() == FlatMapView(level - 1, impl.expand, Some(old(sub.Look())), impl.pending, v)
    {
      assert forall x <- impl.pending[1..] :: x in impl.pending;
      Repr := Repr + sub.Repr;
      impl := impl.(sub := Some(sub), pending := impl.pending[1..]);
    }

    /** Buffers the elements of one source chunk. */
    method PullElements() returns (done: bool)
      requires Valid() && impl.FlatMapImpl? && impl.sub.None? && impl.pending == []
      modifies Repr
      ensures Valid() && fresh(Repr - old(Repr)) && impl.FlatMapImpl?
      ensures Look().rest == old(Look()).rest && (old(Look()).done ==> done)
      ensures done ==> Look().rest == [] && Look().done && Look().work <= old(Look()).work
      ensures !done ==> Look().work < old(Look()).work
      decreases level, rank, 1
    {
      ghost var v := impl.source.Look();
      var p := PullSource();
      ElementsAnswers(level - 1, impl.expand, v, p, impl.source.Look());
      if p.None? {
        return true;
      }
      impl := impl.(pending := p.value);
      done := false;
    }

    /** Buffers one source chunk, or notes that the source is done. */
    method BufferChunk()
      requires Valid() && impl.BatchImpl? && impl.size > 0 && !impl.upstreamDone
      modifies Repr
      ensures Valid() && fresh(Repr - old(Repr))
      ensures impl.BatchImpl? && impl.source == old(impl.source) && impl.size == old(impl.size)
      ensures Look().rest == old(Look()).rest && Look().work <= old(Look()).work && !old(Look()).done
      ensures impl.upstreamDone || impl.source.Look().work < old(impl.source.Look()).work
      decreases level, rank, 1
    {
      ghost var v := impl.source.Look();
      var p := PullSource();
      FillAnswers(impl.size, impl.buffer, v, p, impl.source.Look());
      impl := if p.None? then impl.(upstreamDone := true) else impl.(buffer := impl.buffer + p.value);
    }

    method FillBuffer()
      requires Valid() && impl.BatchImpl?
      modifies Repr
      ensures Valid() && fresh(Repr - old(Repr))
      ensures impl.BatchImpl? && impl.source == old(impl.source) && impl.size == old(impl.size)
      ensures |impl.buffer| >= impl.size || impl.upstreamDone
      ensures Look().rest == old(Look()).rest && Look().work <= old(Look()).work && (old(Look()).done ==> Look().done)
      decreases level, rank, 2
    {
      ghost var start := Look();
      while |impl.buffer| < impl.size && !impl.upstreamDone
        invariant Valid() && fresh(Repr - old(Repr))
        invariant impl.BatchImpl? && impl.source == old(impl.source) && impl.size == old(impl.size)
        invariant Look().rest == start.rest && Look().work <= start.work && (start.done ==> Look().done)
        decreases !impl.upstreamDone, impl.source.Look().work
      {
        BufferChunk();
      }
    }

    /** Repacks the source into chunks of `size` elements. */
    method PullBatch() returns (r: Option<seq<T>>)
      requires Valid() && impl.BatchImpl?
      modifies Repr
      ensures Valid() && fresh(Repr - old(Repr)) && Answers(old(Look()), r, Look())
      ensures old(impl).size > 0 && r.Some? ==> |r.value| == |Taken(old(impl).size, old(Look()).rest)|
      decreases level, rank, 3
    {
      ghost var start := Look();
      FillBuffer();
      var size, buffer := impl.size, impl.buffer;
      if buffer == [] {
        return None;
      }
      CutAnswers(start, size, buffer, impl.upstreamDone, impl.source.Look());
      var n := if size <= |buffer| then size else |buffer|;
      impl := impl.(buffer := buffer[n..]);
      r := Some(buffer[..n]);
    }

    /** A deep copy of the stream's state at the same position, sharing nothing with it. */
    method Clone() returns (c: Stream<T>)
      requires Valid()
      ensures c.Valid() && fresh(c.Repr) && c.Look() == old(Look()) && c.level == level
      decreases level, rank, 3
    {
      if impl.Chunks? {
        c := new Stream<T>.FromChunks(impl.chunks, level);
      } else if impl.FlatMapImpl? {
        c := CloneFlatMap();
      } else {
        var source := impl.source.Clone();
        c := new Stream<T>.Over(Rebased(impl, source), level);
      }
    }

    method CloneSub() returns (sub: Option<Stream<T>>)
      requires Valid() && impl.FlatMapImpl?
      ensures sub.Some? == impl.sub.Some?
      ensures sub.Some? ==>
        && sub.value.Valid() && fresh(sub.value.Repr)
        && sub.value.Look() == old(impl.sub.value.Look()) && sub.value.level == impl.sub.value.level
      decreases level, rank, 0
    {
      if impl.sub.None? {
        return None;
      }
      var c := impl.sub.value.Clone();
      sub := Some(c);
    }

    method CloneFlatMap() returns (c: Stream<T>)
      requires Valid() && impl.FlatMapImpl?
      ensures c.Valid() && fresh(c.Repr) && c.Look() == old(Look()) && c.level == level
      decreases level, rank, 2
    {
      var source, sub := CloneParts();
      c := Rejoined(source, sub);
    }

    method CloneParts() returns (source: Stream<T>, sub: Option<Stream<T>>)
      requires Valid() && impl.FlatMapImpl?
      ensures source.Valid() && fresh(source.Repr) && source.Look() == old(impl.source.Look())
      ensures source.level == impl.source.level && sub.Some? == impl.sub.Some?
      ensures sub.Some? ==>
        && sub.value.Valid() && fresh(sub.value.Repr) && sub.value.Repr !! source.Repr
        && sub.value.Look() == old(impl.sub.value.Look()) && sub.value.level == impl.sub.value.level
      decreases level, rank, 1
    {
      source := impl.source.Clone();
      sub := CloneSub();
    }

    /** The flat map over copies of what it is over. */
    method Rejoined(source: Stream<T>, sub: Option<Stream<T>>) returns (c: Stream<T>)
      requires Valid() && impl.FlatMapImpl? && source.Valid() && source.level <= level
      requires NestedIn(level - 1, impl.expand, source.Look().rest)
      requires sub.Some? ==> sub.value.Valid() && sub.value.level < level && sub.value.Repr !! source.Repr
      ensures c.Valid() && c.level == level
      ensures c.Repr == {c} + source.Repr + (if sub.Some? then sub.value.Repr else {}) && fresh(c)
      ensures c.Look() == FlatMapView(level - 1, impl.expand, if sub.Some? then Some(sub.value.Look()) else None,
                                      impl.pending, source.Look())
    {
      c := new Stream<T>.Over(FlatMapImpl(source, impl.expand, sub, impl.pending), level);
    }

    /** Pulls to the end: the elements that were left, in order; pulling again says done again. */
    method Collect() returns (out: seq<T>)
      requires Valid()
      modifies Repr
      ensures Valid() && fresh(Repr - old(Repr)) && Look().done
      ensures out == old(Look()).rest
    {
      out := [];
      ghost var all := Look().rest;
      while true
        invariant Valid() && fresh(Repr - old(Repr)) && all == out + Look().rest
        decreases Look().work
      {
        var r := Pull();
        if r.None? {
          return;
        }
        Regrouped(out, r.value, Look().rest);
        out := out + r.value;
      }
    }

    method Fold<A>(init: A, fn: (A, T) -> A) returns (acc: A)
      requires Valid()
      modifies Repr
      ensures Valid() && fresh(Repr - old(Repr)) && Look().done
      ensures acc == Folded(init, fn, old(Look()).rest)
    {
      acc := init;
      ghost var all := Folded(init, fn, Look().rest);
      while true
        invariant Valid() && fresh(Repr - old(Repr)) && Folded(acc, fn, Look().rest) == all
        decreases Look().work
      {
        var r := Pull();
        if r.None? {
          return;
        }
        FoldedAppend(acc, fn, r.value, Look().rest);
        acc := Folded(acc, fn, r.value);
      }
    }
  }

  function Folded<A, T>(init: A, fn: (A, T) -> A, s: seq<T>): A {
    if s == [] then init else Folded(fn(init, s[0]), fn, s[1..])
  }

  /** The fold takes the elements in order, one at a time. */
  lemma FoldedMore<A, T>(init: A, fn: (A, T) -> A, s: seq<T>, x: T)
    ensures Folded(init, fn, []) == init && Folded(init, fn, s + [x]) == fn(Folded(init, fn, s), x)
  {
    FoldedAppend(init, fn, s, [x]);
    var mid := Folded(init, fn, s);
    assert [x][1..] == [] && Folded(mid, fn, [x]) == Folded(fn(mid, x), fn, []);
  }

  lemma {:induction false} FoldedAppend<A, T>(init: A, fn: (A, T) -> A, a: seq<T>, b: seq<T>)
    ensures Folded(init, fn, a + b) == Folded(Folded(init, fn, a), fn, b)
  {
    if a == [] {
      assert a + b == b;
    } else {
      assert (a + b)[1..] == a[1..] + b;
      FoldedAppend(fn(init, a[0]), fn, a[1..], b);
    }
  }

  /** However far the stream has been pulled, a clone delivers what the stream would, and pulling
      either to the end takes nothing from the other. */
  method CloneIsIndependent<T(!new)>(s: Stream<T>, cloneFirst: bool) returns (a: seq<T>, b: seq<T>)
    requires s.Valid()
    modifies s.Repr
    ensures a == b == old(s.Look()).rest
  {
    var c := s.Clone();
    if cloneFirst {
      b := c.Collect();
      a := s.Collect();
    } else {
      a := s.Collect();
      b := c.Collect();
    }
  }

  // ---------------------------------------------------------------- pipelines

  /** Makes the stream of a pipeline. */
  method Build<T(!new)>(r: Recipe<T>, ghost d: nat) returns (s: Stream<T>)
    requires Nested(d, r.stages, Flat(r.chunks))
    ensures s.Valid() && fresh(s.Repr) && s.level == d && s.Look() == Start(d, r.stages, r.chunks)
  {
    s := new Stream<T>.FromChunks(r.chunks, d);
    for i := 0 to |r.stages|
      invariant s.Valid() && fresh(s.Repr) && s.level == d && s.Look() == Start(d, r.stages[..i], r.chunks)
    {
      assert r.stages[..i + 1][..i] == r.stages[..i];
      NestedPrefix(d, r.stages, Flat(r.chunks), i + 1);
      StartMeans(d, r.stages[..i], r.chunks);
      s := AddStage(s, r.stages[i]);
    }
    assert r.stages[..|r.stages|] == r.stages;
  }

  lemma {:induction false} NestedPrefix<T(!new)>(d: nat, stages: seq<Stage<T>>, s: seq<T>, i: nat)
    requires Nested(d, stages, s) && i <= |stages|
    ensures Nested(d, stages[..i], s)
    decreases |stages|
  {
    if i == |stages| {
      assert stages[..i] == stages;
    } else {
      var n := |stages| - 1;
      assert stages[..n][..i] == stages[..i];
      NestedPrefix(d, stages[..n], s, i);
    }
  }

  method AddStage<T(!new)>(source: Stream<T>, stage: Stage<T>) returns (s: Stream<T>)
    requires source.Valid() && (stage.FlatMap? ==>
      source.level > 0 && NestedIn(source.level - 1, stage.expand, source.Look().rest))
    ensures s.Valid() && fresh(s.Repr - source.Repr) && s.level == source.level
    ensures s.Look() == AddedView(s.level, stage, old(source.Look()))
  {
    var impl := match stage
      case Map(fn) => MapImpl(source, fn)
      case Filter(pred) => FilterImpl(source, pred)
      case Take(n) => TakeImpl(source, n)
      case FlatMap(expand) => FlatMapImpl(source, expand, None, [])
      case Batch(size) => BatchImpl(source, size, [], false);
    s := new Stream<T>.Over(impl, source.level);
  }

  /** The stream of a pipeline stands for what the sequence operations compute. */
  lemma {:induction false} StartMeans<T(!new)>(d: nat, stages: seq<Stage<T>>, chunks: seq<seq<T>>)
    requires Nested(d, stages, Flat(chunks))
    ensures Start(d, stages, chunks).rest == Apply(d, stages, Flat(chunks))
    decreases d, 0, |stages|
  {
    if stages != [] {
      var n := |stages| - 1;
      StartMeans(d, stages[..n], chunks);
      if stages[n].FlatMap? {
        var v, expand := Start(d, stages[..n], chunks), stages[n].expand;
        OpenedIsExpanded(d - 1, expand, v.rest);
        assert Opened(d - 1, expand, []) == [];
        assert FlatMapView(d - 1, expand, None, [], v).rest == Opened(d - 1, expand, v.rest);
      }
    }
  }

  lemma {:induction false} OpenedIsExpanded<T(!new)>(d: nat, expand: T -> Recipe<T>, s: seq<T>)
    requires NestedIn(d, expand, s)
    ensures Opened(d, expand, s) == Expanded(d, expand, s)
    decreases d, 1, |s|
  {
    if s != [] {
      StartMeans(d, expand(s[0]).stages, expand(s[0]).chunks);
      OpenedIsExpanded(d, expand, s[1..]);
    }
  }

  /** What a pipeline computes does not depend on the bound on its nesting. */
  lemma {:induction false} DepthDoesNotMatter<T(!new)>(d: nat, e: nat, stages: seq<Stage<T>>, s: seq<T>)
    requires d <= e && Nested(d, stages, s)
    ensures Nested(e, stages, s) && Apply(d, stages, s) == Apply(e, stages, s)
    decreases d, 0, |stages|
  {
    if stages != [] {
      var n := |stages| - 1;
      DepthDoesNotMatter(d, e, stages[..n], s);
      if stages[n].FlatMap? {
        SameExpansions(d - 1, e - 1, stages[n].expand, Apply(d, stages[..n], s));
      }
    }
  }

  lemma {:induction false} SameExpansions<T(!new)>(d: nat, e: nat, expand: T -> Recipe<T>, s: seq<T>)
    requires d <= e && NestedIn(d, expand, s)
    ensures NestedIn(e, expand, s) && Expanded(d, expand, s) == Expanded(e, expand, s)
    decreases d, 1, |s|
  {
    if s != [] {
      DepthDoesNotMatter(d, e, expand(s[0]).stages, Flat(expand(s[0]).chunks));
      SameExpansions(d, e, expand, s[1..]);
      assert s == [s[0]] + s[1..];
    }
  }

  /** Any pipeline of combinators over any chunking of a finite source, with pipelines for sub-streams,
      collects what the sequence operations compute: chunk boundaries, empty chunks included, never show. */
  method RunPipeline<T(!new)>(r: Recipe<T>, ghost d: nat) returns (out: seq<T>)
    requires Nested(d, r.stages, Flat(r.chunks))
    ensures out == Apply(d, r.stages, Flat(r.chunks))
  {
    var s := Build(r, d);
    StartMeans(d, r.stages, r.chunks);
    out := s.Collect();
  }
}
