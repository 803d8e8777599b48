/** Chunk handles over reference-counted buffers.  Several handles share one buffer; the last one to let
    go destroys its elements and frees it. */
module ArcBuf {
  import opened Sequences

  /** The header's uint32 lengths wrap here. */
  const WIDTH: nat := 0x1_0000_0000

  /** A buffer.  `owners` are the live handles on it, `loose` the shares held by a raw pointer in the middle
      of an operation, and `frees` counts how often its memory has been given back. */
  class Buffer<T> {
    var refs: int
    var length: nat
    var data: seq<T>
    ghost var owners: set<Chunk<T>>
    ghost var loose: nat
    ghost var frees: nat

    /** The count is the number of shares, the buffer has been freed exactly once if there are none and
        never otherwise, and until then the destructor knows all constructed elements. */
    ghost predicate Counted(live: set<Chunk<T>>)
      reads this, live
    {
      && refs == |owners| + loose
      && frees == (if refs == 0 then 1 else 0)
      && (refs != 0 ==> length == |data|)
      && forall c <- owners :: c in live && c.buf == this
    }

    constructor Alloc(data: seq<T>)
      ensures refs == 1 && length == |data| && this.data == data
      ensures owners == {} && loose == 1 && frees == 0
    {
      refs, length, this.data, owners, loose, frees := 1, |data|, data, {}, 1, 0;
    }

    /** A loose share becomes a handle's. */
    ghost method AddOwner(c: Chunk<T>)
      requires loose > 0 && c !in owners
      modifies this`owners, this`loose
      ensures owners == old(owners) + {c} && loose == old(loose) - 1 && |owners| + loose == old(|owners| + loose)
    {
      owners, loose := owners + {c}, loose - 1;
    }

    /** A handle's share becomes loose. */
    ghost method DropOwner(c: Chunk<T>)
      requires c in owners
      modifies this`owners, this`loose
      ensures owners == old(owners) - {c} && loose == old(loose) + 1 && |owners| + loose == old(|owners| + loose)
    {
      owners, loose := owners - {c}, loose + 1;
    }

    method Acquire()
      requires frees == 0
      modifies this
      ensures refs == old(refs) + 1 && loose == old(loose) + 1
      ensures length == old(length) && data == old(data) && owners == old(owners) && frees == 0
    {
      refs, loose := refs + 1, loose + 1;
    }

    /** Destroys the `length` constructed elements and frees the memory when the count was one. */
    method Release()
      requires frees == 0 && loose > 0 && length == |data|
      modifies this
      ensures refs == old(refs) - 1 && loose == old(loose) - 1
      ensures length == old(length) && owners == old(owners)
      ensures old(refs) == 1 ==> data == [] && frees == 1
      ensures old(refs) != 1 ==> data == old(data) && frees == 0
    {
      refs, loose := refs - 1, loose - 1;
      if refs == 0 {
        data := data[length..];
        frees := frees + 1;
      }
    }
  }

  /** Every live handle and every buffer ever made, with at most one share loose: that of `hand`. */
  ghost predicate Sound<T>(live: set<Chunk<T>>, bufs: set<Buffer<T>>, hand: Buffer?<T>)
    reads live, bufs
  {
    && (forall b <- bufs :: b.Counted(live) && b.loose == (if b == hand then 1 else 0))
    && (forall c <- live :: c.Framed(bufs))
    && (hand != null ==> hand in bufs)
  }

  /** The elements from off on, up to len of them. */
  function Window<T>(s: seq<T>, off: nat, len: nat): (w: seq<T>)
    ensures |w| == if off + len <= |s| then len else if off < |s| then |s| - off else 0
    ensures forall k | 0 <= k < |w| :: w[k] == s[off + k]
  {
    if off >= |s| then []
    else if len <= |s| - off then s[off..off + len] else s[off..]
  }

  ghost function Elements<X>(s: seq<X>): set<X> {
    set x | x in s
  }

  lemma Appended<X>(s: seq<X>, x: X)
    requires Distinct(s) && x !in s
    ensures Distinct(s + [x]) && Elements(s + [x]) == Elements(s) + {x}
  {
    assert forall i | 0 <= i < |s| :: s[i] in s;
  }

  lemma Removed<X>(s: seq<X>, i: nat)
    requires Distinct(s) && i < |s|
    ensures Distinct(s[..i] + s[i + 1..]) && Elements(s[..i] + s[i + 1..]) == Elements(s) - {s[i]}
  {
    var t := s[..i] + s[i + 1..];
    forall x ensures x in Elements(t) <==> x in Elements(s) && x != s[i] {
      if x in s && x != s[i] {
        var k :| 0 <= k < |s| && s[k] == x;
        assert t[if k < i then k else k - 1] == x;
      }
    }
  }

  lemma SliceOfSlice<T>(s: seq<T>, offset: nat, length: nat, off: nat, len: nat)
    requires offset + length <= |s| && off + len <= length
    ensures s[offset..offset + length][off..off + len] == s[offset + off..offset + off + len]
    ensures s[offset..offset + length][off..] == s[offset + off..offset + length]
  {
    var w := s[offset..offset + length];
    assert forall k {:trigger w[off..off + len][k]} | 0 <= k < len :: w[off..off + len][k] == s[offset + off..][k];
  }

  /** A handle: a window of a buffer, or nothing. */
  class Chunk<T> {
    var buf: Buffer?<T>
    var offset: nat
    var length: nat

    /** The window lies within constructed elements of a buffer that knows this handle. */
    ghost predicate Framed(bufs: set<Buffer<T>>)
      reads this, bufs
    {
      if buf == null then offset == 0 && length == 0
      else buf in bufs && this in buf.owners && offset + length <= |buf.data|
    }

    /** The elements seen through the handle. */
    function View(): seq<T>
      reads this, buf
    {
      if buf == null || offset + length > |buf.data| then [] else buf.data[offset..offset + length]
    }

    constructor ()
      ensures buf == null && offset == 0 && length == 0
    {
      buf, offset, length := null, 0, 0;
    }

    /** Takes the loose share of b, seen through a window of it. */
    method Attach(b: Buffer<T>, offset: nat, length: nat, ghost live: set<Chunk<T>>, ghost bufs: set<Buffer<T>>)
      requires Sound(live, bufs, b) && this in live && buf == null && offset + length <= |b.data|
      modifies this, b
      ensures Sound(live, bufs, null) && b.data == old(b.data)
      ensures View() == b.data[offset..offset + length]
    {
      assert this !in b.owners;
      buf, this.offset, this.length := b, offset, length;
      b.AddOwner(this);
      assert Framed(bufs);
      assert forall c <- live :: c != this ==> c.Framed(bufs);
    }

    /** Empties the handle and leaves its share, if any, loose. */
    method Detach(ghost live: set<Chunk<T>>, ghost bufs: set<Buffer<T>>) returns (b: Buffer?<T>)
      requires Sound(live, bufs, null) && this in live
      modifies this, buf
      ensures Sound(live, bufs, b) && b == old(buf) && buf == null
      ensures b != null ==> b.data == old(buf.data)
    {
      b := buf;
      if b != null {
        assert this in b.owners;
        b.DropOwner(this);
      }
      buf, offset, length := null, 0, 0;
    }

    /** Gives up this handle's share. */
    method Drop(ghost live: set<Chunk<T>>, ghost bufs: set<Buffer<T>>)
      requires Sound(live, bufs, null) && this in live
      modifies this, buf
      ensures Sound(live, bufs, null) && buf == null
      ensures forall d <- live - {this} :: d.View() == old(d.View())
    {
      var b := Detach(live, bufs);
      if b != null {
        b.Release();
      }
    }

    /** Another handle on the same buffer. */
    method Share(b: Buffer<T>, offset: nat, length: nat, ghost live: set<Chunk<T>>, ghost bufs: set<Buffer<T>>)
      requires Sound(live, bufs, null) && this in live && buf == null
      requires b in bufs && b.frees == 0 && offset + length <= |b.data|
      modifies this, b
      ensures Sound(live, bufs, null) && b.data == old(b.data)
      ensures View() == b.data[offset..offset + length]
    {
      b.Acquire();
      Attach(b, offset, length, live, bufs);
    }

    /** Takes the other's share over. */
    method Steal(o: Chunk<T>, ghost live: set<Chunk<T>>, ghost bufs: set<Buffer<T>>)
      requires Sound(live, bufs, null) && this in live && o in live && this != o && buf == null
      modifies this, o, o.buf
      ensures Sound(live, bufs, null) && o.buf == null && View() == old(o.View())
      ensures forall d <- live - {this, o} :: d.View() == old(d.View())
    {
      var off, len := o.offset, o.length;
      var b := o.Detach(live, bufs);
      if b != null {
        Attach(b, off, len, live, bufs);
      }
    }

    /** Another handle on the same buffer, over part of this window. */
    method Narrow(off: nat, len: nat, ghost live: set<Chunk<T>>, ghost bufs: set<Buffer<T>>) returns (c: Chunk<T>)
      requires Sound(live, bufs, null) && this in live && buf != null && off + len <= length
      modifies buf
      ensures fresh(c) && Sound(live + {c}, bufs, null)
      ensures |old(View())| == length && c.View() == old(View())[off..off + len]
      ensures forall d <- live :: d.View() == old(d.View())
    {
      assert Framed(bufs);
      SliceOfSlice(buf.data, offset, length, off, len);
      c := new Chunk<T>();
      c.Share(buf, offset + off, len, live + {c}, bufs);
    }

    method Copy(ghost live: set<Chunk<T>>, ghost bufs: set<Buffer<T>>) returns (c: Chunk<T>)
      requires Sound(live, bufs, null) && this in live
      modifies buf
      ensures fresh(c) && Sound(live + {c}, bufs, null)
      ensures c.View() == old(View()) && forall d <- live :: d.View() == old(d.View())
    {
      if buf == null {
        c := new Chunk<T>();
      } else {
        ghost var view := View();
        c := Narrow(0, length, live, bufs);
        assert view[0..length] == view;
      }
    }

    /** O(1) slicing: the two counts are clipped to the window. */
    method Slice(off: nat, len: nat, ghost live: set<Chunk<T>>, ghost bufs: set<Buffer<T>>) returns (c: Chunk<T>)
      requires Sound(live, bufs, null) && this in live
      modifies buf
      ensures fresh(c) && Sound(live + {c}, bufs, null)
      ensures c.View() == Window(old(View()), off, len) && forall d <- live :: d.View() == old(d.View())
    {
      var realLen := if buf == null || off >= length then 0 else if len <= length - off then len else length - off;
      if realLen == 0 {
        c := new Chunk<T>();
      } else {
        c := Narrow(off, realLen, live, bufs);
      }
    }

    method Move(ghost live: set<Chunk<T>>, ghost bufs: set<Buffer<T>>) returns (c: Chunk<T>)
      requires Sound(live, bufs, null) && this in live
      modifies this, buf
      ensures fresh(c) && Sound(live + {c}, bufs, null)
      ensures c.View() == old(View()) && View() == []
      ensures forall d <- live - {this} :: d.View() == old(d.View())
    {
      c := new Chunk<T>();
      c.Steal(this, live + {c}, bufs);
    }

    /** Copy assignment releases this handle's buffer before it acquires the other's, which may be the
        same one. */
    method Assign(o: Chunk<T>, ghost live: set<Chunk<T>>, ghost bufs: set<Buffer<T>>)
      requires Sound(live, bufs, null) && this in live && o in live
      modifies this, buf, o.buf
      ensures Sound(live, bufs, null)
      ensures View() == old(o.View()) && forall d <- live - {this} :: d.View() == old(d.View())
    {
      if this != o {
        Drop(live, bufs);
        if o.buf != null {
          Share(o.buf, o.offset, o.length, live, bufs);
        }
      }
    }

    method MoveAssign(o: Chunk<T>, ghost live: set<Chunk<T>>, ghost bufs: set<Buffer<T>>)
      requires Sound(live, bufs, null) && this in live && o in live
      modifies this, o, buf, o.buf
      ensures Sound(live, bufs, null)
      ensures View() == old(o.View()) && (this != o ==> o.View() == [])
      ensures forall d <- live - {this, o} :: d.View() == old(d.View())
    {
      if this != o {
        Drop(live, bufs);
        Steal(o, live, bufs);
      }
    }

    /** A handle on all of a new buffer. */
    static method Enclose(data: seq<T>, ghost live: set<Chunk<T>>, ghost bufs: set<Buffer<T>>)
      returns (c: Chunk<T>, ghost bufs': set<Buffer<T>>)
      requires Sound(live, bufs, null)
      ensures fresh(c) && Sound(live + {c}, bufs', null) && bufs <= bufs' && fresh(bufs' - bufs)
      ensures c.View() == data && |bufs'| == |bufs| + 1
    {
      c := new Chunk<T>();
      var b := new Buffer<T>.Alloc(data);
      bufs' := bufs + {b};
      c.Attach(b, 0, |data|, live + {c}, bufs');
    }

    /** A chunk of the first |data| modulo 2^32 elements: the count is narrowed to 32 bits. */
    static method From(data: seq<T>, ghost live: set<Chunk<T>>, ghost bufs: set<Buffer<T>>)
      returns (c: Chunk<T>, ghost bufs': set<Buffer<T>>)
      requires Sound(live, bufs, null)
      ensures fresh(c) && Sound(live + {c}, bufs', null) && bufs <= bufs' && fresh(bufs' - bufs)
      ensures c.View() == data[..|data| % WIDTH] && |bufs'| == |bufs| + if data == [] then 0 else 1
    {
      if data == [] {
        c := new Chunk<T>();
        return c, bufs;
      }
      c, bufs' := Enclose(data[..|data| % WIDTH], live, bufs);
    }

    /** A buffer that nothing was built in is released again. */
    static method Abandon(ghost live: set<Chunk<T>>, ghost bufs: set<Buffer<T>>)
      returns (c: Chunk<T>, ghost bufs': set<Buffer<T>>)
      requires Sound(live, bufs, null)
      ensures fresh(c) && Sound(live + {c}, bufs', null) && bufs <= bufs' && fresh(bufs' - bufs)
      ensures c.View() == [] && |bufs'| == |bufs| + 1
    {
      c := new Chunk<T>();
      var b := new Buffer<T>.Alloc([]);
      b.Release();
      bufs' := bufs + {b};
    }

    /** Builds in place: `written` is what the caller's function constructs in the buffer. */
    static method Build(capacity: nat, written: seq<T>, ghost live: set<Chunk<T>>, ghost bufs: set<Buffer<T>>)
      returns (c: Chunk<T>, ghost bufs': set<Buffer<T>>)
      requires Sound(live, bufs, null) && |written| <= capacity
      ensures fresh(c) && Sound(live + {c}, bufs', null) && bufs <= bufs' && fresh(bufs' - bufs)
      ensures c.View() == written && |bufs'| == |bufs| + if capacity == 0 then 0 else 1
    {
      if capacity == 0 {
        c := new Chunk<T>();
        return c, bufs;
      }
      if |written| == 0 {
        c, bufs' := Abandon(live, bufs);
      } else {
        c, bufs' := Enclose(written, live, bufs);
      }
    }
  }

  // ---------------------------------------------------------------- whole runs

  datatype Step<T> =
    | From(data: seq<T>)
    | Build(capacity: nat, written: seq<T>)
    | Copy(i: nat)
    | Move(i: nat)
    | Slice(i: nat, off: nat, len: nat)
    | Assign(i: nat, j: nat)
    | MoveAssign(i: nat, j: nat)
    | Destroy(i: nat)

  /** The step names live handles, and what is built fits. */
  predicate Fits<T>(n: nat, step: Step<T>) {
    match step
    case From(_) => true
    case Build(capacity, written) => |written| <= capacity
    case Assign(i, j) => i < n && j < n
    case MoveAssign(i, j) => i < n && j < n
    case _ => step.i < n
  }

  /** What a step does to the values of the handles when each of them is a sequence of its own. */
  function After<T>(step: Step<T>, views: seq<seq<T>>): seq<seq<T>>
    requires Fits(|views|, step)
  {
    match step
    case From(data) => views + [data[..|data| % WIDTH]]
    case Build(_, written) => views + [written]
    case Copy(i) => views + [views[i]]
    case Move(i) => views[i := []] + [views[i]]
    case Slice(i, off, len) => views + [Window(views[i], off, len)]
    case Assign(i, j) => views[i := views[j]]
    case MoveAssign(i, j) => if i == j then views else views[i := views[j]][j := []]
    case Destroy(i) => views[..i] + views[i + 1..]
  }

  /** How many buffers a step makes: copies, moves and slices make none. */
  function Makes<T>(step: Step<T>): nat {
    match step
    case From(data) => if data == [] then 0 else 1
    case Build(capacity, _) => if capacity == 0 then 0 else 1
    case _ => 0
  }

  /** The handles a program holds, with the buffers behind them. */
  class Program<T> {
    var handles: seq<Chunk<T>>
    ghost var live: set<Chunk<T>>
    ghost var bufs: set<Buffer<T>>

    ghost predicate Valid(views: seq<seq<T>>)
      reads this, live, bufs
    {
      && Sound(live, bufs, null)
      && Distinct(handles) && live == Elements(handles)
      && |handles| == |views|
      && forall i | 0 <= i < |handles| :: handles[i] in live && handles[i].View() == views[i]
    }

    constructor ()
      ensures Valid([]) && bufs == {}
    {
      handles, live, bufs := [], {}, {};
    }

    /** The steps that make a handle: its value, and what the other handles are left with. */
    method Make(step: Step<T>) returns (c: Chunk<T>)
      requires Sound(live, bufs, null) && live == Elements(handles) && Fits(|handles|, step)
      requires step.Copy? || step.Move? || step.Slice?
      modifies live, bufs
      ensures Sound(live + {c}, bufs, null) && fresh(c)
      ensures c.View() == var v := old(handles[step.i].View()); if step.Slice? then Window(v, step.off, step.len) else v
      ensures forall d <- live ::
        d.View() == if step.Move? && d == handles[step.i] then [] else old(d.View())
    {
      assert handles[step.i] in live;
      match step {
        case Copy(i) => c := handles[i].Copy(live, bufs);
        case Move(i) => c := handles[i].Move(live, bufs);
        case Slice(i, off, len) => c := handles[i].Slice(off, len, live, bufs);
      }
    }

    method Keep(c: Chunk<T>, ghost more: set<Buffer<T>>, ghost view: seq<T>, ghost views: seq<seq<T>>)
      requires Distinct(handles) && live == Elements(handles) && c !in live && |handles| == |views|
      requires Sound(live + {c}, more, null) && c.View() == view
      requires forall i | 0 <= i < |handles| :: handles[i] in live && handles[i].View() == views[i]
      modifies this
      ensures Valid(views + [view]) && live == old(live) + {c} && bufs == more
    {
      Appended(handles, c);
      handles, live, bufs := handles + [c], live + {c}, more;
    }

    method Forget(i: nat, ghost views: seq<seq<T>>)
      requires Distinct(handles) && live == Elements(handles) && i < |handles| == |views|
      requires Sound(live, bufs, null) && handles[i].buf == null
      requires forall k | 0 <= k < |handles| && k != i :: handles[k] in live && handles[k].View() == views[k]
      modifies this`handles, this`live
      ensures Valid(views[..i] + views[i + 1..]) && live <= old(live)
    {
      Removed(handles, i);
      live := live - {handles[i]};
      handles := handles[..i] + handles[i + 1..];
      forall k | 0 <= k < |handles|
        ensures handles[k] in live && handles[k].View() == (views[..i] + views[i + 1..])[k]
      {
        assert handles[k] == old(handles)[if k < i then k else k + 1];
      }
    }

    method Add(step: Step<T>, ghost views: seq<seq<T>>)
      requires Valid(views) && Fits(|views|, step)
      requires !(step.Assign? || step.MoveAssign? || step.Destroy?)
      modifies this, live, bufs
      ensures Valid(After(step, views)) && old(bufs) <= bufs && fresh(bufs - old(bufs)) && fresh(live - old(live))
      ensures |bufs| == |old(bufs)| + Makes(step)
    {
      var c;
      ghost var more := bufs;
      if step.From? {
        c, more := Chunk<T>.From(step.data, live, bufs);
      } else if step.Build? {
        c, more := Chunk<T>.Build(step.capacity, step.written, live, bufs);
      } else {
        c := Make(step);
      }
      Keep(c, more, c.View(), if step.Move? then views[step.i := []] else views);
    }

    method Destroy(i: nat, ghost views: seq<seq<T>>)
      requires Valid(views) && i < |views|
      modifies this, live, bufs
      ensures Valid(views[..i] + views[i + 1..]) && bufs == old(bufs) && live <= old(live)
    {
      handles[i].Drop(live, bufs);
      Forget(i, views);
    }

    method DestroyLast(ghost views: seq<seq<T>>)
      requires Valid(views) && |views| > 0
      modifies this, live, bufs
      ensures Valid(views[..|views| - 1]) && bufs == old(bufs) && live <= old(live)
    {
      var n := |handles|;
      Destroy(n - 1, views);
      assert views[..n - 1] + views[n..] == views[..n - 1];
    }

    method Overwrite(step: Step<T>, ghost views: seq<seq<T>>)
      requires Valid(views) && Fits(|views|, step) && (step.Assign? || step.MoveAssign?)
      modifies live, bufs
      ensures Valid(After(step, views))
    {
      var target, source := handles[step.i], handles[step.j];
      assert step.i != step.j ==> target != source;
      if step.Assign? {
        target.Assign(source, live, bufs);
      } else {
        target.MoveAssign(source, live, bufs);
      }
    }

    /** Runs one step: the handles then hold what independent sequences would. */
    method Do(step: Step<T>, ghost views: seq<seq<T>>)
      requires Valid(views) && Fits(|views|, step)
      modifies this, live, bufs
      ensures Valid(After(step, views)) && old(bufs) <= bufs && fresh(bufs - old(bufs)) && fresh(live - old(live))
      ensures |bufs| == |old(bufs)| + Makes(step)
    {
      match step {
        case Assign(_, _) => Overwrite(step, views);
        case MoveAssign(_, _) => Overwrite(step, views);
        case Destroy(i) => Destroy(i, views);
        case _ => Add(step, views);
      }
    }
  }

  /** The count of a buffer is the number of live handles that point at it, it has been freed once if there
      are none and never otherwise, and a handle's window lies within its elements. */
  lemma CountIsHandles<T>(live: set<Chunk<T>>, bufs: set<Buffer<T>>, b: Buffer<T>)
    requires Sound(live, bufs, null) && b in bufs
    ensures b.refs == |set c | c in live && c.buf == b|
    ensures b.frees == if exists c :: c in live && c.buf == b then 0 else 1
    ensures forall c <- live :: c.buf == b ==> c.offset + c.length <= b.length == |b.data|
  {
    assert b.owners == set c | c in live && c.buf == b;
    if b.owners != {} {
      var c :| c in b.owners;
    }
  }

  predicate AllFit<T>(steps: seq<Step<T>>, views: seq<seq<T>>) {
    steps == [] || (Fits(|views|, steps[0]) && AllFit(steps[1..], After(steps[0], views)))
  }

  function AfterAll<T>(steps: seq<Step<T>>, views: seq<seq<T>>): seq<seq<T>>
    requires AllFit(steps, views)
  {
    if steps == [] then views else AfterAll(steps[1..], After(steps[0], views))
  }

  function MadeBy<T>(steps: seq<Step<T>>): nat {
    if steps == [] then 0 else Makes(steps[0]) + MadeBy(steps[1..])
  }

  /** Any run of steps leaves the handles with what independent sequences would hold. */
  method RunSteps<T>(steps: seq<Step<T>>) returns (p: Program<T>)
    requires AllFit(steps, [])
    ensures fresh(p) && fresh(p.live) && fresh(p.bufs)
    ensures p.Valid(AfterAll(steps, [])) && |p.bufs| == MadeBy(steps)
  {
    p := new Program<T>();
    ghost var views := [];
    for i := 0 to |steps|
      invariant fresh(p) && fresh(p.live) && fresh(p.bufs) && p.Valid(views)
      invariant AllFit(steps[i..], views) && AfterAll(steps[i..], views) == AfterAll(steps, [])
      invariant |p.bufs| + MadeBy(steps[i..]) == MadeBy(steps)
    {
      p.Do(steps[i], views);
      views := After(steps[i], views);
      assert steps[i..][1..] == steps[i + 1..];
    }
  }

  /** When no handle is left every buffer ever made has been freed exactly once. */
  method DestroyAll<T>(p: Program<T>, ghost views: seq<seq<T>>)
    requires p.Valid(views)
    modifies p, p.live, p.bufs
    ensures p.Valid([]) && p.bufs == old(p.bufs) && forall b <- p.bufs :: b.refs == 0 && b.frees == 1
  {
    ghost var left := views;
    while |p.handles| > 0
      invariant p.Valid(left) && p.bufs == old(p.bufs) && p.live <= old(p.live)
      decreases |p.handles|
    {
      p.DestroyLast(left);
      left := left[..|left| - 1];
    }
    AllFreed(p);
  }

  lemma AllFreed<T>(p: Program<T>)
    requires p.Valid([])
    ensures forall b <- p.bufs :: b.refs == 0 && b.frees == 1
  {
    assert p.live == {};
    forall b <- p.bufs ensures b.refs == 0 && b.frees == 1 {
      CountIsHandles({}, p.bufs, b);
      assert b.owners == {};
    }
  }

  method ReadAll<T>(p: Program<T>, ghost views: seq<seq<T>>) returns (values: seq<seq<T>>)
    requires p.Valid(views)
    ensures values == views
  {
    values := [];
    for i := 0 to |p.handles|
      invariant values == views[..i]
    {
      values := values + [p.handles[i].View()];
    }
  }

  /** Any run of steps, and then the destruction of every handle left: what could be read through the handles
      is what independent sequences would hold, one buffer was made for each step that fills one, and in the
      end each of them has been freed exactly once. */
  method RunAndDestroy<T>(steps: seq<Step<T>>) returns (values: seq<seq<T>>, p: Program<T>)
    requires AllFit(steps, [])
    ensures values == AfterAll(steps, []) && |p.bufs| == MadeBy(steps)
    ensures p.Valid([]) && forall b <- p.bufs :: b.refs == 0 && b.frees == 1
  {
    p := RunSteps(steps);
    values := ReadAll(p, AfterAll(steps, []));
    DestroyAll(p, values);
  }
}
