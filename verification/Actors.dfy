/** The actor system: bounded channels, duplicate suppression at the receiver, lifecycles and the tick loop.
    What an actor does on a message is arbitrary: call number k of on_receive sends `onReceive(k)`. */
module Actors {

  /** The sender index that stands for the outside world: UINT32_MAX - 1. */
  const EXTERNAL: nat := 0xFFFF_FFFE

  datatype Envelope = Envelope(number: nat, from: nat, to: nat, payload: string)

  datatype Send = Send(to: nat, payload: string)

  datatype Actor = Actor(inbox: seq<Envelope>, seen: set<(nat, nat)>, nextSeq: nat, active: bool)

  /** Messages of one sender appear with strictly increasing numbers, hence never twice. */
  ghost predicate InOrder(line: seq<Envelope>) {
    forall j, k | 0 <= j < k < |line| ::
      line[j].from == line[k].from && line[j].from != EXTERNAL ==> line[j].number < line[k].number
  }

  /** The number the sender's next message will carry; `at` is the actor being ticked, whose context counts
      in `next`. */
  function NextOf(actors: seq<Actor>, at: int, next: nat, s: nat): nat
    requires s < |actors|
  {
    if s == at then next else actors[s].nextSeq
  }

  predicate Past(actors: seq<Actor>, at: int, next: nat, from: nat, number: nat) {
    from == EXTERNAL || (from < |actors| && number < NextOf(actors, at, next, from))
  }

  /** What r has handled, is about to handle, and has waiting. */
  function Line(actors: seq<Actor>, handled: seq<seq<Envelope>>, at: int, held: seq<Envelope>, r: nat): seq<Envelope>
    requires r < |actors| == |handled|
  {
    handled[r] + ((if r == at then held else []) + actors[r].inbox)
  }

  ghost predicate Fine(capacity: nat, actors: seq<Actor>, handled: seq<seq<Envelope>>, at: int, held: seq<Envelope>,
                       next: nat, r: nat)
    requires r < |actors| == |handled|
  {
    var line := Line(actors, handled, at, held, r);
    && |actors[r].inbox| <= capacity && InOrder(line)
    && (forall e <- line :: Past(actors, at, next, e.from, e.number))
    && (forall p <- actors[r].seen :: Past(actors, at, next, p.0, p.1))
  }

  ghost predicate Inv(capacity: nat, actors: seq<Actor>, handled: seq<seq<Envelope>>, at: int, held: seq<Envelope>,
                      next: nat) {
    && |actors| == |handled| && |actors| <= EXTERNAL
    && (0 <= at < |actors| ==> actors[at].nextSeq <= next)
    && forall r | 0 <= r < |actors| :: Fine(capacity, actors, handled, at, held, next, r)
  }

  lemma InOrderAppend(line: seq<Envelope>, e: Envelope)
    requires InOrder(line)
    requires forall x <- line :: x.from == e.from && e.from != EXTERNAL ==> x.number < e.number
    ensures InOrder(line + [e])
  {
  }

  lemma InOrderPrefix(line: seq<Envelope>, more: seq<Envelope>)
    requires InOrder(line + more)
    ensures InOrder(line)
  {
    assert forall k | 0 <= k < |line| :: (line + more)[k] == line[k];
  }

  /** A later message count leaves everything past. */
  lemma LaterIsFine(capacity: nat, actors: seq<Actor>, handled: seq<seq<Envelope>>, at: int, held: seq<Envelope>,
                    next: nat, next': nat, r: nat)
    requires r < |actors| == |handled| && next <= next'
    requires Fine(capacity, actors, handled, at, held, next, r)
    ensures Fine(capacity, actors, handled, at, held, next', r)
  {
  }

  /** One message reaches r's channel, or is noted and refused. */
  lemma DeliveredFine(capacity: nat, actors: seq<Actor>, handled: seq<seq<Envelope>>, at: int, held: seq<Envelope>,
                      next: nat, e: Envelope, pushed: bool)
    requires Inv(capacity, actors, handled, at, held, next) && e.to < |actors|
    requires Past(actors, at, next, e.from, e.number)
    requires pushed ==> |actors[e.to].inbox| < capacity
    requires pushed && e.from != EXTERNAL ==>
      forall x <- Line(actors, handled, at, held, e.to) :: x.from == e.from ==> x.number < e.number
    ensures
      var a := actors[e.to];
      var a' := a.(seen := a.seen + {(e.from, e.number)}, inbox := if pushed then a.inbox + [e] else a.inbox);
      Inv(capacity, actors[e.to := a'], handled, at, held, next)
  {
    var a := actors[e.to];
    var a' := a.(seen := a.seen + {(e.from, e.number)}, inbox := if pushed then a.inbox + [e] else a.inbox);
    var actors' := actors[e.to := a'];
    forall r | 0 <= r < |actors| ensures Fine(capacity, actors', handled, at, held, next, r) {
      assert Fine(capacity, actors, handled, at, held, next, r);
      var line := Line(actors, handled, at, held, r);
      if r == e.to && pushed {
        assert Line(actors', handled, at, held, r) == line + [e];
        InOrderAppend(line, e);
      } else {
        assert Line(actors', handled, at, held, r) == line;
      }
    }
  }

  /** Ticking never forgets what was seen, and leaves actors and lifecycles alone. */
  ghost predicate Later(a: seq<Actor>, b: seq<Actor>) {
    |a| == |b| && forall r | 0 <= r < |a| ::
      a[r].seen <= b[r].seen && a[r].active == b[r].active && a[r].nextSeq <= b[r].nextSeq
  }

  /** The target exists, is not dormant, has not seen the message, and has room. */
  predicate Accepts(actors: seq<Actor>, capacity: nat, e: Envelope) {
    && e.to < |actors| && actors[e.to].active
    && (e.from, e.number) !in actors[e.to].seen && |actors[e.to].inbox| < capacity
  }

  /** What delivering a message does: a live target marks it as seen, and queues it if it accepts it. */
  function Delivered(actors: seq<Actor>, capacity: nat, e: Envelope): (actors': seq<Actor>)
    ensures |actors'| == |actors|
  {
    if e.to >= |actors| || !actors[e.to].active then actors
    else
      var a := actors[e.to];
      actors[e.to := a.(seen := a.seen + {(e.from, e.number)},
                        inbox := if Accepts(actors, capacity, e) then a.inbox + [e] else a.inbox)]
  }

  /** The sends of one on_receive, numbered from `next`. */
  function SentAll(actors: seq<Actor>, capacity: nat, self: nat, sends: seq<Send>, next: nat): (actors': seq<Actor>)
    ensures |actors'| == |actors|
  {
    if sends == [] then actors
    else
      var n := |sends| - 1;
      Delivered(SentAll(actors, capacity, self, sends[..n], next), capacity,
                Envelope(next + n, self, sends[n].to, sends[n].payload))
  }

  /** The sends of a number of calls of on_receive, and the number the next send will carry. */
  function CallsMade(actors: seq<Actor>, capacity: nat, onReceive: nat -> seq<Send>, self: nat, next: nat, call: nat,
                     n: nat):
      (r: (seq<Actor>, nat))
    ensures |r.0| == |actors|
  {
    if n == 0 then (actors, next)
    else
      var (before, from) := CallsMade(actors, capacity, onReceive, self, next, call, n - 1);
      var sends := onReceive(call + n - 1);
      (SentAll(before, capacity, self, sends, from), from + |sends|)
  }

  lemma OneMoreSend(actors: seq<Actor>, capacity: nat, self: nat, sends: seq<Send>, next: nat, i: nat)
    requires i < |sends|
    ensures SentAll(actors, capacity, self, sends[..i + 1], next)
      == Delivered(SentAll(actors, capacity, self, sends[..i], next), capacity,
                   Envelope(next + i, self, sends[i].to, sends[i].payload))
  {
    assert sends[..i + 1][..i] == sends[..i];
  }

  lemma OneMoreCall(actors: seq<Actor>, capacity: nat, onReceive: nat -> seq<Send>, self: nat, next: nat, call: nat,
                    n: nat,
                    made: seq<Actor>, from: nat)
    requires (made, from) == CallsMade(actors, capacity, onReceive, self, next, call, n)
    ensures var sends := onReceive(call + n);
      CallsMade(actors, capacity, onReceive, self, next, call, n + 1)
      == (SentAll(made, capacity, self, sends, from), from + |sends|)
  {
  }

  // ---------------------------------------------------------------- what was delivered

  /** An envelope given to a receiver's channel, and the answer. */
  datatype Delivery = Delivery(e: Envelope, ok: bool)

  /** The messages for r whose delivery answered true. */
  function Accepted(log: seq<Delivery>, r: nat): seq<Envelope> {
    if log == [] then []
    else
      var d := log[|log| - 1];
      Accepted(log[..|log| - 1], r) + if d.ok && d.e.to == r then [d.e] else []
  }

  lemma {:induction false} AcceptedAppend(a: seq<Delivery>, b: seq<Delivery>, r: nat)
    ensures Accepted(a + b, r) == Accepted(a, r) + Accepted(b, r)
  {
    if b == [] {
      assert a + b == a;
    } else {
      var n := |b| - 1;
      assert (a + b)[..|a + b| - 1] == a + b[..n];
      AcceptedAppend(a, b[..n], r);
    }
  }

  lemma AcceptedOne(d: Delivery, r: nat)
    ensures Accepted([d], r) == if d.ok && d.e.to == r then [d.e] else []
  {
    assert [d][..0] == [];
  }

  /** Every receiver's line, handled and waiting, has got longer by what was accepted for it. */
  ghost predicate Grown(before: seq<seq<Envelope>>, after: seq<seq<Envelope>>, more: seq<Delivery>) {
    |before| <= |after| && forall r | 0 <= r < |before| :: after[r] == before[r] + Accepted(more, r)
  }

  lemma NothingGrows(lines: seq<seq<Envelope>>, log: seq<Delivery>)
    ensures Grown(lines, lines, log[|log|..])
  {
  }

  lemma GrownOn(a: seq<seq<Envelope>>, b: seq<seq<Envelope>>, c: seq<seq<Envelope>>,
                x: seq<Delivery>, y: seq<Delivery>, z: seq<Delivery>)
    requires x <= y <= z && Grown(a, b, y[|x|..]) && Grown(b, c, z[|y|..])
    ensures Grown(a, c, z[|x|..])
  {
    assert z[|x|..] == y[|x|..] + z[|y|..];
    forall r | 0 <= r < |a| ensures c[r] == a[r] + Accepted(z[|x|..], r) {
      AcceptedAppend(y[|x|..], z[|y|..], r);
    }
  }

  /** The lines of all receivers. */
  ghost function Lines(actors: seq<Actor>, handled: seq<seq<Envelope>>, at: int, held: seq<Envelope>):
      (lines: seq<seq<Envelope>>)
    requires |actors| == |handled|
    ensures |lines| == |actors| && forall r | 0 <= r < |lines| :: lines[r] == Line(actors, handled, at, held, r)
  {
    seq(|actors|, r requires 0 <= r < |actors| => Line(actors, handled, at, held, r))
  }

  /** The envelopes of one on_receive's sends. */
  function Numbered(self: nat, sends: seq<Send>, next: nat): (es: seq<Envelope>)
    ensures |es| == |sends|
  {
    seq(|sends|, i requires 0 <= i < |sends| => Envelope(next + i, self, sends[i].to, sends[i].payload))
  }

  /** The envelopes of a number of calls, numbered on from call to call. */
  function CallSends(onReceive: nat -> seq<Send>, self: nat, next: nat, call: nat, n: nat): seq<Envelope> {
    if n == 0 then []
    else
      var before := CallSends(onReceive, self, next, call, n - 1);
      before + Numbered(self, onReceive(call + n - 1), next + |before|)
  }

  lemma {:induction false} CallSendsFrom(onReceive: nat -> seq<Send>, self: nat, next: nat, call: nat, n: nat)
    ensures forall i | 0 <= i < |CallSends(onReceive, self, next, call, n)| ::
      CallSends(onReceive, self, next, call, n)[i].from == self
  {
    if n > 0 {
      CallSendsFrom(onReceive, self, next, call, n - 1);
    }
  }

  /** Deliveries by senders in the order of their references, from the given place on. */
  ghost predicate BySender(log: seq<Delivery>, start: nat, below: nat) {
    && (forall k | start <= k < |log| :: log[k].e.from < below)
    && (forall j, k | start <= j < k < |log| :: log[j].e.from <= log[k].e.from)
  }

  lemma BySenderMore(log: seq<Delivery>, start: nat, i: nat, log': seq<Delivery>)
    requires BySender(log, start, i) && log <= log' && start <= |log|
    requires forall k | 0 <= k < |log'| - |log| :: Envelopes(log'[|log|..])[k].from == i
    ensures BySender(log', start, i + 1)
  {
    forall k | |log| <= k < |log'| ensures log'[k].e.from == i {
      assert Envelopes(log'[|log|..])[k - |log|] == log'[k].e;
    }
  }

  function Envelopes(log: seq<Delivery>): (es: seq<Envelope>)
    ensures |es| == |log| && forall i | 0 <= i < |log| :: es[i] == log[i].e
  {
    seq(|log|, i requires 0 <= i < |log| => log[i].e)
  }

  lemma MoreEnvelopes(x: seq<Delivery>, y: seq<Delivery>, z: seq<Delivery>)
    requires x <= y <= z
    ensures Envelopes(z[|x|..]) == Envelopes(y[|x|..]) + Envelopes(z[|y|..])
  {
    assert z[|x|..] == y[|x|..] + z[|y|..];
  }

  lemma DeliveredGrows(actors: seq<Actor>, handled: seq<seq<Envelope>>, capacity: nat, e: Envelope, at: int,
                       held: seq<Envelope>)
    requires |actors| == |handled|
    ensures Grown(Lines(actors, handled, at, held), Lines(Delivered(actors, capacity, e), handled, at, held),
                  [Delivery(e, Accepts(actors, capacity, e))])
  {
    var more := [Delivery(e, Accepts(actors, capacity, e))];
    var actors' := Delivered(actors, capacity, e);
    forall r | 0 <= r < |actors|
      ensures Line(actors', handled, at, held, r) == Line(actors, handled, at, held, r) + Accepted(more, r)
    {
      AcceptedOne(more[0], r);
    }
  }

  /** All there is to tell of the system: its actors, how many messages were handled, and which by whom. */
  datatype World = World(actors: seq<Actor>, calls: nat, handled: seq<seq<Envelope>>)

  class ActorSystem {
    const capacity: nat
    const onReceive: nat -> seq<Send>
    var actors: seq<Actor>
    /** Messages handled so far. */
    var calls: nat
    ghost var handled: seq<seq<Envelope>>
    /** Every delivery with its answer. */
    ghost var log: seq<Delivery>

    ghost predicate Valid()
      reads this
    {
      Inv(capacity, actors, handled, -1, [], 0)
    }

    ghost function Now(): World
      reads this
    {
      World(actors, calls, handled)
    }

    /** Since the log was `earlier` every line has grown by what was accepted. */
    ghost predicate Logged(before: seq<seq<Envelope>>, earlier: seq<Delivery>, at: int, held: seq<Envelope>)
      reads this
    {
      && |actors| == |handled| && earlier <= log
      && Grown(before, Lines(actors, handled, at, held), log[|earlier|..])
    }

    constructor (capacity: nat, onReceive: nat -> seq<Send>)
      ensures Valid() && actors == [] && this.capacity == capacity && this.onReceive == onReceive
    {
      this.capacity, this.onReceive, actors, calls, handled, log := capacity, onReceive, [], 0, [], [];
    }

    /** Refuses a bad or dormant target, then a duplicate, then a full channel; the message counts as seen
        even if the channel refuses it. */
    method Deliver(e: Envelope, ghost at: int, ghost held: seq<Envelope>, ghost next: nat) returns (ok: bool)
      requires Inv(capacity, actors, handled, at, held, next) && Past(actors, at, next, e.from, e.number)
      requires e.to < |actors| && e.from != EXTERNAL ==>
        forall x <- Line(actors, handled, at, held, e.to) :: x.from == e.from ==> x.number < e.number
      modifies `actors, `log
      ensures Inv(capacity, actors, handled, at, held, next) && Later(old(actors), actors)
      ensures ok == Accepts(old(actors), capacity, e) && actors == Delivered(old(actors), capacity, e)
      ensures log == old(log) + [Delivery(e, ok)]
      ensures Logged(old(Lines(actors, handled, at, held)), old(log), at, held)
    {
      DeliveredGrows(actors, handled, capacity, e, at, held);
      ok := Push(e, at, held, next);
      log := log + [Delivery(e, ok)];
    }

    method Push(e: Envelope, ghost at: int, ghost held: seq<Envelope>, ghost next: nat) returns (ok: bool)
      requires Inv(capacity, actors, handled, at, held, next) && Past(actors, at, next, e.from, e.number)
      requires e.to < |actors| && e.from != EXTERNAL ==>
        forall x <- Line(actors, handled, at, held, e.to) :: x.from == e.from ==> x.number < e.number
      modifies `actors
      ensures Inv(capacity, actors, handled, at, held, next) && Later(old(actors), actors)
      ensures ok == Accepts(old(actors), capacity, e) && actors == Delivered(old(actors), capacity, e)
    {
      if e.to >= |actors| {
        return false;
      }
      var a := actors[e.to];
      if !a.active {
        return false;
      }
      if (e.from, e.number) in a.seen {
        assert a.seen + {(e.from, e.number)} == a.seen && actors[e.to := a] == actors;
        return false;
      }
      ok := |a.inbox| < capacity;
      DeliveredFine(capacity, actors, handled, at, held, next, e, ok);
      var inbox := if ok then a.inbox + [e] else a.inbox;
      actors := actors[e.to := a.(seen := a.seen + {(e.from, e.number)}, inbox := inbox)];
    }

    /** A message from outside always carries number 0. */
    method Inject(to: nat, payload: string) returns (ok: bool)
      requires Valid()
      modifies `actors, `log
      ensures Valid() && Later(old(actors), actors)
      ensures log == old(log) + [Delivery(Envelope(0, EXTERNAL, to, payload), ok)]
      ensures Logged(old(Lines(actors, handled, -1, [])), old(log), -1, [])
      ensures ok == Accepts(old(actors), capacity, Envelope(0, EXTERNAL, to, payload))
      ensures actors == Delivered(old(actors), capacity, Envelope(0, EXTERNAL, to, payload))
      ensures to < |actors| && actors[to].active ==> (EXTERNAL, 0) in actors[to].seen
    {
      ok := Deliver(Envelope(0, EXTERNAL, to, payload), -1, [], 0);
    }

    /** A send from on_receive: refused only for a bad, dormant or full target, never as a duplicate. */
    method SendFrom(self: nat, send: Send, next: nat, ghost held: seq<Envelope>) returns (ok: bool, next': nat)
      requires self < |actors| && Inv(capacity, actors, handled, self, held, next)
      modifies `actors, `log
      ensures Inv(capacity, actors, handled, self, held, next') && Later(old(actors), actors) && next' == next + 1
      ensures log == old(log) + [Delivery(Envelope(next, self, send.to, send.payload), ok)]
      ensures Logged(old(Lines(actors, handled, self, held)), old(log), self, held)
      ensures ok <==> send.to < |actors| && old(actors)[send.to].active && |old(actors)[send.to].inbox| < capacity
      ensures actors == Delivered(old(actors), capacity, Envelope(next, self, send.to, send.payload))
    {
      next' := next + 1;
      forall r | 0 <= r < |actors| ensures Fine(capacity, actors, handled, self, held, next', r) {
        LaterIsFine(capacity, actors, handled, self, held, next, next', r);
      }
      assert send.to < |actors| ==> Fine(capacity, actors, handled, self, held, next, send.to);
      ok := Deliver(Envelope(next, self, send.to, send.payload), self, held, next');
    }

    /** Runs on_receive for the first held message. */
    method Handle(self: nat, held: seq<Envelope>, next: nat) returns (next': nat)
      requires self < |actors| && held != [] && Inv(capacity, actors, handled, self, held, next)
      modifies this
      ensures Inv(capacity, actors, handled, self, held[1..], next') && Later(old(actors), actors)
      ensures calls == old(calls) + 1 && handled == old(handled)[self := old(handled)[self] + [held[0]]]
      ensures var sends := onReceive(old(calls));
        && actors == SentAll(old(actors), capacity, self, sends, next) && next' == next + |sends|
        && old(log) <= log && Envelopes(log[|old(log)|..]) == Numbered(self, sends, next)
      ensures Logged(old(Lines(actors, handled, self, held)), old(log), self, held[1..])
    {
      ghost var was := handled;
      ghost var lines := Lines(actors, handled, self, held);
      handled := handled[self := handled[self] + [held[0]]];
      forall r | 0 <= r < |actors|
        ensures Line(actors, handled, self, held[1..], r) == lines[r]
        ensures Fine(capacity, actors, handled, self, held[1..], next, r)
      {
        assert Fine(capacity, actors, was, self, held, next, r);
        assert Line(actors, handled, self, held[1..], r) == Line(actors, was, self, held, r);
      }
      assert Lines(actors, handled, self, held[1..]) == lines;
      var sends := onReceive(calls);
      calls := calls + 1;
      next' := SendEach(self, sends, next, held[1..]);
    }

    /** The first i sends have been delivered, with these envelopes. */
    ghost predicate Sending(self: nat, sends: seq<Send>, i: nat, from: nat, earlier: seq<Delivery>)
      reads this
    {
      && i <= |sends| && earlier <= log && |log| == |earlier| + i
      && forall k | 0 <= k < i ::
        log[|earlier| + k].e == Envelope(from + k, self, sends[k].to, sends[k].payload)
    }

    method SendOn(self: nat, sends: seq<Send>, i: nat, from: nat, ghost held: seq<Envelope>,
                  ghost lines: seq<seq<Envelope>>, ghost earlier: seq<Delivery>)
      requires self < |actors| && i < |sends| && Inv(capacity, actors, handled, self, held, from + i)
      requires Logged(lines, earlier, self, held) && Sending(self, sends, i, from, earlier)
      modifies `actors, `log
      ensures Inv(capacity, actors, handled, self, held, from + i + 1) && Later(old(actors), actors)
      ensures actors ==
        Delivered(old(actors), capacity, Envelope(from + i, self, sends[i].to, sends[i].payload))
      ensures Logged(lines, earlier, self, held) && Sending(self, sends, i + 1, from, earlier)
    {
      ghost var mid, before := Lines(actors, handled, self, held), log;
      var ok, next := SendFrom(self, sends[i], from + i, held);
      GrownOn(lines, mid, Lines(actors, handled, self, held), earlier, before, log);
    }

    /** The sends of one on_receive, one after the other. */
    method SendEach(self: nat, sends: seq<Send>, next: nat, ghost held: seq<Envelope>) returns (next': nat)
      requires self < |actors| && Inv(capacity, actors, handled, self, held, next)
      modifies `actors, `log
      ensures Inv(capacity, actors, handled, self, held, next') && Later(old(actors), actors)
      ensures actors == SentAll(old(actors), capacity, self, sends, next) && next' == next + |sends|
      ensures old(log) <= log && Envelopes(log[|old(log)|..]) == Numbered(self, sends, next)
      ensures Logged(old(Lines(actors, handled, self, held)), old(log), self, held)
    {
      ghost var lines := Lines(actors, handled, self, held);
      NothingGrows(lines, log);
      for i := 0 to |sends|
        invariant Inv(capacity, actors, handled, self, held, next + i) && Later(old(actors), actors)
        invariant actors == SentAll(old(actors), capacity, self, sends[..i], next)
        invariant Logged(lines, old(log), self, held) && Sending(self, sends, i, next, old(log))
      {
        OneMoreSend(old(actors), capacity, self, sends, next, i);
        SendOn(self, sends, i, next, held, lines, old(log));
      }
      assert sends[..|sends|] == sends;
      next' := next + |sends|;
    }

    /** The actors after a tick: the inbox is emptied, each message's sends are delivered in order, and the
        sender's count is stored at the end. */
    function Ticked(before: seq<Actor>, call: nat, ref: nat): (after: seq<Actor>)
      requires ref < |before|
      ensures |after| == |before|
    {
      var a := before[ref];
      var taken := before[ref := a.(inbox := [])];
      var (after, next) := CallsMade(taken, capacity, onReceive, ref, a.nextSeq, call, |a.inbox|);
      after[ref := after[ref].(nextSeq := next)]
    }

    /** A tick takes the whole inbox of an active actor and handles it in order. */
    function AfterTick(w: World, ref: nat): (w': World)
      requires |w.actors| == |w.handled|
      ensures |w'.actors| == |w'.handled| == |w.actors|
    {
      if ref >= |w.actors| || !w.actors[ref].active || w.actors[ref].inbox == [] then w
      else
        var inbox := w.actors[ref].inbox;
        World(Ticked(w.actors, w.calls, ref), w.calls + |inbox|, w.handled[ref := w.handled[ref] + inbox])
    }

    method Tick(ref: nat) returns (processed: nat)
      requires Valid()
      modifies this
      ensures Valid() && Later(old(actors), actors) && calls == old(calls) + processed
      ensures Now() == AfterTick(old(Now()), ref)
      ensures Logged(old(Lines(actors, handled, -1, [])), old(log), -1, [])
      ensures processed ==
        if ref < |old(actors)| && old(actors)[ref].active then |old(actors)[ref].inbox| else 0
      ensures forall r | 0 <= r < |handled| ::
        handled[r] == old(handled)[r] + if r == ref && processed > 0 then old(actors)[ref].inbox else []
      ensures old(log) <= log && Envelopes(log[|old(log)|..]) ==
        if processed == 0 then [] else CallSends(onReceive, ref, old(actors)[ref].nextSeq, old(calls), processed)
    {
      NothingGrows(Lines(actors, handled, -1, []), log);
      if ref >= |actors| || !actors[ref].active || actors[ref].inbox == [] {
        return 0;
      }
      var chunk, next := actors[ref].inbox, actors[ref].nextSeq;
      TakeInbox(ref);
      next := HandleAll(ref, chunk, next);
      StoreNext(ref, next);
      processed := |chunk|;
    }

    /** The first i messages of a chunk have been handled. */
    ghost predicate Handled(self: nat, chunk: seq<Envelope>, i: nat, next: nat, was: World, from: nat)
      requires i <= |chunk| && self < |was.handled|
      reads this
    {
      && calls == was.calls + i
      && handled == was.handled[self := was.handled[self] + chunk[..i]]
      && (actors, next) == CallsMade(was.actors, capacity, onReceive, self, from, was.calls, i)
    }

    /** So have their sends been delivered. */
    ghost predicate SentBy(self: nat, i: nat, next: nat, call: nat, from: nat, earlier: seq<Delivery>)
      reads this
    {
      var es := CallSends(onReceive, self, from, call, i);
      earlier <= log && Envelopes(log[|earlier|..]) == es && next == from + |es|
    }

    method HandleAt(self: nat, chunk: seq<Envelope>, i: nat, next: nat, ghost was: World, ghost from: nat)
      returns (next': nat)
      requires self < |actors| && i < |chunk| && Inv(capacity, actors, handled, self, chunk[i..], next)
      requires self < |was.handled| && Handled(self, chunk, i, next, was, from)
      modifies this
      ensures Inv(capacity, actors, handled, self, chunk[i + 1..], next') && Later(old(actors), actors)
      ensures Handled(self, chunk, i + 1, next', was, from)
      ensures Logged(old(Lines(actors, handled, self, chunk[i..])), old(log), self, chunk[i + 1..])
      ensures old(log) <= log && Envelopes(log[|old(log)|..]) == Numbered(self, onReceive(old(calls)), next)
      ensures next' == next + |onReceive(old(calls))|
    {
      assert chunk[i..][1..] == chunk[i + 1..];
      assert (was.handled[self] + chunk[..i]) + [chunk[i]] == was.handled[self] + chunk[..i + 1];
      OneMoreCall(was.actors, capacity, onReceive, self, from, was.calls, i, actors, next);
      next' := Handle(self, chunk[i..], next);
    }

    /** Handles one message of a chunk and keeps the books. */
    method HandleOn(self: nat, chunk: seq<Envelope>, i: nat, next: nat, ghost was: World, ghost from: nat,
                    ghost lines: seq<seq<Envelope>>, ghost earlier: seq<Delivery>)
      returns (next': nat)
      requires self < |actors| && i < |chunk| && Inv(capacity, actors, handled, self, chunk[i..], next)
      requires self < |was.handled| && Handled(self, chunk, i, next, was, from)
      requires Logged(lines, earlier, self, chunk[i..]) && SentBy(self, i, next, was.calls, from, earlier)
      modifies this
      ensures Inv(capacity, actors, handled, self, chunk[i + 1..], next') && Later(old(actors), actors)
      ensures Handled(self, chunk, i + 1, next', was, from)
      ensures Logged(lines, earlier, self, chunk[i + 1..]) && SentBy(self, i + 1, next', was.calls, from, earlier)
    {
      ghost var mid, before := Lines(actors, handled, self, chunk[i..]), log;
      next' := HandleAt(self, chunk, i, next, was, from);
      GrownOn(lines, mid, Lines(actors, handled, self, chunk[i + 1..]), earlier, before, log);
      MoreEnvelopes(earlier, before, log);
    }

    method HandleAll(self: nat, chunk: seq<Envelope>, next: nat) returns (next': nat)
      requires self < |actors| && Inv(capacity, actors, handled, self, chunk, next)
      modifies this
      ensures Inv(capacity, actors, handled, self, [], next') && Later(old(actors), actors)
      ensures calls == old(calls) + |chunk| && handled == old(handled)[self := old(handled)[self] + chunk]
      ensures (actors, next') == CallsMade(old(actors), capacity, onReceive, self, next, old(calls), |chunk|)
      ensures Logged(old(Lines(actors, handled, self, chunk)), old(log), self, [])
      ensures SentBy(self, |chunk|, next', old(calls), next, old(log))
    {
      next' := next;
      ghost var lines := Lines(actors, handled, self, chunk);
      NothingGrows(lines, log);
      assert handled[self] + chunk[..0] == handled[self] && chunk[0..] == chunk;
      for i := 0 to |chunk|
        invariant Inv(capacity, actors, handled, self, chunk[i..], next') && Later(old(actors), actors)
        invariant |old(handled)| == |actors| && Handled(self, chunk, i, next', old(Now()), next)
        invariant Logged(lines, old(log), self, chunk[i..]) && SentBy(self, i, next', old(calls), next, old(log))
      {
        next' := HandleOn(self, chunk, i, next', old(Now()), next, lines, old(log));
      }
      assert chunk[|chunk|..] == [] && chunk[..|chunk|] == chunk;
    }

    method TakeInbox(ref: nat)
      requires Valid() && ref < |actors|
      modifies `actors
      ensures Inv(capacity, actors, handled, ref, old(actors)[ref].inbox, old(actors)[ref].nextSeq)
      ensures actors == old(actors)[ref := old(actors)[ref].(inbox := [])]
      ensures Later(old(actors), actors)
      ensures Lines(actors, handled, ref, old(actors)[ref].inbox) == old(Lines(actors, handled, -1, []))
    {
      ghost var before, lines := actors, Lines(actors, handled, -1, []);
      actors := actors[ref := actors[ref].(inbox := [])];
      forall r | 0 <= r < |actors|
        ensures Line(actors, handled, ref, before[ref].inbox, r) == lines[r]
        ensures Fine(capacity, actors, handled, ref, before[ref].inbox, before[ref].nextSeq, r)
      {
        assert Fine(capacity, before, handled, -1, [], 0, r);
        assert Line(actors, handled, ref, before[ref].inbox, r) == Line(before, handled, -1, [], r);
      }
      assert Lines(actors, handled, ref, before[ref].inbox) == lines;
    }

    method StoreNext(ref: nat, next: nat)
      requires ref < |actors| && Inv(capacity, actors, handled, ref, [], next)
      modifies `actors
      ensures Valid() && Later(old(actors), actors)
      ensures actors == old(actors)[ref := old(actors)[ref].(nextSeq := next)]
      ensures Lines(actors, handled, -1, []) == old(Lines(actors, handled, ref, []))
    {
      ghost var before, lines := actors, Lines(actors, handled, ref, []);
      actors := actors[ref := actors[ref].(nextSeq := next)];
      forall r | 0 <= r < |actors|
        ensures Line(actors, handled, -1, [], r) == lines[r] && Fine(capacity, actors, handled, -1, [], 0, r)
      {
        assert Fine(capacity, before, handled, ref, [], next, r);
        assert Line(actors, handled, -1, [], r) == Line(before, handled, ref, [], r);
      }
      assert Lines(actors, handled, -1, []) == lines;
    }

    /** The first k actors are ticked in order, each seeing what the ones before it sent. */
    function AfterTicks(w: World, k: nat): (w': World)
      requires k <= |w.actors| == |w.handled|
      ensures |w'.actors| == |w'.handled| == |w.actors|
    {
      if k == 0 then w else AfterTick(AfterTicks(w, k - 1), k - 1)
    }

    /** A tick, with the books kept. */
    method TickOn(i: nat, ghost lines: seq<seq<Envelope>>, ghost earlier: seq<Delivery>) returns (n: nat)
      requires Valid() && i < |actors| && Logged(lines, earlier, -1, []) && BySender(log, |earlier|, i)
      modifies this
      ensures Valid() && Later(old(actors), actors) && calls == old(calls) + n && Now() == AfterTick(old(Now()), i)
      ensures n == 0 ==> actors == old(actors) && (actors[i].active ==> actors[i].inbox == [])
      ensures Logged(lines, earlier, -1, []) && BySender(log, |earlier|, i + 1)
    {
      ghost var mid, before := Lines(actors, handled, -1, []), log;
      CallSendsFrom(onReceive, i, actors[i].nextSeq, calls, |actors[i].inbox|);
      n := Tick(i);
      BySenderMore(before, |earlier|, i, log);
      GrownOn(lines, mid, Lines(actors, handled, -1, []), earlier, before, log);
    }

    method TickAll() returns (total: nat)
      requires Valid()
      modifies this
      ensures Now() == AfterTicks(old(Now()), |old(actors)|)
      ensures Valid() && Later(old(actors), actors) && calls == old(calls) + total
      ensures total == 0 ==> forall r | 0 <= r < |actors| && actors[r].active :: actors[r].inbox == []
      ensures Logged(old(Lines(actors, handled, -1, [])), old(log), -1, [])
      ensures BySender(log, |old(log)|, |actors|)
    {
      total := 0;
      ghost var lines := Lines(actors, handled, -1, []);
      NothingGrows(lines, log);
      for i := 0 to |actors|
        invariant Valid() && Later(old(actors), actors) && calls == old(calls) + total
        invariant Now() == AfterTicks(old(Now()), i)
        invariant total == 0 ==> forall r | 0 <= r < i && actors[r].active :: actors[r].inbox == []
        invariant Logged(lines, old(log), -1, []) && BySender(log, |old(log)|, i)
      {
        var n := TickOn(i, lines, old(log));
        total := total + n;
      }
    }

    /** Rounds of ticks, until one handles nothing or they run out. */
    function AfterRounds(w: World, rounds: nat): (w': World)
      requires |w.actors| == |w.handled|
      ensures |w'.actors| == |w'.handled| == |w.actors|
      decreases rounds
    {
      if rounds == 0 then w
      else
        var next := AfterTicks(w, |w.actors|);
        if next.calls == w.calls then next else AfterRounds(next, rounds - 1)
    }

    /** Ticks until nothing happens or the rounds run out; in the first case no active actor has a message
        waiting. */
    method Drain(maxRounds: nat) returns (total: nat, ghost quiet: bool)
      requires Valid()
      modifies this
      ensures Valid() && Later(old(actors), actors) && calls == old(calls) + total
      ensures Now() == AfterRounds(old(Now()), maxRounds)
      ensures quiet ==> forall r | 0 <= r < |actors| && actors[r].active :: actors[r].inbox == []
      ensures !quiet ==> total >= maxRounds
      ensures Logged(old(Lines(actors, handled, -1, [])), old(log), -1, [])
      ensures quiet ==> forall r | 0 <= r < |actors| && actors[r].active ::
        handled[r] == old(Lines(actors, handled, -1, []))[r] + Accepted(log[|old(log)|..], r)
    {
      total, quiet := 0, false;
      ghost var lines := Lines(actors, handled, -1, []);
      NothingGrows(lines, log);
      for round := 0 to maxRounds
        invariant Valid() && Later(old(actors), actors) && calls == old(calls) + total && total >= round
        invariant AfterRounds(Now(), maxRounds - round) == AfterRounds(old(Now()), maxRounds)
        invariant Logged(lines, old(log), -1, [])
      {
        ghost var mid, earlier := Lines(actors, handled, -1, []), log;
        var n := TickAll();
        GrownOn(lines, mid, Lines(actors, handled, -1, []), old(log), earlier, log);
        if n == 0 {
          quiet := true;
          return;
        }
        total := total + n;
      }
    }

    method SetLifecycle(ref: nat, active: bool)
      requires Valid()
      modifies `actors
      ensures Valid() && |actors| == |old(actors)|
      ensures actors == if ref < |actors| then old(actors)[ref := old(actors)[ref].(active := active)] else old(actors)
    {
      if ref < |actors| {
        ghost var before := actors;
        actors := actors[ref := actors[ref].(active := active)];
        forall r | 0 <= r < |actors| ensures Fine(capacity, actors, handled, -1, [], 0, r) {
          assert Fine(capacity, before, handled, -1, [], 0, r);
          assert Line(actors, handled, -1, [], r) == Line(before, handled, -1, [], r);
        }
      }
    }

    /** Dismisses what waits in a channel and forgets what the actor has seen. */
    method ChannelDrain(ref: nat)
      requires Valid()
      modifies `actors
      ensures Valid() && |actors| == |old(actors)|
      ensures actors ==
        if ref < |actors| then old(actors)[ref := old(actors)[ref].(inbox := [], seen := {})] else old(actors)
    {
      if ref < |actors| {
        ghost var before := actors;
        actors := actors[ref := actors[ref].(inbox := [], seen := {})];
        forall r | 0 <= r < |actors| ensures Fine(capacity, actors, handled, -1, [], 0, r) {
          assert Fine(capacity, before, handled, -1, [], 0, r);
          assert Line(before, handled, -1, [], r)
            == Line(actors, handled, -1, [], r) + if r == ref then before[r].inbox else [];
          InOrderPrefix(Line(actors, handled, -1, [], r), if r == ref then before[r].inbox else []);
        }
      }
    }

    /** Spawning or cloning: a fresh channel, reference and duplicate set. */
    method Spawn() returns (ref: nat)
      requires Valid() && |actors| < EXTERNAL
      modifies `actors, `handled
      ensures Valid() && ref == |old(actors)|
      ensures actors == old(actors) + [Actor([], {}, 0, true)] && handled == old(handled) + [[]]
    {
      ref := |actors|;
      ghost var before, was := actors, handled;
      actors, handled := actors + [Actor([], {}, 0, true)], handled + [[]];
      forall r | 0 <= r < |actors| ensures Fine(capacity, actors, handled, -1, [], 0, r) {
        if r < ref {
          assert Fine(capacity, before, was, -1, [], 0, r);
          assert Line(actors, handled, -1, [], r) == Line(before, was, -1, [], r);
        }
      }
    }
  }

  // ---------------------------------------------------------------- whole runs

  datatype Step =
    | Inject(to: nat, payload: string)
    | Tick(ref: nat)
    | TickAll
    | Drain(maxRounds: nat)
    | SetLifecycle(ref: nat, active: bool)
    | ChannelDrain(ref: nat)
    | Spawn

  /** What a receiver has handled and has waiting. */
  ghost function LineOf(w: World, r: nat): seq<Envelope>
    requires r < |w.actors| == |w.handled|
  {
    w.handled[r] + w.actors[r].inbox
  }

  lemma LinesAre(w: World)
    requires |w.actors| == |w.handled|
    ensures forall r | 0 <= r < |w.actors| :: Lines(w.actors, w.handled, -1, [])[r] == LineOf(w, r)
  {
    forall r | 0 <= r < |w.actors| ensures Lines(w.actors, w.handled, -1, [])[r] == LineOf(w, r) {
      assert [] + w.actors[r].inbox == w.actors[r].inbox;
    }
  }

  /** What a step does to the system. */
  function AfterStep(sys: ActorSystem, w: World, step: Step): (w': World)
    requires |w.actors| == |w.handled|
    ensures |w.actors| <= |w'.actors| == |w'.handled|
  {
    match step
    case Inject(to, payload) =>
      w.(actors := Delivered(w.actors, sys.capacity, Envelope(0, EXTERNAL, to, payload)))
    case Tick(ref) => sys.AfterTick(w, ref)
    case TickAll => sys.AfterTicks(w, |w.actors|)
    case Drain(rounds) => sys.AfterRounds(w, rounds)
    case SetLifecycle(ref, active) =>
      if ref >= |w.actors| then w else w.(actors := w.actors[ref := w.actors[ref].(active := active)])
    case ChannelDrain(ref) =>
      if ref >= |w.actors| then w else w.(actors := w.actors[ref := w.actors[ref].(inbox := [], seen := {})])
    case Spawn => w.(actors := w.actors + [Actor([], {}, 0, true)], handled := w.handled + [[]])
  }

  function AfterAll(sys: ActorSystem, w: World, steps: seq<Step>): (w': World)
    requires |w.actors| == |w.handled|
    ensures |w.actors| <= |w'.actors| == |w'.handled|
  {
    if steps == [] then w else AfterStep(sys, AfterAll(sys, w, steps[..|steps| - 1]), steps[|steps| - 1])
  }

  method Do(sys: ActorSystem, step: Step)
    requires sys.Valid() && |sys.actors| < EXTERNAL
    modifies sys
    ensures sys.Valid() && |old(sys.actors)| <= |sys.actors| <= |old(sys.actors)| + 1
    ensures sys.Now() == AfterStep(sys, old(sys.Now()), step)
    ensures forall r | 0 <= r < |old(sys.actors)| && step != ChannelDrain(r) ::
      old(sys.actors)[r].seen <= sys.actors[r].seen
    ensures old(sys.log) <= sys.log
    ensures forall r | 0 <= r < |old(sys.actors)| && step != ChannelDrain(r) ::
      LineGrown(old(sys.Now()), sys.Now(), sys.log[|old(sys.log)|..], r)
  {
    LinesAre(sys.Now());
    match step {
      case Inject(to, payload) => var ok := sys.Inject(to, payload);
      case Tick(ref) => var n := sys.Tick(ref);
      case TickAll => var n := sys.TickAll();
      case Drain(rounds) =>
        var n;
        ghost var quiet;
        n, quiet := sys.Drain(rounds);
      case SetLifecycle(ref, active) => sys.SetLifecycle(ref, active);
      case ChannelDrain(ref) => sys.ChannelDrain(ref);
      case Spawn => var ref := sys.Spawn();
    }
    LinesAre(sys.Now());
  }

  /** The receiver's line has grown by what was accepted for it. */
  ghost predicate LineGrown(before: World, after: World, more: seq<Delivery>, r: nat)
    requires r < |before.actors| == |before.handled| <= |after.actors| == |after.handled|
  {
    LineOf(after, r) == LineOf(before, r) + Accepted(more, r)
  }

  lemma LineGrownOn(a: World, b: World, c: World, x: seq<Delivery>, y: seq<Delivery>, z: seq<Delivery>, r: nat)
    requires r < |a.actors| == |a.handled| <= |b.actors| == |b.handled| <= |c.actors| == |c.handled|
    requires x <= y <= z && LineGrown(a, b, y[|x|..], r) && LineGrown(b, c, z[|y|..], r)
    ensures LineGrown(a, c, z[|x|..], r)
  {
    assert z[|x|..] == y[|x|..] + z[|y|..];
    AcceptedAppend(y[|x|..], z[|y|..], r);
  }

  /** Any run does what its steps do one after the other; and whatever they are, every receiver has handled
      every sender's messages in strictly increasing order, hence never one twice, no channel holds more
      than its capacity, and what a receiver has handled and has waiting has grown by exactly the messages
      accepted for it, in that order, unless its channel was drained. */
  method Run(sys: ActorSystem, steps: seq<Step>)
    requires sys.Valid() && |sys.actors| + |steps| <= EXTERNAL
    modifies sys
    ensures sys.Valid() && |old(sys.actors)| <= |sys.actors| == |sys.handled|
    ensures sys.Now() == AfterAll(sys, old(sys.Now()), steps)
    ensures forall r | 0 <= r < |sys.actors| :: InOrder(sys.handled[r]) && |sys.actors[r].inbox| <= sys.capacity
    ensures old(sys.log) <= sys.log
    ensures forall r | 0 <= r < |old(sys.actors)| && ChannelDrain(r) !in steps ::
      && old(sys.actors)[r].seen <= sys.actors[r].seen
      && LineGrown(old(sys.Now()), sys.Now(), sys.log[|old(sys.log)|..], r)
  {
    RunAll(sys, steps);
    forall r | 0 <= r < |sys.actors| ensures InOrder(sys.handled[r]) && |sys.actors[r].inbox| <= sys.capacity {
      assert Fine(sys.capacity, sys.actors, sys.handled, -1, [], 0, r);
      InOrderPrefix(sys.handled[r], [] + sys.actors[r].inbox);
    }
  }

  method RunAll(sys: ActorSystem, steps: seq<Step>)
    requires sys.Valid() && |sys.actors| + |steps| <= EXTERNAL
    modifies sys
    ensures sys.Valid() && |old(sys.actors)| <= |sys.actors| <= |old(sys.actors)| + |steps|
    ensures sys.Now() == AfterAll(sys, old(sys.Now()), steps) && old(sys.log) <= sys.log
    ensures forall r | 0 <= r < |old(sys.actors)| && ChannelDrain(r) !in steps ::
      && old(sys.actors)[r].seen <= sys.actors[r].seen
      && LineGrown(old(sys.Now()), sys.Now(), sys.log[|old(sys.log)|..], r)
  {
    if steps == [] {
      assert sys.log[|sys.log|..] == [];
      return;
    }
    var n := |steps| - 1;
    RunAll(sys, steps[..n]);
    ghost var w, earlier := sys.Now(), sys.log;
    Do(sys, steps[n]);
    forall r | 0 <= r < |old(sys.actors)| && ChannelDrain(r) !in steps
      ensures LineGrown(old(sys.Now()), sys.Now(), sys.log[|old(sys.log)|..], r)
    {
      assert steps[n] in steps && forall step <- steps[..n] :: step in steps;
      LineGrownOn(old(sys.Now()), w, sys.Now(), old(sys.log), earlier, sys.log, r);
    }
  }

  /** A message from outside reaches an active actor at most once: whatever happens in between, short of a
      channel drain, the next one is refused as a duplicate even though it is a different message. */
  method InjectTwice(sys: ActorSystem, to: nat, first: string, steps: seq<Step>, second: string)
    returns (ok: bool, again: bool)
    requires sys.Valid() && |sys.actors| + |steps| <= EXTERNAL
    modifies sys
    ensures sys.Valid()
    ensures to < |old(sys.actors)| && old(sys.actors)[to].active && ChannelDrain(to) !in steps ==> !again
  {
    ok := sys.Inject(to, first);
    Run(sys, steps);
    again := sys.Inject(to, second);
  }
}
