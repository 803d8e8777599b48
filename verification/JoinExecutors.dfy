/** The three pull machines behind a join.  Their pull bodies are the same text in the source; they
    differ in how a refill gets its rows and probes the right side, so one class carries the probe as
    a tag. */
module JoinExecutors {
  import opened Optional
  import opened Sequences
  import opened JoinSpec
  import opened BatchGet

  /** A pull-based left side that answers from its script. */
  class Source<T> {
    var script: seq<Pulled<T>>

    constructor (script: seq<Pulled<T>>)
      ensures this.script == script
    {
      this.script := script;
    }

    method Pull() returns (r: Result<Option<seq<T>>>)
      modifies this
      ensures old(script) == [] ==> script == [] && r == Ok(None)
      ensures old(script) != [] ==> script == old(script)[1..]
      ensures old(script) != [] ==>
        r == match old(script)[0] case Chunk(rows) => Ok(Some(rows)) case Fault => Err("pull")
    {
      if script == [] {
        return Ok(None);
      }
      var p := script[0];
      script := script[1..];
      match p
      case Chunk(rows) => return Ok(Some(rows));
      case Fault => return Err("pull");
    }
  }

  // ---------------------------------------------------------------- what a refill must achieve

  /** The rows still to come from left rows `rest`, given what is left of the limit. */
  function Due<L, R>(q: Query<L, R>, rest: seq<L>, limited: bool, left: nat): seq<Joined<L, R>> {
    if limited then Taken(left, Join(q, rest)) else Join(q, rest)
  }

  /** What one pull hands out of a refill. */
  function Cut<T>(pending: seq<T>, limited: bool, left: nat): (r: seq<T>)
    ensures |r| <= |pending| && (limited ==> |r| <= left)
  {
    if limited then Taken(left, pending) else pending
  }

  function Lowered<T>(pending: seq<T>, limited: bool, left: nat): nat {
    if limited then left - |Cut(pending, limited, left)| else left
  }

  /** What a refill makes of the left rows it consumed: all their rows, or, with a limit, at least as
      many of the first ones as the limit still allows. */
  ghost predicate Refilled<L, R>(q: Query<L, R>, done: seq<L>, pending: seq<Joined<L, R>>, limited: bool, left: nat) {
    pending == Join(q, done) || (limited && left <= |pending| && pending <= Join(q, done))
  }

  /** A refill that consumed the left rows down to rest': the rows due were what it made, cut to the
      limit, followed by what is due from rest'. */
  ghost predicate Refills<L, R>(q: Query<L, R>, rest: seq<L>, rest': seq<L>,
                                pending: seq<Joined<L, R>>, limited: bool, left: nat)
  {
    Due(q, rest, limited, left) == Cut(pending, limited, left) + Due(q, rest', limited, Lowered(pending, limited, left))
  }

  lemma CutLeavesDue<L, R>(q: Query<L, R>, done: seq<L>, rest: seq<L>, pending: seq<Joined<L, R>>, limited: bool,
                           left: nat)
    requires Clean(q, done) && Refilled(q, done, pending, limited, left)
    ensures Refills(q, done + rest, rest, pending, limited, left)
  {
    JoinAppend(q, done, rest);
    var j := Join(q, done);
    if limited {
      TakeAppend(left, j, Join(q, rest));
      if pending != j {
        assert Taken(left, pending) == Taken(left, j);
      }
    }
  }

  /** Once the limit is met it does not matter which left rows are dropped. */
  lemma FullRefills<L, R>(q: Query<L, R>, rest: seq<L>, mid: seq<L>, rest': seq<L>, pending: seq<Joined<L, R>>,
                          limited: bool, left: nat)
    requires Refills(q, rest, mid, pending, limited, left) && limited && |pending| >= left
    ensures Refills(q, rest, rest', pending, limited, left)
  {
  }

  /** A chunk probed up to n rows, further only if the limit did not stop it. */
  lemma ChunkRefills<L, R>(q: Query<L, R>, chunk: seq<L>, n: nat, later: seq<L>, pending: seq<Joined<L, R>>,
                           limited: bool, left: nat)
    requires n <= |chunk| && Clean(q, chunk[..n]) && Refilled(q, chunk[..n], pending, limited, left)
    requires n < |chunk| ==> limited && |pending| >= left
    ensures Refills(q, [] + (chunk + later), [] + later, pending, limited, left)
  {
    assert [] + (chunk + later) == chunk + later == chunk[..n] + (chunk[n..] + later) && [] + later == later;
    CutLeavesDue(q, chunk[..n], chunk[n..] + later, pending, limited, left);
    if n == |chunk| {
      assert chunk[n..] + later == later;
    } else {
      FullRefills(q, chunk + later, chunk[n..] + later, later, pending, limited, left);
    }
  }

  lemma RefillStep<L, R>(q: Query<L, R>, done: seq<L>, l: L, pending: seq<Joined<L, R>>)
    requires Clean(q, done) && pending == Join(q, done) && OutcomeOf(q, l) != Fails
    ensures Clean(q, done + [l])
    ensures OutcomeOf(q, l).Skips? ==> pending == Join(q, done + [l])
    ensures OutcomeOf(q, l).Emits? ==> pending + [OutcomeOf(q, l).row] == Join(q, done + [l])
  {
    JoinSnoc(q, done, l);
  }

  /** Nothing to come fails: no pull, and no row's extraction, lookup or decoding. */
  ghost predicate Healthy<L, R>(q: Query<L, R>, ready: seq<L>, script: seq<Pulled<L>>) {
    Sound(script) && Clean(q, ready + Rows(script))
  }

  lemma CleanSplit<L, R>(q: Query<L, R>, a: seq<L>, b: seq<L>)
    ensures Clean(q, a + b) <==> Clean(q, a) && Clean(q, b)
  {
    if Clean(q, a + b) {
      forall i | 0 <= i < |a| ensures OutcomeOf(q, a[i]) != Fails {
        assert (a + b)[i] == a[i];
      }
      forall i | 0 <= i < |b| ensures OutcomeOf(q, b[i]) != Fails {
        assert (a + b)[|a| + i] == b[i];
      }
    }
  }

  /** A healthy source's next answer is a chunk of clean rows, and what follows is healthy. */
  lemma HealthyPull<L, R>(q: Query<L, R>, script: seq<Pulled<L>>)
    requires Healthy(q, [], script) && script != []
    ensures script[0].Chunk? && Clean(q, script[0].rows) && Healthy(q, [], script[1..])
    ensures Healthy(q, script[0].rows, script[1..])
  {
    var chunk, later := script[0].rows, Rows(script[1..]);
    assert [] + Rows(script) == chunk + later && [] + later == later;
    CleanSplit(q, chunk, later);
  }

  // ---------------------------------------------------------------- the right side

  /** How the right side is probed: by batched lookups, in a built index, or in a materialized list. */
  datatype Probing<+R> =
    | Batched(size: nat, husk: string)
    | Indexed(index: map<Key, R>)
    | Listed(right: seq<(Key, R)>)

  function FirstMatch<R>(right: seq<(Key, R)>, sought: Key): Option<R> {
    if right == [] then None
    else if right[0].0 == sought then Some(right[0].1)
    else FirstMatch(right[1..], sought)
  }

  /** What probing for a key must find. */
  function Stored<L, R>(q: Query<L, R>, key: Key): Option<R> {
    match Lookup(q.table, key) case None => None case Some(raw) => q.decode(raw)
  }

  ghost predicate Decodable<L, R>(q: Query<L, R>) {
    forall e :: e in q.table ==> q.decode(e.1).Some?
  }

  /** The probing structure serves the query: an index or list holds the table, decoded. */
  ghost predicate Serves<L, R>(p: Probing<R>, q: Query<L, R>) {
    match p
    case Batched(size, _) => size > 0 && UniqueKeys(q.table)
    case Indexed(index) =>
      && Decodable(q)
      && forall k :: (k in index <==> Stored(q, k).Some?) && (k in index ==> Stored(q, k) == Some(index[k]))
    case Listed(right) => Decodable(q) && forall k :: FirstMatch(right, k) == Stored(q, k)
  }

  /** A row whose key was extracted and whose probe found `found` contributes this. */
  lemma ProbeOutcome<L, R>(q: Query<L, R>, l: L, key: Key, found: Option<R>)
    requires q.extract(l) == Some(key) && found == Stored(q, key)
    requires Lookup(q.table, key).Some? ==> found.Some?
    ensures OutcomeOf(q, l) == if ShouldEmit(q.kind, found.Some?) then Emits(Joined(key, l, found)) else Skips
  {
  }

  // ---------------------------------------------------------------- the machine

  class JoinMachine<L, R> {
    const query: Query<L, R>
    const probing: Probing<R>
    const source: Source<L>
    const limited: bool
    var remaining: nat
    var pending: seq<Joined<L, R>>
    var cursor: nat
    var upstreamDone: bool
    var leftover: seq<L>
    var leftoverIdx: nat

    constructor (query: Query<L, R>, probing: Probing<R>, source: Source<L>, limit: nat)
      requires Serves(probing, query)
      ensures Valid() && fresh(this) && this.query == query && this.source == source
      ensures Output() == Limited(limit, Join(query, Rows(source.script)))
      ensures Ready() == []
    {
      this.query, this.probing, this.source := query, probing, source;
      limited, remaining := limit > 0, limit;
      pending, cursor, upstreamDone, leftover, leftoverIdx := [], 0, false, [], 0;
      new;
      assert [] + Rows(source.script) == Rows(source.script);
    }

    ghost predicate Shaped()
      reads this
    {
      leftoverIdx <= |leftover| && Serves(probing, query) && (!probing.Batched? ==> leftover == [])
    }

    /** Left rows pulled but not yet probed. */
    ghost function Ready(): seq<L>
      requires leftoverIdx <= |leftover|
      reads this
    {
      leftover[leftoverIdx..]
    }

    ghost function Rest(): seq<L>
      requires leftoverIdx <= |leftover|
      reads this, source
    {
      Ready() + Rows(source.script)
    }

    /** Nothing more can come out: the source has run out, or the limit is used up. */
    ghost predicate Finished()
      reads this, source
    {
      (source.script == [] && leftoverIdx == |leftover|) || (limited && remaining == 0)
    }

    /** Between pulls everything pending has been handed out. */
    ghost predicate Valid()
      reads this, source
    {
      Shaped() && cursor == |pending| && (upstreamDone ==> Finished())
    }

    /** The rows later pulls hand out. */
    ghost function Output(): seq<Joined<L, R>>
      requires leftoverIdx <= |leftover|
      reads this, source
    {
      Due(query, Rest(), limited, remaining)
    }

    /** Bounds the pulls to come. */
    ghost function Effort(): nat
      requires leftoverIdx <= |leftover|
      reads this, source
    {
      Work(source.script) + |leftover| - leftoverIdx
    }

    ghost predicate AllWell()
      requires leftoverIdx <= |leftover|
      reads this, source
    {
      Healthy(query, Ready(), source.script)
    }

    /** The refill has met the limit. */
    predicate Full()
      reads this
    {
      limited && pending != [] && |pending| >= remaining
    }

    /** HashJoin and NestedLoop: one lookup in the built right side. */
    method Find(sought: Key) returns (found: Option<R>)
      requires Shaped() && !probing.Batched?
      ensures found == Stored(query, sought)
      ensures Lookup(query.table, sought).Some? ==> found.Some?
    {
      if Lookup(query.table, sought).Some? {
        LookupIn(query.table, sought);
      }
      match probing
      case Indexed(index) => found := if sought in index then Some(index[sought]) else None;
      case Listed(right) =>
        found := None;
        var i := 0;
        while i < |right|
          invariant 0 <= i <= |right| && found == None
          invariant FirstMatch(right, sought) == FirstMatch(right[i..], sought)
        {
          if right[i].0 == sought {
            return Some(right[i].1);
          }
          i := i + 1;
        }
    }

    /** HashJoin and NestedLoop: probes the rows of one chunk, up to the one that fills the limit. */
    method ProbeChunk(chunk: seq<L>) returns (ok: bool, ghost n: nat)
      requires Shaped() && pending == [] && !probing.Batched?
      modifies this`pending, this`upstreamDone
      ensures n <= |chunk|
      ensures ok ==> Clean(query, chunk[..n]) && Refilled(query, chunk[..n], pending, limited, remaining)
      ensures ok && n < |chunk| ==> Full()
      ensures ok && upstreamDone ==> old(upstreamDone) || Full()
      ensures !ok ==> !Clean(query, chunk)
    {
      n := 0;
      for i := 0 to |chunk|
        invariant n == i && upstreamDone == old(upstreamDone)
        invariant Clean(query, chunk[..i]) && pending == Join(query, chunk[..i]) && !Full()
      {
        var key := query.extract(chunk[i]);
        if key.None? {
          assert OutcomeOf(query, chunk[i]) == Fails;
          return false, n;
        }
        var found := Find(key.value);
        ProbeOutcome(query, chunk[i], key.value, found);
        RefillStep(query, chunk[..i], chunk[i], pending);
        assert chunk[..i + 1] == chunk[..i] + [chunk[i]];
        n := i + 1;
        if ShouldEmit(query.kind, found.Some?) {
          pending := pending + [Joined(key.value, chunk[i], found)];
          if limited && |pending| >= remaining {
            upstreamDone := true;
            return true, n;
          }
        }
      }
      assert chunk[..|chunk|] == chunk;
      ok := true;
    }

    /** HashJoin and NestedLoop: consumes one chunk of the source. */
    method RefillFromChunk() returns (ok: bool)
      requires Valid() && pending == [] && !probing.Batched?
      modifies this`pending, this`upstreamDone, source
      ensures ok ==> Refills(query, old(Rest()), Rest(), pending, limited, remaining)
      ensures ok && upstreamDone ==> Finished() || Full()
      ensures ok ==> Effort() < old(Effort()) || (upstreamDone && pending == [])
      ensures old(AllWell()) ==> ok && AllWell()
    {
      if AllWell() && source.script != [] {
        HealthyPull(query, source.script);
      }
      var r := source.Pull();
      if r.Err? {
        return false;
      }
      if r.value.None? {
        upstreamDone := true;
        return true;
      }
      ghost var n;
      ok, n := ProbeChunk(r.value.value);
      if ok {
        ChunkRefills(query, r.value.value, n, Rows(source.script), pending, limited, remaining);
      }
    }

    /** BatchIndexNL: collects the next left rows, at most a batch, cutting chunks as needed. */
    method Gather(size: nat) returns (ok: bool, batch: seq<L>)
      requires Shaped() && probing.Batched? && size > 0
      modifies this`leftover, this`leftoverIdx, this`upstreamDone, source
      ensures ok ==> Shaped() && old(Rest()) == batch + Rest()
      ensures ok ==> Effort() + |batch| <= old(Effort())
      ensures ok && upstreamDone ==> old(upstreamDone) || (source.script == [] && leftoverIdx == |leftover|)
      ensures ok && batch == [] ==> upstreamDone
      ensures old(AllWell()) ==> ok && AllWell() && Clean(query, batch)
    {
      batch := [];
      while |batch| < size
        invariant Shaped() && old(Rest()) == batch + Rest() && |batch| <= size
        invariant Effort() + |batch| <= old(Effort())
        invariant upstreamDone == old(upstreamDone)
        invariant old(AllWell()) ==> AllWell() && Clean(query, batch)
        decreases Effort()
      {
        if leftoverIdx < |leftover| {
          RowReady(query, leftover, leftoverIdx, source.script, batch);
          batch, leftoverIdx := batch + [leftover[leftoverIdx]], leftoverIdx + 1;
        } else if upstreamDone {
          break;
        } else {
          var more;
          ok, more := PullLeft();
          if !ok {
            return false, batch;
          }
          if !more {
            upstreamDone := true;
            break;
          }
        }
      }
      ok := true;
    }

    /** Pulls the next chunk of left rows. */
    method PullLeft() returns (ok: bool, more: bool)
      requires Shaped() && probing.Batched? && leftoverIdx == |leftover|
      modifies this`leftover, this`leftoverIdx, source
      ensures ok ==> Shaped() && Rest() == old(Rest())
      ensures ok && more ==> Effort() < old(Effort())
      ensures ok && !more ==> source.script == [] && leftoverIdx == |leftover| && Effort() <= old(Effort())
      ensures old(AllWell()) ==> ok && AllWell()
    {
      assert Ready() == [] && [] + Rows(source.script) == Rows(source.script);
      if AllWell() && source.script != [] {
        HealthyPull(query, source.script);
      }
      var r := source.Pull();
      if r.Err? {
        return false, false;
      }
      if r.value.None? {
        return true, false;
      }
      leftover, leftoverIdx := r.value.value, 0;
      assert leftover[0..] == leftover;
      return true, true;
    }

    /** BatchIndexNL: the key of every row, and which of the distinct keys it is. */
    method Dedupe(batch: seq<L>) returns (ok: bool, rowKeys: seq<Key>, slots: seq<nat>, unique: seq<Key>)
      ensures ok ==> Keyed(query, batch, rowKeys, slots, unique)
      ensures !ok ==> !Clean(query, batch)
    {
      rowKeys, slots, unique := [], [], [];
      var seen: map<Key, nat> := map[];
      for i := 0 to |batch|
        invariant Keyed(query, batch[..i], rowKeys, slots, unique)
        invariant forall k :: k in seen <==> k in unique
        invariant forall k :: k in seen ==> seen[k] < |unique| && unique[seen[k]] == k
      {
        var key := query.extract(batch[i]);
        if key.None? {
          assert OutcomeOf(query, batch[i]) == Fails;
          return false, rowKeys, slots, unique;
        }
        var k := key.value;
        if k !in seen {
          seen := seen[k := |unique|];
          unique := unique + [k];
        }
        rowKeys, slots := rowKeys + [k], slots + [seen[k]];
      }
      assert batch[..|batch|] == batch;
      ok := true;
    }

    /** BatchIndexNL: probes the fetched answers in row order, up to the row that fills the limit. */
    method ProbeBatch(batch: seq<L>, rowKeys: seq<Key>, slots: seq<nat>, unique: seq<Key>, fetched: seq<Option<R>>)
      returns (ghost n: nat)
      requires Shaped() && pending == [] && Keyed(query, batch, rowKeys, slots, unique)
      requires |fetched| == |unique| && forall u :: 0 <= u < |unique| ==>
        fetched[u] == Stored(query, unique[u]) && (Lookup(query.table, unique[u]).Some? ==> fetched[u].Some?)
      modifies this`pending, this`upstreamDone
      ensures n <= |batch|
      ensures Clean(query, batch[..n]) && Refilled(query, batch[..n], pending, limited, remaining)
      ensures n < |batch| ==> Full()
      ensures upstreamDone ==> old(upstreamDone) || Full()
    {
      n := 0;
      for i := 0 to |batch|
        invariant n == i && upstreamDone == old(upstreamDone)
        invariant Clean(query, batch[..i]) && pending == Join(query, batch[..i]) && !Full()
      {
        var found := fetched[slots[i]];
        ProbeOutcome(query, batch[i], rowKeys[i], found);
        RefillStep(query, batch[..i], batch[i], pending);
        assert batch[..i + 1] == batch[..i] + [batch[i]];
        n := i + 1;
        if ShouldEmit(query.kind, found.Some?) {
          pending := pending + [Joined(rowKeys[i], batch[i], found)];
          if limited && |pending| >= remaining {
            upstreamDone := true;
            return;
          }
        }
      }
      assert batch[..|batch|] == batch;
    }

    /** BatchIndexNL: one batch, one round of lookups on its distinct keys. */
    method RefillBatch(size: nat, husk: string) returns (ok: bool)
      requires Valid() && pending == [] && probing == Batched(size, husk)
      modifies this`pending, this`upstreamDone, this`leftover, this`leftoverIdx, source
      ensures ok ==> Shaped() && Refills(query, old(Rest()), Rest(), pending, limited, remaining)
      ensures ok && upstreamDone ==> Finished() || Full()
      ensures ok ==> Effort() < old(Effort()) || (upstreamDone && pending == [])
      ensures old(AllWell()) ==> ok && AllWell()
    {
      var batch;
      ok, batch := Gather(size);
      if !ok {
        return;
      }
      if batch == [] {
        assert [] + Rest() == Rest();
        return;
      }
      var rowKeys, slots, unique;
      ok, rowKeys, slots, unique := Dedupe(batch);
      if !ok {
        return;
      }
      DistinctAnswers(query.table, unique, husk);
      var fetched := GetManyDecoded(query.table, unique, husk, query.decode);
      if fetched.Err? {
        UndecodableRow(query, batch, rowKeys, slots, unique);
        return false;
      }
      ghost var n := ProbeBatch(batch, rowKeys, slots, unique, fetched.value);
      BatchRefills(query, batch, n, Rest(), pending, limited, remaining);
    }

    method Refill() returns (ok: bool)
      requires Valid() && pending == []
      modifies this`pending, this`upstreamDone, this`leftover, this`leftoverIdx, source
      ensures ok ==> Shaped() && Refills(query, old(Rest()), Rest(), pending, limited, remaining)
      ensures ok && upstreamDone ==> Finished() || Full()
      ensures ok ==> Effort() < old(Effort()) || (upstreamDone && pending == [])
      ensures old(AllWell()) ==> ok && AllWell()
    {
      match probing
      case Batched(size, husk) => ok := RefillBatch(size, husk);
      case _ => ok := RefillFromChunk();
    }

    /** What a refill leaves for pull to hand out, measured against what was due before. */
    ghost predicate Filled(due: seq<Joined<L, R>>)
      reads this, source
    {
      && Shaped() && cursor == 0 && pending != [] && (upstreamDone ==> Finished() || Full())
      && due == Cut(pending, limited, remaining) + Due(query, Rest(), limited, Lowered(pending, limited, remaining))
    }

    /** The loop of pull: refills until something is pending; `more` is false once nothing will be. */
    method Fill() returns (ok: bool, more: bool)
      requires Valid()
      modifies this`pending, this`cursor, this`upstreamDone, this`leftover, this`leftoverIdx, source
      ensures ok && !more ==> Valid() && old(Output()) == [] && upstreamDone && pending == []
      ensures ok && more ==> Filled(old(Output())) && Effort() < old(Effort())
      ensures old(upstreamDone && pending == []) ==> ok && !more
      ensures old(AllWell()) ==> ok && AllWell()
    {
      ghost var due, well, effort, done := Output(), AllWell(), Effort(), upstreamDone && pending == [];
      while cursor >= |pending|
        invariant Shaped() && Effort() <= effort
        invariant cursor >= |pending| ==> Valid() && Output() == due
        invariant cursor < |pending| ==> Filled(due) && Effort() < effort
        invariant well ==> AllWell()
        invariant done ==> upstreamDone && pending == []
        decreases Effort()
      {
        if upstreamDone && pending == [] {
          return true, false;
        }
        ok := FillOnce();
        if !ok {
          return false, false;
        }
        if pending == [] && upstreamDone {
          return true, false;
        }
      }
      return true, true;
    }

    /** One refill once everything pending has been handed out. */
    method FillOnce() returns (ok: bool)
      requires Valid() && cursor >= |pending| && !(upstreamDone && pending == [])
      modifies this`pending, this`cursor, this`upstreamDone, this`leftover, this`leftoverIdx, source
      ensures ok ==> Shaped() && cursor == 0
      ensures ok && pending != [] ==> Filled(old(Output())) && Effort() < old(Effort())
      ensures ok && pending == [] ==> Valid() && Output() == old(Output())
      ensures ok && pending == [] && !upstreamDone ==> Effort() < old(Effort())
      ensures ok && pending == [] && upstreamDone ==> old(Output()) == []
      ensures old(AllWell()) ==> ok && AllWell()
    {
      pending, cursor := [], 0;
      ok := Refill();
    }

    /** None once everything has been handed out, and ever after; otherwise the next chunk of rows,
        which may be empty once the limit is used up. */
    method Pull() returns (r: Result<Option<seq<Joined<L, R>>>>)
      requires Valid()
      modifies this, source
      ensures r.Ok? ==> Valid()
      ensures r == Ok(None) ==> old(Output()) == [] && upstreamDone && pending == []
      ensures old(upstreamDone && pending == []) ==> r == Ok(None)
      ensures r.Ok? && r.value.Some? ==> old(Output()) == r.value.value + Output() && Effort() < old(Effort())
      ensures old(AllWell()) ==> r.Ok? && AllWell()
    {
      var ok, more := Fill();
      if !ok {
        return Err("join");
      }
      if !more {
        return Ok(None);
      }
      var drain := pending[cursor..];
      cursor := |pending|;
      if limited {
        drain := Taken(remaining, drain);
        remaining := remaining - |drain|;
        if remaining == 0 {
          upstreamDone := true;
        }
      }
      return Ok(Some(drain));
    }

    /** Collecting the stream: the rows due, all of them, unless something failed. */
    method Collect() returns (r: Result<seq<Joined<L, R>>>)
      requires Valid()
      modifies this, source
      ensures r.Ok? ==> r.value == old(Output())
      ensures old(AllWell()) ==> r.Ok?
    {
      var out: seq<Joined<L, R>> := [];
      ghost var due, well := Output(), AllWell();
      while true
        invariant Valid() && due == out + Output() && (well ==> AllWell())
        decreases Effort()
      {
        var p := Pull();
        if p.Err? {
          return Err("join");
        }
        if p.value.None? {
          return Ok(out);
        }
        Regrouped(out, p.value.value, Output());
        out := out + p.value.value;
      }
    }
  }

  lemma RowReady<L, R>(q: Query<L, R>, leftover: seq<L>, i: nat, script: seq<Pulled<L>>, batch: seq<L>)
    requires i < |leftover|
    ensures batch + (leftover[i..] + Rows(script)) == (batch + [leftover[i]]) + (leftover[i + 1..] + Rows(script))
    ensures Healthy(q, leftover[i..], script) && Clean(q, batch) ==>
      Clean(q, batch + [leftover[i]]) && Healthy(q, leftover[i + 1..], script)
  {
    assert leftover[i..] + Rows(script) == [leftover[i]] + (leftover[i + 1..] + Rows(script));
    CleanSplit(q, [leftover[i]], leftover[i + 1..] + Rows(script));
    CleanSplit(q, batch, [leftover[i]]);
  }

  /** Row i's key is rowKeys[i], found at slots[i] among the distinct keys, all of which are needed. */
  ghost predicate Keyed<L, R>(q: Query<L, R>, batch: seq<L>, rowKeys: seq<Key>, slots: seq<nat>, unique: seq<Key>) {
    && |rowKeys| == |slots| == |batch|
    && Distinct(unique)
    && (forall i :: 0 <= i < |batch| ==>
          q.extract(batch[i]) == Some(rowKeys[i]) && slots[i] < |unique| && unique[slots[i]] == rowKeys[i])
    && (forall u :: 0 <= u < |unique| ==> unique[u] in rowKeys)
  }

  lemma UndecodableRow<L, R>(q: Query<L, R>, batch: seq<L>, rowKeys: seq<Key>, slots: seq<nat>, unique: seq<Key>)
    requires Keyed(q, batch, rowKeys, slots, unique)
    requires exists u :: 0 <= u < |unique| && Undecodable(Lookup(q.table, unique[u]), q.decode)
    ensures !Clean(q, batch)
  {
    var u :| 0 <= u < |unique| && Undecodable(Lookup(q.table, unique[u]), q.decode);
    assert unique[u] in rowKeys;
    var i :| 0 <= i < |rowKeys| && rowKeys[i] == unique[u];
    assert OutcomeOf(q, batch[i]) == Fails;
  }

  lemma BatchRefills<L, R>(q: Query<L, R>, batch: seq<L>, n: nat, rest: seq<L>, pending: seq<Joined<L, R>>,
                           limited: bool, left: nat)
    requires n <= |batch| && Clean(q, batch[..n]) && Refilled(q, batch[..n], pending, limited, left)
    requires n < |batch| ==> limited && |pending| >= left
    ensures Refills(q, batch + rest, rest, pending, limited, left)
  {
    ChunkRefills(q, batch, n, rest, pending, limited, left);
    assert [] + (batch + rest) == batch + rest && [] + rest == rest;
  }
}
