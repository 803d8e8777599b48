/** Materializing a stream of records into a store: the flush loop, the Replace and Delta modes, and what a
    history of Delta runs keeps. */
module Delta {
  import opened Optional
  import opened Sequences
  import opened ByteOrder
  import opened WatermarkCodec

  datatype Key = Key(bytes: seq<Byte>)

  datatype Mode = Append | Upsert | Replace | Delta | DryRun

  datatype Options = Options(mode: Mode, flushBatchSize: nat, replacePrefix: seq<Byte>, watermarkId: seq<Byte>)

  datatype Row = Row(key: Key, value: seq<Byte>)

  datatype Summary = Summary(rowsIn: nat, rowsWritten: nat, flushes: nat, bytes: nat, lastKey: Key)

  type Rows = map<Key, seq<Byte>>

  const NO_KEY := Key([])

  predicate Above(a: Key, b: Key) {
    Less(b.bytes, a.bytes)
  }

  function WatermarkKey(id: seq<Byte>): Key {
    Key(TAG + id)
  }

  /** The bytes of "_celer_watermark/". */
  const TAG: seq<Byte> := [95, 99, 101, 108, 101, 114, 95, 119, 97, 116, 101, 114, 109, 97, 114, 107, 47]

  // ---------------------------------------------------------------- what a run computes

  function Written(rows: Rows, puts: seq<Row>): Rows {
    if puts == [] then rows
    else var n := |puts| - 1; Written(rows, puts[..n])[puts[n].key := puts[n].value]
  }

  lemma {:induction false} WrittenAppend(rows: Rows, a: seq<Row>, b: seq<Row>)
    ensures Written(Written(rows, a), b) == Written(rows, a + b)
  {
    if b == [] {
      assert a + b == a;
    } else {
      var n := |b| - 1;
      WrittenAppend(rows, a, b[..n]);
      assert (a + b)[..|a + b| - 1] == a + b[..n];
    }
  }

  /** The rows a run does not skip: in Delta mode only keys above the floor pass, if there is a floor. */
  function Passing(rows: seq<Row>, floor: Key): seq<Row> {
    if rows == [] then []
    else
      var n := |rows| - 1;
      Passing(rows[..n], floor) + if floor == NO_KEY || Above(rows[n].key, floor) then [rows[n]] else []
  }

  /** What passes is at no key the floor covers. */
  ghost predicate Clear(rows: seq<Row>, floor: Key) {
    forall row <- rows :: floor == NO_KEY || Above(row.key, floor)
  }

  lemma {:induction false} PassingIsClear(rows: seq<Row>, floor: Key)
    ensures Clear(Passing(rows, floor), floor)
    ensures forall row <- Passing(rows, floor) :: row in rows
  {
    if rows != [] {
      PassingIsClear(rows[..|rows| - 1], floor);
    }
  }

  /** The greatest key, starting from m. */
  function Greatest(m: Key, rows: seq<Row>): Key {
    if rows == [] then m
    else
      var n := |rows| - 1;
      var g := Greatest(m, rows[..n]);
      if Above(rows[n].key, g) then rows[n].key else g
  }

  function Bytes(rows: seq<Row>): nat {
    if rows == [] then 0 else Bytes(rows[..|rows| - 1]) + |rows[|rows| - 1].value|
  }

  lemma PassingAppend(rows: seq<Row>, row: Row, floor: Key)
    ensures Passing(rows + [row], floor)
      == Passing(rows, floor) + if floor == NO_KEY || Above(row.key, floor) then [row] else []
  {
    assert (rows + [row])[..|rows|] == rows;
  }

  /** The counts a run reports about the rows it put. */
  ghost predicate Counts(s: Summary, puts: seq<Row>) {
    s.rowsWritten == |puts| && s.bytes == Bytes(puts) && s.lastKey == Greatest(NO_KEY, puts)
  }

  function Counted(s: Summary, row: Row): Summary {
    Summary(s.rowsIn, s.rowsWritten + 1, s.flushes, s.bytes + |row.value|,
            if Above(row.key, s.lastKey) then row.key else s.lastKey)
  }

  lemma CountsAppend(s: Summary, puts: seq<Row>, row: Row)
    requires Counts(s, puts)
    ensures Counts(Counted(s, row), puts + [row])
  {
    assert (puts + [row])[..|puts|] == puts;
  }

  /** The cursor a Delta run starts from; a record that does not decode counts as none. */
  function Floor(rows: Rows, id: seq<Byte>): Key {
    if WatermarkKey(id) !in rows then NO_KEY
    else
      var r := Decode(rows[WatermarkKey(id)]);
      if r.Ok? then Key(r.value.lastKey) else NO_KEY
  }

  function Without(rows: Rows, prefix: seq<Byte>): Rows {
    map k | k in rows && !StartsWith(k.bytes, prefix) :: rows[k]
  }

  /** The rows a run writes. */
  function Puts(rows: Rows, opts: Options, source: seq<Row>): seq<Row> {
    if opts.mode.Delta? then Passing(source, Floor(rows, opts.watermarkId)) else source
  }

  /** The store after a successful run over the given rows.  The flush size plays no part. */
  function Final(rows: Rows, opts: Options, source: seq<Row>, now: int): Rows
    requires IsInt64(now)
  {
    var puts := Puts(rows, opts, source);
    match opts.mode
    case DryRun => rows
    case Replace => Written(Without(rows, opts.replacePrefix), puts)
    case Delta =>
      var last := Greatest(NO_KEY, puts);
      if last == NO_KEY then Written(rows, puts)
      else Written(rows, puts)[WatermarkKey(opts.watermarkId) := Encode(Record(opts.watermarkId, last.bytes, now))]
    case _ => Written(rows, puts)
  }

  function BatchSize(opts: Options): nat {
    if opts.flushBatchSize == 0 then 1 else opts.flushBatchSize
  }

  /** What a successful run reports: rows in and out, the greatest key, and the least number of flushes that
      the batch size allows. */
  ghost predicate Reports(s: Summary, opts: Options, read: nat, puts: seq<Row>) {
    && s.rowsIn == read && Counts(s, puts)
    && |puts| <= s.flushes * BatchSize(opts) < |puts| + BatchSize(opts)
  }

  // ---------------------------------------------------------------- key by key

  /** Row j is the last of these with its key. */
  ghost predicate LastOfKey(puts: seq<Row>, j: nat) {
    j < |puts| && forall l | j < l < |puts| :: puts[l].key != puts[j].key
  }

  lemma {:induction false} SomeLastOfKey(puts: seq<Row>, k: Key) returns (j: nat)
    requires k in Keys(puts)
    ensures LastOfKey(puts, j) && puts[j].key == k
  {
    var n := |puts| - 1;
    if puts[n].key == k {
      j := n;
    } else {
      var row :| row in puts && row.key == k;
      assert puts == puts[..n] + [puts[n]];
      assert row in puts[..n];
      j := SomeLastOfKey(puts[..n], k);
    }
  }

  /** Writing rows stores, at each of their keys, the value of the last row with that key. */
  lemma {:induction false} WrittenStores(rows: Rows, puts: seq<Row>, j: nat)
    requires LastOfKey(puts, j)
    ensures puts[j].key in Written(rows, puts) && Written(rows, puts)[puts[j].key] == puts[j].value
  {
    var n := |puts| - 1;
    if j < n {
      assert puts[..n][j] == puts[j];
      WrittenStores(rows, puts[..n], j);
    }
  }

  function AboveFloor(floor: Key): Row -> bool {
    (row: Row) => floor == NO_KEY || Above(row.key, floor)
  }

  /** The rows that pass are exactly those above the floor, if there is one, in their order. */
  lemma {:induction false} PassingIsSifted(rows: seq<Row>, floor: Key) returns (at: seq<nat>)
    ensures Sifted(AboveFloor(floor), rows, Passing(rows, floor), at)
  {
    var meets := AboveFloor(floor);
    if rows == [] {
      at := [];
    } else {
      var n := |rows| - 1;
      at := PassingIsSifted(rows[..n], floor);
      SiftedMore(meets, rows[..n], Passing(rows[..n], floor), at, rows[n]);
      assert rows == rows[..n] + [rows[n]];
      if meets(rows[n]) {
        at := at + [n];
      }
    }
  }

  /** A key of the store after a successful run: a row that was put there has its last value; of the others a
      Replace run has deleted those with its prefix, and no run has touched any other but a Delta run its cursor;
      a dry run has touched none. */
  lemma FinalKeyByKey(rows: Rows, opts: Options, source: seq<Row>, now: int, k: Key)
    requires IsInt64(now) && (opts.mode.Delta? ==> k != WatermarkKey(opts.watermarkId))
    ensures
      var final, puts := Final(rows, opts, source, now), Puts(rows, opts, source);
      if opts.mode.DryRun? then final == rows
      else if k in Keys(puts) then
        k in final && exists j: nat :: LastOfKey(puts, j) && puts[j].key == k && final[k] == puts[j].value
      else if opts.mode.Replace? && StartsWith(k.bytes, opts.replacePrefix) then k !in final
      else (k in final <==> k in rows) && (k in rows ==> final[k] == rows[k])
  {
    var puts := Puts(rows, opts, source);
    var base := if opts.mode.Replace? then Without(rows, opts.replacePrefix) else rows;
    if k in Keys(puts) {
      var j := SomeLastOfKey(puts, k);
      WrittenStores(base, puts, j);
    } else {
      WrittenElsewhere(base, puts, k);
    }
  }

  /** All the rows are put except in Delta mode, where those above the cursor are. */
  lemma PutsAre(rows: Rows, opts: Options, source: seq<Row>) returns (at: seq<nat>)
    ensures if opts.mode.Delta?
      then Sifted(AboveFloor(Floor(rows, opts.watermarkId)), source, Puts(rows, opts, source), at)
      else Puts(rows, opts, source) == source
  {
    at := PassingIsSifted(source, Floor(rows, opts.watermarkId));
  }

  // ---------------------------------------------------------------- the run itself

  function RowOf<R>(keyfn: R -> Result<Key>, encode: R -> Result<seq<Byte>>, rec: R): Row {
    Row(if keyfn(rec).Ok? then keyfn(rec).value else NO_KEY, if encode(rec).Ok? then encode(rec).value else [])
  }

  function RowsOf<R>(keyfn: R -> Result<Key>, encode: R -> Result<seq<Byte>>, recs: seq<R>): (rows: seq<Row>)
    ensures |rows| == |recs|
  {
    if recs == [] then []
    else var n := |recs| - 1; RowsOf(keyfn, encode, recs[..n]) + [RowOf(keyfn, encode, recs[n])]
  }

  lemma {:induction false} RowsAre<R>(keyfn: R -> Result<Key>, encode: R -> Result<seq<Byte>>, recs: seq<R>,
                                      rows: seq<Row>)
    requires |rows| == |recs| && forall i | 0 <= i < |recs| :: rows[i] == RowOf(keyfn, encode, recs[i])
    ensures rows == RowsOf(keyfn, encode, recs)
  {
    if recs != [] {
      var n := |recs| - 1;
      RowsAre(keyfn, encode, recs[..n], rows[..n]);
      assert rows == rows[..n] + [rows[n]];
    }
  }

  function Joined<R>(chunks: seq<seq<R>>): seq<R> {
    if chunks == [] then [] else Joined(chunks[..|chunks| - 1]) + chunks[|chunks| - 1]
  }

  lemma {:induction false} JoinedPrefix<R>(chunks: seq<seq<R>>, i: nat)
    requires i <= |chunks|
    ensures Joined(chunks[..i]) <= Joined(chunks)
  {
    if i == |chunks| {
      assert chunks[..i] == chunks;
    } else {
      var n := |chunks| - 1;
      assert chunks[..n][..i] == chunks[..i];
      JoinedPrefix(chunks[..n], i);
    }
  }

  /** A backend whose call number n fails if `fails(n)`, leaving the rows as they were. */
  class Backend {
    var rows: Rows
    var calls: nat
    const fails: nat -> bool

    constructor (rows: Rows, fails: nat -> bool)
      ensures this.rows == rows && this.fails == fails
    {
      this.rows, this.fails, calls := rows, fails, 0;
    }

    method Batch(puts: seq<Row>) returns (ok: bool)
      modifies this
      ensures rows == if ok then Written(old(rows), puts) else old(rows)
    {
      ok := !fails(calls);
      calls := calls + 1;
      if ok {
        var before := rows;
        for i := 0 to |puts|
          invariant rows == Written(before, puts[..i])
        {
          rows := rows[puts[i].key := puts[i].value];
          assert puts[..i + 1][..i] == puts[..i];
        }
        assert puts[..|puts|] == puts;
      }
    }

    method Put(key: Key, value: seq<Byte>) returns (ok: bool)
      modifies this
      ensures rows == if ok then old(rows)[key := value] else old(rows)
    {
      ok := !fails(calls);
      calls := calls + 1;
      if ok {
        rows := rows[key := value];
      }
    }

    method Get(key: Key) returns (ok: bool, value: Result<seq<Byte>>)
      modifies `calls
      ensures ok ==> value == if key in rows then Ok(rows[key]) else Err("missing")
    {
      ok := !fails(calls);
      calls := calls + 1;
      value := if key in rows then Ok(rows[key]) else Err("missing");
    }

    /** Scans a prefix and deletes what it finds. */
    method Wipe(prefix: seq<Byte>) returns (ok: bool)
      modifies this
      ensures rows == if ok then Without(old(rows), prefix) else old(rows)
    {
      ok := !fails(calls);
      calls := calls + 1;
      if !ok {
        return;
      }
      if forall k <- rows :: !StartsWith(k.bytes, prefix) {
        assert rows == Without(rows, prefix);
        return;
      }
      ok := !fails(calls);
      calls := calls + 1;
      if ok {
        rows := Without(rows, prefix);
      }
    }
  }

  lemma NextMultiple(n: nat, size: nat)
    ensures (n + 1) * size == n * size + size
  {
  }

  /** The state of one run: the rows put by but not flushed yet, and the counts. */
  class Run<R> {
    const store: Backend
    const opts: Options
    const keyfn: R -> Result<Key>
    const encode: R -> Result<seq<Byte>>
    const floor: Key
    var pending: seq<Row>
    var summary: Summary
    ghost const base: Rows
    ghost var seen: seq<Row>
    ghost var flushed: seq<Row>

    /** Everything that passed is flushed or pending, and the counts tell. */
    ghost predicate Sound()
      reads this, store
    {
      var puts := Passing(seen, floor);
      && flushed + pending == puts
      && store.rows == (if opts.mode.DryRun? then base else Written(base, flushed))
      && Counts(summary, puts)
    }

    /** Full batches so far, and less than one pending. */
    ghost predicate Valid()
      reads this, store
    {
      && Sound() && summary.rowsIn == |seen|
      && |pending| < BatchSize(opts) && |flushed| == summary.flushes * BatchSize(opts)
    }

    constructor (store: Backend, opts: Options, keyfn: R -> Result<Key>, encode: R -> Result<seq<Byte>>, floor: Key)
      ensures Valid() && this.store == store && this.opts == opts && this.floor == floor
      ensures this.keyfn == keyfn && this.encode == encode && base == store.rows && seen == []
    {
      this.store, this.opts, this.keyfn, this.encode, this.floor := store, opts, keyfn, encode, floor;
      base, seen, flushed, pending, summary := store.rows, [], [], [], Summary(0, 0, 0, 0, NO_KEY);
    }

    method Flush() returns (ok: bool)
      requires Sound()
      modifies this, store
      ensures Sound() && seen == old(seen)
      ensures ok ==> pending == [] && flushed == old(flushed + pending)
      ensures summary == old(summary).(flushes := old(summary.flushes) + if ok && old(pending) != [] then 1 else 0)
    {
      if pending == [] {
        return true;
      }
      ok := true;
      if !opts.mode.DryRun? {
        ok := store.Batch(pending);
      }
      if ok {
        WrittenAppend(base, flushed, pending);
        flushed, pending := flushed + pending, [];
        summary := summary.(flushes := summary.flushes + 1);
      }
    }

    /** The records taken so far are a first part of these, and each has a key. */
    ghost predicate PartOf(recs: seq<R>)
      reads this
    {
      && |seen| <= |recs|
      && forall i | 0 <= i < |seen| :: keyfn(recs[i]).Ok? && seen[i] == RowOf(keyfn, encode, recs[i])
    }

    /** Even after a failure the store holds a first part of what passed. */
    ghost predicate Safe()
      reads this, store
    {
      flushed <= Passing(seen, floor) && store.rows == if opts.mode.DryRun? then base else Written(base, flushed)
    }

    method FlushIfFull() returns (ok: bool)
      requires Sound() && summary.rowsIn == |seen|
      requires |pending| <= BatchSize(opts) && |flushed| == summary.flushes * BatchSize(opts)
      modifies this, store
      ensures Safe() && seen == old(seen) && (ok ==> Valid())
    {
      ok := true;
      if |pending| >= BatchSize(opts) {
        ghost var n, size := summary.flushes, BatchSize(opts);
        NextMultiple(n, size);
        ok := Flush();
      }
    }

    /** Takes one record in: skips it below the floor, or puts it by and flushes a full batch. */
    method Take(rec: R) returns (ok: bool)
      requires Valid()
      modifies this, store
      ensures Safe() && (ok ==> Valid() && seen == old(seen) + [RowOf(keyfn, encode, rec)])
      ensures seen == old(seen) || (keyfn(rec).Ok? && seen == old(seen) + [RowOf(keyfn, encode, rec)])
    {
      summary := summary.(rowsIn := summary.rowsIn + 1);
      var key := keyfn(rec);
      if key.Err? {
        return false;
      }
      if floor != NO_KEY && !Above(key.value, floor) {
        PassingAppend(seen, RowOf(keyfn, encode, rec), floor);
        seen := seen + [RowOf(keyfn, encode, rec)];
        return true;
      }
      var value := encode(rec);
      if value.Err? {
        return false;
      }
      Keep(Row(key.value, value.value));
      ok := FlushIfFull();
    }

    method Keep(row: Row)
      requires Sound() && (floor == NO_KEY || Above(row.key, floor))
      modifies this
      ensures Sound() && seen == old(seen) + [row] && flushed == old(flushed) && pending == old(pending) + [row]
      ensures summary.flushes == old(summary.flushes) && summary.rowsIn == old(summary.rowsIn)
    {
      PassingAppend(seen, row, floor);
      CountsAppend(summary, Passing(seen, floor), row);
      assert flushed + (pending + [row]) == (flushed + pending) + [row];
      seen, pending := seen + [row], pending + [row];
      summary := Counted(summary, row);
    }

    /** Takes the records of a chunk, up to the first that fails. */
    method TakeChunk(chunk: seq<R>, ghost recs: seq<R>) returns (ok: bool)
      requires Valid() && PartOf(recs) && |seen| == |recs|
      modifies this, store
      ensures Safe() && PartOf(recs + chunk) && (ok ==> Valid() && |seen| == |recs + chunk|)
    {
      ok := true;
      assert recs + chunk[..0] == recs;
      for j := 0 to |chunk|
        invariant ok && Valid() && PartOf(recs + chunk[..j]) && |seen| == |recs| + j
      {
        ok := TakeNext(chunk[j], recs + chunk[..j]);
        OneMore(recs, chunk, j);
        if !ok {
          return;
        }
      }
      assert chunk[..|chunk|] == chunk;
    }

    lemma OneMore(recs: seq<R>, chunk: seq<R>, j: nat)
      requires j < |chunk|
      ensures (recs + chunk[..j]) + [chunk[j]] == recs + chunk[..j + 1]
      ensures PartOf(recs + chunk[..j + 1]) ==> PartOf(recs + chunk)
    {
      assert forall i | 0 <= i < |recs + chunk[..j + 1]| :: (recs + chunk[..j + 1])[i] == (recs + chunk)[i];
    }

    method TakeNext(rec: R, ghost recs: seq<R>) returns (ok: bool)
      requires Valid() && PartOf(recs) && |seen| == |recs|
      modifies this, store
      ensures Safe() && PartOf(recs + [rec]) && (ok ==> Valid() && |seen| == |recs| + 1)
    {
      ok := Take(rec);
    }

    method Finish(ghost recs: seq<R>) returns (ok: bool)
      requires Valid() && seen == RowsOf(keyfn, encode, recs)
      modifies this, store
      ensures Safe() && seen == old(seen) && (ok ==> Done(recs))
    {
      NextMultiple(summary.flushes, BatchSize(opts));
      ok := Flush();
    }

    /** Pulls every chunk of the source and flushes what is left. */
    method Drain(chunks: seq<seq<R>>, broken: bool) returns (ok: bool)
      requires Valid() && seen == []
      modifies this, store
      ensures Safe() && PartOf(Joined(chunks))
      ensures ok ==> !broken && |seen| == |Joined(chunks)| && Done(Joined(chunks))
    {
      for i := 0 to |chunks|
        invariant Valid() && PartOf(Joined(chunks[..i])) && |seen| == |Joined(chunks[..i])|
      {
        ok := TakeChunk(chunks[i], Joined(chunks[..i]));
        assert chunks[..i + 1][..i] == chunks[..i];
        if !ok {
          JoinedPrefix(chunks, i + 1);
          return;
        }
      }
      assert chunks[..|chunks|] == chunks;
      if broken {
        return false;
      }
      RowsAre(keyfn, encode, Joined(chunks), seen);
      ok := Finish(Joined(chunks));
    }

    /** All records went through: the store has every row that passed, in order. */
    ghost predicate Done(recs: seq<R>)
      reads this, store
    {
      var puts := Passing(seen, floor);
      && seen == RowsOf(keyfn, encode, recs) && Reports(summary, opts, |recs|, puts)
      && store.rows == if opts.mode.DryRun? then base else Written(base, puts)
    }
  }

  lemma {:induction false} NoFloorPassesAll(rows: seq<Row>)
    ensures Passing(rows, NO_KEY) == rows
  {
    if rows != [] {
      NoFloorPassesAll(rows[..|rows| - 1]);
    }
  }

  /** What happens before the first record: a Replace run clears its prefix, a Delta run reads its cursor. */
  method Prelude(store: Backend, opts: Options) returns (ok: bool, floor: Key)
    modifies store
    ensures store.rows ==
      if ok && opts.mode.Replace? then Without(old(store.rows), opts.replacePrefix) else old(store.rows)
    ensures ok ==> floor == if opts.mode.Delta? then Floor(store.rows, opts.watermarkId) else NO_KEY
    ensures opts.mode.Delta? && opts.watermarkId == [] ==> !ok
  {
    ok, floor := true, NO_KEY;
    if opts.mode.Replace? {
      ok := store.Wipe(opts.replacePrefix);
    } else if opts.mode.Delta? {
      if opts.watermarkId == [] {
        return false, NO_KEY;
      }
      var raw;
      ok, raw := store.Get(WatermarkKey(opts.watermarkId));
      if ok && raw.Ok? {
        var rec := DecodeWatermark(raw.value);
        if rec.Ok? {
          floor := Key(rec.value.lastKey);
        }
      }
    }
  }

  /** Stores the run's greatest key as the cursor of the next run, if the run wrote a key at all. */
  method Advance(store: Backend, opts: Options, last: Key, now: int) returns (ok: bool)
    requires IsInt64(now) && opts.mode.Delta?
    modifies store
    ensures store.rows ==
      if !ok || last == NO_KEY then old(store.rows)
      else old(store.rows)[WatermarkKey(opts.watermarkId) := Encode(Record(opts.watermarkId, last.bytes, now))]
  {
    ok := true;
    if last != NO_KEY {
      ok := store.Put(WatermarkKey(opts.watermarkId), Encode(Record(opts.watermarkId, last.bytes, now)));
    }
  }

  /** The first `read` records have keys. */
  ghost predicate ReadSome<R>(keyfn: R -> Result<Key>, recs: seq<R>, read: nat) {
    read <= |recs| && forall i | 0 <= i < read :: keyfn(recs[i]).Ok?
  }

  method WriteRows<R>(store: Backend, chunks: seq<seq<R>>, broken: bool, keyfn: R -> Result<Key>,
                      encode: R -> Result<seq<Byte>>, opts: Options, floor: Key)
    returns (r: Result<Summary>, ghost done: seq<Row>, ghost read: nat)
    modifies store
    ensures store.rows == if opts.mode.DryRun? then old(store.rows) else Written(old(store.rows), done)
    ensures ReadSome(keyfn, Joined(chunks), read)
    ensures done <= Passing(RowsOf(keyfn, encode, Joined(chunks)[..read]), floor)
    ensures r.Ok? ==>
      && !broken && read == |Joined(chunks)| && done == Passing(RowsOf(keyfn, encode, Joined(chunks)), floor)
      && Reports(r.value, opts, |Joined(chunks)|, done)
  {
    var run := new Run<R>(store, opts, keyfn, encode, floor);
    var ok := run.Drain(chunks, broken);
    read := |run.seen|;
    RowsAre(keyfn, encode, Joined(chunks)[..read], run.seen);
    assert Joined(chunks)[..|Joined(chunks)|] == Joined(chunks);
    done := if ok then Passing(run.seen, floor) else run.flushed;
    r := if ok then Ok(run.summary) else Err("run");
  }

  /** A Delta run after its cursor has been read. */
  method WriteAndAdvance<R>(store: Backend, chunks: seq<seq<R>>, broken: bool, keyfn: R -> Result<Key>,
                            encode: R -> Result<seq<Byte>>, opts: Options, now: int, floor: Key)
    returns (r: Result<Summary>, ghost done: seq<Row>, ghost read: nat)
    requires IsInt64(now) && opts.mode.Delta? && floor == Floor(store.rows, opts.watermarkId)
    modifies store
    ensures ReadSome(keyfn, Joined(chunks), read)
    ensures r.Ok? ==>
      && !broken && read == |Joined(chunks)|
      && store.rows == Final(old(store.rows), opts, RowsOf(keyfn, encode, Joined(chunks)), now)
      && Reports(r.value, opts, |Joined(chunks)|, Puts(old(store.rows), opts, RowsOf(keyfn, encode, Joined(chunks))))
    ensures r.Err? ==>
      && store.rows == Written(old(store.rows), done)
      && done <= Puts(old(store.rows), opts, RowsOf(keyfn, encode, Joined(chunks)[..read]))
  {
    r, done, read := WriteRows(store, chunks, broken, keyfn, encode, opts, floor);
    if r.Ok? {
      assert Joined(chunks)[..read] == Joined(chunks);
      var ok := Advance(store, opts, r.value.lastKey, now);
      r := if ok then r else Err("watermark");
    }
  }

  /** A run in any other mode, once a Replace run has cleared its prefix. */
  method WriteAll<R>(store: Backend, chunks: seq<seq<R>>, broken: bool, keyfn: R -> Result<Key>,
                     encode: R -> Result<seq<Byte>>, opts: Options)
    returns (r: Result<Summary>, ghost read: nat)
    requires !opts.mode.Delta?
    modifies store
    ensures ReadSome(keyfn, Joined(chunks), read)
    ensures r.Ok? ==>
      && !broken && read == |Joined(chunks)|
      && store.rows == (
        var rows := RowsOf(keyfn, encode, Joined(chunks));
        if opts.mode.DryRun? then old(store.rows) else Written(old(store.rows), rows))
      && Reports(r.value, opts, |Joined(chunks)|, RowsOf(keyfn, encode, Joined(chunks)))
  {
    ghost var done;
    NoFloorPassesAll(RowsOf(keyfn, encode, Joined(chunks)));
    r, done, read := WriteRows(store, chunks, broken, keyfn, encode, opts, NO_KEY);
  }

  /** Materializes a stream.  A successful run has found every record's key and leaves the store as `Final`
      says; a failed Delta run leaves its cursor alone and has written a first part of the rows it would have
      written for the `read` records it got through. */
  method Materialize<R>(store: Backend, chunks: seq<seq<R>>, broken: bool, keyfn: R -> Result<Key>,
                        encode: R -> Result<seq<Byte>>, opts: Options, now: int)
    returns (r: Result<Summary>, ghost done: seq<Row>, ghost read: nat)
    requires IsInt64(now)
    modifies store
    ensures ReadSome(keyfn, Joined(chunks), read)
    ensures r.Ok? ==> !broken && read == |Joined(chunks)| && (opts.mode.Delta? ==> opts.watermarkId != [])
    ensures r.Ok? ==> store.rows == Final(old(store.rows), opts, RowsOf(keyfn, encode, Joined(chunks)), now)
    ensures r.Ok? ==>
      Reports(r.value, opts, |Joined(chunks)|, Puts(old(store.rows), opts, RowsOf(keyfn, encode, Joined(chunks))))
    ensures r.Err? && opts.mode.Delta? ==>
      && store.rows == Written(old(store.rows), done)
      && done <= Puts(old(store.rows), opts, RowsOf(keyfn, encode, Joined(chunks)[..read]))
  {
    done, read := [], 0;
    var ok, floor := Prelude(store, opts);
    if !ok {
      return Err("prelude"), done, read;
    }
    if opts.mode.Delta? {
      r, done, read := WriteAndAdvance(store, chunks, broken, keyfn, encode, opts, now, floor);
    } else {
      r, read := WriteAll(store, chunks, broken, keyfn, encode, opts);
    }
  }

  // ---------------------------------------------------------------- a history of Delta runs

  /** A successful run over some source, or a failed one that had already written something. */
  datatype Event = Success(source: seq<Row>, now: int) | Failure(done: seq<Row>)

  function Keys(rows: seq<Row>): set<Key> {
    set row | row in rows :: row.key
  }

  predicate Usable(k: Key, id: seq<Byte>) {
    k != NO_KEY && k != WatermarkKey(id) && |k.bytes| < WIDTH32
  }

  function DeltaOptions(id: seq<Byte>): Options {
    Options(Mode.Delta, 0, [], id)
  }

  function Out(rows: Rows, id: seq<Byte>, e: Event): seq<Row> {
    match e
    case Success(source, _) => Puts(rows, DeltaOptions(id), source)
    case Failure(done) => done
  }

  ghost predicate Lawful(rows: Rows, id: seq<Byte>, e: Event) {
    match e
    case Success(source, now) => IsInt64(now) && forall row <- source :: Usable(row.key, id)
    case Failure(done) => Clear(done, Floor(rows, id)) && forall row <- done :: Usable(row.key, id)
  }

  function After(rows: Rows, id: seq<Byte>, e: Event): Rows
    requires Lawful(rows, id, e)
  {
    match e
    case Success(source, now) => Final(rows, DeltaOptions(id), source, now)
    case Failure(done) => Written(rows, done)
  }

  /** The cursor is the largest of the keys that successful runs wrote. */
  ghost predicate CursorIsLargest(rows: Rows, id: seq<Byte>, written: set<Key>) {
    var floor := Floor(rows, id);
    && NO_KEY !in written
    && if written == {} then floor == NO_KEY
    else floor in written && forall k <- written :: !Above(k, floor)
  }

  lemma {:induction false} GreatestIsLargest(m: Key, rows: seq<Row>)
    ensures var g := Greatest(m, rows);
      && (g == m || g in Keys(rows)) && !Above(m, g) && (g == m || Above(g, m))
      && forall row <- rows :: !Above(row.key, g)
  {
    LessTotal(m.bytes, m.bytes);
    if rows != [] {
      var n := |rows| - 1;
      var h, g, last := Greatest(m, rows[..n]), Greatest(m, rows), rows[n];
      GreatestIsLargest(m, rows[..n]);
      assert rows == rows[..n] + [last];
      LessTotal(h.bytes, last.key.bytes);
      LessTotal(last.key.bytes, last.key.bytes);
      if Above(last.key, h) {
        assert last in rows;
        if h != m {
          LessTransitive(m.bytes, h.bytes, last.key.bytes);
        }
        LessTotal(m.bytes, last.key.bytes);
        forall row <- rows[..n] ensures !Above(row.key, last.key) {
          LeqLess(row.key.bytes, h.bytes, last.key.bytes);
          LessTotal(row.key.bytes, last.key.bytes);
        }
      }
    }
  }

  /** Writing rows of other keys leaves a key alone. */
  lemma {:induction false} WrittenElsewhere(rows: Rows, puts: seq<Row>, k: Key)
    requires k !in Keys(puts)
    ensures k in Written(rows, puts) <==> k in rows
    ensures k in rows ==> Written(rows, puts)[k] == rows[k]
  {
    if puts != [] {
      var n := |puts| - 1;
      assert puts[n] in puts && forall row <- puts[..n] :: row in puts;
      WrittenElsewhere(rows, puts[..n], k);
    }
  }

  lemma ClearIsNew(rows: Rows, id: seq<Byte>, out: seq<Row>, written: set<Key>)
    requires CursorIsLargest(rows, id, written) && Clear(out, Floor(rows, id))
    ensures Keys(out) !! written
  {
    forall k | k in Keys(out) ensures k !in written {
      var row :| row in out && row.key == k;
    }
  }

  lemma FloorKept(rows: Rows, id: seq<Byte>, puts: seq<Row>)
    requires forall row <- puts :: Usable(row.key, id)
    ensures Floor(Written(rows, puts), id) == Floor(rows, id)
  {
    WrittenElsewhere(rows, puts, WatermarkKey(id));
  }

  lemma FloorStored(rows: Rows, id: seq<Byte>, last: Key, now: int)
    requires |id| < WIDTH32 && |last.bytes| < WIDTH32 && IsInt64(now)
    ensures Floor(rows[WatermarkKey(id) := Encode(Record(id, last.bytes, now))], id) == last
  {
    RoundTripIffFits(Record(id, last.bytes, now));
  }

  /** The greatest key of a run that wrote something lies above the cursor it started from. */
  lemma GreatestIsNew(puts: seq<Row>, floor: Key)
    requires puts != [] && Clear(puts, floor) && forall row <- puts :: row.key != NO_KEY
    ensures var last := Greatest(NO_KEY, puts); last in Keys(puts) && last != NO_KEY && Above(last, floor)
  {
    GreatestIsLargest(NO_KEY, puts);
    var last := Greatest(NO_KEY, puts);
    assert puts[0] in puts && puts[0].key.bytes != [];
    assert last != NO_KEY;
    var row :| row in puts && row.key == last;
  }

  lemma LargestGrows(written: set<Key>, floor: Key, puts: seq<Row>)
    requires forall k <- written :: !Above(k, floor)
    requires Above(Greatest(NO_KEY, puts), floor)
    ensures forall k <- written + Keys(puts) :: !Above(k, Greatest(NO_KEY, puts))
  {
    var last := Greatest(NO_KEY, puts);
    GreatestIsLargest(NO_KEY, puts);
    forall k | k in written ensures !Above(k, last) {
      LeqLess(k.bytes, floor.bytes, last.bytes);
      LessTotal(k.bytes, last.bytes);
    }
  }

  lemma SuccessKeeps(rows: Rows, id: seq<Byte>, source: seq<Row>, now: int, written: set<Key>)
    requires |id| < WIDTH32 && IsInt64(now) && CursorIsLargest(rows, id, written)
    requires forall row <- source :: Usable(row.key, id)
    ensures
      var puts := Puts(rows, DeltaOptions(id), source);
      var rows' := Final(rows, DeltaOptions(id), source, now);
      && CursorIsLargest(rows', id, written + Keys(puts))
      && (if puts == [] then rows' == rows else Above(Floor(rows', id), Floor(rows, id)))
  {
    var floor := Floor(rows, id);
    var puts := Passing(source, floor);
    PassingIsClear(source, floor);
    if puts != [] {
      var last := Greatest(NO_KEY, puts);
      GreatestIsNew(puts, floor);
      assert Usable(last, id);
      FloorStored(Written(rows, puts), id, last, now);
      LargestGrows(written, floor, puts);
    } else {
      assert written + Keys(puts) == written;
    }
  }

  /** One run: it writes no key that an earlier successful run wrote, keeps the cursor the largest key, and
      raises it strictly if it succeeds in writing anything. */
  lemma RunKeeps(rows: Rows, id: seq<Byte>, e: Event, written: set<Key>)
    requires |id| < WIDTH32 && Lawful(rows, id, e) && CursorIsLargest(rows, id, written)
    ensures Keys(Out(rows, id, e)) !! written
    ensures CursorIsLargest(After(rows, id, e), id, written + if e.Success? then Keys(Out(rows, id, e)) else {})
    ensures e.Success? && Out(rows, id, e) != [] ==> Above(Floor(After(rows, id, e), id), Floor(rows, id))
    ensures e.Failure? || Out(rows, id, e) == [] ==> Floor(After(rows, id, e), id) == Floor(rows, id)
  {
    match e
    case Success(source, now) =>
      PassingIsClear(source, Floor(rows, id));
      SuccessKeeps(rows, id, source, now, written);
    case Failure(done) => FloorKept(rows, id, done);
      assert written + {} == written;
    ClearIsNew(rows, id, Out(rows, id, e), written);
  }

  // ---- whole histories

  ghost predicate AllLawful(rows: Rows, id: seq<Byte>, events: seq<Event>)
    decreases |events|
  {
    events == [] || (Lawful(rows, id, events[0]) && AllLawful(After(rows, id, events[0]), id, events[1..]))
  }

  function AfterAll(rows: Rows, id: seq<Byte>, events: seq<Event>): Rows
    requires AllLawful(rows, id, events)
    decreases |events|
  {
    if events == [] then rows else AfterAll(After(rows, id, events[0]), id, events[1..])
  }

  function WrittenBy(rows: Rows, id: seq<Byte>, e: Event): set<Key> {
    if e.Success? then Keys(Out(rows, id, e)) else {}
  }

  function AllWritten(rows: Rows, id: seq<Byte>, events: seq<Event>): set<Key>
    requires AllLawful(rows, id, events)
    decreases |events|
  {
    if events == [] then {}
    else WrittenBy(rows, id, events[0]) + AllWritten(After(rows, id, events[0]), id, events[1..])
  }

  /** No run writes a key that was written before, or by an earlier successful run of the history. */
  ghost predicate NoneRewritten(rows: Rows, id: seq<Byte>, events: seq<Event>, written: set<Key>)
    requires AllLawful(rows, id, events)
    decreases |events|
  {
    events == [] || (
      && Keys(Out(rows, id, events[0])) !! written
      && NoneRewritten(After(rows, id, events[0]), id, events[1..], written + WrittenBy(rows, id, events[0])))
  }

  /** The cursor rises strictly with every successful run that writes a row, and stays where it is otherwise. */
  ghost predicate RisesIffWritten(rows: Rows, id: seq<Byte>, events: seq<Event>)
    requires AllLawful(rows, id, events)
    decreases |events|
  {
    if events == [] then true
    else
      var rows' := After(rows, id, events[0]);
      && (if WrittenBy(rows, id, events[0]) != {} then Above(Floor(rows', id), Floor(rows, id))
          else Floor(rows', id) == Floor(rows, id))
      && RisesIffWritten(rows', id, events[1..])
  }

  /** A run as one step of a history. */
  lemma EventKeeps(rows: Rows, id: seq<Byte>, e: Event, written: set<Key>)
    requires |id| < WIDTH32 && Lawful(rows, id, e) && CursorIsLargest(rows, id, written)
    ensures Keys(Out(rows, id, e)) !! written
    ensures CursorIsLargest(After(rows, id, e), id, written + WrittenBy(rows, id, e))
    ensures if WrittenBy(rows, id, e) != {} then Above(Floor(After(rows, id, e), id), Floor(rows, id))
      else Floor(After(rows, id, e), id) == Floor(rows, id)
  {
    RunKeeps(rows, id, e, written);
    WrittenByNone(rows, id, e);
  }

  lemma WrittenByNone(rows: Rows, id: seq<Byte>, e: Event)
    ensures WrittenBy(rows, id, e) == {} <==> e.Failure? || Out(rows, id, e) == []
  {
    if e.Success? && Out(rows, id, e) != [] {
      assert Out(rows, id, e)[0].key in WrittenBy(rows, id, e);
    }
  }

  lemma {:induction false} HistoryRises(rows: Rows, id: seq<Byte>, events: seq<Event>, written: set<Key>)
    requires |id| < WIDTH32 && AllLawful(rows, id, events) && CursorIsLargest(rows, id, written)
    ensures NoneRewritten(rows, id, events, written) && RisesIffWritten(rows, id, events)
    decreases |events|
  {
    if events != [] {
      var e := events[0];
      EventKeeps(rows, id, e, written);
      HistoryRises(After(rows, id, e), id, events[1..], written + WrittenBy(rows, id, e));
    }
  }

  lemma {:induction false} HistoryCursor(rows: Rows, id: seq<Byte>, events: seq<Event>, written: set<Key>)
    requires |id| < WIDTH32 && AllLawful(rows, id, events) && CursorIsLargest(rows, id, written)
    ensures CursorIsLargest(AfterAll(rows, id, events), id, written + AllWritten(rows, id, events))
    ensures !Above(Floor(rows, id), Floor(AfterAll(rows, id, events), id))
    decreases |events|
  {
    if events == [] {
      LessTotal(Floor(rows, id).bytes, Floor(rows, id).bytes);
      assert written + {} == written;
    } else {
      var e := events[0];
      var rows', out := After(rows, id, e), WrittenBy(rows, id, e);
      EventKeeps(rows, id, e, written);
      HistoryCursor(rows', id, events[1..], written + out);
      var rest := AllWritten(rows', id, events[1..]);
      assert written + (out + rest) == (written + out) + rest;
      NeverFalls(Floor(rows, id), Floor(rows', id), Floor(AfterAll(rows, id, events), id));
    }
  }

  /** Over any history of Delta runs, failed ones among them, no key a successful run wrote is written again,
      the stored cursor is the largest key ever written by one, and it rises with every run that writes. */
  lemma HistoryKeeps(rows: Rows, id: seq<Byte>, events: seq<Event>, written: set<Key>)
    requires |id| < WIDTH32 && AllLawful(rows, id, events) && CursorIsLargest(rows, id, written)
    ensures NoneRewritten(rows, id, events, written) && RisesIffWritten(rows, id, events)
    ensures CursorIsLargest(AfterAll(rows, id, events), id, written + AllWritten(rows, id, events))
    ensures !Above(Floor(rows, id), Floor(AfterAll(rows, id, events), id))
  {
    HistoryRises(rows, id, events, written);
    HistoryCursor(rows, id, events, written);
  }

  lemma NeverFalls(a: Key, b: Key, c: Key)
    requires (a == b || Above(b, a)) && !Above(b, c)
    ensures !Above(a, c)
  {
    if Above(b, a) && Above(a, c) {
      LessTransitive(c.bytes, a.bytes, b.bytes);
    }
  }

  // ---- the histories that Delta runs make

  datatype Job<!R> = Job(chunks: seq<seq<R>>, broken: bool, opts: Options, now: int)

  /** A Delta job under this cursor, all of whose keys are usable. */
  ghost predicate Fair<R>(job: Job<R>, keyfn: R -> Result<Key>, id: seq<Byte>) {
    && job.opts.mode.Delta? && job.opts.watermarkId == id && IsInt64(job.now)
    && forall rec <- Joined(job.chunks) :: keyfn(rec).Ok? ==> Usable(keyfn(rec).value, id)
  }

  lemma {:induction false} RowsOfUsable<R>(keyfn: R -> Result<Key>, encode: R -> Result<seq<Byte>>, recs: seq<R>,
                                           id: seq<Byte>)
    requires forall rec <- recs :: keyfn(rec).Ok? && Usable(keyfn(rec).value, id)
    ensures forall row <- RowsOf(keyfn, encode, recs) :: Usable(row.key, id)
  {
    if recs != [] {
      RowsOfUsable(keyfn, encode, recs[..|recs| - 1], id);
    }
  }

  lemma ReadUsable<R>(job: Job<R>, keyfn: R -> Result<Key>, encode: R -> Result<seq<Byte>>, id: seq<Byte>, read: nat)
    requires Fair(job, keyfn, id) && ReadSome(keyfn, Joined(job.chunks), read)
    ensures forall row <- RowsOf(keyfn, encode, Joined(job.chunks)[..read]) :: Usable(row.key, id)
  {
    var recs := Joined(job.chunks);
    forall rec <- recs[..read] ensures keyfn(rec).Ok? && Usable(keyfn(rec).value, id) {
      assert rec in recs;
    }
    RowsOfUsable(keyfn, encode, recs[..read], id);
  }

  lemma SuccessIsLawful<R>(job: Job<R>, keyfn: R -> Result<Key>, encode: R -> Result<seq<Byte>>, id: seq<Byte>)
    requires Fair(job, keyfn, id) && ReadSome(keyfn, Joined(job.chunks), |Joined(job.chunks)|)
    ensures forall rows: Rows :: Lawful(rows, id, Success(RowsOf(keyfn, encode, Joined(job.chunks)), job.now))
  {
    var recs := Joined(job.chunks);
    assert recs[..|recs|] == recs;
    ReadUsable(job, keyfn, encode, id, |recs|);
  }

  lemma FailureIsLawful<R>(rows: Rows, job: Job<R>, keyfn: R -> Result<Key>, encode: R -> Result<seq<Byte>>,
                           id: seq<Byte>,
                           read: nat, done: seq<Row>)
    requires Fair(job, keyfn, id) && ReadSome(keyfn, Joined(job.chunks), read)
    requires done <= Passing(RowsOf(keyfn, encode, Joined(job.chunks)[..read]), Floor(rows, id))
    ensures Lawful(rows, id, Failure(done))
  {
    var floor, all := Floor(rows, id), RowsOf(keyfn, encode, Joined(job.chunks)[..read]);
    ReadUsable(job, keyfn, encode, id, read);
    PassingIsClear(all, floor);
    forall row <- done ensures row in Passing(all, floor) {
    }
  }

  /** Every Delta run, whatever its batch size and wherever it fails, is an event of a lawful history. */
  method DeltaRun<R>(store: Backend, job: Job<R>, keyfn: R -> Result<Key>, encode: R -> Result<seq<Byte>>,
                     id: seq<Byte>)
    returns (r: Result<Summary>, ghost e: Event)
    requires Fair(job, keyfn, id)
    modifies store
    ensures Lawful(old(store.rows), id, e) && store.rows == After(old(store.rows), id, e) && r.Ok? == e.Success?
    ensures r.Ok? ==> e.source == RowsOf(keyfn, encode, Joined(job.chunks))
  {
    ghost var done, read, recs := [], 0, Joined(job.chunks);
    r, done, read := Materialize(store, job.chunks, job.broken, keyfn, encode, job.opts, job.now);
    e := if r.Ok? then Success(RowsOf(keyfn, encode, recs), job.now) else Failure(done);
    if r.Ok? {
      SuccessIsLawful(job, keyfn, encode, id);
    } else {
      FailureIsLawful(old(store.rows), job, keyfn, encode, id, read, done);
    }
  }

  /** A history of Delta runs over a store that has no cursor yet: no key that a successful run wrote is
      written again, the cursor rises with every run that writes, and it ends at the largest key written. */
  method RunHistory<R>(store: Backend, jobs: seq<Job<R>>, keyfn: R -> Result<Key>, encode: R -> Result<seq<Byte>>,
                       id: seq<Byte>)
    returns (ghost events: seq<Event>)
    requires |id| < WIDTH32 && forall job <- jobs :: Fair(job, keyfn, id)
    modifies store
    ensures |events| == |jobs| && AllLawful(old(store.rows), id, events)
    ensures store.rows == AfterAll(old(store.rows), id, events)
    ensures Floor(old(store.rows), id) == NO_KEY ==>
      && NoneRewritten(old(store.rows), id, events, {}) && RisesIffWritten(old(store.rows), id, events)
      && CursorIsLargest(store.rows, id, AllWritten(old(store.rows), id, events))
  {
    events := RunAll(store, jobs, keyfn, encode, id);
    if Floor(old(store.rows), id) == NO_KEY {
      HistoryKeeps(old(store.rows), id, events, {});
      assert {} + AllWritten(old(store.rows), id, events) == AllWritten(old(store.rows), id, events);
    }
  }

  method RunAll<R>(store: Backend, jobs: seq<Job<R>>, keyfn: R -> Result<Key>, encode: R -> Result<seq<Byte>>,
                   id: seq<Byte>)
    returns (ghost events: seq<Event>)
    requires forall job <- jobs :: Fair(job, keyfn, id)
    modifies store
    ensures |events| == |jobs| && AllLawful(old(store.rows), id, events)
    ensures store.rows == AfterAll(old(store.rows), id, events)
    decreases |jobs|
  {
    if jobs == [] {
      return [];
    }
    ghost var e;
    var r;
    r, e := DeltaRun(store, jobs[0], keyfn, encode, id);
    events := RunAll(store, jobs[1..], keyfn, encode, id);
    events := [e] + events;
  }

  // ---- where the cursor does not help

  /** A cursor record that does not decode is ignored: the run starts over and writes everything. */
  lemma BadCursorStartsOver(rows: Rows, id: seq<Byte>, source: seq<Row>)
    requires WatermarkKey(id) in rows && Decode(rows[WatermarkKey(id)]).Err?
    ensures Puts(rows, DeltaOptions(id), source) == source
  {
    NoFloorPassesAll(source);
  }

  /** A successful run moves the cursor exactly when it writes a key that is not empty. */
  lemma CursorMovesIff(rows: Rows, id: seq<Byte>, source: seq<Row>, now: int)
    requires |id| < WIDTH32 && IsInt64(now) && forall row <- source :: row.key == NO_KEY || Usable(row.key, id)
    ensures
      (Floor(Final(rows, DeltaOptions(id), source, now), id) != Floor(rows, id))
      == (exists row <- Puts(rows, DeltaOptions(id), source) :: row.key != NO_KEY)
  {
    var floor := Floor(rows, id);
    var puts := Passing(source, floor);
    var last := Greatest(NO_KEY, puts);
    PassingIsClear(source, floor);
    GreatestIsLargest(NO_KEY, puts);
    WrittenElsewhere(rows, puts, WatermarkKey(id));
    if last != NO_KEY {
      var row :| row in puts && row.key == last;
      LessTotal(last.bytes, floor.bytes);
      FloorStored(Written(rows, puts), id, last, now);
    } else {
      forall row <- puts ensures row.key == NO_KEY {
        LessTotal(row.key.bytes, []);
      }
    }
  }
}
