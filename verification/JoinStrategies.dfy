/** The join entry point: the planner's choice, the build of the right side, and the collected answer,
    which is the reference join whatever was chosen. */
module JoinStrategies {
  import opened Optional
  import opened Sequences
  import opened JoinSpec
  import opened BatchGet
  import opened JoinExecutors

  datatype Strategy = Auto | BatchIndexNestedLoop | IndexNestedLoop | HashJoin | MergeJoin | NestedLoop

  datatype CostTier = Local | Embedded | Network | Computed

  datatype Options = Options(force: Strategy, batchSize: nat, hashBuildCap: nat, limit: nat)

  datatype Plan = Plan(strategy: Strategy, batchSize: nat)

  /** JoinPlanner::plan. */
  function Choose(opts: Options, nativeBatchGet: bool, leftTier: CostTier, rightTier: CostTier): (p: Plan)
    ensures p.strategy != Auto && p.batchSize > 0
    ensures opts.force != Auto ==> p.strategy == opts.force
    ensures p.strategy.BatchIndexNestedLoop? <==>
      opts.force.BatchIndexNestedLoop? || (opts.force.Auto? && nativeBatchGet && !rightTier.Computed?)
    ensures p.strategy.HashJoin? <==>
      opts.force.HashJoin? || (opts.force.Auto? && !nativeBatchGet && leftTier.Local?
                               && !rightTier.Network? && !rightTier.Computed? && opts.hashBuildCap > 0)
    ensures p.strategy.NestedLoop? || p.strategy.MergeJoin? ==> p.strategy == opts.force
    ensures opts.force.Auto? && p.strategy.IndexNestedLoop? ==> p.batchSize == 1
    ensures opts.batchSize > 0 && p.batchSize != opts.batchSize ==> opts.force.Auto? && p.strategy.IndexNestedLoop?
    ensures opts.batchSize == 0 ==>
      p.batchSize == if p.strategy.IndexNestedLoop? && opts.force.Auto? then 1
                     else if opts.force.Auto? && rightTier.Network? then 256 else 1024
  {
    var rightLocal := rightTier.Local? || rightTier.Embedded?;
    if opts.force != Auto then Plan(opts.force, if opts.batchSize > 0 then opts.batchSize else 1024)
    else if nativeBatchGet && rightLocal then
      Plan(BatchIndexNestedLoop, if opts.batchSize > 0 then opts.batchSize else 1024)
    else if nativeBatchGet && rightTier.Network? then
      Plan(BatchIndexNestedLoop, if opts.batchSize > 0 then opts.batchSize else 256)
    else if rightLocal && leftTier.Local? && opts.hashBuildCap > 0 then
      Plan(HashJoin, if opts.batchSize > 0 then opts.batchSize else 1024)
    else Plan(IndexNestedLoop, 1)
  }

  // ---------------------------------------------------------------- scanning the right side

  /** What is left of a limit, if there is one, for the rows of a page. */
  function PageUpTo<T>(limit: Option<nat>, rows: seq<T>): (cut: seq<T>)
    ensures limit.Some? ==> |cut| <= limit.value
  {
    if limit.Some? then Taken(limit.value, rows) else rows
  }

  function Less<T>(limit: Option<nat>, cut: seq<T>): Option<nat>
    requires limit.Some? ==> |cut| <= limit.value
  {
    if limit.Some? then Some(limit.value - |cut|) else None
  }

  /** What a scan yields: it ends at its limit, and reports an empty page as its end. */
  function Scanned(pages: seq<Pulled<(Key, string)>>, limit: Option<nat>): seq<(Key, string)> {
    if limit == Some(0) || pages == [] || pages[0].Fault? || pages[0].rows == [] then []
    else
      var cut := PageUpTo(limit, pages[0].rows);
      cut + Scanned(pages[1..], Less(limit, cut))
  }

  /** A limited scan yields the first rows of an unlimited one. */
  lemma {:induction false} ScanLimited(pages: seq<Pulled<(Key, string)>>, n: nat)
    ensures Scanned(pages, Some(n)) == Taken(n, Scanned(pages, None))
  {
    if n > 0 && pages != [] && pages[0].Chunk? && pages[0].rows != [] {
      var rows := pages[0].rows;
      var cut := PageUpTo(Some(n), rows);
      ScanLimited(pages[1..], n - |cut|);
      if |rows| > n {
        assert (rows + Scanned(pages[1..], None))[..n] == rows[..n];
      } else {
        assert Taken(n, rows + Scanned(pages[1..], None)) == rows + Taken(n - |rows|, Scanned(pages[1..], None));
      }
    }
  }

  /** An unlimited scan stops early exactly when an empty page is followed by a row. */
  lemma {:induction false} ScanCompleteIff(pages: seq<Pulled<(Key, string)>>)
    ensures Scanned(pages, None) == Rows(pages) <==> !EmptyPageThenRow(pages)
    ensures |Scanned(pages, None)| <= |Rows(pages)|
  {
    if pages != [] && pages[0].Chunk? {
      ScanCompleteIff(pages[1..]);
      var rows, a, b := pages[0].rows, Scanned(pages[1..], None), Rows(pages[1..]);
      assert (rows + a)[|rows|..] == a && (rows + b)[|rows|..] == b;
    }
  }

  ghost predicate EmptyPageThenRow(pages: seq<Pulled<(Key, string)>>) {
    && pages != [] && pages[0].Chunk?
    && if pages[0].rows == [] then Rows(pages[1..]) != [] else EmptyPageThenRow(pages[1..])
  }

  /** The scan reaches its end without a failed pull or an undecodable value among the rows it yields. */
  ghost predicate ScanHealthy<R>(pages: seq<Pulled<(Key, string)>>, decode: string -> Option<R>, limit: Option<nat>) {
    limit != Some(0) && pages != [] ==>
      && pages[0].Chunk?
      && var cut := PageUpTo(limit, pages[0].rows);
      && (forall e :: e in cut ==> decode(e.1).Some?)
      && (cut != [] ==> ScanHealthy(pages[1..], decode, Less(limit, cut)))
  }

  ghost predicate DecodedAs<R>(table: seq<(Key, string)>, out: seq<(Key, R)>, decode: string -> Option<R>) {
    && |out| == |table|
    && forall i :: 0 <= i < |out| ==> out[i].0 == table[i].0 && decode(table[i].1) == Some(out[i].1)
  }

  /** A scan under way: `out` decodes what came before the script still to be pulled. */
  ghost predicate Underway<R>(pages: seq<Pulled<(Key, string)>>, limit: Option<nat>, out: seq<(Key, R)>,
                              script: seq<Pulled<(Key, string)>>, left: Option<nat>, decode: string -> Option<R>)
  {
    var all := Scanned(pages, limit);
    && |out| <= |all| && all[|out|..] == Scanned(script, left)
    && DecodedAs(all[..|out|], out, decode)
    && (ScanHealthy(pages, decode, limit) ==> ScanHealthy(script, decode, left))
  }

  lemma DecodedAppend<R>(a: seq<(Key, string)>, x: seq<(Key, R)>, b: seq<(Key, string)>, y: seq<(Key, R)>,
                         decode: string -> Option<R>)
    requires DecodedAs(a, x, decode) && DecodedAs(b, y, decode)
    ensures DecodedAs(a + b, x + y, decode)
  {
  }

  lemma SplitFurther<T>(all: seq<T>, n: nat, page: seq<T>, later: seq<T>)
    requires n <= |all| && all[n..] == page + later
    ensures n + |page| <= |all| && all[..n + |page|] == all[..n] + page && all[n + |page|..] == later
  {
    assert all == all[..n] + (page + later);
  }

  lemma PageAdvances<R>(pages: seq<Pulled<(Key, string)>>, limit: Option<nat>, out: seq<(Key, R)>, rows: seq<(Key, R)>,
                        script: seq<Pulled<(Key, string)>>, left: Option<nat>, decode: string -> Option<R>)
    requires Underway(pages, limit, out, script, left, decode) && left != Some(0)
    requires script != [] && script[0].Chunk? && script[0].rows != []
    requires DecodedAs(PageUpTo(left, script[0].rows), rows, decode)
    ensures Underway(pages, limit, out + rows, script[1..], Less(left, PageUpTo(left, script[0].rows)), decode)
  {
    var all, page := Scanned(pages, limit), PageUpTo(left, script[0].rows);
    var later := Scanned(script[1..], Less(left, page));
    DecodedAppend(all[..|out|], out, page, rows, decode);
    SplitFurther(all, |out|, page, later);
  }

  /** The stream that decodes a scan on the fly. */
  class DecodingScan<R> {
    const source: Source<(Key, string)>
    const decode: string -> Option<R>
    var left: Option<nat>

    /** A limit of zero means none. */
    constructor (pages: seq<Pulled<(Key, string)>>, decode: string -> Option<R>, limit: nat)
      ensures fresh(source) && source.script == pages && this.decode == decode
      ensures left == if limit == 0 then None else Some(limit)
    {
      this.source := new Source(pages);
      this.decode, left := decode, if limit == 0 then None else Some(limit);
    }

    /** One page, decoded up to the limit.  Nothing is pulled once that is reached; the end is reported then,
        at the end of the pages, and at an empty page. */
    method Pull() returns (r: Result<Option<seq<(Key, R)>>>)
      modifies this, source
      ensures var pages, cut := old(source.script), old(left);
        && (r == Ok(None) <==> cut == Some(0) || pages == [] || pages[0] == Chunk([]))
        && source.script == (if cut == Some(0) || pages == [] then pages else pages[1..])
        && (r.Ok? && r.value.Some? ==>
              && pages != [] && pages[0].Chunk? && pages[0].rows != []
              && DecodedAs(PageUpTo(cut, pages[0].rows), r.value.value, decode)
              && left == Less(cut, PageUpTo(cut, pages[0].rows)))
        && (r.Err? ==> left == cut && !ScanHealthy(pages, decode, cut))
        && (r == Ok(None) ==> left == cut)
    {
      if left == Some(0) {
        return Ok(None);
      }
      ghost var pages := source.script;
      var p := source.Pull();
      match p
      case Err(e) => return Err(e);
      case Ok(None) => return Ok(None);
      case Ok(Some(kvs)) =>
        r := Decode(PageUpTo(left, kvs));
        if r.Ok? && r.value.Some? {
          left := Less(left, r.value.value);
        }
    }

    /** Decodes rows up to the first value that does not decode. */
    method Decode(rows: seq<(Key, string)>) returns (r: Result<Option<seq<(Key, R)>>>)
      ensures r == Ok(None) <==> rows == []
      ensures r.Ok? && r.value.Some? ==> DecodedAs(rows, r.value.value, decode)
      ensures r.Err? <==> exists e :: e in rows && decode(e.1).None?
    {
      var out: seq<(Key, R)> := [];
      for i := 0 to |rows|
        invariant DecodedAs(rows[..i], out, decode)
      {
        var d := decode(rows[i].1);
        if d.None? {
          assert rows[i] in rows;
          return Err("undecodable value");
        }
        out := out + [(rows[i].0, d.value)];
      }
      assert rows[..|rows|] == rows;
      r := Ok(if out == [] then None else Some(out));
    }
  }

  /** A scan read to its end.  NestedLoop and MergeJoin read the right side so, without a limit. */
  method BuildList<R>(pages: seq<Pulled<(Key, string)>>, decode: string -> Option<R>, limit: nat)
    returns (r: Result<seq<(Key, R)>>)
    ensures r.Ok? ==> DecodedAs(Limited(limit, Scanned(pages, None)), r.value, decode)
    ensures r.Ok? <==> ScanHealthy(pages, decode, if limit == 0 then None else Some(limit))
  {
    var scan := new DecodingScan<R>(pages, decode, limit);
    ghost var start := scan.left;
    ScanLimited(pages, limit);
    var out: seq<(Key, R)> := [];
    while true
      invariant Underway(pages, start, out, scan.source.script, scan.left, decode)
      invariant fresh(scan) && fresh(scan.source) && scan.decode == decode
      invariant ScanHealthy(pages, decode, start) <==> ScanHealthy(scan.source.script, decode, scan.left)
      decreases |scan.source.script|
    {
      ghost var before, left := scan.source.script, scan.left;
      var p := scan.Pull();
      match p
      case Err(e) => return Err(e);
      case Ok(None) => return Ok(out);
      case Ok(Some(rows)) =>
        PageAdvances(pages, start, out, rows, before, left, decode);
        out := out + rows;
    }
  }

  /** The index keeps the first value of each key. */
  ghost predicate IndexOf<R>(out: seq<(Key, R)>, index: map<Key, R>) {
    forall k :: FirstMatch(out, k) == if k in index then Some(index[k]) else None
  }

  lemma {:induction false} FirstMatchSnoc<R>(out: seq<(Key, R)>, e: (Key, R), k: Key)
    ensures FirstMatch(out + [e], k) ==
      if FirstMatch(out, k).Some? then FirstMatch(out, k) else if e.0 == k then Some(e.1) else None
  {
    if out != [] {
      assert (out + [e])[1..] == out[1..] + [e];
      FirstMatchSnoc(out[1..], e, k);
    }
  }

  lemma IndexSnoc<R>(out: seq<(Key, R)>, e: (Key, R), index: map<Key, R>)
    requires IndexOf(out, index)
    ensures IndexOf(out + [e], if e.0 in index then index else index[e.0 := e.1])
  {
    forall k ensures FirstMatch(out + [e], k) ==
      if FirstMatch(out, k).Some? then FirstMatch(out, k) else if e.0 == k then Some(e.1) else None
    {
      FirstMatchSnoc(out, e, k);
    }
  }

  lemma {:induction false} NoFirstMatch<R>(out: seq<(Key, R)>, k: Key)
    requires forall i :: 0 <= i < |out| ==> out[i].0 != k
    ensures FirstMatch(out, k) == None
  {
    if out != [] {
      NoFirstMatch(out[1..], k);
    }
  }

  /** The index of the rows so far: below the cap, and one entry a row when no key repeats. */
  ghost predicate Indexes<R>(out: seq<(Key, R)>, index: map<Key, R>, cap: nat) {
    && IndexOf(out, index) && |index| <= |out| && (cap == 0 || |index| < cap)
    && (UniqueKeys(out) ==> |index| == |out|)
  }

  lemma IndexRow<R>(out: seq<(Key, R)>, e: (Key, R), index: map<Key, R>)
    requires IndexOf(out, index) && |index| <= |out| && (UniqueKeys(out) ==> |index| == |out|)
    ensures
      var index' := if e.0 in index then index else index[e.0 := e.1];
      && IndexOf(out + [e], index') && |index'| <= |out| + 1
      && (UniqueKeys(out + [e]) ==> |index'| == |out| + 1)
  {
    IndexSnoc(out, e, index);
    if UniqueKeys(out + [e]) {
      var all := out + [e];
      assert forall i :: 0 <= i < |out| ==> all[i] == out[i];
      forall i | 0 <= i < |out| ensures out[i].0 != e.0 {
        assert all[i].0 != all[|out|].0;
      }
      NoFirstMatch(out, e.0);
      assert FirstMatch(out, e.0) == None;
    }
  }

  /** Adds the rows of one page, refusing as soon as the index holds `cap` keys. */
  method IndexPage<R>(ghost base: seq<(Key, R)>, start: map<Key, R>, rows: seq<(Key, R)>, cap: nat)
    returns (ok: bool, index: map<Key, R>)
    requires Indexes(base, start, cap)
    ensures ok ==> Indexes(base + rows, index, cap)
    ensures !ok ==> 0 < cap <= |base + rows|
  {
    index := start;
    assert base + rows[..0] == base;
    for i := 0 to |rows|
      invariant Indexes(base + rows[..i], index, cap)
    {
      IndexRow(base + rows[..i], rows[i], index);
      assert base + rows[..i + 1] == (base + rows[..i]) + [rows[i]];
      if rows[i].0 !in index {
        index := index[rows[i].0 := rows[i].1];
      }
      if cap > 0 && |index| >= cap {
        return false, index;
      }
    }
    assert rows[..|rows|] == rows;
    ok := true;
  }

  /** HashJoin: indexes the right side; refused exactly when it holds as many keys as the cap. */
  method BuildIndex<R>(pages: seq<Pulled<(Key, string)>>, decode: string -> Option<R>, cap: nat)
    returns (r: Result<map<Key, R>>, ghost out: seq<(Key, R)>)
    ensures r.Ok? ==> DecodedAs(Scanned(pages, None), out, decode) && IndexOf(out, r.value)
    ensures r.Ok? && UniqueKeys(Scanned(pages, None)) ==> cap == 0 || |Scanned(pages, None)| < cap
    ensures r.Err? ==> !ScanHealthy(pages, decode, None) || (0 < cap <= |Scanned(pages, None)|)
  {
    var scan := new DecodingScan<R>(pages, decode, 0);
    out := [];
    var index: map<Key, R> := map[];
    while true
      invariant Underway(pages, None, out, scan.source.script, scan.left, decode) && Indexes(out, index, cap)
      invariant fresh(scan) && fresh(scan.source) && scan.decode == decode
      decreases |scan.source.script|
    {
      ghost var before, left := scan.source.script, scan.left;
      var p := scan.Pull();
      match p
      case Err(e) => return Err(e), out;
      case Ok(None) => return Ok(index), out;
      case Ok(Some(rows)) =>
        var ok;
        ok, index := IndexPage(out, index, rows, cap);
        PageAdvances(pages, None, out, rows, before, left, decode);
        out := out + rows;
        if !ok {
          return Err("hash build cap"), out;
        }
    }
  }

  // ---------------------------------------------------------------- the join

  /** The right side a strategy sees: lookups see the table, scans see what the scan yields. */
  function Seen(strategy: Strategy, table: seq<(Key, string)>, pages: seq<Pulled<(Key, string)>>): seq<(Key, string)> {
    if strategy.BatchIndexNestedLoop? || strategy.IndexNestedLoop? then table else Scanned(pages, None)
  }

  /** Nothing the chosen strategy does on the right side can fail. */
  ghost predicate RightHealthy<R>(strategy: Strategy, pages: seq<Pulled<(Key, string)>>, decode: string -> Option<R>,
                                  cap: nat) {
    !strategy.BatchIndexNestedLoop? && !strategy.IndexNestedLoop? ==>
      ScanHealthy(pages, decode, None) && (strategy.HashJoin? && cap > 0 ==> |Scanned(pages, None)| < cap)
  }

  lemma {:induction false} DecodedServes<L, R>(q: Query<L, R>, out: seq<(Key, R)>)
    requires DecodedAs(q.table, out, q.decode)
    ensures Decodable(q) && forall k :: FirstMatch(out, k) == Stored(q, k)
    decreases |out|
  {
    if out != [] {
      DecodedServes(q.(table := q.table[1..]), out[1..]);
      assert q.table == [q.table[0]] + q.table[1..];
      forall k ensures FirstMatch(out, k) == Stored(q, k) {
        assert FirstMatch(out[1..], k) == Stored(q.(table := q.table[1..]), k);
      }
    }
  }

  /** Builds what the strategy needs of the right side. */
  method Prepare<L, R>(strategy: Strategy, size: nat, husk: string, q: Query<L, R>,
                       pages: seq<Pulled<(Key, string)>>, cap: nat)
    returns (r: Result<Probing<R>>)
    requires size > 0 && UniqueKeys(q.table)
    requires !strategy.BatchIndexNestedLoop? && !strategy.IndexNestedLoop? ==> q.table == Scanned(pages, None)
    ensures r.Ok? ==> Serves(r.value, q)
    ensures RightHealthy(strategy, pages, q.decode, cap) ==> r.Ok?
    ensures strategy.HashJoin? && r.Ok? ==> cap == 0 || |Scanned(pages, None)| < cap
  {
    if strategy.BatchIndexNestedLoop? || strategy.IndexNestedLoop? {
      return Ok(Batched(if strategy.IndexNestedLoop? then 1 else size, husk));
    }
    if strategy.HashJoin? {
      var index, out := BuildIndex(pages, q.decode, cap);
      if index.Err? {
        return Err(index.error);
      }
      DecodedServes(q, out);
      forall k ensures Stored(q, k) == if k in index.value then Some(index.value[k]) else None {
        assert FirstMatch(out, k) == Stored(q, k);
      }
      return Ok(Indexed(index.value));
    }
    var list := BuildList(pages, q.decode, 0);
    if list.Err? {
      return Err(list.error);
    }
    DecodedServes(q, list.value);
    return Ok(Listed(list.value));
  }

  /** join(...).collect(): whatever the planner chose and however both sides were chunked, the collected
      rows are the first `limit` rows of the reference join; and nothing but a failing pull, row, right
      side or build cap makes it fail. */
  method JoinAndCollect<L, R>(left: seq<Pulled<L>>, kind: JoinKind, extract: L -> Option<Key>,
                              table: seq<(Key, string)>, pages: seq<Pulled<(Key, string)>>,
                              decode: string -> Option<R>, opts: Options, nativeBatchGet: bool, husk: string)
    returns (r: Result<seq<Joined<L, R>>>, plan: Plan)
    requires UniqueKeys(table) && UniqueKeys(Scanned(pages, None))
    ensures plan == Choose(opts, nativeBatchGet, Computed, Local)
    ensures
      var q := Query(kind, extract, Seen(plan.strategy, table, pages), decode);
      && (r.Ok? ==> r.value == Limited(opts.limit, Join(q, Rows(left))))
      && (Healthy(q, [], left) && RightHealthy(plan.strategy, pages, decode, opts.hashBuildCap) ==> r.Ok?)
    ensures plan.strategy.HashJoin? && r.Ok? ==> opts.hashBuildCap == 0 || |Scanned(pages, None)| < opts.hashBuildCap
    ensures r.Ok? && Rows(pages) == table && !EmptyPageThenRow(pages) ==>
      r.value == Limited(opts.limit, Join(Query(kind, extract, table, decode), Rows(left)))
  {
    plan := Choose(opts, nativeBatchGet, Computed, Local);
    ScanCompleteIff(pages);
    var q := Query(kind, extract, Seen(plan.strategy, table, pages), decode);
    var probing := Prepare(plan.strategy, plan.batchSize, husk, q, pages, opts.hashBuildCap);
    if probing.Err? {
      return Err(probing.error), plan;
    }
    var source := new Source(left);
    var machine := new JoinMachine(q, probing.value, source, opts.limit);
    r := machine.Collect();
  }

  // ---------------------------------------------------------------- what the reference join means

  function WithMatch<L, R>(rows: seq<Joined<L, R>>, present: bool): seq<Joined<L, R>> {
    if rows == [] then []
    else (if rows[0].right.Some? == present then [rows[0]] else []) + WithMatch(rows[1..], present)
  }

  function Lefts<L, R>(rows: seq<Joined<L, R>>): seq<L> {
    if rows == [] then [] else [rows[0].left] + Lefts(rows[1..])
  }

  /** The left outer join keeps every left row once and in order; the inner and semi joins are its
      matched rows, and the anti join the others. */
  lemma {:induction false} KindsPartitionLeftOuter<L, R>(q: Query<L, R>, ls: seq<L>)
    requires Clean(q.(kind := LeftOuter), ls)
    ensures Lefts(Join(q.(kind := LeftOuter), ls)) == ls
    ensures Join(q.(kind := Inner), ls) == WithMatch(Join(q.(kind := LeftOuter), ls), true)
    ensures Join(q.(kind := SemiLeft), ls) == Join(q.(kind := Inner), ls)
    ensures Join(q.(kind := AntiLeft), ls) == WithMatch(Join(q.(kind := LeftOuter), ls), false)
  {
    if ls != [] {
      assert OutcomeOf(q.(kind := LeftOuter), ls[0]) != Fails;
      KindsPartitionLeftOuter(q, ls[1..]);
      var row := OutcomeOf(q.(kind := LeftOuter), ls[0]).row;
      var rows := Join(q.(kind := LeftOuter), ls);
      assert rows[0] == row && rows[1..] == Join(q.(kind := LeftOuter), ls[1..]);
      assert OutcomeOf(q.(kind := Inner), ls[0]) == if row.right.Some? then Emits(row) else Skips;
    }
  }
}
