/** The reference join every executor is measured against: one pass over the left rows, one lookup a
    row, in left order. */
module JoinSpec {
  import opened Optional
  import opened Sequences

  datatype Key = Key(bytes: string)

  /** A left source is what its pulls answer, in order: chunks of rows (empty ones included), or a
      failure.  A source that has run out answers that it is done for ever. */
  datatype Pulled<+T> = Chunk(rows: seq<T>) | Fault

  datatype JoinKind = Inner | LeftOuter | RightOuter | FullOuter | SemiLeft | AntiLeft

  datatype Joined<+L, +R> = Joined(key: Key, left: L, right: Option<R>)

  predicate ShouldEmit(kind: JoinKind, present: bool) {
    match kind
    case Inner => present
    case LeftOuter => true
    case SemiLeft => present
    case AntiLeft => !present
    case RightOuter => present
    case FullOuter => true
  }

  /** What a join is asked: how to find a left row's key, the right table as it scans, and how to
      decode its values.  Extraction and decoding may fail. */
  datatype Query<!L, !R> = Query(
    kind: JoinKind,
    extract: L -> Option<Key>,
    table: seq<(Key, string)>,
    decode: string -> Option<R>)

  /** The first entry of the table under a key. */
  function Lookup(table: seq<(Key, string)>, key: Key): Option<string> {
    if table == [] then None
    else if table[0].0 == key then Some(table[0].1)
    else Lookup(table[1..], key)
  }

  datatype Outcome<+L, +R> = Fails | Skips | Emits(row: Joined<L, R>)

  /** What one left row contributes. */
  function OutcomeOf<L, R>(q: Query<L, R>, l: L): Outcome<L, R> {
    match q.extract(l)
    case None => Fails
    case Some(key) => Probe(q, l, key)
  }

  function Probe<L, R>(q: Query<L, R>, l: L, key: Key): Outcome<L, R> {
    match Lookup(q.table, key)
    case None => if ShouldEmit(q.kind, false) then Emits(Joined(key, l, None)) else Skips
    case Some(raw) =>
      match q.decode(raw)
      case None => Fails
      case Some(r) => if ShouldEmit(q.kind, true) then Emits(Joined(key, l, Some(r))) else Skips
  }

  /** The reference join: the rows emitted before the first left row that fails. */
  function Join<L, R>(q: Query<L, R>, ls: seq<L>): seq<Joined<L, R>> {
    if ls == [] then []
    else
      match OutcomeOf(q, ls[0])
      case Fails => []
      case Skips => Join(q, ls[1..])
      case Emits(row) => [row] + Join(q, ls[1..])
  }

  /** A limit of zero means no limit. */
  function Limited<T>(limit: nat, s: seq<T>): (r: seq<T>)
    ensures r <= s && |r| == if 0 < limit < |s| then limit else |s|
  {
    if limit == 0 then s else Taken(limit, s)
  }

  /** The rows a source delivers before it fails. */
  function Rows<T>(script: seq<Pulled<T>>): seq<T> {
    if script == [] || script[0].Fault? then [] else script[0].rows + Rows(script[1..])
  }

  ghost predicate Sound<T>(script: seq<Pulled<T>>) {
    forall i :: 0 <= i < |script| ==> script[i].Chunk?
  }

  ghost predicate Clean<L, R>(q: Query<L, R>, ls: seq<L>) {
    forall i :: 0 <= i < |ls| ==> OutcomeOf(q, ls[i]) != Fails
  }

  /** Pulls left plus rows left: every pull of a source lowers it. */
  function Work<T>(script: seq<Pulled<T>>): nat {
    if script == [] then 0
    else 1 + (if script[0].Chunk? then |script[0].rows| else 0) + Work(script[1..])
  }

  /** A source that has not failed yet delivers every row of its chunks, in order. */
  lemma {:induction false} RowsMore<T>(script: seq<Pulled<T>>, chunk: seq<T>)
    requires Sound(script)
    ensures Rows<T>([]) == [] && Rows(script + [Chunk(chunk)]) == Rows(script) + chunk
    ensures Rows(script + [Fault]) == Rows(script)
  {
    if script != [] {
      assert script[0].Chunk?;
      assert forall next: Pulled<T> {:trigger script[1..] + [next]} :: (script + [next])[1..] == script[1..] + [next];
      RowsMore(script[1..], chunk);
    }
  }

  lemma {:induction false} JoinAppend<L, R>(q: Query<L, R>, a: seq<L>, b: seq<L>)
    requires Clean(q, a)
    ensures Join(q, a + b) == Join(q, a) + Join(q, b)
  {
    if a == [] {
      assert a + b == b;
    } else {
      assert OutcomeOf(q, a[0]) != Fails;
      assert (a + b)[1..] == a[1..] + b;
      JoinAppend(q, a[1..], b);
    }
  }

  lemma JoinOne<L, R>(q: Query<L, R>, l: L)
    ensures Join(q, [l]) == match OutcomeOf(q, l) case Emits(row) => [row] case _ => []
  {
    assert [l][1..] == [];
  }

  lemma JoinSnoc<L, R>(q: Query<L, R>, a: seq<L>, l: L)
    requires Clean(q, a)
    ensures Join(q, a + [l]) == Join(q, a) + match OutcomeOf(q, l) case Emits(row) => [row] case _ => []
  {
    JoinAppend(q, a, [l]);
    JoinOne(q, l);
  }

  lemma TakeAppend<T>(n: nat, a: seq<T>, b: seq<T>)
    ensures Taken(n, a + b) == Taken(n, a) + Taken(n - |Taken(n, a)|, b)
  {
  }
}
