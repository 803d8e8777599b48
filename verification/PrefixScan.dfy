/** The range scan by prefix: the exclusive upper bound with its carries, and the three queries it leads to.
    The database is its rows in unsigned byte order of their keys. */
module PrefixScan {
  import opened ByteOrder

  datatype Row = Row(key: seq<Byte>, value: seq<Byte>)

  /** The bound past every key with the prefix; empty if there is none. */
  function Upper(prefix: seq<Byte>): seq<Byte> {
    if prefix == [] then []
    else
      var n := |prefix| - 1;
      if prefix[n] < 255 then prefix[..n] + [prefix[n] + 1] else Upper(prefix[..n])
  }

  method PrefixUpperBound(prefix: seq<Byte>) returns (bound: seq<Byte>)
    ensures bound == Upper(prefix)
  {
    bound := prefix;
    while bound != []
      invariant Upper(bound) == Upper(prefix)
      decreases |bound|
    {
      var n := |bound| - 1;
      if bound[n] < 255 {
        bound := bound[..n] + [bound[n] + 1];
        return;
      }
      bound := bound[..n];
    }
  }

  /** With the bound at hand the half-open range holds exactly the keys with the prefix, even after carries;
      without one, everything from the prefix on has it. */
  lemma {:induction false} RangeIsPrefix(prefix: seq<Byte>, k: seq<Byte>)
    requires prefix != []
    ensures StartsWith(k, prefix) <==> Leq(prefix, k) && (Upper(prefix) != [] ==> Less(k, Upper(prefix)))
    decreases |prefix|, 0
  {
    var n := |prefix| - 1;
    var init, c := prefix[..n], prefix[n];
    assert prefix == init + [c];
    if c < 255 {
      if StartsWith(k, prefix) {
        Inside(init, c, k);
      } else if Leq(prefix, k) && Less(k, Upper(prefix)) {
        Between(init, [c], [c + 1], k);
        Inside(init, c, k);
      }
    } else {
      Carried(init, k);
    }
  }

  lemma Inside(init: seq<Byte>, c: Byte, k: seq<Byte>)
    requires StartsWith(k, init) && c < 255
    ensures StartsWith(k, init + [c]) <==> Leq(init + [c], k) && Less(k, init + [c + 1])
  {
    var t := k[|init|..];
    assert k == init + t;
    SharedPrefix(init, t, [c]);
    SharedPrefix(init, t, [c + 1]);
    assert t != [] ==> k[..|init| + 1] == init + [t[0]];
  }

  lemma {:induction false} Carried(init: seq<Byte>, k: seq<Byte>)
    ensures StartsWith(k, init + [255]) <==> Leq(init + [255], k) && (Upper(init) != [] ==> Less(k, Upper(init)))
    decreases |init|, 1
  {
    if init != [] {
      RangeIsPrefix(init, k);
      if Leq(init + [255], k) {
        assert init + [] == init;
        SharedPrefix(init, [], [255]);
        LessLeq(init, init + [255], k);
        LessTotal(init, k);
      }
    }
    if StartsWith(k, init) {
      var t := k[|init|..];
      assert k == init + t;
      SharedPrefix(init, t, [255]);
      assert t != [] ==> k[..|init| + 1] == init + [t[0]];
    } else {
      ShorterPrefix(k, init, 255);
    }
  }

  lemma ShorterPrefix(k: seq<Byte>, init: seq<Byte>, c: Byte)
    ensures StartsWith(k, init + [c]) ==> StartsWith(k, init)
  {
    if StartsWith(k, init + [c]) {
      assert k[..|init|] == k[..|init| + 1][..|init|] == init;
    }
  }

  // ---------------------------------------------------------------- the scan

  predicate Sorted(rows: seq<Row>) {
    forall i, j | 0 <= i < j < |rows| :: Less(rows[i].key, rows[j].key)
  }

  /** The rows whose key has the prefix, in key order. */
  function WithPrefix(rows: seq<Row>, prefix: seq<Byte>): seq<Row> {
    if rows == [] then []
    else (if StartsWith(rows[0].key, prefix) then [rows[0]] else []) + WithPrefix(rows[1..], prefix)
  }

  /** A query `WHERE key >= from AND key < to ORDER BY key`; an empty bound is absent. */
  function Query(rows: seq<Row>, from: seq<Byte>, to: seq<Byte>): seq<Row> {
    if rows == [] then []
    else
      (if Leq(from, rows[0].key) && (to == [] || Less(rows[0].key, to)) then [rows[0]] else [])
        + Query(rows[1..], from, to)
  }

  lemma {:induction false} QueryIsWithPrefix(rows: seq<Row>, prefix: seq<Byte>)
    requires prefix != []
    ensures Query(rows, prefix, Upper(prefix)) == WithPrefix(rows, prefix)
  {
    if rows != [] {
      RangeIsPrefix(prefix, rows[0].key);
      QueryIsWithPrefix(rows[1..], prefix);
    }
  }

  lemma {:induction false} AllHaveEmptyPrefix(rows: seq<Row>)
    ensures WithPrefix(rows, []) == rows
  {
    if rows != [] {
      AllHaveEmptyPrefix(rows[1..]);
    }
  }

  lemma {:induction false} WithPrefixHas(rows: seq<Row>, prefix: seq<Byte>)
    ensures forall r :: r in WithPrefix(rows, prefix) <==> r in rows && StartsWith(r.key, prefix)
    ensures Sorted(rows) ==> Sorted(WithPrefix(rows, prefix))
  {
    if rows != [] {
      WithPrefixHas(rows[1..], prefix);
      assert rows == [rows[0]] + rows[1..];
    }
  }

  /** Everything the open-ended query returns after a prefix of 0xFF bytes has that prefix, so the scan's
      early exit is never taken. */
  lemma OpenQueryAllMatch(rows: seq<Row>, prefix: seq<Byte>)
    requires prefix != [] && Upper(prefix) == []
    ensures forall r <- Query(rows, prefix, []) :: StartsWith(r.key, prefix)
  {
    QueryIsWithPrefix(rows, prefix);
    WithPrefixHas(rows, prefix);
  }

  /** Collects until a key lacks the prefix. */
  method CollectWhile(cursor: seq<Row>, prefix: seq<Byte>) returns (results: seq<Row>)
    ensures results <= cursor && (forall r <- results :: StartsWith(r.key, prefix))
    ensures |results| < |cursor| ==> !StartsWith(cursor[|results|].key, prefix)
  {
    results := [];
    for i := 0 to |cursor|
      invariant results == cursor[..i] && forall r <- results :: StartsWith(r.key, prefix)
    {
      if !StartsWith(cursor[i].key, prefix) {
        return;
      }
      results := results + [cursor[i]];
    }
  }

  /** The three branches of the scan return exactly the rows with the prefix, in key order. */
  method Scan(rows: seq<Row>, prefix: seq<Byte>) returns (results: seq<Row>)
    requires Sorted(rows)
    ensures results == WithPrefix(rows, prefix)
  {
    if prefix == [] {
      AllHaveEmptyPrefix(rows);
      return rows;
    }
    var upper := PrefixUpperBound(prefix);
    QueryIsWithPrefix(rows, prefix);
    if upper == [] {
      OpenQueryAllMatch(rows, prefix);
      results := CollectWhile(Query(rows, prefix, []), prefix);
    } else {
      results := Query(rows, prefix, upper);
    }
  }
}
