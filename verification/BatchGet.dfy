/** The batched lookup of the SQLite backend and the decoding lens above it. */
module BatchGet {
  import opened Optional
  import opened Sequences
  import opened JoinSpec

  const CHUNK: nat := 256

  /** The rows a query "key IN (...)" returns: those of the table whose key is listed. */
  function Select(table: seq<(Key, string)>, keys: seq<Key>): (rows: seq<(Key, string)>)
    ensures forall r :: r in rows <==> r in table && r.0 in keys
  {
    if table == [] then []
    else (if table[0].0 in keys then [table[0]] else []) + Select(table[1..], keys)
  }

  ghost predicate UniqueKeys<V>(table: seq<(Key, V)>) {
    forall i, j :: 0 <= i < j < |table| ==> table[i].0 != table[j].0
  }

  lemma {:induction false} LookupIn(table: seq<(Key, string)>, key: Key)
    requires Lookup(table, key).Some?
    ensures (key, Lookup(table, key).value) in table
  {
    if table[0].0 != key {
      LookupIn(table[1..], key);
    }
  }

  lemma LookupUnique(table: seq<(Key, string)>, e: (Key, string))
    requires UniqueKeys(table) && e in table
    ensures Lookup(table, e.0) == Some(e.1)
  {
    var i :| 0 <= i < |table| && table[i] == e;
    if i > 0 {
      LookupUnique(table[1..], e);
    }
  }

  /** What position i gets: the stored value the first time a key is asked for; when a key is asked
      for again its value has been moved out, and what is left of it is returned. */
  function Answer(table: seq<(Key, string)>, keys: seq<Key>, husk: string, i: nat): Option<string>
    requires i < |keys|
  {
    match Lookup(table, keys[i])
    case None => None
    case Some(v) => if keys[i] in keys[..i] then Some(husk) else Some(v)
  }

  /** What the queries must have collected: the stored value of every stored key asked for. */
  ghost predicate Fetched(table: seq<(Key, string)>, keys: seq<Key>, found: map<Key, string>) {
    && (forall k :: k in found ==> k in keys && Lookup(table, k) == Some(found[k]))
    && (forall k :: k in keys && Lookup(table, k).Some? ==> k in found)
  }

  ghost predicate Rightful(table: seq<(Key, string)>, found: map<Key, string>) {
    forall k :: k in found ==> Lookup(table, k) == Some(found[k])
  }

  /** The result rows of one query join the map; a key already there keeps its value. */
  method Collect(table: seq<(Key, string)>, rows: seq<(Key, string)>, before: map<Key, string>)
    returns (found: map<Key, string>)
    requires UniqueKeys(table) && Rightful(table, before) && forall r :: r in rows ==> r in table
    ensures Rightful(table, found)
    ensures forall k :: k in found <==> k in before || exists r :: r in rows && r.0 == k
  {
    found := before;
    for i := 0 to |rows|
      invariant Rightful(table, found)
      invariant forall k :: k in found <==> k in before || exists j :: 0 <= j < i && rows[j].0 == k
    {
      assert rows[i] in rows;
      LookupUnique(table, rows[i]);
      if rows[i].0 !in found {
        found := found[rows[i].0 := rows[i].1];
      }
    }
  }

  lemma QueryFetches(table: seq<(Key, string)>, keys: seq<Key>, asked: seq<Key>, before: map<Key, string>,
                     found: map<Key, string>)
    requires Fetched(table, keys, before) && Rightful(table, found)
    requires forall k :: k in found <==> k in before || exists r :: r in Select(table, asked) && r.0 == k
    ensures Fetched(table, keys + asked, found)
  {
    forall k | k in keys + asked && Lookup(table, k).Some? ensures k in found {
      if k in asked {
        LookupIn(table, k);
        assert (k, Lookup(table, k).value) in Select(table, asked);
      }
    }
  }

  /** The map once the answers to keys[..i] have been moved out of it. */
  ghost predicate MovedOut(fetched: map<Key, string>, keys: seq<Key>, i: nat, husk: string, found: map<Key, string>)
    requires i <= |keys|
  {
    && found.Keys == fetched.Keys
    && forall k :: k in found ==> found[k] == if k in keys[..i] then husk else fetched[k]
  }

  lemma NextAnswer(table: seq<(Key, string)>, keys: seq<Key>, i: nat, husk: string,
                   fetched: map<Key, string>, found: map<Key, string>)
    requires i < |keys| && Fetched(table, keys, fetched) && MovedOut(fetched, keys, i, husk, found)
    ensures Answer(table, keys, husk, i) == if keys[i] in found then Some(found[keys[i]]) else None
    ensures keys[i] !in found ==> MovedOut(fetched, keys, i + 1, husk, found)
    ensures keys[i] in found ==> MovedOut(fetched, keys, i + 1, husk, found[keys[i] := husk])
  {
    var k := keys[i];
    assert k in keys;
    forall x ensures x in keys[..i + 1] <==> x in keys[..i] || x == k {
      assert keys[..i + 1] == keys[..i] + [k];
    }
  }

  /** The answers in the order asked, each value moved out of the map. */
  method Deliver(table: seq<(Key, string)>, keys: seq<Key>, husk: string, fetched: map<Key, string>)
    returns (out: seq<(Key, Option<string>)>)
    requires Fetched(table, keys, fetched)
    ensures |out| == |keys|
    ensures forall i :: 0 <= i < |keys| ==> out[i] == (keys[i], Answer(table, keys, husk, i))
  {
    out := [];
    var found := fetched;
    for i := 0 to |keys|
      invariant |out| == i && MovedOut(fetched, keys, i, husk, found)
      invariant forall j :: 0 <= j < i ==> out[j] == (keys[j], Answer(table, keys, husk, j))
    {
      NextAnswer(table, keys, i, husk, fetched, found);
      var k := keys[i];
      var item := if k in found then Some(found[k]) else None;
      found := if k in found then found[k := husk] else found;
      out := out + [(k, item)];
    }
  }

  /** Queries of at most CHUNK keys each, then the answers.  `husk` is what a moved-from string holds. */
  method GetMany(table: seq<(Key, string)>, keys: seq<Key>, husk: string)
    returns (out: seq<(Key, Option<string>)>)
    requires UniqueKeys(table)
    ensures |out| == |keys|
    ensures forall i :: 0 <= i < |keys| ==> out[i] == (keys[i], Answer(table, keys, husk, i))
  {
    var found: map<Key, string> := map[];
    var base := 0;
    while base < |keys|
      invariant 0 <= base <= |keys|
      invariant Fetched(table, keys[..base], found)
    {
      var count := if CHUNK < |keys| - base then CHUNK else |keys| - base;
      assert keys[..base + count] == keys[..base] + keys[base..base + count];
      var asked := keys[base..base + count];
      ghost var before := found;
      found := Collect(table, Select(table, asked), found);
      QueryFetches(table, keys[..base], asked, before, found);
      base := base + count;
    }
    assert keys[..|keys|] == keys;
    out := Deliver(table, keys, husk, found);
  }

  /** The answers are the stored values exactly when no stored key is asked for twice, short of a value
      that happens to equal a moved-from string. */
  lemma GetManyRightIff(table: seq<(Key, string)>, keys: seq<Key>, husk: string)
    ensures
      (forall i :: 0 <= i < |keys| ==> Answer(table, keys, husk, i) == Lookup(table, keys[i]))
      <==>
      (forall i, j :: 0 <= j < i < |keys| && keys[j] == keys[i] && Lookup(table, keys[i]).Some?
         ==> Lookup(table, keys[i]).value == husk)
  {
    if forall i :: 0 <= i < |keys| ==> Answer(table, keys, husk, i) == Lookup(table, keys[i]) {
      forall i, j | 0 <= j < i < |keys| && keys[j] == keys[i] && Lookup(table, keys[i]).Some?
        ensures Lookup(table, keys[i]).value == husk
      {
        assert Answer(table, keys, husk, i) == Lookup(table, keys[i]);
        assert keys[..i][j] == keys[i];
      }
    }
  }

  function Decoded<R>(v: Option<string>, decode: string -> Option<R>): Option<R> {
    if v.None? then None else decode(v.value)
  }

  predicate Undecodable<R>(v: Option<string>, decode: string -> Option<R>) {
    v.Some? && decode(v.value).None?
  }

  /** Decodes each value; one undecodable value fails the whole batch. */
  method DecodeAll<R>(raw: seq<(Key, Option<string>)>, decode: string -> Option<R>)
    returns (out: Result<seq<Option<R>>>)
    ensures out.Err? <==> exists i :: 0 <= i < |raw| && Undecodable(raw[i].1, decode)
    ensures out.Ok? ==> |out.value| == |raw| && forall i :: 0 <= i < |raw| ==> out.value[i] == Decoded(raw[i].1, decode)
  {
    var decoded: seq<Option<R>> := [];
    for i := 0 to |raw|
      invariant |decoded| == i
      invariant forall j :: 0 <= j < i ==> !Undecodable(raw[j].1, decode) && decoded[j] == Decoded(raw[j].1, decode)
    {
      if raw[i].1.None? {
        decoded := decoded + [None];
      } else {
        var d := decode(raw[i].1.value);
        if d.None? {
          return Err("undecodable value");
        }
        decoded := decoded + [d];
      }
    }
    return Ok(decoded);
  }

  /** On distinct keys the answers are the stored values. */
  lemma DistinctAnswers(table: seq<(Key, string)>, keys: seq<Key>, husk: string)
    requires Distinct(keys)
    ensures forall i :: 0 <= i < |keys| ==> Answer(table, keys, husk, i) == Lookup(table, keys[i])
  {
    GetManyRightIff(table, keys, husk);
  }

  /** The typed lens: every answer decoded, or a failure if one does not decode. */
  method GetManyDecoded<R>(table: seq<(Key, string)>, keys: seq<Key>, husk: string,
                           decode: string -> Option<R>)
    returns (out: Result<seq<Option<R>>>)
    requires UniqueKeys(table)
    ensures out.Err? <==> exists i :: 0 <= i < |keys| && Undecodable(Answer(table, keys, husk, i), decode)
    ensures out.Ok? ==>
      && |out.value| == |keys|
      && forall i :: 0 <= i < |keys| ==> out.value[i] == Decoded(Answer(table, keys, husk, i), decode)
  {
    var raw := GetMany(table, keys, husk);
    out := DecodeAll(raw, decode);
  }
}
