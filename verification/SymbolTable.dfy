/** The open-addressing symbol table and the actor registry that rebuilds it lazily.  Keys are any type with
    equality and the hash is any function: no property of either is used. */
module SymbolTable {
  import opened Optional
  import opened Arithmetic

  const MAX_PROBE: nat := 8
  /** Actor references hold a uint32 index. */
  const REF_WIDTH: nat := 0x1_0000_0000

  /** The least power of two that is at least 16 and twice n. */
  method NextPow2(n: nat) returns (cap: nat)
    ensures IsPow2(cap) && cap >= 16 && cap >= 2 * n
    ensures cap == 16 || cap < 4 * n
  {
    var m := if n < 4 then 4 else n;
    cap := 16;
    while cap < m * 2
      invariant IsPow2(cap) && cap >= 16 && (cap == 16 || cap < 4 * m)
    {
      cap := cap * 2;
    }
  }

  datatype Slot<K> = Free | Used(hash: nat, key: K, value: nat)

  /** The value stored under the first occurrence of a key: a linear scan. */
  function FirstValue<K(==)>(keys: seq<K>, values: seq<nat>, key: K): Option<nat>
    requires |keys| == |values|
  {
    if keys == [] then None
    else if keys[0] == key then Some(values[0])
    else FirstValue(keys[1..], values[1..], key)
  }

  /** The scan answers with the value at the first position of the key, and with nothing exactly when the
      key is absent. */
  lemma {:induction false} FirstValueIsFirst<K>(keys: seq<K>, values: seq<nat>, key: K, i: nat)
    requires |keys| == |values|
    ensures FirstValue(keys, values, key).None? <==> key !in keys
    ensures i < |keys| && keys[i] == key && key !in keys[..i] ==> FirstValue(keys, values, key) == Some(values[i])
  {
    if keys != [] && keys[0] != key {
      FirstValueIsFirst(keys[1..], values[1..], key, if i > 0 then i - 1 else 0);
      assert i > 0 && i < |keys| ==> keys[..i][1..] == keys[1..][..i - 1];
    }
  }

  lemma {:induction false} Pigeonhole(f: seq<nat>, n: nat)
    requires forall i | 0 <= i < |f| :: f[i] < n
    requires forall i, j | 0 <= i < j < |f| :: f[i] != f[j]
    ensures |f| <= n
    decreases n
  {
    if |f| == 0 {
    } else if n - 1 in f {
      var k :| 0 <= k < |f| && f[k] == n - 1;
      Pigeonhole(f[..k] + f[k + 1..], n - 1);
    } else {
      assert f[0] < n;
      Pigeonhole(f, n - 1);
    }
  }

  /** The slot a walk for the hash looks at after some probes. */
  function Index(h: nat, probe: nat, cap: nat): (i: nat)
    requires cap > 0
    ensures i < cap
  {
    (h % cap + probe) % cap
  }

  /** What a table holds: its slots, the keys and values put into it in order, and for each of them the
      slot it went to and the probes that took. */
  datatype Layout<!K> = Layout(slots: seq<Slot<K>>, keys: seq<K>, values: seq<nat>, place: seq<nat>, dist: seq<nat>)

  ghost predicate Sized<K>(t: Layout<K>) {
    |t.keys| == |t.values| == |t.place| == |t.dist| && |t.slots| > 0 && |t.slots| >= 2 * |t.keys|
  }

  /** Key a sits dist[a] <= a probes down its walk, and every slot it walked past holds an earlier key. */
  ghost predicate Stored<K>(hash: K -> nat, t: Layout<K>, a: nat)
    requires Sized(t) && a < |t.keys|
  {
    var h := hash(t.keys[a]);
    && t.dist[a] <= a && t.place[a] == Index(h, t.dist[a], |t.slots|)
    && t.slots[t.place[a]] == Used(h, t.keys[a], t.values[a])
    && forall d | 0 <= d < t.dist[a] :: HeldBefore(t, a, Index(h, d, |t.slots|))
  }

  ghost predicate HeldBefore<K>(t: Layout<K>, a: nat, s: nat)
    requires Sized(t) && a <= |t.keys|
  {
    exists b :: 0 <= b < a && t.place[b] == s
  }

  ghost predicate Laid<K>(hash: K -> nat, t: Layout<K>) {
    && Sized(t)
    && (forall a | 0 <= a < |t.keys| :: Stored(hash, t, a))
    && (forall a, b | 0 <= a < b < |t.keys| :: t.place[a] != t.place[b])
    && (forall s | 0 <= s < |t.slots| && t.slots[s].Used? :: HeldBefore(t, |t.keys|, s))
  }

  /** The first `probe` slots of the key's walk are taken by others. */
  ghost predicate Walked<K>(hash: K -> nat, t: Layout<K>, key: K, probe: nat)
    requires |t.slots| > 0
  {
    forall d | 0 <= d < probe :: Taken(t.slots[Index(hash(key), d, |t.slots|)], key)
  }

  predicate Taken<K(==)>(slot: Slot<K>, key: K) {
    slot.Used? && slot.key != key
  }

  /** A key not met in `probe` probes is stored further down, so that many earlier keys were. */
  lemma Further<K>(hash: K -> nat, t: Layout<K>, key: K, probe: nat, a: nat)
    requires Laid(hash, t) && Walked(hash, t, key, probe) && a < |t.keys| && t.keys[a] == key
    ensures probe <= t.dist[a] <= a && t.slots[Index(hash(key), probe, |t.slots|)].Used?
  {
    assert Stored(hash, t, a);
    if t.dist[a] > probe {
      assert HeldBefore(t, a, Index(hash(key), probe, |t.slots|));
      var b :| 0 <= b < a && t.place[b] == Index(hash(key), probe, |t.slots|);
      assert Stored(hash, t, b);
    }
  }

  /** A free slot, or as many probes as there are keys, mean the key is nowhere: the bound on probes never
      cuts a stored key off. */
  lemma Missing<K>(hash: K -> nat, t: Layout<K>, key: K, probe: nat)
    requires Laid(hash, t) && Walked(hash, t, key, probe)
    requires t.slots[Index(hash(key), probe, |t.slots|)].Free? || probe >= |t.keys|
    ensures FirstValue(t.keys, t.values, key).None?
  {
    FirstValueIsFirst(t.keys, t.values, key, 0);
    if key in t.keys {
      var a :| 0 <= a < |t.keys| && t.keys[a] == key;
      Further(hash, t, key, probe, a);
    }
  }

  /** The first slot of a walk that holds the key belongs to its first occurrence. */
  lemma Hit<K>(hash: K -> nat, t: Layout<K>, key: K, probe: nat)
    requires Laid(hash, t) && Walked(hash, t, key, probe)
    requires var slot := t.slots[Index(hash(key), probe, |t.slots|)]; slot.Used? && slot.key == key
    ensures FirstValue(t.keys, t.values, key) == Some(t.slots[Index(hash(key), probe, |t.slots|)].value)
  {
    var s := Index(hash(key), probe, |t.slots|);
    assert HeldBefore(t, |t.keys|, s);
    var a :| 0 <= a < |t.keys| && t.place[a] == s;
    assert Stored(hash, t, a);
    forall b | 0 <= b < a ensures t.keys[b] != key {
      if t.keys[b] == key {
        assert Stored(hash, t, b);
        Further(hash, t, key, probe, b);
      }
    }
    FirstValueIsFirst(t.keys, t.values, key, a);
  }

  /** The slots a walk has met belong to different keys, so there are no more of them than keys. */
  lemma MetBound<K>(hash: K -> nat, t: Layout<K>, key: K, met: seq<nat>)
    requires Sized(t) && |met| <= |t.slots|
    requires forall d | 0 <= d < |met| :: met[d] < |t.keys| && t.place[met[d]] == Index(hash(key), d, |t.slots|)
    ensures |met| <= |t.keys|
  {
    forall i, j | 0 <= i < j < |met| ensures met[i] != met[j] {
      WrapsDiffer(hash(key) % |t.slots|, i, j, |t.slots|);
    }
    Pigeonhole(met, |t.keys|);
  }

  ghost function Extended<K>(hash: K -> nat, t: Layout<K>, key: K, value: nat, probe: nat): Layout<K>
    requires |t.slots| > 0
  {
    var s := Index(hash(key), probe, |t.slots|);
    Layout(t.slots[s := Used(hash(key), key, value)], t.keys + [key], t.values + [value], t.place + [s],
           t.dist + [probe])
  }

  /** Putting a key in the first free slot of its walk keeps the layout. */
  lemma ExtendedLaid<K>(hash: K -> nat, t: Layout<K>, key: K, value: nat, probe: nat)
    requires Laid(hash, t) && 2 * (|t.keys| + 1) <= |t.slots| && probe <= |t.keys|
    requires t.slots[Index(hash(key), probe, |t.slots|)].Free?
    requires forall d | 0 <= d < probe :: HeldBefore(t, |t.keys|, Index(hash(key), d, |t.slots|))
    ensures Laid(hash, Extended(hash, t, key, value, probe))
  {
    var t', n := Extended(hash, t, key, value, probe), |t.keys|;
    forall a | 0 <= a < n ensures t.place[a] < |t.slots| && t.slots[t.place[a]].Used? && t'.place[a] == t.place[a] {
      assert Stored(hash, t, a);
    }
    forall a, s | 0 <= a <= n && HeldBefore(t, a, s) ensures HeldBefore(t', a, s) {
      var b :| 0 <= b < a && t.place[b] == s;
      assert t'.place[b] == s;
    }
    forall a | 0 <= a < n + 1 ensures Stored(hash, t', a) {
      if a < n {
        assert Stored(hash, t, a);
      }
    }
    forall s | 0 <= s < |t'.slots| && t'.slots[s].Used? ensures HeldBefore(t', n + 1, s) {
      if s != t'.place[n] {
        assert HeldBefore(t, n, s);
        var b :| 0 <= b < n && t.place[b] == s;
        assert t'.place[b] == s;
      }
    }
  }

  class Table<K(==)> {
    const hash: K -> nat
    var slots: array<Slot<K>>
    var mask: nat
    var count: nat
    ghost var keys: seq<K>
    ghost var values: seq<nat>
    ghost var place: seq<nat>
    ghost var dist: seq<nat>

    ghost function Look(): Layout<K>
      reads this, slots
    {
      Layout(slots[..], keys, values, place, dist)
    }

    ghost predicate Valid()
      reads this, slots
    {
      Laid(hash, Look()) && IsPow2(slots.Length) && mask == slots.Length - 1
    }

    /** Builds the table over parallel lists of keys and values. */
    constructor Build(hash: K -> nat, keys: seq<K>, values: seq<nat>)
      requires |keys| == |values|
      ensures Valid() && fresh(slots) && count == |keys| && this.hash == hash
      ensures this.keys == keys && this.values == values
    {
      this.hash := hash;
      var cap := NextPow2(|keys|);
      slots := new Slot<K>[cap](_ => Free);
      mask, count := cap - 1, |keys|;
      this.keys, this.values, place, dist := [], [], [], [];
      new;
      for i := 0 to |keys|
        invariant Valid() && fresh(slots) && slots.Length >= 2 * |keys| && count == |keys|
        invariant this.keys == keys[..i] && this.values == values[..i]
      {
        Insert(keys[i], values[i]);
      }
    }

    /** Places one key in the first free slot of its walk. */
    method Insert(key: K, value: nat)
      requires Valid() && 2 * (|keys| + 1) <= slots.Length
      modifies slots, `keys, `values, `place, `dist
      ensures Valid() && keys == old(keys) + [key] && values == old(values) + [value]
    {
      var h, cap := hash(key), slots.Length;
      MaskIsRemainder(h, cap);
      var pos := And(h, mask);
      ghost var t := Look();
      ghost var met: seq<nat> := [];
      var probe := 0;
      while probe < cap
        invariant Sized(t) && 0 <= probe <= |t.keys| && |met| == probe
        invariant Look() == t && keys == old(keys) && values == old(values)
        invariant forall d | 0 <= d < probe :: met[d] < |t.keys| && t.place[met[d]] == Index(h, d, cap)
      {
        MaskIsRemainder(pos + probe, cap);
        var s := And(pos + probe, mask);
        if slots[s].Free? {
          ExtendedLaid(hash, t, key, value, probe);
          slots[s] := Used(h, key, value);
          keys, values, place, dist := keys + [key], values + [value], place + [s], dist + [probe];
          assert Look() == Extended(hash, t, key, value, probe);
          return;
        }
        assert HeldBefore(t, |t.keys|, s);
        ghost var a: nat :| a < |t.keys| && t.place[a] == s;
        met := met + [a];
        MetBound(hash, t, key, met);
        probe := probe + 1;
      }
    }

    /** The lookup answers as a linear scan of what was put in, for every key and every hash. */
    method Find(key: K) returns (r: Option<nat>)
      requires Valid() && count == |keys|
      ensures r == FirstValue(keys, values, key)
    {
      if count == 0 {
        return None;
      }
      var h, cap := hash(key), slots.Length;
      MaskIsRemainder(h, cap);
      var pos := And(h, mask);
      var bound := if count < MAX_PROBE then MAX_PROBE else count;
      ghost var t := Look();
      var probe := 0;
      while probe < bound
        invariant 0 <= probe <= bound && Walked(hash, t, key, probe)
      {
        MaskIsRemainder(pos + probe, cap);
        var slot := slots[And(pos + probe, mask)];
        assert slot == t.slots[Index(h, probe, cap)];
        if slot.Free? {
          Missing(hash, t, key, probe);
          return None;
        }
        HashCached(hash, t, Index(h, probe, cap));
        if slot.hash == h && slot.key == key {
          Hit(hash, t, key, probe);
          return Some(slot.value);
        }
        probe := probe + 1;
      }
      Missing(hash, t, key, probe);
      r := None;
    }
  }

  lemma HashCached<K>(hash: K -> nat, t: Layout<K>, s: nat)
    requires Laid(hash, t) && s < |t.slots| && t.slots[s].Used?
    ensures t.slots[s].hash == hash(t.slots[s].key)
  {
    assert HeldBefore(t, |t.keys|, s);
    var a :| 0 <= a < |t.keys| && t.place[a] == s;
    assert Stored(hash, t, a);
  }

  // ---------------------------------------------------------------- the actor registry

  function Identity(n: nat): (r: seq<nat>)
    ensures |r| == n && forall i | 0 <= i < n :: r[i] == i
  {
    if n == 0 then [] else Identity(n - 1) + [n - 1]
  }

  /** The reference of the first actor of the name: a linear scan of the actors. */
  function FirstNamed<K(==)>(names: seq<K>, name: K): Option<nat> {
    var i := FirstValue(names, Identity(|names|), name);
    if i.Some? then Some(i.value % REF_WIDTH) else None
  }

  lemma FirstNamedIsFirst<K>(names: seq<K>, name: K, i: nat)
    ensures FirstNamed(names, name).None? <==> name !in names
    ensures i < |names| && names[i] == name && name !in names[..i] ==> FirstNamed(names, name) == Some(i % REF_WIDTH)
  {
    FirstValueIsFirst(names, Identity(|names|), name, i);
  }

  /** Names of the actors in spawn order, and a table rebuilt only when a lookup finds it stale. */
  class Registry<K(==)> {
    const hash: K -> nat
    var names: seq<K>
    var table: Table?<K>
    var dirty: bool

    ghost predicate Valid()
      reads this, table, if table == null then {} else {table.slots}
    {
      && (table == null ==> dirty)
      && (!dirty ==>
            && table.Valid() && table.count == |table.keys|
            && table.keys == names && table.values == Identity(|names|))
    }

    constructor (hash: K -> nat)
      ensures Valid() && names == [] && this.hash == hash
    {
      this.hash, names, table, dirty := hash, [], null, true;
    }

    /** Spawning and cloning both append a name and mark the table stale. */
    method Spawn(name: K) returns (ref: nat)
      requires Valid()
      modifies this
      ensures Valid() && names == old(names) + [name] && ref == |old(names)| % REF_WIDTH
    {
      ref := |names| % REF_WIDTH;
      names, dirty := names + [name], true;
    }

    method Rebuild()
      requires Valid()
      modifies this
      ensures Valid() && !dirty && names == old(names)
    {
      if !dirty {
        return;
      }
      table := new Table<K>.Build(hash, names, Identity(|names|));
      dirty := false;
    }

    method Resolve(name: K) returns (r: Option<nat>)
      requires Valid()
      modifies this
      ensures Valid() && names == old(names) && r == FirstNamed(names, name)
    {
      Rebuild();
      var i := table.Find(name);
      r := if i.Some? then Some(i.value % REF_WIDTH) else None;
    }
  }
}
