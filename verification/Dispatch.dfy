/** Dispatch over the tree of named stores: reads and writes routed by key, and a batch grouped by table and
    sent to the matching children in whatever order a hash map visits the groups. */
module Dispatch {
  import opened Optional
  import opened SymbolTable

  datatype Name = Name(text: string)

  /** A leaf is a column backed by a cell of its own; a composite finds its children by name. */
  datatype Node = Leaf(name: Name, cell: nat) | Composite(name: Name, children: seq<Node>)

  datatype Op = Put(table: Name, key: Name, value: string) | Del(table: Name, key: Name)

  type Rows = map<Name, string>

  type Cells = map<nat, Rows>

  function NamesOf(children: seq<Node>): (names: seq<Name>)
    ensures |names| == |children| && forall i | 0 <= i < |names| :: names[i] == children[i].name
  {
    if children == [] then [] else [children[0].name] + NamesOf(children[1..])
  }

  /** The composite's symbol table, which answers as a scan of the children's names. */
  function FindChild(children: seq<Node>, name: Name): Option<nat> {
    FirstValue(NamesOf(children), Identity(|children|), name)
  }

  lemma FoundChild(children: seq<Node>, name: Name)
    ensures var i := FindChild(children, name);
      i.Some? ==> i.value < |children| && children[i.value].name == name
  {
    FirstValueFound(NamesOf(children), Identity(|children|), name);
  }

  lemma {:induction false} FirstValueFound(names: seq<Name>, values: seq<nat>, name: Name)
    requires |names| == |values|
    ensures var v := FirstValue(names, values, name);
      v.Some? ==> exists i :: 0 <= i < |names| && names[i] == name && values[i] == v.value
  {
    if names != [] {
      if names[0] == name {
        assert values[0] == FirstValue(names, values, name).value;
      } else {
        FirstValueFound(names[1..], values[1..], name);
        var v := FirstValue(names, values, name);
        if v.Some? {
          var i :| 0 <= i < |names| - 1 && names[1..][i] == name && values[1..][i] == v.value;
          assert names[i + 1] == name && values[i + 1] == v.value;
        }
      }
    }
  }

  predicate FirstNamedChild(children: seq<Node>, name: Name, i: nat) {
    i < |children| && children[i].name == name && forall j | 0 <= j < i :: children[j].name != name
  }

  /** A child is found exactly if one has the name, and then the first that does. */
  lemma ChildIsFirst(children: seq<Node>, name: Name)
    ensures FindChild(children, name).None? <==> forall i | 0 <= i < |children| :: children[i].name != name
    ensures forall i: nat :: FindChild(children, name) == Some(i) <==> FirstNamedChild(children, name, i)
  {
    var names := NamesOf(children);
    FoundChild(children, name);
    FirstValueIsFirst(names, Identity(|children|), name, 0);
    forall i: nat | FirstNamedChild(children, name, i) ensures FindChild(children, name) == Some(i) {
      FirstValueIsFirst(names, Identity(|children|), name, i);
    }
    if FindChild(children, name).Some? {
      var i := SmallestNamed(children, name, FindChild(children, name).value);
      FirstValueIsFirst(names, Identity(|children|), name, i);
    }
  }

  lemma SmallestNamed(children: seq<Node>, name: Name, k: nat) returns (i: nat)
    requires k < |children| && children[k].name == name
    ensures FirstNamedChild(children, name, i)
  {
    i := 0;
    while children[i].name != name
      invariant i <= k && forall j | 0 <= j < i :: children[j].name != name
      decreases k - i
    {
      i := i + 1;
    }
  }

  /** The names of the children on the way from a node down to a leaf, and that leaf's cell. */
  ghost predicate LeadsTo(node: Node, names: seq<string>, cell: nat)
    decreases node
  {
    match node
    case Leaf(_, c) => names == [] && c == cell
    case Composite(_, children) =>
      names != [] && exists i: nat ::
        FirstNamedChild(children, Name(names[0]), i) && LeadsTo(children[i], names[1..], cell)
  }

  /** The cell a table's operations end up in: the name is looked up again at every level. */
  function Target(node: Node, table: Name): Option<nat>
    decreases node
  {
    match node
    case Leaf(_, cell) => Some(cell)
    case Composite(_, children) =>
      FoundChild(children, table);
      var i := FindChild(children, table);
      if i.None? then None else Target(children[i.value], table)
  }

  ghost predicate Below(node: Node, cell: nat)
    decreases node
  {
    match node
    case Leaf(_, c) => c == cell
    case Composite(_, children) => exists i :: 0 <= i < |children| && Below(children[i], cell)
  }

  /** No two children share a cell. */
  ghost predicate Separate(node: Node)
    decreases node
  {
    match node
    case Leaf(_, _) => true
    case Composite(_, children) =>
      && (forall i | 0 <= i < |children| :: Separate(children[i]))
      && (forall i, j, c: nat | 0 <= i < |children| && 0 <= j < |children| && i != j ::
            !(Below(children[i], c) && Below(children[j], c)))
  }

  // ---------------------------------------------------------------- single reads and writes

  datatype Answer<+T> = NoChild | Answer(value: T)

  /** The part of a key before its first colon, and what follows it. */
  function RouteKey(key: string): (r: (string, string)) {
    if key == "" then ("", "")
    else if key[0] == ':' then ("", key[1..])
    else var (child, rest) := RouteKey(key[1..]); ([key[0]] + child, rest)
  }

  /** A key is its route put together again, unless it has no colon. */
  lemma {:induction false} RouteIsSplit(key: string)
    ensures var (child, rest) := RouteKey(key);
      && ':' !in child
      && key == (if ':' in key then child + ":" + rest else child)
      && (':' !in key ==> rest == "")
  {
    if key != "" && key[0] != ':' {
      RouteIsSplit(key[1..]);
      assert key == [key[0]] + key[1..];
    } else if key != "" {
      assert key == ":" + key[1..];
    }
  }

  /** The child a key leads to, and the rest of the key. */
  function Step(children: seq<Node>, key: string): Option<(nat, string)> {
    var (child, rest) := RouteKey(key);
    var i := FindChild(children, Name(child));
    if i.None? then None else Some((i.value, rest))
  }

  function NodeGet(cells: Cells, node: Node, key: string): Answer<Option<string>>
    decreases node
  {
    match node
    case Leaf(_, cell) =>
      Answer(if cell in cells && Name(key) in cells[cell] then Some(cells[cell][Name(key)]) else None)
    case Composite(_, children) =>
      FoundChild(children, Name(RouteKey(key).0));
      var step := Step(children, key);
      if step.None? then NoChild else NodeGet(cells, children[step.value.0], step.value.1)
  }

  function NodePut(cells: Cells, node: Node, key: string, value: string): Answer<Cells>
    decreases node
  {
    match node
    case Leaf(_, cell) => Answer(if cell in cells then cells[cell := cells[cell][Name(key) := value]] else cells)
    case Composite(_, children) =>
      FoundChild(children, Name(RouteKey(key).0));
      var step := Step(children, key);
      if step.None? then NoChild else NodePut(cells, children[step.value.0], step.value.1, value)
  }

  function NodeDel(cells: Cells, node: Node, key: string): Answer<Cells>
    decreases node
  {
    match node
    case Leaf(_, cell) => Answer(if cell in cells then cells[cell := cells[cell] - {Name(key)}] else cells)
    case Composite(_, children) =>
      FoundChild(children, Name(RouteKey(key).0));
      var step := Step(children, key);
      if step.None? then NoChild else NodeDel(cells, children[step.value.0], step.value.1)
  }

  /** The cell and the rest of the key that a key comes to in the end. */
  function Resolve(node: Node, key: string): Option<(nat, Name)>
    decreases node
  {
    match node
    case Leaf(_, cell) => Some((cell, Name(key)))
    case Composite(_, children) =>
      FoundChild(children, Name(RouteKey(key).0));
      var step := Step(children, key);
      if step.None? then None else Resolve(children[step.value.0], step.value.1)
  }

  /** The names on a way, joined by colons, and then a key. */
  function PathKey(names: seq<string>, key: string): string {
    if names == [] then key else names[0] + ":" + PathKey(names[1..], key)
  }

  lemma {:induction false} RouteJoined(name: string, rest: string)
    requires ':' !in name
    ensures RouteKey(name + ":" + rest) == (name, rest)
  {
    var key := name + ":" + rest;
    if name == "" {
      assert key == ":" + rest && key[1..] == rest;
    } else {
      assert key[0] == name[0] && key[1..] == name[1..] + ":" + rest;
      RouteJoined(name[1..], rest);
      assert [name[0]] + name[1..] == name;
    }
  }

  /** The way to a leaf, joined by colons, and then a key come to that key in the leaf's own cell. */
  lemma {:induction false} PathReaches(node: Node, names: seq<string>, cell: nat, key: string)
    requires LeadsTo(node, names, cell) && forall name <- names :: ':' !in name
    ensures Resolve(node, PathKey(names, key)) == Some((cell, Name(key)))
    decreases node
  {
    if node.Composite? {
      var i: nat :| FirstNamedChild(node.children, Name(names[0]), i) && LeadsTo(node.children[i], names[1..], cell);
      RouteJoined(names[0], PathKey(names[1..], key));
      ChildIsFirst(node.children, Name(names[0]));
      PathReaches(node.children[i], names[1..], cell, key);
    }
  }

  function Colons(n: nat): string {
    if n == 0 then "" else ":" + Colons(n - 1)
  }

  /** Conversely a key that comes to a cell is the way to its leaf and the key there, short of colons at the end
      that may be left away when the key there is empty. */
  lemma {:induction false} ResolvedIsPath(node: Node, key: string) returns (names: seq<string>, n: nat)
    requires Resolve(node, key).Some?
    ensures
      var (cell, k) := Resolve(node, key).value;
      && LeadsTo(node, names, cell) && (forall name <- names :: ':' !in name)
      && PathKey(names, k.text) == key + Colons(n) && (n > 0 ==> k.text == "")
    decreases node
  {
    if node.Leaf? {
      names, n := [], 0;
    } else {
      var (child, rest) := RouteKey(key);
      RouteIsSplit(key);
      ChildIsFirst(node.children, Name(child));
      var i := FindChild(node.children, Name(child)).value;
      var more, m := ResolvedIsPath(node.children[i], rest);
      names := [child] + more;
      assert names[1..] == more;
      n := if ':' in key then m else m + 1;
      var k := Resolve(node, key).value.1.text;
      PathGoesOn(child, more, k, key, rest, m);
      if ':' !in key && m == 0 {
        EmptyPath(more, k);
      }
    }
  }

  lemma PathGoesOn(child: string, more: seq<string>, k: string, key: string, rest: string, m: nat)
    requires PathKey(more, k) == rest + Colons(m)
    requires key == (if ':' in key then child + ":" + rest else child) && (':' !in key ==> rest == "")
    ensures PathKey([child] + more, k) == key + Colons(if ':' in key then m else m + 1)
  {
    assert ([child] + more)[1..] == more;
    if ':' !in key {
      assert child + ":" + Colons(m) == child + Colons(m + 1);
    }
  }

  lemma EmptyPath(names: seq<string>, k: string)
    requires PathKey(names, k) == ""
    ensures k == ""
  {
  }

  /** Reads and writes reach exactly the cell and key their routes come to, or fail if there is none. */
  lemma {:induction false} ReachesResolved(cells: Cells, node: Node, key: string, value: string)
    requires forall c: nat | Below(node, c) :: c in cells
    ensures var at := Resolve(node, key);
      if at.None? then
        && NodeGet(cells, node, key) == NoChild && NodePut(cells, node, key, value) == NoChild
        && NodeDel(cells, node, key) == NoChild
      else
        var (cell, k) := at.value;
        && cell in cells
        && NodeGet(cells, node, key) == Answer(if k in cells[cell] then Some(cells[cell][k]) else None)
        && NodePut(cells, node, key, value) == Answer(cells[cell := cells[cell][k := value]])
        && NodeDel(cells, node, key) == Answer(cells[cell := cells[cell] - {k}])
    decreases node
  {
    if node.Leaf? {
      assert Below(node, node.cell);
    } else {
      FoundChild(node.children, Name(RouteKey(key).0));
      var step := Step(node.children, key);
      if step.Some? {
        var child := node.children[step.value.0];
        assert forall c: nat | Below(child, c) :: Below(node, c);
        ReachesResolved(cells, child, step.value.1, value);
      }
    }
  }

  /** After a write a key reads the new value exactly if it comes to the same place, and otherwise what it
      read before; a deletion is read likewise. */
  lemma ReadAfterWrite(cells: Cells, node: Node, key: string, value: string, other: string)
    requires (forall c: nat | Below(node, c) :: c in cells) && Resolve(node, key).Some?
    ensures NodePut(cells, node, key, value).Answer? && NodeDel(cells, node, key).Answer?
    ensures var same := Resolve(node, other) == Resolve(node, key);
      && NodeGet(NodePut(cells, node, key, value).value, node, other)
        == (if same then Answer(Some(value)) else NodeGet(cells, node, other))
      && NodeGet(NodeDel(cells, node, key).value, node, other)
        == (if same then Answer(None) else NodeGet(cells, node, other))
  {
    ReachesResolved(cells, node, key, value);
    ReachesResolved(cells, node, other, value);
    ReachesResolved(NodePut(cells, node, key, value).value, node, other, value);
    ReachesResolved(NodeDel(cells, node, key).value, node, other, value);
    var (cell, k) := Resolve(node, key).value;
    var at := Resolve(node, other);
    if at.Some? && at.value.0 == cell && at.value.1 == k {
      assert at == Some((cell, k)) == Resolve(node, key);
    } else {
      assert at != Resolve(node, key);
    }
  }

  // ---------------------------------------------------------------- what a batch means

  function Applied(rows: Rows, op: Op): Rows {
    match op
    case Put(_, key, value) => rows[key := value]
    case Del(_, key) => rows - {key}
  }

  function ApplyAll(rows: Rows, ops: seq<Op>): Rows {
    if ops == [] then rows else Applied(ApplyAll(rows, ops[..|ops| - 1]), ops[|ops| - 1])
  }

  /** The operations that reach a cell, in order. */
  function Sent(node: Node, ops: seq<Op>, cell: nat): seq<Op> {
    if ops == [] then []
    else
      var n := |ops| - 1;
      Sent(node, ops[..n], cell) + if Target(node, ops[n].table) == Some(cell) then [ops[n]] else []
  }

  function AfterBatch(cells: Cells, node: Node, ops: seq<Op>): Cells {
    map c | c in cells :: ApplyAll(cells[c], Sent(node, ops, c))
  }

  lemma AfterOne(cells: Cells, node: Node, op: Op, cell: nat)
    requires Target(node, op.table) == Some(cell) && cell in cells
    ensures AfterBatch(cells, node, [op]) == cells[cell := Applied(cells[cell], op)]
  {
    var after, want := AfterBatch(cells, node, [op]), cells[cell := Applied(cells[cell], op)];
    forall c | c in cells ensures after[c] == want[c] {
      SentOneMore(node, [], op, c);
      ApplyOneMore(cells[c], [], op);
      assert ApplyAll(cells[c], []) == cells[c];
    }
  }

  /** A batch of one is what put and del do at a key that comes to the same place. */
  lemma BatchOfOne(cells: Cells, node: Node, op: Op, key: string)
    requires (forall c: nat | Below(node, c) :: c in cells) && Target(node, op.table).Some?
    requires Resolve(node, key) == Some((Target(node, op.table).value, op.key))
    ensures Answer(AfterBatch(cells, node, [op]))
      == if op.Put? then NodePut(cells, node, key, op.value) else NodeDel(cells, node, key)
  {
    ReachesResolved(cells, node, key, if op.Put? then op.value else "");
    AfterOne(cells, node, op, Target(node, op.table).value);
  }

  function Repeated(name: string, n: nat): seq<string> {
    if n == 0 then [] else [name] + Repeated(name, n - 1)
  }

  /** A table's operations end up where the way leads on which its name is looked up at every level. */
  lemma {:induction false} TargetIsPath(node: Node, table: Name) returns (n: nat)
    requires Target(node, table).Some?
    ensures LeadsTo(node, Repeated(table.text, n), Target(node, table).value)
    decreases node
  {
    if node.Leaf? {
      n := 0;
    } else {
      ChildIsFirst(node.children, table);
      var i := FindChild(node.children, table).value;
      var m := TargetIsPath(node.children[i], table);
      n := m + 1;
      assert Repeated(table.text, n)[1..] == Repeated(table.text, m);
      assert FirstNamedChild(node.children, Name(table.text), i);
    }
  }

  predicate Resolves(node: Node, ops: seq<Op>) {
    forall op <- ops :: Target(node, op.table).Some?
  }

  lemma SentOneMore(node: Node, ops: seq<Op>, op: Op, cell: nat)
    ensures Sent(node, ops + [op], cell) == Sent(node, ops, cell) + Sent(node, [op], cell)
    ensures Sent(node, [op], cell) == if Target(node, op.table) == Some(cell) then [op] else []
  {
    assert (ops + [op])[..|ops|] == ops;
    assert [op][..0] == [] && Sent(node, [], cell) == [];
  }

  lemma ApplyOneMore(rows: Rows, sent: seq<Op>, op: Op)
    ensures ApplyAll(rows, sent + [op]) == Applied(ApplyAll(rows, sent), op)
    ensures ApplyAll(rows, [op]) == Applied(rows, op)
  {
    assert (sent + [op])[..|sent|] == sent;
    assert [op][..0] == [];
  }

  lemma CellOneByOne(rows: Rows, node: Node, ops: seq<Op>, op: Op, cell: nat)
    ensures ApplyAll(rows, Sent(node, ops + [op], cell))
      == ApplyAll(ApplyAll(rows, Sent(node, ops, cell)), Sent(node, [op], cell))
  {
    var sent := Sent(node, ops, cell);
    SentOneMore(node, ops, op, cell);
    if Target(node, op.table) == Some(cell) {
      ApplyOneMore(rows, sent, op);
      ApplyOneMore(ApplyAll(rows, sent), [], op);
    } else {
      assert sent + [] == sent;
    }
  }

  /** A batch means its operations one after the other. */
  lemma BatchIsOneByOne(cells: Cells, node: Node, ops: seq<Op>, op: Op)
    ensures AfterBatch(cells, node, ops + [op]) == AfterBatch(AfterBatch(cells, node, ops), node, [op])
  {
    var once, twice := AfterBatch(cells, node, ops + [op]), AfterBatch(AfterBatch(cells, node, ops), node, [op]);
    forall c | c in cells ensures once[c] == twice[c] {
      CellOneByOne(cells[c], node, ops, op, c);
    }
  }

  function Group(ops: seq<Op>, table: Name): seq<Op> {
    if ops == [] then []
    else
      var n := |ops| - 1;
      Group(ops[..n], table) + if ops[n].table == table then [ops[n]] else []
  }

  lemma TargetIsBelow(node: Node, table: Name)
    ensures Target(node, table).Some? ==> Below(node, Target(node, table).value)
    decreases node
  {
    if node.Composite? {
      FoundChild(node.children, table);
      var i := FindChild(node.children, table);
      if i.Some? {
        TargetIsBelow(node.children[i.value], table);
      }
    }
  }

  /** Only one group reaches the cells below a child. */
  lemma {:induction false} SentIsGroupSent(node: Node, ops: seq<Op>, table: Name, i: nat, cell: nat)
    requires node.Composite? && Separate(node) && FindChild(node.children, table) == Some(i)
    requires i < |node.children| && Below(node.children[i], cell)
    ensures Sent(node, ops, cell) == Sent(node.children[i], Group(ops, table), cell)
  {
    if ops != [] {
      var n := |ops| - 1;
      var op, group := ops[n], Group(ops[..n], table);
      SentIsGroupSent(node, ops[..n], table, i, cell);
      if op.table == table {
        assert (group + [op])[..|group|] == group;
      } else {
        assert group + [] == group && Sent(node, ops[..n], cell) + [] == Sent(node, ops[..n], cell);
        FoundChild(node.children, table);
        FoundChild(node.children, op.table);
        var j := FindChild(node.children, op.table);
        if j.Some? {
          assert j.value != i;
          TargetIsBelow(node.children[j.value], op.table);
        }
      }
    }
  }

  lemma {:induction false} NothingSentElsewhere(node: Node, ops: seq<Op>, cell: nat)
    requires !Below(node, cell)
    ensures Sent(node, ops, cell) == []
  {
    if ops != [] {
      var n := |ops| - 1;
      TargetIsBelow(node, ops[n].table);
      NothingSentElsewhere(node, ops[..n], cell);
    }
  }

  lemma {:induction false} LeafGetsAll(node: Node, ops: seq<Op>)
    requires node.Leaf?
    ensures Sent(node, ops, node.cell) == ops && Resolves(node, ops)
  {
    if ops != [] {
      LeafGetsAll(node, ops[..|ops| - 1]);
      assert ops == ops[..|ops| - 1] + [ops[|ops| - 1]];
    }
  }

  lemma {:induction false} GroupHas(ops: seq<Op>, table: Name)
    ensures forall op :: op in Group(ops, table) <==> op in ops && op.table == table
  {
    if ops != [] {
      GroupHas(ops[..|ops| - 1], table);
      assert ops == ops[..|ops| - 1] + [ops[|ops| - 1]];
    }
  }

  /** The cell lies below the child of one of the tables. */
  ghost predicate Reached(children: seq<Node>, tables: set<Name>, cell: nat) {
    exists t <- tables :: ReachedBy(children, t, cell)
  }

  ghost predicate ReachedBy(children: seq<Node>, table: Name, cell: nat) {
    var i := FindChild(children, table);
    i.Some? && i.value < |children| && Below(children[i.value], cell)
  }

  lemma {:induction false} UnreachedGetsNothing(node: Node, ops: seq<Op>, tables: set<Name>, cell: nat)
    requires node.Composite? && !Reached(node.children, tables, cell)
    requires forall op <- ops :: op.table in tables
    ensures Sent(node, ops, cell) == []
  {
    if ops != [] {
      var n := |ops| - 1;
      assert ops[n] in ops && forall op <- ops[..n] :: op in ops;
      UnreachedGetsNothing(node, ops[..n], tables, cell);
      FoundChild(node.children, ops[n].table);
      var i := FindChild(node.children, ops[n].table);
      assert !ReachedBy(node.children, ops[n].table, cell);
      if i.Some? {
        TargetIsBelow(node.children[i.value], ops[n].table);
      }
    }
  }

  method GroupByTable(ops: seq<Op>) returns (grouped: map<Name, seq<Op>>)
    ensures forall t :: t in grouped <==> exists op <- ops :: op.table == t
    ensures forall t <- grouped :: grouped[t] == Group(ops, t) != []
  {
    grouped := map[];
    for i := 0 to |ops|
      invariant forall t :: t in grouped <==> Group(ops[..i], t) != []
      invariant forall t <- grouped :: grouped[t] == Group(ops[..i], t)
    {
      var t := ops[i].table;
      assert ops[..i + 1][..i] == ops[..i];
      grouped := grouped[t := (if t in grouped then grouped[t] else []) + [ops[i]]];
    }
    assert ops[..|ops|] == ops;
    forall t ensures t in grouped <==> exists op <- ops :: op.table == t {
      GroupHas(ops, t);
      if t in grouped {
        assert grouped[t][0] in Group(ops, t);
      }
    }
  }

  /** Backends are foreign: `fails` says which leaf batches fail, and `left` what a failed one leaves behind. */
  datatype Backends = Backends(fails: (nat, seq<Op>) -> bool, left: (nat, Rows, seq<Op>) -> Rows)

  function LeafAfter(b: Backends, c: nat, rows: Rows, ops: seq<Op>): Rows {
    if b.fails(c, ops) then b.left(c, rows, ops) else ApplyAll(rows, ops)
  }

  /** The batch calls the leaf of this cell; a composite has no empty groups. */
  ghost predicate Called(node: Node, ops: seq<Op>, c: nat) {
    Below(node, c) && (node.Leaf? || Sent(node, ops, c) != [])
  }

  /** Every table resolves and no leaf that is called fails. */
  ghost predicate Succeeds(b: Backends, node: Node, ops: seq<Op>) {
    Resolves(node, ops) && forall c: nat :: Called(node, ops, c) ==> !b.fails(c, Sent(node, ops, c))
  }

  /** The effect of a batch: all of it, or, if something failed, each cell all or nothing, short of what a
      failed leaf leaves. */
  ghost predicate Batched(b: Backends, before: Cells, after: Cells, node: Node, ops: seq<Op>, ok: bool) {
    && after.Keys == before.Keys && ok == Succeeds(b, node, ops)
    && (ok ==> after == AfterBatch(before, node, ops))
    && forall c <- before ::
      after[c] == before[c] || (Called(node, ops, c) && after[c] == LeafAfter(b, c, before[c], Sent(node, ops, c)))
  }

  /** The effect of one group: complete below its child unless it failed, none elsewhere. */
  ghost predicate Settled(b: Backends, before: Cells, after: Cells, node: Node, ops: seq<Op>, table: Name, ok: bool,
                          c: nat)
    requires node.Composite? && c in before && c in after
  {
    if !ReachedBy(node.children, table, c) then after[c] == before[c]
    else if ok then after[c] == ApplyAll(before[c], Sent(node, ops, c))
    else
      || after[c] == before[c]
      || (Called(node, ops, c) && after[c] == LeafAfter(b, c, before[c], Sent(node, ops, c)))
  }

  /** No leaf called below the table's child fails. */
  ghost predicate LeavesSucceed(b: Backends, node: Node, ops: seq<Op>, table: Name)
    requires node.Composite?
  {
    forall c: nat :: ReachedBy(node.children, table, c) && Called(node, ops, c) ==> !b.fails(c, Sent(node, ops, c))
  }

  /** When one group succeeds. */
  ghost predicate GroupSucceeds(b: Backends, node: Node, ops: seq<Op>, table: Name)
    requires node.Composite?
  {
    (forall op <- Group(ops, table) :: Target(node, op.table).Some?) && LeavesSucceed(b, node, ops, table)
  }

  /** What happens below a child is what the whole batch sends there. */
  lemma CalledInGroup(node: Node, ops: seq<Op>, table: Name, i: nat, c: nat)
    requires node.Composite? && Separate(node) && i < |node.children| && FindChild(node.children, table) == Some(i)
    requires Group(ops, table) != [] && Below(node.children[i], c)
    ensures Sent(node, ops, c) == Sent(node.children[i], Group(ops, table), c)
    ensures Called(node, ops, c) == Called(node.children[i], Group(ops, table), c)
  {
    SentIsGroupSent(node, ops, table, i, c);
    if node.children[i].Leaf? {
      LeafGetsAll(node.children[i], Group(ops, table));
    }
  }

  lemma GroupSucceedsIff(b: Backends, node: Node, ops: seq<Op>, table: Name, i: nat)
    requires node.Composite? && Separate(node) && i < |node.children| && FindChild(node.children, table) == Some(i)
    requires Group(ops, table) != []
    ensures Succeeds(b, node.children[i], Group(ops, table)) == GroupSucceeds(b, node, ops, table)
  {
    var child, group := node.children[i], Group(ops, table);
    GroupHas(ops, table);
    forall c: nat | Below(child, c)
      ensures Called(node, ops, c) == Called(child, group, c) && Sent(node, ops, c) == Sent(child, group, c)
    {
      CalledInGroup(node, ops, table, i, c);
    }
    if LeavesSucceed(b, node, ops, table) {
      forall c: nat | Called(child, group, c) ensures !b.fails(c, Sent(child, group, c)) {
        assert ReachedBy(node.children, table, c);
      }
    }
  }

  lemma GroupEffect(b: Backends, node: Node, ops: seq<Op>, table: Name, i: nat, before: Cells, after: Cells, ok: bool)
    requires node.Composite? && Separate(node) && i < |node.children| && FindChild(node.children, table) == Some(i)
    requires Group(ops, table) != [] && Batched(b, before, after, node.children[i], Group(ops, table), ok)
    ensures ok == GroupSucceeds(b, node, ops, table)
    ensures forall c <- before :: Settled(b, before, after, node, ops, table, ok, c)
  {
    var child, group := node.children[i], Group(ops, table);
    GroupSucceedsIff(b, node, ops, table, i);
    forall c | c in before ensures Settled(b, before, after, node, ops, table, ok, c) {
      if Below(child, c) {
        CalledInGroup(node, ops, table, i, c);
      } else {
        NothingSentElsewhere(child, group, c);
      }
    }
  }

  lemma OnlyOneReaches(node: Node, t: Name, u: Name, c: nat)
    requires node.Composite? && Separate(node) && t != u && ReachedBy(node.children, t, c)
    ensures !ReachedBy(node.children, u, c)
  {
    FoundChild(node.children, t);
    FoundChild(node.children, u);
  }

  /** The groups of some tables have been sent. */
  ghost predicate Progress(b: Backends, before: Cells, now: Cells, node: Node, ops: seq<Op>, tables: set<Name>)
    requires node.Composite?
  {
    && now.Keys == before.Keys
    && (forall t <- tables :: GroupSucceeds(b, node, ops, t))
    && forall c <- before ::
      now[c] == if Reached(node.children, tables, c) then ApplyAll(before[c], Sent(node, ops, c)) else before[c]
  }

  lemma ReachedOneMore(node: Node, tables: set<Name>, t: Name, c: nat)
    requires node.Composite? && Separate(node) && t !in tables
    ensures ReachedBy(node.children, t, c) ==> !Reached(node.children, tables, c)
    ensures Reached(node.children, tables + {t}, c)
      == (Reached(node.children, tables, c) || ReachedBy(node.children, t, c))
  {
    if ReachedBy(node.children, t, c) {
      forall u <- tables ensures !ReachedBy(node.children, u, c) {
        OnlyOneReaches(node, t, u, c);
      }
      assert t in tables + {t};
    } else if Reached(node.children, tables, c) {
      var u :| u in tables && ReachedBy(node.children, u, c);
      assert u in tables + {t};
    }
  }

  lemma GroupVisited(b: Backends, before: Cells, last: Cells, now: Cells, node: Node, ops: seq<Op>, tables: set<Name>,
                     t: Name)
    requires node.Composite? && Separate(node) && Progress(b, before, last, node, ops, tables) && t !in tables
    requires now.Keys == last.Keys && GroupSucceeds(b, node, ops, t)
    requires forall c <- last :: Settled(b, last, now, node, ops, t, true, c)
    ensures Progress(b, before, now, node, ops, tables + {t})
  {
    forall c | c in before
      ensures now[c] ==
        if Reached(node.children, tables + {t}, c) then ApplyAll(before[c], Sent(node, ops, c)) else before[c]
    {
      ReachedOneMore(node, tables, t, c);
      assert Settled(b, last, now, node, ops, t, true, c);
    }
  }

  lemma FailedGroupFails(b: Backends, node: Node, ops: seq<Op>, t: Name)
    requires node.Composite? && !GroupSucceeds(b, node, ops, t)
    ensures !Succeeds(b, node, ops)
  {
    GroupHas(ops, t);
    if op :| op in Group(ops, t) && Target(node, op.table).None? {
      assert op in ops;
    }
  }

  lemma GroupFailed(b: Backends, before: Cells, last: Cells, now: Cells, node: Node, ops: seq<Op>, tables: set<Name>,
                    t: Name)
    requires node.Composite? && Separate(node) && Progress(b, before, last, node, ops, tables) && t !in tables
    requires now.Keys == last.Keys && !GroupSucceeds(b, node, ops, t)
    requires forall c <- last :: Settled(b, last, now, node, ops, t, false, c)
    ensures Batched(b, before, now, node, ops, false)
  {
    FailedGroupFails(b, node, ops, t);
    forall c | c in before
      ensures now[c] == before[c] || (Called(node, ops, c) && now[c] == LeafAfter(b, c, before[c], Sent(node, ops, c)))
    {
      ReachedOneMore(node, tables, t, c);
      assert Settled(b, last, now, node, ops, t, false, c);
      if Reached(node.children, tables, c) {
        SentCells(b, node, ops, tables, c);
      }
    }
  }

  /** Where the groups sent so far have reached, the leaf did its part if it was called. */
  lemma SentCells(b: Backends, node: Node, ops: seq<Op>, tables: set<Name>, c: nat)
    requires node.Composite? && Reached(node.children, tables, c)
    requires forall t <- tables :: GroupSucceeds(b, node, ops, t)
    ensures Called(node, ops, c) ==> !b.fails(c, Sent(node, ops, c))
    ensures !Called(node, ops, c) ==> Sent(node, ops, c) == []
  {
    var u :| u in tables && ReachedBy(node.children, u, c);
    assert GroupSucceeds(b, node, ops, u);
  }

  /** All groups visited: every cell has had its operations. */
  lemma AllGroupsDone(b: Backends, before: Cells, now: Cells, node: Node, ops: seq<Op>, tables: set<Name>)
    requires node.Composite? && Progress(b, before, now, node, ops, tables)
    requires forall op <- ops :: op.table in tables
    ensures Batched(b, before, now, node, ops, true)
  {
    forall c: nat | !Reached(node.children, tables, c) ensures Sent(node, ops, c) == [] {
      UnreachedGetsNothing(node, ops, tables, c);
    }
    forall c: nat | Called(node, ops, c) ensures !b.fails(c, Sent(node, ops, c)) {
      SentCells(b, node, ops, tables, c);
    }
    forall op <- ops ensures Target(node, op.table).Some? {
      GroupHas(ops, op.table);
      assert GroupSucceeds(b, node, ops, op.table) && op in Group(ops, op.table);
    }
    forall c | c in before && Reached(node.children, tables, c)
      ensures now[c] == before[c] || (Called(node, ops, c) && now[c] == LeafAfter(b, c, before[c], Sent(node, ops, c)))
    {
      SentCells(b, node, ops, tables, c);
    }
  }

  class Store {
    const backends: Backends
    var cells: Cells

    ghost predicate Covers(node: Node)
      reads this
    {
      forall c: nat | Below(node, c) :: c in cells
    }

    method LeafBatch(node: Node, ops: seq<Op>) returns (ok: bool)
      requires node.Leaf? && node.cell in cells
      modifies this
      ensures Batched(backends, old(cells), cells, node, ops, ok)
    {
      LeafGetsAll(node, ops);
      forall c: nat | c != node.cell ensures Sent(node, ops, c) == [] {
        NothingSentElsewhere(node, ops, c);
      }
      assert Called(node, ops, node.cell);
      ok := !backends.fails(node.cell, ops);
      cells := cells[node.cell := LeafAfter(backends, node.cell, cells[node.cell], ops)];
    }

    /** Sends one group to its child. */
    method GroupBatch(node: Node, ops: seq<Op>, table: Name, group: seq<Op>) returns (ok: bool)
      requires node.Composite? && Separate(node) && Covers(node) && group == Group(ops, table) != []
      modifies this
      ensures cells.Keys == old(cells).Keys && ok == GroupSucceeds(backends, node, ops, table)
      ensures forall c <- cells :: Settled(backends, old(cells), cells, node, ops, table, ok, c)
      decreases node, 0
    {
      GroupHas(ops, table);
      FoundChild(node.children, table);
      var i := FindChild(node.children, table);
      if i.None? {
        assert group[0] in group && Target(node, table).None?;
        return false;
      }
      var child := node.children[i.value];
      assert forall c: nat | Below(child, c) :: Below(node, c);
      ok := NodeBatch(child, group);
      GroupEffect(backends, node, ops, table, i.value, old(cells), cells, ok);
    }

    /** A batch over the tree succeeds exactly when every operation's table resolves and every leaf it calls
        does its part, and then leaves every cell as if the operations had been applied one by one; if it
        fails, each cell has had either all its operations or none, or is as its failed leaf left it. */
    method NodeBatch(node: Node, ops: seq<Op>) returns (ok: bool)
      requires Separate(node) && Covers(node)
      modifies this
      ensures Batched(backends, old(cells), cells, node, ops, ok)
      decreases node, 1
    {
      if node.Leaf? {
        ok := LeafBatch(node, ops);
        return;
      }
      ghost var before := cells;
      var grouped := GroupByTable(ops);
      var pending := grouped.Keys;
      while pending != {}
        invariant pending <= grouped.Keys && Progress(backends, before, cells, node, ops, grouped.Keys - pending)
      {
        var table :| table in pending;
        ghost var last, visited := cells, grouped.Keys - pending;
        ok := GroupBatch(node, ops, table, grouped[table]);
        if !ok {
          GroupFailed(backends, before, last, cells, node, ops, visited, table);
          return;
        }
        GroupVisited(backends, before, last, cells, node, ops, visited, table);
        pending := pending - {table};
        assert grouped.Keys - pending == visited + {table};
      }
      AllGroupsDone(backends, before, cells, node, ops, grouped.Keys);
      ok := true;
    }
  }
}
