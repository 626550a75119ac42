/** The raw configuration: nested tables, changed in place along dotted paths. */
module RawMaps {
  import opened ConfigValues
  import opened Text
  import opened Wrappers

  /** One table of the tree; a sub-table is another object. */
  class Table {
    var entries: map<string, Cell>

    constructor ()
      ensures entries == map[]
    {
      entries := map[];
    }
  }

  datatype Cell = Scalar(v: Value) | Sub(table: Table)

  type Path = seq<string>

  /** What a path leads to. */
  datatype Entry = Leaf(v: Value) | Inner

  type View = map<Path, Entry>

  // ----- the specification, on views -----

  /** Everything at the path and below it goes. */
  function Cut<V>(m: map<Path, V>, path: Path): (r: map<Path, V>)
    ensures forall q :: q in r <==> q in m && !(path <= q)
    ensures forall q <- r :: r[q] == m[q]
  {
    map q | q in m && !(path <= q) :: m[q]
  }

  /** Every step of the path becomes a table, replacing a scalar. */
  function WithTables(view: View, path: Path): View {
    if path == [] then view else WithTables(view, path[..|path| - 1])[path := Inner]
  }

  function Put(view: View, path: Path, v: Value): View
    requires path != []
  {
    Cut(WithTables(view, path[..|path| - 1]), path)[path := Leaf(v)]
  }

  function Unset(view: View, path: Path): View { Cut(view, path) }

  function Get(view: View, path: Path): Option<Entry> { if path in view then Some(view[path]) else None }

  /** Tables all the way down to whatever is there. */
  ghost predicate IsTree(view: View) {
    forall q <- view :: q != [] && (|q| > 1 ==> q[..|q| - 1] in view && view[q[..|q| - 1]] == Inner)
  }

  predicate Comparable(p: Path, q: Path) { p <= q || q <= p }

  lemma PrefixOfFront(q: Path, path: Path)
    requires path != []
    ensures q <= path[..|path| - 1] <==> q <= path && q != path
  {
    if q <= path {
      assert q == path[..|q|];
      assert path == path[..|path|];
      if q != path { assert q == path[..|path| - 1][..|q|]; }
    }
  }

  lemma {:induction false} WithTablesAt(view: View, path: Path, q: Path)
    ensures Get(WithTables(view, path), q) == if q != [] && q <= path then Some(Inner) else Get(view, q)
  {
    if path != [] {
      WithTablesAt(view, path[..|path| - 1], q);
      PrefixOfFront(q, path);
    }
  }

  /** The whole view after a write, path by path: the written leaf, the tables above it, nothing below it. */
  lemma PutAt(view: View, path: Path, v: Value, q: Path)
    requires path != []
    ensures Get(Put(view, path, v), q) ==
            if q == path then Some(Leaf(v))
            else if path <= q then None
            else if q != [] && q <= path then Some(Inner)
            else Get(view, q)
  {
    WithTablesAt(view, path[..|path| - 1], q);
    PrefixOfFront(q, path);
  }

  /** A write is read back, and a key that is neither above nor below it keeps its value. */
  lemma ReadAfterWrite(view: View, path: Path, v: Value, other: Path)
    requires path != [] && !Comparable(path, other)
    ensures Get(Put(view, path, v), path) == Some(Leaf(v))
    ensures Get(Put(view, path, v), other) == Get(view, other)
  {
    PutAt(view, path, v, path);
    PutAt(view, path, v, other);
  }

  /** Writing a tree gives a tree. */
  lemma PutIsTree(view: View, path: Path, v: Value)
    requires IsTree(view) && path != []
    ensures IsTree(Put(view, path, v))
  {
    var view' := Put(view, path, v);
    forall q | q in view'
      ensures q != [] && (|q| > 1 ==> Get(view', q[..|q| - 1]) == Some(Inner))
    {
      PutAt(view, path, v, q);
      if |q| > 1 {
        PrefixOfFront(path, q);
        PutAt(view, path, v, q[..|q| - 1]);
        PrefixTransitive(q[..|q| - 1], q, path);
      }
    }
    forall q | q in view' && |q| > 1 ensures q[..|q| - 1] in view' && view'[q[..|q| - 1]] == Inner {
      assert Get(view', q[..|q| - 1]) == Some(Inner);
    }
  }

  lemma PrefixTransitive(a: Path, b: Path, c: Path)
    requires a <= b
    ensures b <= c ==> a <= c
    ensures a == c && a != b ==> !(b <= c)
  {
    if b <= c { assert a == b[..|a|] == c[..|a|]; }
  }

  /** After unsetting, the key is gone with all below it; every other key is as before, emptied tables too. */
  lemma UnsetAt(view: View, path: Path, q: Path)
    ensures Get(Unset(view, path), q) == if path <= q then None else Get(view, q)
  {
  }

  /** Unsetting a key just written to a view without it restores every key but the tables made on the way. */
  lemma UnsetAfterWrite(view: View, path: Path, v: Value, q: Path)
    requires path != [] && IsTree(view) && path !in view
    ensures Get(Unset(Put(view, path, v), path), q) ==
            if q != [] && q <= path && q != path then Some(Inner) else Get(view, q)
  {
    PutAt(view, path, v, q);
    UnsetAt(Put(view, path, v), path, q);
    if path <= q && q in view {
      AboveIsThere(view, q, path);
    }
  }

  lemma {:induction false} AboveIsThere(view: View, q: Path, path: Path)
    requires IsTree(view) && q in view && path != [] && path <= q
    ensures path in view
    decreases |q|
  {
    if |q| > |path| {
      var front := q[..|q| - 1];
      assert path == q[..|path|] == front[..|path|];
      AboveIsThere(view, front, path);
    } else {
      assert path == q[..|path|] == q;
    }
  }

  // ----- tables and what they represent -----

  type Nodes = map<Path, Table>

  type Rows = map<Path, map<string, Cell>>

  /** What the tables hold at a path. */
  function CellAt(rows: Rows, q: Path): Option<Cell> {
    if q == [] then None
    else
      var front, last := q[..|q| - 1], q[|q| - 1];
      if front in rows && last in rows[front] then Some(rows[front][last]) else None
  }

  ghost predicate Agrees(nodes: Nodes, rows: Rows, view: View, q: Path) {
    && (q != [] && q in nodes ==> CellAt(rows, q) == Some(Sub(nodes[q])))
    && match CellAt(rows, q)
       case None => q !in view
       case Some(Scalar(v)) => Get(view, q) == Some(Leaf(v))
       case Some(Sub(table)) => Get(view, q) == Some(Inner) && q in nodes && nodes[q] == table
  }

  /** Each table sits at one path, and the view says what the tables hold. */
  ghost predicate Represents(nodes: Nodes, rows: Rows, view: View) {
    && [] in nodes && nodes.Keys == rows.Keys
    && (forall p <- nodes, q <- nodes :: nodes[p] == nodes[q] ==> p == q)
    && (forall q :: Agrees(nodes, rows, view, q))
  }

  lemma RepresentsTree(nodes: Nodes, rows: Rows, view: View)
    requires Represents(nodes, rows, view)
    ensures IsTree(view)
  {
    forall q | q in view ensures q != [] && (|q| > 1 ==> Get(view, q[..|q| - 1]) == Some(Inner)) {
      assert Agrees(nodes, rows, view, q);
      if |q| > 1 { assert Agrees(nodes, rows, view, q[..|q| - 1]); }
    }
    forall q | q in view && |q| > 1 ensures q[..|q| - 1] in view && view[q[..|q| - 1]] == Inner {
      assert Get(view, q[..|q| - 1]) == Some(Inner);
    }
  }

  /** A path that leads to no table has nothing below it. */
  lemma {:induction false} NothingBelow(nodes: Nodes, rows: Rows, view: View, path: Path, q: Path)
    requires Represents(nodes, rows, view) && path !in nodes && path <= q && q != path
    ensures q !in view && q !in nodes
    decreases |q|
  {
    var front := q[..|q| - 1];
    PrefixOfFront(path, q);
    if front != path { NothingBelow(nodes, rows, view, path, front); }
    assert Agrees(nodes, rows, view, q);
  }

  /** What the tables hold after an empty one was put in place. */
  lemma CellAfterTable(rows: Rows, p: Path, k: string, child: Table, q: Path)
    requires p in rows
    ensures CellAt(rows[p := rows[p][k := Sub(child)]][p + [k] := map[]], q) ==
            if q == p + [k] then Some(Sub(child))
            else if q != [] && q[..|q| - 1] == p + [k] then None
            else CellAt(rows, q)
  {
    var path := p + [k];
    assert path[..|p|] == p && path[|p|] == k;
    if q != [] { assert q == q[..|q| - 1] + [q[|q| - 1]]; }
  }

  lemma NodeBelow(nodes: Nodes, rows: Rows, view: View, path: Path, q: Path)
    requires Represents(nodes, rows, view) && path !in nodes && q != [] && q[..|q| - 1] == path
    ensures q !in view && q !in nodes
  {
    assert q == path + [q[|q| - 1]];
    NothingBelow(nodes, rows, view, path, q);
  }

  /** A fresh empty table in place of nothing or of a scalar. */
  lemma TableAdded(nodes: Nodes, rows: Rows, view: View, p: Path, k: string, child: Table)
    requires Represents(nodes, rows, view) && p in rows && child !in nodes.Values
    requires k in rows[p] ==> rows[p][k].Scalar?
    ensures Represents(nodes[p + [k] := child], rows[p := rows[p][k := Sub(child)]][p + [k] := map[]],
                       view[p + [k] := Inner])
  {
    var path := p + [k];
    assert path[..|p|] == p && path[|p|] == k;
    assert path !in nodes by { assert Agrees(nodes, rows, view, path); }
    var nodes', rows', view' := nodes[path := child], rows[p := rows[p][k := Sub(child)]][path := map[]],
      view[path := Inner];
    forall q ensures Agrees(nodes', rows', view', q) {
      assert Agrees(nodes, rows, view, q);
      CellAfterTable(rows, p, k, child, q);
      if q != [] && q[..|q| - 1] == path { NodeBelow(nodes, rows, view, path, q); }
    }
  }

  /** What the tables hold after one row changed at one key and everything below that key went. */
  lemma CellAfter(rows: Rows, p: Path, k: string, row: map<string, Cell>, q: Path)
    requires p in rows && row - {k} == rows[p] - {k}
    ensures CellAt(Cut(rows, p + [k])[p := row], q) ==
            if q == p + [k] then if k in row then Some(row[k]) else None
            else if p + [k] <= q then None
            else CellAt(rows, q)
  {
    var path := p + [k];
    assert path[..|p|] == p && path[|p|] == k;
    if q != [] {
      var front, last := q[..|q| - 1], q[|q| - 1];
      assert q == front + [last];
      PrefixOfFront(path, q);
      if front == p && last != k {
        assert last in row <==> last in row - {k};
        assert last in rows[p] <==> last in rows[p] - {k};
      }
    }
  }

  /** The view after that. */
  lemma KeyChanged(nodes: Nodes, rows: Rows, view: View, p: Path, k: string, row: map<string, Cell>)
    requires Represents(nodes, rows, view) && p in rows && row - {k} == rows[p] - {k}
    requires k in row ==> row[k].Scalar?
    ensures var path := p + [k];
      Represents(Cut(nodes, path), Cut(rows, path)[p := row],
                 if k in row then Cut(view, path)[path := Leaf(row[k].v)] else Cut(view, path))
  {
    var path := p + [k];
    var nodes', rows' := Cut(nodes, path), Cut(rows, path)[p := row];
    var view' := if k in row then Cut(view, path)[path := Leaf(row[k].v)] else Cut(view, path);
    assert !(path <= p) && !(path <= []);
    forall q ensures Agrees(nodes', rows', view', q) {
      assert Agrees(nodes, rows, view, q);
      CellAfter(rows, p, k, row, q);
    }
  }

  /** The configuration as one object: the root table and, for reasoning only, the tables below it. */
  class RawMap {
    const root: Table
    ghost var nodes: Nodes
    ghost var view: View

    ghost function Rows(): (rows: Rows)
      reads this, nodes.Values
    {
      map p | p in nodes :: nodes[p].entries
    }

    ghost predicate Valid()
      reads this, nodes.Values
    {
      [] in nodes && nodes[[]] == root && Represents(nodes, Rows(), view)
    }

    /** What the tables represent is always a tree. */
    lemma ValidIsTree()
      requires Valid()
      ensures IsTree(view)
    {
      RepresentsTree(nodes, Rows(), view);
    }

    constructor ()
      ensures Valid() && view == map[] && fresh(root) && nodes.Values == {root}
    {
      root := new Table();
      nodes := map[[] := root];
      view := map[];
    }

    /** The entry a path leads to, and whether there is one. */
    method ReadRaw(name: string) returns (cell: Option<Cell>)
      requires Valid()
      ensures match cell
        case None => Get(view, Split(name, '.')) == None
        case Some(Scalar(v)) => Get(view, Split(name, '.')) == Some(Leaf(v))
        case Some(Sub(table)) =>
          && Get(view, Split(name, '.')) == Some(Inner)
          && Split(name, '.') in nodes && nodes[Split(name, '.')] == table
    {
      var parts := Split(name, '.');
      var cur := Sub(root);
      ghost var rows := Rows();
      for i := 0 to |parts|
        invariant match cur
          case Scalar(_) => CellAt(rows, parts[..i]) == Some(cur)
          case Sub(table) => parts[..i] in nodes && nodes[parts[..i]] == table
      {
        assert parts[..i + 1][..i] == parts[..i];
        assert Agrees(nodes, rows, view, parts[..i + 1]);
        if cur.Scalar? {
          ScalarEnds(nodes, rows, view, parts, i);
          return None;
        }
        if parts[i] !in cur.table.entries {
          EndsHere(nodes, rows, view, parts, i + 1);
          return None;
        }
        cur := cur.table.entries[parts[i]];
      }
      assert parts[..|parts|] == parts;
      assert Agrees(nodes, rows, view, parts);
      cell := Some(cur);
    }

    /** The sub-table at `path + [k]`, created when there is none. */
    method Child(ghost path: Path, m: Table, k: string) returns (child: Table)
      requires Valid() && path in nodes && nodes[path] == m
      modifies `nodes, `view, m
      ensures Valid() && fresh(nodes.Values - old(nodes.Values))
      ensures view == old(view)[path + [k] := Inner]
      ensures path + [k] in nodes && nodes[path + [k]] == child
    {
      ghost var next := path + [k];
      ghost var rows := Rows();
      assert next[..|path|] == path && next[|path|] == k;
      assert Agrees(nodes, rows, view, next);
      if k in m.entries && m.entries[k].Sub? {
        child := m.entries[k].table;
        assert view == view[next := Inner];
      } else {
        child := new Table();
        TableAdded(nodes, rows, view, path, k, child);
        m.entries := m.entries[k := Sub(child)];
        nodes := nodes[next := child];
        view := view[next := Inner];
        assert Rows() == rows[path := m.entries][next := map[]];
      }
    }

    /** The path leads to the value afterwards; tables missing on the way are created. */
    method WriteRaw(name: string, value: Value)
      requires Valid()
      modifies this, nodes.Values
      ensures Valid() && fresh(nodes.Values - old(nodes.Values))
      ensures view == Put(old(view), Split(name, '.'), value) && IsTree(old(view)) && IsTree(view)
    {
      ValidIsTree();
      var parts := Split(name, '.');
      ghost var front := parts[..|parts| - 1];
      var m := root;
      for i := 0 to |parts| - 1
        invariant Valid() && fresh(nodes.Values - old(nodes.Values))
        invariant parts[..i] in nodes && nodes[parts[..i]] == m
        invariant view == WithTables(old(view), parts[..i])
      {
        assert parts[..i + 1] == parts[..i] + [parts[i]];
        assert parts[..i + 1][..i] == parts[..i];
        m := Child(parts[..i], m, parts[i]);
      }
      SetKey(front, m, parts[|parts| - 1], Some(value));
      assert parts == front + [parts[|parts| - 1]];
      ValidIsTree();
    }

    /** Sets or deletes one key of one table. */
    method SetKey(ghost path: Path, m: Table, k: string, leaf: Option<Value>)
      requires Valid() && path in nodes && nodes[path] == m
      modifies `nodes, `view, m
      ensures Valid() && nodes.Values <= old(nodes.Values)
      ensures view == if leaf.Some? then Cut(old(view), path + [k])[path + [k] := Leaf(leaf.value)]
                      else Cut(old(view), path + [k])
    {
      ghost var next := path + [k];
      ghost var rows := Rows();
      ghost var row := if leaf.Some? then m.entries[k := Scalar(leaf.value)] else m.entries - {k};
      KeyChanged(nodes, rows, view, path, k, row);
      m.entries := if leaf.Some? then m.entries[k := Scalar(leaf.value)] else m.entries - {k};
      nodes := Cut(nodes, next);
      view := if leaf.Some? then Cut(view, next)[next := Leaf(leaf.value)] else Cut(view, next);
      assert !(next <= path) && !(next <= []);
      assert Rows() == Cut(rows, next)[path := row];
    }

    /** Removes the key; true exactly when it was there. */
    method UnsetRaw(name: string) returns (removed: bool)
      requires Valid()
      modifies this, nodes.Values
      ensures Valid() && nodes.Values <= old(nodes.Values)
      ensures removed <==> Split(name, '.') in old(view)
      ensures view == Unset(old(view), Split(name, '.'))
    {
      var parts := Split(name, '.');
      ghost var rows := Rows();
      var m := root;
      for i := 0 to |parts| - 1
        invariant nodes == old(nodes) && view == old(view) && Valid() && Rows() == rows
        invariant parts[..i] in nodes && nodes[parts[..i]] == m
      {
        assert parts[..i + 1][..i] == parts[..i];
        assert Agrees(nodes, rows, view, parts[..i + 1]);
        if parts[i] !in m.entries || m.entries[parts[i]].Scalar? {
          NoTable(nodes, rows, view, parts, i + 1);
          return false;
        }
        m := m.entries[parts[i]].table;
      }
      var last := parts[|parts| - 1];
      assert parts[..|parts|] == parts;
      assert Agrees(nodes, rows, view, parts);
      if last !in m.entries {
        NoTable(nodes, rows, view, parts, |parts|);
        return false;
      }
      SetKey(parts[..|parts| - 1], m, last, None);
      assert parts == parts[..|parts| - 1] + [last];
      removed := true;
    }
  }

  /** Where a path stops short of a table, there is nothing to unset. */
  lemma NoTable(nodes: Nodes, rows: Rows, view: View, parts: Path, i: nat)
    requires Represents(nodes, rows, view) && 0 < i <= |parts|
    requires match CellAt(rows, parts[..i]) case None => true case Some(c) => i < |parts| && c.Scalar?
    ensures parts !in view && Unset(view, parts) == view
  {
    assert Agrees(nodes, rows, view, parts[..i]);
    assert parts[..|parts|] == parts;
    if i < |parts| { NothingBelow(nodes, rows, view, parts[..i], parts); }
    assert parts !in nodes by { assert Agrees(nodes, rows, view, parts); }
    forall q | q in view ensures !(parts <= q) {
      if parts <= q && q != parts { NothingBelow(nodes, rows, view, parts, q); }
    }
  }

  lemma EndsHere(nodes: Nodes, rows: Rows, view: View, parts: Path, i: nat)
    requires Represents(nodes, rows, view) && 0 < i <= |parts| && CellAt(rows, parts[..i]) == None
    ensures parts !in view
  {
    assert Agrees(nodes, rows, view, parts[..i]);
    assert parts[..|parts|] == parts;
    if i < |parts| {
      assert parts[..i] <= parts;
      NothingBelow(nodes, rows, view, parts[..i], parts);
    }
  }

  lemma ScalarEnds(nodes: Nodes, rows: Rows, view: View, parts: Path, i: nat)
    requires Represents(nodes, rows, view) && i < |parts|
    requires CellAt(rows, parts[..i]).Some? && CellAt(rows, parts[..i]).value.Scalar?
    ensures parts !in view
  {
    assert Agrees(nodes, rows, view, parts[..i]);
    NothingBelow(nodes, rows, view, parts[..i], parts);
  }
}
