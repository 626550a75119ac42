/** Precedence of configuration layers, computed once on typed records and once on raw tables with provenance. */
module Layers {
  import opened ConfigValues
  import opened Text
  import opened Wrappers

  // ----- raw layers -----

  /** A decoded table tree. The file format has no null, so every key has a value. */
  datatype Raw = Scalar(v: Value) | Table(entries: map<string, Raw>)

  function At(entries: map<string, Raw>, k: string): Option<Raw> { if k in entries then Some(entries[k]) else None }

  function Entries(was: Option<Raw>): map<string, Raw> {
    if was.Some? && was.value.Table? then was.value.entries else map[]
  }

  /** `src` over what is there: tables key by key, scalars and a change of shape as a whole. */
  function Overlay(was: Option<Raw>, src: Raw): (r: Raw)
    decreases src
  {
    match src
    case Scalar(_) => src
    case Table(sub) =>
      var base := Entries(was);
      Table(map k | k in base.Keys + sub.Keys :: if k in sub then Overlay(At(base, k), sub[k]) else base[k])
  }

  function Dotted(prefix: string, k: string): string { if prefix == "" then k else prefix + "." + k }

  /** The dotted keys of all scalars below. */
  function Marks(src: Raw, key: string): set<string>
    decreases src
  {
    match src
    case Scalar(_) => {key}
    case Table(sub) => set k, m | k in sub && m in Marks(sub[k], Dotted(key, k)) :: m
  }

  function Sourced(keys: set<string>, source: string): map<string, string> { map m | m in keys :: source }

  // ----- the walk over one layer -----

  /** The table after the keys in `done` have been visited. */
  function Partly(dst: map<string, Raw>, src: map<string, Raw>, done: set<string>): map<string, Raw>
    requires done <= src.Keys
  {
    map k | k in dst.Keys + done :: if k in done then Overlay(At(dst, k), src[k]) else dst[k]
  }

  function PartMarks(src: map<string, Raw>, done: set<string>, key: string): set<string>
    requires done <= src.Keys
  {
    set k, m | k in done && m in Marks(src[k], Dotted(key, k)) :: m
  }

  lemma PartlyAdd(dst: map<string, Raw>, src: map<string, Raw>, done: set<string>, k: string)
    requires done <= src.Keys && k in src && k !in done
    ensures At(Partly(dst, src, done), k) == At(dst, k)
    ensures Partly(dst, src, done + {k}) == Partly(dst, src, done)[k := Overlay(At(dst, k), src[k])]
  {
  }

  lemma PartMarksAdd(src: map<string, Raw>, done: set<string>, k: string, key: string)
    requires done <= src.Keys && k in src
    ensures PartMarks(src, done + {k}, key) == PartMarks(src, done, key) + Marks(src[k], Dotted(key, k))
  {
  }

  lemma PartlyAll(dst: map<string, Raw>, src: Raw, key: string)
    requires src.Table?
    ensures Table(Partly(dst, src.entries, src.entries.Keys)) == Overlay(Some(Table(dst)), src)
    ensures PartMarks(src.entries, src.entries.Keys, key) == Marks(src, key)
  {
  }

  lemma SourcedUnion(a: set<string>, b: set<string>, source: string, sources: map<string, string>)
    ensures sources + Sourced(a + b, source) == sources + Sourced(a, source) + Sourced(b, source)
  {
  }

  /** A walk over some keys of a table in a given order. */
  function Walk(dst: map<string, Raw>, src: map<string, Raw>, order: seq<string>): map<string, Raw>
    requires forall k <- order :: k in src
  {
    if order == [] then dst
    else
      var before, k := Walk(dst, src, order[..|order| - 1]), order[|order| - 1];
      before[k := Overlay(At(before, k), src[k])]
  }

  function WalkSources(
    sources: map<string, string>, src: map<string, Raw>, order: seq<string>, key: string, source: string)
    : map<string, string>
    requires forall k <- order :: k in src
  {
    if order == [] then sources
    else
      var k := order[|order| - 1];
      WalkSources(sources, src, order[..|order| - 1], key, source) + Sourced(Marks(src[k], Dotted(key, k)), source)
  }

  predicate Distinct(order: seq<string>) { forall i, j :: 0 <= i < j < |order| ==> order[i] != order[j] }

  function Visited(order: seq<string>): set<string> { set k | k in order }

  lemma {:induction false} WalkIsPartly(
    dst: map<string, Raw>, sources: map<string, string>, src: map<string, Raw>, order: seq<string>, key: string,
    source: string)
    requires Distinct(order) && forall k <- order :: k in src
    ensures Visited(order) <= src.Keys
    ensures Walk(dst, src, order) == Partly(dst, src, Visited(order))
    ensures WalkSources(sources, src, order, key, source) ==
            sources + Sourced(PartMarks(src, Visited(order), key), source)
  {
    if order == [] {
      assert Partly(dst, src, {}) == dst;
      assert PartMarks(src, {}, key) == {};
    } else {
      var front, k := order[..|order| - 1], order[|order| - 1];
      WalkIsPartly(dst, sources, src, front, key, source);
      assert order == front + [k];
      assert Visited(order) == Visited(front) + {k};
      PartlyAdd(dst, src, Visited(front), k);
      PartMarksAdd(src, Visited(front), k, key);
      SourcedUnion(PartMarks(src, Visited(front), key), Marks(src[k], Dotted(key, k)), source, sources);
    }
  }

  /** Whatever order the keys come in, the walk ends with the same table and the same sources. */
  lemma OrderDoesNotMatter(
    dst: map<string, Raw>, sources: map<string, string>, src: Raw, order: seq<string>, key: string, source: string)
    requires src.Table? && Distinct(order) && Visited(order) == src.entries.Keys
    ensures forall k <- order :: k in src.entries
    ensures Table(Walk(dst, src.entries, order)) == Overlay(Some(Table(dst)), src)
    ensures WalkSources(sources, src.entries, order, key, source) == sources + Sourced(Marks(src, key), source)
  {
    assert forall k <- order :: k in Visited(order);
    WalkIsPartly(dst, sources, src.entries, order, key, source);
    PartlyAll(dst, src, key);
  }

  /** One value of a layer: a table is walked in turn, a scalar replaces what is there. */
  method ApplyValue(was: Option<Raw>, sources: map<string, string>, v: Raw, source: string, key: string)
    returns (r: Raw, sources': map<string, string>)
    ensures r == Overlay(was, v)
    ensures sources' == sources + Sourced(Marks(v, key), source)
    decreases v, 1
  {
    if v.Table? {
      var child: map<string, Raw>;
      child, sources' := ApplyRawLayer(Entries(was), sources, v, source, key);
      r := Table(child);
    } else {
      r, sources' := v, sources[key := source];
    }
  }

  lemma OneMoreKey(src: map<string, Raw>, order: seq<string>, todo: set<string>, k: string)
    requires Distinct(order) && k in todo && k in src
    requires forall j <- order :: j in src && j !in todo
    requires forall j <- src :: j in todo || j in order
    ensures Distinct(order + [k])
    ensures forall j <- order + [k] :: j in src && j !in todo - {k}
    ensures forall j <- src :: j in todo - {k} || j in order + [k]
  {
  }

  /** Keys are visited in whatever order the map yields them. */
  method ApplyRawLayer(
    dst: map<string, Raw>, sources: map<string, string>, src: Raw, source: string, prefix: string)
    returns (dst': map<string, Raw>, sources': map<string, string>)
    requires src.Table?
    ensures Table(dst') == Overlay(Some(Table(dst)), src)
    ensures sources' == sources + Sourced(Marks(src, prefix), source)
    decreases src, 0
  {
    dst', sources' := dst, sources;
    var todo := src.entries.Keys;
    ghost var order: seq<string> := [];
    while todo != {}
      invariant todo <= src.entries.Keys && Distinct(order)
      invariant forall k <- order :: k in src.entries && k !in todo
      invariant forall k <- src.entries :: k in todo || k in order
      invariant dst' == Walk(dst, src.entries, order)
      invariant sources' == WalkSources(sources, src.entries, order, prefix, source)
      decreases |todo|
    {
      var k :| k in todo;
      var v: Raw;
      v, sources' := ApplyValue(At(dst', k), sources', src.entries[k], source, Dotted(prefix, k));
      dst' := dst'[k := v];
      assert (order + [k])[..|order|] == order;
      OneMoreKey(src.entries, order, todo, k);
      order := order + [k];
      todo := todo - {k};
    }
    assert Visited(order) == src.entries.Keys;
    OrderDoesNotMatter(dst, sources, src, order, prefix, source);
  }
}
