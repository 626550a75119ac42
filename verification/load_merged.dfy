/** The whole precedence pipeline: the typed merge and the raw layering agree, and provenance is right. */
module LoadMerged {
  import opened Config
  import opened ConfigValues
  import opened Layers
  import opened Text
  import opened Wrappers

  // ----- reading raw trees -----

  /** The scalar at a path. */
  function Lookup(raw: Raw, path: seq<string>): Option<Value>
    decreases |path|
  {
    match raw
    case Scalar(v) => if path == [] then Some(v) else None
    case Table(entries) => if path != [] && path[0] in entries then Lookup(entries[path[0]], path[1..]) else None
  }

  /** The dotted key of a path below `key`. */
  function DottedFrom(key: string, path: seq<string>): string
    decreases |path|
  {
    if path == [] then key else DottedFrom(Dotted(key, path[0]), path[1..])
  }

  /** A marked key is the dotted form of a path to a scalar. */
  lemma {:induction false} MarkedPath(raw: Raw, key: string, m: string) returns (path: seq<string>)
    requires m in Marks(raw, key)
    ensures Lookup(raw, path).Some? && DottedFrom(key, path) == m
    decreases raw
  {
    match raw
    case Scalar(_) => path := [];
    case Table(sub) =>
      var k :| k in sub && m in Marks(sub[k], Dotted(key, k));
      var rest := MarkedPath(sub[k], Dotted(key, k), m);
      path := [k] + rest;
      assert path[1..] == rest;
  }

  lemma {:induction false} PathMarked(raw: Raw, key: string, path: seq<string>)
    requires Lookup(raw, path).Some?
    ensures DottedFrom(key, path) in Marks(raw, key)
    decreases |path|
  {
    if raw.Table? {
      PathMarked(raw.entries[path[0]], Dotted(key, path[0]), path[1..]);
    }
  }

  // ----- layers of one shape -----

  const SECTIONS: set<string> := {"output", "log", "flood_wait", "aliases"}

  ghost predicate IsSection(r: Raw) { r.Table? && forall k <- r.entries :: r.entries[k].Scalar? }

  /** Sections are tables of scalars; everything else at the top is a scalar. */
  ghost predicate ConfigShape(raw: Raw) {
    raw.Table? && forall k <- raw.entries :: if k in SECTIONS then IsSection(raw.entries[k]) else raw.entries[k].Scalar?
  }

  lemma OverlaySection(was: Option<Raw>, src: Raw, k: string)
    requires IsSection(src) && (was.Some? ==> IsSection(was.value))
    ensures IsSection(Overlay(was, src))
    ensures Lookup(Overlay(was, src), [k]) ==
            Or(Lookup(src, [k]), if was.Some? then Lookup(was.value, [k]) else None)
  {
    assert [k][1..] == [];
  }

  /** Layers of one shape: a key's scalar is the upper layer's if that has one, else the lower one's. */
  lemma OverlayConfig(was: Raw, src: Raw, path: seq<string>)
    requires ConfigShape(was) && ConfigShape(src) && 1 <= |path| <= 2
    ensures ConfigShape(Overlay(Some(was), src))
    ensures Lookup(Overlay(Some(was), src), path) == Or(Lookup(src, path), Lookup(was, path))
  {
    var r := Overlay(Some(was), src);
    forall k | k in r.entries
      ensures if k in SECTIONS then IsSection(r.entries[k]) else r.entries[k].Scalar?
    {
      if k in src.entries {
        assert r.entries[k] == Overlay(At(was.entries, k), src.entries[k]);
        if k in SECTIONS { OverlaySection(At(was.entries, k), src.entries[k], k); }
      }
    }
    var k := path[0];
    if |path| == 2 && k in SECTIONS && k in src.entries {
      assert path[1..] == [path[1]];
      OverlaySection(At(was.entries, k), src.entries[k], path[1]);
    }
  }

  // ----- a layer and its raw form -----

  /**
    What the file format makes of a typed layer: each set field under its key, each alias in the alias table,
    no other scalar. Whether a table without entries is written at all is left open.
  */
  ghost predicate IsRawOf(c: Config, raw: Raw) {
    && ConfigShape(raw)
    && (forall f :: Lookup(raw, PathOf(f)) == FieldOf(c, f))
    && (forall name :: Lookup(raw, ["aliases", name]) == AliasOf(c, name))
    && (forall path :: Lookup(raw, path).Some? ==> IsKey(path))
  }

  predicate IsKey(path: seq<string>) {
    (|path| == 2 && path[0] == "aliases") || exists f :: path == PathOf(f)
  }

  function Name(f: Field): string { DottedFrom("", PathOf(f)) }

  function AliasName(name: string): string { DottedFrom("", ["aliases", name]) }

  lemma NameParts(f: Field)
    ensures Name(f) ==
            if |PathOf(f)| == 1 then PathOf(f)[0] else PathOf(f)[0] + "." + PathOf(f)[1]
  {
    var p := PathOf(f);
    if |p| == 2 {
      assert p[1..] == [p[1]];
    }
  }

  lemma AliasNameIs(name: string)
    ensures AliasName(name) == "aliases." + name
  {
    assert ["aliases", name][1..] == [name];
    assert DottedFrom("aliases", [name]) == DottedFrom(Dotted("aliases", name), [name][1..]);
    assert "aliases." == "aliases" + ".";
  }

  /** The ten dotted names a user can address, and the version, as the raw tree and the sources spell them. */
  lemma SettingName(f: Field)
    ensures Name(f) ==
            match f
            case Version => "version"
            case DefaultAccount => "default_account"
            case APIID => "api_id"
            case APIHash => "api_hash"
            case OutputFormat => "output.format"
            case OutputColor => "output.color"
            case LogLevel => "log.level"
            case LogFile => "log.file"
            case LogFormat => "log.format"
            case FloodWaitMode => "flood_wait.mode"
            case FloodWaitMaxSeconds => "flood_wait.max_seconds"
  {
    NameParts(f);
  }

  lemma NameLength(f: Field)
    ensures |Name(f)| == match f
      case Version => 7
      case DefaultAccount => 15
      case APIID => 6
      case APIHash => 8
      case OutputFormat => 13
      case OutputColor => 12
      case LogLevel => 9
      case LogFile => 8
      case LogFormat => 10
      case FloodWaitMode => 15
      case FloodWaitMaxSeconds => 22
    ensures Name(f)[0] == PathOf(f)[0][0]
  {
    NameParts(f);
  }

  lemma NamesDiffer(f: Field, g: Field)
    requires Name(f) == Name(g)
    ensures f == g
  {
    NameLength(f);
    NameLength(g);
    assert "api_hash"[0] == 'a' && "log"[0] == 'l' && "default_account"[0] == 'd' && "flood_wait"[0] == 'f';
  }

  lemma AliasIsNoField(f: Field, name: string)
    ensures Name(f) != AliasName(name)
  {
    AliasNameIs(name);
    NameParts(f);
    var s := Name(f);
    assert s[1] == PathOf(f)[0][1];
    assert "aliases."[0] == 'a' && "aliases."[1] == 'l';
    assert (("aliases." + name)[0] == 'a') && (("aliases." + name)[1] == 'l');
    assert "version"[0] == 'v' && "default_account"[0] == 'd' && "api_id"[1] == 'p' && "api_hash"[1] == 'p';
    assert "output"[0] == 'o' && "log"[0] == 'l' && "flood_wait"[0] == 'f';
  }

  lemma AliasNamesDiffer(a: string, b: string)
    requires AliasName(a) == AliasName(b)
    ensures a == b
  {
    AliasNameIs(a);
    AliasNameIs(b);
    assert ("aliases." + a)[8..] == a && ("aliases." + b)[8..] == b;
  }

  // ----- a raw form of every layer -----

  /** What a layer has at a path of the file. */
  ghost function ValueIn(c: Config, path: seq<string>): Option<Value> {
    if exists f :: PathOf(f) == path then
      var f :| PathOf(f) == path;
      FieldOf(c, f)
    else if |path| == 2 && path[0] == "aliases" then AliasOf(c, path[1])
    else None
  }

  function TopKeys(): set<string> { (set f: Field :: PathOf(f)[0]) + {"aliases"} }

  function KeysIn(c: Config, section: string): set<string> {
    if section == "aliases" then if c.aliases.Some? then c.aliases.value.Keys else {}
    else set f: Field | |PathOf(f)| == 2 && PathOf(f)[0] == section :: PathOf(f)[1]
  }

  ghost function SectionForm(c: Config, k: string): Raw {
    Table(map j | j in KeysIn(c, k) && ValueIn(c, [k, j]).Some? :: Scalar(ValueIn(c, [k, j]).value))
  }

  /** One raw form a layer can have: every section table is there, with or without entries. */
  ghost function RawForm(c: Config): Raw {
    Table(map k | k in TopKeys() && (k in SECTIONS || ValueIn(c, [k]).Some?) ::
      if k in SECTIONS then SectionForm(c, k) else Scalar(ValueIn(c, [k]).value))
  }

  lemma FieldSection(f: Field)
    ensures PathOf(f)[0] != "aliases" && (PathOf(f)[0] in SECTIONS <==> |PathOf(f)| == 2)
  {
    assert "aliases"[0] == 'a' && "aliases"[1] == 'l';
    assert PathOf(f)[0][0] != 'a' || PathOf(f)[0][1] == 'p';
    assert "version"[0] == 'v' && "default_account"[0] == 'd' && "api_id"[0] == 'a' && "api_hash"[0] == 'a';
    assert "output"[0] == 'o' && "log"[0] == 'l' && "flood_wait"[0] == 'f';
  }

  lemma FieldValueIn(c: Config, f: Field)
    ensures ValueIn(c, PathOf(f)) == FieldOf(c, f)
  {
    forall g | PathOf(g) == PathOf(f) ensures f == g { NamesDiffer(f, g); }
  }

  lemma AliasValueIn(c: Config, name: string)
    ensures ValueIn(c, ["aliases", name]) == AliasOf(c, name)
  {
    forall f ensures PathOf(f) != ["aliases", name] { FieldSection(f); }
  }

  lemma LookupOne(raw: Raw, j: string)
    requires raw.Table?
    ensures Lookup(raw, [j]) ==
            if j in raw.entries && raw.entries[j].Scalar? then Some(raw.entries[j].v) else None
  {
    assert [j][1..] == [];
  }

  lemma LookupTwo(raw: Raw, k: string, j: string)
    requires raw.Table?
    ensures Lookup(raw, [k, j]) == if k in raw.entries then Lookup(raw.entries[k], [j]) else None
  {
    assert [k, j][1..] == [j];
  }

  lemma SectionFormAt(c: Config, k: string, j: string)
    ensures Lookup(SectionForm(c, k), [j]) == if j in KeysIn(c, k) then ValueIn(c, [k, j]) else None
  {
    LookupOne(SectionForm(c, k), j);
  }

  lemma RawFormSection(c: Config, k: string, j: string)
    requires k in TopKeys() && k in SECTIONS
    ensures Lookup(RawForm(c), [k, j]) == if j in KeysIn(c, k) then ValueIn(c, [k, j]) else None
  {
    SectionFormAt(c, k, j);
    LookupTwo(RawForm(c), k, j);
  }

  lemma RawFormField(c: Config, f: Field)
    ensures Lookup(RawForm(c), PathOf(f)) == FieldOf(c, f)
  {
    var p := PathOf(f);
    FieldValueIn(c, f);
    FieldSection(f);
    assert p[0] in TopKeys();
    if |p| == 2 {
      assert p == [p[0], p[1]];
      assert p[1] in KeysIn(c, p[0]);
      RawFormSection(c, p[0], p[1]);
    } else {
      assert p == [p[0]];
      LookupOne(RawForm(c), p[0]);
    }
  }

  lemma RawFormAlias(c: Config, name: string)
    ensures Lookup(RawForm(c), ["aliases", name]) == AliasOf(c, name)
  {
    AliasValueIn(c, name);
    RawFormSection(c, "aliases", name);
  }

  lemma RawFormShape(c: Config)
    ensures ConfigShape(RawForm(c))
  {
  }

  lemma RawFormKey(c: Config, path: seq<string>)
    requires Lookup(RawForm(c), path).Some?
    ensures IsKey(path)
  {
    var k := path[0];
    assert k in TopKeys();
    if k in SECTIONS {
      RawFormShape(c);
      if |path| != 2 { SectionDepth(RawForm(c), path); }
      assert path == [k, path[1]];
      if k != "aliases" {
        RawFormSection(c, k, path[1]);
        var f: Field :| |PathOf(f)| == 2 && PathOf(f)[0] == k && PathOf(f)[1] == path[1];
        assert path == PathOf(f);
      }
    } else {
      assert Lookup(RawForm(c), path) == Lookup(RawForm(c).entries[k], path[1..]);
      assert path == [k];
      var f: Field :| PathOf(f)[0] == k;
      FieldSection(f);
      assert path == PathOf(f);
    }
  }

  /** Every configuration has a raw form, so there are layers of every kind the theorems below speak of. */
  lemma RawFormIsRaw(c: Config)
    ensures IsRawOf(c, RawForm(c))
  {
    RawFormShape(c);
    forall f ensures Lookup(RawForm(c), PathOf(f)) == FieldOf(c, f) { RawFormField(c, f); }
    forall name ensures Lookup(RawForm(c), ["aliases", name]) == AliasOf(c, name) { RawFormAlias(c, name); }
    forall path | Lookup(RawForm(c), path).Some? ensures IsKey(path) { RawFormKey(c, path); }
  }

  /** A layer marks exactly the keys it sets. */
  lemma MarksOfLayer(c: Config, raw: Raw)
    requires IsRawOf(c, raw)
    ensures forall f :: Name(f) in Marks(raw, "") <==> FieldOf(c, f).Some?
    ensures forall name :: AliasName(name) in Marks(raw, "") <==> AliasOf(c, name).Some?
  {
    forall f ensures Name(f) in Marks(raw, "") <==> FieldOf(c, f).Some? {
      if FieldOf(c, f).Some? {
        PathMarked(raw, "", PathOf(f));
      } else if Name(f) in Marks(raw, "") {
        var path := MarkedPath(raw, "", Name(f));
        KeyNamed(path, f);
      }
    }
    forall name ensures AliasName(name) in Marks(raw, "") <==> AliasOf(c, name).Some? {
      if AliasOf(c, name).Some? {
        PathMarked(raw, "", ["aliases", name]);
      } else if AliasName(name) in Marks(raw, "") {
        var path := MarkedPath(raw, "", AliasName(name));
        KeyNamedAlias(path, name);
      }
    }
  }

  lemma KeyNamed(path: seq<string>, f: Field)
    requires IsKey(path) && DottedFrom("", path) == Name(f)
    ensures path == PathOf(f)
  {
    if |path| == 2 && path[0] == "aliases" {
      assert path == ["aliases", path[1]];
      AliasIsNoField(f, path[1]);
    } else {
      var g :| path == PathOf(g);
      NamesDiffer(f, g);
    }
  }

  lemma KeyNamedAlias(path: seq<string>, name: string)
    requires IsKey(path) && DottedFrom("", path) == AliasName(name)
    ensures path == ["aliases", name]
  {
    if |path| == 2 && path[0] == "aliases" {
      assert path == ["aliases", path[1]];
      AliasNamesDiffer(name, path[1]);
    } else {
      var g :| path == PathOf(g);
      AliasIsNoField(g, name);
    }
  }

  /** Without any alias, dropping the alias table changes nothing that can be read. */
  lemma StripAliases(c: Config, raw: Raw)
    requires IsRawOf(c, raw) && (c.aliases.Some? ==> c.aliases.value == map[])
    ensures IsRawOf(c, Table(raw.entries - {"aliases"}))
  {
    var raw' := Table(raw.entries - {"aliases"});
    forall path ensures Lookup(raw', path) == Lookup(raw, path) {
      if path != [] && path[0] == "aliases" {
        if |path| == 2 {
          assert path == ["aliases", path[1]];
        } else {
          SectionDepth(raw, path);
        }
      }
    }
  }

  lemma SectionDepth(raw: Raw, path: seq<string>)
    requires ConfigShape(raw) && path != [] && path[0] in SECTIONS && |path| != 2
    ensures Lookup(raw, path) == None
  {
    if path[0] in raw.entries {
      var section, rest := raw.entries[path[0]], path[1..];
      if rest != [] && rest[0] in section.entries {
        assert section.entries[rest[0]].Scalar? && rest[1..] != [];
      }
      assert Lookup(section, rest) == None;
    }
  }

  // ----- any number of layers, lowest first -----

  datatype Layer = Layer(config: Config, raw: Raw, source: string)

  ghost predicate Faithful(layers: seq<Layer>) {
    forall i :: 0 <= i < |layers| ==> IsRawOf(layers[i].config, layers[i].raw)
  }

  function Typed(layers: seq<Layer>): Config {
    if layers == [] then EMPTY else Merged(Typed(layers[..|layers| - 1]), layers[|layers| - 1].config)
  }

  function RawTree(layers: seq<Layer>): Raw {
    if layers == [] then Table(map[]) else Overlay(Some(RawTree(layers[..|layers| - 1])), layers[|layers| - 1].raw)
  }

  function Provenance(layers: seq<Layer>): map<string, string> {
    if layers == [] then map[]
    else
      var top := layers[|layers| - 1];
      Provenance(layers[..|layers| - 1]) + Sourced(Marks(top.raw, ""), top.source)
  }

  /** The value a key has in each of the two results, and its provenance. */
  predicate Shows(layers: seq<Layer>, path: seq<string>, value: Option<Value>, source: Option<string>) {
    Lookup(RawTree(layers), path) == value && SourceIn(Provenance(layers), DottedFrom("", path)) == source
  }

  function SourceIn(sources: map<string, string>, key: string): Option<string> {
    if key in sources then Some(sources[key]) else None
  }

  lemma SourceOver(sources: map<string, string>, marks: set<string>, source: string, key: string)
    ensures SourceIn(sources + Sourced(marks, source), key) ==
            if key in marks then Some(source) else SourceIn(sources, key)
  {
  }

  /** The highest layer that has a value, or -1. */
  function Highest(values: seq<Option<Value>>): (i: int)
    ensures -1 <= i < |values| && (i >= 0 ==> values[i].Some?)
    ensures forall j :: i < j < |values| ==> values[j] == None
  {
    if values == [] then -1
    else if values[|values| - 1].Some? then |values| - 1
    else Highest(values[..|values| - 1])
  }

  function ValueAt(values: seq<Option<Value>>, i: int): Option<Value>
    requires i < |values|
  {
    if i >= 0 then values[i] else None
  }

  function SourceAt(layers: seq<Layer>, i: int): Option<string>
    requires i < |layers|
  {
    if i >= 0 then Some(layers[i].source) else None
  }

  function FieldValues(layers: seq<Layer>, f: Field): (values: seq<Option<Value>>)
    ensures |values| == |layers| && forall i :: 0 <= i < |layers| ==> values[i] == FieldOf(layers[i].config, f)
  {
    seq(|layers|, i requires 0 <= i < |layers| => FieldOf(layers[i].config, f))
  }

  function AliasValues(layers: seq<Layer>, name: string): (values: seq<Option<Value>>)
    ensures |values| == |layers| && forall i :: 0 <= i < |layers| ==> values[i] == AliasOf(layers[i].config, name)
  {
    seq(|layers|, i requires 0 <= i < |layers| => AliasOf(layers[i].config, name))
  }

  /** Each layer's raw form has the value at the path, and marks the key exactly when it has one. */
  ghost predicate HasValues(layers: seq<Layer>, path: seq<string>, values: seq<Option<Value>>) {
    && |values| == |layers|
    && forall i :: 0 <= i < |layers| ==>
         && ConfigShape(layers[i].raw) && Lookup(layers[i].raw, path) == values[i]
         && (DottedFrom("", path) in Marks(layers[i].raw, "") <==> values[i].Some?)
  }

  lemma {:induction false} ShowsHighest(layers: seq<Layer>, path: seq<string>, values: seq<Option<Value>>)
    requires 1 <= |path| <= 2 && HasValues(layers, path, values)
    ensures ConfigShape(RawTree(layers))
    ensures var i := Highest(values); Shows(layers, path, ValueAt(values, i), SourceAt(layers, i))
  {
    if layers != [] {
      var front, top := layers[..|layers| - 1], layers[|layers| - 1];
      assert HasValues(front, path, values[..|layers| - 1]);
      ShowsHighest(front, path, values[..|layers| - 1]);
      OverlayConfig(RawTree(front), top.raw, path);
      SourceOver(Provenance(front), Marks(top.raw, ""), top.source, DottedFrom("", path));
    }
  }

  lemma {:induction false} TypedHighest(layers: seq<Layer>, f: Field)
    ensures FieldOf(Typed(layers), f) == ValueAt(FieldValues(layers, f), Highest(FieldValues(layers, f)))
  {
    if layers != [] {
      var front, top := layers[..|layers| - 1], layers[|layers| - 1];
      TypedHighest(front, f);
      MergedField(Typed(front), top.config, f);
      assert FieldValues(layers, f)[..|layers| - 1] == FieldValues(front, f);
    }
  }

  /**
    Every setting: the merged record and the raw tree hold the value of the highest layer that sets it, and the
    sources name that layer; when no layer sets it, neither of the two nor the sources have it.
  */
  lemma FieldComesFrom(layers: seq<Layer>, f: Field)
    requires Faithful(layers)
    ensures var values := FieldValues(layers, f);
      var i := Highest(values);
      && FieldOf(Typed(layers), f) == ValueAt(values, i)
      && Shows(layers, PathOf(f), ValueAt(values, i), SourceAt(layers, i))
  {
    TypedHighest(layers, f);
    forall i | 0 <= i < |layers|
      ensures Name(f) in Marks(layers[i].raw, "") <==> FieldOf(layers[i].config, f).Some?
    {
      MarksOfLayer(layers[i].config, layers[i].raw);
    }
    ShowsHighest(layers, PathOf(f), FieldValues(layers, f));
  }

  /** An alias in the raw tree: the value of the highest layer that has it, and that layer as source. */
  lemma AliasComesFrom(layers: seq<Layer>, name: string)
    requires Faithful(layers)
    ensures var values := AliasValues(layers, name);
      var i := Highest(values);
      Shows(layers, ["aliases", name], ValueAt(values, i), SourceAt(layers, i))
  {
    forall i | 0 <= i < |layers|
      ensures AliasName(name) in Marks(layers[i].raw, "") <==> AliasOf(layers[i].config, name).Some?
    {
      MarksOfLayer(layers[i].config, layers[i].raw);
    }
    ShowsHighest(layers, ["aliases", name], AliasValues(layers, name));
  }

  // ----- aliases in both results -----

  /** The highest layer with an alias table; the merged record takes that table as a whole. */
  lemma {:induction false} AliasesComeFrom(layers: seq<Layer>) returns (i: int)
    ensures -1 <= i < |layers|
    ensures forall j :: i < j < |layers| ==> layers[j].config.aliases == None
    ensures i >= 0 ==> layers[i].config.aliases.Some?
    ensures Typed(layers).aliases == if i >= 0 then layers[i].config.aliases else None
  {
    if layers == [] {
      i := -1;
    } else {
      i := AliasesComeFrom(layers[..|layers| - 1]);
      if layers[|layers| - 1].config.aliases.Some? { i := |layers| - 1; }
    }
  }

  ghost predicate AliasesAgree(layers: seq<Layer>) {
    forall name :: Lookup(RawTree(layers), ["aliases", name]) == AliasOf(Typed(layers), name)
  }

  /** No lower layer has an alias that the highest alias table lacks. */
  ghost predicate AliasesNested(layers: seq<Layer>) {
    forall i, j, name ::
      0 <= i < j < |layers| && layers[j].config.aliases.Some? && AliasOf(layers[i].config, name).Some?
      && (forall k :: j < k < |layers| ==> layers[k].config.aliases == None)
      ==> AliasOf(layers[j].config, name).Some?
  }

  /** The raw tree unites alias tables while the record replaces them: the exact condition for no difference. */
  lemma AliasesAgreeIff(layers: seq<Layer>)
    requires Faithful(layers)
    ensures AliasesAgree(layers) <==> AliasesNested(layers)
  {
    var w := AliasesComeFrom(layers);
    forall name ensures Lookup(RawTree(layers), ["aliases", name]) == AliasOf(Typed(layers), name) <==>
                        NestedAt(layers, w, name)
    {
      AliasComesFrom(layers, name);
    }
    NestedAtTop(layers, w);
  }

  ghost predicate NestedAt(layers: seq<Layer>, w: int, name: string)
    requires w < |layers|
  {
    w >= 0 ==> forall i :: 0 <= i < w && AliasOf(layers[i].config, name).Some? ==>
      AliasOf(layers[w].config, name).Some?
  }

  lemma NestedAtTop(layers: seq<Layer>, w: int)
    requires -1 <= w < |layers| && (w >= 0 ==> layers[w].config.aliases.Some?)
    requires forall j :: w < j < |layers| ==> layers[j].config.aliases == None
    ensures AliasesNested(layers) <==> forall name :: NestedAt(layers, w, name)
  {
    if w >= 0 {
      if forall name :: NestedAt(layers, w, name) {
        forall i, j, name |
          0 <= i < j < |layers| && layers[j].config.aliases.Some? && AliasOf(layers[i].config, name).Some?
          && (forall k :: j < k < |layers| ==> layers[k].config.aliases == None)
          ensures AliasOf(layers[j].config, name).Some?
        {
          assert j == w;
          assert NestedAt(layers, w, name);
        }
      }
    }
  }

  /** With one alias table at most, as the program has it today, there is no difference. */
  lemma OneAliasTable(layers: seq<Layer>)
    requires Faithful(layers)
    requires forall i, j :: 0 <= i < j < |layers| ==>
               layers[i].config.aliases == None || layers[j].config.aliases == None
    ensures AliasesAgree(layers)
  {
    AliasesAgreeIff(layers);
  }

  // ----- reading the result by dotted name -----

  lemma NoDots(f: Field)
    ensures Lacks(PathOf(f)[0], '.') && (|PathOf(f)| == 2 ==> Lacks(PathOf(f)[1], '.'))
  {
  }

  lemma SplitDotted(p: seq<string>)
    requires |p| == 1 || |p| == 2
    requires Lacks(p[0], '.') && (|p| == 2 ==> Lacks(p[1], '.'))
    ensures Split(if |p| == 1 then p[0] else p[0] + "." + p[1], '.') == p
  {
    if |p| == 1 {
      SplitOne(p[0], '.');
    } else {
      SplitOne(p[1], '.');
      SplitCons(p[0], p[1], '.');
    }
  }

  /** A setting's dotted name leads to its key. */
  lemma FieldByName(f: Field)
    ensures Split(Name(f), '.') == PathOf(f)
  {
    NameParts(f);
    NoDots(f);
    SplitDotted(PathOf(f));
  }

  lemma PlainAliasName(name: string)
    requires Lacks(name, '.')
    ensures Split(AliasName(name), '.') == ["aliases", name]
  {
    AliasNameIs(name);
    assert "aliases." + name == "aliases" + "." + name;
    SplitTwoParts("aliases", name);
  }

  lemma SplitTwoParts(a: string, b: string)
    requires Lacks(a, '.') && Lacks(b, '.')
    ensures Split(a + "." + b, '.') == [a, b]
  {
    SplitOne(b, '.');
    SplitCons(a, b, '.');
  }

  lemma DottedAliasName(name: string)
    requires !Lacks(name, '.')
    ensures Split(AliasName(name), '.')[0] == "aliases" && |Split(AliasName(name), '.')| >= 3
  {
    AliasNameIs(name);
    assert "aliases." + name == "aliases" + "." + name;
    SplitCons("aliases", name, '.');
    var i :| 0 <= i < |name| && name[i] == '.';
    assert IndexOf(name, '.') <= i;
  }

  /** An alias can be read by its dotted name exactly when the alias itself has no dot. */
  lemma AliasByName(layers: seq<Layer>, name: string)
    requires Faithful(layers)
    ensures Lookup(RawTree(layers), Split(AliasName(name), '.')) ==
            if Lacks(name, '.') then Lookup(RawTree(layers), ["aliases", name]) else None
  {
    if Lacks(name, '.') {
      PlainAliasName(name);
    } else {
      DottedAliasName(name);
      ShapeOfTree(layers);
      SectionDepth(RawTree(layers), Split(AliasName(name), '.'));
    }
  }

  lemma {:induction false} ShapeOfTree(layers: seq<Layer>)
    requires Faithful(layers)
    ensures ConfigShape(RawTree(layers))
  {
    if layers != [] {
      ShapeOfTree(layers[..|layers| - 1]);
      OverlayConfig(RawTree(layers[..|layers| - 1]), layers[|layers| - 1].raw, ["aliases"]);
    }
  }

  // ----- the pipeline -----

  datatype Loaded = Loaded(config: Config, raw: Raw, sources: map<string, string>)

  /** The four layers, lowest first; an alias table without entries is dropped from the file's raw form. */
  function Pipeline(file: Config, env: Config, flag: Config, defRaw: Raw, fileRaw: Raw, envRaw: Raw, flagRaw: Raw)
    : seq<Layer>
    requires fileRaw.Table?
  {
    var stripped := if file.aliases.Some? && file.aliases.value != map[] then fileRaw
                    else Table(fileRaw.entries - {"aliases"});
    [Layer(DEFAULTS, defRaw, "default"), Layer(file, stripped, "file"), Layer(env, envRaw, "env"),
     Layer(flag, flagRaw, "flag")]
  }

  lemma PipelineFaithful(
    file: Config, env: Config, flag: Config, defRaw: Raw, fileRaw: Raw, envRaw: Raw, flagRaw: Raw)
    requires IsRawOf(DEFAULTS, defRaw) && IsRawOf(file, fileRaw) && IsRawOf(env, envRaw) && IsRawOf(flag, flagRaw)
    ensures Faithful(Pipeline(file, env, flag, defRaw, fileRaw, envRaw, flagRaw))
  {
    if file.aliases.Some? ==> file.aliases.value == map[] {
      StripAliases(file, fileRaw);
    }
  }

  // ----- what the pipeline promises -----

  /** The flag's value, else the environment's, else the file's, else the default. */
  function Chosen(file: Config, env: Config, flag: Config, f: Field): Option<Value> {
    Or(FieldOf(flag, f), Or(FieldOf(env, f), Or(FieldOf(file, f), FieldOf(DEFAULTS, f))))
  }

  function ChosenSource(file: Config, env: Config, flag: Config, f: Field): Option<string> {
    if FieldOf(flag, f).Some? then Some("flag")
    else if FieldOf(env, f).Some? then Some("env")
    else if FieldOf(file, f).Some? then Some("file")
    else if FieldOf(DEFAULTS, f).Some? then Some("default")
    else None
  }

  /** Both results and the sources, for every setting. */
  ghost predicate SettingsAgree(file: Config, env: Config, flag: Config, m: Loaded) {
    forall f ::
      && FieldOf(m.config, f) == Chosen(file, env, flag, f)
      && Lookup(m.raw, PathOf(f)) == Chosen(file, env, flag, f)
      && SourceIn(m.sources, Name(f)) == ChosenSource(file, env, flag, f)
  }

  ghost predicate AliasesSame(m: Loaded) {
    forall name :: Lookup(m.raw, ["aliases", name]) == AliasOf(m.config, name)
  }

  /** Four layers given by the file format: the two results agree on every setting, and the sources are right. */
  lemma PipelineAgrees(
    file: Config, env: Config, flag: Config, defRaw: Raw, fileRaw: Raw, envRaw: Raw, flagRaw: Raw)
    requires IsRawOf(DEFAULTS, defRaw) && IsRawOf(file, fileRaw) && IsRawOf(env, envRaw) && IsRawOf(flag, flagRaw)
    ensures var layers := Pipeline(file, env, flag, defRaw, fileRaw, envRaw, flagRaw);
      SettingsAgree(file, env, flag, Loaded(Typed(layers), RawTree(layers), Provenance(layers)))
  {
    var layers := Pipeline(file, env, flag, defRaw, fileRaw, envRaw, flagRaw);
    PipelineFaithful(file, env, flag, defRaw, fileRaw, envRaw, flagRaw);
    forall f
      ensures FieldOf(Typed(layers), f) == Chosen(file, env, flag, f)
      ensures Lookup(RawTree(layers), PathOf(f)) == Chosen(file, env, flag, f)
      ensures SourceIn(Provenance(layers), Name(f)) == ChosenSource(file, env, flag, f)
    {
      FieldComesFrom(layers, f);
      HighestOfFour(FieldValues(layers, f));
    }
  }

  lemma HighestOfFour(values: seq<Option<Value>>)
    requires |values| == 4
    ensures Highest(values) ==
            if values[3].Some? then 3 else if values[2].Some? then 2 else if values[1].Some? then 1
            else if values[0].Some? then 0 else -1
  {
  }

  /**
    Aliases, which neither the defaults nor the environment set: the two results agree on them exactly when the
    flags have no alias table, or one with every alias of the file.
  */
  lemma PipelineAliases(
    file: Config, env: Config, flag: Config, defRaw: Raw, fileRaw: Raw, envRaw: Raw, flagRaw: Raw)
    requires IsRawOf(DEFAULTS, defRaw) && IsRawOf(file, fileRaw) && IsRawOf(env, envRaw) && IsRawOf(flag, flagRaw)
    requires env.aliases == None
    ensures var layers := Pipeline(file, env, flag, defRaw, fileRaw, envRaw, flagRaw);
      AliasesAgree(layers) <==>
      (file.aliases.Some? && flag.aliases.Some? ==> file.aliases.value.Keys <= flag.aliases.value.Keys)
  {
    var layers := Pipeline(file, env, flag, defRaw, fileRaw, envRaw, flagRaw);
    PipelineFaithful(file, env, flag, defRaw, fileRaw, envRaw, flagRaw);
    AliasesAgreeIff(layers);
    assert layers[1].config == file && layers[3].config == flag;
    if file.aliases.Some? && flag.aliases.Some? {
      if AliasesNested(layers) {
        forall name | name in file.aliases.value ensures name in flag.aliases.value {
          assert AliasOf(layers[1].config, name).Some?;
          assert AliasOf(layers[3].config, name).Some?;
        }
      }
    }
  }

  lemma OnlyAliasRaw(k: string, v: string)
    ensures IsRawOf(EMPTY.(aliases := Some(map[k := v])), Table(map["aliases" := Table(map[k := Scalar(Str(v))])]))
  {
    var raw := Table(map["aliases" := Table(map[k := Scalar(Str(v))])]);
    forall f ensures Lookup(raw, PathOf(f)) == None { FieldSection(f); }
    forall name ensures Lookup(raw, ["aliases", name]) == if name == k then Some(Str(v)) else None {
      LookupTwo(raw, "aliases", name);
      LookupOne(raw.entries["aliases"], name);
    }
    forall path | Lookup(raw, path).Some? ensures IsKey(path) {
      if |path| != 2 { SectionDepth(raw, path); }
    }
  }

  /**
    A concrete input for which they differ: the file has one alias and the flags another. The record has lost
    the file's alias; the raw tree still shows it, with the file as its source.
  */
  lemma AliasesMayDiffer()
    ensures var file, flag :=
        EMPTY.(aliases := Some(map["boss" := "@alice"])), EMPTY.(aliases := Some(map["team" := "@team"]));
      var layers := Pipeline(file, EMPTY, flag, RawForm(DEFAULTS),
        Table(map["aliases" := Table(map["boss" := Scalar(Str("@alice"))])]), RawForm(EMPTY),
        Table(map["aliases" := Table(map["team" := Scalar(Str("@team"))])]));
      && Faithful(layers) && !AliasesAgree(layers)
      && AliasOf(Typed(layers), "boss") == None
      && Shows(layers, ["aliases", "boss"], Some(Str("@alice")), Some("file"))
  {
    var file, flag :=
      EMPTY.(aliases := Some(map["boss" := "@alice"])), EMPTY.(aliases := Some(map["team" := "@team"]));
    var fileRaw, flagRaw := Table(map["aliases" := Table(map["boss" := Scalar(Str("@alice"))])]),
      Table(map["aliases" := Table(map["team" := Scalar(Str("@team"))])]);
    RawFormIsRaw(DEFAULTS);
    RawFormIsRaw(EMPTY);
    OnlyAliasRaw("boss", "@alice");
    OnlyAliasRaw("team", "@team");
    var layers := Pipeline(file, EMPTY, flag, RawForm(DEFAULTS), fileRaw, RawForm(EMPTY), flagRaw);
    PipelineFaithful(file, EMPTY, flag, RawForm(DEFAULTS), fileRaw, RawForm(EMPTY), flagRaw);
    BossOnlyInFile(layers);
  }

  lemma {:induction false} BossOnlyInFile(layers: seq<Layer>)
    requires Faithful(layers) && |layers| == 4 && layers[1].source == "file"
    requires layers[0].config.aliases == None && layers[2].config.aliases == None
    requires layers[1].config.aliases == Some(map["boss" := "@alice"])
    requires layers[3].config.aliases == Some(map["team" := "@team"])
    ensures AliasOf(Typed(layers), "boss") == None && !AliasesAgree(layers)
    ensures Shows(layers, ["aliases", "boss"], Some(Str("@alice")), Some("file"))
  {
    var w := AliasesComeFrom(layers);
    assert w == 3;
    assert "boss"[0] != "team"[0];
    AliasComesFrom(layers, "boss");
    HighestOfFour(AliasValues(layers, "boss"));
  }

  lemma Unfold4(layers: seq<Layer>)
    requires |layers| == 4
    ensures Typed(layers) ==
            Merged(Merged(Merged(layers[0].config, layers[1].config), layers[2].config), layers[3].config)
    ensures var r1 := Overlay(Some(Table(map[])), layers[0].raw);
      var r2 := Overlay(Some(r1), layers[1].raw);
      RawTree(layers) == Overlay(Some(Overlay(Some(r2), layers[2].raw)), layers[3].raw)
    ensures Provenance(layers) ==
            map[] + Sourced(Marks(layers[0].raw, ""), layers[0].source)
            + Sourced(Marks(layers[1].raw, ""), layers[1].source)
            + Sourced(Marks(layers[2].raw, ""), layers[2].source)
            + Sourced(Marks(layers[3].raw, ""), layers[3].source)
  {
    var l3, l2, l1 := layers[..3], layers[..2], layers[..1];
    assert l3[..2] == l2 && l2[..1] == l1 && l1[..0] == [];
    assert Typed(l1) == Merged(EMPTY, layers[0].config) == layers[0].config;
    assert Typed(l2) == Merged(Typed(l1), layers[1].config);
    assert Typed(l3) == Merged(Typed(l2), layers[2].config);
    assert RawTree(l1) == Overlay(Some(Table(map[])), layers[0].raw);
    assert RawTree(l2) == Overlay(Some(RawTree(l1)), layers[1].raw);
    assert RawTree(l3) == Overlay(Some(RawTree(l2)), layers[2].raw);
    assert Provenance(l1) == map[] + Sourced(Marks(layers[0].raw, ""), layers[0].source);
    assert Provenance(l2) == Provenance(l1) + Sourced(Marks(layers[1].raw, ""), layers[1].source);
    assert Provenance(l3) == Provenance(l2) + Sourced(Marks(layers[2].raw, ""), layers[2].source);
  }

  /** The merge chain and the raw layering over the four layers, with their raw forms given. */
  method LoadMergedWithSources(
    file: Config, env: Config, flag: Config, defRaw: Raw, fileRaw: Raw, envRaw: Raw, flagRaw: Raw)
    returns (m: Loaded)
    requires defRaw.Table? && fileRaw.Table? && envRaw.Table? && flagRaw.Table?
    ensures var layers := Pipeline(file, env, flag, defRaw, fileRaw, envRaw, flagRaw);
      m == Loaded(Typed(layers), RawTree(layers), Provenance(layers))
    ensures IsRawOf(DEFAULTS, defRaw) && IsRawOf(file, fileRaw) && IsRawOf(env, envRaw) && IsRawOf(flag, flagRaw) ==>
              && SettingsAgree(file, env, flag, m)
              && (env.aliases == None ==> (AliasesSame(m) <==>
                    (file.aliases.Some? && flag.aliases.Some? ==>
                       file.aliases.value.Keys <= flag.aliases.value.Keys)))
  {
    ghost var layers := Pipeline(file, env, flag, defRaw, fileRaw, envRaw, flagRaw);
    var stripped := fileRaw;
    if file.aliases == None || file.aliases.value == map[] {
      stripped := Table(fileRaw.entries - {"aliases"});
    }
    var merged := Merge(DEFAULTS, file);
    merged := Merge(merged, env);
    merged := Merge(merged, flag);
    var mergedRaw: map<string, Raw>, sources: map<string, string> := map[], map[];
    mergedRaw, sources := ApplyRawLayer(mergedRaw, sources, defRaw, "default", "");
    mergedRaw, sources := ApplyRawLayer(mergedRaw, sources, stripped, "file", "");
    mergedRaw, sources := ApplyRawLayer(mergedRaw, sources, envRaw, "env", "");
    mergedRaw, sources := ApplyRawLayer(mergedRaw, sources, flagRaw, "flag", "");
    Unfold4(layers);
    m := Loaded(merged, Table(mergedRaw), sources);
    if IsRawOf(DEFAULTS, defRaw) && IsRawOf(file, fileRaw) && IsRawOf(env, envRaw) && IsRawOf(flag, flagRaw) {
      PipelineAgrees(file, env, flag, defRaw, fileRaw, envRaw, flagRaw);
      if env.aliases == None { PipelineAliases(file, env, flag, defRaw, fileRaw, envRaw, flagRaw); }
    }
  }
}
