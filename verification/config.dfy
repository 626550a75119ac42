/** The typed configuration: every field of a layer may be unset, and later layers overwrite what they set. */
module Config {
  import opened ConfigValues
  import opened Wrappers

  datatype OutputCfg = OutputCfg(format: Option<string>, color: Option<string>)

  datatype LogCfg = LogCfg(level: Option<string>, file: Option<string>, format: Option<string>)

  datatype FloodWaitCfg = FloodWaitCfg(mode: Option<string>, maxSeconds: Option<int>)

  /** `aliases` is `None` for a layer that has no alias table at all. */
  datatype Config = Config(
    version: Option<int>,
    defaultAccount: Option<string>,
    apiID: Option<int>,
    apiHash: Option<string>,
    output: OutputCfg,
    log: LogCfg,
    floodWait: FloodWaitCfg,
    aliases: Option<map<string, string>>)

  const EMPTY: Config :=
    Config(None, None, None, None, OutputCfg(None, None), LogCfg(None, None, None), FloodWaitCfg(None, None), None)

  const DEFAULTS: Config :=
    Config(None, None, None, None, OutputCfg(Some("human"), Some("auto")),
      LogCfg(Some("warn"), Some(""), Some("console")), FloodWaitCfg(Some("fail"), Some(30)), None)

  function Or<T>(over: Option<T>, base: Option<T>): Option<T> { if over.Some? then over else base }

  /** Alias tables are replaced as a whole, not united. */
  method Merge(base: Config, over: Config) returns (r: Config)
    ensures r == Merged(base, over)
  {
    r := base;
    if over.version.Some? {
      r := r.(version := over.version);
    }
    if over.defaultAccount.Some? {
      r := r.(defaultAccount := over.defaultAccount);
    }
    if over.apiID.Some? {
      r := r.(apiID := over.apiID);
    }
    if over.apiHash.Some? {
      r := r.(apiHash := over.apiHash);
    }
    ghost var top := base.(version := Or(over.version, base.version),
      defaultAccount := Or(over.defaultAccount, base.defaultAccount),
      apiID := Or(over.apiID, base.apiID), apiHash := Or(over.apiHash, base.apiHash));
    assert r == top;
    if over.output.format.Some? {
      r := r.(output := r.output.(format := over.output.format));
    }
    if over.output.color.Some? {
      r := r.(output := r.output.(color := over.output.color));
    }
    assert r == top.(output := Merged(base, over).output);
    if over.log.level.Some? {
      r := r.(log := r.log.(level := over.log.level));
    }
    if over.log.file.Some? {
      r := r.(log := r.log.(file := over.log.file));
    }
    if over.log.format.Some? {
      r := r.(log := r.log.(format := over.log.format));
    }
    assert r == top.(output := Merged(base, over).output, log := Merged(base, over).log);
    if over.floodWait.mode.Some? {
      r := r.(floodWait := r.floodWait.(mode := over.floodWait.mode));
    }
    if over.floodWait.maxSeconds.Some? {
      r := r.(floodWait := r.floodWait.(maxSeconds := over.floodWait.maxSeconds));
    }
    if over.aliases.Some? {
      r := r.(aliases := over.aliases);
    }
  }

  function Merged(base: Config, over: Config): Config {
    Config(
      Or(over.version, base.version), Or(over.defaultAccount, base.defaultAccount), Or(over.apiID, base.apiID),
      Or(over.apiHash, base.apiHash),
      OutputCfg(Or(over.output.format, base.output.format), Or(over.output.color, base.output.color)),
      LogCfg(Or(over.log.level, base.log.level), Or(over.log.file, base.log.file),
        Or(over.log.format, base.log.format)),
      FloodWaitCfg(Or(over.floodWait.mode, base.floodWait.mode),
        Or(over.floodWait.maxSeconds, base.floodWait.maxSeconds)),
      Or(over.aliases, base.aliases))
  }

  // ----- fields as keys -----

  datatype Field =
    | Version
    | DefaultAccount
    | APIID
    | APIHash
    | OutputFormat
    | OutputColor
    | LogLevel
    | LogFile
    | LogFormat
    | FloodWaitMode
    | FloodWaitMaxSeconds

  function Text(s: Option<string>): Option<Value> { if s.Some? then Some(Str(s.value)) else None }

  function Number(n: Option<int>): Option<Value> { if n.Some? then Some(Num(n.value)) else None }

  function FieldOf(c: Config, f: Field): Option<Value> {
    match f
    case Version => Number(c.version)
    case DefaultAccount => Text(c.defaultAccount)
    case APIID => Number(c.apiID)
    case APIHash => Text(c.apiHash)
    case OutputFormat => Text(c.output.format)
    case OutputColor => Text(c.output.color)
    case LogLevel => Text(c.log.level)
    case LogFile => Text(c.log.file)
    case LogFormat => Text(c.log.format)
    case FloodWaitMode => Text(c.floodWait.mode)
    case FloodWaitMaxSeconds => Number(c.floodWait.maxSeconds)
  }

  /** The key of a field in the file. */
  function PathOf(f: Field): (p: seq<string>)
    ensures |p| == 1 || |p| == 2
  {
    match f
    case Version => ["version"]
    case DefaultAccount => ["default_account"]
    case APIID => ["api_id"]
    case APIHash => ["api_hash"]
    case OutputFormat => ["output", "format"]
    case OutputColor => ["output", "color"]
    case LogLevel => ["log", "level"]
    case LogFile => ["log", "file"]
    case LogFormat => ["log", "format"]
    case FloodWaitMode => ["flood_wait", "mode"]
    case FloodWaitMaxSeconds => ["flood_wait", "max_seconds"]
  }

  function AliasOf(c: Config, name: string): Option<Value> {
    if c.aliases.Some? && name in c.aliases.value then Some(Str(c.aliases.value[name])) else None
  }

  /** Each setting comes from the later record when that sets it, and from the earlier one otherwise. */
  lemma MergedField(base: Config, over: Config, f: Field)
    ensures FieldOf(Merged(base, over), f) == Or(FieldOf(over, f), FieldOf(base, f))
    ensures Merged(base, over).aliases == Or(over.aliases, base.aliases)
  {
  }

  /** Twelve settings, and nothing else: two configurations that agree on all of them are the same. */
  lemma FieldsDetermine(c: Config, d: Config)
    requires forall f :: FieldOf(c, f) == FieldOf(d, f)
    requires c.aliases == d.aliases
    ensures c == d
  {
    assert FieldOf(c, Version) == FieldOf(d, Version);
    assert FieldOf(c, DefaultAccount) == FieldOf(d, DefaultAccount);
    assert FieldOf(c, APIID) == FieldOf(d, APIID);
    assert FieldOf(c, APIHash) == FieldOf(d, APIHash);
    assert FieldOf(c, OutputFormat) == FieldOf(d, OutputFormat);
    assert FieldOf(c, OutputColor) == FieldOf(d, OutputColor);
    assert FieldOf(c, LogLevel) == FieldOf(d, LogLevel);
    assert FieldOf(c, LogFile) == FieldOf(d, LogFile);
    assert FieldOf(c, LogFormat) == FieldOf(d, LogFormat);
    assert FieldOf(c, FloodWaitMode) == FieldOf(d, FloodWaitMode);
    assert FieldOf(c, FloodWaitMaxSeconds) == FieldOf(d, FloodWaitMaxSeconds);
  }

  /** What a setting is called and what it is when no layer says anything. */
  lemma DefaultSettings()
    ensures forall f: Field :: FieldOf(DEFAULTS, f) ==
              if f == OutputFormat then Some(Str("human"))
              else if f == OutputColor then Some(Str("auto"))
              else if f == LogLevel then Some(Str("warn"))
              else if f == LogFile then Some(Str(""))
              else if f == LogFormat then Some(Str("console"))
              else if f == FloodWaitMode then Some(Str("fail"))
              else if f == FloodWaitMaxSeconds then Some(Num(30))
              else None
    ensures DEFAULTS.aliases == None
  {
  }
}
