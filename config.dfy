/** aim2/config.py: where the configuration file is looked for, how
    `AIM2_`-prefixed environment variables override its settings, and the
    one-slot cache behind get_config and reload_config.

    The environment is an ordered sequence of (name, value) pairs; a later
    pair that reaches the same setting overwrites an earlier one. The file
    system is a map from path to what YAML parsing of that file yields.
    Python's float() is a parameter (`parseFloat`), since floating point
    parsing is not modelled. */
module Config {
  import opened Wrappers
  import opened ConfigText

  /** A YAML value as yaml.safe_load returns it (dictionaries with string keys). */
  datatype Value =
    | Null
    | Bool(b: bool)
    | Int(i: int)
    | Float(x: real)
    | Str(s: string)
    | List(items: seq<Value>)
    | Dict(entries: map<string, Value>)

  type Env = seq<(string, string)>

  type FloatParser = string -> Option<real>

  /** The exceptions the configuration code lets escape. */
  datatype ConfigError =
    | NoConfigFile                    // FileNotFoundError: nothing found in the default locations
    | ConfigFileNotFound(path: string) // FileNotFoundError: the chosen path does not exist
    | YamlError(path: string)         // yaml.YAMLError while parsing the chosen file
    | TypeError                       // an override walks through a setting that is not a dict
    | AttributeError                  // an override's leaf sits in a setting that is not a dict

  // ---------------------------------------------------------------------
  // Coercion of an override value to the type of the setting it replaces
  // ---------------------------------------------------------------------

  /** The spellings that make a boolean setting true (after lower-casing). */
  const TrueWords: set<string> := {"true", "1", "t", "y", "yes"}

  /** dict.get: None for a missing key, the bound value otherwise (Some(Null)
      for a key bound to YAML null, which Coerce treats like a missing key). */
  function Get(m: map<string, Value>, k: string): Option<Value>
  {
    if k in m then Some(m[k]) else None
  }

  /** The value an override stores, given the value it replaces. Booleans
      are tested before integers. */
  function Coerce(existing: Option<Value>, raw: string, parseFloat: FloatParser): (v: Value)
    ensures existing.Some? && existing.value.Bool? ==>
      v.Bool? && (v.b <==> Lower(raw) in TrueWords)
    ensures existing.Some? && existing.value.Int? ==>
      (v.Int? <==> ParseInt(raw).Some?) && (v.Int? ==> ParseInt(raw) == Some(v.i)) && (!v.Int? ==> v == Str(raw))
    ensures existing.Some? && existing.value.Float? ==>
      (v.Float? <==> parseFloat(raw).Some?) && (v.Float? ==> parseFloat(raw) == Some(v.x)) && (!v.Float? ==> v == Str(raw))
    ensures existing.None? || !(existing.value.Bool? || existing.value.Int? || existing.value.Float?) ==>
      v == Str(raw)
  {
    match existing
    case Some(Bool(_)) => Bool(Lower(raw) in TrueWords)
    case Some(Int(_)) =>
      (match ParseInt(raw)
       case Some(n) => Int(n)
       case None => Str(raw))
    case Some(Float(_)) =>
      (match parseFloat(raw)
       case Some(x) => Float(x)
       case None => Str(raw))
    case _ => Str(raw)
  }

  /** An integer setting overridden with str(n) becomes n, for every n
      that str() can write out. */
  lemma IntOverrideRoundTrip(old_: int, n: int, parseFloat: FloatParser)
    requires WithinStrLimit(n)
    ensures Coerce(Some(Int(old_)), ShowInt(n), parseFloat) == Int(n)
  {
    ParseShowInt(n);
  }

  /** An integer setting overridden with more digits than int() converts
      keeps the raw string. */
  lemma LongIntOverrideKeepsString(old_: int, raw: string, parseFloat: FloatParser)
    requires |raw| > MaxStrDigits
    requires forall k :: 0 <= k < |raw| ==> IsDigit(raw[k])
    ensures Coerce(Some(Int(old_)), raw, parseFloat) == Str(raw)
  {
    TooManyDigitsRejected(raw);
  }

  /** An int setting overridden with "\x1c5" keeps the raw string: int()
      does not skip the separator 0x1C, so the except branch applies. */
  lemma SeparatorOverrideKeepsString(old_: int, parseFloat: FloatParser)
    ensures Coerce(Some(Int(old_)), [28 as char, '5'], parseFloat) == Str([28 as char, '5'])
  {
    SeparatorBeforeDigitRejected();
  }

  /** The boolean reading of an override ignores letter case. */
  lemma BoolOverrideIgnoresCase(old_: bool, raw: string, parseFloat: FloatParser)
    ensures Coerce(Some(Bool(old_)), raw, parseFloat) == Coerce(Some(Bool(old_)), Lower(raw), parseFloat)
  {
    LowerIdempotent(raw);
  }

  // ---------------------------------------------------------------------
  // Nested settings
  // ---------------------------------------------------------------------

  /** config[k1][k2]...[kn], or None where a key is missing or a level is
      not a dict. */
  function Lookup(v: Value, path: seq<string>): Option<Value>
    decreases |path|
  {
    if path == [] then Some(v)
    else if v.Dict? && path[0] in v.entries then Lookup(v.entries[path[0]], path[1..])
    else None
  }

  /** Two key paths lead to unrelated settings: neither is a prefix of the
      other. */
  predicate Diverges(p: seq<string>, q: seq<string>)
  {
    !(p <= q) && !(q <= p)
  }

  /** Some level the override has to walk through, or the dict that should
      hold its leaf, exists but is not a dict. */
  predicate Blocked(v: Value, path: seq<string>)
  {
    exists k | 0 <= k < |path| :: Lookup(v, path[..k]).Some? && !Lookup(v, path[..k]).value.Dict?
  }

  /** The walk of one override: descend along the path, creating an empty
      dict for every missing intermediate key, then store the coerced value
      at the last key. */
  function SetPath(node: Value, path: seq<string>, raw: string, parseFloat: FloatParser): (r: Result<Value, ConfigError>)
    requires |path| >= 1
    ensures r.Err? ==> r.error == TypeError || r.error == AttributeError
    ensures !node.Dict? ==> r == Err(if |path| == 1 then AttributeError else TypeError)
    ensures r.Ok? ==> node.Dict? && r.value.Dict? && r.value.entries.Keys == node.entries.Keys + {path[0]}
    ensures r.Ok? ==> forall k :: k in node.entries && k != path[0] ==> r.value.entries[k] == node.entries[k]
    ensures r.Ok? && |path| == 1 ==> r.value.entries[path[0]] == Coerce(Get(node.entries, path[0]), raw, parseFloat)
    ensures r.Ok? && |path| > 1 ==> r.value.entries[path[0]].Dict?
    decreases |path|
  {
    if !node.Dict? then Err(if |path| == 1 then AttributeError else TypeError)
    else if |path| == 1 then
      Ok(Dict(node.entries[path[0] := Coerce(Get(node.entries, path[0]), raw, parseFloat)]))
    else
      var child := if path[0] in node.entries then node.entries[path[0]] else Dict(map[]);
      match SetPath(child, path[1..], raw, parseFloat)
      case Err(e) => Err(e)
      case Ok(updated) => Ok(Dict(node.entries[path[0] := updated]))
  }

  /** Looking up a non-empty path is looking up its tail in the first
      key's setting. */
  lemma LookupStep(v: Value, path: seq<string>, k: nat)
    requires 1 <= k <= |path|
    ensures Lookup(v, path[..k]) ==
      if v.Dict? && path[0] in v.entries then Lookup(v.entries[path[0]], path[1..][..k - 1]) else None
  {
    assert path[..k][1..] == path[1..][..k - 1];
  }

  /** Nothing can be found below a fresh empty dict. */
  lemma LookupInEmpty(path: seq<string>)
    requires |path| >= 1
    ensures Lookup(Dict(map[]), path) == None
  {
  }

  /** An override fails exactly when its path is blocked by a setting that
      is not a dict. */
  lemma {:induction false} SetPathFailsIffBlocked(v: Value, path: seq<string>, raw: string, parseFloat: FloatParser)
    requires |path| >= 1
    ensures SetPath(v, path, raw, parseFloat).Err? <==> Blocked(v, path)
    decreases |path|
  {
    assert Lookup(v, path[..0]) == Some(v);
    if v.Dict? && |path| > 1 {
      var child := if path[0] in v.entries then v.entries[path[0]] else Dict(map[]);
      SetPathFailsIffBlocked(child, path[1..], raw, parseFloat);
      if Blocked(v, path) {
        var k :| 0 <= k < |path| && Lookup(v, path[..k]).Some? && !Lookup(v, path[..k]).value.Dict?;
        LookupStep(v, path, k);
        assert Lookup(child, path[1..][..k - 1]).Some?;
        assert Blocked(child, path[1..]);
      }
      if Blocked(child, path[1..]) {
        var k :| 0 <= k < |path[1..]| && Lookup(child, path[1..][..k]).Some? && !Lookup(child, path[1..][..k]).value.Dict?;
        if path[0] !in v.entries {
          assert false;
        }
        LookupStep(v, path, k + 1);
        assert Blocked(v, path);
      }
    }
  }

  /** A successful override stores the coerced value at its path, where the
      coercion looks at the value that was there before, and every setting
      on an unrelated path keeps its value. */
  lemma {:induction false} SetPathEffect(v: Value, path: seq<string>, raw: string, parseFloat: FloatParser, q: seq<string>)
    requires |path| >= 1
    requires SetPath(v, path, raw, parseFloat).Ok?
    ensures Lookup(SetPath(v, path, raw, parseFloat).value, path) == Some(Coerce(Lookup(v, path), raw, parseFloat))
    ensures Diverges(path, q) ==> Lookup(SetPath(v, path, raw, parseFloat).value, q) == Lookup(v, q)
    decreases |path|
  {
    var r := SetPath(v, path, raw, parseFloat).value;
    assert [path[0]] <= path;
    if |path| == 1 {
      assert path[1..] == [];
    } else {
      var child := if path[0] in v.entries then v.entries[path[0]] else Dict(map[]);
      SetPathEffect(child, path[1..], raw, parseFloat, if |q| > 0 then q[1..] else []);
      if path[0] !in v.entries {
        LookupInEmpty(path[1..]);
      }
      if Diverges(path, q) && |q| > 0 && q[0] == path[0] {
        assert Diverges(path[1..], q[1..]);
        if path[0] !in v.entries {
          LookupInEmpty(q[1..]);
        }
      }
    }
  }

  /** The keys of the dict at a path, or none when nothing is there. */
  function KeysAt(v: Value, path: seq<string>): set<string>
  {
    match Lookup(v, path)
    case Some(Dict(m)) => m.Keys
    case _ => {}
  }

  /** A successful override leaves a dict at every level of its path; a
      level that was missing is created, and each level gains exactly the
      next key of the path. */
  lemma {:induction false} SetPathBuildsLevels(v: Value, path: seq<string>, raw: string, parseFloat: FloatParser, j: nat)
    requires |path| >= 1 && j < |path|
    requires SetPath(v, path, raw, parseFloat).Ok?
    ensures var level := Lookup(SetPath(v, path, raw, parseFloat).value, path[..j]);
            level.Some? && level.value.Dict? && level.value.entries.Keys == KeysAt(v, path[..j]) + {path[j]}
    decreases |path|
  {
    assert path[..0] == [];
    if j > 0 {
      var child := if path[0] in v.entries then v.entries[path[0]] else Dict(map[]);
      SetPathBuildsLevels(child, path[1..], raw, parseFloat, j - 1);
      LookupStep(SetPath(v, path, raw, parseFloat).value, path, j);
      LookupStep(v, path, j);
      if path[0] !in v.entries && j > 1 {
        LookupInEmpty(path[1..][..j - 1]);
      }
      if path[0] !in v.entries && j == 1 {
        assert path[1..][..j - 1] == [];
      }
    }
  }

  // ---------------------------------------------------------------------
  // Applying the environment
  // ---------------------------------------------------------------------

  /** The setting an `AIM2_` variable addresses: the rest of its name,
      lower-cased and split on `__`. */
  function KeyPath(name: string): (path: seq<string>)
    requires HasEnvPrefix(name)
    ensures |path| >= 1
  {
    Split(Lower(name[|EnvPrefix|..]))
  }

  /** One environment entry: variables without the prefix are skipped. */
  function ApplyEntry(config: Value, entry: (string, string), parseFloat: FloatParser): Result<Value, ConfigError>
  {
    if HasEnvPrefix(entry.0) then SetPath(config, KeyPath(entry.0), entry.1, parseFloat) else Ok(config)
  }

  /** All entries in order; the first failing entry aborts with its error. */
  function ApplyOverrides(config: Value, env: Env, parseFloat: FloatParser): Result<Value, ConfigError>
    decreases |env|
  {
    if env == [] then Ok(config)
    else
      match ApplyOverrides(config, env[..|env| - 1], parseFloat)
      case Err(e) => Err(e)
      case Ok(v) => ApplyEntry(v, env[|env| - 1], parseFloat)
  }

  /** Once an entry has failed, the whole application fails with that error. */
  lemma {:induction false} FailureIsFinal(config: Value, env: Env, i: nat, parseFloat: FloatParser)
    requires i <= |env|
    requires ApplyOverrides(config, env[..i], parseFloat).Err?
    ensures ApplyOverrides(config, env, parseFloat) == ApplyOverrides(config, env[..i], parseFloat)
    decreases |env|
  {
    if i < |env| {
      var front := env[..|env| - 1];
      assert front[..i] == env[..i];
      FailureIsFinal(config, front, i, parseFloat);
    } else {
      assert env[..i] == env;
    }
  }

  /** _apply_environment_overrides: the input configuration is a value and
      is left as it was; the result is built from it entry by entry. */
  method ApplyEnvironmentOverrides(config: Value, env: Env, parseFloat: FloatParser)
    returns (r: Result<Value, ConfigError>)
    ensures r == ApplyOverrides(config, env, parseFloat)
  {
    var result := config;
    var i := 0;
    while i < |env|
      invariant 0 <= i <= |env|
      invariant ApplyOverrides(config, env[..i], parseFloat) == Ok(result)
    {
      var (name, value) := env[i];
      assert env[..i + 1][..i] == env[..i];
      if HasEnvPrefix(name) {
        var step := SetPath(result, KeyPath(name), value, parseFloat);
        if step.Err? {
          FailureIsFinal(config, env, i + 1, parseFloat);
          return Err(step.error);
        }
        result := step.value;
      }
      i := i + 1;
    }
    assert env[..|env|] == env;
    r := Ok(result);
  }

  /** The entries whose name carries the prefix, in order. */
  function Prefixed(env: Env): (r: Env)
    ensures forall i :: 0 <= i < |r| ==> HasEnvPrefix(r[i].0)
    decreases |env|
  {
    if env == [] then []
    else
      var last := env[|env| - 1];
      Prefixed(env[..|env| - 1]) + (if HasEnvPrefix(last.0) then [last] else [])
  }

  /** Only environment entries whose name starts with `AIM2_` affect the
      result. */
  lemma {:induction false} OnlyPrefixedEntriesMatter(config: Value, env: Env, parseFloat: FloatParser)
    ensures ApplyOverrides(config, env, parseFloat) == ApplyOverrides(config, Prefixed(env), parseFloat)
    decreases |env|
  {
    if env != [] {
      var front := env[..|env| - 1];
      var last := env[|env| - 1];
      OnlyPrefixedEntriesMatter(config, front, parseFloat);
      var p := Prefixed(env);
      if HasEnvPrefix(last.0) {
        assert p == Prefixed(front) + [last];
        assert p[..|p| - 1] == Prefixed(front) && p[|p| - 1] == last;
      } else {
        assert p == Prefixed(front);
      }
    }
  }

  /** A setting that no `AIM2_` entry addresses (its path is unrelated to
      every override's path) keeps its original value. */
  lemma {:induction false} UntargetedSettingsKept(config: Value, env: Env, parseFloat: FloatParser, q: seq<string>)
    requires forall i :: 0 <= i < |env| && HasEnvPrefix(env[i].0) ==> Diverges(KeyPath(env[i].0), q)
    requires ApplyOverrides(config, env, parseFloat).Ok?
    ensures Lookup(ApplyOverrides(config, env, parseFloat).value, q) == Lookup(config, q)
    decreases |env|
  {
    if env != [] {
      var front := env[..|env| - 1];
      var last := env[|env| - 1];
      assert forall i :: 0 <= i < |front| ==> front[i] == env[i];
      UntargetedSettingsKept(config, front, parseFloat, q);
      var v := ApplyOverrides(config, front, parseFloat).value;
      if HasEnvPrefix(last.0) {
        SetPathEffect(v, KeyPath(last.0), last.1, parseFloat, q);
      }
    }
  }

  /** The last `AIM2_` entry wins: its setting holds its value, coerced by
      what the earlier entries left there. */
  lemma LastEntryWins(config: Value, env: Env, parseFloat: FloatParser)
    requires |env| >= 1 && HasEnvPrefix(env[|env| - 1].0)
    requires ApplyOverrides(config, env, parseFloat).Ok?
    ensures var before := ApplyOverrides(config, env[..|env| - 1], parseFloat).value;
            var path := KeyPath(env[|env| - 1].0);
            Lookup(ApplyOverrides(config, env, parseFloat).value, path)
              == Some(Coerce(Lookup(before, path), env[|env| - 1].1, parseFloat))
  {
    var before := ApplyOverrides(config, env[..|env| - 1], parseFloat).value;
    var last := env[|env| - 1];
    SetPathEffect(before, KeyPath(last.0), last.1, parseFloat, []);
  }

  /** AIM2_DATABASE__HOST addresses config["database"]["host"]. */
  lemma DatabaseHostKeyPath()
    ensures KeyPath("AIM2_DATABASE__HOST") == ["database", "host"]
  {
    assert "AIM2_DATABASE__HOST"[|EnvPrefix|..] == "DATABASE__HOST";
    assert Lower("DATABASE__HOST") == "database__host";
    assert Join(["database", "host"]) == "database__host";
    assert forall i :: 0 <= i < |"database"| ==> "database"[i] != '_';
    assert forall i :: 0 <= i < |"host"| ==> "host"[i] != '_';
    SplitJoin(["database", "host"]);
  }

  /** AIM2_CONFIG names the configuration file, but it also carries the
      prefix, so it is applied as an override of config["config"]. */
  lemma ConfigVariableIsAlsoAnOverride(entries: map<string, Value>, path: string, parseFloat: FloatParser)
    ensures ApplyOverrides(Dict(entries), [(ConfigVariable, path)], parseFloat)
      == Ok(Dict(entries["config" := Coerce(Get(entries, "config"), path, parseFloat)]))
    ensures "config" !in entries ==>
      ApplyOverrides(Dict(entries), [(ConfigVariable, path)], parseFloat) == Ok(Dict(entries["config" := Str(path)]))
  {
    assert ConfigVariable[|EnvPrefix|..] == "CONFIG";
    assert Lower("CONFIG") == "config";
    assert forall i :: 0 <= i < |"config"| ==> "config"[i] != '_';
    SplitNoSeparator("config");
    assert [(ConfigVariable, path)][..0] == [];
  }

  // ---------------------------------------------------------------------
  // Choosing and reading the configuration file
  // ---------------------------------------------------------------------

  /** Environment variable that names the configuration file. */
  const ConfigVariable: string := "AIM2_CONFIG"

  /** The locations tried, in order, when no path is given. */
  const DefaultConfigPaths: seq<string> := ["config.yml", "config/config.yml", "/etc/aim2/config.yml"]

  /** What yaml.safe_load makes of a file: a document, or a parse error. */
  datatype YamlFile = Parsed(doc: Value) | Malformed

  /** Existing files by path. */
  type FileSystem = map<string, YamlFile>

  /** os.environ.get(name), taking the last entry with that name. */
  function EnvGet(env: Env, name: string): Option<string>
    decreases |env|
  {
    if env == [] then None
    else if env[|env| - 1].0 == name then Some(env[|env| - 1].1)
    else EnvGet(env[..|env| - 1], name)
  }

  /** Reading a variable gives nothing exactly when no entry has that name,
      and otherwise the value of the last entry with that name. */
  lemma {:induction false} EnvGetLast(env: Env, name: string)
    ensures EnvGet(env, name).None? <==> forall i :: 0 <= i < |env| ==> env[i].0 != name
    ensures EnvGet(env, name).Some? ==>
      exists i :: 0 <= i < |env| && env[i] == (name, EnvGet(env, name).value) &&
                  forall j :: i < j < |env| ==> env[j].0 != name
    decreases |env|
  {
    if env != [] {
      var last := |env| - 1;
      if env[last].0 == name {
        assert env[last] == (name, EnvGet(env, name).value);
      } else {
        var front := env[..last];
        EnvGetLast(front, name);
        assert forall i :: 0 <= i < |front| ==> front[i] == env[i];
        if EnvGet(env, name).Some? {
          var i :| 0 <= i < |front| && front[i] == (name, EnvGet(env, name).value) &&
                   forall j :: i < j < |front| ==> front[j].0 != name;
          assert env[i] == (name, EnvGet(env, name).value);
        }
      }
    }
  }

  /** The AIM2_CONFIG setting when it is present and not empty (Python's
      `if env_config:`). */
  function EnvConfigPath(env: Env): Option<string>
  {
    var e := EnvGet(env, ConfigVariable);
    if e.Some? && e.value != "" then e else None
  }

  /** The index of the first path that exists. */
  function FirstExisting(paths: seq<string>, fs: FileSystem): (r: Option<nat>)
    ensures r.Some? ==> r.value < |paths| && paths[r.value] in fs &&
                        forall j :: 0 <= j < r.value ==> paths[j] !in fs
    ensures r.None? ==> forall j :: 0 <= j < |paths| ==> paths[j] !in fs
  {
    if paths == [] then None
    else if paths[0] in fs then Some(0)
    else
      match FirstExisting(paths[1..], fs)
      case None => None
      case Some(k) => Some(k + 1)
  }

  /** The path _load_config_file reads: the explicit path, else AIM2_CONFIG,
      else the first default location that exists; a chosen path that does
      not exist, or no default existing, is FileNotFoundError. */
  function ConfigPath(explicitPath: Option<string>, env: Env, fs: FileSystem): (r: Result<string, ConfigError>)
    ensures r.Ok? ==> r.value in fs
    ensures r.Err? && r.error.ConfigFileNotFound? ==> r.error.path !in fs
    ensures explicitPath.Some? ==>
      r == Ok(explicitPath.value) || r == Err(ConfigFileNotFound(explicitPath.value))
    ensures explicitPath.None? && EnvConfigPath(env).Some? ==>
      r == Ok(EnvConfigPath(env).value) || r == Err(ConfigFileNotFound(EnvConfigPath(env).value))
    ensures explicitPath.None? && EnvConfigPath(env).None? ==>
      (r.Err? <==> forall j :: 0 <= j < |DefaultConfigPaths| ==> DefaultConfigPaths[j] !in fs) &&
      (r.Err? ==> r.error == NoConfigFile) &&
      (r.Ok? ==> exists k :: 0 <= k < |DefaultConfigPaths| && r.value == DefaultConfigPaths[k] &&
                   forall j :: 0 <= j < k ==> DefaultConfigPaths[j] !in fs)
  {
    var chosen :=
      if explicitPath.Some? then explicitPath
      else if EnvConfigPath(env).Some? then EnvConfigPath(env)
      else match FirstExisting(DefaultConfigPaths, fs)
        case None => None
        case Some(k) => Some(DefaultConfigPaths[k]);
    match chosen
    case None => Err(NoConfigFile)
    case Some(path) => if path in fs then Ok(path) else Err(ConfigFileNotFound(path))
  }

  /** Python truthiness of a parsed YAML document. */
  predicate Truthy(v: Value)
  {
    match v
    case Null => false
    case Bool(b) => b
    case Int(i) => i != 0
    case Float(x) => x != 0.0
    case Str(s) => s != ""
    case List(items) => items != []
    case Dict(entries) => entries != map[]
  }

  /** `yaml.safe_load(f) or {}`: a falsy document becomes an empty dict. */
  function ReadConfig(path: string, fs: FileSystem): (r: Result<Value, ConfigError>)
    requires path in fs
    ensures r.Err? <==> fs[path] == Malformed
    ensures r.Err? ==> r.error == YamlError(path)
    ensures r.Ok? ==> (Truthy(r.value) && r.value == fs[path].doc) || (!Truthy(fs[path].doc) && r.value == Dict(map[]))
  {
    match fs[path]
    case Malformed => Err(YamlError(path))
    case Parsed(doc) => Ok(if Truthy(doc) then doc else Dict(map[]))
  }

  /** _load_config_file as a function of its inputs. */
  function ConfigFileContents(explicitPath: Option<string>, env: Env, fs: FileSystem): Result<Value, ConfigError>
  {
    match ConfigPath(explicitPath, env, fs)
    case Err(e) => Err(e)
    case Ok(path) => ReadConfig(path, fs)
  }

  /** _load_config_file, with the search of the default locations as the
      source's for/else loop. */
  method LoadConfigFile(explicitPath: Option<string>, env: Env, fs: FileSystem)
    returns (r: Result<Value, ConfigError>)
    ensures r == ConfigFileContents(explicitPath, env, fs)
  {
    var configPath: string;
    if explicitPath.Some? {
      configPath := explicitPath.value;
    } else {
      var envConfig := EnvGet(env, ConfigVariable);
      if envConfig.Some? && envConfig.value != "" {
        configPath := envConfig.value;
      } else {
        var found: Option<nat> := None;
        var i := 0;
        while i < |DefaultConfigPaths| && found.None?
          invariant 0 <= i <= |DefaultConfigPaths|
          invariant found.None? ==> forall j :: 0 <= j < i ==> DefaultConfigPaths[j] !in fs
          invariant found.Some? ==> found.value < |DefaultConfigPaths| && DefaultConfigPaths[found.value] in fs &&
                                    forall j :: 0 <= j < found.value ==> DefaultConfigPaths[j] !in fs
        {
          if DefaultConfigPaths[i] in fs {
            found := Some(i);
          }
          i := i + 1;
        }
        if found.None? {
          return Err(NoConfigFile);
        }
        configPath := DefaultConfigPaths[found.value];
      }
    }
    if configPath !in fs {
      return Err(ConfigFileNotFound(configPath));
    }
    r := ReadConfig(configPath, fs);
  }

  /** get_config's result when nothing is cached: the file's contents with
      the environment's overrides applied. */
  function Configuration(explicitPath: Option<string>, env: Env, fs: FileSystem, parseFloat: FloatParser): Result<Value, ConfigError>
  {
    match ConfigFileContents(explicitPath, env, fs)
    case Err(e) => Err(e)
    case Ok(config) => ApplyOverrides(config, env, parseFloat)
  }

  // ---------------------------------------------------------------------
  // The module-level cache
  // ---------------------------------------------------------------------

  /** The module global `_config`: None until a load succeeds. */
  class ConfigCache {
    var cached: Option<Value>

    constructor ()
      ensures cached == None
    {
      cached := None;
    }

    /** get_config: a cached configuration is returned as it is, whatever
        the path, environment or files now say; otherwise the configuration
        is loaded and, when loading succeeds, cached. */
    method GetConfig(explicitPath: Option<string>, env: Env, fs: FileSystem, parseFloat: FloatParser)
      returns (r: Result<Value, ConfigError>)
      modifies this
      ensures old(cached).Some? ==> r == Ok(old(cached).value) && cached == old(cached)
      ensures old(cached).None? ==> r == Configuration(explicitPath, env, fs, parseFloat)
      ensures old(cached).None? ==> cached == (if r.Ok? then Some(r.value) else None)
    {
      if cached.Some? {
        return Ok(cached.value);
      }
      var config := LoadConfigFile(explicitPath, env, fs);
      if config.Err? {
        return Err(config.error);
      }
      r := ApplyEnvironmentOverrides(config.value, env, parseFloat);
      if r.Ok? {
        cached := Some(r.value);
      }
    }

    /** reload_config: clear the cache, then load as get_config does. */
    method ReloadConfig(explicitPath: Option<string>, env: Env, fs: FileSystem, parseFloat: FloatParser)
      returns (r: Result<Value, ConfigError>)
      modifies this
      ensures r == Configuration(explicitPath, env, fs, parseFloat)
      ensures cached == (if r.Ok? then Some(r.value) else None)
    {
      cached := None;
      r := GetConfig(explicitPath, env, fs, parseFloat);
    }
  }
}
