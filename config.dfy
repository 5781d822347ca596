/**
 * Public and private configuration with dotted-key access
 * (modules/config_manager.py).
 *
 * A configuration is a nested mapping; a key path "a.b.c" names the value
 * reached by indexing with each segment in turn.  Reading walks down and
 * fails on a missing key or a non-mapping parent; writing walks down,
 * creating empty mappings for missing intermediate keys, and fails when an
 * intermediate key holds a non-mapping value.
 */
module ConfigManager {
  import opened Wrappers
  import opened Strings

  /** A YAML value: a mapping, or any other value (kept as its `str()` text). */
  datatype Value = Dict(entries: map<string, Value>) | Scalar(text: string)

  type Config = map<string, Value>

  /** The exceptions the configuration functions raise. */
  datatype ConfigError =
    | InvalidScope(scope: string)                  // ValueError from get_config / set_config
    | InvalidReloadScope(scope: string)            // ValueError from reload_config
    | ParentNotDict(key: string)                   // KeyError: cannot access a key below a non-mapping
    | KeyNotFound(keyPath: string)                 // KeyError: a segment is missing
    | NotFoundInScope(scope: string, cause: ConfigError)  // get_config's re-raised KeyError
    | IntermediateNotDict(keyPath: string, key: string)   // ValueError from the nested set
    | LoadFailed(detail: string)                   // ValueError / IOError while reading a file

  predicate ValidScope(scope: string) { scope == "public" || scope == "private" }

  /** `key_path.split(".")`: never empty. */
  function KeysOf(keyPath: string): (keys: seq<string>)
    ensures |keys| >= 1
    ensures Join(keys, ".") == keyPath
  {
    JoinSplit(keyPath, ".");
    Split(keyPath, ".")
  }

  // ---------------------------------------------------------------------
  // Reading a nested value
  // ---------------------------------------------------------------------

  /** The value reached from `current` by the segments `keys` (modules/config_manager.py:60-75). */
  function Lookup(current: Value, keys: seq<string>, keyPath: string): (r: Result<Value, ConfigError>)
    ensures keys == [] ==> r == Ok(current)
    ensures r.Err? ==> r.error == KeyNotFound(keyPath) || (r.error.ParentNotDict? && r.error.key in keys)
    decreases |keys|
  {
    if keys == [] then Ok(current)
    else if !current.Dict? then Err(ParentNotDict(keys[0]))
    else if keys[0] !in current.entries then Err(KeyNotFound(keyPath))
    else Lookup(current.entries[keys[0]], keys[1..], keyPath)
  }

  /** `_get_nested_value(data, key_path)`. */
  method GetNestedValue(data: Config, keyPath: string) returns (r: Result<Value, ConfigError>)
    ensures r == Lookup(Dict(data), KeysOf(keyPath), keyPath)
  {
    var keys := KeysOf(keyPath);
    var current := Dict(data);
    var i := 0;
    while i < |keys|
      invariant 0 <= i <= |keys|
      invariant Lookup(Dict(data), keys, keyPath) == Lookup(current, keys[i..], keyPath)
    {
      var key := keys[i];
      if !current.Dict? {
        return Err(ParentNotDict(key));
      }
      if key !in current.entries {
        return Err(KeyNotFound(keyPath));
      }
      assert keys[i..][1..] == keys[i + 1..];
      current := current.entries[key];
      i := i + 1;
    }
    r := Ok(current);
  }

  // ---------------------------------------------------------------------
  // Writing a nested value
  // ---------------------------------------------------------------------

  /**
   * `data` after binding the path `keys` to `value`, creating empty mappings
   * for missing intermediate keys (modules/config_manager.py:78-96).
   */
  function Assign(m: Config, keys: seq<string>, keyPath: string, value: Value): (r: Result<Config, ConfigError>)
    requires |keys| >= 1
    ensures r.Ok? ==> keys[0] in r.value && r.value.Keys == m.Keys + {keys[0]}
    ensures r.Ok? ==> forall x :: x in m && x != keys[0] ==> r.value[x] == m[x]
    ensures r.Err? ==> r.error.IntermediateNotDict? && r.error.keyPath == keyPath
    decreases |keys|
  {
    if |keys| == 1 then Ok(m[keys[0] := value])
    else
      var k := keys[0];
      if k in m && !m[k].Dict? then Err(IntermediateNotDict(keyPath, k))
      else
        var child := if k in m then m[k].entries else map[];
        match Assign(child, keys[1..], keyPath, value)
        case Err(e) => Err(e)
        case Ok(c) => Ok(m[k := Dict(c)])
  }

  /** The mapping `inner` put back in place below the visited levels `frames`, innermost last. */
  function Plug(frames: seq<Config>, keys: seq<string>, inner: Config): Config
    requires |frames| == |keys|
    decreases |keys|
  {
    if keys == [] then inner
    else
      var n := |keys| - 1;
      Plug(frames[..n], keys[..n], frames[n][keys[n] := Dict(inner)])
  }

  function Lift(frames: seq<Config>, keys: seq<string>, r: Result<Config, ConfigError>): Result<Config, ConfigError>
    requires |frames| == |keys|
  {
    match r
    case Err(e) => Err(e)
    case Ok(c) => Ok(Plug(frames, keys, c))
  }

  /**
   * `_set_nested_value(data, key_path, value)`: the walk down to the parent of
   * the last key, then the chain of updated mappings rebuilt from the inside out.
   */
  method SetNestedValue(data: Config, keyPath: string, value: Value) returns (r: Result<Config, ConfigError>)
    ensures r == Assign(data, KeysOf(keyPath), keyPath, value)
  {
    var keys := KeysOf(keyPath);
    var frames: seq<Config> := [];
    var current := data;
    var i := 0;
    while i < |keys| - 1
      invariant 0 <= i <= |keys| - 1
      invariant |frames| == i
      invariant Assign(data, keys, keyPath, value) == Lift(frames, keys[..i], Assign(current, keys[i..], keyPath, value))
    {
      var key := keys[i];
      var next: Config;
      if key !in current {
        next := map[];
      } else if !current[key].Dict? {
        DescendFails(frames, keys, i, current, keyPath, value);
        return Err(IntermediateNotDict(keyPath, key));
      } else {
        next := current[key].entries;
      }
      DescendStep(frames, keys, i, current, keyPath, value);
      frames := frames + [current];
      current := next;
      i := i + 1;
    }
    var result := current[keys[i] := value];
    var j := i;
    assert frames[..i] == frames;
    while j > 0
      invariant 0 <= j <= i
      invariant Plug(frames, keys[..i], current[keys[i] := value]) == Plug(frames[..j], keys[..j], result)
    {
      PlugStep(frames, keys, j, result);
      result := frames[j - 1][keys[j - 1] := Dict(result)];
      j := j - 1;
    }
    assert frames[..0] == [] && keys[..0] == [];
    r := Ok(result);
  }

  /** One level of the walk down: the visited mapping is kept, and the assignment continues one key deeper. */
  lemma DescendStep(frames: seq<Config>, keys: seq<string>, i: nat, current: Config, keyPath: string, value: Value)
    requires |frames| == i && i + 1 < |keys|
    requires keys[i] !in current || current[keys[i]].Dict?
    ensures var next := if keys[i] in current then current[keys[i]].entries else map[];
      Lift(frames, keys[..i], Assign(current, keys[i..], keyPath, value))
      == Lift(frames + [current], keys[..i + 1], Assign(next, keys[i + 1..], keyPath, value))
  {
    assert keys[i..][0] == keys[i] && keys[i..][1..] == keys[i + 1..];
    assert (frames + [current])[..i] == frames && (frames + [current])[i] == current;
    assert keys[..i + 1][..i] == keys[..i] && keys[..i + 1][i] == keys[i];
  }

  /** A visited key holding a non-mapping stops the walk with an error. */
  lemma DescendFails(frames: seq<Config>, keys: seq<string>, i: nat, current: Config, keyPath: string, value: Value)
    requires |frames| == i && i + 1 < |keys|
    requires keys[i] in current && !current[keys[i]].Dict?
    ensures Lift(frames, keys[..i], Assign(current, keys[i..], keyPath, value)) == Err(IntermediateNotDict(keyPath, keys[i]))
  {
    assert keys[i..][0] == keys[i];
  }

  /** One level of the rebuild: the innermost visited mapping takes the rebuilt one under its key. */
  lemma PlugStep(frames: seq<Config>, keys: seq<string>, j: nat, result: Config)
    requires 0 < j <= |frames| && j <= |keys|
    ensures Plug(frames[..j], keys[..j], result) == Plug(frames[..j - 1], keys[..j - 1], frames[j - 1][keys[j - 1] := Dict(result)])
  {
    assert frames[..j][..j - 1] == frames[..j - 1] && frames[..j][j - 1] == frames[j - 1];
    assert keys[..j][..j - 1] == keys[..j - 1] && keys[..j][j - 1] == keys[j - 1];
  }

  // ---------------------------------------------------------------------
  // Properties of the nested access
  // ---------------------------------------------------------------------

  /** After a successful set, reading the same path yields the value. */
  lemma {:induction false} GetAfterSet(m: Config, keys: seq<string>, keyPath: string, value: Value)
    requires |keys| >= 1 && Assign(m, keys, keyPath, value).Ok?
    ensures Lookup(Dict(Assign(m, keys, keyPath, value).value), keys, keyPath) == Ok(value)
    decreases |keys|
  {
    if |keys| > 1 {
      var k := keys[0];
      var child := if k in m then m[k].entries else map[];
      GetAfterSet(child, keys[1..], keyPath, value);
    }
  }

  /** `q` and `keys` differ at some position both have, so neither is a prefix of the other. */
  predicate Diverges(q: seq<string>, keys: seq<string>)
  {
    exists j :: 0 <= j < |q| && j < |keys| && q[j] != keys[j]
  }

  /** A set changes nothing outside its path: every diverging path reads as before. */
  lemma {:induction false} SetFrame(m: Config, keys: seq<string>, keyPath: string, value: Value, q: seq<string>, qPath: string)
    requires |keys| >= 1 && Assign(m, keys, keyPath, value).Ok?
    requires Diverges(q, keys)
    ensures Lookup(Dict(Assign(m, keys, keyPath, value).value), q, qPath) == Lookup(Dict(m), q, qPath)
    decreases |keys|
  {
    var m' := Assign(m, keys, keyPath, value).value;
    var k := keys[0];
    if q[0] != k {
      assert q[0] in m' <==> q[0] in m;
    } else {
      var j :| 0 <= j < |q| && j < |keys| && q[j] != keys[j];
      assert j >= 1 && |keys| > 1;
      assert q[1..][j - 1] != keys[1..][j - 1];
      var child := if k in m then m[k].entries else map[];
      SetFrame(child, keys[1..], keyPath, value, q[1..], qPath);
      if k !in m {
        assert |q[1..]| >= 1;
      }
    }
  }

  /** Walking `keys[..i + 1]` from `m` reaches an existing non-mapping value. */
  predicate BlockedAt(m: Config, keys: seq<string>, keyPath: string, i: int)
  {
    0 <= i < |keys| - 1 && Lookup(Dict(m), keys[..i + 1], keyPath).Ok? && Lookup(Dict(m), keys[..i + 1], keyPath).value.Scalar?
  }

  lemma LookupCons(m: Config, keys: seq<string>, keyPath: string, i: nat)
    requires i < |keys| && keys[0] in m
    ensures Lookup(Dict(m), keys[..i + 1], keyPath) == Lookup(m[keys[0]], keys[1..][..i], keyPath)
  {
    assert keys[..i + 1][1..] == keys[1..][..i];
  }

  /**
   * A set fails exactly when some intermediate key along the path already
   * exists with a non-mapping value, all keys above it existing as mappings:
   * the failure is met before any empty mapping has been created, so the data
   * is left as it was.
   */
  lemma {:induction false} SetFailsOnlyOnExistingPath(m: Config, keys: seq<string>, keyPath: string, value: Value)
    requires |keys| >= 1
    ensures Assign(m, keys, keyPath, value).Err? <==> exists i :: BlockedAt(m, keys, keyPath, i)
    decreases |keys|
  {
    if |keys| > 1 {
      var k := keys[0];
      if k in m && !m[k].Dict? {
        assert keys[..1] == [k];
        assert BlockedAt(m, keys, keyPath, 0);
      } else {
        var child := if k in m then m[k].entries else map[];
        SetFailsOnlyOnExistingPath(child, keys[1..], keyPath, value);
        if Assign(m, keys, keyPath, value).Err? {
          var i :| BlockedAt(child, keys[1..], keyPath, i);
          assert k in m;
          LookupCons(m, keys, keyPath, i + 1);
          assert BlockedAt(m, keys, keyPath, i + 1);
        } else {
          forall i | 0 <= i < |keys| - 1 ensures !BlockedAt(m, keys, keyPath, i) {
            assert keys[..i + 1] != [] && keys[..i + 1][0] == k;
            if i > 0 && k in m {
              LookupCons(m, keys, keyPath, i);
              assert !BlockedAt(child, keys[1..], keyPath, i - 1);
            }
          }
        }
      }
    } else {
      forall i | BlockedAt(m, keys, keyPath, i) ensures false { }
    }
  }

  // ---------------------------------------------------------------------
  // The two scoped configurations
  // ---------------------------------------------------------------------

  /** `get_config(scope, key_path)` once the scope is known to be valid (modules/config_manager.py:131-140). */
  function Read(config: Config, scope: string, keyPath: Option<string>): (r: Result<Value, ConfigError>)
    ensures keyPath.None? ==> r == Ok(Dict(config))
    ensures r.Err? ==> keyPath.Some? && r.error.NotFoundInScope? && r.error.scope == scope
  {
    match keyPath
    case None => Ok(Dict(config))
    case Some(p) =>
      match Lookup(Dict(config), KeysOf(p), p)
      case Ok(v) => Ok(v)
      case Err(e) => Err(NotFoundInScope(scope, e))
  }

  function UpdatedMessage(scope: string, keyPath: string, shown: string): string
  {
    "✓ Updated " + scope + " config: " + keyPath + " = " + shown
  }

  function ReloadedMessage(scope: Option<string>): string
  {
    "✓ Reloaded " + (if scope.Some? then scope.value + " config" else "both configs") + " from disk"
  }

  /** After a successful `set_config` of a key path, `get_config` of that path yields the value. */
  lemma ReadAfterAssign(config: Config, scope: string, keyPath: string, value: Value)
    requires Assign(config, KeysOf(keyPath), keyPath, value).Ok?
    ensures Read(Assign(config, KeysOf(keyPath), keyPath, value).value, scope, Some(keyPath)) == Ok(value)
  {
    GetAfterSet(config, KeysOf(keyPath), keyPath, value);
  }

  /**
   * The module-level `_configs` table: one mapping per scope. Disk reads are
   * the `load` parameter, from a scope name to the parsed file or the message
   * of the error raised while reading it.
   */
  class ConfigStore {
    var publicConfig: Config
    var privateConfig: Config

    function Scoped(scope: string): Config
      reads this
      requires ValidScope(scope)
    {
      if scope == "public" then publicConfig else privateConfig
    }

    constructor ()
      ensures publicConfig == map[] && privateConfig == map[]
    {
      publicConfig := map[];
      privateConfig := map[];
    }

    /** `_initialize_configs()`: loads each scope whose mapping is still empty (modules/config_manager.py:99-105). */
    method Initialize(load: string -> Result<Config, string>) returns (failure: Option<ConfigError>)
      modifies this
      ensures old(publicConfig) == map[] && load("public").Err? ==>
        failure == Some(LoadFailed(load("public").error)) && publicConfig == old(publicConfig) && privateConfig == old(privateConfig)
      ensures publicConfig == (if old(publicConfig) == map[] && load("public").Ok? then load("public").value else old(publicConfig))
      ensures !(old(publicConfig) == map[] && load("public").Err?) ==>
        if old(privateConfig) == map[] then
          (if load("private").Ok? then failure == None && privateConfig == load("private").value
           else failure == Some(LoadFailed(load("private").error)) && privateConfig == old(privateConfig))
        else failure == None && privateConfig == old(privateConfig)
    {
      failure := None;
      if publicConfig == map[] {
        match load("public")
        case Err(e) => return Some(LoadFailed(e));
        case Ok(c) => publicConfig := c;
      }
      if privateConfig == map[] {
        match load("private")
        case Err(e) => return Some(LoadFailed(e));
        case Ok(c) => privateConfig := c;
      }
    }

    /** `get_config(scope, key_path)`: a copy of the whole mapping, or the nested value. */
    method GetConfig(scope: string, keyPath: Option<string>) returns (r: Result<Value, ConfigError>)
      ensures !ValidScope(scope) ==> r == Err(InvalidScope(scope))
      ensures ValidScope(scope) ==> r == Read(Scoped(scope), scope, keyPath)
    {
      if !ValidScope(scope) {
        return Err(InvalidScope(scope));
      }
      var config := if scope == "public" then publicConfig else privateConfig;
      if keyPath.None? {
        return Ok(Dict(config));
      }
      var v := GetNestedValue(config, keyPath.value);
      match v
      case Ok(x) => r := Ok(x);
      case Err(e) => r := Err(NotFoundInScope(scope, e));
    }

    /**
     * `set_config(scope, key_path, value)`; `shown` is `str(value)` for the
     * message. Writing the file back is not modelled.
     */
    method SetConfig(scope: string, keyPath: string, value: Value, shown: string) returns (r: Result<string, ConfigError>)
      modifies this
      ensures !ValidScope(scope) ==> r == Err(InvalidScope(scope)) && publicConfig == old(publicConfig) && privateConfig == old(privateConfig)
      ensures ValidScope(scope) ==>
        var a := Assign(old(Scoped(scope)), KeysOf(keyPath), keyPath, value);
        if a.Err? then (r == Err(a.error) && publicConfig == old(publicConfig) && privateConfig == old(privateConfig))
        else (r == Ok(UpdatedMessage(scope, keyPath, shown))
          && publicConfig == (if scope == "public" then a.value else old(publicConfig))
          && privateConfig == (if scope == "private" then a.value else old(privateConfig)))
    {
      if !ValidScope(scope) {
        return Err(InvalidScope(scope));
      }
      var config := if scope == "public" then publicConfig else privateConfig;
      var updated := SetNestedValue(config, keyPath, value);
      if updated.Err? {
        return Err(updated.error);
      }
      if scope == "public" {
        publicConfig := updated.value;
      } else {
        privateConfig := updated.value;
      }
      r := Ok(UpdatedMessage(scope, keyPath, shown));
    }

    /**
     * `reload_config(scope)`: re-reads one scope, or both in the order public,
     * private; a read that raises leaves the scopes already re-read replaced.
     */
    method ReloadConfig(scope: Option<string>, load: string -> Result<Config, string>) returns (r: Result<string, ConfigError>)
      modifies this
      ensures scope.Some? && !ValidScope(scope.value) ==>
        r == Err(InvalidReloadScope(scope.value)) && publicConfig == old(publicConfig) && privateConfig == old(privateConfig)
      ensures scope.Some? && ValidScope(scope.value) ==>
        if load(scope.value).Err? then
          r == Err(LoadFailed(load(scope.value).error)) && publicConfig == old(publicConfig) && privateConfig == old(privateConfig)
        else
          r == Ok(ReloadedMessage(scope))
          && publicConfig == (if scope.value == "public" then load("public").value else old(publicConfig))
          && privateConfig == (if scope.value == "private" then load("private").value else old(privateConfig))
      ensures scope.None? ==>
        publicConfig == (if load("public").Ok? then load("public").value else old(publicConfig))
        && privateConfig == (if load("public").Ok? && load("private").Ok? then load("private").value else old(privateConfig))
        && r == (if load("public").Err? then Err(LoadFailed(load("public").error))
                 else if load("private").Err? then Err(LoadFailed(load("private").error))
                 else Ok(ReloadedMessage(None)))
    {
      if scope.Some? && !ValidScope(scope.value) {
        return Err(InvalidReloadScope(scope.value));
      }
      var scopes := if scope.Some? then [scope.value] else ["public", "private"];
      for k := 0 to |scopes|
        invariant scope.Some? ==> k == 0 ==> publicConfig == old(publicConfig) && privateConfig == old(privateConfig)
        invariant scope.Some? ==> k == 1 ==>
          load(scope.value).Ok?
          && publicConfig == (if scope.value == "public" then load("public").value else old(publicConfig))
          && privateConfig == (if scope.value == "private" then load("private").value else old(privateConfig))
        invariant scope.None? ==> k < 2 ==> privateConfig == old(privateConfig)
        invariant scope.None? ==> k == 2 ==> load("private").Ok? && privateConfig == load("private").value
        invariant scope.None? ==> k == 0 ==> publicConfig == old(publicConfig)
        invariant scope.None? ==> k >= 1 ==> load("public").Ok? && publicConfig == load("public").value
      {
        var s := scopes[k];
        match load(s)
        case Err(e) => return Err(LoadFailed(e));
        case Ok(c) =>
          if s == "public" {
            publicConfig := c;
          } else {
            privateConfig := c;
          }
      }
      r := Ok(ReloadedMessage(scope));
    }
  }
}
