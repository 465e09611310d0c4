/** The string- and value-level parts of `ProjectManager` (project.py):
    turning the empty strings of parsed TOML into `None`, the relative-path
    and join helpers, and the name of the pickled config file. */
module Project {
  import opened StrOps
  import opened PyValue

  // ---------------------------------------------------------------------
  // _toml_map_from_str

  /** `_toml_map_from_str(data)`: every `""` reached through dicts and lists
      becomes `None`; everything else is kept. */
  function TomlMap(v: Value): Value
    decreases v
  {
    match v
    case PyDict(entries) =>
      PyDict(seq(|entries|, i requires 0 <= i < |entries| => (entries[i].0, TomlMap(entries[i].1))))
    case PyList(items) =>
      PyList(seq(|items|, i requires 0 <= i < |items| => TomlMap(items[i])))
    case PyStr(s) => if s == "" then PyNone else v
    case _ => v
  }

  /** No `""` is reachable through dicts and lists. */
  predicate NoEmptyString(v: Value)
    decreases v
  {
    match v
    case PyDict(entries) => forall i :: 0 <= i < |entries| ==> NoEmptyString(entries[i].1)
    case PyList(items) => forall i :: 0 <= i < |items| ==> NoEmptyString(items[i])
    case PyStr(s) => s != ""
    case _ => true
  }

  /** `w` has the dicts of `v` with the same keys in the same order and
      the lists of `v` with the same lengths. */
  predicate SameShape(v: Value, w: Value)
    decreases v
  {
    match v
    case PyDict(entries) =>
      w.PyDict? && Keys(w.entries) == Keys(entries) &&
      forall i :: 0 <= i < |entries| ==> SameShape(entries[i].1, w.entries[i].1)
    case PyList(items) =>
      w.PyList? && |w.items| == |items| &&
      forall i :: 0 <= i < |items| ==> SameShape(items[i], w.items[i])
    case _ => !w.PyDict? && !w.PyList?
  }

  /** Every `""` leaf, at any depth, is gone. */
  lemma {:induction false} TomlMapNoEmpty(v: Value)
    ensures NoEmptyString(TomlMap(v))
    decreases v
  {
    match v
    case PyDict(entries) =>
      forall i | 0 <= i < |entries| ensures NoEmptyString(TomlMap(entries[i].1)) {
        TomlMapNoEmpty(entries[i].1);
      }
    case PyList(items) =>
      forall i | 0 <= i < |items| ensures NoEmptyString(TomlMap(items[i])) {
        TomlMapNoEmpty(items[i]);
      }
    case _ =>
  }

  /** Dict keys and list lengths are kept. */
  lemma {:induction false} TomlMapShape(v: Value)
    ensures SameShape(v, TomlMap(v))
    decreases v
  {
    match v
    case PyDict(entries) =>
      forall i | 0 <= i < |entries| ensures SameShape(entries[i].1, TomlMap(entries[i].1)) {
        TomlMapShape(entries[i].1);
      }
    case PyList(items) =>
      forall i | 0 <= i < |items| ensures SameShape(items[i], TomlMap(items[i])) {
        TomlMapShape(items[i]);
      }
    case _ =>
  }

  /** A value without `""` leaves comes back unchanged; in particular every
      non-empty leaf is kept as it is. */
  lemma {:induction false} TomlMapKeeps(v: Value)
    requires NoEmptyString(v)
    ensures TomlMap(v) == v
    decreases v
  {
    match v
    case PyDict(entries) =>
      forall i | 0 <= i < |entries| ensures TomlMap(entries[i].1) == entries[i].1 {
        TomlMapKeeps(entries[i].1);
      }
      assert TomlMap(v).entries == entries;
    case PyList(items) =>
      forall i | 0 <= i < |items| ensures TomlMap(items[i]) == items[i] {
        TomlMapKeeps(items[i]);
      }
      assert TomlMap(v).items == items;
    case _ =>
  }

  /** A second pass changes nothing. */
  lemma TomlMapIdempotent(v: Value)
    ensures TomlMap(TomlMap(v)) == TomlMap(v)
  {
    TomlMapNoEmpty(v);
    TomlMapKeeps(TomlMap(v));
  }

  // ---------------------------------------------------------------------
  // get_path, get_join and the config file name

  /** A path result: a plain string, or `EntityPath(base) / rel`, or
      `(EntityPath(base) / name).with_suffix(suffix)`. `EntityPath` itself
      is not part of this model, so the joined forms are kept as data. */
  datatype PathValue =
    | Plain(s: string)
    | Joined(base: string, rel: string)
    | JoinedWithSuffix(base: string, name: string, suffix: string)

  /** `get_path(path)`: `str(path)` without leading `/`, under `path_base`
      when one is set. */
  function GetPath(pathBase: Option<string>, path: Value): (r: PathValue)
    ensures pathBase.None? ==> r.Plain?
    ensures pathBase.Some? ==> r.Joined? && r.base == pathBase.value
    ensures var rel := if r.Plain? then r.s else if r.Joined? then r.rel else "";
      (rel == [] || rel[0] != '/') && |rel| <= |StrOf(path)| && StrOf(path)[|StrOf(path)| - |rel|..] == rel &&
      forall i :: 0 <= i < |StrOf(path)| - |rel| ==> StrOf(path)[i] == '/'
  {
    var rel := LStrip(StrOf(path), {'/'});
    if pathBase.None? then Plain(rel) else Joined(pathBase.value, rel)
  }

  /** Only leading `/`s go, so a relative path is returned as given. */
  lemma GetPathRelative(path: string)
    requires path == [] || path[0] != '/'
    ensures GetPath(None, PyStr(path)) == Plain(path)
  {
  }

  /** `get_join(key, val, glue, default)`: `glue.join([prefix, val])`, the
      prefix being the config entry for `key` (or `""`) when a key is given
      and `default` otherwise; `join` accepts only strings. */
  function GetJoin(config: seq<(string, Value)>, key: Option<string>, val: Value, glue: Value, default: Value): (r: Result<string>)
    ensures var prefix := if key.None? then default
      else if Lookup(config, key.value).Some? then Lookup(config, key.value).value else PyStr("");
      r.Ok? <==> prefix.PyStr? && val.PyStr?
    ensures r.Ok? ==> exists prefix: string :: r.value == prefix + StrOf(glue) + val.s
    ensures r.Ok? && key.Some? && !HasKey(config, key.value) ==> r.value == StrOf(glue) + val.s
  {
    var prefix := match key
      case None => default
      case Some(k) => match Lookup(config, k) case Some(p) => p case None => PyStr("");
    if prefix.PyStr? && val.PyStr? then
      assert prefix.s + StrOf(glue) + val.s == Join([prefix.s, val.s], StrOf(glue));
      Ok(Join([prefix.s, val.s], StrOf(glue)))
    else Err(TypeError)
  }

  /** With a key, the prefix comes from the config; without one, from the
      default. */
  lemma GetJoinPrefix(config: seq<(string, Value)>, key: Option<string>, val: string, glue: string, default: string)
    ensures key.None? ==> GetJoin(config, key, PyStr(val), PyStr(glue), PyStr(default)) == Ok(default + glue + val)
    ensures key.Some? && Lookup(config, key.value) == Some(PyStr(default)) ==>
      GetJoin(config, key, PyStr(val), PyStr(glue), PyStr("")) == Ok(default + glue + val)
  {
  }

  const ConfigVersion := 1
  const ConfigSubversion := 20241000

  /** The suffix `set_config_path` gives the config file. */
  function ConfigSuffix(version: int, subversion: int): string {
    ".v" + IntToString(version) + "." + IntToString(subversion) + ".config.gz"
  }

  /** `set_config_path()`: `{name}.v{version}.{subversion}.config.gz`, put
      under `path_base` (with the suffix applied by `with_suffix`) when one
      is set. */
  function ConfigPath(name: string, pathBase: Option<string>): (r: PathValue)
    ensures pathBase.None? ==> r == Plain(name + ".v1.20241000.config.gz")
    ensures pathBase.Some? ==> r == JoinedWithSuffix(pathBase.value, name, ".v1.20241000.config.gz")
  {
    var suffix := ConfigSuffix(ConfigVersion, ConfigSubversion);
    SuffixText();
    if pathBase.None? then Plain(name + suffix) else JoinedWithSuffix(pathBase.value, name, suffix)
  }

  lemma SuffixText()
    ensures ConfigSuffix(ConfigVersion, ConfigSubversion) == ".v1.20241000.config.gz"
  {
    assert IntToString(1) == "1";
    SubversionText();
  }

  lemma SubversionText()
    ensures IntToString(20241000) == "20241000"
  {
    assert NatToString(2) == "2";
    assert NatToString(20) == "20";
    assert NatToString(202) == "202";
    assert NatToString(2024) == "2024";
    assert NatToString(20241) == "20241";
    assert NatToString(202410) == "202410";
    assert NatToString(2024100) == "2024100";
  }

  /** The name can be read back from the file name. */
  lemma ConfigPathName(name: string)
    ensures var f := ConfigPath(name, None).s;
      |f| > |name| && f[..|name|] == name && f[|name|..] == ConfigSuffix(ConfigVersion, ConfigSubversion)
  {
    var f := ConfigPath(name, None).s;
    assert f == name + ".v1.20241000.config.gz";
  }
}
