/** The attribute handling of `BaseUtility` (core/base.py): an object's
    attributes as a map from names to values, updated by `update_attributes`,
    `_setattrs` and `__call__`, and the choice of `path_base` among several
    candidate paths by `set_project_paths`. */
module Base {
  import opened StrOps
  import opened PyValue

  // ---------------------------------------------------------------------
  // The attribute map after an update

  /** `path_base` and its alias `pwd` are a property of the class:
      `hasattr` always finds them and `setattr` runs the setter, so they
      are never plain attributes. */
  predicate IsPathKey(k: string) {
    k == "path_base" || k == "pwd"
  }

  /** No plain attribute shadows the property. */
  predicate NoPathKeys(attrs: map<string, Value>) {
    "path_base" !in attrs && "pwd" !in attrs
  }

  /** The plain attributes after `setattr(obj, k, defaults[k])` for each
      default `k` the object lacks, in order; the property is never
      lacking. */
  function WithDefaults(attrs: map<string, Value>, defaults: seq<(string, Value)>): map<string, Value> {
    if defaults == [] then attrs
    else
      var m := WithDefaults(attrs, defaults[..|defaults| - 1]);
      var (k, v) := defaults[|defaults| - 1];
      if k in m || IsPathKey(k) then m else m[k := v]
  }

  /** The plain attributes after `setattr(obj, k, kw[k])` for each `k`, in
      order; a property key goes to the setter instead. */
  function WithKw(attrs: map<string, Value>, kw: seq<(string, Value)>): map<string, Value> {
    if kw == [] then attrs
    else
      var (k, v) := kw[|kw| - 1];
      var m := WithKw(attrs, kw[..|kw| - 1]);
      if IsPathKey(k) then m else m[k := v]
  }

  /** `path_base` after the same `setattr` calls: the setter runs for each
      property key, so the last one wins. */
  function KwPathBase(pathBase: PathChoice, kw: seq<(string, Value)>): PathChoice {
    if kw == [] then pathBase
    else
      var (k, v) := kw[|kw| - 1];
      if IsPathKey(k) then Setter(v) else KwPathBase(pathBase, kw[..|kw| - 1])
  }

  /** `update_attributes(obj, kw, defaults)` on the plain attributes of `obj`. */
  function Updated(attrs: map<string, Value>, kw: seq<(string, Value)>, defaults: seq<(string, Value)>): map<string, Value> {
    WithKw(WithDefaults(attrs, defaults), kw)
  }

  lemma {:induction false} WithKwRules(attrs: map<string, Value>, kw: seq<(string, Value)>, k: string)
    requires DistinctKeys(kw)
    ensures HasKey(kw, k) && !IsPathKey(k) ==> k in WithKw(attrs, kw) && Some(WithKw(attrs, kw)[k]) == Lookup(kw, k)
    ensures !HasKey(kw, k) || IsPathKey(k) ==> (k in WithKw(attrs, kw) <==> k in attrs)
    ensures (!HasKey(kw, k) || IsPathKey(k)) && k in attrs ==> WithKw(attrs, kw)[k] == attrs[k]
  {
    if kw != [] {
      var n := |kw| - 1;
      var prefix := kw[..n];
      DistinctPrefix(kw);
      WithKwRules(attrs, prefix, k);
      var m := WithKw(attrs, prefix);
      var (kn, vn) := kw[n];
      var after := WithKw(attrs, kw);
      if kn == k {
        LookupLast(prefix, k, vn);
        assert kw == prefix + [(k, vn)];
        if IsPathKey(k) {
          assert after == m;
        } else {
          assert after == m[k := vn];
        }
      } else {
        assert HasKey(kw, k) <==> HasKey(prefix, k);
        LookupPrefix(kw, k);
        assert k in after <==> k in m;
        assert k in m ==> after[k] == m[k];
      }
    }
  }

  lemma {:induction false} WithDefaultsRules(attrs: map<string, Value>, defaults: seq<(string, Value)>, k: string)
    requires DistinctKeys(defaults)
    ensures k in attrs ==> k in WithDefaults(attrs, defaults) && WithDefaults(attrs, defaults)[k] == attrs[k]
    ensures k !in attrs && HasKey(defaults, k) && !IsPathKey(k) ==>
      k in WithDefaults(attrs, defaults) && Some(WithDefaults(attrs, defaults)[k]) == Lookup(defaults, k)
    ensures k !in attrs && (!HasKey(defaults, k) || IsPathKey(k)) ==> k !in WithDefaults(attrs, defaults)
  {
    if defaults != [] {
      var n := |defaults| - 1;
      var prefix := defaults[..n];
      DistinctPrefix(defaults);
      WithDefaultsRules(attrs, prefix, k);
      var m := WithDefaults(attrs, prefix);
      var (kn, vn) := defaults[n];
      var after := WithDefaults(attrs, defaults);
      if kn == k {
        LookupLast(prefix, k, vn);
        assert defaults == prefix + [(k, vn)];
        if k in m || IsPathKey(k) {
          assert after == m;
        } else {
          assert after == m[k := vn];
        }
      } else {
        assert HasKey(defaults, k) <==> HasKey(prefix, k);
        LookupPrefix(defaults, k);
        assert k in after <==> k in m;
        assert k in m ==> after[k] == m[k];
      }
    }
  }

  /** Without a property key in `kw`, `path_base` is left as it was;
      defaults never reach it. */
  lemma {:induction false} KwPathBaseUnchanged(pathBase: PathChoice, kw: seq<(string, Value)>)
    requires forall i :: 0 <= i < |kw| ==> !IsPathKey(kw[i].0)
    ensures KwPathBase(pathBase, kw) == pathBase
  {
    if kw != [] {
      var prefix := kw[..|kw| - 1];
      assert forall i :: 0 <= i < |prefix| ==> prefix[i] == kw[i];
      KwPathBaseUnchanged(pathBase, prefix);
    }
  }

  /** The setter runs for every property key of `kw`, so the last one wins. */
  lemma {:induction false} KwPathBaseLast(pathBase: PathChoice, kw: seq<(string, Value)>, i: int)
    requires 0 <= i < |kw| && IsPathKey(kw[i].0) && LastPathKey(kw, i)
    ensures KwPathBase(pathBase, kw) == Setter(kw[i].1)
  {
    var n := |kw| - 1;
    if i < n {
      var prefix := kw[..n];
      assert !IsPathKey(kw[n].0);
      assert forall j :: 0 <= j < n ==> prefix[j] == kw[j];
      KwPathBaseLast(pathBase, prefix, i);
    }
  }

  /** No property key follows position `i`. */
  predicate LastPathKey(kw: seq<(string, Value)>, i: int) {
    forall j :: 0 <= j < |kw| && i < j ==> !IsPathKey(kw[j].0)
  }

  /** A key missing from the front part is looked up in the last entry. */
  lemma {:induction false} LookupLast(entries: seq<(string, Value)>, k: string, v: Value)
    requires !HasKey(entries, k)
    ensures Lookup(entries + [(k, v)], k) == Some(v)
  {
    AssignLast(entries, k, v, v);
  }

  /** A key other than the last one's is looked up in the front part. */
  lemma {:induction false} LookupPrefix(entries: seq<(string, Value)>, k: string)
    requires entries != [] && entries[|entries| - 1].0 != k
    ensures Lookup(entries, k) == Lookup(entries[..|entries| - 1], k)
  {
    if |entries| > 1 && entries[0].0 != k {
      assert entries[1..][..|entries| - 2] == entries[..|entries| - 1][1..];
      LookupPrefix(entries[1..], k);
    }
  }

  /** The rules of `update_attributes` for plain attributes: a keyword
      always wins, even over a default applied in the same call; a default
      is applied only to an attribute the object lacks; every other
      attribute is left as it was and no other attribute appears. The
      property keys never become plain attributes. */
  lemma UpdatedRules(attrs: map<string, Value>, kw: seq<(string, Value)>, defaults: seq<(string, Value)>, k: string)
    requires DistinctKeys(kw) && DistinctKeys(defaults)
    ensures HasKey(kw, k) && !IsPathKey(k) ==> k in Updated(attrs, kw, defaults) && Some(Updated(attrs, kw, defaults)[k]) == Lookup(kw, k)
    ensures !HasKey(kw, k) && k in attrs ==> k in Updated(attrs, kw, defaults) && Updated(attrs, kw, defaults)[k] == attrs[k]
    ensures !HasKey(kw, k) && k !in attrs && HasKey(defaults, k) && !IsPathKey(k) ==>
      k in Updated(attrs, kw, defaults) && Some(Updated(attrs, kw, defaults)[k]) == Lookup(defaults, k)
    ensures !HasKey(kw, k) && !HasKey(defaults, k) ==> (k in Updated(attrs, kw, defaults) <==> k in attrs)
    ensures IsPathKey(k) ==> (k in Updated(attrs, kw, defaults) <==> k in attrs)
  {
    WithDefaultsRules(attrs, defaults, k);
    WithKwRules(WithDefaults(attrs, defaults), kw, k);
  }

  /** Without a plain attribute shadowing the property, none appears. */
  lemma UpdatedNoPathKeys(attrs: map<string, Value>, kw: seq<(string, Value)>, defaults: seq<(string, Value)>)
    requires DistinctKeys(kw) && DistinctKeys(defaults) && NoPathKeys(attrs)
    ensures NoPathKeys(Updated(attrs, kw, defaults))
  {
    UpdatedRules(attrs, kw, defaults, "path_base");
    UpdatedRules(attrs, kw, defaults, "pwd");
  }

  // ---------------------------------------------------------------------
  // set_project_paths

  /** What `path_base` is set to: `EntityPath(v)` for a value, or
      `EntityPath(os.getcwd())` when the value is falsy. `EntityPath` and
      the working directory are not part of this model. */
  datatype PathChoice = PathOf(v: Value) | Cwd

  /** Python truthiness. */
  predicate Truthy(v: Value) {
    match v
    case PyNone => false
    case PyBool(b) => b
    case PyInt(i) => i != 0
    case PyStr(s) => s != []
    case PyBytes(bs) => bs != []
    case PyList(items) => items != []
    case PyTuple(items) => items != []
    case PyDict(entries) => entries != []
  }

  /** The `path_base` setter. */
  function Setter(v: Value): PathChoice {
    if Truthy(v) then PathOf(v) else Cwd
  }

  /** The values of a dict, in order. */
  function DictValues(entries: seq<(string, Value)>): (r: seq<Value>)
    ensures |r| == |entries|
    ensures forall i :: 0 <= i < |entries| ==> r[i] == entries[i].1
  {
    if entries == [] then [] else [entries[0].1] + DictValues(entries[1..])
  }

  /** The new `path_base` chosen by `set_project_paths(bases)`: a string is
      taken as it is; in a list or tuple doubled by `* 2`, Windows takes
      index 1 and other systems index 0, and an empty one raises
      `IndexError`; a dict stands for the list of its values; any other
      value changes nothing (`None`). */
  function ChosenPath(bases: Value, isWindows: bool): (r: Result<Option<PathChoice>>) {
    match bases
    case PyStr(s) => Ok(Some(PathOf(bases)))
    case PyList(items) => PickFrom(items, isWindows)
    case PyTuple(items) => PickFrom(items, isWindows)
    case PyDict(entries) => PickFrom(DictValues(entries), isWindows)
    case _ => Ok(None)
  }

  function PickFrom(items: seq<Value>, isWindows: bool): (r: Result<Option<PathChoice>>)
    ensures items == [] <==> r == Err(IndexError)
    ensures |items| >= 2 ==> r == Ok(Some(Setter(if isWindows then items[1] else items[0])))
  {
    var doubled := items + items;
    if isWindows then
      if 1 < |doubled| then Ok(Some(Setter(doubled[1]))) else Err(IndexError)
    else if 0 < |doubled| then Ok(Some(Setter(doubled[0]))) else Err(IndexError)
  }

  /** A single path serves both systems, because of the doubling. */
  lemma SinglePathBothSystems(p: Value)
    ensures ChosenPath(PyList([p]), true) == ChosenPath(PyList([p]), false) == Ok(Some(Setter(p)))
  {
    assert ([p] + [p])[1] == p;
  }

  /** A dict behaves as the list of its values. */
  lemma DictAsValues(entries: seq<(string, Value)>, isWindows: bool)
    ensures ChosenPath(PyDict(entries), isWindows) == ChosenPath(PyList(DictValues(entries)), isWindows)
    ensures entries == [] ==> ChosenPath(PyDict(entries), isWindows) == Err(IndexError)
  {
  }

  // ---------------------------------------------------------------------
  // The object

  class BaseUtility {
    /** Every attribute `hasattr` sees, with its value. */
    var attrs: map<string, Value>
    var pathBase: PathChoice

    constructor (attrs: map<string, Value>)
      ensures this.attrs == attrs && pathBase == Cwd
    {
      this.attrs := attrs;
      pathBase := Cwd;
    }

    /** `update_attributes(obj, kw, defaults)`; `obj == null` stands for
        `obj=None`, which targets `self`. */
    method UpdateAttributes(obj: BaseUtility?, kw: seq<(string, Value)>, defaults: seq<(string, Value)>)
      modifies this, obj
      ensures obj == null ==> attrs == Updated(old(attrs), kw, defaults) && pathBase == KwPathBase(old(pathBase), kw)
      ensures obj != null ==> obj.attrs == Updated(old(obj.attrs), kw, defaults) && obj.pathBase == KwPathBase(old(obj.pathBase), kw)
      ensures obj != null && obj != this ==> attrs == old(attrs) && pathBase == old(pathBase)
    {
      var target := if obj == null then this else obj;
      ghost var start := target.attrs;
      for i := 0 to |defaults|
        invariant target.attrs == WithDefaults(start, defaults[..i])
        invariant target == this || (attrs == old(attrs) && pathBase == old(pathBase))
        invariant target.pathBase == old(target.pathBase)
      {
        assert defaults[..i + 1][..i] == defaults[..i];
        var (k, v) := defaults[i];
        if k !in target.attrs && !IsPathKey(k) {
          target.attrs := target.attrs[k := v];
        }
      }
      assert defaults[..|defaults|] == defaults;
      ghost var afterDefaults := target.attrs;
      for i := 0 to |kw|
        invariant target.attrs == WithKw(afterDefaults, kw[..i])
        invariant target.pathBase == KwPathBase(old(target.pathBase), kw[..i])
        invariant target == this || (attrs == old(attrs) && pathBase == old(pathBase))
      {
        assert kw[..i + 1][..i] == kw[..i];
        var (k, v) := kw[i];
        if IsPathKey(k) {
          target.pathBase := Setter(v);
        } else {
          target.attrs := target.attrs[k := v];
        }
      }
      assert kw[..|kw|] == kw;
    }

    /** `_setattrs(kw)`: every entry of `kw` is set, a property key through
        the setter. */
    method SetAttrs(kw: seq<(string, Value)>)
      modifies this
      ensures attrs == WithKw(old(attrs), kw) && pathBase == KwPathBase(old(pathBase), kw)
    {
      for i := 0 to |kw|
        invariant attrs == WithKw(old(attrs), kw[..i]) && pathBase == KwPathBase(old(pathBase), kw[..i])
      {
        assert kw[..i + 1][..i] == kw[..i];
        if IsPathKey(kw[i].0) {
          pathBase := Setter(kw[i].1);
        } else {
          attrs := attrs[kw[i].0 := kw[i].1];
        }
      }
      assert kw[..|kw|] == kw;
    }

    /** `self(**kwargs)`: `update_attributes(self, kwargs)`, then `self`. */
    method Call(kwargs: seq<(string, Value)>) returns (r: BaseUtility)
      modifies this
      ensures r == this
      ensures attrs == Updated(old(attrs), kwargs, []) && pathBase == KwPathBase(old(pathBase), kwargs)
    {
      UpdateAttributes(this, kwargs, []);
      r := this;
    }

    /** `set_project_paths(bases)` with `is_windows` given. */
    method SetProjectPaths(bases: Value, isWindows: bool) returns (r: Result<()>)
      modifies this
      ensures attrs == old(attrs)
      ensures ChosenPath(bases, isWindows).Err? ==> r == Err(ChosenPath(bases, isWindows).error) && pathBase == old(pathBase)
      ensures ChosenPath(bases, isWindows) == Ok(None) ==> r == Ok(()) && pathBase == old(pathBase)
      ensures ChosenPath(bases, isWindows).Ok? && ChosenPath(bases, isWindows).value.Some? ==>
        r == Ok(()) && pathBase == ChosenPath(bases, isWindows).value.value
    {
      match bases {
        case PyStr(_) =>
          pathBase := PathOf(bases);
          r := Ok(());
        case PyList(items) =>
          r := SetFrom(items, isWindows);
        case PyTuple(items) =>
          r := SetFrom(items, isWindows);
        case PyDict(entries) =>
          r := SetFrom(DictValues(entries), isWindows);
        case _ =>
          r := Ok(());
      }
    }

    method SetFrom(items: seq<Value>, isWindows: bool) returns (r: Result<()>)
      modifies this
      ensures attrs == old(attrs)
      ensures PickFrom(items, isWindows).Err? ==> r == Err(IndexError) && pathBase == old(pathBase)
      ensures PickFrom(items, isWindows).Ok? ==> r == Ok(()) && pathBase == PickFrom(items, isWindows).value.value
    {
      var doubled := items + items;
      var index := if isWindows then 1 else 0;
      if index >= |doubled| {
        return Err(IndexError);
      }
      pathBase := Setter(doubled[index]);
      r := Ok(());
    }
  }
}
