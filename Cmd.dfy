/** The command-line helpers of `CommandUtility` (core/cmd.py): building an
    argument vector, reading back unregistered `-k v` / `--k=v` tokens,
    unwrapping single values, the `nargs` guess and the worker count. */
module Cmd {
  import opened StrOps
  import opened PyValue

  // ---------------------------------------------------------------------
  // _format_command

  /** What one keyword value contributes: the items of a list or tuple,
      otherwise the value itself. */
  function ValueTokens(v: Value): seq<Value> {
    if v.PyList? || v.PyTuple? then v.items else [v]
  }

  /** The tokens the keyword arguments contribute, in order: `-key` and
      then its value tokens. */
  function KwargTokens(kwargs: seq<(string, Value)>): seq<Value> {
    if kwargs == [] then []
    else
      var last := kwargs[|kwargs| - 1];
      KwargTokens(kwargs[..|kwargs| - 1]) + [PyStr("-" + last.0)] + ValueTokens(last.1)
  }

  /** `_format_command(*args, **kwargs)`: the positional arguments, then
      each keyword as `-key` followed by its value or its items, every
      token passed through `str`. */
  method FormatCommand(args: seq<Value>, kwargs: seq<(string, Value)>) returns (r: seq<string>)
    ensures r == StrsOf(args + KwargTokens(kwargs))
    ensures |r| >= |args| && r[..|args|] == StrsOf(args)
  {
    var command := args;
    for k := 0 to |kwargs|
      invariant command == args + KwargTokens(kwargs[..k])
    {
      var key, value := kwargs[k].0, kwargs[k].1;
      var before := command;
      command := command + [PyStr("-" + key)];
      if value.PyList? || value.PyTuple? {
        command := command + value.items;
      } else {
        command := command + [value];
      }
      assert command == before + [PyStr("-" + key)] + ValueTokens(value);
      KwargTokensPrefix(kwargs, k);
    }
    assert kwargs[..|kwargs|] == kwargs;
    r := StrsOf(command);
    StrsOfConcat(args, KwargTokens(kwargs));
  }

  /** One more keyword adds its flag and value tokens at the end. */
  lemma KwargTokensPrefix(kwargs: seq<(string, Value)>, k: nat)
    requires k < |kwargs|
    ensures KwargTokens(kwargs[..k + 1]) ==
      KwargTokens(kwargs[..k]) + [PyStr("-" + kwargs[k].0)] + ValueTokens(kwargs[k].1)
  {
    assert kwargs[..k + 1][..k] == kwargs[..k];
  }

  // ---------------------------------------------------------------------
  // flatten_args

  /** `_v[0] if len(_v) == 1 else _v` for one value of the mapping. A
      one-entry dict is indexed by `0`, which is never a key here; a value
      without `len` raises `TypeError`. */
  function Unwrap(v: Value): (r: Result<Value>)
    ensures (v.PyList? || v.PyTuple?) && |v.items| == 1 ==> r == Ok(v.items[0])
    ensures (v.PyList? || v.PyTuple?) && |v.items| != 1 ==> r == Ok(v)
    ensures v.PyStr? ==> r == Ok(v)
    ensures r.Err? <==> v.PyNone? || v.PyBool? || v.PyInt? || (v.PyDict? && |v.entries| == 1)
  {
    match v
    case PyList(items) => Ok(if |items| == 1 then items[0] else v)
    case PyTuple(items) => Ok(if |items| == 1 then items[0] else v)
    case PyStr(s) => Ok(v)
    case PyBytes(bs) => Ok(if |bs| == 1 then PyInt(bs[0] as int) else v)
    case PyDict(entries) => if |entries| == 1 then Err(KeyError) else Ok(v)
    case _ => Err(TypeError)
  }

  function UnwrapAll(entries: seq<(string, Value)>): (r: Result<seq<(string, Value)>>)
    ensures r.Ok? ==> Keys(r.value) == Keys(entries)
    ensures r.Ok? ==> forall i :: 0 <= i < |entries| ==> Unwrap(entries[i].1) == Ok(r.value[i].1)
    ensures r.Err? ==> exists i :: 0 <= i < |entries| && Unwrap(entries[i].1) == Err(r.error)
  {
    if entries == [] then Ok([])
    else
      match Unwrap(entries[0].1)
      case Err(e) => Err(e)
      case Ok(v) =>
        match UnwrapAll(entries[1..])
        case Err(e) =>
          var i :| 0 <= i < |entries| - 1 && Unwrap(entries[1..][i].1) == Err(e);
          assert entries[i + 1] == entries[1..][i];
          Err(e)
        case Ok(rest) =>
          assert forall i :: 1 <= i < |entries| ==> entries[i] == entries[1..][i - 1];
          Ok([(entries[0].0, v)] + rest)
  }

  /** `flatten_args(mapping)`: `{}` for anything but a dict. */
  function FlattenArgs(mapping: Value): (r: Result<Value>)
    ensures !mapping.PyDict? ==> r == Ok(PyDict([]))
    ensures mapping.PyDict? && r.Ok? ==> r.value.PyDict? && Keys(r.value.entries) == Keys(mapping.entries)
  {
    if !mapping.PyDict? then Ok(PyDict([]))
    else
      match UnwrapAll(mapping.entries)
      case Err(e) => Err(e)
      case Ok(es) => Ok(PyDict(es))
  }

  // ---------------------------------------------------------------------
  // unregistered_arg_parser

  /** The loop state: the aggregated values per key and the current key. */
  datatype ParserState = ParserState(agg: seq<(string, seq<string>)>, key: Option<string>)

  const Initial := ParserState([], None)

  /** The key and attached value of a dash token: dashes stripped from both
      ends, then split at the first `=`. */
  function KeyOf(token: string): (string, string) {
    var stripped := Strip(token, {'-'});
    match Find(stripped, "=")
    case None => (stripped, "")
    case Some(j) => (stripped[..j], stripped[j + 1..])
  }

  function ValuesOf(agg: seq<(string, seq<string>)>, k: string): seq<string> {
    match Lookup(agg, k)
    case None => []
    case Some(vs) => vs
  }

  /** A token starting with `-`: its name becomes the current key, a new
      key starts at `[]`, and a non-empty `=` value is appended. */
  function DashToken(st: ParserState, k: string, attached: string): ParserState {
    var agg1 := if HasKey(st.agg, k) then st.agg else Assign(st.agg, k, []);
    var agg2 := if |attached| > 0 then Assign(agg1, k, ValuesOf(agg1, k) + [attached]) else agg1;
    ParserState(agg2, Some(k))
  }

  /** Any other token: appended under the current key, if there is one. */
  function BareToken(st: ParserState, token: string): ParserState {
    if st.key.Some? && st.key.value != "" && HasKey(st.agg, st.key.value) then
      ParserState(Assign(st.agg, st.key.value, ValuesOf(st.agg, st.key.value) + [token]), st.key)
    else st
  }

  /** One iteration of the loop. */
  function Step(st: ParserState, token: string): ParserState {
    if StartsWith(token, "-") then DashToken(st, KeyOf(token).0, KeyOf(token).1) else BareToken(st, token)
  }

  /** The state after `step` has consumed `tokens`, one at a time. */
  function Fold(step: (ParserState, string) -> ParserState, st: ParserState, tokens: seq<string>): ParserState {
    if tokens == [] then st
    else step(Fold(step, st, tokens[..|tokens| - 1]), tokens[|tokens| - 1])
  }

  /** The state after the loop has consumed `tokens`. */
  function Run(st: ParserState, tokens: seq<string>): ParserState {
    Fold(Step, st, tokens)
  }

  /** The aggregated lists as Python values. */
  function AggValue(agg: seq<(string, seq<string>)>): (v: Value)
    ensures v.PyDict? && |v.entries| == |agg|
    ensures forall i :: 0 <= i < |agg| ==> v.entries[i] == (agg[i].0, PyList(PyStrs(agg[i].1)))
  {
    PyDict(seq(|agg|, i requires 0 <= i < |agg| => (agg[i].0, PyList(PyStrs(agg[i].1)))))
  }

  /** The aggregate is recovered from its Python value: the keys in order,
      and `str` of each list item gives back the tokens. */
  lemma AggValueRoundTrip(agg: seq<(string, seq<string>)>)
    ensures AggValue(agg).PyDict? && Keys(AggValue(agg).entries) == Keys(agg)
    ensures forall i :: 0 <= i < |agg| ==>
      AggValue(agg).entries[i].1.PyList? && StrsOf(AggValue(agg).entries[i].1.items) == agg[i].1
  {
    forall i | 0 <= i < |agg|
      ensures StrsOf(AggValue(agg).entries[i].1.items) == agg[i].1
    {
      StrsOfPyStrs(agg[i].1);
    }
  }

  /** What `flatten_args` makes of the aggregate: it never fails, keeps the
      keys in order, turns a single value into that string and keeps every
      other list, `[]` for a bare flag included. */
  lemma FlattenAggregate(agg: seq<(string, seq<string>)>)
    ensures FlattenArgs(AggValue(agg)).Ok?
    ensures var d := FlattenArgs(AggValue(agg)).value;
      d.PyDict? && |d.entries| == |agg| &&
      forall i :: 0 <= i < |agg| ==>
        d.entries[i] == (agg[i].0, if |agg[i].1| == 1 then PyStr(agg[i].1[0]) else PyList(PyStrs(agg[i].1)))
  {
    var entries := AggValue(agg).entries;
    forall i | 0 <= i < |entries| ensures Unwrap(entries[i].1).Ok? {
      assert entries[i].1.PyList?;
    }
  }

  /** `unregistered_arg_parser(tokens)`. */
  method UnregisteredArgParser(tokens: seq<string>) returns (r: Result<Value>)
    ensures r == FlattenArgs(AggValue(Run(Initial, tokens).agg))
  {
    var agg: seq<(string, seq<string>)> := [];
    var key: Option<string> := None;
    for i := 0 to |tokens|
      invariant ParserState(agg, key) == Run(Initial, tokens[..i])
    {
      ghost var before := ParserState(agg, key);
      var ua := tokens[i];
      if StartsWith(ua, "-") {
        var (k, attached) := KeyOf(ua);
        key := Some(k);
        if !HasKey(agg, k) {
          agg := Assign(agg, k, []);
        }
        if |attached| > 0 {
          agg := Assign(agg, k, ValuesOf(agg, k) + [attached]);
        }
        assert ParserState(agg, key) == DashToken(before, k, attached);
      } else if key.Some? && key.value != "" && HasKey(agg, key.value) {
        agg := Assign(agg, key.value, ValuesOf(agg, key.value) + [ua]);
      }
      assert ParserState(agg, key) == Step(before, ua);
      RunPrefix(Initial, tokens, i);
    }
    assert tokens[..|tokens|] == tokens;
    r := FlattenArgs(AggValue(agg));
  }

  lemma RunLast(st: ParserState, tokens: seq<string>)
    requires tokens != []
    ensures Run(st, tokens) == Step(Run(st, tokens[..|tokens| - 1]), tokens[|tokens| - 1])
  {
  }

  lemma RunPrefix(st: ParserState, tokens: seq<string>, i: nat)
    requires i < |tokens|
    ensures Run(st, tokens[..i + 1]) == Step(Run(st, tokens[..i]), tokens[i])
  {
    RunLast(st, tokens[..i + 1]);
    assert tokens[..i + 1][..i] == tokens[..i];
  }

  /** Running over `p + q` is running over `p`, then over `q`. */
  lemma {:induction false} FoldConcat(step: (ParserState, string) -> ParserState, st: ParserState, p: seq<string>, q: seq<string>)
    ensures Fold(step, st, p + q) == Fold(step, Fold(step, st, p), q)
    decreases |q|
  {
    if q == [] {
      assert p + q == p;
    } else {
      var pq := p + q;
      var q' := q[..|q| - 1];
      assert pq[..|pq| - 1] == p + q';
      FoldConcat(step, st, p, q');
    }
  }

  lemma RunConcat(st: ParserState, p: seq<string>, q: seq<string>)
    ensures Run(st, p + q) == Run(Run(st, p), q)
  {
    FoldConcat(Step, st, p, q);
  }

  /** A dash token makes its stripped name the current key; an existing
      key keeps its values (no reset), a new one starts at `[]`, and a
      non-empty `=` value is appended. Other keys are untouched. */
  lemma DashStep(st: ParserState, token: string, k: string, attached: string, other: string)
    requires StartsWith(token, "-") && KeyOf(token) == (k, attached)
    ensures Step(st, token).key == Some(k)
    ensures Lookup(Step(st, token).agg, k) == Some(ValuesOf(st.agg, k) + (if |attached| > 0 then [attached] else []))
    ensures other != k ==> Lookup(Step(st, token).agg, other) == Lookup(st.agg, other)
  {
    var agg1 := if HasKey(st.agg, k) then st.agg else Assign(st.agg, k, []);
    assert Lookup(agg1, k) == Some(ValuesOf(st.agg, k)) by {
      AssignLookup(st.agg, k, [], k);
    }
    assert Lookup(agg1, other) == Lookup(st.agg, other) || other == k by {
      AssignLookup(st.agg, k, [], other);
    }
    assert Step(st, token) == DashToken(st, k, attached);
    if |attached| > 0 {
      var agg2 := Assign(agg1, k, ValuesOf(agg1, k) + [attached]);
      assert DashToken(st, k, attached).agg == agg2;
      AssignLookup(agg1, k, ValuesOf(agg1, k) + [attached], k);
      AssignLookup(agg1, k, ValuesOf(agg1, k) + [attached], other);
    } else {
      assert DashToken(st, k, attached).agg == agg1;
      assert ValuesOf(st.agg, k) + [] == ValuesOf(st.agg, k);
    }
  }

  /** Tokens that do not start with `-` before any key change nothing. */
  lemma {:induction false} LeadingBareIgnored(p: seq<string>, q: seq<string>)
    requires forall i :: 0 <= i < |p| ==> !StartsWith(p[i], "-")
    ensures Run(Initial, p + q) == Run(Initial, q)
  {
    BareFromInitial(p);
    RunConcat(Initial, p, q);
  }

  lemma {:induction false} BareFromInitial(p: seq<string>)
    requires forall i :: 0 <= i < |p| ==> !StartsWith(p[i], "-")
    ensures Run(Initial, p) == Initial
  {
    if p != [] {
      BareFromInitial(p[..|p| - 1]);
    }
  }

  /** The current key is always a key of the aggregate. */
  lemma {:induction false} CurrentKeyPresent(tokens: seq<string>)
    ensures Run(Initial, tokens).key.Some? ==> HasKey(Run(Initial, tokens).agg, Run(Initial, tokens).key.value)
  {
    if tokens != [] {
      var prev := tokens[..|tokens| - 1];
      var t := tokens[|tokens| - 1];
      CurrentKeyPresent(prev);
      var st := Run(Initial, prev);
      if StartsWith(t, "-") {
        DashStep(st, t, KeyOf(t).0, KeyOf(t).1, "");
      } else if st.key.Some? && st.key.value != "" && HasKey(st.agg, st.key.value) {
        AssignHasKey(st.agg, st.key.value, ValuesOf(st.agg, st.key.value) + [t], st.key.value);
      }
    }
  }

  /** A later bare token is appended to the most recent key. */
  lemma BareAppends(tokens: seq<string>, token: string, other: string)
    requires !StartsWith(token, "-")
    requires Run(Initial, tokens).key.Some? && Run(Initial, tokens).key.value != ""
    ensures var st := Run(Initial, tokens);
      var k := st.key.value;
      var st' := Run(Initial, tokens + [token]);
      Lookup(st'.agg, k) == Some(ValuesOf(st.agg, k) + [token]) &&
      (other != k ==> Lookup(st'.agg, other) == Lookup(st.agg, other))
  {
    var st := Run(Initial, tokens);
    assert (tokens + [token])[..|tokens|] == tokens;
    CurrentKeyPresent(tokens);
    AssignLookup(st.agg, st.key.value, ValuesOf(st.agg, st.key.value) + [token], st.key.value);
    AssignLookup(st.agg, st.key.value, ValuesOf(st.agg, st.key.value) + [token], other);
  }

  /** The names of the dash tokens, in order, repeats included. */
  function DashNames(tokens: seq<string>): seq<string> {
    if tokens == [] then []
    else
      var t := tokens[|tokens| - 1];
      DashNames(tokens[..|tokens| - 1]) + (if StartsWith(t, "-") then [KeyOf(t).0] else [])
  }

  /** `xs` with every repeat after the first occurrence dropped. */
  function FirstOccurrences(xs: seq<string>): (r: seq<string>)
    ensures forall x :: x in r <==> x in xs
  {
    if xs == [] then []
    else
      var prev := xs[..|xs| - 1];
      var x := xs[|xs| - 1];
      assert xs == prev + [x];
      FirstOccurrences(prev) + (if x in prev then [] else [x])
  }

  lemma HasKeyKeys<V>(entries: seq<(string, V)>, k: string)
    ensures HasKey(entries, k) <==> k in Keys(entries)
  {
    if k in Keys(entries) {
      var i :| 0 <= i < |entries| && Keys(entries)[i] == k;
    }
  }

  lemma KeysAppend<V>(entries: seq<(string, V)>, k: string, v: V)
    ensures Keys(entries + [(k, v)]) == Keys(entries) + [k]
  {
    assert forall i :: 0 <= i < |entries| ==> (entries + [(k, v)])[i] == entries[i];
  }

  /** One token adds its name to the keys only when it is a dash token
      with a name not seen before; otherwise the keys stay as they are. */
  lemma StepKeys(st: ParserState, t: string)
    ensures Keys(Step(st, t).agg) ==
      Keys(st.agg) + (if StartsWith(t, "-") && !HasKey(st.agg, KeyOf(t).0) then [KeyOf(t).0] else [])
  {
    if StartsWith(t, "-") {
      var (k, attached) := KeyOf(t);
      var agg1 := if HasKey(st.agg, k) then st.agg else Assign(st.agg, k, []);
      assert Keys(agg1) == Keys(st.agg) + (if HasKey(st.agg, k) then [] else [k]) by {
        if !HasKey(st.agg, k) {
          AssignAppends(st.agg, k, []);
          KeysAppend(st.agg, k, []);
        }
      }
      assert Step(st, t) == DashToken(st, k, attached);
      if |attached| > 0 {
        AssignHasKey(st.agg, k, [], k);
        AssignKeys(agg1, k, ValuesOf(agg1, k) + [attached]);
      }
    } else if st.key.Some? && st.key.value != "" && HasKey(st.agg, st.key.value) {
      AssignKeys(st.agg, st.key.value, ValuesOf(st.agg, st.key.value) + [t]);
    }
  }

  /** The keys are the names of the dash tokens, in order of first
      appearance. */
  lemma {:induction false} KeysInOrder(tokens: seq<string>)
    ensures Keys(Run(Initial, tokens).agg) == FirstOccurrences(DashNames(tokens))
  {
    if tokens != [] {
      var prev := tokens[..|tokens| - 1];
      var t := tokens[|tokens| - 1];
      KeysInOrder(prev);
      RunLast(Initial, tokens);
      var st := Run(Initial, prev);
      StepKeys(st, t);
      if StartsWith(t, "-") {
        var names := DashNames(prev);
        var k := KeyOf(t).0;
        HasKeyKeys(st.agg, k);
        assert DashNames(tokens) == names + [k];
        assert (names + [k])[..|names|] == names;
        assert FirstOccurrences(names + [k]) == FirstOccurrences(names) + (if k in names then [] else [k]);
        assert k in names <==> HasKey(st.agg, k);
      } else {
        assert DashNames(prev) + [] == DashNames(prev);
        assert Keys(st.agg) + [] == Keys(st.agg);
      }
    }
  }

  /** Hence a name is a key exactly when some dash token carries it. */
  lemma KeysAreDashNames(tokens: seq<string>, k: string)
    ensures HasKey(Run(Initial, tokens).agg, k) <==> k in DashNames(tokens)
  {
    KeysInOrder(tokens);
    HasKeyKeys(Run(Initial, tokens).agg, k);
  }

  // ---------------------------------------------------------------------
  // Round trip: parsing what _format_command builds

  /** A keyword name that survives `strip("-")` and holds no `=`. */
  predicate CleanKey(k: string) {
    k != [] && k[0] != '-' && k[|k| - 1] != '-' && forall j :: 0 <= j < |k| ==> k[j] != '='
  }

  /** Keyword values given as lists of strings. */
  function AsKwargs(kw: seq<(string, seq<string>)>): (r: seq<(string, Value)>)
    ensures |r| == |kw|
  {
    if kw == [] then []
    else AsKwargs(kw[..|kw| - 1]) + [(kw[|kw| - 1].0, PyList(PyStrs(kw[|kw| - 1].1)))]
  }

  lemma KeyOfClean(k: string)
    requires CleanKey(k)
    ensures KeyOf("-" + k) == (k, "")
  {
    var t := "-" + k;
    var dash: set<char> := {'-'};
    assert t[0] in dash && t[1..] == k;
    assert LStrip(t, dash) == LStrip(k, dash);
    assert k[0] !in dash;
    assert LStrip(k, dash) == k;
    assert k[|k| - 1] !in dash;
    assert RStrip(k, dash) == k;
    assert Strip(t, dash) == k;
    assert "=" == ['='];
    NoCharNotFound(k, '=');
  }

  lemma {:induction false} StrsOfPyStrs(xs: seq<string>)
    ensures StrsOf(PyStrs(xs)) == xs
  {
    if xs != [] {
      assert PyStrs(xs)[1..] == PyStrs(xs[1..]);
      StrsOfPyStrs(xs[1..]);
    }
  }

  /** The bare values after `-k` all land under `k`, in order. */
  lemma {:induction false} RunValues(a: seq<(string, seq<string>)>, k: string, xs: seq<string>, vs: seq<string>)
    requires k != [] && !HasKey(a, k)
    requires forall i :: 0 <= i < |vs| ==> !StartsWith(vs[i], "-")
    ensures Run(ParserState(a + [(k, xs)], Some(k)), vs) == ParserState(a + [(k, xs + vs)], Some(k))
  {
    var st := ParserState(a + [(k, xs)], Some(k));
    if vs == [] {
      assert xs + vs == xs;
    } else {
      var prev := vs[..|vs| - 1];
      var v := vs[|vs| - 1];
      RunValues(a, k, xs, prev);
      RunLast(st, vs);
      var mid := ParserState(a + [(k, xs + prev)], Some(k));
      assert vs == prev + [v];
      assert xs + vs == (xs + prev) + [v];
      assert Step(mid, v) == ParserState(a + [(k, xs + vs)], Some(k)) by {
        assert !StartsWith(v, "-");
        AssignLast(a, k, xs + prev, xs + vs);
        assert HasKey(mid.agg, k) by { assert mid.agg[|a|].0 == k; }
        assert ValuesOf(mid.agg, k) == xs + prev;
      }
    }
  }

  /** One keyword's tokens, read from a state that does not know the key. */
  lemma RunEntry(st: ParserState, k: string, vs: seq<string>)
    requires CleanKey(k) && !HasKey(st.agg, k)
    requires forall i :: 0 <= i < |vs| ==> !StartsWith(vs[i], "-")
    ensures Run(st, ["-" + k] + vs).agg == st.agg + [(k, vs)]
  {
    KeyOfClean(k);
    var t := "-" + k;
    assert StartsWith(t, "-");
    RunLast(st, [t]);
    assert [t][..0] == [];
    var st1 := ParserState(st.agg + [(k, [])], Some(k));
    assert Step(st, t) == st1 by {
      AssignAppends(st.agg, k, []);
      assert Step(st, t) == DashToken(st, k, "");
    }
    RunConcat(st, [t], vs);
    RunValues(st.agg, k, [], vs);
    assert [] + vs == vs;
  }

  /** The tokens of the last keyword follow those of the others. */
  lemma FormattedLast(kw: seq<(string, seq<string>)>)
    requires kw != []
    ensures StrsOf(KwargTokens(AsKwargs(kw))) ==
      StrsOf(KwargTokens(AsKwargs(kw[..|kw| - 1]))) + (["-" + kw[|kw| - 1].0] + kw[|kw| - 1].1)
  {
    var n := |kw| - 1;
    var k, vs := kw[n].0, kw[n].1;
    var before := KwargTokens(AsKwargs(kw[..n]));
    assert KwargTokens(AsKwargs(kw)) == before + [PyStr("-" + k)] + PyStrs(vs) by {
      var prefix := AsKwargs(kw[..n]);
      assert (prefix + [(k, PyList(PyStrs(vs)))])[..n] == prefix;
    }
    var flag := [PyStr("-" + k)];
    assert StrsOf(flag) == ["-" + k] by {
      assert flag[1..] == [];
    }
    calc {
      StrsOf(before + flag + PyStrs(vs));
      { StrsOfConcat(before + flag, PyStrs(vs)); }
      StrsOf(before + flag) + StrsOf(PyStrs(vs));
      { StrsOfConcat(before, flag); StrsOfPyStrs(vs); }
      StrsOf(before) + ["-" + k] + vs;
      { SeqAssoc(StrsOf(before), ["-" + k], vs); }
      StrsOf(before) + (["-" + k] + vs);
    }
  }

  lemma SeqLast<T>(s: seq<T>)
    requires s != []
    ensures s == s[..|s| - 1] + [s[|s| - 1]]
  {
  }

  /** Keywords `_format_command` can render unambiguously: clean, distinct
      names and values that do not start with `-`. */
  predicate Formattable(kw: seq<(string, seq<string>)>) {
    (forall i :: 0 <= i < |kw| ==> CleanKey(kw[i].0)) &&
    DistinctKeys(kw) &&
    (forall i, j :: 0 <= i < |kw| && 0 <= j < |kw[i].1| ==> !StartsWith(kw[i].1[j], "-"))
  }

  /** No value starts with `-`, so none is read as a flag. */
  predicate NoDashLed(vs: seq<string>) {
    forall j :: 0 <= j < |vs| ==> !StartsWith(vs[j], "-")
  }

  /** Without its last keyword, a renderable list stays renderable, and the
      last keyword is clean, new and has no dash-led value. */
  lemma FormattablePrefix(kw: seq<(string, seq<string>)>)
    requires kw != [] && Formattable(kw)
    ensures Formattable(kw[..|kw| - 1])
    ensures CleanKey(kw[|kw| - 1].0) && !HasKey(kw[..|kw| - 1], kw[|kw| - 1].0)
    ensures NoDashLed(kw[|kw| - 1].1)
  {
    var prev := kw[..|kw| - 1];
    DistinctPrefix(kw);
    forall i | 0 <= i < |prev| ensures CleanKey(prev[i].0) {
      assert prev[i] == kw[i];
    }
    forall i, j | 0 <= i < |prev| && 0 <= j < |prev[i].1| ensures !StartsWith(prev[i].1[j], "-") {
      assert prev[i] == kw[i];
    }
  }

  /** Parsing the tokens `_format_command` builds from keywords with clean,
      distinct names and values that do not start with `-` gives back the
      keywords. */
  lemma {:induction false} ParseFormatted(kw: seq<(string, seq<string>)>)
    requires Formattable(kw)
    ensures Run(Initial, StrsOf(KwargTokens(AsKwargs(kw)))).agg == kw
  {
    if kw != [] {
      FormattablePrefix(kw);
      ParseFormatted(kw[..|kw| - 1]);
      ParseLast(kw);
    }
  }

  /** If the tokens of all but the last keyword parse back, so do the
      tokens of all of them, provided the last keyword is clean, new and
      has no dash-led value. */
  lemma {:induction false} ParseLast(kw: seq<(string, seq<string>)>)
    requires kw != []
    requires Run(Initial, StrsOf(KwargTokens(AsKwargs(kw[..|kw| - 1])))).agg == kw[..|kw| - 1]
    requires CleanKey(kw[|kw| - 1].0) && !HasKey(kw[..|kw| - 1], kw[|kw| - 1].0)
    requires NoDashLed(kw[|kw| - 1].1)
    ensures Run(Initial, StrsOf(KwargTokens(AsKwargs(kw)))).agg == kw
  {
    var prev := kw[..|kw| - 1];
    var entry := kw[|kw| - 1];
    SeqLast(kw);
    FormattedLast(kw);
    ParseAppended(StrsOf(KwargTokens(AsKwargs(prev))), StrsOf(KwargTokens(AsKwargs(kw))), prev, kw, entry);
  }

  /** Tokens `p` that parse to `prev`, followed by one new keyword's tokens,
      parse to `prev` with that keyword added. */
  lemma {:induction false} ParseAppended(p: seq<string>, t: seq<string>, prev: seq<(string, seq<string>)>,
                                         kw: seq<(string, seq<string>)>, entry: (string, seq<string>))
    requires t == p + (["-" + entry.0] + entry.1) && kw == prev + [entry]
    requires Run(Initial, p).agg == prev
    requires CleanKey(entry.0) && !HasKey(prev, entry.0) && NoDashLed(entry.1)
    ensures Run(Initial, t).agg == kw
  {
    RunConcat(Initial, p, ["-" + entry.0] + entry.1);
    RunEntry(Run(Initial, p), entry.0, entry.1);
  }

  // ---------------------------------------------------------------------
  // guess_nargs_from_default

  /** `guess_nargs_from_default(default)`: `"*"` for a string default, and
      `None` otherwise (a collection takes the bare `return`; any other
      value falls off the end). */
  function GuessNargs(default: Value): (r: Option<string>)
    ensures r.Some? <==> default.PyStr?
    ensures r.Some? ==> r.value == "*"
  {
    if default.PyNone? then None
    else if default.PyStr? then Some("*")
    else None
  }

  // ---------------------------------------------------------------------
  // _get_max_workers

  /** `min(2 * cores, 32)`. */
  function WorkerCount(cores: int): (n: int)
    ensures n <= 32 && n <= 2 * cores
    ensures n == 32 || n == 2 * cores
    ensures cores >= 1 ==> n >= 2
  {
    if 2 * cores < 32 then 2 * cores else 32
  }

  /** The state of `CommandUtility` that `_get_max_workers` updates. */
  class CommandUtility {
    var maxWorkers: Option<int>

    constructor ()
      ensures maxWorkers == None
    {
      maxWorkers := None;
    }

    /** `_get_max_workers()` with `os.cpu_count()` passed in as `cores`;
        `None` (count unknown) makes `2 * None` raise `TypeError`. */
    method GetMaxWorkers(cores: Option<int>) returns (r: Result<int>)
      modifies this
      ensures cores.None? ==> r == Err(TypeError) && maxWorkers == old(maxWorkers)
      ensures cores.Some? ==> r == Ok(WorkerCount(cores.value)) && maxWorkers == Some(r.value)
    {
      if cores.None? {
        return Err(TypeError);
      }
      var n := WorkerCount(cores.value);
      maxWorkers := Some(n);
      r := Ok(n);
    }
  }
}
