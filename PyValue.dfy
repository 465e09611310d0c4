/** Python values as the library's functions receive and return them, the
    exceptions they raise, and `str()`/`repr()` of a value. A `dict` is an
    ordered list of entries (Python keeps insertion order); `set` and `float`
    are not part of this model. */
module PyValue {
  import opened StrOps

  newtype byte = x: int | 0 <= x < 256

  datatype Value =
    | PyNone
    | PyBool(b: bool)
    | PyInt(i: int)
    | PyStr(s: string)
    | PyBytes(bs: seq<byte>)
    | PyList(items: seq<Value>)
    | PyTuple(items: seq<Value>)
    | PyDict(entries: seq<(string, Value)>)

  /** The exceptions the modelled code can raise. */
  datatype Error = ValueError | TypeError | IndexError | KeyError | RuntimeError | AttributeError

  datatype Result<T> = Ok(value: T) | Err(error: Error)

  // ---------------------------------------------------------------------
  // Ordered dictionaries

  function Keys<V>(entries: seq<(string, V)>): (ks: seq<string>)
    ensures |ks| == |entries|
    ensures forall i :: 0 <= i < |entries| ==> ks[i] == entries[i].0
  {
    if entries == [] then [] else [entries[0].0] + Keys(entries[1..])
  }

  predicate DistinctKeys<V>(entries: seq<(string, V)>) {
    forall i, j :: 0 <= i < j < |entries| ==> entries[i].0 != entries[j].0
  }

  predicate HasKey<V>(entries: seq<(string, V)>, k: string) {
    exists i :: 0 <= i < |entries| && entries[i].0 == k
  }

  /** Without its last entry, a dict with distinct keys still has distinct
      keys, none of them the last one's. */
  lemma DistinctPrefix<V>(entries: seq<(string, V)>)
    requires entries != [] && DistinctKeys(entries)
    ensures DistinctKeys(entries[..|entries| - 1])
    ensures !HasKey(entries[..|entries| - 1], entries[|entries| - 1].0)
  {
    var prefix := entries[..|entries| - 1];
    forall i | 0 <= i < |prefix| ensures prefix[i].0 != entries[|entries| - 1].0 {
      assert prefix[i] == entries[i];
    }
  }

  /** `d[k]`, if present. */
  function Lookup<V(==)>(entries: seq<(string, V)>, k: string): (r: Option<V>)
    ensures r.Some? <==> HasKey(entries, k)
    ensures r.Some? ==> exists i :: 0 <= i < |entries| && entries[i] == (k, r.value)
  {
    if entries == [] then None
    else if entries[0].0 == k then Some(entries[0].1)
    else
      var r := Lookup(entries[1..], k);
      HasKeyTail(entries, k);
      if r.Some? then
        var i :| 0 <= i < |entries| - 1 && entries[1..][i] == (k, r.value);
        assert entries[i + 1] == (k, r.value);
        r
      else r
  }

  lemma HasKeyTail<V>(entries: seq<(string, V)>, k: string)
    requires entries != [] && entries[0].0 != k
    ensures HasKey(entries, k) <==> HasKey(entries[1..], k)
  {
    if HasKey(entries, k) {
      var i :| 0 <= i < |entries| && entries[i].0 == k;
      assert i > 0 && entries[1..][i - 1].0 == k;
    }
    if HasKey(entries[1..], k) {
      var i :| 0 <= i < |entries| - 1 && entries[1..][i].0 == k;
      assert entries[i + 1].0 == k;
    }
  }

  /** `d[k] = v`: an existing key keeps its place, a new key goes last. */
  function Assign<V(==)>(entries: seq<(string, V)>, k: string, v: V): (r: seq<(string, V)>)
    ensures |r| == if HasKey(entries, k) then |entries| else |entries| + 1
    ensures forall i :: 0 <= i < |entries| ==> r[i].0 == entries[i].0
    ensures forall i :: 0 <= i < |entries| && entries[i].0 != k ==> r[i] == entries[i]
    ensures !HasKey(entries, k) ==> r[|entries|] == (k, v)
  {
    if entries == [] then [(k, v)]
    else if entries[0].0 == k then [(k, v)] + entries[1..]
    else
      HasKeyTail(entries, k);
      [entries[0]] + Assign(entries[1..], k, v)
  }

  /** Assigning to a present key leaves the keys as they were. */
  lemma AssignKeys<V>(entries: seq<(string, V)>, k: string, v: V)
    requires HasKey(entries, k)
    ensures Keys(Assign(entries, k, v)) == Keys(entries)
  {
  }

  /** After `d[k] = v`, `d[k]` is `v` and every other key reads as before. */
  lemma {:induction false} AssignLookup<V>(entries: seq<(string, V)>, k: string, v: V, k': string)
    ensures Lookup(Assign(entries, k, v), k') == if k' == k then Some(v) else Lookup(entries, k')
  {
    if entries != [] && entries[0].0 != k {
      AssignLookup(entries[1..], k, v, k');
      var r := Assign(entries, k, v);
      assert r[1..] == Assign(entries[1..], k, v);
    }
  }

  /** Adding a new key appends it: the ordered-dict view of `d[k] = v` for
      a fresh `k`. */
  lemma {:induction false} AssignLast<V>(entries: seq<(string, V)>, k: string, xs: V, ys: V)
    requires !HasKey(entries, k)
    ensures Lookup(entries + [(k, xs)], k) == Some(xs)
    ensures Assign(entries + [(k, xs)], k, ys) == entries + [(k, ys)]
  {
    if entries != [] {
      HasKeyTail(entries, k);
      assert (entries + [(k, xs)])[1..] == entries[1..] + [(k, xs)];
      AssignLast(entries[1..], k, xs, ys);
    }
  }

  /** Assigning a fresh key appends it. */
  lemma {:induction false} AssignAppends<V>(entries: seq<(string, V)>, k: string, v: V)
    requires !HasKey(entries, k)
    ensures Assign(entries, k, v) == entries + [(k, v)]
  {
    if entries != [] {
      HasKeyTail(entries, k);
      AssignAppends(entries[1..], k, v);
    }
  }

  /** Keys after `d[k] = v`. */
  lemma AssignHasKey<V>(entries: seq<(string, V)>, k: string, v: V, k': string)
    ensures HasKey(Assign(entries, k, v), k') <==> k' == k || HasKey(entries, k')
  {
    AssignLookup(entries, k, v, k');
  }

  // ---------------------------------------------------------------------
  // str() and repr()

  /** `str(v)`. */
  function StrOf(v: Value): string {
    if v.PyStr? then v.s else Repr(v)
  }

  /** `list(map(str, xs))`. */
  function StrsOf(xs: seq<Value>): (r: seq<string>)
    ensures |r| == |xs|
  {
    if xs == [] then [] else [StrOf(xs[0])] + StrsOf(xs[1..])
  }

  /** Strings as Python `str` values, in order. */
  function PyStrs(xs: seq<string>): (r: seq<Value>)
    ensures |r| == |xs|
    ensures forall i :: 0 <= i < |xs| ==> r[i] == PyStr(xs[i])
  {
    if xs == [] then [] else [PyStr(xs[0])] + PyStrs(xs[1..])
  }

  /** Every token is `str` of the value at the same place. */
  lemma {:induction false} StrsOfAt(xs: seq<Value>, i: nat)
    requires i < |xs|
    ensures StrsOf(xs)[i] == StrOf(xs[i])
  {
    if i > 0 {
      StrsOfAt(xs[1..], i - 1);
    }
  }

  lemma {:induction false} StrsOfConcat(a: seq<Value>, b: seq<Value>)
    ensures StrsOf(a + b) == StrsOf(a) + StrsOf(b)
  {
    if a != [] {
      assert (a + b)[1..] == a[1..] + b;
      StrsOfConcat(a[1..], b);
    } else {
      assert a + b == b;
    }
  }

  /** `repr(v)`. */
  function Repr(v: Value): string
    decreases v
  {
    match v
    case PyNone => "None"
    case PyBool(b) => if b then "True" else "False"
    case PyInt(i) => IntToString(i)
    case PyStr(s) => StrRepr(s)
    case PyBytes(bs) => "b" + BytesRepr(bs)
    case PyList(items) =>
      "[" + Join(seq(|items|, i requires 0 <= i < |items| => Repr(items[i])), ", ") + "]"
    case PyTuple(items) =>
      if |items| == 1 then "(" + Repr(items[0]) + ",)"
      else "(" + Join(seq(|items|, i requires 0 <= i < |items| => Repr(items[i])), ", ") + ")"
    case PyDict(entries) =>
      "{" + Join(seq(|entries|, i requires 0 <= i < |entries| =>
                   StrRepr(entries[i].0) + ": " + Repr(entries[i].1)), ", ") + "}"
  }

  /** Python quotes with `'` unless the text holds `'` and no `"`. */
  function QuoteFor(s: string): char {
    if Find(s, "'").Some? && Find(s, "\"").None? then '"' else '\''
  }

  function HexDigit(d: nat): char
    requires d < 16
  {
    if d < 10 then DigitChar(d) else ('a' as int + d - 10) as char
  }

  /** The escape Python writes for one character of a literal. */
  function EscapeChar(c: char, quote: char, asciiOnly: bool): string {
    var n := c as int;
    if c == quote || c == '\\' then ['\\', c]
    else if c == '\t' then "\\t"
    else if c == '\n' then "\\n"
    else if c == '\r' then "\\r"
    else if n < 32 || n == 127 || (asciiOnly && n > 127 && n < 256) then
      ['\\', 'x', HexDigit(n / 16), HexDigit(n % 16)]
    else [c]
  }

  function EscapeAll(s: string, quote: char, asciiOnly: bool): string {
    if s == [] then [] else EscapeChar(s[0], quote, asciiOnly) + EscapeAll(s[1..], quote, asciiOnly)
  }

  /** `repr` of a `str`. Characters outside ASCII are written as they are. */
  function StrRepr(s: string): string {
    var q := QuoteFor(s);
    [q] + EscapeAll(s, q, false) + [q]
  }

  function BytesAsChars(bs: seq<byte>): (s: string)
    ensures |s| == |bs|
  {
    if bs == [] then [] else [(bs[0] as int) as char] + BytesAsChars(bs[1..])
  }

  /** `repr` of `bytes` without its `b` prefix. */
  function BytesRepr(bs: seq<byte>): string {
    var s := BytesAsChars(bs);
    var q := QuoteFor(s);
    [q] + EscapeAll(s, q, true) + [q]
  }

  /** `list(v)`: the items an iteration over `v` produces. */
  function ListOf(v: Value): (r: Result<seq<Value>>)
    ensures v.PyList? || v.PyTuple? ==> r == Ok(v.items)
    ensures v.PyNone? || v.PyBool? || v.PyInt? ==> r == Err(TypeError)
  {
    match v
    case PyList(items) => Ok(items)
    case PyTuple(items) => Ok(items)
    case PyStr(s) => Ok(seq(|s|, i requires 0 <= i < |s| => PyStr([s[i]])))
    case PyBytes(bs) => Ok(seq(|bs|, i requires 0 <= i < |bs| => PyInt(bs[i] as int)))
    case PyDict(entries) => Ok(seq(|entries|, i requires 0 <= i < |entries| => PyStr(entries[i].0)))
    case _ => Err(TypeError)
  }
}
