/** The sequence and string helpers of `DataUtility` (core/data.py): digit
    extraction, the digit-keyed sort, chunking, bounded-depth flattening,
    range expansion, slugs, separator guessing, substring search, recursive
    stripping and CSV formatting. */
module Data {
  import opened StrOps
  import opened PyValue

  // ---------------------------------------------------------------------
  // parse_digits (aliases digits, digit_only, parse_int, parseInt)

  /** The digit characters of `s`, in order. */
  function Digits(s: string): (r: string)
    ensures AllDigits(r)
    ensures |r| <= |s|
  {
    if s == [] then []
    else (if IsDigit(s[0]) then [s[0]] else []) + Digits(s[1..])
  }

  /** `parse_digits(x)`: the digits of `str(x)`. */
  function ParseDigits(x: Value): (r: string)
    ensures AllDigits(r) && |r| <= |StrOf(x)|
  {
    Digits(StrOf(x))
  }

  /** `Digits` distributes over concatenation. Together with the
      single-character case this pins it down as "the digits, in order". */
  lemma {:induction false} DigitsConcat(a: string, b: string)
    ensures Digits(a + b) == Digits(a) + Digits(b)
  {
    if a == [] {
      assert a + b == b;
    } else {
      var head := if IsDigit(a[0]) then [a[0]] else [];
      assert (a + b)[0] == a[0] && (a + b)[1..] == a[1..] + b;
      assert Digits(a + b) == head + Digits(a[1..] + b);
      DigitsConcat(a[1..], b);
      assert Digits(a) == head + Digits(a[1..]);
      SeqAssoc(head, Digits(a[1..]), Digits(b));
    }
  }

  lemma DigitsChar(c: char)
    ensures Digits([c]) == if IsDigit(c) then [c] else []
  {
    assert [c][1..] == [];
  }

  /** A string of digits is its own digit string. */
  lemma {:induction false} DigitsOfDigits(s: string)
    requires AllDigits(s)
    ensures Digits(s) == s
  {
    if s != [] {
      DigitsOfDigits(s[1..]);
    }
  }

  /** `parse_digits` is idempotent. */
  lemma ParseDigitsIdempotent(x: Value)
    ensures ParseDigits(PyStr(ParseDigits(x))) == ParseDigits(x)
  {
    DigitsOfDigits(ParseDigits(x));
  }

  // ---------------------------------------------------------------------
  // sort_numeric: list(it).sort(key=digit_only)

  /** Python's `<` on `str`: lexicographic by code point. */
  predicate StrLess(a: string, b: string) {
    if b == [] then false
    else if a == [] then true
    else a[0] < b[0] || (a[0] == b[0] && StrLess(a[1..], b[1..]))
  }

  lemma {:induction false} StrLessIrreflexive(a: string)
    ensures !StrLess(a, a)
  {
    if a != [] { StrLessIrreflexive(a[1..]); }
  }

  lemma {:induction false} StrLessTotal(a: string, b: string)
    ensures StrLess(a, b) || StrLess(b, a) || a == b
  {
    if a != [] && b != [] && a[0] == b[0] {
      StrLessTotal(a[1..], b[1..]);
      if a[1..] == b[1..] {
        assert a == [a[0]] + a[1..] && b == [b[0]] + b[1..];
      }
    }
  }

  lemma {:induction false} StrLessTransitive(a: string, b: string, c: string)
    requires StrLess(a, b) && StrLess(b, c)
    ensures StrLess(a, c)
  {
    if a != [] && a[0] == b[0] && b[0] == c[0] {
      StrLessTransitive(a[1..], b[1..], c[1..]);
    }
  }

  function Key(x: Value): string { ParseDigits(x) }

  /** Ordered by key, equal keys allowed in any order. */
  ghost predicate SortedByKey(s: seq<Value>, key: Value -> string) {
    forall i, j :: 0 <= i < j < |s| ==> !StrLess(key(s[j]), key(s[i]))
  }

  /** The elements of `s` whose key is `k`, in order. */
  function WithKey(s: seq<Value>, key: Value -> string, k: string): seq<Value> {
    if s == [] then []
    else KeyPart(s[0], key, k) + WithKey(s[1..], key, k)
  }

  /** `[x]` when `x` has key `k`, nothing otherwise. */
  function KeyPart(x: Value, key: Value -> string, k: string): seq<Value> {
    if key(x) == k then [x] else []
  }

  /** Put `x` before the first element whose key is not smaller than its own. */
  function Insert(x: Value, s: seq<Value>, key: Value -> string): (r: seq<Value>)
    ensures |r| == |s| + 1
    ensures multiset(r) == multiset(s) + multiset{x}
  {
    if s == [] || !StrLess(key(s[0]), key(x)) then [x] + s
    else
      assert s == [s[0]] + s[1..];
      [s[0]] + Insert(x, s[1..], key)
  }

  /** The stable insertion sort of `s` by `key` (`list.sort` is stable). */
  function SortByKey(s: seq<Value>, key: Value -> string): (r: seq<Value>)
    ensures multiset(r) == multiset(s)
  {
    if s == [] then []
    else
      assert s == [s[0]] + s[1..];
      Insert(s[0], SortByKey(s[1..], key), key)
  }

  /** `sort_numeric(it)`: `list(it)` sorted by the digit key. */
  function SortNumeric(it: Value): (r: Result<seq<Value>>)
    ensures r.Ok? <==> ListOf(it).Ok?
    ensures r.Ok? ==> multiset(r.value) == multiset(ListOf(it).value)
  {
    match ListOf(it)
    case Ok(items) => Ok(SortByKey(items, Key))
    case Err(e) => Err(e)
  }

  lemma StrLessAsymmetric(a: string, b: string)
    requires StrLess(a, b)
    ensures !StrLess(b, a)
  {
    if StrLess(b, a) {
      StrLessTransitive(a, b, a);
      StrLessIrreflexive(a);
    }
  }

  /** A head whose key is below no key of a sorted tail keeps it sorted. */
  lemma ConsSorted(h: Value, t: seq<Value>, key: Value -> string)
    requires SortedByKey(t, key)
    requires forall y :: y in t ==> !StrLess(key(y), key(h))
    ensures SortedByKey([h] + t, key)
  {
    var r := [h] + t;
    forall i, j | 0 <= i < j < |r| ensures !StrLess(key(r[j]), key(r[i])) {
      if i == 0 {
        assert r[i] == h && r[j] == t[j - 1];
        assert t[j - 1] in t;
      } else {
        assert r[i] == t[i - 1] && r[j] == t[j - 1];
      }
    }
  }

  lemma InsertBound(x: Value, s: seq<Value>, key: Value -> string, lo: string)
    requires forall y :: y in s ==> !StrLess(key(y), lo)
    requires !StrLess(key(x), lo)
    ensures forall y :: y in Insert(x, s, key) ==> !StrLess(key(y), lo)
  {
    forall y | y in Insert(x, s, key) ensures !StrLess(key(y), lo) {
      assert y in multiset(Insert(x, s, key));
      assert y in multiset(s) + multiset{x};
      if y != x {
        assert y in multiset(s);
      }
    }
  }

  lemma {:induction false} InsertSorted(x: Value, s: seq<Value>, key: Value -> string)
    requires SortedByKey(s, key)
    ensures SortedByKey(Insert(x, s, key), key)
  {
    if s == [] || !StrLess(key(s[0]), key(x)) {
      forall y | y in s ensures !StrLess(key(y), key(x)) {
        var k :| 0 <= k < |s| && s[k] == y;
        if k > 0 && StrLess(key(y), key(x)) {
          StrLessTotal(key(s[0]), key(x));
          if StrLess(key(x), key(s[0])) {
            StrLessTransitive(key(y), key(x), key(s[0]));
          }
        }
      }
      ConsSorted(x, s, key);
    } else {
      InsertSorted(x, s[1..], key);
      forall y | y in s[1..] ensures !StrLess(key(y), key(s[0])) {
        var k :| 0 <= k < |s[1..]| && s[1..][k] == y;
        assert s[k + 1] == y;
      }
      StrLessAsymmetric(key(s[0]), key(x));
      InsertBound(x, s[1..], key, key(s[0]));
      ConsSorted(s[0], Insert(x, s[1..], key), key);
    }
  }

  /** The result of `sort_numeric` is ordered by key. */
  lemma {:induction false} SortByKeySorted(s: seq<Value>, key: Value -> string)
    ensures SortedByKey(SortByKey(s, key), key)
  {
    if s != [] {
      SortByKeySorted(s[1..], key);
      InsertSorted(s[0], SortByKey(s[1..], key), key);
    }
  }

  lemma WithKeyCons(y: Value, t: seq<Value>, key: Value -> string, k: string)
    ensures WithKey([y] + t, key, k) == KeyPart(y, key, k) + WithKey(t, key, k)
  {
    assert ([y] + t)[1..] == t;
  }

  /** Two parts of which one is empty can trade places. */
  lemma SwapParts(a: seq<Value>, b: seq<Value>, w: seq<Value>)
    requires a == [] || b == []
    ensures a + (b + w) == b + (a + w)
  {
    if a == [] {
      assert a + (b + w) == b + w;
      assert a + w == w;
    } else {
      assert b + w == w;
      assert b + (a + w) == a + w;
    }
  }

  /** Past an element with a smaller key, `x` is inserted into the rest. */
  lemma InsertStep(x: Value, s: seq<Value>, key: Value -> string)
    requires s != [] && StrLess(key(s[0]), key(x))
    ensures Insert(x, s, key) == [s[0]] + Insert(x, s[1..], key)
  {
  }

  /** Inserting `x` adds it to the elements with its own key and to no
      other: a key smaller than its own is never equal to it. */
  lemma {:induction false} WithKeyInsert(x: Value, s: seq<Value>, key: Value -> string, k: string)
    ensures WithKey(Insert(x, s, key), key, k) == KeyPart(x, key, k) + WithKey(s, key, k)
  {
    if s == [] || !StrLess(key(s[0]), key(x)) {
      WithKeyCons(x, s, key, k);
    } else {
      InsertStep(x, s, key);
      WithKeyInsert(x, s[1..], key, k);
      WithKeyCons(s[0], Insert(x, s[1..], key), key, k);
      assert KeyPart(s[0], key, k) == [] || KeyPart(x, key, k) == [] by {
        if key(x) == k {
          StrLessIrreflexive(k);
        }
      }
      SwapParts(KeyPart(s[0], key, k), KeyPart(x, key, k), WithKey(s[1..], key, k));
    }
  }

  /** Stability: the elements sharing a key keep their input order. */
  lemma {:induction false} SortByKeyStable(s: seq<Value>, key: Value -> string, k: string)
    ensures WithKey(SortByKey(s, key), key, k) == WithKey(s, key, k)
  {
    if s != [] {
      SortByKeyStable(s[1..], key, k);
      WithKeyInsert(s[0], SortByKey(s[1..], key), key, k);
    }
  }

  /** The key order is string order, not numeric order: `"10"` sorts
      before `"9"`. */
  lemma SortNumericIsLexicographic()
    ensures SortNumeric(PyList([PyStr("9"), PyStr("10")])) == Ok([PyStr("10"), PyStr("9")])
  {
    SortOne(PyStr("10"));
    InsertNineAfterTen();
    assert [PyStr("9"), PyStr("10")][1..] == [PyStr("10")];
  }

  lemma SortOne(x: Value)
    ensures SortByKey([x], Key) == [x]
  {
    assert [x][1..] == [];
  }

  /** `"9"` goes after `"10"`, because `"10" < "9"` as strings. */
  lemma InsertNineAfterTen()
    ensures Insert(PyStr("9"), [PyStr("10")], Key) == [PyStr("10"), PyStr("9")]
  {
    KeyOfDigits("9");
    KeyOfDigits("10");
    assert StrLess("10", "9");
  }

  /** A string of digits is its own key. */
  lemma KeyOfDigits(s: string)
    requires AllDigits(s)
    ensures Key(PyStr(s)) == s
  {
    DigitsOfDigits(s);
  }

  // ---------------------------------------------------------------------
  // is_iterable and chunks

  /** `is_iterable(x)`: has `__iter__` and is neither `str` nor `bytes`. */
  function IsIterable(x: Value): (r: bool)
    ensures r <==> ListOf(x).Ok? && !x.PyStr? && !x.PyBytes?
  {
    x.PyList? || x.PyTuple? || x.PyDict?
  }

  /** The slices `s[0:size]`, `s[size:2*size]`, ... that `chunks` yields. */
  function Pieces<T>(s: seq<T>, size: nat): seq<seq<T>>
    requires size > 0
    decreases |s|
  {
    if s == [] then []
    else if |s| <= size then [s]
    else [s[..size]] + Pieces(s[size..], size)
  }

  function Concat<T>(ss: seq<seq<T>>): seq<T> {
    if ss == [] then [] else ss[0] + Concat(ss[1..])
  }

  /** The chunks put back together are the input. */
  lemma {:induction false} ConcatPieces<T>(s: seq<T>, size: nat)
    requires size > 0
    ensures Concat(Pieces(s, size)) == s
  {
    if s != [] && |s| > size {
      ConcatPieces(s[size..], size);
      var p := Pieces(s, size);
      assert p[1..] == Pieces(s[size..], size);
      assert s == s[..size] + s[size..];
    }
  }

  /** Every chunk but the last holds `size` items; the last holds 1 to `size`. */
  lemma {:induction false} PiecesSizes<T>(s: seq<T>, size: nat)
    requires size > 0
    ensures forall i :: 0 <= i < |Pieces(s, size)| - 1 ==> |Pieces(s, size)[i]| == size
    ensures Pieces(s, size) != [] ==> 0 < |Pieces(s, size)[|Pieces(s, size)| - 1]| <= size
  {
    if s != [] && |s| > size {
      PiecesSizes(s[size..], size);
      var p := Pieces(s, size);
      assert p[1..] == Pieces(s[size..], size);
    }
  }

  /** The generator loop of `chunks`: one slice per step of `range(0, len, size)`. */
  method SliceInto<T>(s: seq<T>, size: nat) returns (cs: seq<seq<T>>)
    requires size > 0
    ensures cs == Pieces(s, size)
  {
    cs := [];
    var n := 0;
    while n < |s|
      invariant 0 <= n <= |s|
      invariant cs + Pieces(s[n..], size) == Pieces(s, size)
    {
      var end := if n + size < |s| then n + size else |s|;
      var rest := s[n..];
      if |rest| > size {
        assert Pieces(rest, size) == [rest[..size]] + Pieces(rest[size..], size);
        assert rest[..size] == s[n..end] && rest[size..] == s[end..];
        assert (cs + [s[n..end]]) + Pieces(s[end..], size) == cs + Pieces(rest, size);
      } else {
        assert Pieces(rest, size) == [rest] && rest == s[n..end];
        assert s[end..] == [];
        assert (cs + [s[n..end]]) + Pieces(s[end..], size) == cs + Pieces(rest, size);
      }
      cs := cs + [s[n..end]];
      n := end;
    }
  }

  /** The chunks of a list or tuple, each of the same kind as the input. */
  function WrapItems(ps: seq<seq<Value>>, tuple: bool): (r: seq<Value>)
    ensures |r| == |ps|
    ensures forall i :: 0 <= i < |ps| ==> r[i] == if tuple then PyTuple(ps[i]) else PyList(ps[i])
  {
    if ps == [] then [] else [if tuple then PyTuple(ps[0]) else PyList(ps[0])] + WrapItems(ps[1..], tuple)
  }

  function WrapBytes(ps: seq<seq<byte>>): (r: seq<Value>)
    ensures |r| == |ps|
    ensures forall i :: 0 <= i < |ps| ==> r[i] == PyBytes(ps[i])
  {
    if ps == [] then [] else [PyBytes(ps[0])] + WrapBytes(ps[1..])
  }

  /** `list(chunks(obj, size))`. A `None` or non-iterable `obj` yields
      nothing, because the function is a generator and returns before its
      first `yield`; `size == 0` makes `range` raise `ValueError`; a negative
      size yields nothing; slicing a non-empty `dict` raises `TypeError`. */
  function ChunksOf(obj: Value, size: int): (r: Result<seq<Value>>)
    ensures obj.PyNone? || obj.PyBool? || obj.PyInt? ==> r == Ok([])
    ensures ListOf(obj).Ok? && size == 0 ==> r == Err(ValueError)
    ensures ListOf(obj).Ok? && size < 0 ==> r == Ok([])
    ensures obj.PyDict? && size > 0 ==> (r.Ok? <==> obj.entries == [])
  {
    if obj.PyNone? || obj.PyBool? || obj.PyInt? then Ok([])
    else if size == 0 then Err(ValueError)
    else if size < 0 then Ok([])
    else
      match obj
      case PyList(items) => Ok(WrapItems(Pieces(items, size), false))
      case PyTuple(items) => Ok(WrapItems(Pieces(items, size), true))
      case PyStr(s) => Ok(PyStrs(Pieces(s, size)))
      case PyBytes(bs) => Ok(WrapBytes(Pieces(bs, size)))
      case PyDict(entries) => if entries == [] then Ok([]) else Err(TypeError)
  }

  /** The generator body of `chunks`, drained into a list. */
  method Chunks(obj: Value, size: int) returns (r: Result<seq<Value>>)
    ensures r == ChunksOf(obj, size)
  {
    if obj.PyNone? || obj.PyBool? || obj.PyInt? {
      return Ok([]);
    }
    if size == 0 {
      return Err(ValueError);
    }
    if size < 0 {
      return Ok([]);
    }
    match obj {
      case PyList(items) =>
        var cs := SliceInto(items, size);
        r := Ok(WrapItems(cs, false));
      case PyTuple(items) =>
        var cs := SliceInto(items, size);
        r := Ok(WrapItems(cs, true));
      case PyStr(s) =>
        var cs := SliceInto(s, size);
        r := Ok(PyStrs(cs));
      case PyBytes(bs) =>
        var cs := SliceInto(bs, size);
        r := Ok(WrapBytes(cs));
      case PyDict(entries) =>
        r := if entries == [] then Ok([]) else Err(TypeError);
    }
  }

  // ---------------------------------------------------------------------
  // flatten

  /** The number of items `list(v)` has, for an iterable `v`. */
  function Width(v: Value): nat
    requires IsIterable(v)
  {
    if v.PyDict? then |v.entries| else |v.items|
  }

  /** `flatten(nested, level, depth)`: below the level limit an iterable
      becomes a list in which each item's own flattening is spliced in when
      it is iterable and appended otherwise; anything else is returned as
      it is. */
  function Flattened(v: Value, level: int, depth: int): (r: Value)
    ensures !IsIterable(v) ==> r == v
    ensures IsIterable(v) && depth + 1 < level ==> r.PyList?
    decreases v, 1, 0
  {
    if IsIterable(v) && !(level <= depth + 1) then PyList(FlatFrom(v, level, depth + 1, 0))
    else v
  }

  /** What the loop of `flatten` collects from item `i` onwards. A `dict`
      yields its keys, which are strings and so come back unchanged. */
  function FlatFrom(v: Value, level: int, d: int, i: nat): seq<Value>
    requires IsIterable(v) && i <= Width(v)
    decreases v, 0, Width(v) - i
  {
    if i == Width(v) then []
    else Spliced(FlatItem(v, level, d, i)) + FlatFrom(v, level, d, i + 1)
  }

  /** Item `i` of `v` after its own flattening one level deeper. */
  function FlatItem(v: Value, level: int, d: int, i: nat): Value
    requires IsIterable(v) && i < Width(v)
    decreases v, 0, Width(v) - i, 0
  {
    if v.PyDict? then PyStr(v.entries[i].0) else Flattened(v.items[i], level, d)
  }

  /** An iterable is spliced in (`extend`), anything else appended. */
  function Spliced(val: Value): seq<Value> {
    if IsIterable(val) then ListOf(val).value else [val]
  }

  /** One more part moves from the rest into the collected prefix. */
  lemma CollectStep(collected: seq<Value>, part: seq<Value>, rest: seq<Value>, total: seq<Value>)
    requires collected + (part + rest) == total
    ensures (collected + part) + rest == total
  {
  }

  method Flatten(nested: Value, level: int, depth: int) returns (r: Value)
    ensures r == Flattened(nested, level, depth)
    decreases nested
  {
    var d := depth + 1;
    if IsIterable(nested) && !(level <= d) {
      var collector: seq<Value> := [];
      var i := 0;
      var width := Width(nested);
      while i < width
        invariant 0 <= i <= width
        invariant collector + FlatFrom(nested, level, d, i) == FlatFrom(nested, level, d, 0)
      {
        var val;
        if nested.PyDict? {
          val := PyStr(nested.entries[i].0);
        } else {
          val := Flatten(nested.items[i], level, d);
        }
        assert val == FlatItem(nested, level, d, i);
        CollectStep(collector, Spliced(val), FlatFrom(nested, level, d, i + 1), FlatFrom(nested, level, d, 0));
        collector := collector + Spliced(val);
        i := i + 1;
      }
      assert collector + [] == collector;
      r := PyList(collector);
    } else {
      r := nested;
    }
  }

  /** The leaves of a nested value, left to right: strings, bytes and
      scalars are leaves; a `dict` contributes its keys. */
  function Leaves(v: Value): (r: seq<Value>)
    ensures forall x :: x in r ==> !IsIterable(x)
    decreases v, 1, 0
  {
    if IsIterable(v) then LeavesFrom(v, 0) else [v]
  }

  function LeavesFrom(v: Value, i: nat): (r: seq<Value>)
    requires IsIterable(v) && i <= Width(v)
    ensures forall x :: x in r ==> !IsIterable(x)
    decreases v, 0, Width(v) - i
  {
    if i == Width(v) then []
    else (if v.PyDict? then [PyStr(v.entries[i].0)] else Leaves(v.items[i])) + LeavesFrom(v, i + 1)
  }

  /** How many levels of iterables `v` holds: 0 for a leaf. */
  function Nesting(v: Value): nat
    decreases v, 1, 0
  {
    if IsIterable(v) then 1 + NestingFrom(v, 0) else 0
  }

  function NestingFrom(v: Value, i: nat): (n: nat)
    requires IsIterable(v) && i <= Width(v)
    ensures v.PyList? || v.PyTuple? ==> forall j :: i <= j < Width(v) ==> Nesting(v.items[j]) <= n
    decreases v, 0, Width(v) - i
  {
    if i == Width(v) || v.PyDict? then 0
    else
      var a := Nesting(v.items[i]);
      var b := NestingFrom(v, i + 1);
      if a < b then b else a
  }

  /** Below the level limit, `flatten` returns exactly the leaves in order. */
  lemma {:induction false} FlattenedLeaves(v: Value, level: int, depth: int)
    requires IsIterable(v) && depth + Nesting(v) < level
    ensures Flattened(v, level, depth) == PyList(Leaves(v))
    decreases v, 1, 0
  {
    FlatFromLeaves(v, level, depth + 1, 0);
  }

  lemma {:induction false} FlatFromLeaves(v: Value, level: int, d: int, i: nat)
    requires IsIterable(v) && i <= Width(v) && d + Nesting(v) <= level
    ensures FlatFrom(v, level, d, i) == LeavesFrom(v, i)
    decreases v, 0, Width(v) - i
  {
    if i < Width(v) {
      FlatFromLeaves(v, level, d, i + 1);
      if !v.PyDict? {
        var x := v.items[i];
        assert Nesting(x) <= NestingFrom(v, 0);
        if IsIterable(x) {
          FlattenedLeaves(x, level, d);
        }
      }
    }
  }

  /** `flatten` at its default level 99 removes every iterable from any
      value nested fewer than 99 levels deep. */
  lemma DefaultFlattenIsFlat(v: Value)
    requires IsIterable(v) && Nesting(v) < 99
    ensures Flattened(v, 99, 0).PyList?
    ensures forall x :: x in Flattened(v, 99, 0).items ==> !IsIterable(x)
  {
    FlattenedLeaves(v, 99, 0);
  }

  // ---------------------------------------------------------------------
  // print_csv (alias format_csv)

  /** `print_csv(*args, sep=sep, ret=ret)`: `str` of every flattened
      argument joined by `sep`; with `ret` false the text is printed and
      `None` is returned. */
  function PrintCsv(args: seq<Value>, sep: string, ret: bool): (r: Option<string>)
    ensures r.Some? <==> ret
  {
    var flat := Flattened(PyTuple(args), 99, 0).items;
    if ret then Some(Join(seq(|flat|, i requires 0 <= i < |flat| => StrOf(flat[i])), sep)) else None
  }

  /** With no nested argument, the CSV line is the arguments' `str`s joined. */
  lemma PrintCsvScalars(args: seq<Value>, sep: string)
    requires forall i :: 0 <= i < |args| ==> !IsIterable(args[i])
    ensures PrintCsv(args, sep, true) == Some(Join(seq(|args|, i requires 0 <= i < |args| => StrOf(args[i])), sep))
  {
    var v := PyTuple(args);
    assert NestingFrom(v, 0) == 0 by { NestingFromScalars(args, 0); }
    FlattenedLeaves(v, 99, 0);
    LeavesFromScalars(args, 0);
  }

  lemma {:induction false} NestingFromScalars(args: seq<Value>, i: nat)
    requires i <= |args|
    requires forall j :: 0 <= j < |args| ==> !IsIterable(args[j])
    ensures NestingFrom(PyTuple(args), i) == 0
    decreases |args| - i
  {
    if i < |args| {
      NestingFromScalars(args, i + 1);
    }
  }

  lemma {:induction false} LeavesFromScalars(args: seq<Value>, i: nat)
    requires i <= |args|
    requires forall j :: 0 <= j < |args| ==> !IsIterable(args[j])
    ensures LeavesFrom(PyTuple(args), i) == args[i..]
    decreases |args| - i
  {
    if i < |args| {
      LeavesFromScalars(args, i + 1);
      assert args[i..] == [args[i]] + args[i + 1..];
    }
  }

  // ---------------------------------------------------------------------
  // expand_ranges: "33-51,103-203"

  /** `range(lo, hi)`. */
  function RangeOf(lo: int, hi: int): (r: seq<int>)
    ensures |r| == if lo < hi then hi - lo else 0
    ensures forall k :: 0 <= k < |r| ==> r[k] == lo + k
    decreases hi - lo
  {
    if lo >= hi then [] else [lo] + RangeOf(lo + 1, hi)
  }

  /** One comma piece: `l = piece.split("-")`, then
      `range(int(l[0]), int(l[1] or l[0]) + 1)`. `int(l[0])` is evaluated
      before `l[1]` is read, so a bad first number wins over a missing
      second part. */
  function ExpandPiece(piece: string): Result<seq<int>> {
    var l := Split(piece, "-");
    match ParseInt(l[0])
    case None => Err(ValueError)
    case Some(lo) =>
      if |l| < 2 then Err(IndexError)
      else
        var top := if l[1] != "" then l[1] else l[0];
        match ParseInt(top)
        case None => Err(ValueError)
        case Some(hi) => Ok(RangeOf(lo, hi + 1))
  }

  /** The pieces in order, stopping at the first error (`map` is lazy and
      `flatten` consumes it left to right). */
  function ExpandAll(pieces: seq<string>): Result<seq<int>> {
    if pieces == [] then Ok([])
    else
      match ExpandPiece(pieces[0])
      case Err(e) => Err(e)
      case Ok(xs) =>
        match ExpandAll(pieces[1..])
        case Err(e) => Err(e)
        case Ok(ys) => Ok(xs + ys)
  }

  /** `expand_ranges(ranges)`. */
  function ExpandRanges(ranges: string): Result<seq<int>> {
    ExpandAll(Split(ranges, ","))
  }

  /** `"a-b"` gives `a, a+1, ..., b`, and nothing when `b < a`. */
  lemma ExpandPieceClosed(a: nat, b: nat)
    ensures ExpandPiece(NatToString(a) + "-" + NatToString(b)) == Ok(RangeOf(a, b + 1))
  {
    var sa, sb := NatToString(a), NatToString(b);
    var piece := sa + "-" + sb;
    SplitDigitsPair(sa, sb);
    ParseIntToString(a);
    ParseIntToString(b);
    ExpandPieceOf(piece, sa, sb, a, b);
  }

  /** Two digit strings joined by `-` split back into the two. */
  lemma SplitDigitsPair(sa: string, sb: string)
    requires AllDigits(sa) && AllDigits(sb)
    ensures Split(sa + "-" + sb, "-") == [sa, sb]
  {
    assert Join([sa, sb], "-") == sa + "-" + sb;
    SplitJoin([sa, sb], '-');
  }

  lemma ExpandPieceOf(piece: string, sa: string, sb: string, a: int, b: int)
    requires Split(piece, "-") == [sa, sb] && sb != ""
    requires ParseInt(sa) == Some(a) && ParseInt(sb) == Some(b)
    ensures ExpandPiece(piece) == Ok(RangeOf(a, b + 1))
  {
  }

  /** `"a-"` gives just `a`. */
  lemma ExpandPieceOpen(a: nat)
    ensures ExpandPiece(NatToString(a) + "-") == Ok([a])
  {
    var sa := NatToString(a);
    assert Join([sa, ""], "-") == sa + "-";
    SplitJoin([sa, ""], '-');
    ParseIntToString(a);
    assert RangeOf(a, a + 1) == [a];
  }

  /** A bare number has no second part and raises `IndexError`. */
  lemma ExpandPieceBare(a: nat)
    ensures ExpandPiece(NatToString(a)) == Err(IndexError)
  {
    var sa := NatToString(a);
    SplitJoin([sa], '-');
    ParseIntToString(a);
  }

  /** Comma-free pieces joined with `,` are expanded one by one. */
  lemma ExpandRangesJoined(pieces: seq<string>)
    requires pieces != []
    requires forall k, j :: 0 <= k < |pieces| && 0 <= j < |pieces[k]| ==> pieces[k][j] != ','
    ensures ExpandRanges(Join(pieces, ",")) == ExpandAll(pieces)
  {
    SplitJoin(pieces, ',');
  }

  /** Pieces contribute their ranges in input order. */
  lemma {:induction false} ExpandAllOk(pieces: seq<string>, parts: seq<seq<int>>)
    requires |parts| == |pieces|
    requires forall k :: 0 <= k < |pieces| ==> ExpandPiece(pieces[k]) == Ok(parts[k])
    ensures ExpandAll(pieces) == Ok(Concat(parts))
  {
    if pieces != [] {
      ExpandAllOk(pieces[1..], parts[1..]);
    }
  }

  // ---------------------------------------------------------------------
  // text_to_slug (alias slug)

  /** Characters that are alphanumeric or kept stay; others become `with`. */
  function SlugChars(s: string, keep: seq<char>, with: string): string {
    if s == [] then []
    else (if IsAlnum(s[0]) || s[0] in keep then [s[0]] else with) + SlugChars(s[1..], keep, with)
  }

  /** With a one-character replacement the slug maps the text character-wise. */
  lemma {:induction false} SlugCharsMap(s: string, keep: seq<char>, c: char)
    ensures |SlugChars(s, keep, [c])| == |s|
    ensures forall k :: 0 <= k < |s| ==>
      SlugChars(s, keep, [c])[k] == if IsAlnum(s[k]) || s[k] in keep then s[k] else c
  {
    if s != [] {
      SlugCharsMap(s[1..], keep, c);
      var r := SlugChars(s, keep, [c]);
      forall k | 0 <= k < |s| ensures r[k] == if IsAlnum(s[k]) || s[k] in keep then s[k] else c {
        if k > 0 {
          assert r[k] == SlugChars(s[1..], keep, [c])[k - 1];
        }
      }
    }
  }

  /** `text.replace(k, v)` for each item of the replacements dict, in order. */
  function ReplaceAll(s: string, reps: seq<(string, string)>): string
    decreases reps
  {
    if reps == [] then s else ReplaceAll(Replace(s, reps[0].0, reps[0].1), reps[1..])
  }

  /** `text_to_slug(text, keep, replace_with, replacements, lower)` for a
      `str` text; `replacements` is `None` when it is not a dict. */
  function TextToSlug(text: string, keep: seq<char>, with: string,
                      replacements: Option<seq<(string, string)>>, lower: bool): string
  {
    var t := SlugChars(text, keep, with);
    var u := if replacements.Some? then ReplaceAll(t, replacements.value) else t;
    if lower then Lower(u) else u
  }

  /** With the defaults (`keep=["-"]`, `replace_with="-"`,
      `replacements={"_": "-"}`) the slug has the text's length and holds
      only alphanumerics and `-`, lowercase when asked. */
  lemma SlugDefaults(text: string, lower: bool)
    ensures |TextToSlug(text, ['-'], "-", Some([("_", "-")]), lower)| == |text|
    ensures forall k :: 0 <= k < |text| ==>
      var c := TextToSlug(text, ['-'], "-", Some([("_", "-")]), lower)[k];
      IsAlnum(c) || c == '-'
    ensures lower ==> forall k :: 0 <= k < |text| ==>
      !IsUpper(TextToSlug(text, ['-'], "-", Some([("_", "-")]), lower)[k])
  {
    var t := SlugChars(text, ['-'], "-");
    SlugCharsMap(text, ['-'], '-');
    ReplaceChar(t, '_', '-');
    var u := Replace(t, "_", "-");
    assert ReplaceAll(t, [("_", "-")]) == u;
    forall k | 0 <= k < |u| ensures u[k] == t[k] {
      assert t[k] != '_';
    }
    assert u == t;
    if lower {
      var w := Lower(u);
      forall k | 0 <= k < |text| ensures IsAlnum(w[k]) || w[k] == '-' {
        assert IsAlnum(u[k]) || u[k] == '-';
        assert LowerChar(u[k]) == w[k] by { LowerAt(u, k); }
      }
    }
  }

  lemma {:induction false} LowerAt(s: string, k: nat)
    requires k < |s|
    ensures Lower(s)[k] == LowerChar(s[k])
  {
    if k > 0 {
      LowerAt(s[1..], k - 1);
    }
  }

  // ---------------------------------------------------------------------
  // _guess_separator and split_guess

  /** `string_separators`. */
  const DefaultSeparators: seq<string> := [",", ";", " ", "\n"]

  /** `list(s)` for a `str`: its characters, each a `str` of length one. */
  function Chars(s: string): (r: seq<string>)
    ensures |r| == |s| && (forall k :: 0 <= k < |r| ==> |r[k]| == 1)
    ensures Join(r, "") == s
  {
    if s == [] then []
    else
      var rest := Chars(s[1..]);
      assert s == [s[0]] + s[1..];
      [[s[0]]] + rest
  }

  /** The separators `_guess_separator` loops over: a non-iterable argument
      (a `str`, or an explicit `None`, included) becomes the list of
      characters of its `str`; `count` raises `TypeError` on an item that
      is not a `str`, and the loop reaches every item. */
  function SeparatorsOf(v: Value): (r: Result<seq<string>>)
    ensures !IsIterable(v) ==> r.Ok? && (forall k :: 0 <= k < |r.value| ==> |r.value[k]| == 1) && Join(r.value, "") == StrOf(v)
    ensures IsIterable(v) ==> (r.Ok? <==> forall k :: 0 <= k < |ListOf(v).value| ==> ListOf(v).value[k].PyStr?)
    ensures IsIterable(v) && r.Ok? ==>
      |r.value| == |ListOf(v).value| && forall k :: 0 <= k < |r.value| ==> ListOf(v).value[k] == PyStr(r.value[k])
    ensures r.Err? ==> r == Err(TypeError)
  {
    if !IsIterable(v) then Ok(Chars(StrOf(v)))
    else
      var items := ListOf(v).value;
      if forall k :: 0 <= k < |items| ==> items[k].PyStr? then
        Ok(seq(|items|, k requires 0 <= k < |items| => items[k].s))
      else Err(TypeError)
  }

  /** The separators for the `separators` argument of `_guess_separator`;
      `None` stands for an absent argument, which means `string_separators`. */
  function SeparatorList(separators: Option<Value>): (r: Result<seq<string>>)
    ensures separators.None? ==> r == Ok(DefaultSeparators)
    ensures separators.Some? ==> r == SeparatorsOf(separators.value)
  {
    var v := if separators.Some? then separators.value else PyList(PyStrs(DefaultSeparators));
    var r := SeparatorsOf(v);
    assert separators.None? ==> r.Ok? && r.value == DefaultSeparators;
    r
  }

  /** `best` is what `_guess_separator` must return: the earliest separator
      with the strictly greatest positive count, or `None` when none occurs. */
  predicate IsEarliestMax(content: string, seps: seq<string>, i: int) {
    0 <= i < |seps| && Count(content, seps[i]) > 0 &&
    (forall j :: 0 <= j < |seps| ==> Count(content, seps[j]) <= Count(content, seps[i])) &&
    (forall j :: 0 <= j < i ==> Count(content, seps[j]) < Count(content, seps[i]))
  }

  ghost predicate IsGuess(content: string, seps: seq<string>, best: Option<string>) {
    (best.None? <==> forall j :: 0 <= j < |seps| ==> Count(content, seps[j]) == 0) &&
    (best.Some? ==> exists i :: IsEarliestMax(content, seps, i) && seps[i] == best.value)
  }

  /** The characterisation leaves exactly one answer. */
  lemma IsGuessUnique(content: string, seps: seq<string>, a: Option<string>, b: Option<string>)
    requires IsGuess(content, seps, a) && IsGuess(content, seps, b)
    ensures a == b
  {
    if a.Some? {
      var i :| IsEarliestMax(content, seps, i) && seps[i] == a.value;
      var i' :| IsEarliestMax(content, seps, i') && seps[i'] == b.value;
      assert i == i';
    }
  }

  /** `_guess_separator(content, separators)`: the argument is normalised,
      then the loop runs over the separators. */
  method GuessSeparatorOf(content: string, separators: Option<Value>) returns (r: Result<Option<string>>)
    ensures SeparatorList(separators).Err? ==> r == Err(TypeError)
    ensures SeparatorList(separators).Ok? ==> r.Ok? && IsGuess(content, SeparatorList(separators).value, r.value)
  {
    var seps := SeparatorList(separators);
    if seps.Err? {
      r := Err(TypeError);
    } else {
      var best := GuessSeparator(content, seps.value);
      r := Ok(best);
    }
  }

  /** The loop of `_guess_separator` over normalised separators. */
  method GuessSeparator(content: string, seps: seq<string>) returns (best: Option<string>)
    ensures IsGuess(content, seps, best)
  {
    var maxCount := 0;
    best := None;
    ghost var bi := 0;
    for k := 0 to |seps|
      invariant best.None? ==> maxCount == 0
      invariant CountsAtMost(content, seps, k, maxCount)
      invariant best.Some? ==> 0 <= bi < k && seps[bi] == best.value && maxCount == Count(content, seps[bi]) > 0
      invariant best.Some? ==> CountsBelow(content, seps, bi, maxCount)
    {
      var count := Count(content, seps[k]);
      if count > maxCount {
        CountsRaised(content, seps, k, maxCount, count);
        maxCount := count;
        best := Some(seps[k]);
        bi := k;
      } else {
        CountsKept(content, seps, k, maxCount);
      }
    }
    GuessFound(content, seps, best, bi, maxCount);
  }

  /** No separator among the first `k` occurs more than `m` times. */
  ghost predicate CountsAtMost(content: string, seps: seq<string>, k: nat, m: nat)
    requires k <= |seps|
  {
    forall j :: 0 <= j < k ==> Count(content, seps[j]) <= m
  }

  /** Every separator among the first `k` occurs fewer than `m` times. */
  ghost predicate CountsBelow(content: string, seps: seq<string>, k: nat, m: nat)
    requires k <= |seps|
  {
    forall j :: 0 <= j < k ==> Count(content, seps[j]) < m
  }

  /** A strictly greater count bounds the separators before it, strictly. */
  lemma CountsRaised(content: string, seps: seq<string>, k: nat, m: nat, count: nat)
    requires k < |seps| && count == Count(content, seps[k]) && m < count
    requires CountsAtMost(content, seps, k, m)
    ensures CountsBelow(content, seps, k, count) && CountsAtMost(content, seps, k + 1, count)
  {
  }

  /** A count that is not greater keeps the bound. */
  lemma CountsKept(content: string, seps: seq<string>, k: nat, m: nat)
    requires k < |seps| && Count(content, seps[k]) <= m
    requires CountsAtMost(content, seps, k, m)
    ensures CountsAtMost(content, seps, k + 1, m)
  {
  }

  /** What the loop of `_guess_separator` knows at its end is the
      characterisation of the guess. */
  lemma GuessFound(content: string, seps: seq<string>, best: Option<string>, bi: int, maxCount: nat)
    requires best.None? ==> maxCount == 0
    requires CountsAtMost(content, seps, |seps|, maxCount)
    requires best.Some? ==> 0 <= bi < |seps| && seps[bi] == best.value && maxCount == Count(content, seps[bi]) > 0
    requires best.Some? ==> CountsBelow(content, seps, bi, maxCount)
    ensures IsGuess(content, seps, best)
  {
    if best.Some? {
      assert IsEarliestMax(content, seps, bi);
    }
  }

  /** `s.split(sep)` with a guessed separator: `None` splits on runs of
      whitespace and `""` raises `ValueError`. */
  function SplitWith(s: string, sep: Option<string>): (r: Result<seq<string>>)
    ensures sep == Some("") <==> r == Err(ValueError)
  {
    match sep
    case None => Ok(SplitWhitespace(s))
    case Some(d) => if d == [] then Err(ValueError) else Ok(Split(s, d))
  }

  /** `split_guess(content, separators)`, returning the guess as well;
      `TypeError` from the guess propagates. */
  method SplitGuess(content: string, separators: Option<Value>) returns (sep: Option<string>, r: Result<seq<string>>)
    ensures SeparatorList(separators).Err? ==> r == Err(TypeError)
    ensures SeparatorList(separators).Ok? ==> IsGuess(content, SeparatorList(separators).value, sep) && r == SplitWith(content, sep)
  {
    var guess := GuessSeparatorOf(content, separators);
    if guess.Err? {
      sep := None;
      r := Err(TypeError);
    } else {
      sep := guess.value;
      r := SplitWith(content, sep);
    }
  }

  /** Joining the pieces with the separator gives back the text. */
  lemma SplitWithJoin(s: string, d: string)
    requires d != []
    ensures SplitWith(s, Some(d)).Ok? && Join(SplitWith(s, Some(d)).value, d) == s
  {
    JoinSplit(s, d);
  }

  // ---------------------------------------------------------------------
  // get_parts

  /** `xs[position]` with Python's negative indexing. */
  function PyIndex<T>(xs: seq<T>, position: int): (r: Result<T>)
    ensures r.Ok? <==> -|xs| <= position < |xs|
    ensures 0 <= position < |xs| ==> r == Ok(xs[position])
    ensures -|xs| <= position < 0 ==> r == Ok(xs[|xs| + position])
  {
    if 0 <= position < |xs| then Ok(xs[position])
    else if -|xs| <= position < 0 then Ok(xs[|xs| + position])
    else Err(IndexError)
  }

  /** Non-negative positions count from the front and negative ones from
      the back: a position into one part of a concatenation finds the same
      element in that part alone, and a position too far either way fails
      alike. */
  lemma PyIndexEnds<T>(xs: seq<T>, ys: seq<T>)
    ensures forall i :: 0 <= i < |xs| ==> PyIndex(xs + ys, i) == PyIndex(xs, i)
    ensures forall p :: -|ys| <= p < 0 ==> PyIndex(xs + ys, p) == PyIndex(ys, p)
    ensures forall p :: p >= |xs + ys| || p < -|xs + ys| ==> PyIndex(xs + ys, p).Err?
  {
  }

  /** `get_parts(text, position, delimiter)`: `str(text).split(delimiter)[position]`. */
  function GetParts(text: Value, position: int, delimiter: Option<string>): (r: Result<string>)
    ensures delimiter == Some("") ==> r == Err(ValueError)
  {
    match SplitWith(StrOf(text), delimiter)
    case Err(e) => Err(e)
    case Ok(parts) => PyIndex(parts, position)
  }

  /** On a path joined with `/`, position `i` and `i - n` name the same part. */
  lemma GetPartsOfJoined(xs: seq<string>, i: nat)
    requires i < |xs|
    requires forall k, j :: 0 <= k < |xs| && 0 <= j < |xs[k]| ==> xs[k][j] != '/'
    ensures GetParts(PyStr(Join(xs, "/")), i, Some("/")) == Ok(xs[i])
    ensures GetParts(PyStr(Join(xs, "/")), i - |xs|, Some("/")) == Ok(xs[i])
  {
    SplitJoin(xs, '/');
  }

  // ---------------------------------------------------------------------
  // common_substrings and common_substring

  /** `t[x:y]` for every pair `x < y` in the order of
      `combinations(range(len(t) + 1), 2)`, starting at `x`. */
  function SubstringsFrom(t: string, x: nat): seq<string>
    decreases |t| - x
  {
    if x >= |t| then []
    else seq(|t| - x, k requires 0 <= k < |t| - x => t[x..x + k + 1]) + SubstringsFrom(t, x + 1)
  }

  function Substrings(t: string): seq<string> { SubstringsFrom(t, 0) }

  /** The substrings listed are exactly the non-empty ones. */
  lemma {:induction false} SubstringsFromMember(t: string, x: nat, s: string)
    ensures s in SubstringsFrom(t, x) <==> s != [] && exists i :: x <= i && OccursAt(t, s, i)
    decreases |t| - x
  {
    if x < |t| {
      SubstringsFromMember(t, x + 1, s);
      var here := seq(|t| - x, k requires 0 <= k < |t| - x => t[x..x + k + 1]);
      assert SubstringsFrom(t, x) == here + SubstringsFrom(t, x + 1);
      if s in here {
        var k :| 0 <= k < |here| && here[k] == s;
        assert OccursAt(t, s, x);
      }
      if s != [] && OccursAt(t, s, x) {
        assert here[|s| - 1] == s;
      }
      if s != [] && exists i :: x <= i && OccursAt(t, s, i) {
        var i :| x <= i && OccursAt(t, s, i);
        if i > x {
          assert x + 1 <= i;
        }
      }
    } else {
      if exists i :: x <= i && OccursAt(t, s, i) {
        var i :| x <= i && OccursAt(t, s, i);
        assert |s| == 0;
      }
    }
  }

  /** The candidates that occur in `other` and are longer than `minLen`. */
  function Keep(cands: seq<string>, other: string, minLen: int): (r: seq<string>)
    ensures forall c :: c in r <==> c in cands && Count(other, c) > 0 && |c| > minLen
  {
    if cands == [] then []
    else
      (if Count(other, cands[0]) > 0 && |cands[0]| > minLen then [cands[0]] else [])
        + Keep(cands[1..], other, minLen)
  }

  /** `common_substrings(text1, text2, min_len)`: the substrings of `text2`
      found in `text1`, then those of `text1` found in `text2`. */
  function CommonSubstrings(t1: string, t2: string, minLen: int): seq<string> {
    Keep(Substrings(t2), t1, minLen) + Keep(Substrings(t1), t2, minLen)
  }

  /** Membership: exactly the non-empty strings longer than `min_len` that
      occur in both texts. */
  lemma CommonSubstringsMember(t1: string, t2: string, minLen: int, s: string)
    ensures s in CommonSubstrings(t1, t2, minLen) <==>
      s != [] && |s| > minLen && Contains(t1, s) && Contains(t2, s)
  {
    SubstringsFromMember(t1, 0, s);
    SubstringsFromMember(t2, 0, s);
  }

  /** The index `max(xs, key=len)` picks: the first of greatest length. */
  function LongestIndex(xs: seq<string>): (r: nat)
    requires xs != []
    ensures r < |xs|
    ensures forall k :: 0 <= k < |xs| ==> |xs[k]| <= |xs[r]|
    ensures forall k :: 0 <= k < r ==> |xs[k]| < |xs[r]|
  {
    if |xs| == 1 then 0
    else
      var j := 1 + LongestIndex(xs[1..]);
      assert forall k :: 1 <= k < |xs| ==> xs[k] == xs[1..][k - 1];
      if |xs[j]| > |xs[0]| then j else 0
  }

  /** `common_substring(text1, text2, min_len)`. */
  function CommonSubstring(t1: string, t2: string, minLen: int): string {
    var rs := CommonSubstrings(t1, t2, minLen);
    if rs == [] then "" else rs[LongestIndex(rs)]
  }

  /** The answer is `""` exactly when no common substring is long enough;
      otherwise it is a common substring no other one outgrows. */
  lemma CommonSubstringLongest(t1: string, t2: string, minLen: int)
    ensures var r := CommonSubstring(t1, t2, minLen);
      (r == "" <==> forall s :: !(s in CommonSubstrings(t1, t2, minLen))) &&
      (r != "" ==> r in CommonSubstrings(t1, t2, minLen) && Contains(t1, r) && Contains(t2, r) && |r| > minLen) &&
      (r != "" ==> forall s :: s != [] && |s| > minLen && Contains(t1, s) && Contains(t2, s) ==> |s| <= |r|)
  {
    var rs := CommonSubstrings(t1, t2, minLen);
    if rs != [] {
      var r := rs[LongestIndex(rs)];
      CommonSubstringsMember(t1, t2, minLen, r);
      assert r in rs;
      forall s | s != [] && |s| > minLen && Contains(t1, s) && Contains(t2, s) ensures |s| <= |r| {
        CommonSubstringsMember(t1, t2, minLen, s);
        var k :| 0 <= k < |rs| && rs[k] == s;
      }
    } else {
      forall s ensures !(s in rs) { }
    }
  }

  // ---------------------------------------------------------------------
  // strip

  /** The characters `strip` removes: those of `char` when it is a
      non-empty string, whitespace otherwise. */
  function StripSet(chars: Option<string>): set<char> {
    if chars.Some? && chars.value != [] then CharSet(chars.value) else WhitespaceSet()
  }

  /** `strip(data, char)` as evidently intended: strings are stripped,
      lists, tuples (and sets) become lists of stripped items, a dict keeps
      its keys and has its values stripped, anything else is returned. */
  function StripValue(v: Value, chars: Option<string>): (r: Value)
    ensures v.PyList? || v.PyTuple? ==> r.PyList? && |r.items| == |v.items|
    ensures v.PyDict? ==> r.PyDict? && Keys(r.entries) == Keys(v.entries)
    ensures !v.PyStr? && !IsIterable(v) ==> r == v
    decreases v
  {
    match v
    case PyStr(s) => PyStr(Strip(s, StripSet(chars)))
    case PyList(items) => PyList(seq(|items|, k requires 0 <= k < |items| => StripValue(items[k], chars)))
    case PyTuple(items) => PyList(seq(|items|, k requires 0 <= k < |items| => StripValue(items[k], chars)))
    case PyDict(entries) =>
      PyDict(seq(|entries|, k requires 0 <= k < |entries| => (entries[k].0, StripValue(entries[k].1, chars))))
    case _ => v
  }

  /** Stripping twice is stripping once. */
  lemma {:induction false} StripValueIdempotent(v: Value, chars: Option<string>)
    ensures StripValue(StripValue(v, chars), chars) == StripValue(v, chars)
    decreases v
  {
    match v
    case PyStr(s) => StripIdempotent(s, StripSet(chars));
    case PyList(items) =>
      forall k | 0 <= k < |items| { StripValueIdempotent(items[k], chars); }
    case PyTuple(items) =>
      forall k | 0 <= k < |items| { StripValueIdempotent(items[k], chars); }
    case PyDict(entries) =>
      forall k | 0 <= k < |entries| { StripValueIdempotent(entries[k].1, chars); }
    case _ =>
  }

  /** `_data[_key] = strip(_value, _char)` for one key; only the effect on
      the keys matters to the loop below. */
  method AssignStripped(d: seq<(string, Value)>, key: string, text: string, chars: Option<string>)
    returns (d': seq<(string, Value)>)
    ensures HasKey(d, key) ==> |d'| == |d| && forall k :: 0 <= k < |d| ==> d'[k].0 == d[k].0
    ensures !HasKey(d, key) ==> |d'| == |d| + 1
  {
    d' := Assign(d, key, StripValue(PyStr(text), chars));
  }

  /** The `dict` branch of `strip` as written: `for _key, _value in _data`
      iterates the keys and unpacks each key string into two characters.
      A key whose length is not 2 raises `ValueError`; otherwise its first
      character is assigned as a key, and a new key changes the dict's
      size, which the next step of the iteration reports as
      `RuntimeError`. */
  method StripDictAsWritten(entries: seq<(string, Value)>, chars: Option<string>) returns (r: Result<Value>)
    ensures r.Ok? <==> entries == []
    ensures entries != [] && |entries[0].0| != 2 ==> r == Err(ValueError)
    ensures r.Ok? ==> r.value == PyDict(entries)
  {
    var d := entries;
    var i := 0;
    while i < |entries|
      invariant 0 <= i <= |entries|
      invariant |d| == |entries|
      invariant forall k :: 0 <= k < |d| ==> d[k].0 == entries[k].0
      invariant forall k :: 0 <= k < i ==> |entries[k].0| == 2
      invariant i > 0 ==> exists j :: i <= j < |entries| && |entries[j].0| == 1
    {
      var key := entries[i].0;
      if |key| != 2 {
        return Err(ValueError);
      }
      var target := key[..1];
      var had := HasKey(d, target);
      d := AssignStripped(d, target, key[1..], chars);
      if !had {
        return Err(RuntimeError);
      }
      ghost var j :| 0 <= j < |d| && d[j].0 == target;
      assert |entries[j].0| == 1 && j > i;
      i := i + 1;
    }
    return Ok(PyDict(d));
  }

  /** A one-entry dict shows the difference: as written `strip` raises
      `ValueError` on it ... */
  method StripDictExample() returns (asWritten: Result<Value>)
    ensures asWritten == Err(ValueError)
  {
    asWritten := StripDictAsWritten([("name", PyStr(" x "))], Some(" "));
  }

  /** ... while the intended `strip` strips the value. */
  lemma StripDictIntended()
    ensures StripValue(PyDict([("name", PyStr(" x "))]), Some(" ")) == PyDict([("name", PyStr("x"))])
  {
    StripOneEntry("name", PyStr(" x "), Some(" "));
    StripSpaces();
  }

  lemma StripOneEntry(k: string, v: Value, chars: Option<string>)
    ensures StripValue(PyDict([(k, v)]), chars) == PyDict([(k, StripValue(v, chars))])
  {
    var r := StripValue(PyDict([(k, v)]), chars);
    assert r.entries[0] == (k, StripValue(v, chars));
    assert r.entries == [(k, StripValue(v, chars))];
  }

  lemma StripSpaces()
    ensures StripValue(PyStr(" x "), Some(" ")) == PyStr("x")
  {
    StripSetSpace();
    StripSpacesText();
  }

  lemma StripSetSpace()
    ensures StripSet(Some(" ")) == {' '}
  {
    assert " "[0] == ' ' && ' ' in CharSet(" ");
    assert CharSet(" ") == {' '};
  }

  lemma StripSpacesText()
    ensures Strip(" x ", {' '}) == "x"
  {
    assert LStrip(" x ", {' '}) == "x " by {
      assert " x "[1..] == "x ";
    }
    assert RStrip("x ", {' '}) == "x" by {
      assert "x "[..1] == "x";
    }
  }
}
