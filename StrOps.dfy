/** The built-in string operations the library leans on, with Python's
    semantics: `str.strip`, `str.split`, `str.join`, `str.count`,
    `str.replace`, `str.startswith`, `int(str)` and `str(int)`.
    Character classes follow Python where that is a finite list
    (whitespace); letters and digits are the ASCII ones. */
module StrOps {

  datatype Option<T> = None | Some(value: T)

  // ---------------------------------------------------------------------
  // Character classes

  /** `str.isspace()` for one character (also what `\s` matches in a
      `re` pattern over `str`). */
  predicate IsSpace(c: char) {
    var n := c as int;
    n == 32 || 9 <= n <= 13 || 28 <= n <= 31 || n == 0x85 || n == 0xA0 ||
    n == 0x1680 || 0x2000 <= n <= 0x200A || n == 0x2028 || n == 0x2029 ||
    n == 0x202F || n == 0x205F || n == 0x3000
  }

  /** `str.isdigit()` restricted to ASCII. */
  predicate IsDigit(c: char) { '0' <= c <= '9' }

  predicate IsUpper(c: char) { 'A' <= c <= 'Z' }

  predicate IsLower(c: char) { 'a' <= c <= 'z' }

  /** `str.isalnum()` restricted to ASCII. */
  predicate IsAlnum(c: char) { IsDigit(c) || IsUpper(c) || IsLower(c) }

  predicate AllDigits(s: string) { forall i :: 0 <= i < |s| ==> IsDigit(s[i]) }

  // ---------------------------------------------------------------------
  // Prefixes and occurrences

  predicate StartsWith(s: string, p: string) { |p| <= |s| && s[..|p|] == p }

  predicate OccursAt(s: string, sub: string, i: int) {
    0 <= i && i + |sub| <= |s| && s[i..i + |sub|] == sub
  }

  ghost predicate Contains(s: string, sub: string) {
    exists i :: OccursAt(s, sub, i)
  }

  /** `str.find`: the first index at which `sub` occurs, if any. */
  function Find(s: string, sub: string): (r: Option<nat>)
    ensures r.Some? ==> OccursAt(s, sub, r.value)
    ensures r.Some? ==> forall j :: 0 <= j < r.value ==> !OccursAt(s, sub, j)
    ensures r.None? ==> forall j :: !OccursAt(s, sub, j)
    decreases |s|
  {
    if |s| < |sub| then
      assert forall j :: !OccursAt(s, sub, j);
      None
    else if s[..|sub|] == sub then Some(0)
    else
      match Find(s[1..], sub)
      case None =>
        assert forall j :: OccursAt(s, sub, j) && j > 0 ==> OccursAt(s[1..], sub, j - 1);
        None
      case Some(i) =>
        assert OccursAt(s, sub, i + 1);
        assert forall j :: 0 < j < i + 1 && OccursAt(s, sub, j) ==> OccursAt(s[1..], sub, j - 1);
        Some(i + 1)
  }

  lemma FindContains(s: string, sub: string)
    ensures Find(s, sub).Some? <==> Contains(s, sub)
  {
    if Find(s, sub).Some? {
      assert OccursAt(s, sub, Find(s, sub).value);
    }
  }

  // ---------------------------------------------------------------------
  // Stripping

  /** `s.lstrip(chars)`: drops the longest prefix made of `cs`. */
  function LStrip(s: string, cs: set<char>): (r: string)
    ensures |r| <= |s| && r == s[|s| - |r|..]
    ensures forall i :: 0 <= i < |s| - |r| ==> s[i] in cs
    ensures r != [] ==> r[0] !in cs
  {
    if s != [] && s[0] in cs then LStrip(s[1..], cs) else s
  }

  /** `s.rstrip(chars)`: drops the longest suffix made of `cs`. */
  function RStrip(s: string, cs: set<char>): (r: string)
    ensures |r| <= |s| && r == s[..|r|]
    ensures forall i :: |r| <= i < |s| ==> s[i] in cs
    ensures r != [] ==> r[|r| - 1] !in cs
  {
    if s != [] && s[|s| - 1] in cs then RStrip(s[..|s| - 1], cs) else s
  }

  /** `s.strip(chars)`. */
  function Strip(s: string, cs: set<char>): (r: string)
    ensures r != [] ==> r[0] !in cs && r[|r| - 1] !in cs
    ensures Contains(s, r)
  {
    var l := LStrip(s, cs);
    var r := RStrip(l, cs);
    assert OccursAt(s, r, |s| - |l|);
    r
  }

  /** The characters of a `str` argument, as a set. */
  function CharSet(s: string): set<char> { set i | 0 <= i < |s| :: s[i] }

  /** Stripping an already stripped string changes nothing. */
  lemma StripIdempotent(s: string, cs: set<char>)
    ensures Strip(Strip(s, cs), cs) == Strip(s, cs)
  {
    var t := Strip(s, cs);
    assert LStrip(t, cs) == t;
    assert RStrip(t, cs) == t;
  }

  // ---------------------------------------------------------------------
  // Splitting and joining

  /** `sep.join(xs)`. */
  function Join(xs: seq<string>, sep: string): (r: string)
    ensures |xs| == 1 ==> r == xs[0]
  {
    if xs == [] then []
    else if |xs| == 1 then xs[0]
    else xs[0] + sep + Join(xs[1..], sep)
  }

  /** `s.split(sep)` for a non-empty separator. */
  function Split(s: string, sep: string): (r: seq<string>)
    requires sep != []
    ensures |r| >= 1
    decreases |s|
  {
    match Find(s, sep)
    case None => [s]
    case Some(i) => [s[..i]] + Split(s[i + |sep|..], sep)
  }

  /** No piece `str.split` returns contains the separator. */
  lemma {:induction false} SplitPiecesFree(s: string, sep: string)
    requires sep != []
    ensures forall k :: 0 <= k < |Split(s, sep)| ==> !Contains(Split(s, sep)[k], sep)
    decreases |s|
  {
    var r := Split(s, sep);
    match Find(s, sep)
    case None =>
      FindContains(s, sep);
    case Some(i) =>
      var rest := s[i + |sep|..];
      SplitPiecesFree(rest, sep);
      assert r == [s[..i]] + Split(rest, sep);
      assert !Contains(s[..i], sep) by {
        forall j | OccursAt(s[..i], sep, j) ensures false {
          assert s[..i][j..j + |sep|] == s[j..j + |sep|];
          assert OccursAt(s, sep, j);
        }
      }
      forall k | 0 <= k < |r| ensures !Contains(r[k], sep) {
        if k > 0 { assert r[k] == Split(rest, sep)[k - 1]; }
      }
  }

  /** Joining the pieces of `str.split` with the separator gives the input
      back. */
  lemma {:induction false} JoinSplit(s: string, sep: string)
    requires sep != []
    ensures Join(Split(s, sep), sep) == s
    decreases |s|
  {
    match Find(s, sep)
    case None =>
    case Some(i) =>
      var rest := s[i + |sep|..];
      var tail := Split(rest, sep);
      assert Split(s, sep) == [s[..i]] + tail;
      JoinSplit(rest, sep);
      var whole := [s[..i]] + tail;
      assert |whole| >= 2 && whole[0] == s[..i] && whole[1..] == tail;
      assert Join(whole, sep) == s[..i] + sep + Join(tail, sep);
      assert s[i..i + |sep|] == sep;
      assert s == s[..i] + s[i..i + |sep|] + rest;
  }

  /** Joining single-character-free pieces with that character and splitting
      again gives the pieces back. */
  lemma {:induction false} SplitJoin(xs: seq<string>, c: char)
    requires xs != []
    requires forall i, j :: 0 <= i < |xs| && 0 <= j < |xs[i]| ==> xs[i][j] != c
    ensures Split(Join(xs, [c]), [c]) == xs
  {
    if |xs| == 1 {
      NoCharNotFound(Join(xs, [c]), c);
    } else {
      var rest := Join(xs[1..], [c]);
      assert Join(xs, [c]) == xs[0] + [c] + rest;
      SplitJoin(xs[1..], c);
      SplitAtFirst(xs[0], rest, c);
      assert xs == [xs[0]] + xs[1..];
    }
  }

  /** The first piece ends at the first separator. */
  lemma SplitAtFirst(first: string, rest: string, c: char)
    requires forall j :: 0 <= j < |first| ==> first[j] != c
    ensures Split(first + [c] + rest, [c]) == [first] + Split(rest, [c])
  {
    var s := first + [c] + rest;
    assert OccursAt(s, [c], |first|);
    NoCharNotFound(first, c);
    FindAfterFree(first, [c] + rest, c);
    assert s == first + ([c] + rest);
    assert Find(s, [c]) == Some(|first|);
    assert s[..|first|] == first;
    assert s[|first| + 1..] == rest;
  }

  lemma {:induction false} NoCharNotFound(s: string, c: char)
    requires forall j :: 0 <= j < |s| ==> s[j] != c
    ensures Find(s, [c]) == None
  {
    if |s| >= 1 {
      assert s[..1] != [c] by { assert s[..1][0] == s[0]; }
      NoCharNotFound(s[1..], c);
    }
  }

  lemma {:induction false} FindAfterFree(a: string, b: string, c: char)
    requires Find(a, [c]) == None
    requires b != [] && b[0] == c
    ensures Find(a + b, [c]) == Some(|a|)
  {
    var s := a + b;
    if a == [] {
      assert s[..1] == [c];
    } else {
      assert !OccursAt(a, [c], 0);
      assert s[..1] == a[..1];
      assert s[1..] == a[1..] + b;
      FindAfterFree(a[1..], b, c);
    }
  }

  /** `s.split()` with no separator: runs of whitespace separate the
      pieces, and leading and trailing whitespace gives no piece. */
  function SplitWhitespace(s: string): (r: seq<string>)
    decreases |s|
  {
    var t := LStrip(s, WhitespaceSet());
    if t == [] then []
    else
      var w := TakeWord(t);
      [w] + SplitWhitespace(t[|w|..])
  }

  /** No piece of `s.split()` is empty or holds whitespace. */
  lemma {:induction false} SplitWhitespacePieces(s: string)
    ensures forall k :: 0 <= k < |SplitWhitespace(s)| ==> SplitWhitespace(s)[k] != []
    ensures forall k, j :: 0 <= k < |SplitWhitespace(s)| && 0 <= j < |SplitWhitespace(s)[k]| ==> !IsSpace(SplitWhitespace(s)[k][j])
    decreases |s|
  {
    var t := LStrip(s, WhitespaceSet());
    if t != [] {
      var w := TakeWord(t);
      WhitespaceSetIsSpace(t[0]);
      assert w != [];
      var more := SplitWhitespace(t[|w|..]);
      SplitWhitespacePieces(t[|w|..]);
      var r := SplitWhitespace(s);
      assert r == [w] + more;
      forall k | 0 <= k < |r| ensures r[k] != [] {
        if k > 0 { assert r[k] == more[k - 1]; }
      }
      forall k, j | 0 <= k < |r| && 0 <= j < |r[k]| ensures !IsSpace(r[k][j]) {
        if k > 0 { assert r[k] == more[k - 1]; }
      }
    }
  }

  /** The longest prefix without whitespace. */
  function TakeWord(s: string): (w: string)
    ensures |w| <= |s| && w == s[..|w|]
    ensures forall j :: 0 <= j < |w| ==> !IsSpace(w[j])
    ensures s != [] && !IsSpace(s[0]) ==> w != []
    ensures |w| < |s| ==> IsSpace(s[|w|])
  {
    if s == [] || IsSpace(s[0]) then [] else [s[0]] + TakeWord(s[1..])
  }

  lemma SeqAssoc<T>(a: seq<T>, b: seq<T>, c: seq<T>)
    ensures a + b + c == a + (b + c)
  {
  }

  // ---------------------------------------------------------------------
  // Counting and replacing

  /** `s.count(sub)`: non-overlapping occurrences, scanning left to right;
      the empty string occurs `|s| + 1` times. */
  function Count(s: string, sub: string): (n: nat)
    ensures sub != [] ==> (n > 0 <==> Contains(s, sub))
    decreases |s|
  {
    if sub == [] then |s| + 1
    else
      FindContains(s, sub);
      match Find(s, sub)
      case None => 0
      case Some(i) => 1 + Count(s[i + |sub|..], sub)
  }

  /** `s.replace(pat, rep)`: every non-overlapping occurrence, left to
      right; an empty `pat` inserts `rep` around every character. */
  function Replace(s: string, pat: string, rep: string): string
    decreases |s|
  {
    if pat == [] then
      if s == [] then rep else rep + [s[0]] + ReplaceEmptyTail(s[1..], rep)
    else
      match Find(s, pat)
      case None => s
      case Some(i) => s[..i] + rep + Replace(s[i + |pat|..], pat, rep)
  }

  function ReplaceEmptyTail(s: string, rep: string): string {
    if s == [] then rep else rep + [s[0]] + ReplaceEmptyTail(s[1..], rep)
  }

  /** Replacing one character by another maps the string character-wise. */
  lemma {:induction false} ReplaceChar(s: string, a: char, b: char)
    ensures |Replace(s, [a], [b])| == |s|
    ensures forall i :: 0 <= i < |s| ==> Replace(s, [a], [b])[i] == if s[i] == a then b else s[i]
    decreases |s|
  {
    match Find(s, [a])
    case None =>
      forall i | 0 <= i < |s| ensures s[i] != a {
        assert !OccursAt(s, [a], i);
      }
    case Some(k) =>
      var rest := s[k + 1..];
      var r := Replace(s, [a], [b]);
      var tail := Replace(rest, [a], [b]);
      assert r == s[..k] + [b] + tail;
      ReplaceChar(rest, a, b);
      assert s[k] == a by { assert OccursAt(s, [a], k); }
      forall i | 0 <= i < |s| ensures r[i] == if s[i] == a then b else s[i] {
        if i < k {
          assert !OccursAt(s, [a], i);
          assert r[i] == s[i];
        } else if i > k {
          assert r[i] == tail[i - k - 1] && s[i] == rest[i - k - 1];
        }
      }
  }

  /** `s.lower()` for ASCII letters. */
  function Lower(s: string): (r: string)
    ensures |r| == |s|
    ensures forall i :: 0 <= i < |s| ==> !IsUpper(r[i])
    ensures forall i :: 0 <= i < |s| && !IsUpper(s[i]) ==> r[i] == s[i]
  {
    if s == [] then [] else [LowerChar(s[0])] + Lower(s[1..])
  }

  function LowerChar(c: char): (d: char)
    ensures !IsUpper(d)
    ensures IsAlnum(c) <==> IsAlnum(d)
  {
    if IsUpper(c) then (c as int + 32) as char else c
  }

  // ---------------------------------------------------------------------
  // Decimal numbers: str(int) and int(str)

  function DigitChar(d: nat): char
    requires d < 10
  {
    ('0' as int + d) as char
  }

  /** The decimal digits of a natural number, most significant first. */
  function NatToString(n: nat): (r: string)
    ensures r != [] && AllDigits(r)
    ensures |r| > 1 ==> r[0] != '0'
  {
    if n < 10 then [DigitChar(n)] else NatToString(n / 10) + [DigitChar(n % 10)]
  }

  /** `str(n)`. */
  function IntToString(n: int): (r: string)
    ensures r != []
    ensures n >= 0 ==> AllDigits(r)
    ensures n < 0 ==> r[0] == '-' && AllDigits(r[1..])
  {
    if n < 0 then "-" + NatToString(-n) else NatToString(n)
  }

  /** The value of a string of ASCII digits. */
  function DigitsValue(s: string): nat
    requires AllDigits(s)
  {
    if s == [] then 0 else 10 * DigitsValue(s[..|s| - 1]) + (s[|s| - 1] as int - '0' as int)
  }

  lemma {:induction false} DigitsValueOfNat(n: nat)
    ensures DigitsValue(NatToString(n)) == n
  {
    if n >= 10 {
      DigitsValueOfNat(n / 10);
      var s := NatToString(n);
      assert s[..|s| - 1] == NatToString(n / 10);
    }
  }

  /** `int(s)` for a base-10 literal: optional surrounding whitespace, an
      optional sign, then one or more ASCII digits. */
  function ParseInt(s: string): (r: Option<int>)
    ensures r.Some? ==> Strip(s, WhitespaceSet()) != []
  {
    var t := Strip(s, WhitespaceSet());
    if t == [] then None
    else if t[0] == '+' || t[0] == '-' then
      var ds := t[1..];
      if ds != [] && AllDigits(ds) then
        var v: int := if t[0] == '-' then -(DigitsValue(ds) as int) else DigitsValue(ds);
        Some(v)
      else None
    else if AllDigits(t) then Some(DigitsValue(t))
    else None
  }

  /** Every character `str.isspace()` accepts. */
  function WhitespaceSet(): set<char> {
    {'\U{0020}', '\U{0009}', '\U{000A}', '\U{000B}', '\U{000C}', '\U{000D}', '\U{001C}', '\U{001D}', '\U{001E}', '\U{001F}', '\U{0085}', '\U{00A0}', '\U{1680}', '\U{2000}', '\U{2001}', '\U{2002}', '\U{2003}', '\U{2004}', '\U{2005}', '\U{2006}', '\U{2007}', '\U{2008}', '\U{2009}', '\U{200A}', '\U{2028}', '\U{2029}', '\U{202F}', '\U{205F}', '\U{3000}'}
  }

  lemma WhitespaceSetIsSpace(c: char)
    ensures c in WhitespaceSet() <==> IsSpace(c)
  {
  }

  /** `int(str(n)) == n`. */
  lemma ParseIntToString(n: int)
    ensures ParseInt(IntToString(n)) == Some(n)
  {
    var s := IntToString(n);
    NoSpaceInNumber(s);
    assert LStrip(s, WhitespaceSet()) == s;
    assert RStrip(s, WhitespaceSet()) == s;
    if n < 0 {
      DigitsValueOfNat(-n);
      assert s[1..] == NatToString(-n);
    } else {
      DigitsValueOfNat(n);
    }
  }

  lemma NoSpaceInNumber(s: string)
    requires s != []
    requires AllDigits(s) || (s[0] == '-' && AllDigits(s[1..]))
    ensures s[0] !in WhitespaceSet() && s[|s| - 1] !in WhitespaceSet()
  {
    if !AllDigits(s) {
      assert |s| == 1 || s[|s| - 1] == s[1..][|s| - 2];
    }
  }
}
