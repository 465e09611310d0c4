/** `EntityURL` (lib/url.py): a URL held as its six parsed components,
    edited in place by `to_https`, `force_www` and the `+`, `-` and `/`
    operators, each of which returns the object itself. */
module Url {
  import opened StrOps
  import opened PyValue

  /** The result of `urlparse`: scheme, netloc, path, params, query and
      fragment. */
  datatype Components = Components(
    scheme: string, netloc: string, path: string,
    params: string, query: string, fragment: string)

  const Slash: set<char> := {'/'}

  // ---------------------------------------------------------------------
  // Component edits, as functions of the components

  /** `to_https`: `http` becomes `https`. */
  function Upgraded(c: Components): Components {
    if c.scheme == "http" then c.(scheme := "https") else c
  }

  /** `is_www`: the host starts with `www.`. */
  predicate IsWww(c: Components) {
    StartsWith(c.netloc, "www.")
  }

  /** `force_www`: prefix the host with `www.` unless it has it already. */
  function WithWww(c: Components): Components {
    if IsWww(c) then c else c.(netloc := "www." + c.netloc)
  }

  /** `+ s` for a string: `?q` replaces the query, `#f` the fragment, and
      anything else is appended to the path after one `/`. */
  function PlusText(c: Components, s: string): Components {
    if StartsWith(s, "?") then c.(query := LStrip(s, {'?'}))
    else if StartsWith(s, "#") then c.(fragment := LStrip(s, {'#'}))
    else c.(path := RStrip(c.path, Slash) + "/" + LStrip(s, Slash))
  }

  /** `+ [s1, s2, ...]`: the items, through `str` and joined by `/`, are
      appended to the path after one `/`. */
  function PlusSegments(c: Components, items: seq<Value>): Components {
    c.(path := RStrip(c.path, Slash) + "/" + Join(StrsOf(items), "/"))
  }

  /** `+ m`. For a dict the new query is `urlencode` of the merged
      `parse_qs` mapping, which the caller supplies as `encoded`; a value
      of any other type changes nothing. */
  function Added(c: Components, m: Value, encoded: string): Components {
    match m
    case PyDict(_) => c.(query := encoded)
    case PyStr(s) => PlusText(c, s)
    case PyList(items) => PlusSegments(c, items)
    case PyTuple(items) => PlusSegments(c, items)
    case _ => c
  }

  /** The segments that are not `s`, in their order. */
  function Without(segments: seq<string>, s: string): (r: seq<string>)
    ensures |r| <= |segments|
    ensures forall x :: x in r <==> x in segments && x != s
  {
    if segments == [] then []
    else (if segments[0] == s then [] else [segments[0]]) + Without(segments[1..], s)
  }

  /** The segments not in `gone`, in their order. */
  function WithoutAll(segments: seq<string>, gone: set<string>): (r: seq<string>)
    ensures |r| <= |segments|
    ensures forall x :: x in r <==> x in segments && x !in gone
  {
    if segments == [] then []
    else (if segments[0] in gone then [] else [segments[0]]) + WithoutAll(segments[1..], gone)
  }

  /** `- s` for a string. `?` clears the query and `#` the fragment; every
      string but `#` (so `?` too, the two tests being separate `if`s) then
      drops the path segments equal to it. */
  function MinusText(c: Components, s: string): Components {
    var c1 := if s == "?" then c.(query := "") else c;
    if s == "#" then c1.(fragment := "")
    else c1.(path := Join(Without(Split(c1.path, "/"), s), "/"))
  }

  /** `- [s1, s2, ...]`: drops the path segments equal to `str` of an item. */
  function MinusSegments(c: Components, items: seq<Value>): Components {
    var gone := set x | x in StrsOf(items);
    c.(path := Join(WithoutAll(Split(c.path, "/"), gone), "/"))
  }

  /** `- m`; for a dict, `encoded` is the re-encoded query without its keys. */
  function Subtracted(c: Components, m: Value, encoded: string): Components {
    match m
    case PyDict(_) => c.(query := encoded)
    case PyStr(s) => MinusText(c, s)
    case PyList(items) => MinusSegments(c, items)
    case PyTuple(items) => MinusSegments(c, items)
    case _ => c
  }

  /** `k/v` for each entry of a dict. */
  function PairSegments(entries: seq<(string, Value)>): (r: seq<string>)
    ensures |r| == |entries|
    ensures forall i :: 0 <= i < |entries| ==> r[i] == entries[i].0 + "/" + StrOf(entries[i].1)
  {
    if entries == [] then []
    else [entries[0].0 + "/" + StrOf(entries[0].1)] + PairSegments(entries[1..])
  }

  /** Each key followed by `str` of its value, in order. */
  function PairTokens(entries: seq<(string, Value)>): (r: seq<string>)
    ensures |r| == 2 * |entries|
    ensures forall i :: 0 <= i < |entries| ==> r[2 * i] == entries[i].0 && r[2 * i + 1] == StrOf(entries[i].1)
  {
    if entries == [] then []
    else
      var rest := PairTokens(entries[1..]);
      assert forall i :: 1 <= i < |entries| ==> entries[i] == entries[1..][i - 1];
      [entries[0].0, StrOf(entries[0].1)] + rest
  }

  /** Joining the `k/v` segments with `/` is joining keys and values alike. */
  lemma {:induction false} JoinPairSegments(entries: seq<(string, Value)>)
    ensures Join(PairSegments(entries), "/") == Join(PairTokens(entries), "/")
  {
    if entries != [] {
      var k, v := entries[0].0, StrOf(entries[0].1);
      var rest := entries[1..];
      var toks := PairTokens(rest);
      assert PairTokens(entries) == [k] + ([v] + toks);
      JoinCons(k, [v] + toks, "/");
      if rest == [] {
        assert PairSegments(entries) == [k + "/" + v];
      } else {
        JoinPairSegments(rest);
        JoinCons(v, toks, "/");
        assert PairSegments(entries) == [k + "/" + v] + PairSegments(rest);
        JoinCons(k + "/" + v, PairSegments(rest), "/");
      }
    }
  }

  /** One more piece in front of a non-empty list. */
  lemma JoinCons(x: string, xs: seq<string>, sep: string)
    requires xs != []
    ensures Join([x] + xs, sep) == x + sep + Join(xs, sep)
  {
    assert ([x] + xs)[1..] == xs;
  }

  /** `s` holds no `/`. */
  predicate NoSlash(s: string) {
    forall j :: 0 <= j < |s| ==> s[j] != '/'
  }

  /** No key and no `str` of a value holds a `/`. */
  predicate PairsNoSlash(entries: seq<(string, Value)>) {
    forall i :: 0 <= i < |entries| ==> NoSlash(entries[i].0) && NoSlash(StrOf(entries[i].1))
  }

  /** Splitting the joined `k/v` segments on `/` gives the keys and values
      back, in order, when none of them holds a `/`. */
  lemma SplitPairSegments(entries: seq<(string, Value)>)
    requires entries != [] && PairsNoSlash(entries)
    ensures Split(Join(PairSegments(entries), "/"), "/") == PairTokens(entries)
  {
    var toks := PairTokens(entries);
    PairTokensNoSlash(entries);
    assert forall i, j :: 0 <= i < |toks| && 0 <= j < |toks[i]| ==> NoSlash(toks[i]) && toks[i][j] != '/';
    JoinPairSegments(entries);
    SplitJoin(toks, '/');
  }

  lemma {:induction false} PairTokensNoSlash(entries: seq<(string, Value)>)
    requires PairsNoSlash(entries)
    ensures forall i :: 0 <= i < |PairTokens(entries)| ==> NoSlash(PairTokens(entries)[i])
  {
    if entries != [] {
      var rest := entries[1..];
      assert forall i :: 0 <= i < |rest| ==> rest[i] == entries[i + 1];
      PairTokensNoSlash(rest);
      assert PairTokens(entries) == [entries[0].0, StrOf(entries[0].1)] + PairTokens(rest);
    }
  }

  /** `/ m`: the path is replaced by the string without leading `/`, by the
      items joined with `/`, or by the `k/v` pairs of a dict joined with `/`. */
  function Divided(c: Components, m: Value): Components {
    match m
    case PyStr(s) => c.(path := LStrip(s, Slash))
    case PyList(items) => c.(path := Join(StrsOf(items), "/"))
    case PyTuple(items) => c.(path := Join(StrsOf(items), "/"))
    case PyDict(entries) => c.(path := Join(PairSegments(entries), "/"))
    case _ => c
  }

  // ---------------------------------------------------------------------
  // The object

  class EntityUrl {
    var parsed: Components

    /** `EntityURL(url)`, with `urlparse(url)` given as `parsed`. */
    constructor (parsed: Components)
      ensures this.parsed == parsed
      ensures Scheme() == parsed.scheme && Netloc() == parsed.netloc && Path() == parsed.path
      ensures Params() == parsed.params && Query() == parsed.query && Fragment() == parsed.fragment
    {
      this.parsed := parsed;
    }

    function Scheme(): string reads this { parsed.scheme }
    function Netloc(): string reads this { parsed.netloc }
    function Path(): string reads this { parsed.path }
    function Params(): string reads this { parsed.params }
    function Query(): string reads this { parsed.query }
    function Fragment(): string reads this { parsed.fragment }

    predicate IsWwwHost()
      reads this
    {
      IsWww(parsed)
    }

    method ToHttps() returns (r: EntityUrl)
      modifies this
      ensures r == this && parsed == Upgraded(old(parsed))
    {
      if parsed.scheme == "http" {
        parsed := parsed.(scheme := "https");
      }
      r := this;
    }

    method ForceWww() returns (r: EntityUrl)
      modifies this
      ensures r == this && parsed == WithWww(old(parsed))
    {
      if !IsWwwHost() {
        parsed := parsed.(netloc := "www." + parsed.netloc);
      }
      r := this;
    }

    /** `self + m`. */
    method Plus(m: Value, encoded: string) returns (r: EntityUrl)
      modifies this
      ensures r == this && parsed == Added(old(parsed), m, encoded)
    {
      match m {
        case PyDict(_) =>
          parsed := parsed.(query := encoded);
        case PyStr(s) =>
          if StartsWith(s, "?") {
            parsed := parsed.(query := LStrip(s, {'?'}));
          } else if StartsWith(s, "#") {
            parsed := parsed.(fragment := LStrip(s, {'#'}));
          } else {
            var existing := RStrip(parsed.path, Slash);
            parsed := parsed.(path := existing + "/" + LStrip(s, Slash));
          }
        case PyList(items) =>
          var existing := RStrip(parsed.path, Slash);
          parsed := parsed.(path := existing + "/" + Join(StrsOf(items), "/"));
        case PyTuple(items) =>
          var existing := RStrip(parsed.path, Slash);
          parsed := parsed.(path := existing + "/" + Join(StrsOf(items), "/"));
        case _ =>
      }
      r := this;
    }

    /** `self - m`. */
    method Minus(m: Value, encoded: string) returns (r: EntityUrl)
      modifies this
      ensures r == this && parsed == Subtracted(old(parsed), m, encoded)
    {
      match m {
        case PyDict(_) =>
          parsed := parsed.(query := encoded);
        case PyStr(s) =>
          if s == "?" {
            parsed := parsed.(query := "");
          }
          if s == "#" {
            parsed := parsed.(fragment := "");
          } else {
            var existing := Split(parsed.path, "/");
            parsed := parsed.(path := Join(Without(existing, s), "/"));
          }
        case PyList(items) =>
          var existing := Split(parsed.path, "/");
          var gone := set x | x in StrsOf(items);
          parsed := parsed.(path := Join(WithoutAll(existing, gone), "/"));
        case PyTuple(items) =>
          var existing := Split(parsed.path, "/");
          var gone := set x | x in StrsOf(items);
          parsed := parsed.(path := Join(WithoutAll(existing, gone), "/"));
        case _ =>
      }
      r := this;
    }

    /** `self / m`. */
    method Div(m: Value) returns (r: EntityUrl)
      modifies this
      ensures r == this && parsed == Divided(old(parsed), m)
    {
      var c := parsed;
      if m.PyStr? {
        c := c.(path := LStrip(m.s, Slash));
      } else if m.PyList? || m.PyTuple? {
        c := c.(path := Join(StrsOf(m.items), "/"));
      } else if m.PyDict? {
        c := c.(path := Join(PairSegments(m.entries), "/"));
      }
      parsed := c;
      r := this;
    }

    /** `add_query(key, value)`: `self + {key: value}`. */
    method AddQuery(key: string, value: Value, encoded: string) returns (r: EntityUrl)
      modifies this
      ensures r == this && parsed == old(parsed).(query := encoded)
    {
      r := Plus(PyDict([(key, value)]), encoded);
    }

    /** `replace_fragment(f)`: `self + "#" + f`. */
    method ReplaceFragment(f: string) returns (r: EntityUrl)
      modifies this
      ensures r == this && parsed == Added(old(parsed), PyStr("#" + f), "")
    {
      r := Plus(PyStr("#" + f), "");
    }

    /** `remove_fragment()`: `self - "#"`. */
    method RemoveFragment() returns (r: EntityUrl)
      modifies this
      ensures r == this && parsed == Subtracted(old(parsed), PyStr("#"), "")
    {
      r := Minus(PyStr("#"), "");
    }
  }

  // ---------------------------------------------------------------------
  // Properties of the edits

  /** `to_https` upgrades `http` only, touches no other component, and a
      second call changes nothing. */
  lemma ToHttpsProps(c: Components)
    ensures Upgraded(c).scheme == (if c.scheme == "http" then "https" else c.scheme)
    ensures Upgraded(c).(scheme := c.scheme) == c
    ensures Upgraded(Upgraded(c)) == Upgraded(c)
  {
  }

  /** After `force_www` the host has `www.`; a `www.` host is kept as it is,
      so a second call changes nothing; no other component changes. */
  lemma ForceWwwProps(c: Components)
    ensures IsWww(WithWww(c))
    ensures IsWww(c) ==> WithWww(c) == c
    ensures WithWww(WithWww(c)) == WithWww(c)
    ensures WithWww(c).(netloc := c.netloc) == c
  {
    assert ("www." + c.netloc)[..4] == "www.";
  }

  /** `+ "?q"` replaces only the query and `+ "#f"` only the fragment, each
      without its leading marks. */
  lemma PlusQueryOrFragment(c: Components, s: string)
    ensures StartsWith(s, "?") ==> PlusText(c, s) == c.(query := LStrip(s, {'?'}))
    ensures !StartsWith(s, "?") && StartsWith(s, "#") ==>
      PlusText(c, s) == c.(fragment := LStrip(s, {'#'}))
  {
  }

  /** `+ "seg"` keeps the old path without its trailing `/`, adds one `/`,
      then the segment without its leading `/`; only the path changes. */
  lemma PlusPath(c: Components, s: string)
    requires !StartsWith(s, "?") && !StartsWith(s, "#")
    ensures var p := PlusText(c, s).path;
      StartsWith(p, RStrip(c.path, Slash) + "/") &&
      p[|RStrip(c.path, Slash)| + 1..] == LStrip(s, Slash) &&
      (|RStrip(c.path, Slash)| > 0 ==> p[|RStrip(c.path, Slash)| - 1] != '/') &&
      (|LStrip(s, Slash)| > 0 ==> p[|RStrip(c.path, Slash)| + 1] != '/')
    ensures PlusText(c, s).(path := c.path) == c
  {
    var base := RStrip(c.path, Slash);
    var tail := LStrip(s, Slash);
    SlashJoin(base, tail);
  }

  /** The pieces of `base + "/" + tail` can be read back. */
  lemma SlashJoin(base: string, tail: string)
    ensures var p := base + "/" + tail;
      StartsWith(p, base + "/") && p[|base| + 1..] == tail &&
      (|base| > 0 ==> p[|base| - 1] == base[|base| - 1]) &&
      (|tail| > 0 ==> p[|base| + 1] == tail[0])
  {
    var p := base + "/" + tail;
    assert p[..|base| + 1] == base + "/";
    assert p[|base| + 1..] == tail;
  }

  /** No piece of `path.split("/")` holds a `/`. */
  lemma NoSlashInPieces(s: string)
    ensures forall i, j :: 0 <= i < |Split(s, "/")| && 0 <= j < |Split(s, "/")[i]| ==> Split(s, "/")[i][j] != '/'
  {
    SplitPiecesFree(s, "/");
    forall i, j | 0 <= i < |Split(s, "/")| && 0 <= j < |Split(s, "/")[i]|
      ensures Split(s, "/")[i][j] != '/'
    {
      var piece := Split(s, "/")[i];
      assert !OccursAt(piece, "/", j);
      assert piece[j..j + 1] == [piece[j]];
    }
  }

  /** A selection of `/`-free segments is `/`-free. */
  lemma SelectedPieces(segments: seq<string>, kept: seq<string>)
    requires forall i, j :: 0 <= i < |segments| && 0 <= j < |segments[i]| ==> segments[i][j] != '/'
    requires forall x :: x in kept ==> x in segments
    ensures forall i, j :: 0 <= i < |kept| && 0 <= j < |kept[i]| ==> kept[i][j] != '/'
  {
    forall i | 0 <= i < |kept| ensures kept[i] in segments {
      assert kept[i] in kept;
    }
  }

  /** `- "seg"` (other than `#`): reading the new path back by `/` gives
      the old segments with every `seg` dropped and the rest in order, so no
      segment equals `seg`, unless no segment was left at all. */
  lemma MinusSegment(c: Components, s: string)
    requires s != "#"
    requires Without(Split(c.path, "/"), s) != []
    ensures Split(MinusText(c, s).path, "/") == Without(Split(c.path, "/"), s)
    ensures forall seg :: seg in Split(MinusText(c, s).path, "/") ==> seg != s
    ensures MinusText(c, s).fragment == c.fragment
    ensures MinusText(c, s).query == (if s == "?" then "" else c.query)
  {
    var segs := Without(Split(c.path, "/"), s);
    NoSlashInPieces(c.path);
    SelectedPieces(Split(c.path, "/"), segs);
    SplitJoin(segs, '/');
  }

  /** `- [s1, s2, ...]` likewise drops every segment equal to `str` of an
      item and keeps the rest in order; the other components stay. */
  lemma MinusSegmentList(c: Components, items: seq<Value>)
    requires WithoutAll(Split(c.path, "/"), set x | x in StrsOf(items)) != []
    ensures Split(MinusSegments(c, items).path, "/") == WithoutAll(Split(c.path, "/"), set x | x in StrsOf(items))
    ensures forall seg :: seg in Split(MinusSegments(c, items).path, "/") ==> seg !in StrsOf(items)
    ensures MinusSegments(c, items).(path := c.path) == c
  {
    var segs := WithoutAll(Split(c.path, "/"), set x | x in StrsOf(items));
    NoSlashInPieces(c.path);
    SelectedPieces(Split(c.path, "/"), segs);
    SplitJoin(segs, '/');
  }

  /** `replace_fragment(f)` sets the fragment to `f` without its leading
      `#`s and changes nothing else. */
  lemma ReplaceFragmentProps(c: Components, f: string)
    ensures Added(c, PyStr("#" + f), "") == c.(fragment := LStrip(f, {'#'}))
  {
    var t := "#" + f;
    assert t[..1] == "#" && t[1..] == f;
    assert !StartsWith(t, "?");
    assert PlusText(c, t) == c.(fragment := LStrip(t, {'#'}));
    assert LStrip(t, {'#'}) == LStrip(f, {'#'});
  }

  /** `- "#"` clears the fragment and leaves everything else as it was. */
  lemma MinusFragment(c: Components)
    ensures MinusText(c, "#") == c.(fragment := "")
  {
  }

  /** `- "?"` clears the query; the path is also rewritten, but a path with
      no `?` segment comes back unchanged. */
  lemma MinusQuery(c: Components)
    requires "?" !in Split(c.path, "/")
    ensures MinusText(c, "?") == c.(query := "")
  {
    WithoutAbsent(Split(c.path, "/"), "?");
    JoinSplit(c.path, "/");
  }

  lemma {:induction false} WithoutAbsent(segments: seq<string>, s: string)
    requires s !in segments
    ensures Without(segments, s) == segments
  {
    if segments != [] {
      assert segments[1..] + [] == segments[1..];
      assert s !in segments[1..];
      WithoutAbsent(segments[1..], s);
    }
  }

  /** `/ "p"` makes the path `p` without its leading `/`; `/ [..]` makes it
      the items joined by `/`, so splitting it gives the items back when
      none holds a `/`. Nothing but the path changes. */
  lemma DivPath(c: Components, m: Value)
    ensures Divided(c, m).(path := c.path) == c
    ensures m.PyStr? ==> Divided(c, m).path == LStrip(m.s, Slash)
    ensures ((m.PyList? || m.PyTuple?) && m.items != [] &&
        forall i, j :: 0 <= i < |m.items| && 0 <= j < |StrOf(m.items[i])| ==> StrOf(m.items[i])[j] != '/') ==>
      Split(Divided(c, m).path, "/") == StrsOf(m.items)
    ensures m.PyDict? && m.entries != [] && PairsNoSlash(m.entries) ==>
      Split(Divided(c, m).path, "/") == PairTokens(m.entries)
  {
    if m.PyDict? && m.entries != [] && PairsNoSlash(m.entries) {
      SplitPairSegments(m.entries);
    }
    if (m.PyList? || m.PyTuple?) && m.items != [] &&
      (forall i, j :: 0 <= i < |m.items| && 0 <= j < |StrOf(m.items[i])| ==> StrOf(m.items[i])[j] != '/')
    {
      var strs := StrsOf(m.items);
      forall i | 0 <= i < |strs| ensures strs[i] == StrOf(m.items[i]) {
        StrsOfAt(m.items, i);
      }
      SplitJoin(strs, '/');
    }
  }

  /** `+ [..]` appends the joined items after the old path without its
      trailing `/`. */
  lemma PlusSegmentsPath(c: Components, items: seq<Value>)
    ensures var p := PlusSegments(c, items).path;
      StartsWith(p, RStrip(c.path, Slash) + "/") &&
      p[|RStrip(c.path, Slash)| + 1..] == Join(StrsOf(items), "/")
    ensures PlusSegments(c, items).(path := c.path) == c
  {
    var base := RStrip(c.path, Slash);
    var p := base + "/" + Join(StrsOf(items), "/");
    assert p[..|base| + 1] == base + "/";
    assert p[|base| + 1..] == Join(StrsOf(items), "/");
  }
}
