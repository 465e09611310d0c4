/** `EntityTime` (lib/time.py): a point in time together with a format
    string. It is built from a relative shift such as `"+3 hours"`, from a
    format, from a string parsed with that format, from a timestamp or from a
    date; it can be shifted, and two times can be subtracted.

    A datetime is a whole number of seconds counted from 0001-01-01 00:00,
    the first day of Python's proleptic calendar. The clock (`datetime.now`),
    `datetime.strptime` and `datetime.fromtimestamp` are given as a `Clock`
    in that same scale. */
module Time {
  import opened StrOps
  import opened PyValue

  // ---------------------------------------------------------------------
  // Shift strings

  datatype Unit = Hour | Minute | Day

  /** The seconds in one unit: what `DeltaTime(hours=1)`, `minutes=1` and
      `days=1` stand for. */
  function UnitSeconds(u: Unit): nat {
    match u
    case Hour => 3600
    case Minute => 60
    case Day => 86400
  }

  /** The singular unit word. The pattern's alternation tries it before the
      plural, so a match without `$` ends right after it. */
  function UnitName(u: Unit): string {
    match u
    case Hour => "hour"
    case Minute => "minute"
    case Day => "day"
  }

  /** What `([+-]\d+)\s+(hour|hours|minute|minutes|day|days)` matches at the
      start of a string: the sign, the digits, the whitespace and the unit. */
  datatype Shift = Shift(sign: char, digits: string, space: string, unit: Unit)

  predicate WellFormed(sh: Shift) {
    (sh.sign == '+' || sh.sign == '-') &&
    sh.digits != [] && AllDigits(sh.digits) &&
    sh.space != [] && forall i :: 0 <= i < |sh.space| ==> IsSpace(sh.space[i])
  }

  /** The matched text. */
  function Text(sh: Shift): string {
    [sh.sign] + (sh.digits + (sh.space + UnitName(sh.unit)))
  }

  /** `int(match.group(1))`: the signed number. */
  function Amount(sh: Shift): int
    requires AllDigits(sh.digits)
  {
    var n: int := DigitsValue(sh.digits);
    if sh.sign == '-' then -n else n
  }

  /** The length of the run of digits `s` starts with. */
  function DigitRun(s: string): (n: nat)
    ensures n <= |s| && AllDigits(s[..n]) && (n < |s| ==> !IsDigit(s[n]))
  {
    if s != [] && IsDigit(s[0]) then
      var n := 1 + DigitRun(s[1..]);
      assert s[..n] == [s[0]] + s[1..][..n - 1];
      n
    else 0
  }

  /** The length of the run of whitespace `s` starts with. */
  function SpaceRun(s: string): (n: nat)
    ensures n <= |s| && (forall i :: 0 <= i < n ==> IsSpace(s[i])) && (n < |s| ==> !IsSpace(s[n]))
  {
    if s != [] && IsSpace(s[0]) then 1 + SpaceRun(s[1..]) else 0
  }

  /** The unit word `rest` starts with, trying `hour`, `minute`, `day`. */
  function UnitPrefix(rest: string): (r: Option<Unit>)
    ensures r.Some? ==> StartsWith(rest, UnitName(r.value))
  {
    if StartsWith(rest, "hour") then Some(Hour)
    else if StartsWith(rest, "minute") then Some(Minute)
    else if StartsWith(rest, "day") then Some(Day)
    else None
  }

  /** The match once the sign, digits and whitespace are read. */
  function MatchUnit(sign: char, digits: string, space: string, rest: string): (r: Option<Shift>)
    ensures r.Some? ==> r.value.sign == sign && r.value.digits == digits && r.value.space == space
    ensures r.Some? ==> StartsWith(rest, UnitName(r.value.unit))
  {
    match UnitPrefix(rest)
    case None => None
    case Some(u) => Some(Shift(sign, digits, space, u))
  }

  /** The match once the sign and digits are read: greedy whitespace. */
  function MatchSpace(sign: char, digits: string, s: string): (r: Option<Shift>)
    ensures r.Some? ==> (r.value.sign == sign && r.value.digits == digits && r.value.space != [] &&
      (forall i :: 0 <= i < |r.value.space| ==> IsSpace(r.value.space[i])) &&
      StartsWith(s, r.value.space + UnitName(r.value.unit)))
  {
    var w := SpaceRun(s);
    if w == 0 then None
    else
      var r := MatchUnit(sign, digits, s[..w], s[w..]);
      if r.Some? then
        assert s == s[..w] + s[w..];
        StartsWithAppend(s[..w], s[w..], UnitName(r.value.unit));
        r
      else r
  }

  /** The match once the sign is read: greedy digits. */
  function MatchDigits(sign: char, s: string): (r: Option<Shift>)
    ensures r.Some? ==> (r.value.sign == sign && r.value.digits != [] && AllDigits(r.value.digits) &&
      r.value.space != [] && (forall i :: 0 <= i < |r.value.space| ==> IsSpace(r.value.space[i])) &&
      StartsWith(s, r.value.digits + (r.value.space + UnitName(r.value.unit))))
  {
    var d := DigitRun(s);
    if d == 0 then None
    else
      var r := MatchSpace(sign, s[..d], s[d..]);
      if r.Some? then
        assert s == s[..d] + s[d..];
        StartsWithAppend(s[..d], s[d..], r.value.space + UnitName(r.value.unit));
        r
      else r
  }

  /** `re.match(r'([+-]\d+)\s+(hour|hours|minute|minutes|day|days)', s)`:
      both runs are greedy, and backing off either of them cannot help,
      since a digit is not whitespace and a unit word starts with neither. */
  function MatchShift(s: string): (r: Option<Shift>)
    ensures r.Some? ==> WellFormed(r.value) && StartsWith(s, Text(r.value))
  {
    if s == [] || (s[0] != '+' && s[0] != '-') then None
    else
      var r := MatchDigits(s[0], s[1..]);
      if r.Some? then
        var sh := r.value;
        assert s == [s[0]] + s[1..];
        StartsWithAppend([s[0]], s[1..], sh.digits + (sh.space + UnitName(sh.unit)));
        r
      else r
  }

  lemma StartsWithAppend(a: string, t: string, p: string)
    requires StartsWith(t, p)
    ensures StartsWith(a + t, a + p)
  {
    assert (a + t)[..|a + p|] == a + t[..|p|];
  }

  /** Every well-formed shift is found, whatever follows it: the match is
      exactly the strings of that form. */
  lemma MatchShiftComplete(sh: Shift, tail: string)
    requires WellFormed(sh)
    ensures MatchShift(Text(sh) + tail) == Some(sh)
  {
    var u := UnitName(sh.unit) + tail;
    var afterDigits := sh.space + u;
    var afterSign := sh.digits + afterDigits;
    calc {
      Text(sh) + tail;
      [sh.sign] + (sh.digits + (sh.space + UnitName(sh.unit))) + tail;
      { Assoc3([sh.sign], sh.digits + (sh.space + UnitName(sh.unit)), tail); }
      [sh.sign] + (sh.digits + (sh.space + UnitName(sh.unit)) + tail);
      { Assoc3(sh.digits, sh.space + UnitName(sh.unit), tail); }
      [sh.sign] + (sh.digits + (sh.space + UnitName(sh.unit) + tail));
      { Assoc3(sh.space, UnitName(sh.unit), tail); }
      [sh.sign] + afterSign;
    }
    MatchPieces(sh, u, afterDigits, afterSign);
    assert ([sh.sign] + afterSign)[1..] == afterSign;
  }

  lemma MatchPieces(sh: Shift, u: string, afterDigits: string, afterSign: string)
    requires WellFormed(sh)
    requires StartsWith(u, UnitName(sh.unit))
    requires afterDigits == sh.space + u && afterSign == sh.digits + afterDigits
    ensures MatchDigits(sh.sign, afterSign) == Some(sh)
  {
    UnitPrefixOf(sh.unit, u);
    SpaceRunOf(sh.space, u);
    assert afterDigits[..|sh.space|] == sh.space && afterDigits[|sh.space|..] == u;
    assert MatchSpace(sh.sign, sh.digits, afterDigits) == Some(sh);
    DigitRunOf(sh.digits, afterDigits);
    assert afterSign[..|sh.digits|] == sh.digits && afterSign[|sh.digits|..] == afterDigits;
  }

  lemma Assoc3(a: string, b: string, c: string)
    ensures a + b + c == a + (b + c)
  {
  }

  /** A unit word is recognised whatever follows it, and cannot start with
      a digit or with whitespace. */
  lemma UnitPrefixOf(unit: Unit, u: string)
    requires StartsWith(u, UnitName(unit))
    ensures UnitPrefix(u) == Some(unit)
    ensures !IsDigit(u[0]) && !IsSpace(u[0])
  {
    assert u[0] == UnitName(unit)[0];
    match unit
    case Hour =>
    case Minute =>
      assert !StartsWith(u, "hour") by { assert u[0] != 'h'; }
    case Day =>
      assert !StartsWith(u, "hour") by { assert u[0] != 'h'; }
      assert !StartsWith(u, "minute") by { assert u[0] != 'm'; }
  }

  lemma {:induction false} DigitRunOf(ds: string, rest: string)
    requires AllDigits(ds) && (rest == [] || !IsDigit(rest[0]))
    ensures DigitRun(ds + rest) == |ds|
  {
    if ds != [] {
      assert (ds + rest)[1..] == ds[1..] + rest;
      DigitRunOf(ds[1..], rest);
    }
  }

  lemma {:induction false} SpaceRunOf(ws: string, rest: string)
    requires (forall i :: 0 <= i < |ws| ==> IsSpace(ws[i])) && (rest == [] || !IsSpace(rest[0]))
    ensures SpaceRun(ws + rest) == |ws|
  {
    if ws != [] {
      assert (ws + rest)[1..] == ws[1..] + rest;
      SpaceRunOf(ws[1..], rest);
    }
  }

  /** `int()` reads the matched number with its sign. */
  lemma AmountIsInt(sh: Shift)
    requires WellFormed(sh)
    ensures ParseInt([sh.sign] + sh.digits) == Some(Amount(sh))
  {
    var t := [sh.sign] + sh.digits;
    assert t[0] !in WhitespaceSet();
    assert t[|t| - 1] !in WhitespaceSet() by {
      assert t[|t| - 1] == sh.digits[|sh.digits| - 1];
    }
    assert LStrip(t, WhitespaceSet()) == t;
    assert RStrip(t, WhitespaceSet()) == t;
    assert t[1..] == sh.digits;
  }

  /** `_apply_shift(time_shift)` on a datetime. */
  function Shifted(t: int, timeShift: Option<string>): int {
    if timeShift.None? then t
    else match MatchShift(timeShift.value)
      case None => t
      case Some(sh) => t + Amount(sh) * UnitSeconds(sh.unit)
  }

  /** A well-formed shift adds its signed number of hours, minutes or days,
      in seconds; anything may follow it. */
  lemma ShiftAdds(t: int, sh: Shift, tail: string)
    requires WellFormed(sh)
    ensures Shifted(t, Some(Text(sh) + tail)) == t + Amount(sh) * UnitSeconds(sh.unit)
    ensures sh.unit == Hour ==> Shifted(t, Some(Text(sh) + tail)) == t + Amount(sh) * 3600
    ensures sh.unit == Minute ==> Shifted(t, Some(Text(sh) + tail)) == t + Amount(sh) * 60
    ensures sh.unit == Day ==> Shifted(t, Some(Text(sh) + tail)) == t + Amount(sh) * 86400
  {
    MatchShiftComplete(sh, tail);
  }

  /** The same for a shift string with nothing after it. */
  lemma ShiftExact(t: int, sh: Shift)
    requires WellFormed(sh)
    ensures Shifted(t, Some(Text(sh))) == t + Amount(sh) * UnitSeconds(sh.unit)
  {
    MatchShiftComplete(sh, "");
    assert Text(sh) + "" == Text(sh);
  }

  /** `"+N hour"` and `"+N hours"` shift alike, and so do the other units. */
  lemma PluralSameShift(t: int, sh: Shift)
    requires WellFormed(sh)
    ensures Shifted(t, Some(Text(sh) + "s")) == Shifted(t, Some(Text(sh)))
  {
    ShiftAdds(t, sh, "s");
    ShiftExact(t, sh);
  }

  /** No shift string, or one that does not match, changes nothing; a
      string without a leading sign never matches. */
  lemma NoMatchUnchanged(t: int, s: string)
    ensures Shifted(t, None) == t
    ensures MatchShift(s).None? ==> Shifted(t, Some(s)) == t
    ensures s == [] || (s[0] != '+' && s[0] != '-') ==> Shifted(t, Some(s)) == t
  {
  }

  /** The shift with the opposite sign. */
  function Negated(sh: Shift): Shift {
    sh.(sign := if sh.sign == '-' then '+' else '-')
  }

  /** Shifting by `"+N unit"` and then by `"-N unit"` comes back to where it
      started. */
  lemma ShiftInverse(t: int, sh: Shift)
    requires WellFormed(sh)
    ensures Shifted(Shifted(t, Some(Text(sh))), Some(Text(Negated(sh)))) == t
  {
    var t' := Shifted(t, Some(Text(sh)));
    ShiftExact(t, sh);
    ShiftExact(t', Negated(sh));
    NegatedDelta(sh);
  }

  lemma NegatedDelta(sh: Shift)
    requires AllDigits(sh.digits)
    ensures Amount(Negated(sh)) * UnitSeconds(Negated(sh).unit) == -(Amount(sh) * UnitSeconds(sh.unit))
  {
    var a := Amount(sh);
    assert Amount(Negated(sh)) == -a;
    assert Negated(sh).unit == sh.unit;
    match sh.unit
    case Hour =>
    case Minute =>
    case Day =>
  }

  /** The constructor's `^([+-]\d+)\s+(hour|hours|...|days)$`: the whole
      string is a shift, except that `$` also matches before a final
      newline. */
  predicate FullShift(s: string) {
    match MatchShift(s)
    case None => false
    case Some(sh) =>
      var rest := s[|Text(sh)|..];
      rest == "" || rest == "\n" || rest == "s" || rest == "s\n"
  }

  /** A shift string passes the constructor's test exactly when all that
      follows the singular unit word is nothing, an `s`, or either of those
      and a final newline. */
  lemma FullShiftIff(sh: Shift, rest: string)
    requires WellFormed(sh)
    ensures FullShift(Text(sh) + rest) <==> rest == "" || rest == "\n" || rest == "s" || rest == "s\n"
  {
    MatchShiftComplete(sh, rest);
    assert (Text(sh) + rest)[|Text(sh)|..] == rest;
  }

  // ---------------------------------------------------------------------
  // Dates: `datetime(year, month, day)`

  predicate IsLeap(y: int) {
    y % 4 == 0 && (y % 100 != 0 || y % 400 == 0)
  }

  function DaysInMonth(y: int, m: int): (n: int)
    requires 1 <= m <= 12
    ensures 28 <= n <= 31
  {
    if m == 2 then (if IsLeap(y) then 29 else 28)
    else if m == 4 || m == 6 || m == 9 || m == 11 then 30
    else 31
  }

  /** Days in the months before `m`. */
  function DaysBeforeMonth(y: int, m: int): int
    requires 1 <= m <= 12
  {
    var table := [0, 31, 59, 90, 120, 151, 181, 212, 243, 273, 304, 334];
    table[m - 1] + (if m > 2 && IsLeap(y) then 1 else 0)
  }

  /** Days in the years before `y`. */
  function DaysBeforeYear(y: int): int {
    var y1 := y - 1;
    y1 * 365 + y1 / 4 - y1 / 100 + y1 / 400
  }

  /** What `datetime` accepts: years 1 to 9999 and real calendar days. */
  predicate ValidDate(y: int, m: int, d: int) {
    1 <= y <= 9999 && 1 <= m <= 12 && 1 <= d <= DaysInMonth(y, m)
  }

  /** `date.toordinal()`: 0001-01-01 is day 1. */
  function Ordinal(y: int, m: int, d: int): int
    requires ValidDate(y, m, d)
  {
    DaysBeforeYear(y) + DaysBeforeMonth(y, m) + d
  }

  /** The calendar day after a given one. */
  function NextDay(y: int, m: int, d: int): (int, int, int)
    requires ValidDate(y, m, d)
  {
    if d < DaysInMonth(y, m) then (y, m, d + 1)
    else if m < 12 then (y, m + 1, 1)
    else (y + 1, 1, 1)
  }

  /** A year has 366 days when it is a leap year and 365 otherwise. */
  lemma YearLength(y: int)
    requires y >= 1
    ensures DaysBeforeYear(y + 1) == DaysBeforeYear(y) + (if IsLeap(y) then 366 else 365)
  {
    Step4(y);
    Step100(y);
    Step400(y);
  }

  lemma Step4(y: int)
    ensures y / 4 - (y - 1) / 4 == (if y % 4 == 0 then 1 else 0)
  {
  }

  lemma Step100(y: int)
    ensures y / 100 - (y - 1) / 100 == (if y % 100 == 0 then 1 else 0)
  {
  }

  lemma Step400(y: int)
    ensures y / 400 - (y - 1) / 400 == (if y % 400 == 0 then 1 else 0)
  {
  }

  /** Ordinals count days without a gap: the next calendar day has the next
      ordinal. */
  lemma NextDayOrdinal(y: int, m: int, d: int)
    requires ValidDate(y, m, d) && (y, m, d) != (9999, 12, 31)
    ensures var (y', m', d') := NextDay(y, m, d);
      ValidDate(y', m', d') && Ordinal(y', m', d') == Ordinal(y, m, d) + 1
  {
    if d == DaysInMonth(y, m) && m == 12 {
      YearLength(y);
    }
  }

  /** The first day has ordinal 1 and every valid date a positive one. */
  lemma OrdinalPositive(y: int, m: int, d: int)
    requires ValidDate(y, m, d)
    ensures Ordinal(y, m, d) >= 1
    ensures Ordinal(1, 1, 1) == 1
  {
  }

  // ---------------------------------------------------------------------
  // Construction

  /** A constructor or operator argument: another `EntityTime` (by its
      datetime) or a plain value. */
  datatype Arg = Instance(seconds: int) | Plain(v: Value)

  /** The outside world `EntityTime` calls: `datetime.now()`,
      `datetime.strptime(s, format)` (`None` where it raises `ValueError`)
      and `datetime.fromtimestamp(ts)`. */
  datatype Clock = Clock(now: int, strptime: (string, string) -> Option<int>, fromTimestamp: int -> int)

  /** The class attribute `format`. */
  const DefaultFormat := "%Y%m%d%H%M%S"

  /** An `EntityTime`'s state. */
  datatype Moment = Moment(seconds: int, format: string)

  /** `isinstance(v, int)` (a `bool` is an `int` too) and its value. */
  function IntValue(v: Value): Option<int> {
    match v
    case PyInt(i) => Some(i)
    case PyBool(b) => Some(if b then 1 else 0)
    case _ => None
  }

  function ArgInt(a: Arg): Option<int> {
    if a.Plain? then IntValue(a.v) else None
  }

  /** `datetime(y, m, d) + DeltaTime(seconds=s)`, `s` being 0 without a
      fourth argument. */
  function FromDate(args: seq<Arg>): (r: Result<int>)
    requires |args| >= 3
    ensures r.Ok? ==> (ArgInt(args[0]).Some? && ArgInt(args[1]).Some? && ArgInt(args[2]).Some? &&
      ValidDate(ArgInt(args[0]).value, ArgInt(args[1]).value, ArgInt(args[2]).value))
  {
    var (y, m, d) := (ArgInt(args[0]), ArgInt(args[1]), ArgInt(args[2]));
    if y.None? || m.None? || d.None? then Err(TypeError)
    else if !ValidDate(y.value, m.value, d.value) then Err(ValueError)
    else
      var extra := if |args| > 3 then ArgInt(args[3]) else Some(0);
      if extra.None? then Err(TypeError)
      else Ok((Ordinal(y.value, m.value, d.value) - 1) * 86400 + extra.value)
  }

  /** `EntityTime(*args, format=...)`: the datetime and format it ends with,
      or the exception it raises. */
  function Construct(args: seq<Arg>, formatKw: Option<string>, clock: Clock): Result<Moment> {
    var format := if formatKw.Some? then formatKw.value else DefaultFormat;
    if |args| == 1 && args[0].Instance? then Err(ValueError)
    else if |args| == 1 && args[0].v.PyStr? then
      var s := args[0].v.s;
      if FullShift(s) then Ok(Moment(Shifted(clock.now, Some(s)), format))
      else if '%' in s then Ok(Moment(clock.now, s))
      else match clock.strptime(s, format)
        case None => Err(ValueError)
        case Some(t) => Ok(Moment(t, format))
    else if |args| == 1 && IntValue(args[0].v).Some? then
      Ok(Moment(clock.fromTimestamp(IntValue(args[0].v).value), format))
    else if |args| >= 3 then
      match FromDate(args)
      case Err(e) => Err(e)
      case Ok(t) => Ok(Moment(t, format))
    else Ok(Moment(clock.now, format))
  }

  /** An `EntityTime` argument is refused. */
  lemma CyclicCall(t: int, formatKw: Option<string>, clock: Clock)
    ensures Construct([Instance(t)], formatKw, clock) == Err(ValueError)
  {
  }

  /** A shift string with its sign moves "now" by the shift and keeps the
      format. */
  lemma ConstructShift(sh: Shift, formatKw: Option<string>, clock: Clock)
    requires WellFormed(sh)
    ensures Construct([Plain(PyStr(Text(sh)))], formatKw, clock).Ok?
    ensures Construct([Plain(PyStr(Text(sh)))], formatKw, clock).value.seconds == clock.now + Amount(sh) * UnitSeconds(sh.unit)
    ensures Construct([Plain(PyStr(Text(sh)))], formatKw, clock).value.format == if formatKw.Some? then formatKw.value else DefaultFormat
  {
    FullShiftIff(sh, "");
    assert Text(sh) + "" == Text(sh);
    ConstructFromShift(Text(sh), formatKw, clock);
    ShiftExact(clock.now, sh);
  }

  /** The same with the plural unit word. */
  lemma ConstructShiftPlural(sh: Shift, formatKw: Option<string>, clock: Clock)
    requires WellFormed(sh)
    ensures Construct([Plain(PyStr(Text(sh) + "s"))], formatKw, clock).Ok?
    ensures Construct([Plain(PyStr(Text(sh) + "s"))], formatKw, clock).value.seconds == clock.now + Amount(sh) * UnitSeconds(sh.unit)
    ensures Construct([Plain(PyStr(Text(sh) + "s"))], formatKw, clock).value.format == if formatKw.Some? then formatKw.value else DefaultFormat
  {
    FullShiftIff(sh, "s");
    ConstructFromShift(Text(sh) + "s", formatKw, clock);
    ShiftAdds(clock.now, sh, "s");
  }

  lemma ConstructFromShift(s: string, formatKw: Option<string>, clock: Clock)
    requires FullShift(s)
    ensures Construct([Plain(PyStr(s))], formatKw, clock) ==
      Ok(Moment(Shifted(clock.now, Some(s)), if formatKw.Some? then formatKw.value else DefaultFormat))
  {
  }

  /** A string that is not a shift but holds `%` becomes the format, and
      the datetime stays "now". */
  lemma ConstructFormat(s: string, formatKw: Option<string>, clock: Clock)
    requires !FullShift(s) && '%' in s
    ensures Construct([Plain(PyStr(s))], formatKw, clock) == Ok(Moment(clock.now, s))
  {
  }

  /** Any other string is parsed with the format, and a string `strptime`
      rejects raises `ValueError`. */
  lemma ConstructParsed(s: string, formatKw: Option<string>, clock: Clock)
    requires !FullShift(s) && '%' !in s
    ensures var format := if formatKw.Some? then formatKw.value else DefaultFormat;
      Construct([Plain(PyStr(s))], formatKw, clock) ==
      (if clock.strptime(s, format).Some? then Ok(Moment(clock.strptime(s, format).value, format)) else Err(ValueError))
  {
  }

  /** Without arguments, and with two, the datetime is "now". */
  lemma ConstructNow(args: seq<Arg>, formatKw: Option<string>, clock: Clock)
    requires |args| == 0 || |args| == 2
    ensures Construct(args, formatKw, clock).Ok? && Construct(args, formatKw, clock).value.seconds == clock.now
  {
  }

  /** From a date, consecutive days are 86400 seconds apart, and the fourth
      argument adds seconds. */
  lemma ConstructDate(y: int, m: int, d: int, s: int, clock: Clock)
    requires ValidDate(y, m, d) && (y, m, d) != (9999, 12, 31)
    ensures var (y', m', d') := NextDay(y, m, d);
      var today := Construct([Plain(PyInt(y)), Plain(PyInt(m)), Plain(PyInt(d))], None, clock);
      var tomorrow := Construct([Plain(PyInt(y')), Plain(PyInt(m')), Plain(PyInt(d'))], None, clock);
      var later := Construct([Plain(PyInt(y)), Plain(PyInt(m)), Plain(PyInt(d)), Plain(PyInt(s))], None, clock);
      today.Ok? && tomorrow.Ok? && later.Ok? &&
      tomorrow.value.seconds == today.value.seconds + 86400 &&
      later.value.seconds == today.value.seconds + s
  {
    NextDayOrdinal(y, m, d);
  }

  // ---------------------------------------------------------------------
  // Subtraction

  /** `self - other`: a string or a number is first made an `EntityTime`;
      anything else has no datetime to subtract. */
  function Difference(t: int, other: Arg, clock: Clock): Result<int> {
    match other
    case Instance(u) => Ok(t - u)
    case Plain(v) =>
      if v.PyStr? || IntValue(v).Some? then
        match Construct([other], None, clock)
        case Err(e) => Err(e)
        case Ok(o) => Ok(t - o.seconds)
      else Err(AttributeError)
  }

  /** `other - self`, through `__rsub__`. */
  function ReverseDifference(t: int, other: Arg, clock: Clock): Result<int> {
    match other
    case Instance(u) => Ok(u - t)
    case Plain(v) =>
      if v.PyStr? || IntValue(v).Some? then
        match Construct([other], None, clock)
        case Err(e) => Err(e)
        case Ok(o) => Ok(o.seconds - t)
      else Err(AttributeError)
  }

  /** `__rsub__` is `__sub__` negated, for every operand: both fail with the
      same exception or give opposite differences. */
  lemma ReverseIsNegated(t: int, other: Arg, clock: Clock)
    ensures Difference(t, other, clock).Ok? <==> ReverseDifference(t, other, clock).Ok?
    ensures Difference(t, other, clock).Err? ==> ReverseDifference(t, other, clock) == Difference(t, other, clock)
    ensures Difference(t, other, clock).Ok? ==> ReverseDifference(t, other, clock).value == -Difference(t, other, clock).value
  {
  }

  /** `a - b` is the negation of `b - a` for two instances. */
  lemma DifferenceAntisymmetric(a: int, b: int, clock: Clock)
    ensures Difference(a, Instance(b), clock).Ok? && Difference(b, Instance(a), clock).Ok?
    ensures Difference(a, Instance(b), clock).value == -Difference(b, Instance(a), clock).value
  {
  }

  /** Subtracting a shift string measures the shift back from "now". */
  lemma DifferenceFromShift(sh: Shift, clock: Clock)
    requires WellFormed(sh)
    ensures Difference(clock.now, Plain(PyStr(Text(sh))), clock) == Ok(-(Amount(sh) * UnitSeconds(sh.unit)))
  {
    ConstructShift(sh, None, clock);
  }

  // ---------------------------------------------------------------------
  // The object

  class EntityTime {
    var seconds: int
    var format: string

    /** The first two lines of `__init__`: "now" and the format. */
    constructor(now: int, format: string)
      ensures seconds == now && this.format == format
    {
      seconds := now;
      this.format := format;
    }

    /** `EntityTime(*args, format=...)`: the dispatch on the arguments. */
    static method New(args: seq<Arg>, formatKw: Option<string>, clock: Clock) returns (r: Result<EntityTime>)
      ensures r.Ok? ==> fresh(r.value)
      ensures r.Ok? ==> Construct(args, formatKw, clock) == Ok(Moment(r.value.seconds, r.value.format))
      ensures r.Err? ==> Construct(args, formatKw, clock) == Err(r.error)
    {
      var t := new EntityTime(clock.now, if formatKw.Some? then formatKw.value else DefaultFormat);
      if |args| == 1 && args[0].Instance? {
        return Err(ValueError);
      } else if |args| == 1 && args[0].v.PyStr? {
        var s := args[0].v.s;
        if FullShift(s) {
          t.ApplyShift(Some(s));
        } else if '%' in s {
          t.format := s;
        } else {
          match clock.strptime(s, t.format)
          case None =>
            return Err(ValueError);
          case Some(parsed) =>
            t.seconds := parsed;
        }
      } else if |args| == 1 && IntValue(args[0].v).Some? {
        t.seconds := clock.fromTimestamp(IntValue(args[0].v).value);
      } else if |args| >= 3 {
        match FromDate(args)
        case Err(e) =>
          return Err(e);
        case Ok(date) =>
          t.seconds := date;
      }
      r := Ok(t);
    }

    /** `_apply_shift(time_shift)`: the datetime moves by the shift the
        string starts with, if any; the format is kept. */
    method ApplyShift(timeShift: Option<string>)
      modifies this
      ensures seconds == Shifted(old(seconds), timeShift)
      ensures format == old(format)
    {
      if timeShift.None? {
        return;
      }
      var m := MatchShift(timeShift.value);
      if m.Some? {
        var value := Amount(m.value);
        var delta;
        match m.value.unit {
          case Hour =>
            delta := value * 3600;
          case Minute =>
            delta := value * 60;
          case Day =>
            delta := value * 86400;
        }
        seconds := seconds + delta;
      }
    }

    /** `self - other`. */
    method Sub(other: Arg, clock: Clock) returns (r: Result<int>)
      ensures r == Difference(seconds, other, clock)
    {
      match other
      case Instance(u) =>
        r := Ok(seconds - u);
      case Plain(v) =>
        if v.PyStr? || IntValue(v).Some? {
          var o := New([other], None, clock);
          if o.Err? {
            return Err(o.error);
          }
          r := Ok(seconds - o.value.seconds);
        } else {
          r := Err(AttributeError);
        }
    }

    /** `other - self`. */
    method RSub(other: Arg, clock: Clock) returns (r: Result<int>)
      ensures r == ReverseDifference(seconds, other, clock)
    {
      match other
      case Instance(u) =>
        r := Ok(u - seconds);
      case Plain(v) =>
        if v.PyStr? || IntValue(v).Some? {
          var o := New([other], None, clock);
          if o.Err? {
            return Err(o.error);
          }
          r := Ok(o.value.seconds - seconds);
        } else {
          r := Err(AttributeError);
        }
    }
  }
}
