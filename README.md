# UtilityLib core, modelled in Dafny

UtilityLib is a Python convenience library. A stack of mix-in "utility"
classes gives one object string and sequence helpers (`DataUtility`),
command-line helpers (`CommandUtility`), attribute and working-directory
handling (`BaseUtility`) and project configuration (`ProjectManager`). Two
small entity classes sit beside them: `EntityURL` edits a URL through
operators, and `EntityTime` holds a point in time that can be built from a
relative shift such as `"+3 hours"`.

This project models the sequential logic of those classes and proves what
it promises:

- `DataUtility`: digit extraction, the digit-keyed sort, chunking,
  bounded-depth flattening, range expansion, slugs, separator guessing,
  substring search, recursive stripping and CSV formatting.
- `CommandUtility`: command formatting, the parser for unregistered
  command-line arguments, argument flattening, `nargs` guessing and the
  worker-count rule.
- `EntityURL`: the component accessors and the operators that rewrite the
  parsed URL in place.
- `ProjectManager`: TOML normalisation, path and join helpers, and the
  config file name.
- `BaseUtility`: attribute updates and the choice of `path_base`.
- `EntityTime`: the dispatch of its constructor on the argument types,
  time shifts and subtraction.

Python values are the datatype `PyValue.Value`. A dict is an ordered list
of entries, because the library depends on insertion order. The exceptions
the code raises are `PyValue.Error`, returned in a `Result`. Python's
string built-ins (`strip`, `split`, `join`, `count`, `replace`, `int()`,
`str()`) are written out in `StrOps`.

Objects whose methods update fields are classes:

- `EntityUrl` has the field `parsed`.
- `BaseUtility` has the fields `attrs` and `pathBase`.
- `CommandUtility` has the field `maxWorkers`.
- `EntityTime` has the fields `seconds` and `format`.

Each method is proved against a specification function. The properties
themselves are lemmas about those functions.

The following outside inputs are parameters:

- The operating system's answers: `os.cpu_count()` and whether the system
  is Windows.
- For URLs, the output of `parse_qs`/`urlencode`.
- For `EntityTime`, the clock (`datetime.now`), `strptime` and
  `fromtimestamp`. They are given as a `Time.Clock` that counts whole
  seconds from 0001-01-01.

## Model

| member | source | states |
|---|---|---|
| Data.Digits | UtilityLib/core/data.py:375 | the digit filter yields only digits and is never longer than its input |
| Data.ParseDigits | UtilityLib/core/data.py:365-375 | `parse_digits(x)` holds only digits and is no longer than `str(x)` |
| Data.DigitsConcat | UtilityLib/core/data.py:375 | the digits of a concatenation are the concatenation of the digits, so the result is the input's digits in order |
| Data.DigitsChar | UtilityLib/core/data.py:375 | one character is kept exactly when it is a digit |
| Data.DigitsOfDigits | UtilityLib/core/data.py:375 | a string of digits is returned unchanged |
| Data.ParseDigitsIdempotent | UtilityLib/core/data.py:365-375 | applying `parse_digits` twice is the same as applying it once |
| Data.Insert | UtilityLib/core/data.py:362 | inserting into the sorted list adds exactly one element (same multiset plus it) |
| Data.SortByKey | UtilityLib/core/data.py:362 | the sort by the digit key is a permutation of its input |
| Data.SortNumeric | UtilityLib/core/data.py:351-363 | `sort_numeric` fails exactly when `list(it)` fails and otherwise returns a permutation of the items |
| Data.SortByKeySorted | UtilityLib/core/data.py:362 | the result is ordered by the digit-only string key |
| Data.SortByKeyStable | UtilityLib/core/data.py:362 | items with equal keys keep their input order (the sort is stable) |
| Data.SortNumericIsLexicographic | UtilityLib/core/data.py:360-363 | the key order is lexicographic on strings: `"10"` sorts before `"9"` |
| Data.IsIterable | UtilityLib/core/data.py:567-572 | iterable means "has `__iter__`" and is neither `str` nor `bytes` |
| Data.ConcatPieces | UtilityLib/core/data.py:549-550 | the chunks concatenate back to the input |
| Data.PiecesSizes | UtilityLib/core/data.py:549-550 | every chunk but the last has length `size`; the last is non-empty and at most `size` long |
| Data.SliceInto | UtilityLib/core/data.py:549-550 | the slicing loop yields exactly the chunks of the specification |
| Data.ChunksOf | UtilityLib/core/data.py:544-550 | `None` and non-iterables yield no chunks (a generator); size 0 raises `ValueError`; a negative size yields nothing; a non-empty dict raises |
| Data.Chunks | UtilityLib/core/data.py:544-550 | the generator method yields the chunks of `ChunksOf` |
| Data.Flattened | UtilityLib/core/data.py:575-589 | a non-iterable comes back unchanged; an iterable above the level bound becomes a list |
| Data.Flatten | UtilityLib/core/data.py:581-589 | the collecting loop yields `Flattened` |
| Data.Leaves | UtilityLib/core/data.py:584-586 | the leaves of a value contain no iterable |
| Data.FlattenedLeaves | UtilityLib/core/data.py:575-589 | below the level bound, flattening gives the leaves in left-to-right order |
| Data.DefaultFlattenIsFlat | UtilityLib/core/data.py:575 | at the default level 99 no iterable is left in the result |
| Data.PrintCsv | UtilityLib/core/data.py:805-812 | a text is returned exactly when `ret` is true |
| Data.PrintCsvScalars | UtilityLib/core/data.py:805-811 | for scalar arguments the text is their `str()`s joined by `sep` |
| Data.RangeOf | UtilityLib/core/data.py:754 | `range(lo, hi)` holds `hi - lo` consecutive integers from `lo` |
| Data.ExpandPieceClosed | UtilityLib/core/data.py:754 | `"a-b"` expands to `a..b` inclusive |
| Data.ExpandPieceOpen | UtilityLib/core/data.py:754 | `"a-"` expands to `[a]` |
| Data.ExpandPieceBare | UtilityLib/core/data.py:754 | `"a"` without a dash raises `IndexError` |
| Data.ExpandRangesJoined | UtilityLib/core/data.py:752-756 | the comma-joined pieces expand piece by piece |
| Data.ExpandAllOk | UtilityLib/core/data.py:753-756 | when every piece expands, the result is their concatenation in order |
| Data.SlugCharsMap | UtilityLib/core/data.py:767 | each character is kept when alphanumeric or in `keep` and replaced otherwise, and the length is kept |
| Data.SlugDefaults | UtilityLib/core/data.py:759-772 | with the defaults, the slug has the text's length, holds only alphanumerics and `-`, and has no upper case when lowered |
| Data.Chars | UtilityLib/core/data.py:784 | `list(s)`: pieces of length one that join back to `s` |
| Data.SeparatorsOf | UtilityLib/core/data.py:783-795 | a non-iterable argument becomes pieces of length one that join back to its `str()`; an iterable one is used as it is when all its items are `str`, and raises `TypeError` otherwise |
| Data.SeparatorList | UtilityLib/core/data.py:776-784 | an absent argument means `string_separators`, i.e. `,` `;` space and newline |
| Data.IsGuessUnique | UtilityLib/core/data.py:786-795 | the earliest separator with the strictly greatest positive count is unique |
| Data.GuessSeparatorOf | UtilityLib/core/data.py:777-795 | `_guess_separator` raises `TypeError` exactly when the normalised separators hold a non-`str`; otherwise it returns the guess characterised by `IsGuessUnique` |
| Data.GuessSeparator | UtilityLib/core/data.py:786-795 | the loop returns the earliest separator with the strictly greatest positive count, or `None` when no separator occurs |
| Data.SplitWith | UtilityLib/core/data.py:802 | `split` raises `ValueError` exactly for the empty separator |
| Data.SplitGuess | UtilityLib/core/data.py:797-803 | `split_guess` raises the guess's `TypeError`, or splits on the guessed separator |
| Data.SplitWithJoin | UtilityLib/core/data.py:802 | joining the pieces with the separator gives the text back |
| Data.PyIndexEnds | UtilityLib/core/data.py:629 | Python indexing: non-negative positions count from the front and negative ones from the back, whatever comes before or after, and anything out of range raises `IndexError` |
| Data.GetParts | UtilityLib/core/data.py:623-629 | an empty delimiter raises `ValueError` |
| Data.GetPartsOfJoined | UtilityLib/core/data.py:623-629 | on a `/`-joined path, positive and negative positions pick the same part |
| Data.SubstringsFromMember | UtilityLib/core/data.py:656-657 | the slices taken are exactly the non-empty substrings |
| Data.Keep | UtilityLib/core/data.py:659-660 | a candidate is kept exactly when it occurs in the other text and is longer than `min_len` |
| Data.CommonSubstringsMember | UtilityLib/core/data.py:631-664 | the result holds exactly the non-empty substrings longer than `min_len` that occur in both texts |
| Data.LongestIndex | UtilityLib/core/data.py:677 | `max(key=len)` picks the first of the longest items |
| Data.CommonSubstringLongest | UtilityLib/core/data.py:666-678 | `""` exactly when nothing is common; otherwise a common substring that no other one outgrows |
| Data.StripValue | UtilityLib/core/data.py:481-501 | the intended strip: lists and tuples become lists of the same length, a dict keeps its keys, and anything else not a `str` is returned |
| Data.StripValueIdempotent | UtilityLib/core/data.py:481-501 | stripping twice is the same as stripping once |
| Data.AssignStripped | UtilityLib/core/data.py:499 | assigning to an existing key keeps the keys; assigning to a new key adds one |
| Data.StripDictAsWritten | UtilityLib/core/data.py:497-499 | as written, the dict branch succeeds only on the empty dict; a first key not of length 2 raises `ValueError` |
| Data.StripDictExample | UtilityLib/core/data.py:497-499 | `{"name": " x "}` raises `ValueError` as written |
| Data.StripDictIntended | UtilityLib/core/data.py:497-499 | the intended strip turns `{"name": " x "}` into `{"name": "x"}` |
| Cmd.FormatCommand | UtilityLib/core/cmd.py:19-37 | the command is the `str()` of the positional arguments, then `-key` followed by the value or the items of a list or tuple, for each keyword in order |
| Cmd.Unwrap | UtilityLib/core/cmd.py:96 | a one-item list or tuple gives its item; other lengths and strings are kept; `None`, bool and int raise `TypeError`, a one-entry dict `KeyError` |
| Cmd.UnwrapAll | UtilityLib/core/cmd.py:96 | the comprehension keeps the keys and unwraps each value, or fails on some value with that value's exception |
| Cmd.FlattenArgs | UtilityLib/core/cmd.py:92-97 | a non-dict gives `{}`; a dict keeps its keys |
| Cmd.AggValueRoundTrip | UtilityLib/core/cmd.py:110-124 | the aggregator dict keeps the keys in order, and `str` of its list items gives back each key's tokens |
| Cmd.FlattenAggregate | UtilityLib/core/cmd.py:126 | flattening the aggregate always succeeds, giving a single value as a string and several (or none) as a list |
| Cmd.UnregisteredArgParser | UtilityLib/core/cmd.py:99-126 | the loop over the tokens builds the aggregate of the token fold, then flattens it |
| Cmd.RunLast | UtilityLib/core/cmd.py:112-124 | the fold over the tokens is one step after the fold over all but the last |
| Cmd.RunConcat | UtilityLib/core/cmd.py:112-124 | parsing `p + q` is parsing `q` from the state after `p` |
| Cmd.DashStep | UtilityLib/core/cmd.py:114-121 | a dash token makes its stripped name the current key, creates its entry if new, appends an attached `=value` when non-empty, and leaves other keys alone |
| Cmd.LeadingBareIgnored | UtilityLib/core/cmd.py:123 | values before the first dash token are dropped |
| Cmd.BareFromInitial | UtilityLib/core/cmd.py:111-124 | value tokens with no key before them leave the parser in its initial state |
| Cmd.RunEntry | UtilityLib/core/cmd.py:114-124 | a new key followed by value tokens adds one entry holding exactly those values, in order |
| Cmd.CurrentKeyPresent | UtilityLib/core/cmd.py:118-123 | the current key always has an entry |
| Cmd.BareAppends | UtilityLib/core/cmd.py:123-124 | a value token is appended to the current key's list only |
| Cmd.FirstOccurrences | UtilityLib/core/cmd.py:118-119 | the first occurrences hold exactly the names that occur |
| Cmd.KeysInOrder | UtilityLib/core/cmd.py:110-124 | the result's keys are the dash names in order of first appearance |
| Cmd.KeysAreDashNames | UtilityLib/core/cmd.py:114-119 | a key is present exactly when some dash token names it |
| Cmd.KeyOfClean | UtilityLib/core/cmd.py:115-116 | `-name` gives the key `name` and no attached value when the name is clean |
| Cmd.RunValues | UtilityLib/core/cmd.py:123-124 | value tokens after a key are appended in order |
| Cmd.ParseFormatted | UtilityLib/core/cmd.py:19-37 | round trip: parsing a formatted command gives back the keyword arguments (clean, distinct keys; values not starting with `-`) |
| Cmd.GuessNargs | UtilityLib/core/cmd.py:128-135 | `"*"` exactly for a string default, `None` otherwise |
| Cmd.WorkerCount | UtilityLib/core/cmd.py:202 | the worker count is `min(2 * cores, 32)`: at most both bounds and equal to one of them, at least 2 for one or more cores |
| Cmd.CommandUtility.constructor | UtilityLib/core/cmd.py:198-203 | `max_workers` starts unset |
| Cmd.CommandUtility.GetMaxWorkers | UtilityLib/core/cmd.py:198-203 | stores and returns the worker count; an unknown core count (`None`) raises `TypeError` and changes nothing |
| Url.Without | UtilityLib/lib/url.py:207-208 | the kept segments are exactly those different from the removed one |
| Url.WithoutAll | UtilityLib/lib/url.py:212-214 | the kept segments are exactly those not in the removed set |
| Url.PairSegments | UtilityLib/lib/url.py:235 | one segment per dict entry, in order: the key, `/`, and `str` of the value |
| Url.SplitPairSegments | UtilityLib/lib/url.py:235-236 | splitting the joined segments on `/` gives each key followed by `str` of its value, when none holds a `/` |
| Url.EntityUrl.constructor | UtilityLib/lib/url.py:20-24 | the object holds the parsed components, and the accessors return them |
| Url.EntityUrl.ToHttps | UtilityLib/lib/url.py:142-147 | rewrites the components to the https form and returns the same object |
| Url.EntityUrl.ForceWww | UtilityLib/lib/url.py:273-281 | rewrites the host to the `www.` form and returns the same object |
| Url.EntityUrl.Plus | UtilityLib/lib/url.py:152-184 | `url + m` rewrites the components by the rules of `Added` and returns the same object |
| Url.EntityUrl.Minus | UtilityLib/lib/url.py:186-217 | `url - m` rewrites the components by the rules of `Subtracted` and returns the same object |
| Url.EntityUrl.Div | UtilityLib/lib/url.py:219-238 | `url / m` replaces the path and returns the same object |
| Url.EntityUrl.AddQuery | UtilityLib/lib/url.py:242-244 | the query becomes the re-encoded query and nothing else changes |
| Url.EntityUrl.ReplaceFragment | UtilityLib/lib/url.py:246-248 | the same as `url + "#" + fragment` |
| Url.EntityUrl.RemoveFragment | UtilityLib/lib/url.py:250-252 | the same as `url - "#"` |
| Url.ToHttpsProps | UtilityLib/lib/url.py:142-147 | only `http` becomes `https`; the other components are untouched; a second call changes nothing |
| Url.ForceWwwProps | UtilityLib/lib/url.py:264-281 | afterwards `is_www` holds; a `www.` host is left as it is; a second call changes nothing; only the host changes |
| Url.PlusQueryOrFragment | UtilityLib/lib/url.py:166-171 | `"?..."` replaces the query and `"#..."` the fragment, with those characters stripped |
| Url.PlusPath | UtilityLib/lib/url.py:172-176 | any other string is appended to the path after exactly one `/`, and nothing else changes |
| Url.PlusSegmentsPath | UtilityLib/lib/url.py:177-182 | list items are appended as `/`-joined segments, and nothing else changes |
| Url.NoSlashInPieces | UtilityLib/lib/url.py:207 | no piece of `split('/')` contains `/` |
| Url.MinusSegment | UtilityLib/lib/url.py:198-209 | the resulting path's segments are the old ones without `s`; the fragment is kept; only `"?"` clears the query |
| Url.MinusSegmentList | UtilityLib/lib/url.py:210-215 | the resulting path's segments are the old ones without any `str()` of an item, and nothing else changes |
| Url.MinusFragment | UtilityLib/lib/url.py:202-204 | `url - "#"` clears the fragment only |
| Url.MinusQuery | UtilityLib/lib/url.py:199-209 | `url - "?"` clears the query, and changes nothing else when no path segment is `"?"` |
| Url.WithoutAbsent | UtilityLib/lib/url.py:208 | removing a segment that is not there keeps the path |
| Url.ReplaceFragmentProps | UtilityLib/lib/url.py:246-248 | the fragment becomes the given one with leading `#` stripped |
| Url.DivPath | UtilityLib/lib/url.py:219-238 | only the path changes: a string without leading `/`; `/`-joined items that split back into the items; or `/`-joined `k/v` pairs that split back into keys and values |
| Project.TomlMapNoEmpty | UtilityLib/project.py:17-25 | no `""` is left at any depth |
| Project.TomlMapShape | UtilityLib/project.py:17-25 | dict keys and list lengths are kept |
| Project.TomlMapKeeps | UtilityLib/project.py:17-25 | a value without `""` comes back unchanged |
| Project.TomlMapIdempotent | UtilityLib/project.py:17-25 | a second pass changes nothing |
| Project.GetPath | UtilityLib/project.py:150-155 | the relative path is the suffix of `str(path)` left after removing its whole run of leading `/` (what was removed is all `/`, and what is left does not start with one), put under the base when one is set |
| Project.GetPathRelative | UtilityLib/project.py:152 | a path without a leading `/` is returned as given |
| Project.GetJoin | UtilityLib/project.py:157-167 | succeeds exactly when the prefix and the value are strings; the result is prefix, glue, value; a missing key gives an empty prefix |
| Project.GetJoinPrefix | UtilityLib/project.py:161-167 | the prefix comes from the config with a key and from `default` without one |
| Project.ConfigPath | UtilityLib/project.py:112-114 | the config file is `{name}.v1.20241000.config.gz` (version 1 and subversion 20241000, from lines 7-8), put under the base when one is set |
| Project.ConfigPathName | UtilityLib/project.py:114 | the name can be read back from the file name |
| Base.WithKwRules | UtilityLib/core/base.py:92-94 | after setting the keywords, each keyword's value is set and every other attribute is untouched; `path_base` and `pwd` never become plain attributes, because `setattr` runs the property setter for them |
| Base.WithDefaultsRules | UtilityLib/core/base.py:99-106 | a default is applied only to a missing attribute; existing ones are untouched; a default for `path_base` or `pwd` is never applied, because `hasattr` always finds the property |
| Base.KwPathBaseUnchanged | UtilityLib/core/base.py:34-36 | without a `path_base` or `pwd` keyword, `path_base` keeps its value |
| Base.KwPathBaseLast | UtilityLib/core/base.py:34-36 | the setter runs for every `path_base`/`pwd` keyword, so the last one decides `path_base`: the path it names, or the working directory for a falsy value |
| Base.UpdatedRules | UtilityLib/core/base.py:99-106 | a keyword always wins, even over a default given in the same call; a default fills only a missing attribute; nothing else changes; the property keys never become plain attributes |
| Base.UpdatedNoPathKeys | UtilityLib/core/base.py:99-106 | an object whose plain attributes do not shadow the property keeps that after an update |
| Base.PickFrom | UtilityLib/core/base.py:58-60 | an empty list raises `IndexError`; otherwise Windows takes the second path and other systems the first |
| Base.SinglePathBothSystems | UtilityLib/core/base.py:59-60 | one path serves both systems, because of the doubling |
| Base.DictAsValues | UtilityLib/core/base.py:61-63 | a dict behaves as the list of its values; an empty dict raises `IndexError` |
| Base.BaseUtility.constructor | UtilityLib/core/base.py:27-32 | the object starts with the given attributes, and `path_base` falls back to the working directory |
| Base.BaseUtility.UpdateAttributes | UtilityLib/core/base.py:99-106 | `obj=None` targets the object itself; the target's plain attributes follow the rules of `UpdatedRules` and its `path_base` those of `KwPathBaseLast` and `KwPathBaseUnchanged`; with another target this object is untouched |
| Base.BaseUtility.SetAttrs | UtilityLib/core/base.py:92-94 | the plain attributes become those set from `kw` (`WithKwRules`), and `path_base` goes through the setter (`KwPathBaseLast`) |
| Base.BaseUtility.Call | UtilityLib/core/base.py:108-110 | the keyword arguments are applied to the plain attributes and to `path_base` as in `UpdateAttributes`, and the object itself is returned |
| Base.BaseUtility.SetProjectPaths | UtilityLib/core/base.py:52-63 | `path_base` becomes the chosen path, or the method raises; values that are not str, list, tuple or dict change nothing |
| Base.BaseUtility.SetFrom | UtilityLib/core/base.py:58-60 | the list case sets `path_base` through the setter or raises `IndexError` |
| Time.MatchShift | UtilityLib/lib/time.py:98 | a match is a sign, digits, whitespace and a unit word, found at the start of the string |
| Time.MatchShiftComplete | UtilityLib/lib/time.py:98 | every string of that form matches, whatever follows it |
| Time.AmountIsInt | UtilityLib/lib/time.py:101 | `int()` reads the signed number of the match |
| Time.ShiftAdds | UtilityLib/lib/time.py:98-112 | a shift adds N times 3600, 60 or 86400 seconds for hours, minutes or days, with the sign of the string |
| Time.ShiftExact | UtilityLib/lib/time.py:98-112 | the same, for a string that ends after the unit |
| Time.PluralSameShift | UtilityLib/lib/time.py:104-109 | singular and plural unit words shift alike |
| Time.NoMatchUnchanged | UtilityLib/lib/time.py:95-100 | `None`, a non-matching string, or one without a leading sign leaves the datetime unchanged |
| Time.ShiftInverse | UtilityLib/lib/time.py:98-112 | shifting by `+N unit` and then `-N unit` returns to the start |
| Time.FullShiftIff | UtilityLib/lib/time.py:38 | the constructor's anchored pattern accepts exactly nothing, `s`, or either of them followed by a final newline after the unit word |
| Time.DaysInMonth | UtilityLib/lib/time.py:52 | a month has 28 to 31 days |
| Time.YearLength | UtilityLib/lib/time.py:52 | a year has 366 days when it is a leap year and 365 otherwise |
| Time.NextDayOrdinal | UtilityLib/lib/time.py:52 | the next calendar day is valid and has the next day number |
| Time.OrdinalPositive | UtilityLib/lib/time.py:52 | 0001-01-01 is day 1 and every valid date has a positive number |
| Time.FromDate | UtilityLib/lib/time.py:50-52 | a date succeeds only with three integers forming a valid date |
| Time.CyclicCall | UtilityLib/lib/time.py:35-36 | an `EntityTime` argument raises `ValueError` |
| Time.ConstructShift | UtilityLib/lib/time.py:37-39 | a signed shift string gives "now" moved by the shift, with the format kept |
| Time.ConstructShiftPlural | UtilityLib/lib/time.py:37-39 | the same with the plural unit word |
| Time.ConstructFromShift | UtilityLib/lib/time.py:37-39 | a string the anchored pattern accepts applies `_apply_shift` to "now" |
| Time.ConstructFormat | UtilityLib/lib/time.py:40-41 | a non-shift string containing `%` becomes the format, and the datetime stays "now" |
| Time.ConstructParsed | UtilityLib/lib/time.py:42-47 | any other string is parsed with the format, and `ValueError` is raised when that fails |
| Time.ConstructNow | UtilityLib/lib/time.py:31-33 | with no arguments or with two, the datetime is "now" |
| Time.ConstructDate | UtilityLib/lib/time.py:50-52 | consecutive days are 86400 seconds apart, and the fourth argument adds seconds |
| Time.ReverseIsNegated | UtilityLib/lib/time.py:114-125 | `__rsub__` is `__sub__` negated: both fail alike, or they give opposite differences |
| Time.DifferenceAntisymmetric | UtilityLib/lib/time.py:114-125 | `a - b` is the negation of `b - a` for two instances |
| Time.DifferenceFromShift | UtilityLib/lib/time.py:114-118 | subtracting a shift string from "now" gives minus the shift |
| Time.EntityTime.constructor | UtilityLib/lib/time.py:32-33 | the datetime starts as "now" with the given format |
| Time.EntityTime.New | UtilityLib/lib/time.py:31-52 | the new object's datetime and format are those of `Construct`, or the constructor raises the same exception |
| Time.EntityTime.ApplyShift | UtilityLib/lib/time.py:92-112 | the datetime moves as `Shifted` says, and the format is kept |
| Time.EntityTime.Sub | UtilityLib/lib/time.py:114-118 | returns `Difference`: a string or number is made an `EntityTime` first, and anything else raises `AttributeError` |
| Time.EntityTime.RSub | UtilityLib/lib/time.py:120-125 | returns `ReverseDifference` |

## Left out

- Thread pool, task queue, semaphore and futures in `core/cmd.py` (lines 191-269): they exist for concurrency. The pool is sized by `Semaphore(self.max_workers)` (line 211); only `max_workers` itself is modelled.
- Subprocess calls, `which`, argparse setup and `sys_open_files` in `core/cmd.py`: operating-system and library calls.
- `ScheduleEvent`, `browser.py` and `core/time.py`: threads, browsers, sleeps, random durations and float timestamps.
- `EntityURL` network members (`status`, `host_exists`, downloads), `urlunparse` and the cached `_URL` string: the model keeps the parsed components only.
- The dict branches of `EntityURL` `+` and `-`: `parse_qs`/`urlencode` are library calls. Their result is the `encoded` parameter.
- `EntityPath`, `os.getcwd()` and `chdir` in `BaseUtility`: `path_base` is kept as the value it was set from (`Base.PathChoice`), and paths built by `/` and `with_suffix` are kept as data (`Project.PathValue`).
- Project.ConfigPath, Project.GetPath: the base is a parameter. Through `BaseUtility.path_base` the base is never `None` in practice, so the branch without a base is modelled as written but is not reachable there.
- Base.BaseUtility.UpdateAttributes, Base.BaseUtility.SetAttrs, Base.BaseUtility.Call: only `path_base` and `pwd` are routed to a property setter. Setting the read-only properties `is_windows` or `is_linux` raises `AttributeError` in Python, and setting `_path_base` directly changes what `path_base` returns; the model keeps such keys as plain attributes.
- Data.Flatten, Data.Flattened, Data.ChunksOf, Data.Chunks, Data.IsIterable, Data.StripValue, Data.StripDictAsWritten, Base.BaseUtility.SetProjectPaths: dict keys are strings only, while Python accepts any hashable key. For example `flatten({1: 2})` gives `[1]`, and the as-written `strip({1: "x"})` raises `TypeError` rather than `ValueError`; neither input exists in the model.
- Time.ShiftInverse, Time.ConstructDate, Time.DifferenceAntisymmetric: seconds are unbounded here. Python's `datetime` allows only years 1 to 9999 (`OverflowError` when a shift is applied at `UtilityLib/lib/time.py:112` and when the fourth date argument is added at line 52). The pandas `Timedelta` behind `DeltaTime` is bounded to about 292 years either way (`OutOfBoundsTimedelta` at lines 105-109, 118 and 125). These lemmas state results the source does not reach outside those ranges.
- `BaseUtility.__init__`, `_set_working_dir` and `is_running`: they depend on file-system state and process tables.
- TOML, pickle and backup file I/O in `project.py`. The pandas, Excel and regular-expression helpers of `core/data.py`.
- `EntityTime` date properties, `strftime`, `isoformat`, `ctime` and `DeltaTime` itself: they are formatting of datetimes outside the integer-seconds model.
- Time.Construct: `float` arguments (timestamps and seconds) are not modelled. The fourth date argument is accepted only as an integer, and any other value is taken to raise `TypeError`. The pandas range limits of timestamps are not modelled.
- Sets and floats are not in the value model. Sets are left out because their iteration order is unspecified. This covers `_format_command`, `strip` and the URL operators on sets.
- Character classes: `isdigit`, `isalnum`, `lower` and the regular expression `\d` are ASCII-only here. `\s` and `isspace` follow Python's full list. `int()` does not accept `_` separators here.
- `repr()` of non-ASCII text assumes every such character is printable.
- Data.ChunksOf: slicing a non-empty dict is modelled as `TypeError`. Python 3.12 and later raise `KeyError` instead.
- Data.PrintCsv: the printing itself (`ret=False`) is output. Only the returned `None` is modelled.
- Data.TextToSlug: text that is not a `str` is not modelled. `keep` is a sequence of characters.
- `print` output in general, and generator laziness: a generator is modelled by the full sequence it yields.

## Findings

| source | as written | input that shows it | evidently intended | confidence | as-written member | corrected member |
|---|---|---|---|---|---|---|
| UtilityLib/core/data.py:497-499 | `for _key, _value in _data` iterates over the dict's keys and unpacks each key string | `strip({"name": " x "})` raises `ValueError` (too many values to unpack) | iterate over `_data.items()` and strip every value, giving `{"name": "x"}` | not executed | Data.StripDictAsWritten, Data.StripDictExample | Data.StripValue, Data.StripValueIdempotent, Data.StripDictIntended |
