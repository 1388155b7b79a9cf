# rizzy, modelled in Dafny

rizzy is a command-line filter that reads log lines and rewrites every
timestamp in them as the same instant in one chosen timezone. A timestamp is
text of the form `YYYY-MM-DD[ T]HH:MM:SS[.fff…]` followed by `Z` or a numeric
UTC offset. Optionally, 19-digit runs are also rewritten, read as nanoseconds
since the Unix epoch. The default output is RFC 3339 (`2020-08-27T08:45:37-04:00`).
A user-supplied strftime format can replace it. The zone is chosen on the
command line with `--nyc`, `--chi` or `--zone NAME`.

This project models the line rewriter of `src/rizzy.rs` and the zone selection
of `src/main.rs`. It proves what they do: how a match is found, how it is read
as an instant, how the instant is written, how the replacements are spliced
into the line, and which zone each combination of flags selects.

## Structure

| file | module | contents |
|---|---|---|
| `wrappers.dfy` | `Wrappers` | `Option`, `Result`, and `Outcome` (a value or a Rust panic with its message) |
| `digits.dfy` | `Digits` | ASCII decimal digits: reading (`Number`), writing with a fixed width (`Decimal`), and their round trips |
| `slices.dfy` | `Slices` | small facts about sequence slices |
| `calendar.dfy` | `Calendar` | chrono's `NaiveDateTime` as seconds plus nanoseconds; the proleptic Gregorian calendar in both directions, proved mutually inverse |
| `timezones.dfy` | `Timezones` | `Tz`, the two preset zones, `RizzyError` (`src/lib.rs`), and `parse_timezone` over a catalog parameter |
| `cli.dfy` | `Cli` | `Opts` and `get_timezone` |
| `replace_all.dfy` | `Replace` | the regex crate's `replace_all` with a closure: leftmost-first, non-overlapping, where a panic aborts the call |
| `scanner.dfy` | `Scanner` | the timestamp pattern and the 19-digit pattern as explicit matchers, with the timestamp pattern's language stated declaratively |
| `rizzy.dfy` | `Rizzy` | `fix_subsec`, `format_time` (RFC 3339 rendering), `replace_one_time` (chrono's parse of the matched text), the epoch conversion, and `handle_line` |
| `rizzy_properties.dfy` | `RizzyProperties` | what the rewriter promises: reading its own output back, the meaning of each zone marker, panics, and splicing |
| `source_tests.dfy` | `SourceTests` | the unit tests of `src/rizzy.rs`, restated as lemmas |

## Modelling choices

- **The configuration record.** `Rizzy::new` only stores its three arguments,
  so the `Rizzy` record is a Dafny datatype. Its constructor is `Rizzy.Rizzy`.
- **Panics.** A Rust `panic!` or a failed `unwrap` becomes
  `Panic(message)`, with the message the Rust code would print. Nothing in the
  program catches a panic, so it unwinds out of the read loop of `main` and
  ends the whole run. The model follows it only as far as the line: the
  outcome of `HandleLine` is the panic, and what the process then does is
  not modelled.
- **Foreign parts of chrono.** The tz database's offset lookup and strftime
  rendering are out of reach, so they are fields of a `Chrono` parameter:
  - `offsetAt(zone, utc)` gives the zone's offset in seconds at that instant;
  - `strftime(zoned, format)` renders a user format, or is `None` when
    chrono's formatter reports an error for it (an unknown specifier, say).
    `format!` at `src/rizzy.rs:37` then panics, and `FormatTime` gives
    `Panic(FormatPanic)`.

  Everything else is written out in full:
  - the RFC 3339 rendering;
  - the parse of the matched text;
  - the fraction rescaling;
  - the epoch conversion.
- **The zone catalog.** chrono_tz's list of zone names and the
  auto-correction dictionary are a `TzCatalog` parameter. It holds the set of
  accepted names and a suggestion function.
- **Concrete unit tests.** The tests in `source_tests.dfy` take the zone
  offsets as preconditions on `offsetAt`:
  - -04:00 for New York in summer;
  - -05:00 for New York in winter and for Chicago in summer.

In the places below the code behaves in ways that are easy to miss. The model
follows the code in each of them.

- **Fraction length.** The pattern at `src/rizzy.rs:62` accepts 3 to 9
  fraction digits, so a timestamp with a 4- or 5-digit fraction is matched.
  `fix_subsec` then panics on it (`RizzyProperties.MatchedUnsupportedFraction`).
- **Epoch run boundaries.** `\d{19}` at `src/rizzy.rs:63` has no boundaries,
  so the first 19 digits of a longer run of digits are converted
  (`RizzyProperties.TwentyDigitRun`).
- **Fraction digit counts.** The catch-all arm of `fix_subsec` at
  `src/rizzy.rs:22` is reachable: the counts 4, 5, 7 and 8 come through the
  pattern, as the fraction-length item shows.
- **Panics, not error values.** The code panics on a timestamp it cannot
  parse (`src/rizzy.rs:47`, `src/rizzy.rs:54`), on an unsupported fraction
  count (`src/rizzy.rs:22`), on an epoch run above `i64::MAX`
  (`src/rizzy.rs:77`) and on conflicting zone selectors (`src/main.rs:51`,
  `src/main.rs:69`, `src/main.rs:75`). The model keeps those panics.
- **Default zone.** With no selector the code picks `America/Chicago`
  (`src/main.rs:82-86`), not the local zone that the help text at
  `src/main.rs:32` mentions.

## Model

| member | source | states |
|---|---|---|
| Rizzy.HandleLine | src/rizzy.rs:60-84 | the timestamp pass, then the epoch pass when it is on, where a panic of either is the line's outcome. `UnmatchedLineUnchanged`, `LeftmostTimestamp`, `LeftmostPanicAbortsLine`, `UnrenderableFormatAbortsLine`, `DigitsAloneUnchanged`, `ConvertingOwnOutputIsIdentity` and the unit tests state what it does |
| Rizzy.FormatTime | src/rizzy.rs:34-40 | puts the UTC instant in the configured zone at the offset the zone has then; a user format goes to strftime, whose error is a panic; otherwise the RFC 3339 text. `RenderedInZone`, `Rfc3339ReadsBack` and `UnrenderableFormatAbortsLine` state what it does |
| Rizzy.ToRfc3339 | src/rizzy.rs:38 | chrono's `to_rfc3339`: the local date and time, a fraction of 0, 3, 6 or 9 digits, and a `±HH:MM` offset. `RenderedLocal`, `HeadTextReadsBack`, `FractionTextReadsBack` and `OffsetTextShape` state what it writes |
| Rizzy.ParseOffset | src/rizzy.rs:51-52 | chrono's `%z`: a sign, two hour digits, an optional colon and two minute digits, minutes below 60 and less than a day in all. `ColonOffsetParses`, `CompactOffsetParses`, `ZeroOffsetParses` and `OffsetTextReadsBack` state what it reads |
| Rizzy.ParseUtc | src/rizzy.rs:43-57 | chrono's `parse_from_str` with the format built from the captures: `Z` literally in one branch, `%z` in the other. `AssembledParse`, `MatchedParse`, `OffsetIsRemoved` and `ZeroOffsetsAgree` state what it returns |
| Rizzy.MatchToUtc | src/rizzy.rs:42-57 | the parse, then `fix_subsec`; a parse error panics with "Unable to parse datetime". `MatchedOutOfRange`, `MatchedUnsupportedFraction`, `MatchedInstant` and `Rfc3339Converts` state its outcome |
| Rizzy.ReplaceOneTime | src/rizzy.rs:42-58 | the instant of the matched text rendered by `format_time`, or the first panic on the way. `LeftmostPanicAbortsLine`, `UtcStampAtFront` and the unit tests state its outcome |
| Rizzy.EpochReplacement | src/rizzy.rs:76-80 | the closure of the epoch pass; `EpochReplacementMeaning` states its outcome |
| Rizzy.TimestampPass | src/rizzy.rs:66-73 | `replace_all` with the timestamp pattern and `replace_one_time`. `TimestampAtFront`, `LeftmostTimestamp` and `TimestampPassKeeps` state what it does |
| Rizzy.EpochPass | src/rizzy.rs:75-81 | `replace_all` with the 19-digit pattern and the epoch closure. `EpochRunAtFront`, `TwentyDigitRun` and `Rfc3339EpochPassKeeps` state what it does |
| Replace.ReplaceAll | src/rizzy.rs:66-73 | the regex crate's `replace_all` with a closure. `CopyUntil`, `NoMatchUnchanged`, `LeftmostMatch` and `LeftmostPanic` state what it does |
| Scanner.InPattern | src/rizzy.rs:62 | the language of the timestamp pattern, written declaratively; `FindTimestampSound` and `FindTimestampComplete` tie the matcher to it |
| Scanner.FindTimestamp | src/rizzy.rs:62 | the timestamp pattern's match at the front of a text, with its captures. `FindTimestampSound`, `FindTimestampComplete` and `FindTimestampFindsPrefixes` state what it finds |
| Scanner.ZoneLen | src/rizzy.rs:62 | the `TZ` group's match at the front of a text, never longer than the text; `ZoneLenSound` and `ZoneLenComplete` state what it takes |
| Scanner.FindEpoch | src/rizzy.rs:63 | the 19-digit pattern's match at the front of a text. `FindEpochFindsPrefixes`, `ShortTextKept` and `TwentyDigitRun` state what it finds |
| Calendar.SecsToCivil | src/rizzy.rs:35 | splits seconds since the epoch into a date and a time of day; `SecsToCivilInverse` states that it is exact |
| Calendar.CivilToSecs | src/rizzy.rs:45 | counts a date and time in seconds since the epoch; `CivilToSecsInverse` states that it is exact |
| Timezones.ParseTimezone | src/timezones.rs:6-11 | succeeds exactly for the names the zone database accepts, and the zone has that name; any other text is an `InvalidTimezone` error carrying the input and the dictionary's suggestions for it |
| Cli.GetTimezone | src/main.rs:45-88 | returns a zone or the resolver's error exactly when at most one of `--nyc`, `--chi`, `--zone` is given. `--nyc` with `--chi` panics whatever `--zone` is. A preset with `--zone` panics with "cannot supply --zone and an override". A lone preset gives that preset. `--zone` alone returns `parse_timezone`'s result unchanged. No selector gives Chicago. Every zone returned is a preset or a catalog name |
| Rizzy.FixSubsec | src/rizzy.rs:13-27 | 0 digits leaves the instant unchanged. A count other than 0, 3, 6, 9 panics with "Invalid datetime with N digits in the time". With 3, 6 or 9 digits the instant's total nanoseconds become seconds·10^9 + raw·10^(9−d); when raw < 10^d the seconds are unchanged and the nanosecond field becomes raw·10^(9−d) |
| RizzyProperties.FixSubsecScales | src/rizzy.rs:17-26 | a 0-, 3-, 6- or 9-digit fraction that fits its digit count scales to less than one second, and the whole seconds are left alone |
| Calendar.FromTotalNanos | src/rizzy.rs:24-26 | adding and subtracting nanoseconds keeps the instant's total nanosecond count exact, carrying into the seconds |
| Rizzy.LocalCivil | src/rizzy.rs:35 | the local time of a zoned instant is a valid calendar date and time whose seconds since the epoch are the UTC seconds plus the zone's offset |
| Calendar.SecsToCivilInverse | src/rizzy.rs:35 | every count of seconds splits into a valid date and time that counts back to the same seconds |
| Calendar.CivilToSecsInverse | src/rizzy.rs:45 | every valid date and time, counted in seconds and split again, is itself, so a parsed time denotes exactly one instant |
| Calendar.CivilFromDaysIsValid | src/rizzy.rs:35 | the date on any day number is a valid date that counts back to that day number |
| Calendar.DaysFromCivilInverse | src/rizzy.rs:45 | the day number of a valid date maps back to the same date |
| Calendar.LeapYearOfEraIsLeap | src/rizzy.rs:45 | a year of a 400-year era has the leap day exactly when its Gregorian year is a leap year |
| Calendar.SplitDayOfEraSound | src/rizzy.rs:35 | the day of an era splits into a year of the era and a day within that year's length |
| Calendar.SplitDayOfEraComplete | src/rizzy.rs:35 | a year of the era and a day within it are recovered from their day of the era |
| RizzyProperties.RenderedLocal | src/rizzy.rs:38 | the RFC 3339 text of an instant is its local date and time, then its fraction, then its offset |
| RizzyProperties.RenderedInZone | src/rizzy.rs:34-40 | without a user format, `format_time` writes the local civil time at the zone's offset, then the fraction of the UTC instant, then that offset; this rendering cannot panic |
| RizzyProperties.HeadTextReadsBack | src/rizzy.rs:38 | the written date and time has the shape the scanner looks for, with a `T` separator, and reads back as the same fields |
| RizzyProperties.HeadWithSeparator | src/rizzy.rs:62 | with either separator, the written date and time reads back as the civil time it was written from |
| RizzyProperties.DateTextReadsBack | src/rizzy.rs:38 | a date with a four-digit year is written as `YYYY-MM-DD`, and those digits read back as the year, month and day |
| RizzyProperties.TimeTextReadsBack | src/rizzy.rs:38 | a time is written as `HH:MM:SS`, and those digits read back as the hour, minute and second |
| RizzyProperties.FractionTextReadsBack | src/rizzy.rs:38 | the written fraction is empty exactly for a whole second; otherwise it is a dot and 3, 6 or 9 digits, which scaled by 10^(9−digits) give back the nanoseconds |
| RizzyProperties.OffsetTextShape | src/rizzy.rs:38 | the written offset is a sign, two hour digits, a colon and two minute digits, and they read as the offset's hours and minutes |
| RizzyProperties.OffsetTextReadsBack | src/rizzy.rs:38 | an offset of whole minutes is written in a form that `%z` reads back as the same offset |
| RizzyProperties.ColonOffsetParses | src/rizzy.rs:51-52 | `%z` reads `±HH:MM` with minutes below 60 and less than a day in total as that many seconds east or west of UTC |
| RizzyProperties.CompactOffsetParses | src/rizzy.rs:51-52 | `%z` reads `±HHMM` as the signed offset when the minutes are below 60 and the total is less than a day, and as out of range otherwise |
| RizzyProperties.CompactHalfHourEast | src/rizzy.rs:51-52 | `%z` reads `+0530` as 19800 seconds east of UTC |
| RizzyProperties.CompactHalfHourWest | src/rizzy.rs:51-52 | `%z` reads `-0530` as 19800 seconds west of UTC |
| RizzyProperties.CompactMinutesTooLarge | src/rizzy.rs:51-52 | `%z` refuses `+0560` as out of range |
| RizzyProperties.CompactFullDayOffset | src/rizzy.rs:51-52 | `%z` refuses `+2400` as out of range |
| Scanner.ZoneLenSound | src/rizzy.rs:62 | what the zone-marker matcher takes is a `Z`, a `±HHMM` or a `±HH:MM` |
| Scanner.ZoneLenComplete | src/rizzy.rs:62 | any zone marker at the front is taken whole; in particular the colon form is preferred |
| Scanner.FindTimestampFindsPrefixes | src/rizzy.rs:62 | every timestamp match is non-empty and lies within the text |
| Scanner.FindEpochFindsPrefixes | src/rizzy.rs:63 | every 19-digit match is non-empty and lies within the text |
| Scanner.FindTimestampSound | src/rizzy.rs:62 | a match is a text of the pattern. Its captures are the separator, 0 or 3 to 9 fraction digits (0 exactly when no dot follows the seconds), and the zone marker that ends the match |
| Scanner.FindTimestampComplete | src/rizzy.rs:62 | any text of the pattern at the front is what the matcher takes, whatever follows; so a match at a given start is unique |
| Scanner.CompleteWithoutFraction | src/rizzy.rs:62 | a date and time directly followed by a zone marker is matched up to the end of the marker, with fraction count 0 |
| Scanner.CompleteWithFraction | src/rizzy.rs:62 | a date and time, a dot, 3 to 9 digits and a zone marker are matched whole, with the digit count as the fraction capture |
| Replace.CopyUntil | src/rizzy.rs:66-73 | text before the first position where a match starts is copied verbatim |
| Replace.NoMatchUnchanged | src/rizzy.rs:66-73 | a text in which no match starts anywhere is returned unchanged |
| Replace.LeftmostMatch | src/rizzy.rs:66-73 | the leftmost match is replaced first, the text before it kept, and the rest scanned after it; a panic on it ends the call |
| Replace.LeftmostPanic | src/rizzy.rs:66-73 | a panic of the closure on the leftmost match is the outcome of the whole call |
| RizzyProperties.MatchSplits | src/rizzy.rs:66-71 | every timestamp match is a date and time, a fraction of as many digits as the `sub` capture says, and the `TZ` capture, and the `T` capture is its separator |
| RizzyProperties.ZoneMarkerParses | src/rizzy.rs:51-52 | a zone marker the scanner accepts never fails `%z` on its form; at worst it is out of range |
| RizzyProperties.MatchedParse | src/rizzy.rs:42-57 | a matched text parses to its civil time less its zone offset, with the fraction digits unscaled, unless the offset or the date and time is out of range |
| RizzyProperties.MatchedOutOfRange | src/rizzy.rs:42-57 | a matched text with an impossible date, time or offset panics with "Unable to parse datetime <text>: input is out of range", in both branches |
| RizzyProperties.MatchedUnsupportedFraction | src/rizzy.rs:18-23 | a matched text with a 4-, 5-, 7- or 8-digit fraction gets through the parse and then panics in `fix_subsec` |
| RizzyProperties.MatchedInstant | src/rizzy.rs:42-57 | any other matched text is the instant of its civil time less its offset, with the fraction scaled to nanoseconds |
| RizzyProperties.ZeroOffsetParses | src/rizzy.rs:51-52 | `+00:00`, `+0000`, `-00:00` and `-0000` all read as offset 0 |
| RizzyProperties.ZeroOffsetIsMatched | src/rizzy.rs:62 | every spelling of a zero offset after a date, time and fraction is matched up to its end |
| RizzyProperties.ZeroOffsetsAgree | src/rizzy.rs:43-57 | `Z` and every spelling of a zero offset give the same instant, or fail the same way |
| RizzyProperties.OffsetIsRemoved | src/rizzy.rs:55 | a text with a signed offset parses exactly when the same text marked `Z` does, fails the same way when it does not, and its instant is that one moved back by the offset |
| RizzyProperties.AssembledIsMatched | src/rizzy.rs:62 | a date and time, a fraction and a zone marker written one after another are matched as one timestamp, with those parts as captures, whatever follows |
| RizzyProperties.AssembledParse | src/rizzy.rs:42-57 | the parse of such a text is decided by its zone marker, then by the validity of its date and time, and carries the fraction digits as read |
| RizzyProperties.AssembledReadsBack | src/rizzy.rs:50-57 | a text whose parts encode an instant (civil time less offset, scaled fraction, an all-zero fraction included) is converted to exactly that instant |
| RizzyProperties.ZuluReadsBack | src/rizzy.rs:43-49 | a UTC text marked `Z` is converted to the instant of its civil time and scaled fraction, all-zero fractions such as `.000` included |
| RizzyProperties.ZeroMillisZulu | src/rizzy.rs:43-49 | a UTC text ending in `.000Z` reads as the whole second of its civil time |
| RizzyProperties.Rfc3339IsMatched | src/rizzy.rs:62 | the RFC 3339 output is matched whole by the scanner, with separator `T`, the written fraction and the written offset as captures |
| RizzyProperties.Rfc3339Converts | src/rizzy.rs:42-57 | the RFC 3339 output, with the captures the scanner gives it, is converted back to the instant it was written from |
| RizzyProperties.Rfc3339ReadsBack | src/rizzy.rs:34-58 | for offsets of whole minutes and four-digit years, the output of `format_time` is read back by the scanner and the parser as exactly the instant it renders, nanoseconds included |
| RizzyProperties.Rfc3339TimestampPassKeeps | src/rizzy.rs:66-73 | without a user format, an RFC 3339 timestamp already in the target zone is replaced by itself |
| RizzyProperties.Rfc3339HasNoEpochRun | src/rizzy.rs:63 | RFC 3339 output with a four-digit year holds no run of 19 digits anywhere |
| RizzyProperties.Rfc3339EpochPassKeeps | src/rizzy.rs:75-81 | the epoch pass leaves RFC 3339 output unchanged |
| RizzyProperties.ConvertingOwnOutputIsIdentity | src/rizzy.rs:60-84 | a line that is an RFC 3339 timestamp already in the target zone comes back unchanged, with the epoch pass on or off: the output holds no run of 19 digits |
| RizzyProperties.UnmatchedLineUnchanged | src/rizzy.rs:60-84 | a line in which no timestamp starts anywhere (and no 19-digit run when the epoch pass is on) is returned unchanged |
| RizzyProperties.TimestampPassKeeps | src/rizzy.rs:66-73 | text in which no timestamp starts is kept by the timestamp pass |
| RizzyProperties.LeftmostTimestamp | src/rizzy.rs:66-73 | the leftmost timestamp is converted first: the text before it is kept, a panic on it aborts the pass, and otherwise the pass goes on right after it |
| RizzyProperties.TimestampAtFront | src/rizzy.rs:66-73 | a timestamp at the front of a line is replaced by its conversion and the pass goes on after it; a panic of the conversion is the outcome of the pass |
| RizzyProperties.UtcStampAtFront | src/rizzy.rs:42-73 | a UTC timestamp written from a civil time (either separator, 0/3/6/9 fraction digits, `Z` or a zero offset) at the front of a line is replaced by `format_time` of that instant, or aborts the pass with its panic, and the pass goes on after it |
| RizzyProperties.NonDigitsCopied | src/rizzy.rs:66-73 | text without digits in front of a line is copied unchanged in front of the rest's result |
| RizzyProperties.ShortTextKept | src/rizzy.rs:62-63 | text shorter than 19 characters holds no match of either pattern and is kept by both passes |
| RizzyProperties.LeftmostReplacerPanic | src/rizzy.rs:60-84 | a panic of the timestamp closure on the leftmost match is the outcome of the whole line |
| RizzyProperties.LeftmostPanicAbortsLine | src/rizzy.rs:60-84 | a leftmost timestamp that cannot be parsed aborts the whole line with its panic message; the epoch pass does not run |
| RizzyProperties.UnrenderableFormatAbortsLine | src/rizzy.rs:37 | a leftmost timestamp that is read as an instant but whose user format chrono cannot render aborts the whole line with `format!`'s panic |
| RizzyProperties.DigitBeforeTimestamp | src/rizzy.rs:62 | the pattern has no boundary in front: a digit right before a timestamp neither blocks the match nor becomes part of it |
| RizzyProperties.DigitsAloneUnchanged | src/rizzy.rs:60-84 | without the epoch pass a run of digits of any length is returned unchanged |
| RizzyProperties.EpochLineNoStamp | src/rizzy.rs:62 | a line of 19 to 34 characters that starts with 19 digits holds no timestamp |
| Rizzy.ParseI64 | src/rizzy.rs:77 | `parse::<i64>` of unsigned text succeeds exactly for non-empty digit text up to 9223372036854775807, and gives its value |
| Rizzy.EpochInstant | src/rizzy.rs:78 | the instant built from `ts / 10^9` seconds and `ts % 10^9` nanoseconds is exactly `ts` nanoseconds after the epoch |
| RizzyProperties.EpochReplacementMeaning | src/rizzy.rs:76-79 | a 19-digit match is replaced by `format_time` of the instant exactly that many nanoseconds after the epoch, panicking where `format_time` does; above `i64::MAX` it panics with `unwrap`'s message |
| RizzyProperties.EpochRunAtFront | src/rizzy.rs:76-80 | 19 digits at the front are replaced first and the epoch pass goes on right after them |
| RizzyProperties.TwentyDigitRun | src/rizzy.rs:63 | of a run of 20 digits, the first 19 are converted and the last is kept; a panic of the conversion is the outcome |
| SourceTests.ShouldReplaceDates1 | src/rizzy.rs:92-99 | `2020-08-27T12:45:37Z foobar` in New York becomes `2020-08-27T08:45:37-04:00 foobar` |
| SourceTests.ShouldReplaceDates2 | src/rizzy.rs:101-108 | `2020-08-27 13:30:00+00:00 foobar` in New York becomes `2020-08-27T09:30:00-04:00 foobar` |
| SourceTests.ShouldReplaceDates3 | src/rizzy.rs:110-117 | `2020-08-27 12:45:43.728154+00:00 foobar` in New York becomes `2020-08-27T08:45:43.728154-04:00 foobar` |
| SourceTests.ShouldReplaceDates4 | src/rizzy.rs:119-126 | `2020-09-11 14:48:34+0000 foobar` in New York becomes `2020-09-11T10:48:34-04:00 foobar` |
| SourceTests.ShouldReplaceDates5 | src/rizzy.rs:128-135 | `2021-03-25 17:39:28.167391+00:00 foobar` in Chicago becomes `2021-03-25T12:39:28.167391-05:00 foobar` |
| SourceTests.ShouldReplaceDates6 | src/rizzy.rs:137-144 | `2020-08-27 12:45:43.728154+00:00 foobar` in Chicago becomes `2020-08-27T07:45:43.728154-05:00 foobar` |
| SourceTests.ShouldReplaceMultipleMatches | src/rizzy.rs:146-153 | both timestamps of `2020-08-27 12:45:43.728154+00:00 foo 2020-08-27T12:45:37Z` are converted to Chicago time, in order, and the text between them is kept |
| SourceTests.ShouldApplyFormat | src/rizzy.rs:155-159 | with the format `%H:%M:%S`, the timestamp of `2020-09-11 14:48:34+0000 foobar` is replaced by strftime's rendering of that instant in New York |
| SourceTests.ShouldConvertEpochNanos | src/rizzy.rs:161-165 | with the epoch pass on, `1607965978437104000 foobar` in New York becomes `2020-12-14T12:12:58.437104-05:00 foobar` |

## Left out

- **Zone offsets.** chrono_tz's zone rules (the offset a zone has at an
  instant, DST included, `src/rizzy.rs:35`) are the `offsetAt` parameter.
  The tz database is not part of this model.
- **User formats.** strftime rendering of a user format (`src/rizzy.rs:37`)
  is the `strftime` parameter. Which formats chrono rejects is part of that
  parameter; the model only states that a rejected one panics.
  `SourceTests.ShouldApplyFormat` takes strftime's output for its instant as
  a precondition.
- **Zone names.** chrono_tz's name parsing and the `auto_correct_n_suggest`
  dictionary (`src/timezones.rs`) are the `TzCatalog` parameter. Their
  algorithms are not visible.
- **Program shell.** `main`, `read_lines`, the stdin and file loops, `println!`
  and clap's argument parsing (`src/main.rs:1-24`, `src/main.rs:90-123`) are
  I/O. `get_timezone` takes `Opts` as already parsed.
- **Process-level tests.** `tests/cli.rs` spawns the binary, so it is not part
  of this model.
- **Pattern compilation.** The regex engine and the `lazy_static` one-time
  compilation are replaced by explicit matchers over ASCII digits. Unicode
  digits that the regex crate's `\d` also accepts are treated as non-digits.
- **Leap seconds.** chrono's `%S` accepts a second of 60 as a leap second.
  The model's calendar has no leap seconds, so such a timestamp is treated as
  out of range and panics.
- **Parse errors.** On matched text the model reports every parse failure
  with chrono's "input is out of range" message. It does not distinguish
  chrono's other error kinds or reproduce their wording.
- **Offset seconds.** chrono's RFC 3339 output does not write the seconds of
  an offset, and neither does `OffsetText`. Zones whose offset is not a whole
  number of minutes are therefore not read back.
- **Time range limits.** chrono bounds the time range to about ±262,000 years.
  The checked additions in `fix_subsec` (`src/rizzy.rs:24-26`) and
  `from_timestamp` (`src/rizzy.rs:78`) fail only beyond that range. The
  model's instants are unbounded, so those failures are not modelled.
- **Years outside 0 to 9999.** Rendering follows chrono's sign convention for
  such years. The read-back lemmas require a four-digit year, because the
  pattern only matches four-digit years.
- Rizzy.FormatPanic: the text is the message of the standard library the
  code was written against (`expect`'s text, `: `, then `Error`). Newer
  toolchains word the `expect` text differently, and the model does not
  follow them.
- Rizzy.ParseI64: models `str::parse::<i64>` only on the unsigned digit runs
  that the epoch pattern can hand it; signs are not modelled.
