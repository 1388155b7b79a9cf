/** The line rewriter of src/rizzy.rs: finds timestamps (and, optionally,
    19-digit nanosecond epoch values) in a line and rewrites each one as the
    same instant in the configured timezone.

Two pieces of chrono are outside this model and are parameters (`Chrono`):
the tz database's offset lookup (`offsetAt`, the offset in seconds a zone has
at a UTC instant) and strftime rendering of a user format (`strftime`). The
default RFC 3339 rendering, the parsing of matched text, the fraction
rescaling and the epoch conversion are modelled in full. A Rust `panic!` or
failed `unwrap` is `Panic(message)`. Nothing in the program catches it, so it
ends the whole run; the model follows it as far as the line it aborts.
 */
module Rizzy {
  import opened Wrappers
  import opened Digits
  import opened Calendar
  import opened Replace
  import opened Scanner
  import opened Timezones

  /** A UTC offset in seconds, as chrono's `FixedOffset` allows it. */
  type Offset = o: int | -86_400 < o < 86_400

  /** A chrono `DateTime<Tz>`: a UTC instant seen in a zone, together with
      the offset the zone has at that instant. */
  datatype ZonedDateTime = ZonedDateTime(tz: Tz, utc: NaiveDateTime, offset: Offset)

  /** `strftime` gives `None` when chrono's formatter reports an error for
      the format (an unknown specifier, say). */
  datatype Chrono = Chrono(offsetAt: (Tz, NaiveDateTime) -> Offset,
                           strftime: (ZonedDateTime, string) -> Option<string>)

  /** The `Rizzy` configuration record; its fields are set once, when it is
      built (`Rizzy::new`), and only read afterwards. */
  datatype Rizzy = Rizzy(tz: Tz, format: Option<string>, epochNanos: bool)

  // ---------------------------------------------------------------------
  // fix_subsec

  /** The message of the `panic!` in `fix_subsec`. */
  function SubsecPanic(numSubDigits: nat): string {
    "Invalid datetime with " + Decimal(numSubDigits, 1) + " digits in the time"
  }

  /** Rescales the nanosecond field, which holds the fraction digits read as
      a plain number, to nanoseconds: a 3-, 6- or 9-digit fraction is
      multiplied by 10^6, 10^3 or 1. No fraction leaves the instant as it is;
      any other digit count panics. */
  function FixSubsec(dt: NaiveDateTime, numSubDigits: nat): (r: Outcome<NaiveDateTime>)
    ensures numSubDigits == 0 ==> r == Value(dt)
    ensures numSubDigits !in {0, 3, 6, 9} ==>
              r == Panic(SubsecPanic(numSubDigits))
    ensures numSubDigits in {3, 6, 9} ==>
              r.Value? && TotalNanos(r.value) == dt.secs * NanosPerSecond + dt.nano * Pow10(9 - numSubDigits)
    ensures numSubDigits in {3, 6, 9} && dt.nano < Pow10(numSubDigits) ==>
              r.Value? && r.value.secs == dt.secs && r.value.nano == dt.nano * Pow10(9 - numSubDigits)
  {
    if numSubDigits == 0 then Value(dt)
    else
      var nsRaw := dt.nano;
      var multiplier :=
        if numSubDigits == 3 then 1_000_000
        else if numSubDigits == 6 then 1_000
        else if numSubDigits == 9 then 1
        else 0;
      if multiplier == 0 then
        Panic(SubsecPanic(numSubDigits))
      else
        var fixed := FromTotalNanos(TotalNanos(dt) - nsRaw + nsRaw * multiplier);
        assert numSubDigits in {3, 6, 9} && dt.nano < Pow10(numSubDigits) ==>
          Pow10(numSubDigits) * Pow10(9 - numSubDigits) == NanosPerSecond by {
          if numSubDigits in {3, 6, 9} {
            Pow10Add(numSubDigits, 9 - numSubDigits);
            assert numSubDigits + (9 - numSubDigits) == 9;
            assert Pow10(9) == NanosPerSecond;
          }
        }
        Value(fixed)
  }

  // ---------------------------------------------------------------------
  // format_time

  /** Year as chrono writes it: four digits within 0..9999, otherwise with an
      explicit sign. */
  function YearText(y: int): string {
    if 0 <= y <= 9999 then Decimal(y, 4)
    else if y < 0 then "-" + Decimal(-y, 4)
    else "+" + Decimal(y, 4)
  }

  /** Fraction of a second in chrono's RFC 3339 output: none for a whole
      second, else the shortest of 3, 6 or 9 digits that is exact. */
  function FractionText(nano: Nanos): string {
    if nano == 0 then ""
    else if nano % 1_000_000 == 0 then "." + Decimal(nano / 1_000_000, 3)
    else if nano % 1_000 == 0 then "." + Decimal(nano / 1_000, 6)
    else "." + Decimal(nano, 9)
  }

  /** `+HH:MM` / `-HH:MM`; seconds of an offset are not written. */
  function OffsetText(o: Offset): string {
    var a := if o < 0 then -o else o;
    (if o < 0 then "-" else "+") + Decimal(a / 3600, 2) + ":" + Decimal(a / 60 % 60, 2)
  }

  /** `YYYY-MM-DD` of a date. */
  function DateText(d: Date): string
    requires ValidDate(d)
  {
    YearText(d.year) + "-" + Decimal(d.month, 2) + "-" + Decimal(d.day, 2)
  }

  /** `HH:MM:SS` of a time of day. */
  function TimeText(c: Civil): string
    requires ValidCivil(c)
  {
    Decimal(c.hour, 2) + ":" + Decimal(c.minute, 2) + ":" + Decimal(c.second, 2)
  }

  /** `YYYY-MM-DDTHH:MM:SS` of a civil date and time. */
  function HeadText(c: Civil): string
    requires ValidCivil(c)
  {
    DateText(c.date) + "T" + TimeText(c)
  }

  /** The local civil time of a zoned instant. */
  function LocalCivil(z: ZonedDateTime): (c: Civil)
    ensures ValidCivil(c) && CivilToSecs(c) == z.utc.secs + z.offset
  {
    SecsToCivilInverse(z.utc.secs + z.offset);
    SecsToCivil(z.utc.secs + z.offset)
  }

  /** `DateTime::to_rfc3339`. */
  function ToRfc3339(z: ZonedDateTime): string {
    HeadText(LocalCivil(z)) + FractionText(z.utc.nano) + OffsetText(z.offset)
  }

  /** The message of the panic `format!` raises when the value it formats
      reports an error: the standard library's `expect` text, then `: ` and
      the `Debug` form of `fmt::Error`. */
  const FormatPanic: string := "a formatting trait implementation returned an error: Error"

  /** `format_time`: the UTC instant in the configured zone, rendered with
      the user's format when there is one, else as RFC 3339. A format that
      chrono cannot render makes `format!` panic. */
  function FormatTime(cfg: Rizzy, lib: Chrono, dt: NaiveDateTime): Outcome<string> {
    var z := ZonedDateTime(cfg.tz, dt, lib.offsetAt(cfg.tz, dt));
    match cfg.format
    case Some(format) =>
      (match lib.strftime(z, format)
       case Some(text) => Value(text)
       case None => Panic(FormatPanic))
    case None => Value(ToRfc3339(z))
  }

  // ---------------------------------------------------------------------
  // replace_one_time

  /** The two chrono parse errors a timestamp-shaped text can meet. */
  datatype ParseError = OutOfRange | Invalid {
    function Message(): string {
      match this
      case OutOfRange => "input is out of range"
      case Invalid => "input contains invalid characters"
    }
  }

  /** `%Y-%m-%d?%H:%M:%S` read from the first 19 characters. */
  function HeadFields(t: string): Civil
    requires HeadShape(t)
  {
    Civil(Date(Number(t[0..4]), Number(t[5..7]), Number(t[8..10])),
          Number(t[11..13]), Number(t[14..16]), Number(t[17..19]))
  }

  /** `%z`: `+HHMM` or `+HH:MM` (either sign), as seconds east of UTC. */
  function ParseOffset(z: string): Result<Offset, ParseError> {
    if !ZoneText(z) || z == "Z" then Err(Invalid)
    else
      var hh := Number(z[1..3]);
      var mm := if |z| == 5 then Number(z[3..5]) else Number(z[4..6]);
      if mm >= 60 || hh * 3600 + mm * 60 >= 86_400 then Err(OutOfRange)
      else Ok(if z[0] == '-' then -(hh * 3600 + mm * 60) else hh * 3600 + mm * 60)
  }

  /** `%f` without scaling: at most nine digits read as a plain number,
      which always fits the nanosecond field. */
  function SubsecNumber(digits: string): (n: Nanos)
    requires AllDigits(digits) && |digits| <= 9
    ensures n == Number(digits)
  {
    Pow10Monotone(|digits|, 9);
    Number(digits)
  }

  /** chrono's `parse_from_str` with the format `replace_one_time` builds:
      `%Y-%m-%d{sep}%H:%M:%S`, then `.%f` when there are fraction digits, then
      `Z` (`zulu`) or `%z`; in the `%z` case the offset is then removed
      (`naive_utc`). `%f` reads the digits as a plain number, so the
      nanosecond field of the result holds them unscaled. */
  function ParseUtc(t: string, sep: char, numSubDigits: nat, zulu: bool): Result<NaiveDateTime, ParseError> {
    var fracEnd := if numSubDigits == 0 then 19 else 20 + numSubDigits;
    if || !HeadShape(t) || t[10] != sep || numSubDigits > 9 || |t| < fracEnd
       || (numSubDigits > 0 && (t[19] != '.' || !AllDigits(t[20..fracEnd])))
    then Err(Invalid)
    else
      var c := HeadFields(t);
      var raw := if numSubDigits == 0 then 0 else SubsecNumber(t[20..fracEnd]);
      var zone := t[fracEnd..];
      var offset := if zulu then (if zone == "Z" then Ok(0) else Err(Invalid)) else ParseOffset(zone);
      if offset.Err? then Err(offset.error)
      else if !ValidCivil(c) then Err(OutOfRange)
      else Ok(NaiveDateTime(CivilToSecs(c) - offset.value, raw))
  }

  /** The message of the `panic!` in `replace_one_time`. */
  function ParsePanic(t: string, e: ParseError): string {
    "Unable to parse datetime " + t + ": " + e.Message()
  }

  /** The UTC instant `replace_one_time` computes for a matched text, before
      rendering it. */
  function MatchToUtc(t: string, caps: TsCaps): Outcome<NaiveDateTime> {
    match ParseUtc(t, caps.sep, caps.subDigits, caps.tz == "Z")
    case Err(e) => Panic(ParsePanic(t, e))
    case Ok(dt) => FixSubsec(dt, caps.subDigits)
  }

  /** `replace_one_time`: the replacement text for one timestamp match. */
  function ReplaceOneTime(cfg: Rizzy, lib: Chrono, t: string, caps: TsCaps): Outcome<string> {
    match MatchToUtc(t, caps)
    case Panic(m) => Panic(m)
    case Value(dt) => FormatTime(cfg, lib, dt)
  }

  // ---------------------------------------------------------------------
  // The epoch-nanoseconds replacement

  const I64Max: int := 9_223_372_036_854_775_807

  /** Kinds of `ParseIntError` that `str::parse::<i64>` can report here. */
  datatype IntErrorKind = Empty | InvalidDigit | PosOverflow {
    function Name(): string {
      match this
      case Empty => "Empty"
      case InvalidDigit => "InvalidDigit"
      case PosOverflow => "PosOverflow"
    }
  }

  /** The message of `unwrap` on a failed `str::parse::<i64>`. */
  function UnwrapPanic(kind: IntErrorKind): string {
    "called `Result::unwrap()` on an `Err` value: ParseIntError { kind: " + kind.Name() + " }"
  }

  /** `str::parse::<i64>` on unsigned decimal text. */
  function ParseI64(t: string): (r: Result<int, IntErrorKind>)
    ensures r.Ok? <==> t != [] && AllDigits(t) && Number(t) <= I64Max
    ensures r.Ok? ==> r.value == Number(t)
  {
    if t == [] then Err(Empty)
    else if !AllDigits(t) then Err(InvalidDigit)
    else if Number(t) > I64Max then Err(PosOverflow)
    else Ok(Number(t))
  }

  /** `NaiveDateTime::from_timestamp(ts / 10^9, ts % 10^9)`: for a
      non-negative `ts` this is the whole seconds and the nanoseconds left
      over, which is how `FromTotalNanos` splits a nanosecond count. */
  function EpochInstant(ts: nat): (dt: NaiveDateTime)
    ensures TotalNanos(dt) == ts
  {
    FromTotalNanos(ts)
  }

  /** The replacement text for one 19-digit match. */
  function EpochReplacement(cfg: Rizzy, lib: Chrono, t: string): Outcome<string> {
    match ParseI64(t)
    case Err(kind) => Panic(UnwrapPanic(kind))
    case Ok(ts) => FormatTime(cfg, lib, EpochInstant(ts))
  }

  // ---------------------------------------------------------------------
  // handle_line

  function TimestampReplacer(cfg: Rizzy, lib: Chrono): (string, TsCaps) -> Outcome<string> {
    (t, caps) => ReplaceOneTime(cfg, lib, t, caps)
  }

  function EpochReplacer(cfg: Rizzy, lib: Chrono): (string, ()) -> Outcome<string> {
    (t, u) => EpochReplacement(cfg, lib, t)
  }

  /** The timestamp pass of `handle_line`. */
  function TimestampPass(cfg: Rizzy, lib: Chrono, line: string): Outcome<string> {
    FindTimestampFindsPrefixes();
    ReplaceAll(line, FindTimestamp, TimestampReplacer(cfg, lib))
  }

  /** The epoch-nanoseconds pass of `handle_line`. */
  function EpochPass(cfg: Rizzy, lib: Chrono, line: string): Outcome<string> {
    FindEpochFindsPrefixes();
    ReplaceAll(line, FindEpoch, EpochReplacer(cfg, lib))
  }

  /** `handle_line`: the timestamp pass, then, when enabled, the epoch pass
      over its result. */
  function HandleLine(cfg: Rizzy, lib: Chrono, line: string): Outcome<string> {
    match TimestampPass(cfg, lib, line)
    case Panic(m) => Panic(m)
    case Value(replaced) => if cfg.epochNanos then EpochPass(cfg, lib, replaced) else Value(replaced)
  }
}
