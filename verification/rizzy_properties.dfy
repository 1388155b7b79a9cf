/** Properties of the line rewriter (src/rizzy.rs): what a matched timestamp
    is read as, that RFC 3339 output reads back as the instant it came from,
    what the fraction and zone markers mean, where lines panic, and how the
    two passes treat the text around their matches.
 */
module RizzyProperties {
  import opened Wrappers
  import opened Digits
  import opened Calendar
  import opened Replace
  import opened Scanner
  import opened Timezones
  import opened Rizzy
  import opened Slices

  // ---------------------------------------------------------------------
  // Rendering

  lemma HeadFieldsPrefix(s: string, k: nat)
    requires 19 <= k <= |s| && HeadShape(s)
    ensures HeadShape(s[..k]) && HeadFields(s[..k]) == HeadFields(s)
  {
    HeadShapePrefix(s, k);
    var t := s[..k];
    assert t[0..4] == s[0..4] && t[5..7] == s[5..7] && t[8..10] == s[8..10];
    assert t[11..13] == s[11..13] && t[14..16] == s[14..16] && t[17..19] == s[17..19];
  }

  /** `n` written with `w` digits (`n` fits) is `w` digits that read back
      as `n`. */
  lemma DecimalField(n: nat, w: nat)
    requires 1 <= w && n < Pow10(w)
    ensures var s := Decimal(n, w); |s| == w && AllDigits(s) && Number(s) == n
  {
    DecimalLength(n, w);
    NumberOfDecimal(n, w);
  }

  lemma DateTextReadsBack(d: Date)
    requires ValidDate(d) && 0 <= d.year <= 9999
    ensures var s := DateText(d);
      && |s| == 10 && AllDigits(s[0..4]) && s[4] == '-' && AllDigits(s[5..7]) && s[7] == '-' && AllDigits(s[8..10])
      && Number(s[0..4]) == d.year && Number(s[5..7]) == d.month && Number(s[8..10]) == d.day
  {
    var y, m, dd := Decimal(d.year, 4), Decimal(d.month, 2), Decimal(d.day, 2);
    DecimalField(d.year, 4);
    DecimalField(d.month, 2);
    DecimalField(d.day, 2);
    var s := DateText(d);
    assert s == y + "-" + m + "-" + dd;
    assert s[0..4] == y && s[5..7] == m && s[8..10] == dd;
  }

  lemma TimeTextReadsBack(c: Civil)
    requires ValidCivil(c)
    ensures var s := TimeText(c);
      && |s| == 8 && AllDigits(s[0..2]) && s[2] == ':' && AllDigits(s[3..5]) && s[5] == ':' && AllDigits(s[6..8])
      && Number(s[0..2]) == c.hour && Number(s[3..5]) == c.minute && Number(s[6..8]) == c.second
  {
    var hh, mm, ss := Decimal(c.hour, 2), Decimal(c.minute, 2), Decimal(c.second, 2);
    DecimalField(c.hour, 2);
    DecimalField(c.minute, 2);
    DecimalField(c.second, 2);
    var s := TimeText(c);
    assert s == hh + ":" + mm + ":" + ss;
    assert s[0..2] == hh && s[3..5] == mm && s[6..8] == ss;
  }

  /** The six numeric fields of the date and time part sit where
      `HeadShape` and `HeadFields` look for them. */
  lemma HeadTextSlices(c: Civil)
    requires ValidCivil(c)
    ensures var h, ds, ts := HeadText(c), DateText(c.date), TimeText(c);
      && |ds| == 10 ==> (
        && h[0..4] == ds[0..4] && h[4] == ds[4] && h[5..7] == ds[5..7] && h[7] == ds[7] && h[8..10] == ds[8..10]
        && h[10] == 'T'
        && h[11..13] == ts[0..2] && h[13] == ts[2] && h[14..16] == ts[3..5] && h[16] == ts[5] && h[17..19] == ts[6..8])
  {
    var ds, ts := DateText(c.date), TimeText(c);
    if |ds| == 10 {
      TimeTextReadsBack(c);
      var h := HeadText(c);
      assert h == (ds + "T") + ts;
      SliceLeft(ds + "T", ts, 0, 4);
      SliceLeft(ds, "T", 0, 4);
      SliceLeft(ds + "T", ts, 5, 7);
      SliceLeft(ds, "T", 5, 7);
      SliceLeft(ds + "T", ts, 8, 10);
      SliceLeft(ds, "T", 8, 10);
      SliceRight(ds + "T", ts, 0, 2);
      SliceRight(ds + "T", ts, 3, 5);
      SliceRight(ds + "T", ts, 6, 8);
    }
  }

  /** The date and time part of the RFC 3339 rendering has the shape the
      scanner looks for, with a `T` separator, and reads back as the civil
      fields it was written from. */
  lemma HeadTextReadsBack(c: Civil)
    requires ValidCivil(c) && 0 <= c.date.year <= 9999
    ensures var h := HeadText(c);
      |h| == 19 && HeadShape(h) && h[10] == 'T' && HeadFields(h) == c
  {
    DateTextReadsBack(c.date);
    TimeTextReadsBack(c);
    HeadTextSlices(c);
  }

  /** A fraction as it may follow the seconds: nothing, or a dot and 3 to 9
      digits. */
  predicate FracShape(f: string) {
    f == [] || (f[0] == '.' && 3 <= |f| - 1 <= 9 && AllDigits(f[1..]))
  }

  function FracDigits(f: string): nat
    requires FracShape(f)
  {
    if f == [] then 0 else |f| - 1
  }

  /** The digits of the fraction read as a plain number, as `%f` reads them. */
  function FracRaw(f: string): (n: nat)
    requires FracShape(f)
    ensures n < Pow10(FracDigits(f)) && n < NanosPerSecond
  {
    if f == [] then 0 else Pow10Monotone(|f| - 1, 9); Number(f[1..])
  }

  /** A dot followed by `q` written with `w` digits is a fraction of `w`
      digits that reads as `q`. */
  lemma DottedDecimal(q: nat, w: nat)
    requires 3 <= w <= 9 && q < Pow10(w)
    ensures var f := "." + Decimal(q, w);
      FracShape(f) && FracDigits(f) == w && FracRaw(f) == q
  {
    DecimalField(q, w);
    var f := "." + Decimal(q, w);
    assert f[1..] == Decimal(q, w);
  }

  /** The fraction written by `to_rfc3339` is empty exactly for a whole
      second; otherwise it is a dot and 3, 6 or 9 digits which, scaled by
      10^(9 - digits), give back the nanoseconds. */
  lemma FractionTextReadsBack(nano: Nanos)
    ensures var f := FractionText(nano);
      && FracShape(f) && FracDigits(f) in {0, 3, 6, 9}
      && (f == [] <==> nano == 0)
      && FracRaw(f) * Pow10(9 - FracDigits(f)) == nano
  {
    var f := FractionText(nano);
    if nano == 0 {
      assert Pow10(9) == 1_000_000_000;
    } else if nano % 1_000_000 == 0 {
      var q := nano / 1_000_000;
      assert f == "." + Decimal(q, 3);
      assert Pow10(3) == 1_000 && Pow10(6) == 1_000_000;
      DottedDecimal(q, 3);
    } else if nano % 1_000 == 0 {
      var q := nano / 1_000;
      assert f == "." + Decimal(q, 6);
      assert Pow10(6) == 1_000_000 && Pow10(3) == 1_000;
      DottedDecimal(q, 6);
    } else {
      assert f == "." + Decimal(nano, 9);
      assert Pow10(9) == 1_000_000_000 && Pow10(0) == 1;
      DottedDecimal(nano, 9);
    }
  }

  /** A count of seconds that is a whole number of minutes is hours and
      minutes as `OffsetText` splits it. */
  lemma WholeMinutes(a: nat)
    requires a % 60 == 0
    ensures a / 60 % 60 < 60 && (a / 3600) * 3600 + (a / 60 % 60) * 60 == a
  {
    var q := a / 60;
    assert a == 60 * q;
    assert q == 60 * (q / 60) + q % 60;
    assert a == 3600 * (q / 60) + 60 * (q % 60);
    assert a / 3600 == q / 60;
  }

  /** The offset text is a sign, two digits of hours, a colon and two
      digits of minutes. */
  lemma OffsetTextShape(o: Offset)
    ensures var z := OffsetText(o); var a := if o < 0 then -o else o;
      && |z| == 6 && z[0] == (if o < 0 then '-' else '+') && z[3] == ':'
      && AllDigits(z[1..3]) && AllDigits(z[4..6])
      && Number(z[1..3]) == a / 3600 && Number(z[4..6]) == a / 60 % 60
  {
    var a := if o < 0 then -o else o;
    var hh, mm := Decimal(a / 3600, 2), Decimal(a / 60 % 60, 2);
    DecimalField(a / 3600, 2);
    DecimalField(a / 60 % 60, 2);
    var z := OffsetText(o);
    var sign := if o < 0 then "-" else "+";
    assert z == (sign + hh) + (":" + mm);
    SliceLeft(sign + hh, ":" + mm, 1, 3);
    SliceRight(sign, hh, 0, 2);
    SliceRight(sign + hh, ":" + mm, 1, 3);
    SliceRight(":", mm, 0, 2);
  }

  /** `%z` reads `+HH:MM` / `-HH:MM` with minutes below 60 and less than a
      day in all as that many seconds east or west of UTC. */
  lemma ColonOffsetParses(z: string, hh: nat, mm: nat)
    requires |z| == 6 && IsSign(z[0]) && AllDigits(z[1..3]) && z[3] == ':' && AllDigits(z[4..6])
    requires Number(z[1..3]) == hh && Number(z[4..6]) == mm && mm < 60 && hh * 3600 + mm * 60 < 86_400
    ensures ZoneText(z) && z != "Z"
    ensures ParseOffset(z) == Ok(if z[0] == '-' then -(hh * 3600 + mm * 60) else hh * 3600 + mm * 60)
  {
    assert z != "Z" && |z| != 5;
  }

  /** `%z` reads `+HHMM` / `-HHMM` as that many seconds east or west of
      UTC, unless the minutes reach 60 or the whole reaches a day, which is
      out of range. */
  lemma CompactOffsetParses(z: string, hh: nat, mm: nat)
    requires |z| == 5 && IsSign(z[0]) && AllDigits(z[1..3]) && AllDigits(z[3..5])
    requires Number(z[1..3]) == hh && Number(z[3..5]) == mm
    ensures ZoneText(z) && z != "Z"
    ensures ParseOffset(z) ==
      if mm >= 60 || hh * 3600 + mm * 60 >= 86_400 then Err(OutOfRange)
      else Ok(if z[0] == '-' then -(hh * 3600 + mm * 60) else hh * 3600 + mm * 60)
  {
  }

  /** `%z` on `+0530`: a half-hour zone east of UTC. */
  lemma CompactHalfHourEast()
    ensures ParseOffset("+0530") == Ok(19_800)
  {
    assert "+0530"[1..3] == "05" && "+0530"[3..5] == "30";
    CompactOffsetParses("+0530", 5, 30);
  }

  /** `%z` on `-0530`: a half-hour zone west of UTC. */
  lemma CompactHalfHourWest()
    ensures ParseOffset("-0530") == Ok(-19_800)
  {
    assert "-0530"[1..3] == "05" && "-0530"[3..5] == "30";
    CompactOffsetParses("-0530", 5, 30);
  }

  /** `%z` on `+0560`: a minute field of 60 is out of range. */
  lemma CompactMinutesTooLarge()
    ensures ParseOffset("+0560") == Err(OutOfRange)
  {
    assert "+0560"[1..3] == "05" && "+0560"[3..5] == "60";
    CompactOffsetParses("+0560", 5, 60);
  }

  /** `%z` on `+2400`: an offset of a whole day is out of range. */
  lemma CompactFullDayOffset()
    ensures ParseOffset("+2400") == Err(OutOfRange)
  {
    assert "+2400"[1..3] == "24" && "+2400"[3..5] == "00";
    CompactOffsetParses("+2400", 24, 0);
  }

  /** An offset of whole minutes is written as `+HH:MM` / `-HH:MM`, which
      `%z` reads back as the same offset. */
  lemma OffsetTextReadsBack(o: Offset)
    requires o % 60 == 0
    ensures var z := OffsetText(o);
      |z| == 6 && ZoneText(z) && z != "Z" && IsSign(z[0]) && ParseOffset(z) == Ok(o)
  {
    var a: nat := if o < 0 then -o else o;
    assert a % 60 == 0;
    WholeMinutes(a);
    OffsetTextShape(o);
    var z := OffsetText(o);
    var hh, mm := Number(z[1..3]), Number(z[4..6]);
    assert mm < 60 && hh * 3600 + mm * 60 == a < 86_400;
    ColonOffsetParses(z, hh, mm);
  }

  /** A date and time, a fraction and a zone marker written one after the
      other are found by the scanner as one match with those parts as
      captures, whatever text follows them. */
  lemma AssembledIsMatched(h: string, f: string, o: string, rest: string)
    requires |h| == 19 && HeadShape(h) && FracShape(f) && ZoneText(o)
    ensures FindTimestamp(h + f + o + rest) == Some(Found(|h + f + o|, TsCaps(h[10], FracDigits(f), o)))
  {
    if f == [] {
      DropEmpty(h, f, o, rest);
      ZoneAfterHead(h, o, rest);
    } else {
      ZoneAfterFraction(h, f, o, rest);
    }
  }

  lemma HeadShapeExtends(h: string, t: string)
    requires |h| == 19 && HeadShape(h)
    ensures HeadShape(h + t) && (h + t)[10] == h[10]
  {
    PrefixOfConcat(h, t);
    HeadShapePrefix(h + t, 19);
  }

  lemma ZoneAfterHead(h: string, o: string, rest: string)
    requires |h| == 19 && HeadShape(h) && ZoneText(o)
    ensures FindTimestamp(h + o + rest) == Some(Found(19 + |o|, TsCaps(h[10], 0, o)))
  {
    var r := h + o + rest;
    assert r == h + (o + rest);
    HeadShapeExtends(h, o + rest);
    MiddleOfConcat(h, o, rest);
    assert r[19] == o[0];
    CompleteWithoutFraction(r, 19 + |o|);
  }

  lemma ZoneAfterFraction(h: string, f: string, o: string, rest: string)
    requires |h| == 19 && HeadShape(h) && f != [] && FracShape(f) && ZoneText(o)
    ensures FindTimestamp(h + f + o + rest) == Some(Found(|h + f| + |o|, TsCaps(h[10], |f| - 1, o)))
  {
    var r := h + f + o + rest;
    var n := |h + f|;
    RegroupFour(h, f, o, rest);
    HeadShapeExtends(h, f + o + rest);
    MiddleOfConcat(h + f, o, rest);
    MiddleOfConcat(h + [f[0]], f[1..], o + rest);
    assert r[19] == '.';
    CompleteWithFraction(r, n, n + |o|);
  }

  /** What the parse of an assembled text yields: the zone marker decides
      the offset (or the error), then the date and time must be a valid
      civil time, and the fraction digits are carried as read. */
  lemma AssembledParse(h: string, f: string, z: string, zulu: bool)
    requires |h| == 19 && HeadShape(h) && FracShape(f)
    ensures var off := if zulu then (if z == "Z" then Ok(0) else Err(Invalid)) else ParseOffset(z);
      ParseUtc(h + f + z, h[10], FracDigits(f), zulu) ==
        if off.Err? then Err(off.error)
        else if !ValidCivil(HeadFields(h)) then Err(OutOfRange)
        else Ok(NaiveDateTime(CivilToSecs(HeadFields(h)) - off.value, FracRaw(f)))
  {
    AssembledSlices(h, f, z);
  }

  /** Where the parse finds the parts of an assembled text. */
  lemma AssembledSlices(h: string, f: string, z: string)
    requires |h| == 19 && HeadShape(h) && FracShape(f)
    ensures var r := h + f + z; var d := FracDigits(f); var fracEnd := if d == 0 then 19 else 20 + d;
      && fracEnd <= |r| && HeadShape(r) && r[10] == h[10] && HeadFields(r) == HeadFields(h)
      && r[fracEnd..] == z
      && (d > 0 ==> r[19] == '.' && r[20..fracEnd] == f[1..])
  {
    var r := h + f + z;
    EndsOfThree(h, f, z);
    HeadShapePrefix(r, 19);
    HeadFieldsPrefix(r, 19);
    if f != [] {
      MiddleOfConcat(h, f, z);
      InnerOfMiddle(h, f, z);
    }
  }

  /** The RFC 3339 rendering of an instant is found by the scanner as one
      whole match, with separator `T`, the written fraction and the written
      offset as its captures. */
  lemma Rfc3339IsMatched(z: ZonedDateTime)
    requires z.offset % 60 == 0 && 0 <= LocalCivil(z).date.year <= 9999
    ensures var r := ToRfc3339(z); var f := FractionText(z.utc.nano);
      FindTimestamp(r) ==
        Some(Found(|r|, TsCaps('T', if f == [] then 0 else |f| - 1, OffsetText(z.offset))))
  {
    var c := LocalCivil(z);
    HeadTextReadsBack(c);
    FractionTextReadsBack(z.utc.nano);
    OffsetTextReadsBack(z.offset);
    AssembledIsMatched(HeadText(c), FractionText(z.utc.nano), OffsetText(z.offset), []);
    AppendEmpty(ToRfc3339(z));
  }

  /** An assembled text whose parts encode the instant `utc` (the civil
      time less the offset gives its seconds, the fraction digits scaled to
      nanoseconds give its nanoseconds) is converted to `utc`. */
  lemma AssembledReadsBack(h: string, f: string, o: string, off: Offset, utc: NaiveDateTime)
    requires |h| == 19 && HeadShape(h) && ValidCivil(HeadFields(h))
    requires FracShape(f) && FracDigits(f) in {0, 3, 6, 9}
    requires FracRaw(f) * Pow10(9 - FracDigits(f)) == utc.nano
    requires ParseOffset(o) == Ok(off) && o != "Z"
    requires CivilToSecs(HeadFields(h)) - off == utc.secs
    ensures MatchToUtc(h + f + o, TsCaps(h[10], FracDigits(f), o)) == Value(utc)
  {
    AssembledParse(h, f, o, false);
    var d := FracDigits(f);
    var parsed := NaiveDateTime(utc.secs, FracRaw(f));
    assert ParseUtc(h + f + o, h[10], d, false) == Ok(parsed);
  }

  /** Reading back: the matched RFC 3339 rendering of an instant (in any zone
      whose offset is a whole number of minutes, with a four-digit local
      year) is converted to exactly that instant, nanoseconds included. */
  lemma Rfc3339ReadsBack(z: ZonedDateTime)
    requires z.offset % 60 == 0 && 0 <= LocalCivil(z).date.year <= 9999
    ensures var r := ToRfc3339(z);
      FindTimestamp(r).Some? && FindTimestamp(r).value.len == |r|
      && MatchToUtc(r, FindTimestamp(r).value.caps) == Value(z.utc)
  {
    Rfc3339IsMatched(z);
    Rfc3339Converts(z);
  }

  /** The RFC 3339 rendering of an instant, with the captures the scanner
      gives it, is converted to that instant. */
  lemma Rfc3339Converts(z: ZonedDateTime)
    requires z.offset % 60 == 0 && 0 <= LocalCivil(z).date.year <= 9999
    ensures var f := FractionText(z.utc.nano);
      MatchToUtc(ToRfc3339(z), TsCaps('T', if f == [] then 0 else |f| - 1, OffsetText(z.offset))) == Value(z.utc)
  {
    var c := LocalCivil(z);
    var h, f, o := HeadText(c), FractionText(z.utc.nano), OffsetText(z.offset);
    HeadTextReadsBack(c);
    FractionTextReadsBack(z.utc.nano);
    OffsetTextReadsBack(z.offset);
    AssembledReadsBack(h, f, o, z.offset, z.utc);
  }

  /** The RFC 3339 rendering holds no run of 19 digits: it is at most 34
      characters long and its character 16 is the colon before the seconds,
      so every window of 19 characters takes in that colon. */
  lemma Rfc3339HasNoEpochRun(z: ZonedDateTime)
    requires 0 <= LocalCivil(z).date.year <= 9999
    ensures NoMatchFrom(ToRfc3339(z), FindEpoch, 0)
  {
    var h, f, o := HeadText(LocalCivil(z)), FractionText(z.utc.nano), OffsetText(z.offset);
    var r := ToRfc3339(z);
    HeadTextReadsBack(LocalCivil(z));
    FractionTextReadsBack(z.utc.nano);
    OffsetTextShape(z.offset);
    assert r == h + f + o && r[16] == h[16] == ':';
    forall j | 0 <= j < |r|
      ensures FindEpoch(r[j..]).None?
    {
      if |r[j..]| >= 19 {
        assert r[j..][..19][16 - j] == r[16];
      }
    }
  }

  /** The timestamp pass leaves a text of the default output form as it is. */
  lemma Rfc3339TimestampPassKeeps(cfg: Rizzy, lib: Chrono, z: ZonedDateTime)
    requires cfg.format.None? && z.tz == cfg.tz
    requires z.offset == lib.offsetAt(cfg.tz, z.utc)
    requires z.offset % 60 == 0 && 0 <= LocalCivil(z).date.year <= 9999
    ensures TimestampPass(cfg, lib, ToRfc3339(z)) == Value(ToRfc3339(z))
  {
    var r := ToRfc3339(z);
    Rfc3339ReadsBack(z);
    var found := FindTimestamp(r).value;
    assert r + [] == r;
    assert FormatTime(cfg, lib, z.utc) == Value(r);
    TimestampAtFront(cfg, lib, r, found.caps, []);
    assert TimestampPass(cfg, lib, []) == Value([]);
  }

  /** The epoch pass leaves a text of the default output form as it is. */
  lemma Rfc3339EpochPassKeeps(cfg: Rizzy, lib: Chrono, z: ZonedDateTime)
    requires 0 <= LocalCivil(z).date.year <= 9999
    ensures EpochPass(cfg, lib, ToRfc3339(z)) == Value(ToRfc3339(z))
  {
    Rfc3339HasNoEpochRun(z);
    FindEpochFindsPrefixes();
    NoMatchUnchanged(ToRfc3339(z), FindEpoch, EpochReplacer(cfg, lib));
  }

  /** Converting an RFC 3339 timestamp that is already in the configured
      zone leaves the line unchanged, with or without the epoch pass: a
      single pass only changes the zone. */
  lemma ConvertingOwnOutputIsIdentity(cfg: Rizzy, lib: Chrono, z: ZonedDateTime)
    requires cfg.format.None? && z.tz == cfg.tz
    requires z.offset == lib.offsetAt(cfg.tz, z.utc)
    requires z.offset % 60 == 0 && 0 <= LocalCivil(z).date.year <= 9999
    ensures HandleLine(cfg, lib, ToRfc3339(z)) == Value(ToRfc3339(z))
  {
    Rfc3339TimestampPassKeeps(cfg, lib, z);
    Rfc3339EpochPassKeeps(cfg, lib, z);
  }


  // ---------------------------------------------------------------------
  // What a matched timestamp is read as

  /** `t` is a date and time, a fraction (possibly empty) and the zone
      marker `caps.tz`, one after the other, and the captures agree with
      those parts. */
  predicate MatchParts(t: string, caps: TsCaps) {
    var fracEnd := |t| - |caps.tz|;
    && 19 <= fracEnd
    && HeadShape(t[..19]) && FracShape(t[19..fracEnd]) && FracDigits(t[19..fracEnd]) == caps.subDigits
    && ZoneText(caps.tz) && caps.sep == t[10]
    && t == t[..19] + t[19..fracEnd] + caps.tz
  }

  /** The pieces of a timestamp match, read off the text it was found in:
      the date and time, the fraction as its capture counts it, and the
      zone marker. */
  lemma MatchPieces(s: string)
    requires FindTimestamp(s).Some?
    ensures var m := FindTimestamp(s).value; var fracEnd := m.len - |m.caps.tz|;
      && 19 <= fracEnd <= m.len <= |s| && HeadShape(s[..19])
      && FracShape(s[19..fracEnd]) && FracDigits(s[19..fracEnd]) == m.caps.subDigits
      && ZoneText(m.caps.tz) && m.caps.sep == s[10] && m.caps.tz == s[fracEnd..m.len]
  {
    HeadShapePrefix(s, 19);
    if s[19] == '.' {
      var k := LeadingDigits(s[20..]);
      var j := 20 + k;
      ZoneLenSound(s[j..]);
      PrefixOfTail(s, j, ZoneLen(s[j..]));
      assert s[20..][..k] == s[19..j][1..];
    } else {
      ZoneLenSound(s[19..]);
      PrefixOfTail(s, 19, ZoneLen(s[19..]));
    }
  }

  /** Every timestamp match splits into its parts as the captures say. */
  lemma MatchSplits(s: string)
    requires FindTimestamp(s).Some?
    ensures var m := FindTimestamp(s).value;
      m.len <= |s| && MatchParts(s[..m.len], m.caps)
  {
    MatchPieces(s);
    var m := FindTimestamp(s).value;
    var t := s[..m.len];
    var fracEnd := m.len - |m.caps.tz|;
    SliceOfPrefix(s, m.len, 0, 19);
    TailOfPrefix(s, m.len, fracEnd);
    SliceOfPrefix(s, m.len, 19, fracEnd);
    ThreeCuts(t, 19, fracEnd);
  }



  /** The offset a zone marker denotes: `Z` is UTC, anything else is read
      by `%z`. */
  function ZoneOffset(tz: string): Result<Offset, ParseError> {
    if tz == "Z" then Ok(0) else ParseOffset(tz)
  }

  /** A zone marker the scanner accepts never makes `%z` fail on its form:
      at worst its hours and minutes are out of range. */
  lemma ZoneMarkerParses(tz: string)
    requires ZoneText(tz)
    ensures ZoneOffset(tz) != Err(Invalid)
  {
  }

  /** The parse of a matched timestamp, in terms of its parts. */
  lemma MatchedParse(t: string, caps: TsCaps)
    requires MatchParts(t, caps)
    ensures var off := ZoneOffset(caps.tz); var c := HeadFields(t[..19]);
      ParseUtc(t, caps.sep, caps.subDigits, caps.tz == "Z") ==
        if off.Err? then Err(off.error)
        else if !ValidCivil(c) then Err(OutOfRange)
        else Ok(NaiveDateTime(CivilToSecs(c) - off.value, FracRaw(t[19..|t| - |caps.tz|])))
  {
    var h, f, z := t[..19], t[19..|t| - |caps.tz|], caps.tz;
    assert h + f + z == t && h[10] == caps.sep && FracDigits(f) == caps.subDigits;
    AssembledParse(h, f, z, z == "Z");
    assert ZoneOffset(z) == if z == "Z" then Ok(0) else ParseOffset(z);
  }

  /** A matched timestamp whose zone or fields are out of range panics with
      chrono's "input is out of range". */
  lemma MatchedOutOfRange(t: string, caps: TsCaps)
    requires MatchParts(t, caps)
    requires ZoneOffset(caps.tz).Err? || !ValidCivil(HeadFields(t[..19]))
    ensures MatchToUtc(t, caps) == Panic(ParsePanic(t, OutOfRange))
  {
    MatchedParse(t, caps);
    ZoneMarkerParses(caps.tz);
  }

  /** A matched timestamp with a 4-, 5-, 7- or 8-digit fraction gets through
      the parse and then panics in `fix_subsec`. */
  lemma MatchedUnsupportedFraction(t: string, caps: TsCaps)
    requires MatchParts(t, caps) && caps.subDigits !in {0, 3, 6, 9}
    requires ZoneOffset(caps.tz).Ok? && ValidCivil(HeadFields(t[..19]))
    ensures MatchToUtc(t, caps) == Panic(SubsecPanic(caps.subDigits))
  {
    MatchedParse(t, caps);
  }

  /** A fraction of 3, 6 or 9 digits that fits its digit count is scaled
      to nanoseconds; the whole seconds are left alone. */
  lemma FixSubsecScales(dt: NaiveDateTime, d: nat)
    requires d in {0, 3, 6, 9} && dt.nano < Pow10(d)
    ensures dt.nano * Pow10(9 - d) < NanosPerSecond
    ensures FixSubsec(dt, d) == Value(NaiveDateTime(dt.secs, dt.nano * Pow10(9 - d)))
  {
    if d == 0 {
      assert Pow10(0) == 1;
    } else if d == 3 {
      assert Pow10(3) == 1_000 && Pow10(6) == 1_000_000;
    } else if d == 6 {
      assert Pow10(6) == 1_000_000 && Pow10(3) == 1_000;
    } else {
      assert Pow10(9) == 1_000_000_000 && Pow10(0) == 1;
    }
  }

  /** Any other matched timestamp is the instant of its civil time less its
      offset, with the fraction digits scaled to nanoseconds. */
  lemma MatchedInstant(t: string, caps: TsCaps)
    requires MatchParts(t, caps) && caps.subDigits in {0, 3, 6, 9}
    requires ZoneOffset(caps.tz).Ok? && ValidCivil(HeadFields(t[..19]))
    ensures var r := MatchToUtc(t, caps);
      && r.Value?
      && r.value.secs == CivilToSecs(HeadFields(t[..19])) - ZoneOffset(caps.tz).value
      && r.value.nano == FracRaw(t[19..|t| - |caps.tz|]) * Pow10(9 - caps.subDigits)
  {
    var f := t[19..|t| - |caps.tz|];
    var dt := NaiveDateTime(CivilToSecs(HeadFields(t[..19])) - ZoneOffset(caps.tz).value, FracRaw(f));
    MatchedParse(t, caps);
    assert MatchToUtc(t, caps) == FixSubsec(dt, caps.subDigits);
  }

  /** A zero offset written as `+00:00`, `+0000`, `-00:00` or `-0000`. */
  predicate ZeroOffsetText(z: string) {
    z == "+00:00" || z == "+0000" || z == "-00:00" || z == "-0000"
  }

  lemma ZeroOffsetParses(z: string)
    requires ZeroOffsetText(z)
    ensures ZoneText(z) && z != "Z" && ParseOffset(z) == Ok(0)
  {
    assert "00"[..1] == "0" && Number("0") == 0 && Number("00") == 0;
    assert z[1..3] == "00";
    if |z| == 5 {
      assert z[3..5] == "00";
    } else {
      assert z[4..6] == "00";
    }
  }

  /** A signed offset is removed from the local time it follows: the text
      parses exactly when the same text marked `Z` does (failing the same
      way when it does not), and its instant is that one moved back by the
      offset. */
  lemma OffsetIsRemoved(h: string, f: string, z: string)
    requires |h| == 19 && HeadShape(h) && FracShape(f) && ZoneText(z) && z != "Z" && ParseOffset(z).Ok?
    ensures var d := FracDigits(f);
      var atZ := ParseUtc(h + f + "Z", h[10], d, true);
      var atZone := ParseUtc(h + f + z, h[10], d, false);
      && (atZ.Ok? <==> atZone.Ok?)
      && (atZ.Err? ==> atZone == atZ)
      && (atZ.Ok? ==> atZone.value == NaiveDateTime(atZ.value.secs - ParseOffset(z).value, atZ.value.nano))
  {
    AssembledParse(h, f, "Z", true);
    AssembledParse(h, f, z, false);
  }

  /** Every spelling of a zero offset after a date, time and fraction is
      matched up to its end, whatever text follows. */
  lemma ZeroOffsetIsMatched(h: string, f: string, z: string, rest: string)
    requires |h| == 19 && HeadShape(h) && FracShape(f) && ZeroOffsetText(z)
    ensures FindTimestamp(h + f + z + rest) == Some(Found(|h + f + z|, TsCaps(h[10], FracDigits(f), z)))
  {
    ZeroOffsetParses(z);
    AssembledIsMatched(h, f, z, rest);
  }

  /** `Z` and every spelling of a zero offset after the same date, time and
      fraction denote the same instant, or fail the same way. */
  lemma ZeroOffsetsAgree(h: string, f: string, z: string)
    requires |h| == 19 && HeadShape(h) && FracShape(f) && ZeroOffsetText(z)
    ensures ParseUtc(h + f + z, h[10], FracDigits(f), false) == ParseUtc(h + f + "Z", h[10], FracDigits(f), true)
  {
    ZeroOffsetParses(z);
    var atZ := ParseUtc(h + f + "Z", h[10], FracDigits(f), true);
    var atZone := ParseUtc(h + f + z, h[10], FracDigits(f), false);
    OffsetIsRemoved(h, f, z);
    if atZ.Ok? {
      assert atZone == Ok(atZ.value);
    }
  }

  // ---------------------------------------------------------------------
  // Whole lines

  /** A line in which neither pattern matches anywhere is returned as it
      is (the epoch pattern matters only when the pass is enabled). */
  lemma UnmatchedLineUnchanged(cfg: Rizzy, lib: Chrono, line: string)
    requires NoMatchFrom(line, FindTimestamp, 0)
    requires cfg.epochNanos ==> NoMatchFrom(line, FindEpoch, 0)
    ensures HandleLine(cfg, lib, line) == Value(line)
  {
    FindTimestampFindsPrefixes();
    FindEpochFindsPrefixes();
    NoMatchUnchanged(line, FindTimestamp, TimestampReplacer(cfg, lib));
    if cfg.epochNanos {
      NoMatchUnchanged(line, FindEpoch, EpochReplacer(cfg, lib));
    }
  }

  /** The leftmost timestamp of a line is converted first: the text before
      it is kept, a panic while converting it aborts the line, and otherwise
      the timestamp pass goes on right after it. */
  lemma LeftmostTimestamp(cfg: Rizzy, lib: Chrono, line: string, i: nat)
    requires i < |line| && LeftmostAt(line, FindTimestamp, i)
    ensures var m := FindTimestamp(line[i..]).value;
      && i + m.len <= |line|
      && var r := TimestampReplacer(cfg, lib)(line[i..i + m.len], m.caps);
      && (r.Panic? ==> TimestampPass(cfg, lib, line) == r)
      && (r.Value? ==>
            TimestampPass(cfg, lib, line) == Prefix(line[..i] + r.value, TimestampPass(cfg, lib, line[i + m.len..])))
  {
    FindTimestampFindsPrefixes();
    var rep := TimestampReplacer(cfg, lib);
    LeftmostMatch(line, FindTimestamp, rep, i);
    var m := FindTimestamp(line[i..]).value;
    assert TimestampPass(cfg, lib, line) == ReplaceAll(line, FindTimestamp, rep);
    assert TimestampPass(cfg, lib, line[i + m.len..]) == ReplaceAll(line[i + m.len..], FindTimestamp, rep);
  }

  /** A matched text that cannot be read as an instant makes the
      timestamp closure panic with the same message. */
  lemma ReplacerPanics(cfg: Rizzy, lib: Chrono, t: string, caps: TsCaps)
    requires MatchToUtc(t, caps).Panic?
    ensures TimestampReplacer(cfg, lib)(t, caps) == Panic(MatchToUtc(t, caps).message)
  {
    assert ReplaceOneTime(cfg, lib, t, caps) == Panic(MatchToUtc(t, caps).message);
  }

  /** A panic of the timestamp closure on the leftmost match is the
      outcome of the whole line. */
  lemma LeftmostReplacerPanic(cfg: Rizzy, lib: Chrono, line: string, i: nat, n: nat, caps: TsCaps, msg: string)
    requires i < |line| && LeftmostAt(line, FindTimestamp, i)
    requires FindTimestamp(line[i..]) == Some(Found(n, caps)) && i + n <= |line|
    requires TimestampReplacer(cfg, lib)(line[i..i + n], caps) == Panic(msg)
    ensures HandleLine(cfg, lib, line) == Panic(msg)
  {
    FindTimestampFindsPrefixes();
    var rep := TimestampReplacer(cfg, lib);
    LeftmostPanic(line, FindTimestamp, rep, i, n, caps, msg);
    assert TimestampPass(cfg, lib, line) == ReplaceAll(line, FindTimestamp, rep);
  }

  /** A timestamp that cannot be converted aborts the whole line with its
      panic when it is the leftmost one; the epoch pass does not run. */
  lemma LeftmostPanicAbortsLine(cfg: Rizzy, lib: Chrono, line: string, i: nat, n: nat, caps: TsCaps, msg: string)
    requires i < |line| && LeftmostAt(line, FindTimestamp, i)
    requires FindTimestamp(line[i..]) == Some(Found(n, caps)) && i + n <= |line|
    requires MatchToUtc(line[i..i + n], caps) == Panic(msg)
    ensures HandleLine(cfg, lib, line) == Panic(msg)
  {
    ReplacerPanics(cfg, lib, line[i..i + n], caps);
    LeftmostReplacerPanic(cfg, lib, line, i, n, caps, msg);
  }

  /** A user format that chrono cannot render makes `format!` panic on
      the leftmost timestamp that parses, aborting the line. */
  lemma UnrenderableFormatAbortsLine(cfg: Rizzy, lib: Chrono, line: string, i: nat, n: nat, caps: TsCaps, dt: NaiveDateTime)
    requires i < |line| && LeftmostAt(line, FindTimestamp, i)
    requires FindTimestamp(line[i..]) == Some(Found(n, caps)) && i + n <= |line|
    requires MatchToUtc(line[i..i + n], caps) == Value(dt)
    requires cfg.format.Some?
    requires lib.strftime(ZonedDateTime(cfg.tz, dt, lib.offsetAt(cfg.tz, dt)), cfg.format.value).None?
    ensures HandleLine(cfg, lib, line) == Panic(FormatPanic)
  {
    assert FormatTime(cfg, lib, dt) == Panic(FormatPanic);
    assert ReplaceOneTime(cfg, lib, line[i..i + n], caps) == Panic(FormatPanic);
    LeftmostReplacerPanic(cfg, lib, line, i, n, caps, FormatPanic);
  }

  /** The pattern has no boundary in front: a digit just before a
      timestamp neither blocks it nor becomes part of it. */
  lemma DigitBeforeTimestamp(cfg: Rizzy, lib: Chrono, c: char, s: string, k: nat)
    requires IsDigit(c) && k <= |s| && InPattern(s[..k])
    ensures TimestampPass(cfg, lib, [c] + s) == Prefix([c], TimestampPass(cfg, lib, s))
  {
    FindTimestampFindsPrefixes();
    var u := [c] + s;
    assert s[..k][3] == s[3] && IsDigit(s[3]);
    assert u[4] == s[3];
    assert FindTimestamp(u).None?;
    assert u[1..] == s;
  }

  /** Without the epoch pass a run of digits, however long, is left alone:
      no timestamp starts inside it. */
  lemma DigitsAloneUnchanged(cfg: Rizzy, lib: Chrono, s: string)
    requires !cfg.epochNanos && AllDigits(s)
    ensures HandleLine(cfg, lib, s) == Value(s)
  {
    forall j | 0 <= j < |s|
      ensures FindTimestamp(s[j..]).None?
    {
      if |s[j..]| >= 20 {
        assert s[j..][4] == s[j + 4];
      }
    }
    UnmatchedLineUnchanged(cfg, lib, s);
  }

  /** A 19-digit match is read as nanoseconds since the epoch and replaced
      by the rendering of exactly that instant (no rounding: the instant is
      `value` nanoseconds after the epoch); a value above `i64::MAX` panics
      with `unwrap`'s message. */
  lemma EpochReplacementMeaning(cfg: Rizzy, lib: Chrono, t: string)
    requires |t| == 19 && AllDigits(t)
    ensures Number(t) <= I64Max ==>
      && EpochReplacement(cfg, lib, t) == FormatTime(cfg, lib, EpochInstant(Number(t)))
      && TotalNanos(EpochInstant(Number(t))) == Number(t)
    ensures Number(t) > I64Max ==>
      EpochReplacement(cfg, lib, t) == Panic(UnwrapPanic(PosOverflow))
  {
  }

  /** A run of 19 digits at the front is replaced first and the epoch pass
      goes on right after it. */
  lemma EpochRunAtFront(cfg: Rizzy, lib: Chrono, s: string)
    requires |s| >= 19 && AllDigits(s[..19])
    ensures var r := EpochReplacer(cfg, lib)(s[..19], ());
      && (r.Panic? ==> EpochPass(cfg, lib, s) == r)
      && (r.Value? ==> EpochPass(cfg, lib, s) == Prefix(r.value, EpochPass(cfg, lib, s[19..])))
  {
    FindEpochFindsPrefixes();
    FrontMatch(s, FindEpoch, EpochReplacer(cfg, lib));
  }

  /** Of a run of 20 digits the first 19 are converted and the last is
      kept: the epoch pattern has no boundaries. */
  lemma TwentyDigitRun(cfg: Rizzy, lib: Chrono, s: string)
    requires |s| == 20 && AllDigits(s) && Number(s[..19]) <= I64Max
    ensures EpochPass(cfg, lib, s) == Splice(FormatTime(cfg, lib, EpochInstant(Number(s[..19]))), Value([s[19]]))
  {
    FindEpochFindsPrefixes();
    EpochRunAtFront(cfg, lib, s);
    EpochReplacementMeaning(cfg, lib, s[..19]);
    assert EpochReplacer(cfg, lib)(s[..19], ()) == EpochReplacement(cfg, lib, s[..19]);
    var rest := s[19..];
    assert FindEpoch(rest).None?;
    NoMatchUnchanged(rest, FindEpoch, EpochReplacer(cfg, lib));
    assert rest == [s[19]];
  }

  // ---------------------------------------------------------------------
  // Helpers for worked examples

  /** With either separator, the date and time text of a civil time reads
      back as that civil time. */
  lemma HeadWithSeparator(c: Civil, sep: char)
    requires ValidCivil(c) && 0 <= c.date.year <= 9999 && (sep == 'T' || sep == ' ')
    ensures var h := HeadText(c)[..10] + [sep] + HeadText(c)[11..];
      |h| == 19 && HeadShape(h) && h[10] == sep && HeadFields(h) == c
  {
    HeadTextReadsBack(c);
    var w := HeadText(c);
    var h := w[..10] + [sep] + w[11..];
    assert h[0..4] == w[0..4] && h[5..7] == w[5..7] && h[8..10] == w[8..10];
    assert h[11..13] == w[11..13] && h[14..16] == w[14..16] && h[17..19] == w[17..19];
  }

  /** The RFC 3339 rendering of an instant whose local civil time is `c`. */
  lemma RenderedLocal(z: ZonedDateTime, c: Civil)
    requires ValidCivil(c) && CivilToSecs(c) == z.utc.secs + z.offset
    ensures ToRfc3339(z) == HeadText(c) + FractionText(z.utc.nano) + OffsetText(z.offset)
  {
    CivilToSecsInverse(c);
    assert LocalCivil(z) == c;
  }

  /** A timestamp at the front of a line is replaced (or its panic aborts
      the pass) and the timestamp pass goes on right after it. */
  lemma TimestampAtFront(cfg: Rizzy, lib: Chrono, t: string, caps: TsCaps, rest: string)
    requires FindTimestamp(t + rest) == Some(Found(|t|, caps))
    ensures TimestampPass(cfg, lib, t + rest) == Splice(ReplaceOneTime(cfg, lib, t, caps), TimestampPass(cfg, lib, rest))
  {
    FindTimestampFindsPrefixes();
    var line := t + rest;
    FrontMatch(line, FindTimestamp, TimestampReplacer(cfg, lib));
    assert line[..|t|] == t && line[|t|..] == rest;
    assert TimestampReplacer(cfg, lib)(t, caps) == ReplaceOneTime(cfg, lib, t, caps);
  }

  /** Text in which no timestamp starts is kept by the timestamp pass. */
  lemma TimestampPassKeeps(cfg: Rizzy, lib: Chrono, s: string)
    requires NoMatchFrom(s, FindTimestamp, 0)
    ensures TimestampPass(cfg, lib, s) == Value(s)
  {
    FindTimestampFindsPrefixes();
    NoMatchUnchanged(s, FindTimestamp, TimestampReplacer(cfg, lib));
  }

  // ---------------------------------------------------------------------
  // Timestamps at the front of a line, and lines without one

  /** A UTC timestamp marked `Z` reads as the same instant as one marked
      `+00:00`. */
  lemma ZuluReadsBack(h: string, f: string, utc: NaiveDateTime)
    requires |h| == 19 && HeadShape(h) && ValidCivil(HeadFields(h))
    requires FracShape(f) && FracDigits(f) in {0, 3, 6, 9}
    requires FracRaw(f) * Pow10(9 - FracDigits(f)) == utc.nano
    requires CivilToSecs(HeadFields(h)) == utc.secs
    ensures MatchToUtc(h + f + "Z", TsCaps(h[10], FracDigits(f), "Z")) == Value(utc)
  {
    ZeroOffsetParses("+00:00");
    AssembledReadsBack(h, f, "+00:00", 0, utc);
    ZeroOffsetsAgree(h, f, "+00:00");
  }
  /** A UTC text with an all-zero millisecond fraction, as JavaScript's
      `toISOString` writes a whole second, reads as that whole second. */
  lemma ZeroMillisZulu(h: string, secs: int)
    requires |h| == 19 && HeadShape(h) && ValidCivil(HeadFields(h))
    requires CivilToSecs(HeadFields(h)) == secs
    ensures MatchToUtc(h + ".000Z", TsCaps(h[10], 3, "Z")) == Value(NaiveDateTime(secs, 0))
  {
    var f := ".000";
    assert f[1..] == "000" && Number("000") == 0;
    assert h + f + "Z" == h + ".000Z";
    ZuluReadsBack(h, f, NaiveDateTime(secs, 0));
  }


  /** A UTC timestamp written from a civil time (either separator, a
      fraction of 0, 3, 6 or 9 digits, `Z` or a zero offset) at the front of
      a line is replaced by the rendering of that instant, and the pass goes
      on after it. */
  lemma UtcStampAtFront(cfg: Rizzy, lib: Chrono, c: Civil, sep: char, f: string, z: string, rest: string, utc: NaiveDateTime)
    requires ValidCivil(c) && 0 <= c.date.year <= 9999 && (sep == 'T' || sep == ' ')
    requires FracShape(f) && FracDigits(f) in {0, 3, 6, 9}
    requires FracRaw(f) * Pow10(9 - FracDigits(f)) == utc.nano
    requires z == "Z" || ZeroOffsetText(z)
    requires CivilToSecs(c) == utc.secs
    ensures var h := HeadText(c)[..10] + [sep] + HeadText(c)[11..];
      TimestampPass(cfg, lib, h + f + z + rest) == Splice(FormatTime(cfg, lib, utc), TimestampPass(cfg, lib, rest))
  {
    var h := HeadText(c)[..10] + [sep] + HeadText(c)[11..];
    HeadWithSeparator(c, sep);
    var caps := TsCaps(sep, FracDigits(f), z);
    if z == "Z" {
      ZuluReadsBack(h, f, utc);
      AssembledIsMatched(h, f, z, rest);
    } else {
      ZeroOffsetParses(z);
      AssembledReadsBack(h, f, z, 0, utc);
      ZeroOffsetIsMatched(h, f, z, rest);
    }
    TimestampAtFront(cfg, lib, h + f + z, caps, rest);
  }

  /** Without a user format, an instant is rendered as the civil time the
      zone's offset gives it, its fraction and that offset. */
  lemma RenderedInZone(cfg: Rizzy, lib: Chrono, utc: NaiveDateTime, local: Civil, off: Offset)
    requires cfg.format.None? && lib.offsetAt(cfg.tz, utc) == off
    requires ValidCivil(local) && CivilToSecs(local) == utc.secs + off
    ensures FormatTime(cfg, lib, utc) == Value(HeadText(local) + FractionText(utc.nano) + OffsetText(off))
  {
    RenderedLocal(ZonedDateTime(cfg.tz, utc, off), local);
  }

  /** Text too short to hold either pattern passes through both passes. */
  lemma ShortTextKept(cfg: Rizzy, lib: Chrono, s: string)
    requires |s| < 19
    ensures TimestampPass(cfg, lib, s) == Value(s) && EpochPass(cfg, lib, s) == Value(s)
  {
    FindEpochFindsPrefixes();
    TimestampPassKeeps(cfg, lib, s);
    NoMatchUnchanged(s, FindEpoch, EpochReplacer(cfg, lib));
  }

  /** Characters that are not digits cannot start a timestamp and are copied
      ahead of whatever the pass makes of the rest. */
  lemma NonDigitsCopied(cfg: Rizzy, lib: Chrono, p: string, t: string)
    requires forall i :: 0 <= i < |p| ==> !IsDigit(p[i])
    ensures TimestampPass(cfg, lib, p + t) == Prefix(p, TimestampPass(cfg, lib, t))
  {
    FindTimestampFindsPrefixes();
    var s := p + t;
    forall j | 0 <= j < |p|
      ensures FindTimestamp(s[j..]).None?
    {
      assert s[j..][0] == p[j];
      if |s[j..]| >= 20 {
        assert s[j..][0..4][0] == p[j];
      }
    }
    CopyUntil(s, FindTimestamp, TimestampReplacer(cfg, lib), |p|);
    assert s[..|p|] == p && s[|p|..] == t;
  }

  /** A line that starts with a run of 19 digits and is at most 34
      characters long holds no timestamp: every place one could start has a
      digit where the first dash would be. */
  lemma EpochLineNoStamp(cfg: Rizzy, lib: Chrono, s: string)
    requires 19 <= |s| <= 34 && AllDigits(s[..19])
    ensures TimestampPass(cfg, lib, s) == Value(s)
  {
    forall j | 0 <= j < |s|
      ensures FindTimestamp(s[j..]).None?
    {
      if |s[j..]| >= 20 {
        assert s[j..][4] == s[..19][j + 4];
      }
    }
    TimestampPassKeeps(cfg, lib, s);
  }

  /** With the epoch pass off, a line is what the timestamp pass makes of
      it. */
  lemma TimestampsOnly(cfg: Rizzy, lib: Chrono, line: string, out: string, rest: string)
    requires !cfg.epochNanos && TimestampPass(cfg, lib, line) == Prefix(out, Value(rest))
    ensures HandleLine(cfg, lib, line) == Value(out + rest)
  {
  }
}
