/** The unit tests of src/rizzy.rs:87-165 as lemmas about the model.

Each test names a zone and a line and expects the rewritten line. The zone's
offset at the instant is not part of the model (it comes from the tz
database); each lemma takes it as a requirement on the `Chrono` parameter,
with the value the test's expected output shows (-04:00 for New York in
summer, -05:00 for New York in winter and for Chicago in summer). Everything
else, from matching to parsing, the calendar arithmetic and the RFC 3339
text, is computed by the model.
 */
module SourceTests {
  import opened Wrappers
  import opened Digits
  import opened Calendar
  import opened Replace
  import opened Scanner
  import opened Timezones
  import opened Rizzy
  import opened RizzyProperties

  // ---------------------------------------------------------------------
  // Decimal texts of the dates, fractions and offsets the tests use

  lemma Year2020()
    ensures YearText(2020) == "2020"
  {
    assert Decimal(2, 1) == "2";
    assert Decimal(20, 2) == "20";
    assert Decimal(202, 3) == "202";
  }

  lemma Aug27()
    ensures DateText(Date(2020, 8, 27)) == "2020-08-27"
  {
    Year2020();
  }

  lemma Sep11()
    ensures DateText(Date(2020, 9, 11)) == "2020-09-11"
  {
    Year2020();
  }

  lemma Dec14()
    ensures DateText(Date(2020, 12, 14)) == "2020-12-14"
  {
    Year2020();
  }

  lemma Mar25()
    ensures DateText(Date(2021, 3, 25)) == "2021-03-25"
  {
    assert Decimal(2, 1) == "2";
    assert Decimal(20, 2) == "20";
    assert Decimal(202, 3) == "202";
  }

  lemma Digits167391()
    ensures Decimal(167391, 6) == "167391"
  {
    assert Decimal(1, 1) == "1";
    assert Decimal(16, 2) == "16";
    assert Decimal(167, 3) == "167";
    assert Decimal(1673, 4) == "1673";
    assert Decimal(16739, 5) == "16739";
  }

  lemma Micros167391()
    ensures FracShape(".167391") && FracDigits(".167391") == 6 && FracRaw(".167391") == 167391
    ensures FractionText(167_391_000) == ".167391"
  {
    Digits167391();
    DottedDecimal(167391, 6);
    assert 167_391_000 % 1_000_000 != 0 && 167_391_000 % 1_000 == 0 && 167_391_000 / 1_000 == 167391;
  }

  lemma Digits728154()
    ensures Decimal(728154, 6) == "728154"
  {
    assert Decimal(7, 1) == "7";
    assert Decimal(72, 2) == "72";
    assert Decimal(728, 3) == "728";
    assert Decimal(7281, 4) == "7281";
    assert Decimal(72815, 5) == "72815";
  }

  lemma Micros728154()
    ensures FracShape(".728154") && FracDigits(".728154") == 6 && FracRaw(".728154") == 728154
    ensures FractionText(728_154_000) == ".728154"
  {
    Digits728154();
    DottedDecimal(728154, 6);
    assert 728_154_000 % 1_000_000 != 0 && 728_154_000 % 1_000 == 0 && 728_154_000 / 1_000 == 728154;
  }

  lemma Digits437104()
    ensures Decimal(437104, 6) == "437104"
  {
    assert Decimal(4, 1) == "4";
    assert Decimal(43, 2) == "43";
    assert Decimal(437, 3) == "437";
    assert Decimal(4371, 4) == "4371";
    assert Decimal(43710, 5) == "43710";
  }

  lemma Micros437104()
    ensures FractionText(437_104_000) == ".437104"
  {
    Digits437104();
    assert 437_104_000 % 1_000_000 != 0 && 437_104_000 % 1_000 == 0 && 437_104_000 / 1_000 == 437104;
  }

  lemma MinusFour()
    ensures OffsetText(-14_400) == "-04:00"
  {
    assert Decimal(0, 1) == "0" && Decimal(4, 2) == "04" && Decimal(0, 2) == "00";
  }

  lemma MinusFive()
    ensures OffsetText(-18_000) == "-05:00"
  {
    assert Decimal(0, 1) == "0" && Decimal(5, 2) == "05" && Decimal(0, 2) == "00";
  }

  // ---------------------------------------------------------------------
  // The UTC timestamps of the input lines

  /** `2020-08-27T12:45:37Z` is 1598532337 seconds after the epoch. */
  lemma Stamp1(cfg: Rizzy, lib: Chrono, rest: string)
    ensures TimestampPass(cfg, lib, "2020-08-27T12:45:37Z" + rest)
      == Splice(FormatTime(cfg, lib, NaiveDateTime(1_598_532_337, 0)), TimestampPass(cfg, lib, rest))
  {
    var c := Civil(Date(2020, 8, 27), 12, 45, 37);
    Head1();
    Separated1();
    UtcStampAtFront(cfg, lib, c, 'T', "", "Z", rest, NaiveDateTime(1_598_532_337, 0));
  }

  lemma Head1Secs()
    ensures ValidCivil(Civil(Date(2020, 8, 27), 12, 45, 37)) && CivilToSecs(Civil(Date(2020, 8, 27), 12, 45, 37)) == 1_598_532_337
  {
  }

  lemma Head1()
    ensures var c := Civil(Date(2020, 8, 27), 12, 45, 37);
      ValidCivil(c) && CivilToSecs(c) == 1_598_532_337 && HeadText(c) == "2020-08-27T12:45:37"
  {
    Head1Secs();
    Aug27();
  }

  lemma Separated1()
    ensures "2020-08-27T12:45:37"[..10] + ['T'] + "2020-08-27T12:45:37"[11..] + "" + "Z" == "2020-08-27T12:45:37Z"
  {
  }

  /** `2020-08-27 12:45:43.728154+00:00` is 1598532343 seconds and 728154000
      nanoseconds after the epoch. */
  lemma Stamp3(cfg: Rizzy, lib: Chrono, rest: string)
    ensures TimestampPass(cfg, lib, "2020-08-27 12:45:43.728154+00:00" + rest)
      == Splice(FormatTime(cfg, lib, NaiveDateTime(1_598_532_343, 728_154_000)), TimestampPass(cfg, lib, rest))
  {
    var c := Civil(Date(2020, 8, 27), 12, 45, 43);
    Head3();
    Separated3();
    Micros728154();
    assert Pow10(3) == 1000;
    UtcStampAtFront(cfg, lib, c, ' ', ".728154", "+00:00", rest, NaiveDateTime(1_598_532_343, 728_154_000));
  }

  lemma Head3Secs()
    ensures ValidCivil(Civil(Date(2020, 8, 27), 12, 45, 43)) && CivilToSecs(Civil(Date(2020, 8, 27), 12, 45, 43)) == 1_598_532_343
  {
  }

  lemma Head3()
    ensures var c := Civil(Date(2020, 8, 27), 12, 45, 43);
      ValidCivil(c) && CivilToSecs(c) == 1_598_532_343 && HeadText(c) == "2020-08-27T12:45:43"
  {
    Head3Secs();
    Aug27();
  }

  lemma Separated3()
    ensures "2020-08-27T12:45:43"[..10] + [' '] + "2020-08-27T12:45:43"[11..] + ".728154" + "+00:00" == "2020-08-27 12:45:43.728154+00:00"
  {
  }

  /** `2020-09-11 14:48:34+0000` is 1599835714 seconds after the epoch. */
  lemma Stamp4(cfg: Rizzy, lib: Chrono, rest: string)
    ensures TimestampPass(cfg, lib, "2020-09-11 14:48:34+0000" + rest)
      == Splice(FormatTime(cfg, lib, NaiveDateTime(1_599_835_714, 0)), TimestampPass(cfg, lib, rest))
  {
    var c := Civil(Date(2020, 9, 11), 14, 48, 34);
    Head4();
    Separated4();
    UtcStampAtFront(cfg, lib, c, ' ', "", "+0000", rest, NaiveDateTime(1_599_835_714, 0));
  }

  lemma Head4Secs()
    ensures ValidCivil(Civil(Date(2020, 9, 11), 14, 48, 34)) && CivilToSecs(Civil(Date(2020, 9, 11), 14, 48, 34)) == 1_599_835_714
  {
  }

  lemma Head4()
    ensures var c := Civil(Date(2020, 9, 11), 14, 48, 34);
      ValidCivil(c) && CivilToSecs(c) == 1_599_835_714 && HeadText(c) == "2020-09-11T14:48:34"
  {
    Head4Secs();
    Sep11();
  }

  lemma Separated4()
    ensures "2020-09-11T14:48:34"[..10] + [' '] + "2020-09-11T14:48:34"[11..] + "" + "+0000" == "2020-09-11 14:48:34+0000"
  {
  }

  /** `2020-08-27 13:30:00+00:00` is 1598535000 seconds after the epoch. */
  lemma Stamp2(cfg: Rizzy, lib: Chrono, rest: string)
    ensures TimestampPass(cfg, lib, "2020-08-27 13:30:00+00:00" + rest)
      == Splice(FormatTime(cfg, lib, NaiveDateTime(1_598_535_000, 0)), TimestampPass(cfg, lib, rest))
  {
    var c := Civil(Date(2020, 8, 27), 13, 30, 0);
    Head2();
    Separated2();
    UtcStampAtFront(cfg, lib, c, ' ', "", "+00:00", rest, NaiveDateTime(1_598_535_000, 0));
  }

  lemma Head2Secs()
    ensures ValidCivil(Civil(Date(2020, 8, 27), 13, 30, 0)) && CivilToSecs(Civil(Date(2020, 8, 27), 13, 30, 0)) == 1_598_535_000
  {
  }

  lemma Head2()
    ensures var c := Civil(Date(2020, 8, 27), 13, 30, 0);
      ValidCivil(c) && CivilToSecs(c) == 1_598_535_000 && HeadText(c) == "2020-08-27T13:30:00"
  {
    Head2Secs();
    Aug27();
  }

  lemma Separated2()
    ensures "2020-08-27T13:30:00"[..10] + [' '] + "2020-08-27T13:30:00"[11..] + "" + "+00:00" == "2020-08-27 13:30:00+00:00"
  {
  }

  /** `2021-03-25 17:39:28.167391+00:00` is 1616693968 seconds and 167391000
      nanoseconds after the epoch. */
  lemma Stamp5(cfg: Rizzy, lib: Chrono, rest: string)
    ensures TimestampPass(cfg, lib, "2021-03-25 17:39:28.167391+00:00" + rest)
      == Splice(FormatTime(cfg, lib, NaiveDateTime(1_616_693_968, 167_391_000)), TimestampPass(cfg, lib, rest))
  {
    var c := Civil(Date(2021, 3, 25), 17, 39, 28);
    Head5();
    Separated5();
    Micros167391();
    assert Pow10(3) == 1000;
    UtcStampAtFront(cfg, lib, c, ' ', ".167391", "+00:00", rest, NaiveDateTime(1_616_693_968, 167_391_000));
  }

  /** 2021-03-25 is day 18711 after 1970-01-01. */
  lemma Mar25Days()
    ensures ValidDate(Date(2021, 3, 25)) && DaysFromCivil(Date(2021, 3, 25)) == 18_711
  {
  }

  lemma Head5Secs()
    ensures ValidCivil(Civil(Date(2021, 3, 25), 17, 39, 28)) && CivilToSecs(Civil(Date(2021, 3, 25), 17, 39, 28)) == 1_616_693_968
  {
    Mar25Days();
  }

  lemma Head5()
    ensures var c := Civil(Date(2021, 3, 25), 17, 39, 28);
      ValidCivil(c) && CivilToSecs(c) == 1_616_693_968 && HeadText(c) == "2021-03-25T17:39:28"
  {
    Head5Secs();
    Mar25();
  }

  lemma Separated5()
    ensures "2021-03-25T17:39:28"[..10] + [' '] + "2021-03-25T17:39:28"[11..] + ".167391" + "+00:00" == "2021-03-25 17:39:28.167391+00:00"
  {
  }

  /** `1607965978437104000` nanoseconds are 1607965978 seconds and 437104000
      nanoseconds after the epoch. */
  lemma Epoch9(cfg: Rizzy, lib: Chrono, rest: string)
    ensures EpochPass(cfg, lib, "1607965978437104000" + rest)
      == Splice(FormatTime(cfg, lib, NaiveDateTime(1_607_965_978, 437_104_000)), EpochPass(cfg, lib, rest))
  {
    var t := "1607965978437104000";
    var s := t + rest;
    EpochDigits();
    assert s[..19] == t && s[19..] == rest;
    EpochRunAtFront(cfg, lib, s);
    EpochReplacementMeaning(cfg, lib, t);
    assert EpochReplacer(cfg, lib)(t, ()) == EpochReplacement(cfg, lib, t);
  }

  lemma EpochSeconds()
    ensures Decimal(1607965978, 10) == "1607965978"
  {
    assert Decimal(1, 1) == "1";
    assert Decimal(16, 2) == "16";
    assert Decimal(160, 3) == "160";
    assert Decimal(1607, 4) == "1607";
    assert Decimal(16079, 5) == "16079";
    assert Decimal(160796, 6) == "160796";
    assert Decimal(1607965, 7) == "1607965";
    assert Decimal(16079659, 8) == "16079659";
    assert Decimal(160796597, 9) == "160796597";
  }

  lemma EpochDecimal()
    ensures Decimal(1_607_965_978_437_104_000, 19) == "1607965978437104000"
  {
    EpochSeconds();
    assert Decimal(16079659784, 11) == "16079659784";
    assert Decimal(160796597843, 12) == "160796597843";
    assert Decimal(1607965978437, 13) == "1607965978437";
    assert Decimal(16079659784371, 14) == "16079659784371";
    assert Decimal(160796597843710, 15) == "160796597843710";
    assert Decimal(1607965978437104, 16) == "1607965978437104";
    assert Decimal(16079659784371040, 17) == "16079659784371040";
    assert Decimal(160796597843710400, 18) == "160796597843710400";
  }

  lemma EpochDigits()
    ensures AllDigits("1607965978437104000") && Number("1607965978437104000") == 1_607_965_978_437_104_000
  {
    EpochDecimal();
    NumberOfDecimal(1_607_965_978_437_104_000, 19);
  }

  // ---------------------------------------------------------------------
  // The renderings of the expected outputs

  lemma Local1NySecs()
    ensures ValidCivil(Civil(Date(2020, 8, 27), 8, 45, 37)) && CivilToSecs(Civil(Date(2020, 8, 27), 8, 45, 37)) == 1_598_532_337 - 14_400
  {
  }

  lemma Local1Ny()
    ensures var c := Civil(Date(2020, 8, 27), 8, 45, 37);
      ValidCivil(c) && CivilToSecs(c) == 1_598_532_337 - 14_400 && HeadText(c) == "2020-08-27T08:45:37"
  {
    Local1NySecs();
    Aug27();
  }

  lemma Text1Ny()
    ensures HeadText(Civil(Date(2020, 8, 27), 8, 45, 37)) + FractionText(0) + OffsetText(-14_400) == "2020-08-27T08:45:37-04:00"
  {
    Local1Ny();
    MinusFour();
  }

  lemma Render1Ny(cfg: Rizzy, lib: Chrono)
    requires cfg.format.None? && lib.offsetAt(cfg.tz, NaiveDateTime(1_598_532_337, 0)) == -14_400
    ensures FormatTime(cfg, lib, NaiveDateTime(1_598_532_337, 0)) == Value("2020-08-27T08:45:37-04:00")
  {
    Local1Ny();
    RenderedInZone(cfg, lib, NaiveDateTime(1_598_532_337, 0), Civil(Date(2020, 8, 27), 8, 45, 37), -14_400);
    Text1Ny();
  }

  lemma Local3NySecs()
    ensures ValidCivil(Civil(Date(2020, 8, 27), 8, 45, 43)) && CivilToSecs(Civil(Date(2020, 8, 27), 8, 45, 43)) == 1_598_532_343 - 14_400
  {
  }

  lemma Local3Ny()
    ensures var c := Civil(Date(2020, 8, 27), 8, 45, 43);
      ValidCivil(c) && CivilToSecs(c) == 1_598_532_343 - 14_400 && HeadText(c) == "2020-08-27T08:45:43"
  {
    Local3NySecs();
    Aug27();
  }

  lemma Text3Ny()
    ensures HeadText(Civil(Date(2020, 8, 27), 8, 45, 43)) + FractionText(728_154_000) + OffsetText(-14_400) == "2020-08-27T08:45:43.728154-04:00"
  {
    Local3Ny();
    Micros728154();
    MinusFour();
  }

  lemma Render3Ny(cfg: Rizzy, lib: Chrono)
    requires cfg.format.None? && lib.offsetAt(cfg.tz, NaiveDateTime(1_598_532_343, 728_154_000)) == -14_400
    ensures FormatTime(cfg, lib, NaiveDateTime(1_598_532_343, 728_154_000)) == Value("2020-08-27T08:45:43.728154-04:00")
  {
    Local3Ny();
    RenderedInZone(cfg, lib, NaiveDateTime(1_598_532_343, 728_154_000), Civil(Date(2020, 8, 27), 8, 45, 43), -14_400);
    Text3Ny();
  }

  lemma Local4NySecs()
    ensures ValidCivil(Civil(Date(2020, 9, 11), 10, 48, 34)) && CivilToSecs(Civil(Date(2020, 9, 11), 10, 48, 34)) == 1_599_835_714 - 14_400
  {
  }

  lemma Local4Ny()
    ensures var c := Civil(Date(2020, 9, 11), 10, 48, 34);
      ValidCivil(c) && CivilToSecs(c) == 1_599_835_714 - 14_400 && HeadText(c) == "2020-09-11T10:48:34"
  {
    Local4NySecs();
    Sep11();
  }

  lemma Text4Ny()
    ensures HeadText(Civil(Date(2020, 9, 11), 10, 48, 34)) + FractionText(0) + OffsetText(-14_400) == "2020-09-11T10:48:34-04:00"
  {
    Local4Ny();
    MinusFour();
  }

  lemma Render4Ny(cfg: Rizzy, lib: Chrono)
    requires cfg.format.None? && lib.offsetAt(cfg.tz, NaiveDateTime(1_599_835_714, 0)) == -14_400
    ensures FormatTime(cfg, lib, NaiveDateTime(1_599_835_714, 0)) == Value("2020-09-11T10:48:34-04:00")
  {
    Local4Ny();
    RenderedInZone(cfg, lib, NaiveDateTime(1_599_835_714, 0), Civil(Date(2020, 9, 11), 10, 48, 34), -14_400);
    Text4Ny();
  }

  lemma Local1ChiSecs()
    ensures ValidCivil(Civil(Date(2020, 8, 27), 7, 45, 37)) && CivilToSecs(Civil(Date(2020, 8, 27), 7, 45, 37)) == 1_598_532_337 - 18_000
  {
  }

  lemma Local1Chi()
    ensures var c := Civil(Date(2020, 8, 27), 7, 45, 37);
      ValidCivil(c) && CivilToSecs(c) == 1_598_532_337 - 18_000 && HeadText(c) == "2020-08-27T07:45:37"
  {
    Local1ChiSecs();
    Aug27();
  }

  lemma Text1Chi()
    ensures HeadText(Civil(Date(2020, 8, 27), 7, 45, 37)) + FractionText(0) + OffsetText(-18_000) == "2020-08-27T07:45:37-05:00"
  {
    Local1Chi();
    MinusFive();
  }

  lemma Render1Chi(cfg: Rizzy, lib: Chrono)
    requires cfg.format.None? && lib.offsetAt(cfg.tz, NaiveDateTime(1_598_532_337, 0)) == -18_000
    ensures FormatTime(cfg, lib, NaiveDateTime(1_598_532_337, 0)) == Value("2020-08-27T07:45:37-05:00")
  {
    Local1Chi();
    RenderedInZone(cfg, lib, NaiveDateTime(1_598_532_337, 0), Civil(Date(2020, 8, 27), 7, 45, 37), -18_000);
    Text1Chi();
  }

  lemma Local3ChiSecs()
    ensures ValidCivil(Civil(Date(2020, 8, 27), 7, 45, 43)) && CivilToSecs(Civil(Date(2020, 8, 27), 7, 45, 43)) == 1_598_532_343 - 18_000
  {
  }

  lemma Local3Chi()
    ensures var c := Civil(Date(2020, 8, 27), 7, 45, 43);
      ValidCivil(c) && CivilToSecs(c) == 1_598_532_343 - 18_000 && HeadText(c) == "2020-08-27T07:45:43"
  {
    Local3ChiSecs();
    Aug27();
  }

  lemma Text3Chi()
    ensures HeadText(Civil(Date(2020, 8, 27), 7, 45, 43)) + FractionText(728_154_000) + OffsetText(-18_000) == "2020-08-27T07:45:43.728154-05:00"
  {
    Local3Chi();
    Micros728154();
    MinusFive();
  }

  lemma Render3Chi(cfg: Rizzy, lib: Chrono)
    requires cfg.format.None? && lib.offsetAt(cfg.tz, NaiveDateTime(1_598_532_343, 728_154_000)) == -18_000
    ensures FormatTime(cfg, lib, NaiveDateTime(1_598_532_343, 728_154_000)) == Value("2020-08-27T07:45:43.728154-05:00")
  {
    Local3Chi();
    RenderedInZone(cfg, lib, NaiveDateTime(1_598_532_343, 728_154_000), Civil(Date(2020, 8, 27), 7, 45, 43), -18_000);
    Text3Chi();
  }

  lemma Local9NySecs()
    ensures ValidCivil(Civil(Date(2020, 12, 14), 12, 12, 58)) && CivilToSecs(Civil(Date(2020, 12, 14), 12, 12, 58)) == 1_607_965_978 - 18_000
  {
  }

  lemma Local9Ny()
    ensures var c := Civil(Date(2020, 12, 14), 12, 12, 58);
      ValidCivil(c) && CivilToSecs(c) == 1_607_965_978 - 18_000 && HeadText(c) == "2020-12-14T12:12:58"
  {
    Local9NySecs();
    Dec14();
  }

  lemma Text9Ny()
    ensures HeadText(Civil(Date(2020, 12, 14), 12, 12, 58)) + FractionText(437_104_000) + OffsetText(-18_000) == "2020-12-14T12:12:58.437104-05:00"
  {
    Local9Ny();
    Micros437104();
    MinusFive();
  }

  lemma Render9Ny(cfg: Rizzy, lib: Chrono)
    requires cfg.format.None? && lib.offsetAt(cfg.tz, NaiveDateTime(1_607_965_978, 437_104_000)) == -18_000
    ensures FormatTime(cfg, lib, NaiveDateTime(1_607_965_978, 437_104_000)) == Value("2020-12-14T12:12:58.437104-05:00")
  {
    Local9Ny();
    RenderedInZone(cfg, lib, NaiveDateTime(1_607_965_978, 437_104_000), Civil(Date(2020, 12, 14), 12, 12, 58), -18_000);
    Text9Ny();
  }

  lemma Local2NySecs()
    ensures ValidCivil(Civil(Date(2020, 8, 27), 9, 30, 0)) && CivilToSecs(Civil(Date(2020, 8, 27), 9, 30, 0)) == 1_598_535_000 - 14_400
  {
  }

  lemma Local2Ny()
    ensures var c := Civil(Date(2020, 8, 27), 9, 30, 0);
      ValidCivil(c) && CivilToSecs(c) == 1_598_535_000 - 14_400 && HeadText(c) == "2020-08-27T09:30:00"
  {
    Local2NySecs();
    Aug27();
  }

  lemma Text2Ny()
    ensures HeadText(Civil(Date(2020, 8, 27), 9, 30, 0)) + FractionText(0) + OffsetText(-14_400) == "2020-08-27T09:30:00-04:00"
  {
    Local2Ny();
    MinusFour();
  }

  lemma Render2Ny(cfg: Rizzy, lib: Chrono)
    requires cfg.format.None? && lib.offsetAt(cfg.tz, NaiveDateTime(1_598_535_000, 0)) == -14_400
    ensures FormatTime(cfg, lib, NaiveDateTime(1_598_535_000, 0)) == Value("2020-08-27T09:30:00-04:00")
  {
    Local2Ny();
    RenderedInZone(cfg, lib, NaiveDateTime(1_598_535_000, 0), Civil(Date(2020, 8, 27), 9, 30, 0), -14_400);
    Text2Ny();
  }

  lemma Local5ChiSecs()
    ensures ValidCivil(Civil(Date(2021, 3, 25), 12, 39, 28)) && CivilToSecs(Civil(Date(2021, 3, 25), 12, 39, 28)) == 1_616_693_968 - 18_000
  {
    Mar25Days();
  }

  lemma Local5Chi()
    ensures var c := Civil(Date(2021, 3, 25), 12, 39, 28);
      ValidCivil(c) && CivilToSecs(c) == 1_616_693_968 - 18_000 && HeadText(c) == "2021-03-25T12:39:28"
  {
    Local5ChiSecs();
    Mar25();
  }

  lemma Text5Chi()
    ensures HeadText(Civil(Date(2021, 3, 25), 12, 39, 28)) + FractionText(167_391_000) + OffsetText(-18_000) == "2021-03-25T12:39:28.167391-05:00"
  {
    Local5Chi();
    Micros167391();
    MinusFive();
  }

  lemma Render5Chi(cfg: Rizzy, lib: Chrono)
    requires cfg.format.None? && lib.offsetAt(cfg.tz, NaiveDateTime(1_616_693_968, 167_391_000)) == -18_000
    ensures FormatTime(cfg, lib, NaiveDateTime(1_616_693_968, 167_391_000)) == Value("2021-03-25T12:39:28.167391-05:00")
  {
    Local5Chi();
    RenderedInZone(cfg, lib, NaiveDateTime(1_616_693_968, 167_391_000), Civil(Date(2021, 3, 25), 12, 39, 28), -18_000);
    Text5Chi();
  }

  // ---------------------------------------------------------------------
  // The tests

  lemma Join1()
    ensures "2020-08-27T12:45:37Z" + " foobar" == "2020-08-27T12:45:37Z foobar"
    ensures "2020-08-27T08:45:37-04:00" + " foobar" == "2020-08-27T08:45:37-04:00 foobar"
  {
  }

  lemma Join2()
    ensures "2020-08-27 13:30:00+00:00" + " foobar" == "2020-08-27 13:30:00+00:00 foobar"
    ensures "2020-08-27T09:30:00-04:00" + " foobar" == "2020-08-27T09:30:00-04:00 foobar"
  {
  }

  lemma Join3()
    ensures "2020-08-27 12:45:43.728154+00:00" + " foobar" == "2020-08-27 12:45:43.728154+00:00 foobar"
    ensures "2020-08-27T08:45:43.728154-04:00" + " foobar" == "2020-08-27T08:45:43.728154-04:00 foobar"
  {
  }

  lemma Join5()
    ensures "2021-03-25 17:39:28.167391+00:00" + " foobar" == "2021-03-25 17:39:28.167391+00:00 foobar"
    ensures "2021-03-25T12:39:28.167391-05:00" + " foobar" == "2021-03-25T12:39:28.167391-05:00 foobar"
  {
  }

  lemma Join6()
    ensures "2020-08-27T07:45:43.728154-05:00" + " foobar" == "2020-08-27T07:45:43.728154-05:00 foobar"
  {
  }

  lemma Join4()
    ensures "2020-09-11 14:48:34+0000" + " foobar" == "2020-09-11 14:48:34+0000 foobar"
    ensures "2020-09-11T10:48:34-04:00" + " foobar" == "2020-09-11T10:48:34-04:00 foobar"
    ensures "10:48:34" + " foobar" == "10:48:34 foobar"
  {
  }

  lemma Join9()
    ensures "1607965978437104000" + " foobar" == "1607965978437104000 foobar"
    ensures "2020-12-14T12:12:58.437104-05:00" + " foobar" == "2020-12-14T12:12:58.437104-05:00 foobar"
  {
  }

  lemma JoinMultipleIn()
    ensures "2020-08-27 12:45:43.728154+00:00" + " foo 2020-08-27T12:45:37Z"
      == "2020-08-27 12:45:43.728154+00:00 foo 2020-08-27T12:45:37Z"
  {
  }

  lemma JoinMultipleOut()
    ensures "2020-08-27T07:45:43.728154-05:00" + " foo 2020-08-27T07:45:37-05:00"
      == "2020-08-27T07:45:43.728154-05:00 foo 2020-08-27T07:45:37-05:00"
  {
  }

  lemma JoinFoo()
    ensures " foo " + "2020-08-27T12:45:37Z" == " foo 2020-08-27T12:45:37Z"
    ensures " foo " + "2020-08-27T07:45:37-05:00" == " foo 2020-08-27T07:45:37-05:00"
  {
  }

  /** `should_replace_dates_1`: a `Z` timestamp with the `T` separator. */
  lemma ShouldReplaceDates1(lib: Chrono)
    requires lib.offsetAt(NewYork, NaiveDateTime(1_598_532_337, 0)) == -14_400
    ensures HandleLine(Rizzy(NewYork, None, false), lib, "2020-08-27T12:45:37Z foobar")
      == Value("2020-08-27T08:45:37-04:00 foobar")
  {
    var cfg := Rizzy(NewYork, None, false);
    Stamp1(cfg, lib, " foobar");
    ShortTextKept(cfg, lib, " foobar");
    Render1Ny(cfg, lib);
    Join1();
    TimestampsOnly(cfg, lib, "2020-08-27T12:45:37Z foobar", "2020-08-27T08:45:37-04:00", " foobar");
  }

  /** `should_replace_dates_2`: a whole second with a `+00:00` offset. */
  lemma ShouldReplaceDates2(lib: Chrono)
    requires lib.offsetAt(NewYork, NaiveDateTime(1_598_535_000, 0)) == -14_400
    ensures HandleLine(Rizzy(NewYork, None, false), lib, "2020-08-27 13:30:00+00:00 foobar")
      == Value("2020-08-27T09:30:00-04:00 foobar")
  {
    var cfg := Rizzy(NewYork, None, false);
    Stamp2(cfg, lib, " foobar");
    ShortTextKept(cfg, lib, " foobar");
    Render2Ny(cfg, lib);
    Join2();
    TimestampsOnly(cfg, lib, "2020-08-27 13:30:00+00:00 foobar", "2020-08-27T09:30:00-04:00", " foobar");
  }

  /** `should_replace_dates_3`: six fraction digits and a `+00:00` offset. */
  lemma ShouldReplaceDates3(lib: Chrono)
    requires lib.offsetAt(NewYork, NaiveDateTime(1_598_532_343, 728_154_000)) == -14_400
    ensures HandleLine(Rizzy(NewYork, None, false), lib, "2020-08-27 12:45:43.728154+00:00 foobar")
      == Value("2020-08-27T08:45:43.728154-04:00 foobar")
  {
    var cfg := Rizzy(NewYork, None, false);
    Stamp3(cfg, lib, " foobar");
    ShortTextKept(cfg, lib, " foobar");
    Render3Ny(cfg, lib);
    Join3();
    TimestampsOnly(cfg, lib, "2020-08-27 12:45:43.728154+00:00 foobar", "2020-08-27T08:45:43.728154-04:00", " foobar");
  }

  /** `should_replace_dates_4`: an offset without its colon. */
  lemma ShouldReplaceDates4(lib: Chrono)
    requires lib.offsetAt(NewYork, NaiveDateTime(1_599_835_714, 0)) == -14_400
    ensures HandleLine(Rizzy(NewYork, None, false), lib, "2020-09-11 14:48:34+0000 foobar")
      == Value("2020-09-11T10:48:34-04:00 foobar")
  {
    var cfg := Rizzy(NewYork, None, false);
    Stamp4(cfg, lib, " foobar");
    ShortTextKept(cfg, lib, " foobar");
    Render4Ny(cfg, lib);
    Join4();
    TimestampsOnly(cfg, lib, "2020-09-11 14:48:34+0000 foobar", "2020-09-11T10:48:34-04:00", " foobar");
  }

  /** `should_replace_dates_5`: Chicago, another date and fraction. */
  lemma ShouldReplaceDates5(lib: Chrono)
    requires lib.offsetAt(Chicago, NaiveDateTime(1_616_693_968, 167_391_000)) == -18_000
    ensures HandleLine(Rizzy(Chicago, None, false), lib, "2021-03-25 17:39:28.167391+00:00 foobar")
      == Value("2021-03-25T12:39:28.167391-05:00 foobar")
  {
    var cfg := Rizzy(Chicago, None, false);
    Stamp5(cfg, lib, " foobar");
    ShortTextKept(cfg, lib, " foobar");
    Render5Chi(cfg, lib);
    Join5();
    TimestampsOnly(cfg, lib, "2021-03-25 17:39:28.167391+00:00 foobar", "2021-03-25T12:39:28.167391-05:00", " foobar");
  }

  /** `should_replace_dates_6`: the line of `should_replace_dates_3` in
      Chicago. */
  lemma ShouldReplaceDates6(lib: Chrono)
    requires lib.offsetAt(Chicago, NaiveDateTime(1_598_532_343, 728_154_000)) == -18_000
    ensures HandleLine(Rizzy(Chicago, None, false), lib, "2020-08-27 12:45:43.728154+00:00 foobar")
      == Value("2020-08-27T07:45:43.728154-05:00 foobar")
  {
    var cfg := Rizzy(Chicago, None, false);
    Stamp3(cfg, lib, " foobar");
    ShortTextKept(cfg, lib, " foobar");
    Render3Chi(cfg, lib);
    Join3();
    Join6();
    TimestampsOnly(cfg, lib, "2020-08-27 12:45:43.728154+00:00 foobar", "2020-08-27T07:45:43.728154-05:00", " foobar");
  }

  /** `should_replace_multiple_matches`: both timestamps of a line are
      replaced and the text between them is kept. */
  lemma ShouldReplaceMultipleMatches(lib: Chrono)
    requires lib.offsetAt(Chicago, NaiveDateTime(1_598_532_343, 728_154_000)) == -18_000
    requires lib.offsetAt(Chicago, NaiveDateTime(1_598_532_337, 0)) == -18_000
    ensures HandleLine(Rizzy(Chicago, None, false), lib, "2020-08-27 12:45:43.728154+00:00 foo 2020-08-27T12:45:37Z")
      == Value("2020-08-27T07:45:43.728154-05:00 foo 2020-08-27T07:45:37-05:00")
  {
    var cfg := Rizzy(Chicago, None, false);
    SecondStamp(cfg, lib);
    Stamp3(cfg, lib, " foo 2020-08-27T12:45:37Z");
    Render3Chi(cfg, lib);
    JoinMultipleIn();
    JoinMultipleOut();
    TimestampsOnly(cfg, lib, "2020-08-27 12:45:43.728154+00:00 foo 2020-08-27T12:45:37Z",
      "2020-08-27T07:45:43.728154-05:00", " foo 2020-08-27T07:45:37-05:00");
  }

  /** What follows the first timestamp of `should_replace_multiple_matches`. */
  lemma SecondStamp(cfg: Rizzy, lib: Chrono)
    requires cfg.format.None? && lib.offsetAt(cfg.tz, NaiveDateTime(1_598_532_337, 0)) == -18_000
    ensures TimestampPass(cfg, lib, " foo 2020-08-27T12:45:37Z") == Value(" foo 2020-08-27T07:45:37-05:00")
  {
    SecondStampAlone(cfg, lib);
    FooHasNoDigits();
    NonDigitsCopied(cfg, lib, " foo ", "2020-08-27T12:45:37Z");
    JoinFoo();
  }

  lemma FooHasNoDigits()
    ensures forall i :: 0 <= i < |" foo "| ==> !IsDigit(" foo "[i])
  {
  }

  lemma SecondStampAlone(cfg: Rizzy, lib: Chrono)
    requires cfg.format.None? && lib.offsetAt(cfg.tz, NaiveDateTime(1_598_532_337, 0)) == -18_000
    ensures TimestampPass(cfg, lib, "2020-08-27T12:45:37Z") == Value("2020-08-27T07:45:37-05:00")
  {
    Stamp1(cfg, lib, "");
    ShortTextKept(cfg, lib, "");
    Render1Chi(cfg, lib);
    JoinEmpty();
  }

  lemma JoinEmpty()
    ensures "2020-08-27T12:45:37Z" + "" == "2020-08-27T12:45:37Z"
    ensures "2020-08-27T07:45:37-05:00" + "" == "2020-08-27T07:45:37-05:00"
  {
  }

  /** `should_apply_format`: with a user format the replacement is what
      `strftime` makes of the instant in the zone. */
  lemma ShouldApplyFormat(lib: Chrono)
    requires lib.strftime(ZonedDateTime(NewYork, NaiveDateTime(1_599_835_714, 0),
      lib.offsetAt(NewYork, NaiveDateTime(1_599_835_714, 0))), "%H:%M:%S") == Some("10:48:34")
    ensures HandleLine(Rizzy(NewYork, Some("%H:%M:%S"), false), lib, "2020-09-11 14:48:34+0000 foobar")
      == Value("10:48:34 foobar")
  {
    var cfg := Rizzy(NewYork, Some("%H:%M:%S"), false);
    Stamp4(cfg, lib, " foobar");
    ShortTextKept(cfg, lib, " foobar");
    Join4();
    TimestampsOnly(cfg, lib, "2020-09-11 14:48:34+0000 foobar", "10:48:34", " foobar");
  }

  /** `should_convert_epoch_nanos`: a run of 19 digits is read as
      nanoseconds since the epoch. */
  lemma ShouldConvertEpochNanos(lib: Chrono)
    requires lib.offsetAt(NewYork, NaiveDateTime(1_607_965_978, 437_104_000)) == -18_000
    ensures HandleLine(Rizzy(NewYork, None, true), lib, "1607965978437104000 foobar")
      == Value("2020-12-14T12:12:58.437104-05:00 foobar")
  {
    var cfg := Rizzy(NewYork, None, true);
    EpochOnly(cfg, lib, "1607965978437104000" + " foobar");
    Epoch9(cfg, lib, " foobar");
    ShortTextKept(cfg, lib, " foobar");
    Render9Ny(cfg, lib);
    Join9();
  }

  /** The line of `should_convert_epoch_nanos` holds no timestamp. */
  lemma EpochOnly(cfg: Rizzy, lib: Chrono, line: string)
    requires line == "1607965978437104000" + " foobar"
    ensures TimestampPass(cfg, lib, line) == Value(line)
  {
    EpochDigits();
    assert line[..19] == "1607965978437104000";
    EpochLineNoStamp(cfg, lib, line);
  }
}
