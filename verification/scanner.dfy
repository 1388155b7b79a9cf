/** The two patterns the line rewriter searches for (src/rizzy.rs:61-64),
    as explicit matchers over ASCII digits.

The timestamp pattern is
  `\d{4}-\d{2}-\d{2}(?P<T>[ T])\d{2}:\d{2}:\d{2}(?P<sub>\.\d{3,9})?(?P<TZ>Z|[+-]\d{2}:?\d{2})`
and the epoch pattern is `\d{19}`. Neither is anchored and neither has a word
or digit boundary. `FindTimestamp` / `FindEpoch` decide whether a match starts
at the front of a text, following the regex engine's preferences (greedy
repetition, `Z` before a signed offset, the colon taken when it can be);
`Replace.ReplaceAll` does the left-to-right search. `InPattern` describes the
language of the timestamp pattern declaratively; the matcher is proved to
agree with it, which also shows that a match at a given start is unique.
 */
module Scanner {
  import opened Wrappers
  import opened Digits
  import opened Replace
  import opened Slices

  /** The three named groups: `T` (the separator), the number of digits of
      `sub` without its dot (0 when `sub` did not take part), and `TZ`. */
  datatype TsCaps = TsCaps(sep: char, subDigits: nat, tz: string)

  /** `\d{4}-\d{2}-\d{2}[ T]\d{2}:\d{2}:\d{2}` at the front of `t`. */
  predicate HeadShape(t: string) {
    && |t| >= 19
    && AllDigits(t[0..4]) && t[4] == '-' && AllDigits(t[5..7]) && t[7] == '-' && AllDigits(t[8..10])
    && (t[10] == ' ' || t[10] == 'T')
    && AllDigits(t[11..13]) && t[13] == ':' && AllDigits(t[14..16]) && t[16] == ':' && AllDigits(t[17..19])
  }

  predicate IsSign(c: char) {
    c == '+' || c == '-'
  }

  /** The whole of `z` is a zone marker: `Z`, `+HHMM` or `+HH:MM` (either sign). */
  predicate ZoneText(z: string) {
    || z == "Z"
    || (|z| == 5 && IsSign(z[0]) && AllDigits(z[1..3]) && AllDigits(z[3..5]))
    || (|z| == 6 && IsSign(z[0]) && AllDigits(z[1..3]) && z[3] == ':' && AllDigits(z[4..6]))
  }

  /** The whole of `t` is in the language of the timestamp pattern. */
  predicate InPattern(t: string) {
    && |t| >= 20 && HeadShape(t)
    && (|| ZoneText(t[19..])
        || (t[19] == '.' && exists j :: 23 <= j <= 29 && j <= |t| && AllDigits(t[20..j]) && ZoneText(t[j..])))
  }

  /** Length of the zone marker at the front of `z`, 0 when there is none. */
  function ZoneLen(z: string): (n: nat)
    ensures n <= |z|
  {
    if |z| >= 1 && z[0] == 'Z' then 1
    else if |z| >= 3 && IsSign(z[0]) && AllDigits(z[1..3]) then
      if |z| >= 6 && z[3] == ':' && AllDigits(z[4..6]) then 6
      else if |z| >= 5 && AllDigits(z[3..5]) then 5
      else 0
    else 0
  }

  /** The timestamp match starting at the front of `t`, if any. */
  function FindTimestamp(t: string): Option<Found<TsCaps>> {
    if |t| < 20 || !HeadShape(t) then None
    else if t[19] == '.' then
      var k := LeadingDigits(t[20..]);
      var z := ZoneLen(t[20 + k..]);
      if 3 <= k <= 9 && z > 0 then Some(Found(20 + k + z, TsCaps(t[10], k, t[20 + k..20 + k + z])))
      else None
    else
      var z := ZoneLen(t[19..]);
      if z > 0 then Some(Found(19 + z, TsCaps(t[10], 0, t[19..19 + z]))) else None
  }

  /** The epoch-nanoseconds match starting at the front of `t`, if any. */
  function FindEpoch(t: string): Option<Found<()>> {
    if |t| >= 19 && AllDigits(t[..19]) then Some(Found(19, ())) else None
  }

  lemma FindTimestampFindsPrefixes()
    ensures FindsPrefixes(FindTimestamp)
  {
  }

  lemma FindEpochFindsPrefixes()
    ensures FindsPrefixes(FindEpoch)
  {
  }

  lemma ZoneLenSound(z: string)
    requires ZoneLen(z) > 0
    ensures ZoneText(z[..ZoneLen(z)])
  {
    var n := ZoneLen(z);
    var w := z[..n];
    if n == 1 {
      assert w == "Z";
    } else if n == 5 {
      assert w[1..3] == z[1..3] && w[3..5] == z[3..5];
    } else {
      assert w[1..3] == z[1..3] && w[4..6] == z[4..6];
    }
  }

  lemma ZoneLenComplete(u: string, n: nat)
    requires n <= |u| && ZoneText(u[..n])
    ensures ZoneLen(u) == n
  {
    var z := u[..n];
    if z == "Z" {
      assert u[0] == 'Z';
    } else if |z| == 5 {
      assert u[1..3] == z[1..3] && u[3..5] == z[3..5];
      assert IsDigit(z[3..5][0]);
    } else {
      assert u[1..3] == z[1..3] && u[4..6] == z[4..6];
    }
  }

  lemma LeadingDigitsExact(u: string, n: nat)
    requires n <= |u| && AllDigits(u[..n]) && (n < |u| ==> !IsDigit(u[n]))
    ensures LeadingDigits(u) == n
  {
    var k := LeadingDigits(u);
    assert forall i :: 0 <= i < n ==> u[..n][i] == u[i];
    assert forall i :: 0 <= i < k ==> u[..k][i] == u[i];
  }

  lemma HeadShapePrefix(s: string, k: nat)
    requires 19 <= k <= |s|
    ensures HeadShape(s[..k]) <==> HeadShape(s)
  {
    var t := s[..k];
    assert t[0..4] == s[0..4] && t[5..7] == s[5..7] && t[8..10] == s[8..10];
    assert t[11..13] == s[11..13] && t[14..16] == s[14..16] && t[17..19] == s[17..19];
  }

  /** A match found at the front of `s` is a text of the pattern, and its
      captures are the separator, the fraction digit count (0, or 3 to 9)
      and the zone marker ending the match. */
  lemma FindTimestampSound(s: string)
    requires FindTimestamp(s).Some?
    ensures var f := FindTimestamp(s).value;
      && 20 <= f.len <= |s| && InPattern(s[..f.len])
      && f.caps.sep == s[10]
      && ZoneText(f.caps.tz) && f.caps.tz == s[f.len - |f.caps.tz|..f.len]
      && (f.caps.subDigits == 0 <==> s[19] != '.')
      && (f.caps.subDigits != 0 ==> 3 <= f.caps.subDigits <= 9 && f.len == 20 + f.caps.subDigits + |f.caps.tz|)
      && (f.caps.subDigits == 0 ==> f.len == 19 + |f.caps.tz|)
  {
    if s[19] == '.' {
      FoundWithFraction(s);
    } else {
      FoundWithoutFraction(s);
    }
  }

  lemma FoundWithoutFraction(s: string)
    requires |s| >= 20 && HeadShape(s) && s[19] != '.' && ZoneLen(s[19..]) > 0
    ensures var n := ZoneLen(s[19..]);
      InPattern(s[..19 + n]) && ZoneText(s[19..19 + n])
  {
    var n := ZoneLen(s[19..]);
    HeadShapePrefix(s, 19 + n);
    ZoneLenSound(s[19..]);
    PrefixOfTail(s, 19, n);
    TailOfPrefix(s, 19 + n, 19);
  }

  lemma FoundWithFraction(s: string)
    requires |s| >= 20 && HeadShape(s) && s[19] == '.'
    requires 3 <= LeadingDigits(s[20..]) <= 9 && ZoneLen(s[20 + LeadingDigits(s[20..])..]) > 0
    ensures var j := 20 + LeadingDigits(s[20..]); var n := ZoneLen(s[j..]);
      InPattern(s[..j + n]) && ZoneText(s[j..j + n])
  {
    var k := LeadingDigits(s[20..]);
    var j := 20 + k;
    var n := ZoneLen(s[j..]);
    var t := s[..j + n];
    HeadShapePrefix(s, j + n);
    ZoneLenSound(s[j..]);
    PrefixOfTail(s, j, n);
    TailOfPrefix(s, j + n, j);
    PrefixOfTail(s, 20, k);
    SliceOfPrefix(s, j + n, 20, j);
    assert 23 <= j <= 29 && j <= |t| && AllDigits(t[20..j]) && ZoneText(t[j..]);
  }

  /** A head followed directly by a zone marker is matched up to the end of
      the marker. */
  lemma CompleteWithoutFraction(s: string, k: nat)
    requires 20 <= k <= |s| && HeadShape(s) && s[19] != '.' && ZoneText(s[19..k])
    ensures FindTimestamp(s) == Some(Found(k, TsCaps(s[10], 0, s[19..k])))
  {
    PrefixOfTail(s, 19, k - 19);
    ZoneLenComplete(s[19..], k - 19);
  }

  /** A head, a dot, the digits up to `j` and a zone marker up to `k` are
      matched up to the end of the marker. */
  lemma CompleteWithFraction(s: string, j: nat, k: nat)
    requires 23 <= j <= 29 && j < k <= |s| && HeadShape(s) && s[19] == '.'
    requires AllDigits(s[20..j]) && ZoneText(s[j..k])
    ensures FindTimestamp(s) == Some(Found(k, TsCaps(s[10], j - 20, s[j..k])))
  {
    var u := s[20..];
    PrefixOfTail(s, 20, j - 20);
    assert u[j - 20] == s[j];
    LeadingDigitsExact(u, j - 20);
    PrefixOfTail(s, j, k - j);
    ZoneLenComplete(s[j..], k - j);
  }

  /** Any text of the pattern at the front of `s` is what the matcher finds,
      whatever follows it: the pattern has no boundary at its end, and no
      text of the pattern is a proper prefix of another. */
  lemma FindTimestampComplete(s: string, k: nat)
    requires k <= |s| && InPattern(s[..k])
    ensures FindTimestamp(s).Some? && FindTimestamp(s).value.len == k
  {
    var t := s[..k];
    HeadShapePrefix(s, k);
    if ZoneText(t[19..]) {
      assert t[19] != '.';
      TailOfPrefix(s, k, 19);
      CompleteWithoutFraction(s, k);
    } else {
      var j :| 23 <= j <= 29 && j <= |t| && AllDigits(t[20..j]) && ZoneText(t[j..]);
      SliceOfPrefix(s, k, 20, j);
      TailOfPrefix(s, k, j);
      assert j < k;
      CompleteWithFraction(s, j, k);
    }
  }
}
