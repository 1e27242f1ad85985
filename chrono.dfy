/** Calendar arithmetic and the two date texts the API parses: the
    "2006-01-02" layout of the report queries (the full-date production of
    section 5.6 of RFC 3339) and the RFC 3339 date-time of person birth and
    death dates. Instants are whole seconds since 1970-01-01T00:00:00Z in the
    proleptic Gregorian calendar, UTC. */
module Chrono {
  import opened Common

  const SecondsPerDay := 86400

  datatype Date = Date(year: int, month: int, day: int)

  predicate IsLeapYear(y: int) {
    y % 4 == 0 && (y % 100 != 0 || y % 400 == 0)
  }

  function DaysInMonth(y: int, m: int): (n: int)
    requires 1 <= m <= 12
    ensures 28 <= n <= 31
  {
    if m == 2 then (if IsLeapYear(y) then 29 else 28)
    else if m == 4 || m == 6 || m == 9 || m == 11 then 30
    else 31
  }

  predicate ValidDate(d: Date) {
    1 <= d.month <= 12 && 1 <= d.day <= DaysInMonth(d.year, d.month)
  }

  /** Days from 1970-01-01 to the given civil date (negative before it). */
  function DaysFromCivil(d: Date): int
    requires 1 <= d.month <= 12
  {
    var y := if d.month <= 2 then d.year - 1 else d.year;
    var era := y / 400;
    var yoe := y - era * 400;
    var mp := if d.month > 2 then d.month - 3 else d.month + 9;
    var doy := (153 * mp + 2) / 5 + d.day - 1;
    var doe := yoe * 365 + yoe / 4 - yoe / 100 + doy;
    era * 146097 + doe - 719468
  }

  /** The civil date of the given day number (inverse of DaysFromCivil). */
  function CivilFromDays(z: int): Date {
    var zz := z + 719468;
    var era := zz / 146097;
    var doe := zz - era * 146097;
    var yoe := (doe - doe / 1460 + doe / 36524 - doe / 146096) / 365;
    var doy := doe - (365 * yoe + yoe / 4 - yoe / 100);
    var mp := (5 * doy + 2) / 153;
    var day := doy - (153 * mp + 2) / 5 + 1;
    var month := if mp < 10 then mp + 3 else mp - 9;
    var year := yoe + era * 400;
    Date(if month <= 2 then year + 1 else year, month, day)
  }

  /** The instant of midnight UTC at the start of a date. */
  function Midnight(d: Date): (t: int)
    requires 1 <= d.month <= 12
    ensures t % SecondsPerDay == 0
  {
    DaysFromCivil(d) * SecondsPerDay
  }

  // ---- fixed-width decimal fields ----

  function DigitChar(v: int): (c: char)
    requires 0 <= v < 10
    ensures IsDecimalDigit(c) && c as int - '0' as int == v
  {
    ('0' as int + v) as char
  }

  function Pow10(w: nat): (p: nat)
    ensures p >= 1
  {
    if w == 0 then 1 else 10 * Pow10(w - 1)
  }

  /** n in decimal, zero-padded on the left to at least w digits. */
  function PadNat(n: nat, w: nat): (s: string)
    ensures forall i :: 0 <= i < |s| ==> IsDecimalDigit(s[i])
    ensures |s| >= w
    decreases n + w
  {
    if n < 10 && w <= 1 then [DigitChar(n)]
    else PadNat(n / 10, if w == 0 then 0 else w - 1) + [DigitChar(n % 10)]
  }

  /** Go's zero-padded integer field: a minus sign for negative values. */
  function PadInt(n: int, w: nat): string {
    if n < 0 then "-" + PadNat(-n, w) else PadNat(n, w)
  }

  /** A value below 10^w is written in exactly w digits that read back as it. */
  lemma {:induction false} PadNatExact(n: nat, w: nat)
    requires 1 <= w && n < Pow10(w)
    ensures |PadNat(n, w)| == w && DigitsValue(PadNat(n, w)) == n
    decreases w
  {
    var s := PadNat(n, w);
    if n < 10 && w <= 1 {
    } else {
      var w' := w - 1;
      assert n / 10 < Pow10(w');
      PadNatExact(n / 10, w');
      var t := PadNat(n / 10, w');
      assert s == t + [DigitChar(n % 10)];
      assert s[..|s| - 1] == t;
    }
  }

  /** A date written in the "2006-01-02" layout. */
  function FormatDate(d: Date): string {
    FormatMonth(d) + "-" + PadInt(d.day, 2)
  }

  /** A date's month written in the "2006-01" layout. */
  function FormatMonth(d: Date): string {
    PadInt(d.year, 4) + "-" + PadInt(d.month, 2)
  }

  predicate DigitsAt(s: string, lo: nat, hi: nat)
    requires lo <= hi <= |s|
  {
    forall i :: lo <= i < hi ==> IsDecimalDigit(s[i])
  }

  function FieldValue(s: string, lo: nat, hi: nat): nat
    requires lo <= hi <= |s| && DigitsAt(s, lo, hi)
  {
    DigitsValue(s[lo..hi])
  }

  /** time.Parse with layout "2006-01-02": four year digits, two month digits
      in 1..12, two day digits valid for that month, nothing else. */
  function ParseLayoutDate(s: string): (r: Option<Date>)
    ensures r.Some? ==> ValidDate(r.value) && 0 <= r.value.year <= 9999
    ensures r.Some? ==> |s| == 10 && s[4] == '-' && s[7] == '-'
  {
    if |s| == 10 && DigitsAt(s, 0, 4) && s[4] == '-' && DigitsAt(s, 5, 7) && s[7] == '-' && DigitsAt(s, 8, 10) then
      var year := FieldValue(s, 0, 4);
      var month := FieldValue(s, 5, 7);
      var day := FieldValue(s, 8, 10);
      assert year <= 9999 by { FieldBound(s, 0, 4); }
      if 1 <= month <= 12 && 1 <= day <= DaysInMonth(year, month) then Some(Date(year, month, day))
      else None
    else None
  }

  lemma {:induction false} DigitsBound(s: string)
    requires forall i :: 0 <= i < |s| ==> IsDecimalDigit(s[i])
    ensures DigitsValue(s) < Pow10(|s|)
  {
    if s != [] {
      DigitsBound(s[..|s| - 1]);
    }
  }

  lemma FieldBound(s: string, lo: nat, hi: nat)
    requires lo <= hi <= |s| && DigitsAt(s, lo, hi)
    ensures FieldValue(s, lo, hi) < Pow10(hi - lo)
  {
    DigitsBound(s[lo..hi]);
  }

  /** Every valid date of a four-digit year reads back from its layout text. */
  lemma ParseFormatDate(d: Date)
    requires ValidDate(d) && 0 <= d.year <= 9999
    ensures ParseLayoutDate(FormatDate(d)) == Some(d)
  {
    assert Pow10(4) == 10000 && Pow10(2) == 100;
    PadNatExact(d.year, 4);
    PadNatExact(d.month, 2);
    PadNatExact(d.day, 2);
    var ys, ms, ds := PadNat(d.year, 4), PadNat(d.month, 2), PadNat(d.day, 2);
    var s := FormatDate(d);
    assert s == ys + "-" + ms + "-" + ds;
    assert s[0..4] == ys && s[5..7] == ms && s[8..10] == ds;
  }

  /** The "2006-01-02" key of the UTC day an instant falls in. */
  function DayKey(t: int): string {
    FormatDate(CivilFromDays(t / SecondsPerDay))
  }

  /** The "2006-01" key of the UTC month an instant falls in. */
  function MonthKey(t: int): string {
    FormatMonth(CivilFromDays(t / SecondsPerDay))
  }

  /** The month key of an instant is the start of its day key. */
  lemma MonthKeyPrefixOfDayKey(t: int)
    ensures MonthKey(t) <= DayKey(t)
    ensures DayKey(t) == MonthKey(t) + "-" + PadInt(CivilFromDays(t / SecondsPerDay).day, 2)
  {
  }

  // ---- RFC 3339 date-time (section 5.6) under Go's "2006-01-02T15:04:05Z07:00" layout ----
  //
  // time.Parse tries a strict reading of the layout first and, when that fails,
  // reads it with the general layout parser, so the accepted texts are those
  // of the general parser: the hour field "15" takes one or two digits, a
  // fraction may follow the seconds after '.' or ',', and the offset range test
  // lets hour 24 and minute 60 through.

  /** A fixed two-digit field starting at lo, read as a number. */
  function TwoDigits(s: string, lo: nat): (r: Option<int>)
    requires lo + 2 <= |s|
    ensures r.Some? <==> DigitsAt(s, lo, lo + 2)
    ensures r.Some? ==> r.value == FieldValue(s, lo, lo + 2) && 0 <= r.value < 100
  {
    if DigitsAt(s, lo, lo + 2) then
      assert FieldValue(s, lo, lo + 2) < 100 by { FieldBound(s, lo, lo + 2); assert Pow10(2) == 100; }
      Some(FieldValue(s, lo, lo + 2))
    else None
  }

  /** The hour field: one digit, or two when a second digit follows; the
      result is the value and the index just past the field. */
  function HourField(s: string, lo: nat): (r: Option<(int, nat)>)
    requires lo <= |s|
    ensures r.Some? <==> lo < |s| && IsDecimalDigit(s[lo])
    ensures r.Some? ==> lo < r.value.1 <= |s| && DigitsAt(s, lo, r.value.1) && r.value.0 == FieldValue(s, lo, r.value.1)
    ensures r.Some? ==> (r.value.1 == lo + 2 <==> lo + 1 < |s| && IsDecimalDigit(s[lo + 1]))
    ensures r.Some? ==> r.value.1 <= lo + 2 && 0 <= r.value.0 < 100
  {
    if lo < |s| && IsDecimalDigit(s[lo]) then
      if lo + 1 < |s| && IsDecimalDigit(s[lo + 1]) then
        var v := TwoDigits(s, lo).value;
        Some((v, lo + 2))
      else
        assert DigitsValue(s[lo..lo + 1]) == s[lo] as int - '0' as int by {
          assert s[lo..lo + 1][..0] == [];
        }
        Some((s[lo] as int - '0' as int, lo + 1))
    else None
  }

  /** Length of the run of digits starting at i. */
  function DigitRun(s: string, i: nat): (n: nat)
    requires i <= |s|
    ensures i + n <= |s|
    ensures DigitsAt(s, i, i + n)
    ensures i + n < |s| ==> !IsDecimalDigit(s[i + n])
    decreases |s| - i
  {
    if i < |s| && IsDecimalDigit(s[i]) then 1 + DigitRun(s, i + 1) else 0
  }

  /** What follows the seconds once a ".digits" or ",digits" fraction is
      dropped (instants are whole seconds). */
  function Unfractioned(rest: string): (z: string)
    ensures |rest| >= 2 && (rest[0] == '.' || rest[0] == ',') && IsDecimalDigit(rest[1]) ==>
      |z| < |rest| - 1 && rest == rest[..|rest| - |z|] + z && DigitsAt(rest, 1, |rest| - |z|)
      && (z != [] ==> !IsDecimalDigit(z[0]))
    ensures !(|rest| >= 2 && (rest[0] == '.' || rest[0] == ',') && IsDecimalDigit(rest[1])) ==> z == rest
  {
    if |rest| >= 2 && (rest[0] == '.' || rest[0] == ',') && IsDecimalDigit(rest[1]) then
      var f := rest[1..];
      var n := DigitRun(f, 0);
      assert rest == rest[..1 + n] + f[n..];
      assert forall i :: 1 <= i < 1 + n ==> rest[i] == f[i - 1];
      f[n..]
    else rest
  }

  /** The zone: "Z", or a sign, two hour digits, ':' and two minute digits,
      with hour at most 24 and minute at most 60; the result is the offset
      in seconds east of UTC. */
  function ParseOffset(z: string): (r: Option<int>)
    ensures r.Some? <==> (z == "Z" ||
      (|z| == 6 && (z[0] == '+' || z[0] == '-') && z[3] == ':' && DigitsAt(z, 1, 3) && DigitsAt(z, 4, 6)
       && FieldValue(z, 1, 3) <= 24 && FieldValue(z, 4, 6) <= 60))
    ensures r.Some? && z != "Z" ==>
      r.value == (if z[0] == '-' then -1 else 1) * (FieldValue(z, 1, 3) * 60 + FieldValue(z, 4, 6)) * 60
    ensures r.Some? ==> -90000 <= r.value <= 90000
  {
    if z == "Z" then Some(0)
    else if |z| == 6 && (z[0] == '+' || z[0] == '-') && z[3] == ':' then
      match (TwoDigits(z, 1), TwoDigits(z, 4))
      case (Some(hh), Some(mm)) =>
        if hh <= 24 && mm <= 60 then
          var off := (hh * 60 + mm) * 60;
          Some(if z[0] == '-' then -off else off)
        else None
      case _ => None
    else None
  }

  /** Seconds from midnight UTC to the instant of an hour, minute and second
      read at an offset, each when read and in range. */
  function Clock(hh: int, mi: Option<int>, ss: Option<int>, off: Option<int>): (r: Option<int>)
    ensures r.Some? ==> off.Some?
  {
    if mi.None? || ss.None? || off.None? then None
    else if hh <= 23 && mi.value <= 59 && ss.value <= 59 then Some(hh * 3600 + mi.value * 60 + ss.value - off.value)
    else None
  }

  /** The rest of a date-time after its hour field hh: ":mm:ss", an optional
      fraction and the zone, giving the seconds from midnight UTC of the
      date to the instant. */
  function ClockAfterHour(hh: int, t: string): (r: Option<int>)
    ensures r.Some? ==> |t| >= 7
  {
    if |t| >= 6 && t[0] == ':' && t[3] == ':' then
      Clock(hh, TwoDigits(t, 1), TwoDigits(t, 4), ParseOffset(Unfractioned(t[6..])))
    else None
  }

  /** The instant of a parsed date and clock, when both were read. */
  function Assemble(date: Option<Date>, clock: Option<int>): (r: Option<int>)
    requires date.Some? ==> 1 <= date.value.month <= 12
    ensures r.Some? <==> date.Some? && clock.Some?
  {
    if date.None? || clock.None? then None else Some(Midnight(date.value) + clock.value)
  }

  /** time.Parse with the RFC 3339 layout: a "2006-01-02" date, "T", the
      clock and the zone. The result is the instant in seconds. */
  function ParseDateTime(s: string): (r: Option<int>)
    ensures r.Some? ==> |s| >= 18 && s[10] == 'T' && ParseLayoutDate(s[..10]).Some? && IsDecimalDigit(s[11])
  {
    if |s| < 11 || s[10] != 'T' || HourField(s, 11).None? then None
    else
      var hour := HourField(s, 11);
      Assemble(ParseLayoutDate(s[..10]), ClockAfterHour(hour.value.0, s[hour.value.1..]))
  }

  /** A UTC instant on a date written as Go formats it with the RFC 3339
      layout (no fraction, "Z"). */
  function FormatDateTime(d: Date, hh: nat, mi: nat, ss: nat): string {
    FormatDate(d) + "T" + PadInt(hh, 2) + ":" + PadInt(mi, 2) + ":" + PadInt(ss, 2) + "Z"
  }

  /** A date-time whose first ten characters are date, followed by "T" and an
      hour field read as hh that ends at j, reads its tail after that field. */
  lemma ParseDateTimeTail(s: string, date: string, hh: int, j: nat)
    requires |s| >= 11 && s[..10] == date && s[10] == 'T' && HourField(s, 11) == Some((hh, j))
    ensures ParseDateTime(s) == Assemble(ParseLayoutDate(date), ClockAfterHour(hh, s[j..]))
  {
    var h := HourField(s, 11);
    assert h.value.0 == hh && h.value.1 == j;
  }

  /** ":mm:ss" followed by "Z" reads as the whole seconds on the clock. */
  lemma AfterHourUtc(hh: int, ms: string, sx: string)
    requires 0 <= hh <= 23
    requires |ms| == 2 && |sx| == 2 && DigitsAt(ms, 0, 2) && DigitsAt(sx, 0, 2)
    requires DigitsValue(ms) <= 59 && DigitsValue(sx) <= 59
    ensures ClockAfterHour(hh, ":" + ms + ":" + sx + "Z") == Some(hh * 3600 + DigitsValue(ms) * 60 + DigitsValue(sx))
  {
    var t := ":" + ms + ":" + sx + "Z";
    assert t[1..3] == ms && t[4..6] == sx && t[6..] == "Z";
  }

  /** Every UTC date-time of a four-digit year reads back as its instant. */
  lemma ParseFormatDateTime(d: Date, hh: nat, mi: nat, ss: nat)
    requires ValidDate(d) && 0 <= d.year <= 9999 && hh <= 23 && mi <= 59 && ss <= 59
    ensures ParseDateTime(FormatDateTime(d, hh, mi, ss)) == Some(Midnight(d) + hh * 3600 + mi * 60 + ss)
  {
    ParseFormatDate(d);
    assert Pow10(2) == 100;
    PadNatExact(hh, 2);
    PadNatExact(mi, 2);
    PadNatExact(ss, 2);
    var date, hs, ms, sx := FormatDate(d), PadNat(hh, 2), PadNat(mi, 2), PadNat(ss, 2);
    assert |date| == 10 by { assert ParseLayoutDate(date).Some?; }
    var t := ":" + ms + ":" + sx + "Z";
    var s := FormatDateTime(d, hh, mi, ss);
    assert s == date + "T" + hs + t;
    assert s[..10] == date && s[10] == 'T' && s[11..13] == hs && s[13..] == t;
    assert HourField(s, 11) == Some((hh, 13));
    ParseDateTimeTail(s, date, hh, 13);
    AfterHourUtc(hh, ms, sx);
  }

  /** A one-digit hour reads as the same hour written with a leading zero. */
  lemma OneDigitHour(date: string, c: char, rest: string)
    requires |date| == 10 && IsDecimalDigit(c) && rest != [] && rest[0] == ':'
    ensures ParseDateTime(date + "T" + [c] + rest) == ParseDateTime(date + "T0" + [c] + rest)
  {
    var s1, s2 := date + "T" + [c] + rest, date + "T0" + [c] + rest;
    assert s1[..10] == date == s2[..10] && s1[10] == 'T' == s2[10];
    assert s1[12..] == rest == s2[13..];
    var v := c as int - '0' as int;
    assert s1[11] == c && s1[12] == ':';
    assert HourField(s1, 11) == Some((v, 12));
    assert s2[11..13] == ['0', c] && s2[11] == '0' && s2[12] == c;
    assert DigitsValue(['0', c]) == v by { assert ['0', c][..1] == ['0'] && ['0'][..0] == []; }
    assert HourField(s2, 11) == Some((v, 13));
    ParseDateTimeTail(s1, date, v, 12);
    ParseDateTimeTail(s2, date, v, 13);
  }

  /** The zone after a ",digits" fraction is the zone after ".digits". */
  lemma ZoneAfterSeparator(r: string)
    requires r != [] && r[0] == ','
    ensures ParseOffset(Unfractioned(r)) == ParseOffset(Unfractioned(r[0 := '.']))
  {
    var r2 := r[0 := '.'];
    assert r[1..] == r2[1..];
    if |r| >= 2 && IsDecimalDigit(r[1]) {
      var n := DigitRun(r[1..], 0);
      assert Unfractioned(r) == r[1..][n..] == Unfractioned(r2);
    } else {
      assert Unfractioned(r) == r && Unfractioned(r2) == r2;
    }
  }

  /** Two tails that agree on ":mm:ss" and whose zones read alike read alike. */
  lemma AfterHourAgree(hh: int, t1: string, t2: string)
    requires |t1| >= 6 && |t2| >= 6 && t1[0] == t2[0] && t1[3] == t2[3]
    requires TwoDigits(t1, 1) == TwoDigits(t2, 1) && TwoDigits(t1, 4) == TwoDigits(t2, 4)
    requires ParseOffset(Unfractioned(t1[6..])) == ParseOffset(Unfractioned(t2[6..]))
    ensures ClockAfterHour(hh, t1) == ClockAfterHour(hh, t2)
  {
  }

  /** A two-digit field reads alike in two texts that agree on it. */
  lemma TwoDigitsAgree(s1: string, s2: string, lo: nat)
    requires lo + 2 <= |s1| && lo + 2 <= |s2| && s1[lo] == s2[lo] && s1[lo + 1] == s2[lo + 1]
    ensures TwoDigits(s1, lo) == TwoDigits(s2, lo)
  {
    assert s1[lo..lo + 2] == s2[lo..lo + 2];
  }

  /** A ',' before the fraction reads as a '.' does: replacing the character
      right after the seconds field by '.' changes nothing. */
  lemma FractionSeparators(s: string, k: nat)
    requires 11 < |s| && IsDecimalDigit(s[11]) && k == HourField(s, 11).value.1 + 6
    requires k < |s| && s[k] == ','
    ensures ParseDateTime(s) == ParseDateTime(s[k := '.'])
  {
    var s2 := s[k := '.'];
    var h := HourField(s, 11);
    var j := h.value.1;
    assert s2[..10] == s[..10] && s2[10] == s[10] && s2[11] == s[11] && s2[12] == s[12];
    assert s2[11..j] == s[11..j];
    assert HourField(s2, 11) == h;
    var t1, t2 := s[j..], s2[j..];
    assert t2 == t1[6 := '.'];
    TwoDigitsAgree(t1, t2, 1);
    TwoDigitsAgree(t1, t2, 4);
    assert t2[6..] == t1[6..][0 := '.'];
    ZoneAfterSeparator(t1[6..]);
    AfterHourAgree(h.value.0, t1, t2);
    if s[10] == 'T' {
      ParseDateTimeTail(s, s[..10], h.value.0, j);
      ParseDateTimeTail(s2, s[..10], h.value.0, j);
    }
  }

  /** An offset hour of 24 or minute of 60 is accepted. */
  lemma WideOffsets()
    ensures ParseOffset("+24:00") == Some(86400)
    ensures ParseOffset("-00:60") == Some(-3600)
  {
    var a, b := "+24:00", "-00:60";
    assert a[1..3] == "24" && a[4..6] == "00";
    assert b[1..3] == "00" && b[4..6] == "60";
  }
}
