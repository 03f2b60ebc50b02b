/**
 * Timezone arithmetic of the dashboard (src/utils/timeUtils.ts).
 *
 * The timezone database is a parameter: `resolve(t, zone)` gives the wall
 * clock that `zone` shows at instant `t`, or None when the zone id cannot
 * be resolved (where the source's Intl calls throw). Instants and wall
 * clocks are counted in whole minutes since 1970-01-01 00:00; a wall clock
 * is the local date and time read as if it were UTC.
 */
module TimeUtils {
  import opened Types

  type Resolver = (int, string) -> Option<int>

  const Utc: string := "UTC"

  // ---------------------------------------------------------------------
  // Decimal text of naturals (JavaScript's number-to-string for integers)
  // ---------------------------------------------------------------------

  predicate IsDigit(c: char) { '0' <= c <= '9' }

  predicate AllDigits(s: string) { forall i | 0 <= i < |s| :: IsDigit(s[i]) }

  function DigitChar(d: nat): (c: char)
    requires d < 10
    ensures IsDigit(c) && c as int - '0' as int == d
  {
    (d + '0' as int) as char
  }

  /** Shortest decimal text of `n`, as `${n}` renders it. */
  function Decimal(n: nat): (s: string)
    ensures 1 <= |s| && AllDigits(s)
    ensures s[0] == '0' ==> n == 0
    decreases n
  {
    if n < 10 then [DigitChar(n)] else Decimal(n / 10) + [DigitChar(n % 10)]
  }

  /** The value a string of decimal digits denotes (leading zeros allowed). */
  function DecimalValue(s: string): nat
    requires AllDigits(s)
  {
    if s == [] then 0 else DecimalValue(s[..|s| - 1]) * 10 + (s[|s| - 1] as int - '0' as int)
  }

  /** Reading the decimal text back gives the number. */
  lemma {:induction false} DecimalRoundTrip(n: nat)
    ensures DecimalValue(Decimal(n)) == n
    decreases n
  {
    var s := Decimal(n);
    if n >= 10 {
      DecimalRoundTrip(n / 10);
      assert s[..|s| - 1] == Decimal(n / 10);
    }
  }

  /** One leading zero does not change the value. */
  lemma {:induction false} LeadingZero(s: string)
    requires AllDigits(s)
    ensures AllDigits("0" + s) && DecimalValue("0" + s) == DecimalValue(s)
    decreases |s|
  {
    if s != [] {
      var t := "0" + s;
      assert t[..|t| - 1] == "0" + s[..|s| - 1];
      LeadingZero(s[..|s| - 1]);
    }
  }

  /** Decimal text has one digit below 10 and two below 100. */
  lemma DecimalLength(n: nat)
    ensures n < 10 ==> |Decimal(n)| == 1
    ensures 10 <= n < 100 ==> |Decimal(n)| == 2
  {
  }

  // ---------------------------------------------------------------------
  // getTimeDifference
  // ---------------------------------------------------------------------

  function Abs(x: int): nat { if x < 0 then -x else x }

  /** "{H}h" or "{H}h {M}m" for a magnitude of `mag` minutes. */
  function MagnitudeText(mag: nat): string
  {
    var hours := mag / 60;
    var minutes := mag % 60;
    Decimal(hours) + "h" + (if minutes > 0 then " " + Decimal(minutes) + "m" else "")
  }

  /** The label for a wall-clock difference of `diff` minutes (`to` minus `from`). */
  function DifferenceLabel(diff: int): string
  {
    if Abs(diff) < 60 then "Same time"
    else MagnitudeText(Abs(diff)) + (if diff > 0 then " ahead" else " behind")
  }

  /**
   * getTimeDifference: compares the wall clocks of two zones at the same
   * instant; "Unknown" when either zone cannot be resolved.
   */
  function TimeDifference(resolve: Resolver, t: int, from: string, to: string): (r: string)
    ensures r == "Unknown" <==> resolve(t, from).None? || resolve(t, to).None?
    ensures r == "Same time" <==>
      resolve(t, from).Some? && resolve(t, to).Some? &&
      Abs(resolve(t, to).value - resolve(t, from).value) < 60
  {
    match (resolve(t, from), resolve(t, to))
    case (Some(f), Some(g)) =>
      DirectionSuffixes(MagnitudeText(Abs(g - f)));
      DifferenceLabel(g - f)
    case _ => "Unknown"
  }

  /** The same zone is always "Same time" with itself, when it resolves. */
  lemma SameZoneSameTime(resolve: Resolver, t: int, zone: string)
    requires resolve(t, zone).Some?
    ensures TimeDifference(resolve, t, zone, zone) == "Same time"
  {
  }

  /**
   * Beyond an hour apart, the label is the magnitude text followed by
   * " ahead" exactly when the `to` zone's wall clock is later, and by
   * " behind" exactly when it is earlier.
   */
  lemma TimeDifferenceDirection(resolve: Resolver, t: int, from: string, to: string, f: int, g: int)
    requires resolve(t, from) == Some(f) && resolve(t, to) == Some(g)
    requires Abs(g - f) >= 60
    ensures var r := TimeDifference(resolve, t, from, to);
      (r == MagnitudeText(Abs(g - f)) + " ahead" <==> g > f) &&
      (r == MagnitudeText(Abs(g - f)) + " behind" <==> g < f)
  {
    var m := MagnitudeText(Abs(g - f));
    var r := TimeDifference(resolve, t, from, to);
    if g > f {
      assert r == m + " ahead";
      assert (m + " behind")[|m| + 1] == 'b' && r[|m| + 1] == 'a';
    } else {
      assert r == m + " behind";
      assert (m + " ahead")[|m| + 1] == 'a' && r[|m| + 1] == 'b';
    }
  }

  /** The last two characters of the two direction words. */
  lemma DirectionSuffixes(m: string)
    ensures var a, b := m + " ahead", m + " behind";
      a[|a| - 1] == 'd' && a[|a| - 2] == 'a' && b[|b| - 1] == 'd' && b[|b| - 2] == 'n' &&
      a != "Same time" && a != "Unknown" && b != "Same time" && b != "Unknown"
  {
    var a, b := m + " ahead", m + " behind";
    assert a[|a| - 1] == 'd' && "Same time"[8] == 'e' && "Unknown"[6] == 'n';
    assert b[|b| - 1] == 'd';
  }

  /** Equal suffixes can be cancelled. */
  lemma CancelSuffix(a: string, b: string, s: string)
    requires a + s == b + s
    ensures a == b
  {
    assert |a| == |b|;
    assert forall i | 0 <= i < |a| :: a[i] == (a + s)[i] == (b + s)[i] == b[i];
  }

  /**
   * Swapping the two zones turns "{M} ahead" into "{M} behind" and back,
   * with the same magnitude text `m`.
   */
  lemma {:induction false} TimeDifferenceAntisymmetric(resolve: Resolver, t: int, a: string, b: string, m: string)
    ensures TimeDifference(resolve, t, a, b) == m + " ahead" <==>
            TimeDifference(resolve, t, b, a) == m + " behind"
  {
    var r1 := TimeDifference(resolve, t, a, b);
    var r2 := TimeDifference(resolve, t, b, a);
    DirectionSuffixes(m);
    if resolve(t, a).Some? && resolve(t, b).Some? {
      var f, g := resolve(t, a).value, resolve(t, b).value;
      assert Abs(g - f) == Abs(f - g);
      var mag := MagnitudeText(Abs(g - f));
      if Abs(g - f) >= 60 {
        TimeDifferenceDirection(resolve, t, a, b, f, g);
        TimeDifferenceDirection(resolve, t, b, a, g, f);
        DirectionSuffixes(mag);
        if r1 == m + " ahead" {
          CancelSuffix(m, mag, " ahead");
        }
        if r2 == m + " behind" {
          CancelSuffix(m, mag, " behind");
        }
      }
    }
  }

  /**
   * The magnitude text reads back as hours = mag div 60 and
   * minutes = mag mod 60; the " {M}m" part is present exactly when the
   * minutes are not 0.
   */
  lemma MagnitudeTextReadsBack(mag: nat)
    ensures var s := MagnitudeText(mag);
      var k := |Decimal(mag / 60)|;
      k < |s| && s[k] == 'h' && AllDigits(s[..k]) && DecimalValue(s[..k]) == mag / 60 &&
      (|s| == k + 1 <==> mag % 60 == 0) &&
      (mag % 60 != 0 ==>
         k + 3 < |s| && s[k + 1] == ' ' && s[|s| - 1] == 'm' &&
         AllDigits(s[k + 2..|s| - 1]) && DecimalValue(s[k + 2..|s| - 1]) == mag % 60)
  {
    var s := MagnitudeText(mag);
    var k := |Decimal(mag / 60)|;
    assert s[..k] == Decimal(mag / 60);
    DecimalRoundTrip(mag / 60);
    if mag % 60 != 0 {
      assert s[k + 2..|s| - 1] == Decimal(mag % 60);
      DecimalRoundTrip(mag % 60);
    }
  }

  // ---------------------------------------------------------------------
  // isDaytime
  // ---------------------------------------------------------------------

  /** Hour of day (0-23) of a wall clock. */
  function LocalHour(wall: int): (h: int)
    ensures 0 <= h < 24
  {
    (wall / 60) % 24
  }

  /**
   * isDaytime: an unresolvable zone counts as day; otherwise it is day
   * exactly when the minute of the day lies in [06:00, 18:00).
   */
  function IsDaytime(resolve: Resolver, t: int, zone: string): (r: bool)
    ensures resolve(t, zone).None? ==> r
    ensures resolve(t, zone).Some? ==> (r <==> 360 <= resolve(t, zone).value % 1440 < 1080)
  {
    match resolve(t, zone)
    case Some(wall) =>
      DaytimeByMinuteOfDay(wall);
      6 <= LocalHour(wall) < 18
    case None => true
  }

  /** The hour test 6 <= hour < 18 is the minute-of-day test [06:00, 18:00). */
  lemma DaytimeByMinuteOfDay(wall: int)
    ensures 6 <= LocalHour(wall) < 18 <==> 360 <= wall % 1440 < 1080
  {
    var q := wall / 1440;
    var md := wall % 1440;
    assert wall == q * 1440 + md;
    assert wall / 60 == q * 24 + md / 60;
    assert (wall / 60) % 24 == md / 60;
  }

  /** Noon is day and midnight is night, in every zone that resolves. */
  lemma NoonAndMidnight(resolve: Resolver, t: int, zone: string, wall: int)
    requires resolve(t, zone) == Some(wall)
    ensures LocalHour(wall) == 12 ==> IsDaytime(resolve, t, zone)
    ensures LocalHour(wall) == 0 ==> !IsDaytime(resolve, t, zone)
  {
  }

  // ---------------------------------------------------------------------
  // getDayLabel
  // ---------------------------------------------------------------------

  /**
   * Day of the month (1-31) of a wall clock in the proleptic Gregorian
   * calendar, as Date.getDate reports it. The civil-from-days algorithm
   * is split into three steps: the day within the 400-year era, the day
   * of a year that starts on 1 March, and the day of the month.
   */
  function DayOfMonth(wall: int): (d: int)
    ensures 1 <= d <= 31
  {
    DayFromMarchDay(MarchDayOfYear(EraDay(wall)))
  }

  /** Day within the 146097-day era that starts on 1 March of a year 0 mod 400. */
  function EraDay(wall: int): (doe: int)
    ensures 0 <= doe < 146097
  {
    (wall / 1440 + 719468) % 146097
  }

  /**
   * Day of the (March-based) year, 0-365, for a day of the era: the era
   * is three 36524-day centuries and a 36525-day one, a century is
   * 4-year cycles of 1461 days (the last one a day short except in the
   * fourth century), and only the fourth year of a cycle has 366 days.
   */
  function MarchDayOfYear(doe: int): (doy: int)
    requires 0 <= doe < 146097
    ensures 0 <= doy <= 365
  {
    var century := if doe < 3 * 36524 then doe / 36524 else 3;
    var dayOfCentury := doe - 36524 * century;
    CycleDay(dayOfCentury % 1461)
  }

  /** Day of the year within a 4-year cycle whose fourth year has 366 days. */
  function CycleDay(dayOfCycle: int): (doy: int)
    requires 0 <= dayOfCycle < 1461
    ensures 0 <= doy <= 365
  {
    var yearOfCycle := if dayOfCycle < 3 * 365 then dayOfCycle / 365 else 3;
    dayOfCycle - 365 * yearOfCycle
  }

  /** Day of the month for a day of the March-based year. */
  function DayFromMarchDay(doy: int): (d: int)
    requires 0 <= doy <= 365
    ensures 1 <= d <= 31
  {
    var mp := (5 * doy + 2) / 153;
    doy - (153 * mp + 2) / 5 + 1
  }

  /**
   * From one day to the next the day of the month goes up by one, or
   * starts again at 1 after a day numbered 28 or more.
   */
  lemma DayOfMonthNextDay(wall: int)
    ensures var d, e := DayOfMonth(wall), DayOfMonth(wall + 1440);
      e == d + 1 || (e == 1 && d >= 28)
  {
    var doe := EraDay(wall);
    EraDayNext(wall);
    if doe < 146096 {
      MarchDayNext(doe);
      var doy := MarchDayOfYear(doe);
      if doy < 365 && MarchDayOfYear(doe + 1) == doy + 1 {
        DayFromMarchDayNext(doy);
      } else {
        assert MarchDayOfYear(doe + 1) == 0 && doy >= 364;
        MarchDayYearEnd(doy);
      }
    } else {
      assert MarchDayOfYear(146096) == 365;
      MarchDayYearEnd(365);
    }
  }

  /** The next day is the next day of the era, or day 0 of the next era. */
  lemma EraDayNext(wall: int)
    ensures EraDay(wall + 1440) == if EraDay(wall) < 146096 then EraDay(wall) + 1 else 0
  {
    var days := wall / 1440;
    assert (wall + 1440) / 1440 == days + 1;
  }

  /** Within an era, the March-based day of the year steps by one or starts a new year. */
  lemma MarchDayNext(doe: int)
    requires 0 <= doe < 146096
    ensures var a, b := MarchDayOfYear(doe), MarchDayOfYear(doe + 1);
      (a < 365 && b == a + 1) || (b == 0 && a >= 364)
  {
    var c := if doe < 3 * 36524 then doe / 36524 else 3;
    var c2 := if doe + 1 < 3 * 36524 then (doe + 1) / 36524 else 3;
    CenturyOf(doe);
    CenturyOf(doe + 1);
    var dc, dc2 := doe - 36524 * c, doe + 1 - 36524 * c2;
    var y := dc % 1461;
    if c2 == c {
      assert dc2 == dc + 1;
      ModStep(dc);
      if y < 1460 {
        CycleDayNext(y);
      } else {
        assert dc2 % 1461 == 0;
        assert CycleDay(1460) == 365 && CycleDay(0) == 0;
      }
    } else {
      assert c2 == c + 1 && dc == 36523 && dc2 == 0;
      assert y == 1459;
      assert CycleDay(1459) == 364 && CycleDay(0) == 0;
    }
  }

  /** The century of a day of the era, by cases. */
  lemma CenturyOf(doe: int)
    requires 0 <= doe < 146097
    ensures var c := if doe < 3 * 36524 then doe / 36524 else 3;
      0 <= c <= 3 && 36524 * c <= doe &&
      (c < 3 ==> doe < 36524 * c + 36524)
  {
    if doe < 36524 {
      assert doe / 36524 == 0;
    } else if doe < 2 * 36524 {
      assert doe / 36524 == 1;
    } else if doe < 3 * 36524 {
      assert doe / 36524 == 2;
    }
  }

  /** The remainder by 1461 steps by one, or wraps to 0. */
  lemma ModStep(x: int)
    requires x >= 0
    ensures (x + 1) % 1461 == if x % 1461 < 1460 then x % 1461 + 1 else 0
  {
    var q, r := x / 1461, x % 1461;
    assert x == 1461 * q + r;
    if r < 1460 {
      assert x + 1 == 1461 * q + (r + 1);
    } else {
      assert x + 1 == 1461 * (q + 1);
    }
  }

  /** Within a 4-year cycle, the day of the year steps by one or starts a new year. */
  lemma CycleDayNext(y: int)
    requires 0 <= y < 1460
    ensures (CycleDay(y) < 365 && CycleDay(y + 1) == CycleDay(y) + 1) ||
            (CycleDay(y + 1) == 0 && CycleDay(y) == 364)
  {
    if y < 364 {
      assert y / 365 == 0 && (y + 1) / 365 == 0;
    } else if y == 364 {
      assert y / 365 == 0 && (y + 1) / 365 == 1;
    } else if y < 729 {
      assert y / 365 == 1 && (y + 1) / 365 == 1;
    } else if y == 729 {
      assert y / 365 == 1 && (y + 1) / 365 == 2;
    } else if y < 1094 {
      assert y / 365 == 2 && (y + 1) / 365 == 2;
    } else if y == 1094 {
      assert y / 365 == 2;
    }
  }

  /** Within a March-based year, the day of the month steps by one or starts a new month. */
  lemma DayFromMarchDayNext(doy: int)
    requires 0 <= doy < 365
    ensures var d, e := DayFromMarchDay(doy), DayFromMarchDay(doy + 1);
      e == d + 1 || (e == 1 && d >= 28)
  {
    var mp := (5 * doy + 2) / 153;
    var mp2 := (5 * (doy + 1) + 2) / 153;
    assert 153 * mp <= 5 * doy + 2 < 153 * mp + 153;
    assert 153 * mp2 <= 5 * doy + 7 < 153 * mp2 + 153;
    if mp2 != mp {
      assert mp2 == mp + 1;
      assert (153 * mp2 + 2) / 5 == doy + 1;
      assert (153 * mp + 2) / 5 <= doy - 29;
    }
  }

  /** The last day of a March-based year is 28 or 29 February, and the first is 1 March. */
  lemma MarchDayYearEnd(doy: int)
    requires 364 <= doy <= 365
    ensures DayFromMarchDay(doy) >= 28 && DayFromMarchDay(0) == 1
  {
  }

  /** getDayLabel: compares only the day-of-month numbers of the two wall clocks. */
  function DayLabel(resolve: Resolver, t: int, zone: string, reference: string): (r: string)
    ensures r == "" <==> resolve(t, zone).None? || resolve(t, reference).None?
    ensures resolve(t, zone).Some? && resolve(t, reference).Some? ==>
      var d, e := DayOfMonth(resolve(t, zone).value), DayOfMonth(resolve(t, reference).value);
      (r == "Next day" <==> d > e) && (r == "Previous day" <==> d < e) && (r == "Same day" <==> d == e)
  {
    match (resolve(t, zone), resolve(t, reference))
    case (Some(w), Some(v)) =>
      var day, refDay := DayOfMonth(w), DayOfMonth(v);
      if day > refDay then "Next day"
      else if day < refDay then "Previous day"
      else "Same day"
    case _ => ""
  }

  /**
   * On the same calendar day the label is "Same day"; a zone already on
   * the next calendar day reads "Next day", except after a reference day
   * numbered 28 or more, where the month wrap makes it "Previous day".
   */
  lemma DayLabelByCalendarDay(resolve: Resolver, t: int, zone: string, reference: string, w: int, v: int)
    requires resolve(t, zone) == Some(w) && resolve(t, reference) == Some(v)
    ensures w / 1440 == v / 1440 ==> DayLabel(resolve, t, zone, reference) == "Same day"
    ensures w / 1440 == v / 1440 + 1 ==>
      DayLabel(resolve, t, zone, reference) == "Next day" ||
      (DayLabel(resolve, t, zone, reference) == "Previous day" && DayOfMonth(v) >= 28)
  {
    if w / 1440 == v / 1440 + 1 {
      assert (v + 1440) / 1440 == v / 1440 + 1;
      assert EraDay(w) == EraDay(v + 1440);
      DayOfMonthNextDay(v);
    }
  }

  /** A zone against itself is "Same day". */
  lemma DayLabelSameZone(resolve: Resolver, t: int, zone: string)
    requires resolve(t, zone).Some?
    ensures DayLabel(resolve, t, zone, zone) == "Same day"
  {
  }

  /** Swapping target and reference swaps "Next day" and "Previous day". */
  lemma DayLabelAntisymmetric(resolve: Resolver, t: int, a: string, b: string)
    ensures DayLabel(resolve, t, a, b) == "Next day" <==> DayLabel(resolve, t, b, a) == "Previous day"
    ensures DayLabel(resolve, t, a, b) == "Same day" <==> DayLabel(resolve, t, b, a) == "Same day"
  {
  }

  /** 2024-01-01 00:30 as a wall clock, in minutes. */
  const NewYear0030: int := 19723 * 1440 + 30
  /** 2023-12-31 23:30 as a wall clock, in minutes. */
  const NewYearsEve2330: int := 19723 * 1440 - 30

  /**
   * Across a month boundary the label follows the day numbers, not the
   * calendar: a zone already on 1 January, against one still on
   * 31 December, is labelled "Previous day" although its clock is later.
   */
  lemma MonthWrapReadsAsPreviousDay(resolve: Resolver, t: int, zone: string, reference: string)
    requires resolve(t, zone) == Some(NewYear0030)
    requires resolve(t, reference) == Some(NewYearsEve2330)
    ensures NewYear0030 > NewYearsEve2330
    ensures DayLabel(resolve, t, zone, reference) == "Previous day"
  {
    NewYearIsFirst();
    NewYearsEveIsThirtyFirst();
  }

  /** 2024-01-01 is day 1 of its month. */
  lemma NewYearIsFirst()
    ensures DayOfMonth(NewYear0030) == 1
  {
    assert EraDay(NewYear0030) == 8706;
    assert MarchDayOfYear(8706) == 306;
    assert DayFromMarchDay(306) == 1;
  }

  /** 2023-12-31 is day 31 of its month. */
  lemma NewYearsEveIsThirtyFirst()
    ensures DayOfMonth(NewYearsEve2330) == 31
  {
    assert EraDay(NewYearsEve2330) == 8705;
    assert MarchDayOfYear(8705) == 305;
    assert DayFromMarchDay(305) == 31;
  }

  // ---------------------------------------------------------------------
  // formatTime: the offset string and the fallback
  // ---------------------------------------------------------------------

  /**
   * (minutes / 60).toFixed(0) as a number: the nearest whole hour, halves
   * rounded away from zero.
   */
  function RoundHalfAway(minutes: int): (h: int)
    ensures -30 <= minutes - 60 * h <= 30
    ensures minutes - 60 * h == -30 ==> minutes > 0
    ensures minutes - 60 * h == 30 ==> minutes < 0
    ensures h < 0 ==> minutes < 0
    ensures minutes >= 0 ==> h >= 0
  {
    if minutes < 0 then -((-minutes + 30) / 60) else (minutes + 30) / 60
  }

  /** The text toFixed(0) gives for minutes / 60 (a "-" is kept even for -0). */
  function ToFixed0(minutes: int): (r: string)
    ensures |r| >= 1 && (r[0] == '-' <==> minutes < 0)
    ensures r[if minutes < 0 then 1 else 0..] == Decimal(Abs(RoundHalfAway(minutes)))
  {
    if minutes < 0 then "-" + Decimal((-minutes + 30) / 60) else Decimal((minutes + 30) / 60)
  }

  /** String.prototype.padStart with a one-character filler. */
  function PadStart(s: string, width: nat, fill: char): (r: string)
    ensures |r| == if |s| >= width then |s| else width
    ensures r[|r| - |s|..] == s
    ensures forall i | 0 <= i < |r| - |s| :: r[i] == fill
  {
    if |s| >= width then s else seq(width - |s|, _ => fill) + s
  }

  /** The `offset` field of formatTime for an offset of `minutes`. */
  function OffsetString(minutes: int): (r: string)
    ensures 5 <= |r| && r[|r| - 3..] == ":00"
    ensures r[0] == '+' <==> minutes >= 0
    ensures r[0] == '-' <==> minutes < 0
  {
    (if minutes >= 0 then "+" else "") + PadStart(ToFixed0(minutes), 2, '0') + ":00"
  }

  /** A sign, at least one digit, and ":00". */
  predicate IsOffsetText(s: string)
  {
    5 <= |s| && s[|s| - 3] == ':' && s[|s| - 2] == '0' && s[|s| - 1] == '0' &&
    (s[0] == '+' || s[0] == '-') && AllDigits(s[1..|s| - 3])
  }

  /** The whole-hour count a sign and its digits stand for. */
  function SignedValue(sign: char, digits: string): int
    requires AllDigits(digits)
  {
    if sign == '-' then -(DecimalValue(digits) as int) else DecimalValue(digits)
  }

  /** Reads a "+HH:00" / "-H:00" offset back to whole hours. */
  function ParseOffset(s: string): Option<int>
  {
    if IsOffsetText(s) then Some(SignedValue(s[0], s[1..|s| - 3])) else None
  }

  /** ParseOffset on a sign, a run of digits and ":00". */
  lemma ParseOffsetOf(sign: char, digits: string)
    requires sign == '+' || sign == '-'
    requires 1 <= |digits| && AllDigits(digits)
    ensures ParseOffset([sign] + digits + ":00") == Some(SignedValue(sign, digits))
  {
    var s := [sign] + digits + ":00";
    assert s[1..|s| - 3] == digits;
    assert IsOffsetText(s);
  }

  /** The offset string always reads back to the rounded hour count. */
  lemma OffsetStringRoundTrip(minutes: int)
    ensures ParseOffset(OffsetString(minutes)) == Some(RoundHalfAway(minutes))
  {
    if minutes >= 0 {
      AheadOffsetRoundTrip(minutes);
    } else {
      BehindOffsetRoundTrip(minutes);
    }
  }

  /** The round trip for a zone at or ahead of UTC ("+" and two or more digits). */
  lemma AheadOffsetRoundTrip(minutes: int)
    requires minutes >= 0
    ensures ParseOffset(OffsetString(minutes)) == Some(RoundHalfAway(minutes))
  {
    var h := (minutes + 30) / 60;
    assert OffsetString(minutes) == ['+'] + PadStart(Decimal(h), 2, '0') + ":00";
    ParseAhead(h);
  }

  /** "+", the hours padded to two digits, ":00" reads back as the hours. */
  lemma ParseAhead(h: nat)
    ensures ParseOffset(['+'] + PadStart(Decimal(h), 2, '0') + ":00") == Some(h)
  {
    var d := Decimal(h);
    DecimalRoundTrip(h);
    var p := PadStart(d, 2, '0');
    if |d| < 2 {
      assert p == "0" + d;
      LeadingZero(d);
    } else {
      assert p == d;
    }
    ParseOffsetOf('+', p);
  }

  /** The round trip for a zone behind UTC ("-" and the unpadded digits). */
  lemma BehindOffsetRoundTrip(minutes: int)
    requires minutes < 0
    ensures ParseOffset(OffsetString(minutes)) == Some(RoundHalfAway(minutes))
  {
    BehindOffsetText(minutes);
    ParseBehind((-minutes + 30) / 60);
  }

  /** "-", the hours, ":00" reads back as minus the hours. */
  lemma ParseBehind(h: nat)
    ensures ParseOffset(['-'] + Decimal(h) + ":00") == Some(-(h as int))
  {
    DecimalRoundTrip(h);
    ParseOffsetOf('-', Decimal(h));
  }

  /** Behind UTC, padStart leaves "-" and the digits as they are. */
  lemma BehindOffsetText(minutes: int)
    requires minutes < 0
    ensures OffsetString(minutes) == ['-'] + Decimal((-minutes + 30) / 60) + ":00"
  {
    var text := ToFixed0(minutes);
    assert PadStart(text, 2, '0') == text;
  }

  /**
   * Width of the offset string: two hour digits after "+", but a
   * negative single-digit hour is not padded, because padStart counts the
   * minus sign ("-5:00" beside "+05:00").
   */
  lemma OffsetStringWidth(minutes: int)
    ensures minutes >= 0 && RoundHalfAway(minutes) < 100 ==> |OffsetString(minutes)| == 6
    ensures minutes < 0 && -10 < RoundHalfAway(minutes) ==> |OffsetString(minutes)| == 5
    ensures minutes < 0 && -100 < RoundHalfAway(minutes) <= -10 ==> |OffsetString(minutes)| == 6
  {
    if minutes >= 0 {
      DecimalLength((minutes + 30) / 60);
    } else {
      DecimalLength((-minutes + 30) / 60);
    }
  }

  /** An offset of +5 h is padded to two digits. */
  lemma OffsetStringPlusFive()
    ensures OffsetString(300) == "+05:00"
  {
    assert ToFixed0(300) == "5";
    assert PadStart("5", 2, '0') == "05";
  }

  /** An offset of +10 h needs no padding. */
  lemma OffsetStringPlusTen()
    ensures OffsetString(600) == "+10:00"
  {
    assert ToFixed0(600) == "10";
    assert PadStart("10", 2, '0') == "10";
  }

  /** A zero offset is "+00:00", the same text as the fallback. */
  lemma OffsetStringZero()
    ensures OffsetString(0) == "+00:00"
  {
    assert ToFixed0(0) == "0";
    assert PadStart("0", 2, '0') == "00";
  }

  /** Offsets of -5 h and -10 h: the single digit is not padded. */
  lemma OffsetStringNegativeSamples()
    ensures OffsetString(-300) == "-5:00"
    ensures OffsetString(-600) == "-10:00"
  {
    assert ToFixed0(-300) == "-5" && PadStart("-5", 2, '0') == "-5";
    assert ToFixed0(-600) == "-10" && PadStart("-10", 2, '0') == "-10";
  }

  /** Half-hour zones round away from zero: +5:30 to "+06:00", -3:30 to "-4:00". */
  lemma OffsetStringHalfHourSamples()
    ensures OffsetString(330) == "+06:00"
    ensures OffsetString(-210) == "-4:00"
  {
    assert ToFixed0(330) == "6" && PadStart("6", 2, '0') == "06";
    assert ToFixed0(-210) == "-4" && PadStart("-4", 2, '0') == "-4";
  }

  /** The four Intl text fields are not modelled; these two are. */
  datatype FormattedTime = FormattedTime(offset: string, dayLabel: string)

  /**
   * formatTime: offset from the UTC wall clock and a day label against
   * "UTC"; when the zone cannot be resolved, the fallback "+00:00" and "".
   */
  function FormatTime(resolve: Resolver, t: int, zone: string): (r: FormattedTime)
    ensures 5 <= |r.offset| && r.offset[|r.offset| - 3..] == ":00"
    ensures r.offset[0] == '+' || r.offset[0] == '-'
    ensures r.dayLabel == "" <==> resolve(t, zone).None? || resolve(t, Utc).None?
    ensures resolve(t, zone).Some? && resolve(t, Utc).Some? ==> r.dayLabel == DayLabel(resolve, t, zone, Utc)
  {
    var local, utc := resolve(t, zone), resolve(t, Utc);
    if local.Some? && utc.Some? then
      FormattedTime(OffsetString(local.value - utc.value), DayLabel(resolve, t, zone, Utc))
    else
      FormattedTime("+00:00", "")
  }

  /** An unresolvable zone gets the fallback offset "+00:00" and no day label. */
  lemma FormatTimeFallback(resolve: Resolver, t: int, zone: string)
    requires resolve(t, zone).None?
    ensures FormatTime(resolve, t, zone) == FormattedTime("+00:00", "")
    ensures ParseOffset(FormatTime(resolve, t, zone).offset) == Some(0)
  {
    assert FormatTime(resolve, t, zone) == FormattedTime("+00:00", "");
    FallbackOffsetReadsZero();
  }

  /** The fallback text "+00:00" reads as a zero offset, like OffsetString(0). */
  lemma FallbackOffsetReadsZero()
    ensures ParseOffset("+00:00") == Some(0)
  {
    ParseOffsetOf('+', "00");
    assert ['+'] + "00" + ":00" == "+00:00";
    assert DecimalValue("00") == 10 * DecimalValue("0");
  }

  /**
   * When UTC's wall clock is the instant itself and the zone's is
   * `offset` minutes later, the offset text reads back as `offset`
   * rounded to whole hours.
   */
  lemma FormatTimeAgainstUtc(resolve: Resolver, t: int, zone: string, offset: int)
    requires resolve(t, Utc) == Some(t) && resolve(t, zone) == Some(t + offset)
    ensures ParseOffset(FormatTime(resolve, t, zone).offset) == Some(RoundHalfAway(offset))
  {
    var d := resolve(t, zone).value - resolve(t, Utc).value;
    assert d == offset;
    FormatTimeResolved(resolve, t, zone);
    OffsetStringRoundTrip(d);
  }

  /**
   * With both wall clocks known, formatTime gives the offset between
   * them and a day label that is one of the three comparisons against UTC.
   */
  lemma FormatTimeResolved(resolve: Resolver, t: int, zone: string)
    ensures resolve(t, zone).Some? && resolve(t, Utc).Some? ==>
      var r := FormatTime(resolve, t, zone);
      r.offset == OffsetString(resolve(t, zone).value - resolve(t, Utc).value) &&
      r.dayLabel == DayLabel(resolve, t, zone, Utc) &&
      (r.dayLabel == "Next day" || r.dayLabel == "Previous day" || r.dayLabel == "Same day")
  {
  }
}
