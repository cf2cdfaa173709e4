/** The decisions behind the "Understanding Your Time System" text: which
    comparison words appear, which bullets are shown, and the numbers they
    report. Number formatting is not modelled, only the values formatted. */
module Narrative {

  import opened Optional
  import opened TimeUnits
  import opened Derivation
  import opened Converter

  const EarthHoursPerDay: real := 24.0
  const StandardDaysPerWeek: real := 7.0

  /** The word in the first paragraph: "longer" only for more than 24 hours. */
  function DayLengthWord(hoursPerDay: real): (w: string)
    ensures w == "longer" <==> hoursPerDay > EarthHoursPerDay
    ensures w == "longer" || w == "shorter"
  {
    if hoursPerDay > EarthHoursPerDay then "longer" else "shorter"
  }

  /** A bullet reporting how far a configured length is from the standard one. */
  datatype Difference = Difference(amount: real, word: string)

  function Abs(x: real): real
  {
    if x < 0.0 then -x else x
  }

  /** The day bullet, present only when a day does not have 24 hours. */
  function DayDifference(hoursPerDay: real): (r: Option<Difference>)
    ensures r.Some? <==> hoursPerDay != EarthHoursPerDay
    ensures r.Some? ==> r.value.amount > 0.0
    ensures r.Some? ==> r.value.word == (if hoursPerDay > EarthHoursPerDay then "longer" else "shorter")
  {
    if hoursPerDay != EarthHoursPerDay then
      Some(Difference(
        Abs(hoursPerDay - EarthHoursPerDay),
        if hoursPerDay > EarthHoursPerDay then "longer" else "shorter"))
    else
      None
  }

  /** Reads the day length back from what the day bullet says. */
  function HoursFromDayDifference(d: Option<Difference>): real
  {
    match d
    case None => EarthHoursPerDay
    case Some(Difference(amount, word)) =>
      if word == "longer" then EarthHoursPerDay + amount else EarthHoursPerDay - amount
  }

  /** The day bullet (or its absence) determines the day length exactly. */
  lemma DayDifferenceFaithful(hoursPerDay: real)
    ensures HoursFromDayDifference(DayDifference(hoursPerDay)) == hoursPerDay
  {
  }

  /** Where both appear, the bullet's word agrees with the first paragraph's;
      at exactly 24 hours the first paragraph still says "shorter". */
  lemma DayWordsAgree(hoursPerDay: real)
    ensures DayDifference(hoursPerDay).Some? ==>
              DayDifference(hoursPerDay).value.word == DayLengthWord(hoursPerDay)
    ensures DayLengthWord(EarthHoursPerDay) == "shorter" && DayDifference(EarthHoursPerDay) == None
  {
  }

  /** The week bullet, present only when a week does not have 7 days. */
  function WeekDifference(daysPerWeek: real): (r: Option<Difference>)
    ensures r.Some? <==> daysPerWeek != StandardDaysPerWeek
    ensures r.Some? ==> r.value.amount > 0.0
    ensures r.Some? ==> r.value.word == (if daysPerWeek > StandardDaysPerWeek then "more" else "fewer")
  {
    if daysPerWeek != StandardDaysPerWeek then
      Some(Difference(
        Abs(daysPerWeek - StandardDaysPerWeek),
        if daysPerWeek > StandardDaysPerWeek then "more" else "fewer"))
    else
      None
  }

  /** Reads the week length back from what the week bullet says. */
  function DaysFromWeekDifference(d: Option<Difference>): real
  {
    match d
    case None => StandardDaysPerWeek
    case Some(Difference(amount, word)) =>
      if word == "more" then StandardDaysPerWeek + amount else StandardDaysPerWeek - amount
  }

  /** The week bullet (or its absence) determines the week length exactly. */
  lemma WeekDifferenceFaithful(daysPerWeek: real)
    ensures DaysFromWeekDifference(WeekDifference(daysPerWeek)) == daysPerWeek
  {
  }

  /** A 30-hour day is reported as 6 hours longer. */
  lemma ThirtyHourDay()
    ensures DayDifference(Defaults.With(HoursPerDay, 30.0).hoursPerDay) == Some(Difference(6.0, "longer"))
  {
  }

  /** `Math.round`: the nearest integer, halves rounded up. */
  function Round(x: real): (r: int)
    ensures r as real - 0.5 <= x < r as real + 0.5
  {
    (x + 0.5).Floor
  }

  /** A 45-minute lesson in standard minutes, to the nearest minute. */
  function LessonMinutes(c: Config): (r: int)
    ensures r as real - 0.5 <= 45.0 * c.secondsPerMinute / 60.0 < r as real + 0.5
  {
    Round(45.0 * c.secondsPerMinute / 60.0)
  }

  /** A 20-minute nap in standard minutes, to the nearest minute. */
  function NapMinutes(c: Config): (r: int)
    ensures r as real - 0.5 <= 20.0 * c.secondsPerMinute / 60.0 < r as real + 0.5
  {
    Round(20.0 * c.secondsPerMinute / 60.0)
  }

  /** A 4-hour marathon scaled by the year ratio, to the nearest hour. */
  function MarathonHours(c: Config): (r: int)
    ensures r as real - 0.5 <= 4.0 * Derive(c).secondsPerYear / StandardSecondsPerYear < r as real + 0.5
  {
    Round(4.0 * Derive(c).timeRatio)
  }

  /** A 120-second minute makes the lesson 90 minutes; the defaults give the familiar figures. */
  lemma RoundedFigures()
    ensures LessonMinutes(Defaults.With(SecondsPerMinute, 120.0)) == 90
    ensures LessonMinutes(Defaults) == 45 && NapMinutes(Defaults) == 20
    ensures MarathonHours(Defaults) == 4
  {
    DefaultsDerived();
    var x := 4.0 * Derive(Defaults).timeRatio;
    assert 3.5 <= x < 4.5;
  }

  /** Days in a month, as the calendar paragraph states it: a month lasts
      this many day lengths, and at least one under the invariant. */
  function DaysPerMonth(c: Config): (r: real)
    ensures Derive(c).secondsPerMonth == Derive(c).secondsPerDay * r
    ensures c.Valid() ==> r >= 1.0
  {
    var r := c.weeksPerMonth * c.daysPerWeek;
    Regroup(Derive(c).secondsPerDay, c.daysPerWeek, c.weeksPerMonth);
    assert c.Valid() ==> r >= 1.0 by {
      if c.Valid() {
        Grows(c.weeksPerMonth, c.daysPerWeek);
      }
    }
    r
  }

  /** Weeks in a year, as the calendar paragraph states it: a year lasts
      this many week lengths, and at least one under the invariant. */
  function WeeksPerYear(c: Config): (r: real)
    ensures Derive(c).secondsPerYear == Derive(c).secondsPerWeek * r
    ensures c.Valid() ==> r >= 1.0
  {
    var r := c.monthsPerYear * c.weeksPerMonth;
    Regroup(Derive(c).secondsPerWeek, c.weeksPerMonth, c.monthsPerYear);
    assert c.Valid() ==> r >= 1.0 by {
      if c.Valid() {
        Grows(c.monthsPerYear, c.weeksPerMonth);
      }
    }
    r
  }

  /** The calendar paragraph agrees with the converter: a month lasts
      `DaysPerMonth` days and a year `WeeksPerYear` weeks. */
  lemma CalendarAgreesWithConverter(c: Config)
    requires c.Valid()
    ensures Conversion(c, "month", "day") == Some(DaysPerMonth(c))
    ensures Conversion(c, "year", "week") == Some(WeeksPerYear(c))
  {
    MonthInDays(c);
    YearInWeeks(c);
  }

  lemma MonthInDays(c: Config)
    requires c.Valid()
    ensures Conversion(c, "month", "day") == Some(DaysPerMonth(c))
  {
    var d := Derive(c);
    DerivedChainNonDecreasing(c);
    var month, day, k := d.secondsPerMonth, d.secondsPerDay, DaysPerMonth(c);
    assert month == day * k && day >= 1.0;
    QuotientOfProduct(day, k);
    assert month / day == k;
    ConversionOfCalendarUnits(c);
  }

  lemma YearInWeeks(c: Config)
    requires c.Valid()
    ensures Conversion(c, "year", "week") == Some(WeeksPerYear(c))
  {
    var d := Derive(c);
    DerivedChainNonDecreasing(c);
    var year, week, k := d.secondsPerYear, d.secondsPerWeek, WeeksPerYear(c);
    assert year == week * k && week >= 1.0;
    QuotientOfProduct(week, k);
    assert year / week == k;
    ConversionOfCalendarUnits(c);
  }

  lemma Regroup(a: real, f: real, g: real)
    ensures (a * f) * g == a * (g * f)
  {
  }

  /** The one decision behind the closing paragraph, compared three times in
      it: a custom year is shorter than a standard one. */
  predicate YearIsShorter(timeRatio: real)
  {
    timeRatio < 1.0
  }

  /** "shorter" or "longer": the year compared with a standard year. */
  function YearWord(timeRatio: real): (w: string)
    ensures w == "shorter" <==> timeRatio < 1.0
    ensures w == "shorter" || w == "longer"
  {
    if YearIsShorter(timeRatio) then "shorter" else "longer"
  }

  /** "faster" or "slower": how time flows, decided by the same comparison. */
  function FlowWord(timeRatio: real): (w: string)
    ensures w == "faster" <==> timeRatio < 1.0
    ensures w == "faster" || w == "slower"
  {
    if YearIsShorter(timeRatio) then "faster" else "slower"
  }

  /** The "factor" printed after the year word: the distance of the ratio from 1. */
  function YearDeviation(timeRatio: real): (r: real)
    ensures r >= 0.0
    ensures timeRatio == 1.0 + r || timeRatio == 1.0 - r
  {
    Abs(timeRatio - 1.0)
  }

  /** Years of the custom system per Earth year as printed: the reciprocal
      when the ratio is below 1, the ratio itself otherwise. */
  function YearsPerEarthYear(timeRatio: real): (r: real)
    requires timeRatio > 0.0
    ensures r >= 1.0
    ensures r == timeRatio || r * timeRatio == 1.0
  {
    if YearIsShorter(timeRatio) then 1.0 / timeRatio else timeRatio
  }

  /** For a valid configuration the year and flow words are decided by
      whether a custom year has fewer seconds than 31557600, and the printed
      figure is the larger of the two year lengths over the smaller. */
  lemma YearWordsFromConfig(c: Config)
    requires c.Valid()
    ensures Derive(c).timeRatio > 0.0
    ensures YearWord(Derive(c).timeRatio) == "shorter" <==> Derive(c).secondsPerYear < 31557600.0
    ensures FlowWord(Derive(c).timeRatio) == "faster" <==> Derive(c).secondsPerYear < 31557600.0
    ensures YearsPerEarthYear(Derive(c).timeRatio) ==
              if Derive(c).secondsPerYear < 31557600.0
              then 31557600.0 / Derive(c).secondsPerYear
              else Derive(c).secondsPerYear / 31557600.0
  {
    DerivedChainNonDecreasing(c);
    StandardSecondsPerYearValue();
    var y := Derive(c).secondsPerYear;
    var ratio := Derive(c).timeRatio;
    assert ratio == y / 31557600.0;
    if y < 31557600.0 {
      assert 1.0 / ratio == 31557600.0 / y;
    }
  }

  /** Under the defaults the year is shorter and time flows faster. */
  lemma DefaultYearIsShorter()
    ensures YearWord(Derive(Defaults).timeRatio) == "shorter"
    ensures FlowWord(Derive(Defaults).timeRatio) == "faster"
  {
    DefaultsDerived();
  }
}
