/** The derivation the component memoises on every change of the
    configuration: the running products of seconds per unit, the seven-key
    conversion table, and the ratio of the custom year to a standard year. */
module Derivation {

  import opened TimeUnits

  /** The converter's unit names, smallest first; their order matches `FieldOrder`:
      `FieldOrder[i]` counts units `UnitKeys[i]` per unit `UnitKeys[i + 1]`. */
  const UnitKeys: seq<string> := ["second", "minute", "hour", "day", "week", "month", "year"]

  /** 60 * 60 * 24 * 365.25 seconds: a Julian year. */
  const StandardSecondsPerYear: real := 60.0 * 60.0 * 24.0 * 365.25

  lemma StandardSecondsPerYearValue()
    ensures StandardSecondsPerYear == 31557600.0
  {
  }

  datatype Derived = Derived(
    secondsPerHour: real,
    secondsPerDay: real,
    secondsPerWeek: real,
    secondsPerMonth: real,
    secondsPerYear: real,
    timeRatio: real,
    conversions: map<string, real>)

  /** Reference definition of a unit's length in seconds: unit number `n` of
      `UnitKeys` lasts the product of the first `n` fields. */
  function Length(c: Config, n: nat): (r: real)
    requires n < |UnitKeys|
    ensures c.Valid() ==> r >= 1.0
  {
    if n == 0 then 1.0
    else
      var prev := Length(c, n - 1);
      var f := c.Get(FieldOrder[n - 1]);
      assert c.Valid() ==> prev * f >= 1.0 by {
        if c.Valid() {
          ValidGet(c);
          Grows(prev, f);
        }
      }
      prev * f
  }

  /** Multiplying by a factor of at least 1 does not shrink a positive amount. */
  lemma Grows(a: real, f: real)
    requires a >= 1.0 && f >= 1.0
    ensures a * f >= a >= 1.0
  {
    assert a * f - a == a * (f - 1.0);
    assert a * (f - 1.0) >= 0.0;
  }

  function Derive(c: Config): (d: Derived)
    ensures forall k :: k in d.conversions <==> k in UnitKeys
    ensures d.conversions["second"] == 1.0 && d.conversions["minute"] == c.secondsPerMinute
    ensures d.timeRatio * StandardSecondsPerYear == d.secondsPerYear
  {
    var secondsPerHour := c.secondsPerMinute * c.minutesPerHour;
    var secondsPerDay := secondsPerHour * c.hoursPerDay;
    var secondsPerWeek := secondsPerDay * c.daysPerWeek;
    var secondsPerMonth := secondsPerWeek * c.weeksPerMonth;
    var secondsPerYear := secondsPerMonth * c.monthsPerYear;
    var conversions := map[
      "second" := 1.0,
      "minute" := c.secondsPerMinute,
      "hour" := secondsPerHour,
      "day" := secondsPerDay,
      "week" := secondsPerWeek,
      "month" := secondsPerMonth,
      "year" := secondsPerYear];
    Derived(
      secondsPerHour, secondsPerDay, secondsPerWeek, secondsPerMonth, secondsPerYear,
      secondsPerYear / StandardSecondsPerYear,
      conversions)
  }

  /** Every derived count is the running product of the fields up to it. */
  lemma DeriveMatchesLadder(c: Config)
    ensures Derive(c).secondsPerHour == Length(c, 2)
    ensures Derive(c).secondsPerDay == Length(c, 3)
    ensures Derive(c).secondsPerWeek == Length(c, 4)
    ensures Derive(c).secondsPerMonth == Length(c, 5)
    ensures Derive(c).secondsPerYear == Length(c, 6)
  {
    var d := Derive(c);
    assert Length(c, 1) == c.secondsPerMinute by {
      assert FieldOrder[0] == SecondsPerMinute;
    }
    assert Length(c, 2) == d.secondsPerHour by {
      assert FieldOrder[1] == MinutesPerHour;
    }
    assert Length(c, 3) == d.secondsPerDay by {
      assert FieldOrder[2] == HoursPerDay;
    }
    assert Length(c, 4) == d.secondsPerWeek by {
      assert FieldOrder[3] == DaysPerWeek;
    }
    assert Length(c, 5) == d.secondsPerMonth by {
      assert FieldOrder[4] == WeeksPerMonth;
    }
    assert Length(c, 6) == d.secondsPerYear by {
      assert FieldOrder[5] == MonthsPerYear;
    }
  }

  /** The conversion table maps each of the seven names to that unit's length. */
  lemma TableMatchesLadder(c: Config, i: nat)
    requires i < |UnitKeys|
    ensures UnitKeys[i] in Derive(c).conversions
    ensures Derive(c).conversions[UnitKeys[i]] == Length(c, i)
  {
    var d := Derive(c);
    DeriveMatchesLadder(c);
    if i == 0 {
    } else if i == 1 {
      assert FieldOrder[0] == SecondsPerMinute;
    } else if i == 2 {
      assert d.conversions["hour"] == d.secondsPerHour;
    } else if i == 3 {
      assert d.conversions["day"] == d.secondsPerDay;
    } else if i == 4 {
      assert d.conversions["week"] == d.secondsPerWeek;
    } else if i == 5 {
      assert d.conversions["month"] == d.secondsPerMonth;
    } else {
      assert d.conversions["year"] == d.secondsPerYear;
    }
  }

  /** Under the invariant, a larger unit is never shorter than a smaller one. */
  lemma {:induction false} LengthMonotone(c: Config, i: nat, j: nat)
    requires c.Valid()
    requires i <= j < |UnitKeys|
    ensures 1.0 <= Length(c, i) <= Length(c, j)
    decreases j - i
  {
    if i < j {
      LengthMonotone(c, i, j - 1);
      ValidGet(c);
      Grows(Length(c, j - 1), c.Get(FieldOrder[j - 1]));
    }
  }

  /** With every field at least 1 the derived chain is non-decreasing. */
  lemma DerivedChainNonDecreasing(c: Config)
    requires c.Valid()
    ensures 1.0 <= c.secondsPerMinute <= Derive(c).secondsPerHour <= Derive(c).secondsPerDay
    ensures Derive(c).secondsPerDay <= Derive(c).secondsPerWeek <= Derive(c).secondsPerMonth
    ensures Derive(c).secondsPerMonth <= Derive(c).secondsPerYear
  {
    DeriveMatchesLadder(c);
    LengthMonotone(c, 1, 2);
    LengthMonotone(c, 2, 3);
    LengthMonotone(c, 3, 4);
    LengthMonotone(c, 4, 5);
    LengthMonotone(c, 5, 6);
  }

  /** The default configuration's counts and its ratio, which is below 1. */
  lemma DefaultsDerived()
    ensures Derive(Defaults).secondsPerHour == 3600.0
    ensures Derive(Defaults).secondsPerDay == 86400.0
    ensures Derive(Defaults).secondsPerWeek == 604800.0
    ensures Derive(Defaults).secondsPerMonth == 2419200.0
    ensures Derive(Defaults).secondsPerYear == 29030400.0
    ensures Derive(Defaults).timeRatio == 29030400.0 / 31557600.0 < 1.0
  {
  }
}
