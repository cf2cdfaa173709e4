/** The component's mutable state: the configuration record and the two
    converter selections, each replaced one at a time by its handler. */
module Component {

  import opened Optional
  import opened TimeUnits
  import opened Derivation
  import opened Converter

  class TimeConfigState {
    var timeUnits: Config
    var fromUnit: string
    var toUnit: string

    /** Every stored field is at least 1. */
    predicate Valid()
      reads this
    {
      timeUnits.Valid()
    }

    /** The initial state: default fields, converting from "day" to "hours". */
    constructor ()
      ensures Valid()
      ensures timeUnits == Defaults && fromUnit == "day" && toUnit == "hours"
    {
      timeUnits := Defaults;
      fromUnit := "day";
      toUnit := "hours";
    }

    /** An edit of input `id` whose text parsed to `parsed` (`None` for NaN):
        the field is set to the clamped number and nothing else changes. */
    method HandleChange(id: Field, parsed: Option<real>)
      requires Valid()
      modifies this
      ensures Valid()
      ensures timeUnits == Update(old(timeUnits), id, parsed)
      ensures timeUnits.Get(id) == Clamp(parsed) >= 1.0
      ensures forall g :: g != id ==> timeUnits.Get(g) == old(timeUnits).Get(g)
      ensures fromUnit == old(fromUnit) && toUnit == old(toUnit)
    {
      var numValue := Clamp(parsed);
      timeUnits := timeUnits.With(id, numValue);
    }

    method SetFromUnit(unit: string)
      requires Valid()
      modifies this
      ensures Valid()
      ensures fromUnit == unit && toUnit == old(toUnit) && timeUnits == old(timeUnits)
    {
      fromUnit := unit;
    }

    method SetToUnit(unit: string)
      requires Valid()
      modifies this
      ensures Valid()
      ensures toUnit == unit && fromUnit == old(fromUnit) && timeUnits == old(timeUnits)
    {
      toUnit := unit;
    }

    /** The memoised derivation of the current configuration. */
    function Calculations(): (d: Derived)
      reads this
      requires Valid()
      ensures d.timeRatio > 0.0
      ensures 1.0 <= d.secondsPerHour <= d.secondsPerDay <= d.secondsPerWeek
      ensures d.secondsPerWeek <= d.secondsPerMonth <= d.secondsPerYear
    {
      DerivedChainNonDecreasing(timeUnits);
      StandardSecondsPerYearValue();
      Derive(timeUnits)
    }

    /** The number shown by the converter; it exists exactly when both
        selections are unit names. */
    function CurrentConversion(): (r: Option<real>)
      reads this
      requires Valid()
      ensures r.Some? <==> fromUnit in UnitKeys && toUnit in UnitKeys
      ensures fromUnit == toUnit && r.Some? ==> r.value == 1.0
    {
      if fromUnit in UnitKeys && toUnit in UnitKeys then
        var i :| 0 <= i < |UnitKeys| && UnitKeys[i] == fromUnit;
        var j :| 0 <= j < |UnitKeys| && UnitKeys[j] == toUnit;
        ConversionOfKeys(timeUnits, i, j);
        ConversionIdentity(timeUnits, i);
        Conversion(timeUnits, fromUnit, toUnit)
      else
        ConversionOfUnknownName(timeUnits, fromUnit, toUnit);
        Conversion(timeUnits, fromUnit, toUnit)
    }
  }

  /** A session: the initial selection gives no number (the page shows NaN, and
      the model returns None), choosing "hour" shows 24,
      and a 30-hour day makes a day 30 hours long while a minute stays 60 seconds. */
  method Session()
  {
    var state := new TimeConfigState();
    var shown := state.CurrentConversion();
    assert "hours" !in UnitKeys;
    assert shown == None;
    state.SetToUnit("hour");
    shown := state.CurrentConversion();
    DefaultConversions();
    assert shown == Some(24.0);
    state.HandleChange(HoursPerDay, Some(30.0));
    assert state.timeUnits.hoursPerDay == 30.0;
    assert state.timeUnits.secondsPerMinute == 60.0;
    state.HandleChange(DaysPerWeek, None);
    assert state.timeUnits.daysPerWeek == 1.0;
  }
}
