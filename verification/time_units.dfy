/** The six-field time-unit configuration of the TimeConfig component, its
    defaults, and the clamped single-field update that the numeric inputs
    perform. */
module TimeUnits {

  import opened Optional

  /** One configurable field: how many of a smaller unit make the next larger one. */
  datatype Field =
    | SecondsPerMinute
    | MinutesPerHour
    | HoursPerDay
    | DaysPerWeek
    | WeeksPerMonth
    | MonthsPerYear

  /** The fields in declaration order, smallest unit first. */
  const FieldOrder: seq<Field> :=
    [SecondsPerMinute, MinutesPerHour, HoursPerDay, DaysPerWeek, WeeksPerMonth, MonthsPerYear]

  /** The property name of a field in the component's state object. */
  function FieldKey(f: Field): string
  {
    match f
    case SecondsPerMinute => "secondsPerMinute"
    case MinutesPerHour => "minutesPerHour"
    case HoursPerDay => "hoursPerDay"
    case DaysPerWeek => "daysPerWeek"
    case WeeksPerMonth => "weeksPerMonth"
    case MonthsPerYear => "monthsPerYear"
  }

  /** The configuration record. Values are reals because a fractional input
      such as 1.5 is stored as it is. */
  datatype Config = Config(
    secondsPerMinute: real,
    minutesPerHour: real,
    hoursPerDay: real,
    daysPerWeek: real,
    weeksPerMonth: real,
    monthsPerYear: real)
  {
    function Get(f: Field): real
    {
      match f
      case SecondsPerMinute => secondsPerMinute
      case MinutesPerHour => minutesPerHour
      case HoursPerDay => hoursPerDay
      case DaysPerWeek => daysPerWeek
      case WeeksPerMonth => weeksPerMonth
      case MonthsPerYear => monthsPerYear
    }

    /** The record with field `f` replaced by `v` (`{ ...prev, [id]: v }`). */
    function With(f: Field, v: real): (r: Config)
      ensures r.Get(f) == v
      ensures forall g :: g != f ==> r.Get(g) == Get(g)
    {
      match f
      case SecondsPerMinute => this.(secondsPerMinute := v)
      case MinutesPerHour => this.(minutesPerHour := v)
      case HoursPerDay => this.(hoursPerDay := v)
      case DaysPerWeek => this.(daysPerWeek := v)
      case WeeksPerMonth => this.(weeksPerMonth := v)
      case MonthsPerYear => this.(monthsPerYear := v)
    }

    /** Every field is at least 1: what the clamp keeps true. */
    predicate Valid()
    {
      && secondsPerMinute >= 1.0
      && minutesPerHour >= 1.0
      && hoursPerDay >= 1.0
      && daysPerWeek >= 1.0
      && weeksPerMonth >= 1.0
      && monthsPerYear >= 1.0
    }
  }

  /** The initial state: 60 / 60 / 24 / 7 / 4 / 12. */
  const Defaults: Config := Config(60.0, 60.0, 24.0, 7.0, 4.0, 12.0)

  lemma ValidGet(c: Config)
    requires c.Valid()
    ensures forall f :: c.Get(f) >= 1.0
  {
    forall f ensures c.Get(f) >= 1.0 {
      match f
      case SecondsPerMinute =>
      case MinutesPerHour =>
      case HoursPerDay =>
      case DaysPerWeek =>
      case WeeksPerMonth =>
      case MonthsPerYear =>
    }
  }

  lemma DefaultsValid()
    ensures Defaults.Valid()
  {
  }

  /** JavaScript's `Number(value) || 1`: the parsed number, unless it is NaN
      (`None`) or zero, both of which are falsy. */
  function NumberOrOne(parsed: Option<real>): (r: real)
    ensures r != 0.0
    ensures r == 1.0 || parsed == Some(r)
    ensures parsed.Some? && parsed.value != 0.0 ==> r == parsed.value
  {
    match parsed
    case None => 1.0
    case Some(x) => if x == 0.0 then 1.0 else x
  }

  function Max(a: real, b: real): real
  {
    if a >= b then a else b
  }

  /** The value stored by the input handler: `Math.max(Number(value) || 1, 1)`. */
  function Clamp(parsed: Option<real>): (r: real)
    ensures r >= 1.0
    ensures parsed.Some? && parsed.value >= 1.0 ==> r == parsed.value
    ensures parsed.None? || parsed.value < 1.0 ==> r == 1.0
  {
    Max(NumberOrOne(parsed), 1.0)
  }

  /** Clamping a stored value again leaves it as it is. */
  lemma ClampIdempotent(parsed: Option<real>)
    ensures Clamp(Some(Clamp(parsed))) == Clamp(parsed)
  {
  }

  /** Unparsable text, the empty input (which parses to 0), zero and negative
      numbers are all stored as 1; a fraction at or above 1 is kept. */
  lemma ClampExamples()
    ensures Clamp(None) == 1.0
    ensures Clamp(Some(0.0)) == 1.0
    ensures Clamp(Some(-5.0)) == 1.0
    ensures Clamp(Some(0.5)) == 1.0
    ensures Clamp(Some(1.5)) == 1.5
  {
  }

  /** The state change of one input event on field `f`. */
  function Update(c: Config, f: Field, parsed: Option<real>): (r: Config)
    ensures r.Get(f) == Clamp(parsed)
    ensures forall g :: g != f ==> r.Get(g) == c.Get(g)
    ensures c.Valid() ==> r.Valid()
  {
    var r := c.With(f, Clamp(parsed));
    assert c.Valid() ==> r.Valid() by {
      if c.Valid() {
        ValidGet(c);
        assert forall g :: r.Get(g) >= 1.0;
        assert r.Get(SecondsPerMinute) >= 1.0 && r.Get(MinutesPerHour) >= 1.0;
        assert r.Get(HoursPerDay) >= 1.0 && r.Get(DaysPerWeek) >= 1.0;
        assert r.Get(WeeksPerMonth) >= 1.0 && r.Get(MonthsPerYear) >= 1.0;
      }
    }
    r
  }

  /** Repeating the same input event changes nothing further. */
  lemma UpdateIdempotent(c: Config, f: Field, parsed: Option<real>)
    ensures Update(Update(c, f, parsed), f, parsed) == Update(c, f, parsed)
  {
  }

  /** A later edit of the same field overrides an earlier one completely. */
  lemma UpdateOverrides(c: Config, f: Field, p: Option<real>, q: Option<real>)
    ensures Update(Update(c, f, p), f, q) == Update(c, f, q)
  {
  }
}
