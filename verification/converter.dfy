/** The unit converter: look both selected names up in the conversion table
    and divide. */
module Converter {

  import opened Optional
  import opened TimeUnits
  import opened Derivation

  /** `conversions[fromUnit] / conversions[toUnit]`. A name missing from the
      table reads as `undefined` and the quotient is `NaN`; a zero divisor
      gives no finite number either. Both are `None` here. */
  function Convert(table: map<string, real>, fromUnit: string, toUnit: string): (r: Option<real>)
    ensures r.Some? <==> fromUnit in table && toUnit in table && table[toUnit] != 0.0
    ensures r.Some? ==> r.value * table[toUnit] == table[fromUnit]
  {
    if fromUnit in table && toUnit in table && table[toUnit] != 0.0 then
      Some(table[fromUnit] / table[toUnit])
    else
      None
  }

  /** The conversion the component shows for a configuration and a selection:
      it exists only between unit names, and always between them once every
      field is at least 1. */
  function Conversion(c: Config, fromUnit: string, toUnit: string): (r: Option<real>)
    ensures r.Some? ==> fromUnit in UnitKeys && toUnit in UnitKeys
    ensures c.Valid() && fromUnit in UnitKeys && toUnit in UnitKeys ==> r.Some?
  {
    var table := Derive(c).conversions;
    assert c.Valid() && toUnit in UnitKeys ==> table[toUnit] != 0.0 by {
      if c.Valid() && toUnit in UnitKeys {
        var j :| 0 <= j < |UnitKeys| && UnitKeys[j] == toUnit;
        TableMatchesLadder(c, j);
      }
    }
    Convert(table, fromUnit, toUnit)
  }

  /** Between two of the seven names the conversion is the ratio of the two
      unit lengths, and it is defined whenever the configuration is valid. */
  lemma ConversionOfKeys(c: Config, i: nat, j: nat)
    requires c.Valid()
    requires i < |UnitKeys| && j < |UnitKeys|
    ensures Conversion(c, UnitKeys[i], UnitKeys[j]) == Some(Length(c, i) / Length(c, j))
  {
    TableMatchesLadder(c, i);
    TableMatchesLadder(c, j);
  }

  /** The month-to-day and year-to-week conversions as quotients of derived counts. */
  lemma ConversionOfCalendarUnits(c: Config)
    requires c.Valid()
    ensures Conversion(c, "month", "day") == Some(Derive(c).secondsPerMonth / Derive(c).secondsPerDay)
    ensures Conversion(c, "year", "week") == Some(Derive(c).secondsPerYear / Derive(c).secondsPerWeek)
  {
    DeriveMatchesLadder(c);
    ConversionOfKeys(c, 5, 3);
    ConversionOfKeys(c, 6, 4);
  }

  /** A name outside the seven, such as the initial "hours", gives no result. */
  lemma ConversionOfUnknownName(c: Config, fromUnit: string, toUnit: string)
    requires fromUnit !in UnitKeys || toUnit !in UnitKeys
    ensures Conversion(c, fromUnit, toUnit) == None
  {
  }

  /** On any table, converting a present unit of non-zero length to itself gives 1. */
  lemma ConvertIdentity(table: map<string, real>, unit: string)
    requires unit in table && table[unit] != 0.0
    ensures Convert(table, unit, unit) == Some(1.0)
  {
  }

  /** On any table, converting there and back multiplies to 1. */
  lemma ConvertReciprocal(table: map<string, real>, a: string, b: string)
    requires a in table && b in table && table[a] != 0.0 && table[b] != 0.0
    ensures Convert(table, a, b).Some? && Convert(table, b, a).Some?
    ensures Convert(table, a, b).value * Convert(table, b, a).value == 1.0
  {
    var x, y := table[a], table[b];
    QuotientsCompose(x, y, x);
    assert x / x == 1.0;
  }

  /** On any table, converting through an intermediate unit equals converting directly. */
  lemma ConvertChains(table: map<string, real>, a: string, b: string, e: string)
    requires a in table && b in table && e in table && table[b] != 0.0 && table[e] != 0.0
    ensures Convert(table, a, b).Some? && Convert(table, b, e).Some? && Convert(table, a, e).Some?
    ensures Convert(table, a, b).value * Convert(table, b, e).value == Convert(table, a, e).value
  {
    QuotientsCompose(table[a], table[b], table[e]);
  }

  /** Converting a unit to itself gives 1. */
  lemma ConversionIdentity(c: Config, i: nat)
    requires c.Valid()
    requires i < |UnitKeys|
    ensures Conversion(c, UnitKeys[i], UnitKeys[i]) == Some(1.0)
  {
    TableMatchesLadder(c, i);
    ConvertIdentity(Derive(c).conversions, UnitKeys[i]);
  }

  /** Converting there and back multiplies to 1. */
  lemma ConversionReciprocal(c: Config, i: nat, j: nat)
    requires c.Valid()
    requires i < |UnitKeys| && j < |UnitKeys|
    ensures Conversion(c, UnitKeys[i], UnitKeys[j]).Some?
    ensures Conversion(c, UnitKeys[j], UnitKeys[i]).Some?
    ensures Conversion(c, UnitKeys[i], UnitKeys[j]).value
            * Conversion(c, UnitKeys[j], UnitKeys[i]).value == 1.0
  {
    TableMatchesLadder(c, i);
    TableMatchesLadder(c, j);
    ConvertReciprocal(Derive(c).conversions, UnitKeys[i], UnitKeys[j]);
  }

  /** Converting through an intermediate unit is the same as converting directly. */
  lemma ConversionChains(c: Config, i: nat, j: nat, k: nat)
    requires c.Valid()
    requires i < |UnitKeys| && j < |UnitKeys| && k < |UnitKeys|
    ensures Conversion(c, UnitKeys[i], UnitKeys[j]).Some?
    ensures Conversion(c, UnitKeys[j], UnitKeys[k]).Some?
    ensures Conversion(c, UnitKeys[i], UnitKeys[k]).Some?
    ensures Conversion(c, UnitKeys[i], UnitKeys[j]).value * Conversion(c, UnitKeys[j], UnitKeys[k]).value
            == Conversion(c, UnitKeys[i], UnitKeys[k]).value
  {
    TableMatchesLadder(c, i);
    TableMatchesLadder(c, j);
    TableMatchesLadder(c, k);
    ConvertChains(Derive(c).conversions, UnitKeys[i], UnitKeys[j], UnitKeys[k]);
  }

  /** One unit of the next larger kind converts to exactly the configured
      count of the smaller one: the meaning of each field. */
  lemma ConversionOfAdjacentUnits(c: Config, i: nat)
    requires c.Valid()
    requires i + 1 < |UnitKeys|
    ensures Conversion(c, UnitKeys[i + 1], UnitKeys[i]) == Some(c.Get(FieldOrder[i]))
  {
    var a, b, f := Length(c, i), Length(c, i + 1), c.Get(FieldOrder[i]);
    assert b == a * f;
    QuotientOfProduct(a, f);
    ConversionOfKeys(c, i + 1, i);
  }

  lemma QuotientsCompose(a: real, b: real, e: real)
    requires b != 0.0 && e != 0.0
    ensures (a / b) * (b / e) == a / e
  {
    assert (a / b) * b == a;
    assert (b / e) * e == b;
    assert ((a / b) * (b / e)) * e == (a / b) * b;
  }

  lemma QuotientOfProduct(a: real, f: real)
    requires a != 0.0
    ensures (a * f) / a == f
  {
  }

  /** Under the defaults one day is 24 hours, and the initial selection
      ("day" to "hours") has no result. */
  lemma DefaultConversions()
    ensures Conversion(Defaults, "day", "hour") == Some(24.0)
    ensures Conversion(Defaults, "day", "hours") == None
  {
    DefaultsDerived();
  }
}
