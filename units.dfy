// Weight and waist unit conversion, over the reals (no floating-point rounding).

module Units {
  import opened Models

  const LbPerKg: real := 2.2046226218
  const CmPerIn: real := 2.54

  function LbToKg(pounds: real): (kg: real)
    ensures kg * LbPerKg == pounds
  {
    pounds / LbPerKg
  }

  function KgToLb(kg: real): (pounds: real)
    ensures pounds / LbPerKg == kg
  {
    kg * LbPerKg
  }

  function InToCm(inches: real): (cm: real)
    ensures cm / CmPerIn == inches
  {
    inches * CmPerIn
  }

  function CmToIn(cm: real): (inches: real)
    ensures inches * CmPerIn == cm
  {
    cm / CmPerIn
  }

  /** A weight in `unit` expressed in kilograms. */
  function NormalizeWeight(value: real, unit: WeightUnit): (kg: real)
    ensures unit == KG ==> kg == value
    ensures unit == LB ==> KgToLb(kg) == value
  {
    match unit
    case KG => value
    case LB => LbToKg(value)
  }

  /** A waist in `unit` expressed in centimetres. */
  function NormalizeWaist(value: real, unit: LengthUnit): (cm: real)
    ensures unit == CM ==> cm == value
    ensures unit == IN ==> CmToIn(cm) == value
  {
    match unit
    case CM => value
    case IN => InToCm(value)
  }

  /** A weight in kilograms expressed in `unit`. */
  function WeightFromKg(kg: real, unit: WeightUnit): (value: real)
    ensures unit == KG ==> value == kg
    ensures unit == LB ==> LbToKg(value) == kg
  {
    match unit
    case KG => kg
    case LB => KgToLb(kg)
  }

  /** A waist in centimetres expressed in `unit`. */
  function WaistFromCm(cm: real, unit: LengthUnit): (value: real)
    ensures unit == CM ==> value == cm
    ensures unit == IN ==> InToCm(value) == cm
  {
    match unit
    case CM => cm
    case IN => CmToIn(cm)
  }

  lemma WeightRoundTrips(x: real, unit: WeightUnit)
    ensures NormalizeWeight(WeightFromKg(x, unit), unit) == x
    ensures WeightFromKg(NormalizeWeight(x, unit), unit) == x
  {
  }

  lemma WaistRoundTrips(x: real, unit: LengthUnit)
    ensures NormalizeWaist(WaistFromCm(x, unit), unit) == x
    ensures WaistFromCm(NormalizeWaist(x, unit), unit) == x
  {
  }

  /** Every conversion preserves strict order, because both constants are positive. */
  lemma ConversionsMonotone(x: real, y: real, w: WeightUnit, l: LengthUnit)
    requires x < y
    ensures NormalizeWeight(x, w) < NormalizeWeight(y, w)
    ensures WeightFromKg(x, w) < WeightFromKg(y, w)
    ensures NormalizeWaist(x, l) < NormalizeWaist(y, l)
    ensures WaistFromCm(x, l) < WaistFromCm(y, l)
  {
  }
}
