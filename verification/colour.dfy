/**
 The first half of `get_color_from_temperature`: a temperature is placed
 linearly between the extremes and turned into a hue running from 0.66
 (blue, coldest) down to 0 (red, hottest). The division by the width of the
 range raises `ZeroDivisionError` when the extremes are equal. Saturation
 and value are the fixed 0.9 and 0.95; the HSV-to-RGB conversion that
 follows is not part of this model.
 */
module Colour {

  /** A computation that may raise `ZeroDivisionError`. */
  datatype Checked<T> = Ok(value: T) | ZeroDivisionError

  const ColdHue: real := 0.66
  const Saturation: real := 0.9
  const Brightness: real := 0.95

  /** The colour handed to `colorsys.hsv_to_rgb`. */
  datatype Hsv = Hsv(h: real, s: real, v: real)

  /** `(temp - min_temp) / (max_temp - min_temp)`: the fraction of the way
      from the minimum to the maximum. */
  function Normalize(temp: real, minTemp: real, maxTemp: real): (r: Checked<real>)
    ensures r.ZeroDivisionError? <==> minTemp == maxTemp
    ensures r.Ok? ==> r.value * (maxTemp - minTemp) == temp - minTemp
    ensures minTemp < maxTemp && minTemp <= temp <= maxTemp ==> r.Ok? && 0.0 <= r.value <= 1.0
    ensures minTemp != maxTemp && temp == minTemp ==> r == Ok(0.0)
    ensures minTemp != maxTemp && temp == maxTemp ==> r == Ok(1.0)
  {
    if maxTemp - minTemp == 0.0 then ZeroDivisionError
    else
      var q := (temp - minTemp) / (maxTemp - minTemp);
      QuotientProperties(temp - minTemp, maxTemp - minTemp);
      Ok(q)
  }

  /** The facts about `a / w` that the hue depends on. */
  lemma {:induction false} QuotientProperties(a: real, w: real)
    requires w != 0.0
    ensures (a / w) * w == a
    ensures a == w ==> a / w == 1.0
    ensures a == 0.0 ==> a / w == 0.0
    ensures 0.0 < w && 0.0 <= a <= w ==> 0.0 <= a / w <= 1.0
  {
    var q := a / w;
    assert q * w == a;
    if 0.0 < w && 0.0 <= a <= w {
      assert (1.0 - q) * w == w - a;
      NonNegativeFactor(q, w);
      NonNegativeFactor(1.0 - q, w);
    }
  }

  lemma {:induction false} NonNegativeFactor(x: real, y: real)
    requires 0.0 < y && 0.0 <= x * y
    ensures 0.0 <= x
  {
  }

  /** `0.66 - normalized_temp * 0.66`: within the range, the hue runs from
      0.66 at the minimum down to 0 at the maximum. */
  function Hue(temp: real, minTemp: real, maxTemp: real): (r: Checked<real>)
    ensures r.ZeroDivisionError? <==> minTemp == maxTemp
    ensures minTemp < maxTemp && minTemp <= temp <= maxTemp ==> r.Ok? && 0.0 <= r.value <= ColdHue
    ensures minTemp != maxTemp && temp == minTemp ==> r == Ok(ColdHue)
    ensures minTemp != maxTemp && temp == maxTemp ==> r == Ok(0.0)
  {
    match Normalize(temp, minTemp, maxTemp)
    case ZeroDivisionError => ZeroDivisionError
    case Ok(t) => Ok(ColdHue - t * ColdHue)
  }

  /** A warmer temperature gets a strictly smaller (redder) hue. */
  lemma {:induction false} HueStrictlyDecreasing(t1: real, t2: real, minTemp: real, maxTemp: real)
    requires minTemp < maxTemp
    requires t1 < t2
    ensures Hue(t2, minTemp, maxTemp).value < Hue(t1, minTemp, maxTemp).value
  {
    var w := maxTemp - minTemp;
    var n1, n2 := (t1 - minTemp) / w, (t2 - minTemp) / w;
    assert n1 * w == t1 - minTemp && n2 * w == t2 - minTemp;
    assert (n2 - n1) * w == t2 - t1;
    assert n1 < n2;
  }

  /** The temperature a hue stands for, given distinct extremes. */
  function TempOfHue(h: real, minTemp: real, maxTemp: real): real
    requires minTemp != maxTemp
  {
    minTemp + (ColdHue - h) / ColdHue * (maxTemp - minTemp)
  }

  /** With distinct extremes the hue loses no information: it determines the
      temperature it came from. */
  lemma {:induction false} HueRoundTrip(temp: real, minTemp: real, maxTemp: real)
    requires minTemp != maxTemp
    ensures Hue(temp, minTemp, maxTemp).Ok?
    ensures TempOfHue(Hue(temp, minTemp, maxTemp).value, minTemp, maxTemp) == temp
  {
    var w := maxTemp - minTemp;
    var t := (temp - minTemp) / w;
    assert t * w == temp - minTemp;
    assert (ColdHue - (ColdHue - t * ColdHue)) / ColdHue == t;
  }

  /** The HSV triple of a temperature. */
  function ColourOf(temp: real, minTemp: real, maxTemp: real): (r: Checked<Hsv>)
    ensures r.ZeroDivisionError? <==> minTemp == maxTemp
    ensures r.Ok? ==> Hue(temp, minTemp, maxTemp) == Ok(r.value.h)
    ensures r.Ok? ==> r.value.s == Saturation && r.value.v == Brightness
  {
    match Hue(temp, minTemp, maxTemp)
    case ZeroDivisionError => ZeroDivisionError
    case Ok(h) => Ok(Hsv(h, Saturation, Brightness))
  }
}
