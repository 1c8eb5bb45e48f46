/**
 * RGB colours with a `special` tag (src/color.h).
 *
 * `special` is 0 for a matte surface, a reflectivity weight in (0, 1] for a
 * reflective one and 2 for the checkerboard floor. Every arithmetic
 * operation keeps the receiver's tag and ignores its argument's.
 */
module Colors {

  datatype Color = Color(red: real, green: real, blue: real, special: real) {

    /** Every channel lies in [0, 1]. */
    predicate InUnit() {
      0.0 <= red <= 1.0 && 0.0 <= green <= 1.0 && 0.0 <= blue <= 1.0
    }

    /** The mean of the three channels. */
    function Brightness(): (b: real)
      ensures InUnit() ==> 0.0 <= b <= 1.0
    {
      (red + green + blue) / 3.0
    }

    function ColorScalar(s: real): (r: Color)
      ensures r.special == special
      ensures r.Brightness() == s * Brightness()
    {
      Color(red * s, green * s, blue * s, special)
    }

    function ColorAdd(c: Color): (r: Color)
      ensures r.special == special
      ensures r.Brightness() == Brightness() + c.Brightness()
    {
      Color(red + c.red, green + c.green, blue + c.blue, special)
    }

    /** Channelwise product: white (1, 1, 1) is its identity on the channels. */
    function ColorMultiply(c: Color): (r: Color)
      ensures r.special == special
      ensures c.red == 1.0 && c.green == 1.0 && c.blue == 1.0 ==> r == this
      ensures InUnit() && c.InUnit() ==> r.InUnit()
    {
      MultiplyInUnit(red, c.red);
      MultiplyInUnit(green, c.green);
      MultiplyInUnit(blue, c.blue);
      Color(red * c.red, green * c.green, blue * c.blue, special)
    }

    function ColorAverage(c: Color): (r: Color)
      ensures r.special == special
      ensures r.Brightness() == (Brightness() + c.Brightness()) / 2.0
      ensures InUnit() && c.InUnit() ==> r.InUnit()
    {
      Color((red + c.red) / 2.0, (green + c.green) / 2.0, (blue + c.blue) / 2.0, special)
    }

    /**
     * When the channels sum to more than 3, each channel first gains the
     * excess weighted by its share of the sum; then each channel is clamped
     * to [0, 1]. The division by the sum only happens when the sum exceeds
     * 3, so it never divides by zero.
     */
    function Clip(): (r: Color)
      ensures r.InUnit()
      ensures r.special == special
      ensures InUnit() ==> r == this
    {
      Redistribute().Clamped()
    }

    /** The first step of `Clip`: spread the light above 3 over the channels. */
    function Redistribute(): (r: Color)
      ensures r.special == special
      ensures red + green + blue <= 3.0 ==> r == this
    {
      var allLight := red + green + blue;
      var excessLight := allLight - 3.0;
      if excessLight > 0.0 then
        Color(red + excessLight * (red / allLight),
              green + excessLight * (green / allLight),
              blue + excessLight * (blue / allLight),
              special)
      else this
    }

    /** The second step of `Clip`: clamp every channel to [0, 1]. */
    function Clamped(): (r: Color)
      ensures r.InUnit() && r.special == special
      ensures InUnit() ==> r == this
    {
      Color(Clamp(red), Clamp(green), Clamp(blue), special)
    }
  }

  /** The colour of a default-constructed Color. */
  const DefaultColor := Color(0.5, 0.5, 0.5, 0.0)

  /** First caps a channel at 1, then raises it to 0. */
  function Clamp(v: real): (r: real)
    ensures 0.0 <= r <= 1.0
    ensures 0.0 <= v <= 1.0 ==> r == v
  {
    var capped := if v > 1.0 then 1.0 else v;
    if capped < 0.0 then 0.0 else capped
  }

  lemma MultiplyInUnit(a: real, b: real)
    ensures 0.0 <= a <= 1.0 && 0.0 <= b <= 1.0 ==> 0.0 <= a * b <= 1.0
  {
    if 0.0 <= a <= 1.0 && 0.0 <= b <= 1.0 {
      assert a * b <= 1.0 * b;
    }
  }

  /** Clipping twice is clipping once. */
  lemma ClipIdempotent(c: Color)
    ensures c.Clip().Clip() == c.Clip()
  {
  }

  /**
   * An over-bright colour with non-negative channels saturates its
   * brightest channel, whichever it is: the redistribution only adds light.
   */
  lemma ClipSaturatesBrightest(c: Color)
    requires 0.0 <= c.red && 0.0 <= c.green && 0.0 <= c.blue
    requires c.red + c.green + c.blue > 3.0
    ensures c.green <= c.red && c.blue <= c.red ==> c.Clip().red == 1.0
    ensures c.red <= c.green && c.blue <= c.green ==> c.Clip().green == 1.0
    ensures c.red <= c.blue && c.green <= c.blue ==> c.Clip().blue == 1.0
  {
    var allLight := c.red + c.green + c.blue;
    var r := c.Redistribute();
    assert r.red == c.red + (allLight - 3.0) * (c.red / allLight);
    assert r.green == c.green + (allLight - 3.0) * (c.green / allLight);
    assert r.blue == c.blue + (allLight - 3.0) * (c.blue / allLight);
    if c.green <= c.red && c.blue <= c.red {
      BrightestSaturates(c.red, allLight);
    }
    if c.red <= c.green && c.blue <= c.green {
      BrightestSaturates(c.green, allLight);
    }
    if c.red <= c.blue && c.green <= c.blue {
      BrightestSaturates(c.blue, allLight);
    }
  }

  /** A channel holding at least a third of a total above 3 ends above 1 after its share of the excess. */
  lemma BrightestSaturates(v: real, allLight: real)
    requires allLight > 3.0 && 3.0 * v >= allLight
    ensures Clamp(v + (allLight - 3.0) * (v / allLight)) == 1.0
  {
    assert 1.0 < v;
    var share := v / allLight;
    assert 0.0 < share;
    PositiveProduct(allLight - 3.0, share);
    var x := v + (allLight - 3.0) * share;
    assert 1.0 < x;
    assert Clamp(x) == 1.0;
  }

  lemma PositiveProduct(a: real, b: real)
    requires 0.0 < a && 0.0 < b
    ensures 0.0 < a * b
  {
  }

  /**
   * A Color object in storage: `clip` and the setters assign its fields in
   * place.
   */
  class ColorCell {
    var red: real
    var green: real
    var blue: real
    var special: real

    function Value(): Color
      reads this
    {
      Color(red, green, blue, special)
    }

    constructor (c: Color)
      ensures Value() == c
    {
      red, green, blue, special := c.red, c.green, c.blue, c.special;
    }

    method SetColorRed(redValue: real)
      modifies this
      ensures Value() == old(Value()).(red := redValue)
    {
      red := redValue;
    }

    method SetColorGreen(greenValue: real)
      modifies this
      ensures Value() == old(Value()).(green := greenValue)
    {
      green := greenValue;
    }

    method SetColorBlue(blueValue: real)
      modifies this
      ensures Value() == old(Value()).(blue := blueValue)
    {
      blue := blueValue;
    }

    method SetColorSpecial(specialValue: real)
      modifies this
      ensures Value() == old(Value()).(special := specialValue)
    {
      special := specialValue;
    }

    /** Clips the stored channels in place and returns a copy of the result. */
    method Clip() returns (r: Color)
      modifies this
      ensures r == old(Value()).Clip()
      ensures Value() == r
    {
      Spread();
      Saturate();
      r := Color(red, green, blue, special);
    }

    /** The first half of `Clip`: the light above 3 spread over the channels. */
    method Spread()
      modifies this
      ensures Value() == old(Value()).Redistribute()
    {
      var allLight := red + green + blue;
      var excessLight := allLight - 3.0;
      if excessLight > 0.0 {
        red := red + excessLight * (red / allLight);
        green := green + excessLight * (green / allLight);
        blue := blue + excessLight * (blue / allLight);
      }
    }

    /** The second half of `Clip`: each channel capped at 1, then raised to 0. */
    method Saturate()
      modifies this
      ensures Value() == old(Value()).Clamped()
    {
      if red > 1.0 { red := 1.0; }
      if green > 1.0 { green := 1.0; }
      if blue > 1.0 { blue := 1.0; }
      if red < 0.0 { red := 0.0; }
      if green < 0.0 { green := 0.0; }
      if blue < 0.0 { blue := 0.0; }
    }
  }
}
