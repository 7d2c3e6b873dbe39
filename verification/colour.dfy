/**
 The progress bar of `updateBar`: how far through the work period the clock
 is, how wide the bar is drawn, and its colour — green through yellow to red
 while the period runs, then red fading to deep purple over the first ten
 minutes of overtime. Arithmetic is over the reals, so the double-precision
 rounding of the script is abstracted away; every formula is a linear
 interpolation between rational end points.
 */
module Colour {

  /** One `rgb(r,g,b)` CSS colour as the script writes it (channels are not clamped). */
  datatype Rgb = Rgb(r: int, g: int, b: int)

  /** The bar as one update draws it: width in percent, colour, overtime panel shown. */
  datatype Bar = Bar(width: real, colour: Rgb, overtime: bool)

  /** Seconds of overtime over which the colour moves from red to purple. */
  const FadeSeconds: real := 600.0

  const Red: Rgb := Rgb(255, 0, 0)
  const Yellow: Rgb := Rgb(255, 255, 0)
  const DeepPurple: Rgb := Rgb(75, 0, 110)

  /** `Math.round(x)`: the nearest integer, halves rounded up. */
  function Round(x: real): (n: int)
    ensures n as real - 0.5 <= x < n as real + 0.5
  {
    (x + 0.5).Floor
  }

  /** `Math.min(elapsed / workDuration, 1)`: the fraction of the work period gone, capped at one. */
  function Progress(elapsed: real, duration: int): (p: real)
    requires duration > 0
    ensures p <= 1.0
    ensures p == 1.0 <==> elapsed >= duration as real
    ensures p < 1.0 ==> p * duration as real == elapsed
    ensures elapsed < 0.0 <==> p < 0.0
  {
    var q := elapsed / duration as real;
    if q < 1.0 then q else 1.0
  }

  /** Colour during the work period: red rises to meet green at yellow, then green falls. */
  function WorkColour(p: real): (c: Rgb)
    ensures c.b == 0
    ensures p < 0.5 ==> c.g == 255 && c.r as real - 0.5 <= 510.0 * p < c.r as real + 0.5
    ensures 0.0 <= p < 0.5 ==> 0 <= c.r <= 255
    ensures 0.5 <= p ==> c.r == 255 && 0 <= c.g <= 255
    ensures 0.5 <= p < 1.0 ==> c.g as real - 0.5 <= 255.0 - 510.0 * (p - 0.5) < c.g as real + 0.5
  {
    if p < 0.5 then
      Rgb(Round(510.0 * p), 255, 0)
    else
      var g := Round(255.0 - 510.0 * (p - 0.5));
      Rgb(255, if g > 0 then g else 0, 0)
  }

  /** Red never falls while the work period runs. */
  lemma RedNonDecreasing(p: real, q: real)
    requires p <= q
    ensures WorkColour(p).r <= WorkColour(q).r
  {
  }

  /** Green never rises while the work period runs. */
  lemma GreenNonIncreasing(p: real, q: real)
    requires p <= q
    ensures WorkColour(q).g <= WorkColour(p).g
  {
  }

  /** `Math.min(overtime / 600, 1)`: how far the fade to purple has gone. */
  function FadeFraction(overtime: real): (t: real)
    ensures t <= 1.0
    ensures 0.0 <= overtime ==> 0.0 <= t
    ensures overtime >= FadeSeconds <==> t == 1.0
    ensures overtime < FadeSeconds ==> t * FadeSeconds == overtime
  {
    var q := overtime / FadeSeconds;
    if q < 1.0 then q else 1.0
  }

  /** Colour in overtime: red at the moment the period ends, deep purple ten minutes later. */
  function OvertimeColour(overtime: real): (c: Rgb)
    ensures c.g == 0
    ensures 0.0 <= overtime ==> 75 <= c.r <= 255 && 0 <= c.b <= 110
    ensures overtime == 0.0 ==> c == Red
    ensures overtime >= FadeSeconds ==> c == DeepPurple
    ensures var t := FadeFraction(overtime);
      && c.r as real - 0.5 <= 255.0 * (1.0 - t) + 75.0 * t < c.r as real + 0.5
      && c.b as real - 0.5 <= 110.0 * t < c.b as real + 0.5
  {
    var t := FadeFraction(overtime);
    Rgb(Round(255.0 * (1.0 - t) + 75.0 * t), Round(0.0 * (1.0 - t) + 0.0 * t), Round(0.0 * (1.0 - t) + 110.0 * t))
  }

  /** The longer the overtime, the less red and the more blue. */
  lemma OvertimeFades(o1: real, o2: real)
    requires o1 <= o2
    ensures OvertimeColour(o2).r <= OvertimeColour(o1).r
    ensures OvertimeColour(o1).b <= OvertimeColour(o2).b
  {
  }

  /**
   The drawing half of `updateBar` for `elapsed` seconds into a period of
   `duration` seconds: overtime exactly when the period is used up, and then a
   full bar fading from red to purple; otherwise a bar as wide as the progress.
   */
  function Render(elapsed: real, duration: int): (bar: Bar)
    requires duration > 0
    ensures bar.width <= 100.0
    ensures 0.0 <= elapsed ==> 0.0 <= bar.width
    ensures bar.overtime <==> elapsed >= duration as real
    ensures bar.overtime ==> bar.width == 100.0 && bar.colour.g == 0
    ensures bar.overtime ==> 75 <= bar.colour.r <= 255 && 0 <= bar.colour.b <= 110
    ensures !bar.overtime ==> bar.width * duration as real == 100.0 * elapsed && bar.colour.b == 0
    ensures !bar.overtime && 0.0 <= elapsed ==> 0 <= bar.colour.r <= 255 && 0 <= bar.colour.g <= 255
    ensures !bar.overtime ==> bar.colour == WorkColour(elapsed / duration as real)
    ensures bar.overtime ==> bar.colour == OvertimeColour(elapsed - duration as real)
  {
    var percent := Progress(elapsed, duration);
    var width := percent * 100.0;
    if percent < 1.0 then
      Bar(width, WorkColour(percent), false)
    else
      Bar(width, OvertimeColour(elapsed - duration as real), true)
  }

  /**
   With a start time in the future the bar is not clamped: its width is
   negative, and once the progress is below -1/1020 so is its red channel.
   */
  lemma EarlyBarIsNegative(elapsed: real, duration: int)
    requires duration > 0 && elapsed < 0.0
    ensures Render(elapsed, duration).width < 0.0
    ensures !Render(elapsed, duration).overtime
    ensures elapsed * 1020.0 < -(duration as real) ==> Render(elapsed, duration).colour.r < 0
  {
    var d := duration as real;
    var p := Progress(elapsed, duration);
    if elapsed * 1020.0 < -d {
      assert p * d == elapsed;
      assert p * 1020.0 * d < -d;
      assert p * 1020.0 < -1.0;
    }
  }

  /**
   A working day started at 09:00 with an eight-hour period.
   At 13:00 it is half-way and yellow; at 17:05 it is five minutes over and
   half-way to purple; at 17:10 and later it is deep purple.
   */
  lemma RenderScenarios()
    ensures Render(14400.0, 28800) == Bar(50.0, Yellow, false)
    ensures Render(29100.0, 28800) == Bar(100.0, Rgb(165, 0, 55), true)
    ensures Render(28800.0, 28800).colour == Red
    ensures Render(40000.0, 28800).colour == DeepPurple
  {
  }
}
