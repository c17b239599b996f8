/**
 * Conversions between the fan's PWM duty (0..255) and the percentage the
 * integration shows (0..100). Python's `round` rounds half to even; the
 * model works on the exact rational `n / d`, which for the integer inputs
 * the integration passes is what the float expression denotes.
 */
module Pwm {

  /** Python's `round(n / d)`: the nearest integer, ties to the even one. */
  function RoundHalfEven(n: int, d: int): (r: int)
    requires d > 0
    ensures -d <= 2 * (n - r * d) <= d
    ensures 2 * (n - r * d) == d || 2 * (n - r * d) == -d ==> r % 2 == 0
  {
    var q := n / d;
    var rem := n % d;
    if 2 * rem < d then q
    else if 2 * rem > d then q + 1
    else if q % 2 == 0 then q
    else q + 1
  }

  /** A non-zero multiple of a positive `d` is at least `d` away from zero. */
  lemma MulBound(k: int, d: int)
    requires d > 0
    ensures k >= 1 ==> k * d >= d
    ensures k <= -1 ==> k * d <= -d
  {
    if k >= 1 {
      assert k * d == (k - 1) * d + d;
      assert (k - 1) * d >= 0;
    } else if k <= -1 {
      assert k * d == (k + 1) * d - d;
      assert (k + 1) * d <= 0;
    }
  }

  /** The nearest-integer property pins the rounded value down when there is no tie. */
  lemma NearestUnique(n: int, d: int, r: int, s: int)
    requires d > 0
    requires -d < 2 * (n - r * d) < d
    requires -d <= 2 * (n - s * d) <= d
    ensures r == s
  {
    assert (s - r) * d == (n - r * d) - (n - s * d);
    MulBound(s - r, d);
  }

  /** `round(pwm * 100 / 255)`: the percentage shown for a duty. */
  function PwmToPercent(pwm: int): (r: int)
    ensures -255 < 2 * (100 * pwm - 255 * r) < 255
  {
    RoundHalfEven(100 * pwm, 255)
  }

  /** `round(percent * 255 / 100)`: the duty published for a percentage. */
  function PercentToPwm(percent: int): (r: int)
    ensures -100 <= 2 * (255 * percent - 100 * r) <= 100
    ensures 2 * (255 * percent - 100 * r) == 100 || 2 * (255 * percent - 100 * r) == -100 ==> r % 2 == 0
  {
    RoundHalfEven(255 * percent, 100)
  }

  /** A percentage survives the trip to PWM and back: the slider shows what was set. */
  lemma PercentRoundTrip(percent: int)
    ensures PwmToPercent(PercentToPwm(percent)) == percent
  {
    var p := PercentToPwm(percent);
    var r := PwmToPercent(p);
    assert -255 < 2 * (100 * p - 255 * percent) < 255;
    NearestUnique(100 * p, 255, percent, r);
  }

  /** Both conversions keep their ranges. */
  lemma Ranges(percent: int, pwm: int)
    ensures 0 <= percent <= 100 ==> 0 <= PercentToPwm(percent) <= 255
    ensures 0 <= pwm <= 255 ==> 0 <= PwmToPercent(pwm) <= 100
  {
  }

  /** Ties round to even: 10 % is duty 26 (25.5), 30 % is duty 76 (76.5). */
  lemma EvenTies()
    ensures PercentToPwm(10) == 26 && PercentToPwm(30) == 76 && PercentToPwm(50) == 128
  {
  }

  /** The default duties of the curve in percent: 204 is 80 %, 255 is 100 %, 128 is 50 %. */
  lemma DefaultDuties()
    ensures PwmToPercent(204) == 80 && PwmToPercent(255) == 100 && PwmToPercent(128) == 50
  {
  }

  /** A larger duty never shows a smaller percentage. */
  lemma PwmToPercentMonotone(a: int, b: int)
    requires a <= b
    ensures PwmToPercent(a) <= PwmToPercent(b)
  {
  }
}
