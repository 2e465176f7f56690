/** Construction of one region's synthetic day-ahead series: 24 hourly points whose
    price follows a sinusoidal daily shape multiplied by a random jitter.

    The two non-deterministic ingredients of the generator are inputs here:
    - `s` stands for the value of the sine of the hour's phase, sin((hour - 6) * pi / 12),
      which lies in [-1, 1];
    - `u` stands for the uniform random draw, which lies in [0, 1).
    Prices are unrounded reals; the two-decimal formatting is not modelled. */
module PriceSeries {

  /** Number of hourly points in a day. */
  const Hours: nat := 24

  const Currency: string := "EUR"
  const Unit: string := "MWh"

  /** One hourly entry of a series. The timestamp is not modelled. */
  datatype PricePoint = PricePoint(hour: int, price: real, currency: string, unit: string)

  /** A complete day: one point per hour, each point's hour equal to its position,
      all quoted in EUR per MWh. */
  ghost predicate IsDaySeries(ps: seq<PricePoint>)
  {
    && |ps| == Hours
    && (forall h :: 0 <= h < |ps| ==> ps[h].hour == h)
    && (forall h :: 0 <= h < |ps| ==> ps[h].currency == Currency && ps[h].unit == Unit)
  }

  /** The per-hour sine values a generator may receive. */
  ghost predicate ValidSines(sines: seq<real>)
  {
    |sines| == Hours && forall h :: 0 <= h < |sines| ==> -1.0 <= sines[h] <= 1.0
  }

  /** The per-hour random draws a generator may receive. */
  ghost predicate ValidRandoms(randoms: seq<real>)
  {
    |randoms| == Hours && forall h :: 0 <= h < |randoms| ==> 0.0 <= randoms[h] < 1.0
  }

  /** Daily shape factor from the sine of the hour's phase. */
  function Shape(s: real): (f: real)
    ensures -1.0 <= s <= 1.0 ==> 0.4 <= f <= 1.0
    ensures s == 0.0 ==> f == 0.7
  {
    s * 0.3 + 0.7
  }

  /** Multiplicative jitter from a uniform draw. */
  function Jitter(u: real): (f: real)
    ensures 0.0 <= u < 1.0 ==> 0.9 <= f < 1.1
    ensures u == 0.5 ==> f == 1.0
  {
    u * 0.2 + 0.9
  }

  /** a * b <= a * c for a non-negative a and b <= c; strict when a > 0 and b < c. */
  lemma MulMonotone(a: real, b: real, c: real)
    requires 0.0 <= a && b <= c
    ensures a * b <= a * c
    ensures 0.0 < a && b < c ==> a * b < a * c
  {
    assert a * c - a * b == a * (c - b);
  }

  /** A shape factor in [0.4, 1] times a jitter in [0.9, 1.1) lies in [0.36, 1.1). */
  lemma FactorProductBounds(f: real, j: real)
    requires 0.4 <= f <= 1.0 && 0.9 <= j < 1.1
    ensures 0.36 <= f * j < 1.1
  {
    MulMonotone(j, 0.4, f);
    assert 0.36 <= j * 0.4 <= j * f;
    MulMonotone(j, f, 1.0);
    assert j * f <= j < 1.1;
  }

  /** Unrounded price of one hour: min + (max - min) * shape * jitter. With the envelope
      ordered and the factors in their ranges it never falls below `min`. */
  function HourlyPrice(min: real, max: real, s: real, u: real): (p: real)
    ensures min <= max && -1.0 <= s <= 1.0 && 0.0 <= u < 1.0 ==> min <= p
  {
    if min <= max && -1.0 <= s <= 1.0 && 0.0 <= u < 1.0 then
      FactorProductBounds(Shape(s), Jitter(u));
      MulMonotone(max - min, 0.0, Shape(s) * Jitter(u));
      assert (max - min) * Shape(s) * Jitter(u) == (max - min) * (Shape(s) * Jitter(u));
      min + (max - min) * Shape(s) * Jitter(u)
    else
      min + (max - min) * Shape(s) * Jitter(u)
  }

  /** With min <= max, the price lies in [min + 0.36 (max - min), min + 1.1 (max - min)],
      the upper end excluded whenever min < max; in particular it is at least min. */
  lemma HourlyPriceBounds(min: real, max: real, s: real, u: real)
    requires min <= max
    requires -1.0 <= s <= 1.0 && 0.0 <= u < 1.0
    ensures min + 0.36 * (max - min) <= HourlyPrice(min, max, s, u) <= min + 1.1 * (max - min)
    ensures min < max ==> HourlyPrice(min, max, s, u) < min + 1.1 * (max - min)
    ensures min <= HourlyPrice(min, max, s, u)
  {
    var d, k := max - min, Shape(s) * Jitter(u);
    FactorProductBounds(Shape(s), Jitter(u));
    assert d * Shape(s) * Jitter(u) == d * k;
    MulMonotone(d, 0.36, k);
    MulMonotone(d, k, 1.1);
    assert d * 0.36 <= d * k <= d * 1.1;
    assert HourlyPrice(min, max, s, u) == min + d * k;
  }

  /** The first `n` hours of the series, built hour by hour as the generator's loop does. */
  function FirstHours(min: real, max: real, sines: seq<real>, randoms: seq<real>, n: nat): (ps: seq<PricePoint>)
    requires n <= |sines| && n <= |randoms|
    ensures |ps| == n
    ensures forall h :: 0 <= h < n ==> ps[h].hour == h
    ensures forall h :: 0 <= h < n ==> ps[h].currency == Currency && ps[h].unit == Unit
    ensures forall h :: 0 <= h < n ==> ps[h].price == HourlyPrice(min, max, sines[h], randoms[h])
  {
    if n == 0 then []
    else
      FirstHours(min, max, sines, randoms, n - 1)
        + [PricePoint(n - 1, HourlyPrice(min, max, sines[n - 1], randoms[n - 1]), Currency, Unit)]
  }

  /** The generated day series for the price envelope [min, max]. */
  function GenerateMockPrices(min: real, max: real, sines: seq<real>, randoms: seq<real>): (ps: seq<PricePoint>)
    requires |sines| == Hours && |randoms| == Hours
    ensures IsDaySeries(ps)
    ensures forall h :: 0 <= h < |ps| ==> ps[h].price == HourlyPrice(min, max, sines[h], randoms[h])
  {
    FirstHours(min, max, sines, randoms, Hours)
  }

  /** Every generated price lies inside the envelope the shape and jitter ranges allow,
      and so is never below `min`. */
  lemma GeneratedPricesBounded(min: real, max: real, sines: seq<real>, randoms: seq<real>)
    requires ValidSines(sines) && ValidRandoms(randoms)
    requires min <= max
    ensures forall h :: 0 <= h < Hours ==>
      var p := GenerateMockPrices(min, max, sines, randoms)[h].price;
      min <= p && min + 0.36 * (max - min) <= p <= min + 1.1 * (max - min)
  {
    var ps := GenerateMockPrices(min, max, sines, randoms);
    forall h | 0 <= h < Hours
      ensures min <= ps[h].price && min + 0.36 * (max - min) <= ps[h].price <= min + 1.1 * (max - min)
    {
      HourlyPriceBounds(min, max, sines[h], randoms[h]);
    }
  }

  /** The worked example: envelope [45, 85], hour 18 (sine of pi taken as 0), jitter fixed
      at 1 (draw 0.5) gives 45 + 40 * 0.7 = 73. */
  lemma Hour18Example()
    ensures HourlyPrice(45.0, 85.0, 0.0, 0.5) == 73.0
  {
  }
}
