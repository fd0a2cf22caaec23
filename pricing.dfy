/** The price arithmetic shared by the shop pages and the admin panel:
    `Math.round`, `toFixed(2)` and the discounted price
    `Math.round(price * (1 - p / 100))` with its guard against an invalid
    percentage. Prices are whole roubles; percentages are exact rationals. */
module Pricing {
  import opened Js

  /** `Math.round(x)`: the nearest integer, halves rounded up. */
  function Round(x: real): (r: int)
    ensures r as real <= x + 0.5 < r as real + 1.0
  {
    (x + 0.5).Floor
  }

  /** `Math.round` is monotone. */
  lemma RoundMonotone(x: real, y: real)
    requires x <= y
    ensures Round(x) <= Round(y)
  {
  }

  /** Rounding a whole number gives it back. */
  lemma RoundInteger(n: int)
    ensures Round(n as real) == n
  {
  }

  /** `parseFloat(x.toFixed(2))`: `x` rounded to hundredths, halves away
      from zero (`toFixed` rounds the magnitude and keeps the sign). */
  function Fixed2(x: real): (r: real)
    ensures -0.005 <= r - x <= 0.005
    ensures exists k :: r == Cents(k)
  {
    if x < 0.0 then
      var k := Round(100.0 * -x);
      assert -Hundredths(-x) == Cents(-k);
      -Hundredths(-x)
    else
      assert Hundredths(x) == Cents(Round(100.0 * x));
      Hundredths(x)
  }

  /** `k` hundredths. */
  function Cents(k: int): real
  {
    k as real / 100.0
  }

  /** A magnitude rounded to the nearest hundredth, halves up. */
  function Hundredths(m: real): (r: real)
    ensures -0.005 <= r - m <= 0.005
    ensures r == Round(100.0 * m) as real / 100.0
  {
    (Round(100.0 * m) as real) / 100.0
  }

  /** A multiple of a hundredth is kept by `Hundredths`. */
  lemma HundredthsExact(n: int)
    ensures Hundredths((n as real) / 100.0) == (n as real) / 100.0
  {
    assert 100.0 * ((n as real) / 100.0) == n as real;
    RoundInteger(n);
  }

  /** A value already in hundredths is kept by `Fixed2`, so applying it
      twice is applying it once. */
  lemma Fixed2Idempotent(x: real)
    ensures Fixed2(Fixed2(x)) == Fixed2(x)
  {
    var m := if x < 0.0 then -x else x;
    var n := Round(100.0 * m);
    HundredthsExact(n);
    if n != 0 {
      assert n > 0;
      if x < 0.0 {
        assert Fixed2(x) == -((n as real) / 100.0) < 0.0;
        assert Fixed2(Fixed2(x)) == -Hundredths((n as real) / 100.0);
      }
    }
  }

  /** `toFixed(2)` picks a nearest hundredth: no multiple of 0.01 is closer
      to `x` than the result. */
  lemma Fixed2Nearest(x: real, k: int)
    ensures Abs(Fixed2(x) - x) <= Abs(Cents(k) - x)
  {
    var r := Fixed2(x);
    var j :| r == Cents(j);
    if k != j {
      assert Abs(Cents(k) - r) >= 0.01 by {
        assert Cents(k) - r == (k - j) as real / 100.0;
      }
    }
  }

  function Abs(x: real): real
  {
    if x < 0.0 then -x else x
  }

  /** A numeric field of a product record as the front end receives it:
      missing (`undefined`), `null`, or a number. */
  datatype NumField = Missing | NullField | Given(n: Number)

  /** The number JavaScript uses when the field meets arithmetic or a
      comparison: `NaN` for `undefined`, 0 for `null`. */
  function Coerce(f: NumField): Number
  {
    match f
    case Missing => NaN
    case NullField => Num(0.0)
    case Given(n) => n
  }

  /** `isNaN(p) || p < 0`: the guard under which the source leaves the price
      as it is. */
  predicate InvalidPercent(p: Number)
  {
    p.NaN? || p.v < 0.0
  }

  /** `calculateDiscountPrice(price, p)`: the price itself for an invalid
      percentage, otherwise `Math.round(price * (1 - p / 100))`. */
  function DiscountPrice(price: int, p: Number): (r: int)
    ensures InvalidPercent(p) ==> r == price
    ensures !InvalidPercent(p) ==> r == Round(price as real * (1.0 - p.v / 100.0))
  {
    if InvalidPercent(p) then price else Round(price as real * (1.0 - p.v / 100.0))
  }

  /** A zero percentage leaves the price unchanged. */
  lemma DiscountZero(price: int)
    ensures DiscountPrice(price, Num(0.0)) == price
  {
    RoundInteger(price);
  }

  /** For a non-negative price and a percentage between 0 and 100 the
      discounted price lies between 0 and the price, and a larger discount
      never gives a larger price. */
  lemma DiscountBounds(price: nat, p: real, q: real)
    requires 0.0 <= p <= q <= 100.0
    ensures 0 <= DiscountPrice(price, Num(q)) <= DiscountPrice(price, Num(p)) <= price
  {
    var x := price as real * (1.0 - p / 100.0);
    var y := price as real * (1.0 - q / 100.0);
    assert 0.0 <= y <= x <= price as real by {
      assert 0.0 <= 1.0 - q / 100.0 <= 1.0 - p / 100.0 <= 1.0;
    }
    RoundMonotone(y, x);
    RoundMonotone(x, price as real);
    RoundMonotone(0.0, y);
    RoundInteger(price);
    RoundInteger(0);
  }
}
