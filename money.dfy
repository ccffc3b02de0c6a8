/** Fixed-point money. Every amount is an integer count of 1/10000 of the currency
    unit, so one cent is 100 units and PHP's `round($x, 2)` becomes RoundCents.
    A unit finer than the cent lets a request carry a unit price with more than two
    decimals, which is where the DTOs' rounded arithmetic and the Eloquent models'
    arithmetic on cast attributes part ways. */
module Money {
  import opened Common

  /** Units in one cent. */
  const UnitsPerCent: int := 100

  /** Units in one currency unit. */
  const UnitsPerCurrency: int := 10000

  /** PHP `round($x, 2)`: to the nearest cent, halves away from zero. */
  function RoundCents(x: int): (r: int)
    ensures r % UnitsPerCent == 0
    ensures x >= 0 ==> -50 < r - x <= 50
    ensures x < 0 ==> -50 <= r - x < 50
  {
    if x >= 0 then (x + 50) / 100 * 100 else -((-x + 50) / 100 * 100)
  }

  /** PHP `max(0, $x)`. */
  function Max0(x: int): (r: int)
    ensures r >= 0 && r >= x
    ensures r == 0 || r == x
  {
    if x < 0 then 0 else x
  }

  /** `$subtotal - ($discount ?? 0) + ($tax ?? 0)`. */
  function Net(subtotal: int, discount: Option<int>, tax: Option<int>): int {
    subtotal - discount.GetOr(0) + tax.GetOr(0)
  }

  /** `max(0, round($subtotal - $discount + $tax, 2))`, the total of the DTO and of
      the service: zero exactly when the net amount is under half a cent, otherwise
      the net amount rounded to the cent. */
  function RoundedTotal(subtotal: int, discount: Option<int>, tax: Option<int>): (r: int)
    ensures r >= 0 && r % UnitsPerCent == 0
    ensures r == 0 <==> Net(subtotal, discount, tax) < 50
    ensures r != 0 ==> -50 < r - Net(subtotal, discount, tax) <= 50
  {
    Max0(RoundCents(Net(subtotal, discount, tax)))
  }

  /** `max(0, $subtotal - $discount + $tax)` with no rounding, the total of the
      Eloquent Order model. */
  function UnroundedTotal(subtotal: int, discount: Option<int>, tax: Option<int>): (r: int)
    ensures r >= 0 && r >= Net(subtotal, discount, tax)
    ensures r == 0 || r == Net(subtotal, discount, tax)
  {
    Max0(Net(subtotal, discount, tax))
  }

  /** Rounding leaves whole cents alone. */
  lemma RoundCentsOfWholeCents(x: int)
    requires x % UnitsPerCent == 0
    ensures RoundCents(x) == x
  {
  }

  /** Rounding moves an amount by at most half a cent, and leaves exactly the
      whole-cent amounts where they are. */
  lemma RoundCentsFixedPoints(x: int)
    ensures -50 <= RoundCents(x) - x <= 50
    ensures RoundCents(x) == x <==> x % UnitsPerCent == 0
  {
    if x % UnitsPerCent == 0 {
      RoundCentsOfWholeCents(x);
    }
  }

  /** Sums of whole-cent amounts stay in whole cents. */
  lemma WholeCentsAdd(x: int, y: int)
    requires x % UnitsPerCent == 0 && y % UnitsPerCent == 0
    ensures (x + y) % UnitsPerCent == 0
  {
  }

  /** A net amount of whole-cent amounts is in whole cents. */
  lemma WholeCentsNet(subtotal: int, discount: int, tax: int)
    requires subtotal % UnitsPerCent == 0 && discount % UnitsPerCent == 0 && tax % UnitsPerCent == 0
    ensures (subtotal - discount + tax) % UnitsPerCent == 0
  {
    var s, d, t := subtotal / UnitsPerCent, discount / UnitsPerCent, tax / UnitsPerCent;
    assert subtotal - discount + tax == (s - d + t) * UnitsPerCent;
  }

  /** A whole number of whole-cent amounts is in whole cents. */
  lemma WholeCentsScale(n: int, x: int)
    requires x % UnitsPerCent == 0
    ensures (n * x) % UnitsPerCent == 0
  {
    var c := x / UnitsPerCent;
    assert n * x == (n * c) * UnitsPerCent;
  }

  /** Scaling an amount that is off by at most half a cent by a count `n` leaves
      it off by at most `n` half cents. */
  lemma ScaledDrift(n: int, price: int, exact: int)
    requires -50 <= price - exact <= 50
    ensures n >= 0 ==> -50 * n <= n * price - n * exact <= 50 * n
  {
    if n >= 0 {
      var d := price - exact;
      assert n * price - n * exact == n * d;
      NonNegativeProduct(n, 50 - d);
      NonNegativeProduct(n, d + 50);
      assert n * (50 - d) == 50 * n - n * d;
      assert n * (d + 50) == n * d + 50 * n;
    }
  }

  lemma NonNegativeProduct(a: int, b: int)
    requires a >= 0 && b >= 0
    ensures a * b >= 0
  {
  }

  /** An attribute cast `decimal:2` as Eloquent reads it: the stored amount
      rounded to the cent, halves away from zero, the same rounding as RoundCents.
      It moves an amount by at most half a cent and leaves exactly the whole-cent
      amounts alone. */
  function Decimal2(x: int): (r: int)
    ensures r % UnitsPerCent == 0
    ensures x >= 0 ==> -50 < r - x <= 50
    ensures x < 0 ==> -50 <= r - x < 50
    ensures r == x <==> x % UnitsPerCent == 0
  {
    RoundCentsFixedPoints(x);
    RoundCents(x)
  }

  /** Rounding is monotone, so it never reorders amounts. */
  lemma RoundCentsMonotone(x: int, y: int)
    requires x <= y
    ensures RoundCents(x) <= RoundCents(y)
  {
    var rx, ry := RoundCents(x), RoundCents(y);
    assert rx - ry < 100;
    assert (rx - ry) % 100 == 0;
  }

  /** Rounding is symmetric about zero (halves go away from zero on both sides). */
  lemma RoundCentsOdd(x: int)
    ensures RoundCents(-x) == -RoundCents(x)
  {
  }

  /** Rounding twice is rounding once. */
  lemma RoundCentsIdempotent(x: int)
    ensures RoundCents(RoundCents(x)) == RoundCents(x)
  {
    RoundCentsOfWholeCents(RoundCents(x));
  }

  /** The two totals agree to within half a cent, and exactly when the net amount is
      in whole cents or negative. */
  lemma RoundedAndUnroundedTotals(subtotal: int, discount: Option<int>, tax: Option<int>)
    ensures -50 <= RoundedTotal(subtotal, discount, tax) - UnroundedTotal(subtotal, discount, tax) <= 50
    ensures Net(subtotal, discount, tax) % UnitsPerCent == 0 || Net(subtotal, discount, tax) < 0
            ==> RoundedTotal(subtotal, discount, tax) == UnroundedTotal(subtotal, discount, tax)
  {
  }
}
