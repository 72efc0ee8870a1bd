/** Dates on the client are milliseconds since the epoch, and the pages turn
    differences of dates into whole hours and days with `Math.floor` and
    `Math.ceil`. Dafny's `/` rounds down when the divisor is positive, which
    is `Math.floor`; `Math.ceil` is written out from it. */
module Calendar {

  const HourMs := 1000 * 60 * 60
  const DayMs := 1000 * 60 * 60 * 24

  /** `Math.floor(a / d)` for a positive divisor: the largest `q` with `q * d <= a`. */
  lemma FloorDivBounds(a: int, d: int)
    requires d > 0
    ensures (a / d) * d <= a < (a / d + 1) * d
  {
  }

  /** A quotient is pinned down by the bounds it lies between. */
  lemma FloorDivOfBounds(a: int, d: int, q: int)
    requires d > 0 && q * d <= a < (q + 1) * d
    ensures a / d == q
  {
    FloorDivBounds(a, d);
  }

  /** `Math.ceil(a / d)` for a positive divisor: the smallest `q` with `a <= q * d`. */
  function CeilDiv(a: int, d: int): (q: int)
    requires d > 0
    ensures (q - 1) * d < a <= q * d
  {
    FloorDivBounds(-a, d);
    -((-a) / d)
  }

  /** `Math.ceil((end - start) / day) + 1`: the number of days a trip or an
      itinerary is shown to last. */
  function DaysSpanned(start: int, end: int): (n: int)
    ensures (n - 2) * DayMs < end - start <= (n - 1) * DayMs
    ensures start <= end ==> n >= 1
  {
    CeilDiv(end - start, DayMs) + 1
  }

  /** A span that starts and ends at the same instant lasts one day, and one
      that ends within 24 hours after it starts lasts two. */
  lemma SameDayLastsOneDay(start: int, end: int)
    ensures start == end ==> DaysSpanned(start, end) == 1
    ensures start < end <= start + DayMs ==> DaysSpanned(start, end) == 2
  {
  }
}
