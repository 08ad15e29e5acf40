/** Sales and no-show reports over whole UTC days: half-open windows and grouped sums that agree. */
module Analytics {
  import opened Prelude

  /** A point in time is a count of microseconds, a day a count of days; day `d` starts at `d * DAY`. */
  const DAY := 86_400_000_000

  datatype Sale = Sale(restaurant: Id, item: Id, quantity: int, unitPrice: real, soldAt: int)

  datatype VisitStatus = Expected | Completed | NoShow | Withdrawn
  datatype Visit = Visit(restaurant: Id, time: int, party: int, status: VisitStatus)

  function DayOf(t: int): int {
    t / DAY
  }

  /** `_day_bounds`: from the start of the first day up to, not including, the start of the day after the last. */
  function Bounds(since: int, until: int): (int, int) {
    (since * DAY, until * DAY + DAY)
  }

  /** The generated `total_price` column. */
  function TotalPrice(sale: Sale): real {
    sale.quantity as real * sale.unitPrice
  }

  function Revenue(sales: seq<Sale>): real {
    if sales == [] then 0.0 else TotalPrice(sales[0]) + Revenue(sales[1..])
  }

  function Units(sales: seq<Sale>): int {
    if sales == [] then 0 else sales[0].quantity + Units(sales[1..])
  }

  /** The rows a report reads: one restaurant's sales in a half-open window. */
  function InWindow(sales: seq<Sale>, restaurant: Id, start: int, end: int): seq<Sale> {
    if sales == [] then []
    else
      var rest := InWindow(sales[1..], restaurant, start, end);
      if sales[0].restaurant == restaurant && start <= sales[0].soldAt < end then [sales[0]] + rest else rest
  }

  datatype DailyRow = DailyRow(day: int, revenue: real, units: int)

  /** The sales of one calendar day. */
  function OnDay(sales: seq<Sale>, restaurant: Id, day: int): seq<Sale> {
    InWindow(sales, restaurant, Bounds(day, day).0, Bounds(day, day).1)
  }

  /** One row per day that has sales, in day order. */
  function DailySales(sales: seq<Sale>, restaurant: Id, since: int, until: int): seq<DailyRow>
    decreases until - since
  {
    if since > until then []
    else
      var own := OnDay(sales, restaurant, until);
      DailySales(sales, restaurant, since, until - 1)
      + if own == [] then [] else [DailyRow(until, Revenue(own), Units(own))]
  }

  function TotalOf(rows: seq<DailyRow>): real {
    if rows == [] then 0.0 else TotalOf(rows[..|rows| - 1]) + rows[|rows| - 1].revenue
  }

  // ---- windows ----

  /** A window is exactly the sales of its days: the bounds and the calendar date agree. */
  lemma WindowIsWholeDays(t: int, since: int, until: int)
    ensures Bounds(since, until).0 <= t < Bounds(since, until).1 <==> since <= DayOf(t) <= until
  {
  }

  /** The window up to the day before ends where the last day begins. */
  lemma DaysMeet(since: int, until: int)
    ensures Bounds(since, until - 1) == (Bounds(since, until).0, Bounds(until, until).0)
    ensures Bounds(until, until).1 == Bounds(since, until).1
    ensures since <= until ==> Bounds(since, until).0 <= Bounds(until, until).0 <= Bounds(since, until).1
  {
  }

  lemma SumsCons(sale: Sale, rest: seq<Sale>)
    ensures Revenue([sale] + rest) == TotalPrice(sale) + Revenue(rest)
    ensures Units([sale] + rest) == sale.quantity + Units(rest)
  {
    assert ([sale] + rest)[1..] == rest;
  }

  lemma {:induction false} WindowsAdd(sales: seq<Sale>, restaurant: Id, start: int, mid: int, end: int)
    requires start <= mid <= end
    ensures Revenue(InWindow(sales, restaurant, start, end))
         == Revenue(InWindow(sales, restaurant, start, mid)) + Revenue(InWindow(sales, restaurant, mid, end))
    ensures Units(InWindow(sales, restaurant, start, end))
         == Units(InWindow(sales, restaurant, start, mid)) + Units(InWindow(sales, restaurant, mid, end))
    decreases |sales|
  {
    if sales != [] {
      WindowsAdd(sales[1..], restaurant, start, mid, end);
      hide Revenue, Units, TotalPrice;
      SumsCons(sales[0], InWindow(sales[1..], restaurant, start, end));
      SumsCons(sales[0], InWindow(sales[1..], restaurant, start, mid));
      SumsCons(sales[0], InWindow(sales[1..], restaurant, mid, end));
    }
  }

  lemma {:induction false} EmptyWindow(sales: seq<Sale>, restaurant: Id, start: int, end: int)
    requires end <= start
    ensures InWindow(sales, restaurant, start, end) == []
  {
    if sales != [] {
      EmptyWindow(sales[1..], restaurant, start, end);
    }
  }

  lemma TotalAppends(rows: seq<DailyRow>, row: DailyRow)
    ensures TotalOf(rows + [row]) == TotalOf(rows) + row.revenue
  {
    assert (rows + [row])[..|rows|] == rows;
  }

  /** The daily revenues over [since, until] sum to the revenue of all sales in the half-open window of those days. */
  lemma {:induction false} DailyRevenueIsConserved(sales: seq<Sale>, restaurant: Id, since: int, until: int)
    requires since <= until + 1
    ensures TotalOf(DailySales(sales, restaurant, since, until))
         == Revenue(InWindow(sales, restaurant, Bounds(since, until).0, Bounds(since, until).1))
    decreases until - since
  {
    if since > until {
      EmptyWindow(sales, restaurant, Bounds(since, until).0, Bounds(since, until).1);
    } else {
      DailyRevenueIsConserved(sales, restaurant, since, until - 1);
      DaysMeet(since, until);
      WindowsAdd(sales, restaurant, Bounds(since, until).0, Bounds(until, until).0, Bounds(since, until).1);
      var own := OnDay(sales, restaurant, until);
      var earlier := DailySales(sales, restaurant, since, until - 1);
      TotalAppends(earlier, DailyRow(until, Revenue(own), Units(own)));
      assert DailySales(sales, restaurant, since, until)
          == if own == [] then earlier else earlier + [DailyRow(until, Revenue(own), Units(own))];
    }
  }

  /** Splitting the range at any day splits the report. */
  lemma {:induction false} DailySalesSplit(sales: seq<Sale>, restaurant: Id, since: int, mid: int, until: int)
    requires since <= mid + 1 && mid <= until
    ensures DailySales(sales, restaurant, since, until)
         == DailySales(sales, restaurant, since, mid) + DailySales(sales, restaurant, mid + 1, until)
    decreases until - mid
  {
    if mid < until {
      DailySalesSplit(sales, restaurant, since, mid, until - 1);
    }
  }

  /** The row carries the sums of a day that has sales. */
  predicate IsDayRow(sales: seq<Sale>, restaurant: Id, row: DailyRow) {
    var own := OnDay(sales, restaurant, row.day);
    own != [] && row.revenue == Revenue(own) && row.units == Units(own)
  }

  predicate InDayOrder(rows: seq<DailyRow>) {
    forall i, j | 0 <= i < j < |rows| :: rows[i].day < rows[j].day
  }

  /** The report has a row for exactly the days with a sale, with that day's sums, in increasing day order. */
  lemma {:induction false} DailyRowsAreDaysWithSales(sales: seq<Sale>, restaurant: Id, since: int, until: int)
    ensures forall row ::
      row in DailySales(sales, restaurant, since, until)
      <==> since <= row.day <= until && IsDayRow(sales, restaurant, row)
    ensures InDayOrder(DailySales(sales, restaurant, since, until))
    decreases until - since
  {
    hide OnDay, Revenue, Units;
    if since <= until {
      DailyRowsAreDaysWithSales(sales, restaurant, since, until - 1);
      var earlier := DailySales(sales, restaurant, since, until - 1);
      forall i | 0 <= i < |earlier| ensures earlier[i].day < until {
        assert earlier[i] in earlier;
      }
    }
  }

  // ---- sales by item ----

  datatype ItemRow = ItemRow(item: Id, units: int, revenue: real)

  function OfItem(sales: seq<Sale>, item: Id): seq<Sale> {
    if sales == [] then []
    else
      var rest := OfItem(sales[1..], item);
      if sales[0].item == item then [sales[0]] + rest else rest
  }

  function ItemsIn(sales: seq<Sale>): set<Id> {
    set i | 0 <= i < |sales| :: sales[i].item
  }

  function RowOf(sales: seq<Sale>, item: Id): ItemRow {
    ItemRow(item, Units(OfItem(sales, item)), Revenue(OfItem(sales, item)))
  }

  /** Items by quantity sold, largest first. */
  function Ranking(sales: seq<Sale>): seq<Id> {
    OrderBy(map item | item in ItemsIn(sales) :: -(Units(OfItem(sales, item)) as real))
  }

  function RowsOf(sales: seq<Sale>, items: seq<Id>): seq<ItemRow> {
    if items == [] then [] else RowsOf(sales, items[..|items| - 1]) + [RowOf(sales, items[|items| - 1])]
  }

  /** The best-selling items of the window, at most `limit` of them. */
  function ItemSales(sales: seq<Sale>, restaurant: Id, since: int, until: int, limit: nat): seq<ItemRow> {
    var rows := InWindow(sales, restaurant, Bounds(since, until).0, Bounds(since, until).1);
    var ranking := Ranking(rows);
    RowsOf(rows, if |ranking| <= limit then ranking else ranking[..limit])
  }

  function ItemTotal(rows: seq<ItemRow>): real {
    if rows == [] then 0.0 else ItemTotal(rows[..|rows| - 1]) + rows[|rows| - 1].revenue
  }

  /** The revenue of the sales whose item is listed. */
  function RevenueOfListed(sales: seq<Sale>, items: seq<Id>): real {
    if sales == [] then 0.0
    else (if sales[0].item in items then TotalPrice(sales[0]) else 0.0)
         + RevenueOfListed(sales[1..], items)
  }

  lemma {:induction false} ListedAppends(sales: seq<Sale>, items: seq<Id>, item: Id)
    requires item !in items
    ensures RevenueOfListed(sales, items + [item]) == RevenueOfListed(sales, items) + Revenue(OfItem(sales, item))
    decreases |sales|
  {
    if sales != [] {
      ListedAppends(sales[1..], items, item);
      hide TotalPrice, Revenue;
      SumsCons(sales[0], OfItem(sales[1..], item));
    }
  }

  lemma {:induction false} NothingListed(sales: seq<Sale>)
    ensures RevenueOfListed(sales, []) == 0.0
  {
    if sales != [] {
      NothingListed(sales[1..]);
    }
  }

  lemma {:induction false} AllListed(sales: seq<Sale>, items: seq<Id>)
    requires forall i | 0 <= i < |sales| :: sales[i].item in items
    ensures RevenueOfListed(sales, items) == Revenue(sales)
  {
    if sales != [] {
      AllListed(sales[1..], items);
    }
  }

  lemma {:induction false} ItemTotalIsListed(sales: seq<Sale>, items: seq<Id>)
    requires forall i, j | 0 <= i < j < |items| :: items[i] != items[j]
    ensures ItemTotal(RowsOf(sales, items)) == RevenueOfListed(sales, items)
    decreases |items|
  {
    if items == [] {
      NothingListed(sales);
    } else {
      var front, last := items[..|items| - 1], items[|items| - 1];
      ItemTotalIsListed(sales, front);
      ListedAppends(sales, front, last);
      assert items == front + [last];
      assert RowsOf(sales, items)[..|RowsOf(sales, items)| - 1] == RowsOf(sales, front);
    }
  }

  lemma RankingIsComplete(sales: seq<Sale>)
    ensures forall i | 0 <= i < |sales| :: sales[i].item in Ranking(sales)
    ensures forall i, j | 0 <= i < j < |Ranking(sales)| :: Ranking(sales)[i] != Ranking(sales)[j]
  {
    var key := map item | item in ItemsIn(sales) :: -(Units(OfItem(sales, item)) as real);
    forall i | 0 <= i < |sales| ensures sales[i].item in key {
      assert sales[i].item in ItemsIn(sales);
    }
    assert forall i, j | 0 <= i < j < |OrderBy(key)| :: Before(key, OrderBy(key)[i], OrderBy(key)[j]);
  }

  /** When the limit covers all items sold, the daily report and the item report add up to the same revenue. */
  lemma DailyAndItemTotalsAgree(sales: seq<Sale>, restaurant: Id, since: int, until: int, limit: nat)
    requires since <= until + 1
    requires |Ranking(InWindow(sales, restaurant, Bounds(since, until).0, Bounds(since, until).1))| <= limit
    ensures ItemTotal(ItemSales(sales, restaurant, since, until, limit))
        == TotalOf(DailySales(sales, restaurant, since, until))
  {
    var rows := InWindow(sales, restaurant, Bounds(since, until).0, Bounds(since, until).1);
    DailyRevenueIsConserved(sales, restaurant, since, until);
    RankingIsComplete(rows);
    ItemTotalIsListed(rows, Ranking(rows));
    AllListed(rows, Ranking(rows));
  }

  // ---- covers ----

  /** Guests of completed visits of one restaurant in a half-open window. */
  function Covers(visits: seq<Visit>, restaurant: Id, start: int, end: int): int {
    if visits == [] then 0
    else
      var v := visits[0];
      (if v.restaurant == restaurant && start <= v.time < end && v.status == Completed then v.party else 0)
      + Covers(visits[1..], restaurant, start, end)
  }

  function CoversOn(visits: seq<Visit>, restaurant: Id, day: int): int {
    Covers(visits, restaurant, Bounds(day, day).0, Bounds(day, day).1)
  }

  /** The covers column of the daily report: each sales row gets its day's covers. */
  function ReportedCovers(rows: seq<DailyRow>, visits: seq<Visit>, restaurant: Id): int {
    if rows == [] then 0
    else ReportedCovers(rows[..|rows| - 1], visits, restaurant) + CoversOn(visits, restaurant, rows[|rows| - 1].day)
  }

  /** The covers of the days without any sale. */
  function DroppedCovers(sales: seq<Sale>, visits: seq<Visit>, restaurant: Id, since: int, until: int): int
    decreases until - since
  {
    if since > until then 0
    else DroppedCovers(sales, visits, restaurant, since, until - 1)
         + if OnDay(sales, restaurant, until) == [] then CoversOn(visits, restaurant, until) else 0
  }

  lemma {:induction false} CoversAdd(visits: seq<Visit>, restaurant: Id, start: int, mid: int, end: int)
    requires start <= mid <= end
    ensures Covers(visits, restaurant, start, end)
        == Covers(visits, restaurant, start, mid) + Covers(visits, restaurant, mid, end)
    decreases |visits|
  {
    if visits != [] {
      CoversAdd(visits[1..], restaurant, start, mid, end);
    }
  }

  lemma {:induction false} NoCovers(visits: seq<Visit>, restaurant: Id, start: int, end: int)
    requires end <= start
    ensures Covers(visits, restaurant, start, end) == 0
  {
    if visits != [] {
      NoCovers(visits[1..], restaurant, start, end);
    }
  }

  /** The daily report shows the window's covers less exactly those of days on which nothing was sold. */
  lemma {:induction false} ReportDropsSalelessCovers(sales: seq<Sale>, visits: seq<Visit>, restaurant: Id, since: int,
      until: int)
    requires since <= until + 1
    ensures ReportedCovers(DailySales(sales, restaurant, since, until), visits, restaurant)
            + DroppedCovers(sales, visits, restaurant, since, until)
         == Covers(visits, restaurant, Bounds(since, until).0, Bounds(since, until).1)
    decreases until - since
  {
    if since > until {
      NoCovers(visits, restaurant, Bounds(since, until).0, Bounds(since, until).1);
    } else {
      ReportDropsSalelessCovers(sales, visits, restaurant, since, until - 1);
      DaysMeet(since, until);
      CoversAdd(visits, restaurant, Bounds(since, until).0, Bounds(until, until).0, Bounds(since, until).1);
      var own := OnDay(sales, restaurant, until);
      var earlier := DailySales(sales, restaurant, since, until - 1);
      assert (earlier + [DailyRow(until, Revenue(own), Units(own))])[..|earlier|] == earlier;
      assert DailySales(sales, restaurant, since, until)
          == if own == [] then earlier else earlier + [DailyRow(until, Revenue(own), Units(own))];
    }
  }

  // ---- no-show rate ----

  function CountStatus(visits: seq<Visit>, restaurant: Id, start: int, end: int, status: VisitStatus): nat {
    if visits == [] then 0
    else
      var v := visits[0];
      (if v.restaurant == restaurant && start <= v.time < end && v.status == status then 1 else 0)
      + CountStatus(visits[1..], restaurant, start, end, status)
  }

  /** `n / d` in ten-thousandths, rounded half to even. */
  function Quantize(n: nat, d: nat): int
    requires d > 0
  {
    var q, r := n * 10000 / d, n * 10000 % d;
    if 2 * r < d || (2 * r == d && q % 2 == 0) then q else q + 1
  }

  /** The share of no-shows among no-shows and completed visits, in ten-thousandths. */
  function NoShowRate(visits: seq<Visit>, restaurant: Id, since: int, until: int): Option<int> {
    var noShows := CountStatus(visits, restaurant, Bounds(since, until).0, Bounds(since, until).1, NoShow);
    var completed := CountStatus(visits, restaurant, Bounds(since, until).0, Bounds(since, until).1, Completed);
    if noShows + completed > 0 then Some(Quantize(noShows, noShows + completed)) else None
  }

  /** How far `rate` ten-thousandths are from `n / d`, in units of one ten-thousandth of `1 / d`. */
  function Gap(rate: int, n: int, d: int): int {
    var gap := rate * d - n * 10000;
    if gap < 0 then -gap else gap
  }

  lemma ProductsAreOrdered(a: int, b: int, d: nat)
    requires a <= b
    ensures a * d <= b * d
  {
  }

  lemma ProductGrows(a: int, b: int, d: nat)
    ensures a < b ==> a * d + d <= b * d
  {
    if a < b {
      ProductsAreOrdered(a + 1, b, d);
      assert (a + 1) * d == a * d + d;
    }
  }

  lemma QuotientAtMost(q: int, d: nat, r: nat, most: int)
    requires d > 0 && q * d + r <= most * d
    ensures q <= most && (q == most ==> r == 0)
  {
    ProductGrows(most, q, d);
  }

  lemma QuantizeIsNearest(n: nat, d: nat)
    requires d > 0 && n <= d
    ensures 0 <= Quantize(n, d) <= 10000
    ensures 2 * Gap(Quantize(n, d), n, d) <= d
  {
    var q, r := n * 10000 / d, n * 10000 % d;
    assert q * d + r == n * 10000;
    QuotientAtMost(q, d, r, 10000);
    assert Gap(q, n, d) == r;
    assert Gap(q + 1, n, d) == d - r by {
      assert (q + 1) * d == q * d + d;
    }
    hide Gap;
  }

  /** A decimal number in ten-thousandths, rounded half to even. */
  function QuantizeReal(x: real): int {
    var n := (x * 10000.0).Floor;
    var over := x * 10000.0 - n as real;
    if over < 0.5 || (over == 0.5 && n % 2 == 0) then n else n + 1
  }

  lemma ScaledBetween(u: real, d: real, product: real, low: real, high: real)
    requires d > 0.0 && product == u * d && low * d < product < high * d
    ensures low < u < high
  {
  }

  lemma ScaledLess(u: real, v: real, d: real)
    requires d > 0.0
    ensures u < v ==> u * d < v * d
  {
    if u < v {
      assert (v - u) * d > 0.0;
    }
  }

  /** A fraction near `r / d` is on the same side of one half, and equal to nothing or one half only if `r / d` is. */
  lemma FractionLies(u: real, e: real, r: nat, d: nat)
    requires 0 < d && r < d && e == d as real
    requires r as real - 0.1 <= u * e <= r as real + 0.1
    requires r == 0 || 2 * r == d ==> u * e == r as real
    ensures if r == 0 then u == 0.0
            else if 2 * r == d then u == 0.5
            else if 2 * r < d then 0.0 < u < 0.5
            else 0.5 < u < 1.0
  {
    if r == 0 {
      ScaledLess(u, 0.0, e);
      ScaledLess(0.0, u, e);
    } else if 2 * r == d {
      ScaledLess(u, 0.5, e);
      ScaledLess(0.5, u, e);
    } else {
      Near(r, d, u * e);
      if 2 * r < d {
        ScaledBetween(u, e, u * e, 0.0, 0.5);
      } else {
        ScaledBetween(u, e, u * e, 0.5, 1.0);
      }
    }
  }

  lemma Near(r: nat, d: nat, product: real)
    requires 0 < r < d && r as real - 0.1 <= product <= r as real + 0.1
    ensures 2 * r < d ==> 0.0 * d as real < product < 0.5 * d as real
    ensures 2 * r > d ==> 0.5 * d as real < product < 1.0 * d as real
  {
    assert 2 * r < d ==> (2 * r + 1) as real <= d as real;
    assert 2 * r > d ==> (2 * r - 1) as real >= d as real;
    assert (r + 1) as real <= d as real;
  }

  lemma Expand(x: real, q: real, e: real)
    ensures (x * 10000.0 - q) * e == 10000.0 * (x * e) - q * e
  {
  }

  lemma ProductAsReal(q: int, d: int)
    ensures q as real * d as real == (q * d) as real
  {
  }

  /** Half a unit in the last of 28 significant digits, for a share of at most 1. */
  const PRECISION: real := 0.00000_00000_00000_00000_00000_0005

  lemma SmallError(product: real, n: nat, d: nat)
    requires 0 < d <= 100000000000000000000
    requires -PRECISION * d as real <= product - n as real <= PRECISION * d as real
    ensures -0.00001 <= product - n as real <= 0.00001
  {
  }

  lemma QuotientLies(x: real, q: int, r: nat, n: nat, d: nat)
    requires 0 < d <= 100000000000000000000 && r < d && q * d + r == n * 10000
    requires -PRECISION * d as real <= x * d as real - n as real <= PRECISION * d as real
    requires r == 0 || 2 * r == d ==> x * d as real == n as real
    ensures var u := x * 10000.0 - q as real;
      if r == 0 then u == 0.0 else if 2 * r == d then u == 0.5 else if 2 * r < d then 0.0 < u < 0.5 else 0.5 < u < 1.0
  {
    Expand(x, q as real, d as real);
    ProductAsReal(q, d);
    SmallError(x * d as real, n, d);
    var product, whole := x * d as real, q * d;
    assert whole as real + r as real == n as real * 10000.0;
    assert (x * 10000.0 - q as real) * d as real == 10000.0 * product - whole as real;
    FractionLies(x * 10000.0 - q as real, d as real, r, d);
  }

  lemma RoundsWithFraction(x: real, q: int, u: real)
    requires x * 10000.0 == q as real + u && 0.0 <= u < 1.0
    ensures QuantizeReal(x) == if u < 0.5 || (u == 0.5 && q % 2 == 0) then q else q + 1
  {
    assert (x * 10000.0).Floor == q;
  }

  /** Dividing with 28 significant digits first makes no difference for fewer than 10^20 visits: whatever number within
      that precision of `n / d`, and equal to it where 28 digits suffice, is rounded, the result is the same. */
  lemma DivisionDigitsDoNotMatter(n: nat, d: nat, x: real)
    requires 0 < d <= 100000000000000000000
    requires -PRECISION * d as real <= x * d as real - n as real <= PRECISION * d as real
    requires 2 * (n * 10000 % d) in {0, d} ==> x * d as real == n as real
    ensures QuantizeReal(x) == Quantize(n, d)
  {
    hide QuantizeReal;
    var q, r := n * 10000 / d, n * 10000 % d;
    assert q * d + r == n * 10000;
    QuotientLies(x, q, r, n, d);
    RoundsWithFraction(x, q, x * 10000.0 - q as real);
  }

  lemma {:induction false} NoneCounted(visits: seq<Visit>, restaurant: Id, start: int, end: int, status: VisitStatus)
    ensures CountStatus(visits, restaurant, start, end, status) == 0 <==>
      forall i | 0 <= i < |visits| ::
        !(visits[i].restaurant == restaurant && start <= visits[i].time < end && visits[i].status == status)
  {
    if visits != [] {
      NoneCounted(visits[1..], restaurant, start, end, status);
      assert forall i | 0 < i < |visits| :: visits[i] == visits[1..][i - 1];
    }
  }

  /** The visit counts: a no-show or a completed one of the restaurant on one of the days. */
  predicate Counted(v: Visit, restaurant: Id, since: int, until: int) {
    v.restaurant == restaurant && since <= DayOf(v.time) <= until && v.status in {NoShow, Completed}
  }

  /** The rate lies in [0, 1], is within half a ten-thousandth of the exact share, and is absent exactly when the days
      hold neither a no-show nor a completed visit. */
  lemma NoShowRateIsAccurate(visits: seq<Visit>, restaurant: Id, since: int, until: int)
    ensures var (start, end) := Bounds(since, until);
      var noShows, completed :=
        CountStatus(visits, restaurant, start, end, NoShow), CountStatus(visits, restaurant, start, end, Completed);
      var rate, all := NoShowRate(visits, restaurant, since, until), noShows + completed;
      rate.Some? ==> 0 <= rate.value <= 10000 && 2 * Gap(rate.value, noShows, all) <= all
    ensures NoShowRate(visits, restaurant, since, until).None?
            <==> forall i | 0 <= i < |visits| :: !Counted(visits[i], restaurant, since, until)
  {
    var (start, end) := Bounds(since, until);
    var noShows, completed :=
      CountStatus(visits, restaurant, start, end, NoShow), CountStatus(visits, restaurant, start, end, Completed);
    NoneCounted(visits, restaurant, start, end, NoShow);
    NoneCounted(visits, restaurant, start, end, Completed);
    forall i | 0 <= i < |visits| ensures start <= visits[i].time < end <==> since <= DayOf(visits[i].time) <= until {
      WindowIsWholeDays(visits[i].time, since, until);
    }
    if noShows + completed > 0 {
      QuantizeIsNearest(noShows, noShows + completed);
    }
  }
}
