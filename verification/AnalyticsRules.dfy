/** The reports told on the rows they read: which rows count, what is summed, and in what order items are listed. */
module AnalyticsRules {
  import opened Prelude
  import opened Analytics

  /** The moment lies on one of the days, each of 86 400 seconds. */
  predicate OnDays(t: int, since: int, until: int) {
    since * 86_400_000_000 <= t && t < (until + 1) * 86_400_000_000
  }

  function Window(sales: seq<Sale>, restaurant: Id, since: int, until: int): seq<Sale> {
    InWindow(sales, restaurant, Bounds(since, until).0, Bounds(since, until).1)
  }

  /** A report reads exactly the restaurant's sales of its days, each as often as it is there. */
  lemma {:induction false} WindowIsExact(sales: seq<Sale>, restaurant: Id, since: int, until: int, sale: Sale)
    ensures multiset(Window(sales, restaurant, since, until))[sale]
         == if sale.restaurant == restaurant && OnDays(sale.soldAt, since, until) then multiset(sales)[sale] else 0
    decreases |sales|
  {
    if sales != [] {
      var first, rest := sales[0], sales[1..];
      WindowIsExact(rest, restaurant, since, until, sale);
      assert sales == [first] + rest;
      assert multiset(sales)[sale] == (if first == sale then 1 else 0) + multiset(rest)[sale];
      var later := Window(rest, restaurant, since, until);
      assert multiset([first] + later)[sale] == (if first == sale then 1 else 0) + multiset(later)[sale];
    }
  }

  // ---- sums ----

  function Total(sales: seq<Sale>): real {
    if sales == [] then 0.0
    else
      var last := sales[|sales| - 1];
      Total(sales[..|sales| - 1]) + last.quantity as real * last.unitPrice
  }

  function Sold(sales: seq<Sale>): int {
    if sales == [] then 0 else Sold(sales[..|sales| - 1]) + sales[|sales| - 1].quantity
  }

  lemma {:induction false} SumsAppend(sales: seq<Sale>, last: Sale)
    ensures Revenue(sales + [last]) == Revenue(sales) + last.quantity as real * last.unitPrice
    ensures Units(sales + [last]) == Units(sales) + last.quantity
    decreases |sales|
  {
    if sales == [] {
      assert [] + [last] == [last] && [last][1..] == [];
    } else {
      SumsAppend(sales[1..], last);
      assert (sales + [last])[1..] == sales[1..] + [last] && (sales + [last])[0] == sales[0];
      hide TotalPrice;
    }
  }

  /** The revenue is the sum of quantity times unit price, and the units are the sum of the quantities. */
  lemma {:induction false} SumsAreTotals(sales: seq<Sale>)
    ensures Revenue(sales) == Total(sales) && Units(sales) == Sold(sales)
    decreases |sales|
  {
    if sales != [] {
      var front, last := sales[..|sales| - 1], sales[|sales| - 1];
      SumsAreTotals(front);
      SumsAppend(front, last);
      assert sales == front + [last];
      hide Revenue, Units;
    }
  }

  lemma {:induction false} OfItemIsExact(sales: seq<Sale>, item: Id, sale: Sale)
    ensures multiset(OfItem(sales, item))[sale] == if sale.item == item then multiset(sales)[sale] else 0
    decreases |sales|
  {
    if sales != [] {
      var first, rest := sales[0], sales[1..];
      OfItemIsExact(rest, item, sale);
      assert sales == [first] + rest;
      assert multiset(sales)[sale] == (if first == sale then 1 else 0) + multiset(rest)[sale];
      var later := OfItem(rest, item);
      assert multiset([first] + later)[sale] == (if first == sale then 1 else 0) + multiset(later)[sale];
    }
  }

  // ---- the item report ----

  /** The row sums up the item's sales, and there are some. */
  predicate SumsUp(sales: seq<Sale>, row: ItemRow) {
    && (exists i | 0 <= i < |sales| :: sales[i].item == row.item)
    && row.units == Units(OfItem(sales, row.item)) && row.revenue == Revenue(OfItem(sales, row.item))
  }

  lemma {:induction false} RowsAt(sales: seq<Sale>, items: seq<Id>)
    ensures |RowsOf(sales, items)| == |items|
    ensures forall i | 0 <= i < |items| :: RowsOf(sales, items)[i] == RowOf(sales, items[i])
    decreases |items|
  {
    if items != [] {
      RowsAt(sales, items[..|items| - 1]);
      hide RowOf;
    }
  }

  lemma RankingIsByUnits(sales: seq<Sale>)
    ensures var ranking := Ranking(sales);
      && (forall item :: item in ranking <==> exists i | 0 <= i < |sales| :: sales[i].item == item)
      && forall i, j | 0 <= i < j < |ranking| ::
           ranking[i] != ranking[j] && Units(OfItem(sales, ranking[i])) >= Units(OfItem(sales, ranking[j]))
  {
    hide Units, OfItem;
    var key := map item | item in ItemsIn(sales) :: -(Units(OfItem(sales, item)) as real);
    var ranking := OrderBy(key);
    forall i, j | 0 <= i < j < |ranking|
      ensures ranking[i] != ranking[j] && Units(OfItem(sales, ranking[i])) >= Units(OfItem(sales, ranking[j]))
    {
      assert ranking[i] in ranking && ranking[j] in ranking;
      assert Before(key, ranking[i], ranking[j]);
    }
  }

  /** Different items, by units sold and no more than asked for, leaving out only items that sold no more. */
  ghost predicate Ranked(own: seq<Sale>, rows: seq<ItemRow>, limit: nat) {
    && |rows| <= limit
    && (forall i, j | 0 <= i < j < |rows| :: rows[i].item != rows[j].item && rows[i].units >= rows[j].units)
    && forall k | 0 <= k < |own| && (forall i | 0 <= i < |rows| :: rows[i].item != own[k].item) ::
         |rows| == limit && forall i | 0 <= i < |rows| :: rows[i].units >= Units(OfItem(own, own[k].item))
  }

  /** The rows of the report are those of the first items of the ranking. */
  predicate FirstRanked(own: seq<Sale>, ranking: seq<Id>, rows: seq<ItemRow>, limit: nat) {
    && |rows| == (if |ranking| <= limit then |ranking| else limit)
    && forall i | 0 <= i < |rows| :: rows[i] == RowOf(own, ranking[i])
  }

  lemma ReportIsFirstRanked(sales: seq<Sale>, restaurant: Id, since: int, until: int, limit: nat)
    ensures var own := Window(sales, restaurant, since, until);
      FirstRanked(own, Ranking(own), ItemSales(sales, restaurant, since, until, limit), limit)
  {
    var own := Window(sales, restaurant, since, until);
    var ranking := Ranking(own);
    RowsAt(own, if |ranking| <= limit then ranking else ranking[..limit]);
    hide Ranking, RowOf, RowsOf, InWindow;
  }

  lemma FirstRankedIsRanked(own: seq<Sale>, rows: seq<ItemRow>, limit: nat)
    requires FirstRanked(own, Ranking(own), rows, limit)
    ensures Ranked(own, rows, limit)
  {
    var ranking := Ranking(own);
    RankingIsByUnits(own);
    hide Ranking, Units, OfItem, Revenue;
    forall i, j | 0 <= i < j < |rows| ensures rows[i].item != rows[j].item && rows[i].units >= rows[j].units {
      assert rows[i] == RowOf(own, ranking[i]) && rows[j] == RowOf(own, ranking[j]);
    }
    forall k | 0 <= k < |own| && (forall i | 0 <= i < |rows| :: rows[i].item != own[k].item)
      ensures |rows| == limit && forall i | 0 <= i < |rows| :: rows[i].units >= Units(OfItem(own, own[k].item))
    {
      assert own[k].item in ranking;
      var n :| 0 <= n < |ranking| && ranking[n] == own[k].item;
      assert forall i | 0 <= i < |rows| :: rows[i] == RowOf(own, ranking[i]);
    }
  }

  lemma FirstRankedSumUp(own: seq<Sale>, rows: seq<ItemRow>, limit: nat)
    requires FirstRanked(own, Ranking(own), rows, limit)
    ensures forall i | 0 <= i < |rows| :: SumsUp(own, rows[i])
  {
    RankingIsByUnits(own);
    hide Ranking, Units, OfItem, Revenue;
    forall i | 0 <= i < |rows| ensures SumsUp(own, rows[i]) {
      assert Ranking(own)[i] in Ranking(own);
    }
  }

  /** The item report sums up different items, best-selling first and no more than asked for; it leaves an item out only
      for others that sold at least as much. */
  lemma ItemReportIsRanked(sales: seq<Sale>, restaurant: Id, since: int, until: int, limit: nat)
    ensures var own, rows := Window(sales, restaurant, since, until), ItemSales(sales, restaurant, since, until, limit);
      Ranked(own, rows, limit) && forall i | 0 <= i < |rows| :: SumsUp(own, rows[i])
  {
    hide *;
    var own, rows := Window(sales, restaurant, since, until), ItemSales(sales, restaurant, since, until, limit);
    ReportIsFirstRanked(sales, restaurant, since, until, limit);
    FirstRankedIsRanked(own, rows, limit);
    FirstRankedSumUp(own, rows, limit);
  }

  // ---- covers and no-shows ----

  /** Guests of completed visits to the restaurant on the days. */
  function Guests(visits: seq<Visit>, restaurant: Id, since: int, until: int): int {
    if visits == [] then 0
    else
      var last := visits[|visits| - 1];
      Guests(visits[..|visits| - 1], restaurant, since, until)
      + if last.restaurant == restaurant && OnDays(last.time, since, until) && last.status == Completed
        then last.party else 0
  }

  /** Visits to the restaurant on the days with that status. */
  function Visits(visits: seq<Visit>, restaurant: Id, since: int, until: int, status: VisitStatus): nat {
    if visits == [] then 0
    else
      var last := visits[|visits| - 1];
      Visits(visits[..|visits| - 1], restaurant, since, until, status)
      + if last.restaurant == restaurant && OnDays(last.time, since, until) && last.status == status then 1 else 0
  }

  lemma {:induction false} CountsAppend(
    visits: seq<Visit>, last: Visit, restaurant: Id, start: int, end: int, status: VisitStatus)
    ensures Covers(visits + [last], restaurant, start, end)
         == Covers(visits, restaurant, start, end) + Covers([last], restaurant, start, end)
    ensures CountStatus(visits + [last], restaurant, start, end, status)
         == CountStatus(visits, restaurant, start, end, status) + CountStatus([last], restaurant, start, end, status)
    decreases |visits|
  {
    if visits == [] {
      assert [] + [last] == [last];
    } else {
      CountsAppend(visits[1..], last, restaurant, start, end, status);
      assert (visits + [last])[1..] == visits[1..] + [last];
    }
  }

  /** Covers and status counts are of exactly the restaurant's visits of the days. */
  lemma {:induction false} CountsAreExact(
    visits: seq<Visit>, restaurant: Id, since: int, until: int, status: VisitStatus)
    ensures var (start, end) := Bounds(since, until);
      && Covers(visits, restaurant, start, end) == Guests(visits, restaurant, since, until)
      && CountStatus(visits, restaurant, start, end, status) == Visits(visits, restaurant, since, until, status)
    decreases |visits|
  {
    if visits != [] {
      var front, last := visits[..|visits| - 1], visits[|visits| - 1];
      var (start, end) := Bounds(since, until);
      CountsAreExact(front, restaurant, since, until, status);
      CountsAppend(front, last, restaurant, start, end, status);
      assert visits == front + [last];
      assert Covers([], restaurant, start, end) == CountStatus([], restaurant, start, end, status) == 0;
      assert [last][1..] == [];
    }
  }

  /** `rate` is the whole number nearest to `n / d * 10000`, and of two equally near ones the even one. */
  predicate NearestEven(rate: int, n: int, d: int) {
    var gap := 2 * (rate * d - n * 10000);
    -d <= gap <= d && (gap == d || gap == -d ==> rate % 2 == 0)
  }

  /** The no-show rate is, in ten-thousandths and with halves going to the even one, the nearest to the share of
      no-shows among the no-shows and completed visits; without any of them there is none. */
  lemma NoShowRateIsShare(visits: seq<Visit>, restaurant: Id, since: int, until: int)
    ensures var rate := NoShowRate(visits, restaurant, since, until);
      var missed := Visits(visits, restaurant, since, until, NoShow);
      var all := missed + Visits(visits, restaurant, since, until, Completed);
      && (rate == None <==> all == 0)
      && (rate.Some? ==> NearestEven(rate.value, missed, all))
  {
    CountsAreExact(visits, restaurant, since, until, NoShow);
    CountsAreExact(visits, restaurant, since, until, Completed);
    var missed := Visits(visits, restaurant, since, until, NoShow);
    var all := missed + Visits(visits, restaurant, since, until, Completed);
    hide Visits, CountStatus;
    if all > 0 {
      QuantizeIsHalfEven(missed, all);
    }
    hide Quantize;
  }

  lemma QuantizeIsHalfEven(n: nat, d: nat)
    requires d > 0
    ensures NearestEven(Quantize(n, d), n, d)
  {
    var q, r := n * 10000 / d, n * 10000 % d;
    assert q * d + r == n * 10000;
    assert (q + 1) * d == q * d + d;
    hide NearestEven;
    if 2 * r < d || (2 * r == d && q % 2 == 0) {
      TwiceGap(q * d, r, n, q, d);
    } else {
      TwiceGap((q + 1) * d, r - d, n, q + 1, d);
    }
  }

  lemma TwiceGap(product: int, r: int, n: int, rate: int, d: int)
    requires product == rate * d && product + r == n * 10000 && -d <= 2 * r <= d
    requires 2 * r == d || 2 * r == -d ==> rate % 2 == 0
    ensures NearestEven(rate, n, d)
  {
  }
}
