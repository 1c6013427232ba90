/**
 * `DashboardController::index`: the ten figures of the dashboard report, each a
 * query over the transactions, transaction_items and products tables, stated as a
 * function of a snapshot of those tables and of the calendar facts for "now".
 */
module Dashboard {
  import opened Query
  import opened Models

  /** Inclusive [start, end] bounds on `instant`, as whereBetween applies them. */
  datatype Bounds = Bounds(start: int, end: int)

  /**
   * What the controller asks Carbon about "now": today's day number, the bounds of
   * this month and this week, the bounds Carbon yields for the previous month, and
   * this month's number (1..12).
   */
  datatype Calendar = Calendar(
    today: int,
    thisMonth: Bounds,
    thisWeek: Bounds,
    previousMonth: Bounds,
    monthOfYear: int)

  /** A snapshot of the three tables the report reads. */
  datatype Store = Store(
    transactions: seq<Transaction>,
    items: seq<Item>,
    products: seq<Product>)

  function Amount(t: Transaction): int
  {
    t.totalAmount
  }

  /** whereDate('created_at', d) */
  function OnDay(d: int): Transaction -> bool
  {
    (t: Transaction) => t.createdAt.day == d
  }

  /** whereBetween('created_at', [b.start, b.end]) */
  function InBounds(b: Bounds): Transaction -> bool
  {
    (t: Transaction) => b.start <= t.createdAt.instant <= b.end
  }

  ghost predicate HasSaleOn(ts: seq<Transaction>, d: int)
  {
    exists t :: t in ts && t.createdAt.day == d
  }

  // ---------------------------------------------------------------- today's stats

  /** One row of SUM(total_amount) and COUNT(*), with SUM defaulting to 0. */
  datatype DayStats = DayStats(total: int, count: nat)

  function TodayStats(ts: seq<Transaction>, today: int): DayStats
  {
    var sold := Filter(ts, OnDay(today));
    DayStats(Sum(sold, Amount), |sold|)
  }

  /**
   * today_sales adds up exactly the transactions of today and today_transactions
   * counts them: the count is 0 exactly when none was created today, and then the
   * sum is 0 as well.
   */
  lemma TodayStatsSpec(ts: seq<Transaction>, today: int)
    ensures TodayStats(ts, today).total == Sum(ts, Guarded(OnDay(today), Amount))
    ensures TodayStats(ts, today).count == Sum(ts, Guarded(OnDay(today), One))
    ensures TodayStats(ts, today).count <= |ts|
    ensures TodayStats(ts, today).count == 0 <==> !HasSaleOn(ts, today)
    ensures !HasSaleOn(ts, today) ==> TodayStats(ts, today).total == 0
  {
    SumFilter(ts, OnDay(today), Amount);
    FilterCount(ts, OnDay(today));
    CountOnDay(ts, today);
    if !HasSaleOn(ts, today) {
      NoMatch(ts, OnDay(today), Amount);
    }
  }

  /** A day's transactions are non-empty exactly when some transaction was created that day. */
  lemma CountOnDay(ts: seq<Transaction>, d: int)
    ensures |Filter(ts, OnDay(d))| > 0 <==> HasSaleOn(ts, d)
  {
    var sold := Filter(ts, OnDay(d));
    if |sold| > 0 {
      FilterMember(ts, OnDay(d), sold[0]);
    }
    if HasSaleOn(ts, d) {
      var t :| t in ts && t.createdAt.day == d;
      FilterMember(ts, OnDay(d), t);
    }
  }

  // ------------------------------------------------------ products sold today

  /**
   * What an item adds to SUM(quantity) over the join of transaction_items with
   * transactions on transaction_id, restricted to transactions created on `today`:
   * its quantity once for every such transaction row it joins with.
   */
  function JoinedQuantity(ts: seq<Transaction>, today: int): Item -> int
  {
    (i: Item) => Sum(ts, (t: Transaction) => if t.id == i.transactionId && t.createdAt.day == today then i.quantity else 0)
  }

  function ProductsSoldToday(ts: seq<Transaction>, items: seq<Item>, today: int): int
  {
    Sum(items, JoinedQuantity(ts, today))
  }

  /** The item's parent transaction, found by id, was created on `today`. */
  ghost predicate ParentOnDay(ts: seq<Transaction>, i: Item, today: int)
  {
    exists t :: t in ts && t.id == i.transactionId && t.createdAt.day == today
  }

  /** Transaction ids are distinct (the primary key). */
  ghost predicate UniqueIds(ts: seq<Transaction>)
  {
    forall a, b :: 0 <= a < b < |ts| ==> ts[a].id != ts[b].id
  }

  /** An item whose parent is not a transaction of today, or that has no parent at all, adds nothing. */
  lemma OrphanAddsNothing(ts: seq<Transaction>, items: seq<Item>, i: Item, today: int)
    requires !ParentOnDay(ts, i, today)
    ensures JoinedQuantity(ts, today)(i) == 0
    ensures ProductsSoldToday(ts, items + [i], today) == ProductsSoldToday(ts, items, today)
  {
    SumOfZeros(ts, (t: Transaction) => if t.id == i.transactionId && t.createdAt.day == today then i.quantity else 0);
    SumAppend(items, [i], JoinedQuantity(ts, today));
  }

  /** When nothing joins with a transaction of today, no product was sold today. */
  lemma NothingSoldToday(ts: seq<Transaction>, items: seq<Item>, today: int)
    requires forall i :: i in items ==> !ParentOnDay(ts, i, today)
    ensures ProductsSoldToday(ts, items, today) == 0
  {
    forall i | i in items
      ensures JoinedQuantity(ts, today)(i) == 0
    {
      OrphanAddsNothing(ts, [], i, today);
    }
    SumOfZeros(items, JoinedQuantity(ts, today));
  }

  /**
   * With distinct transaction ids an item joins at most once, so the figure is
   * the total quantity of the items whose parent was created today.
   */
  lemma ProductsSoldTodaySpec(ts: seq<Transaction>, items: seq<Item>, today: int)
    requires UniqueIds(ts)
    ensures ProductsSoldToday(ts, items, today)
         == Sum(items, (i: Item) => if ParentOnDay(ts, i, today) then i.quantity else 0)
  {
    forall i | i in items
      ensures JoinedQuantity(ts, today)(i) == if ParentOnDay(ts, i, today) then i.quantity else 0
    {
      JoinsOnce(ts, i, today);
    }
    SumCongruent(items, JoinedQuantity(ts, today), (i: Item) => if ParentOnDay(ts, i, today) then i.quantity else 0);
  }

  lemma {:induction false} JoinsOnce(ts: seq<Transaction>, i: Item, today: int)
    requires UniqueIds(ts)
    ensures JoinedQuantity(ts, today)(i) == if ParentOnDay(ts, i, today) then i.quantity else 0
  {
    var term := (t: Transaction) => if t.id == i.transactionId && t.createdAt.day == today then i.quantity else 0;
    if ts != [] {
      var rest := ts[1..];
      assert UniqueIds(rest) by {
        forall a, b | 0 <= a < b < |rest| ensures rest[a].id != rest[b].id {
          assert rest[a] == ts[a + 1] && rest[b] == ts[b + 1];
        }
      }
      JoinsOnce(rest, i, today);
      if ts[0].id == i.transactionId {
        assert !ParentOnDay(rest, i, today) by {
          forall t | t in rest ensures t.id != i.transactionId {
            var b :| 0 <= b < |rest| && rest[b] == t;
            assert ts[b + 1] == t;
          }
        }
        assert ParentOnDay(ts, i, today) <==> ts[0].createdAt.day == today;
      } else {
        assert ParentOnDay(ts, i, today) <==> ParentOnDay(rest, i, today) by {
          if ParentOnDay(ts, i, today) {
            var t :| t in ts && t.id == i.transactionId && t.createdAt.day == today;
            assert t in rest;
          }
        }
      }
    }
  }

  // ------------------------------------------------------------ 7-day chart

  /** One group of the chart query: the day, SUM(total_amount) and COUNT(*) of its transactions. */
  datatype ChartPoint = ChartPoint(date: int, sales: int, transactions: nat)

  /** The group of day `d`, if that day has at least one transaction. */
  function DayPoint(ts: seq<Transaction>, d: int): seq<ChartPoint>
  {
    var sold := Filter(ts, OnDay(d));
    if |sold| == 0 then [] else [ChartPoint(d, Sum(sold, Amount), |sold|)]
  }

  /** The groups for the days first..last that have at least one transaction, by ascending date. */
  function ChartFrom(ts: seq<Transaction>, first: int, last: int): seq<ChartPoint>
    decreases last + 1 - first
  {
    if first > last then [] else DayPoint(ts, first) + ChartFrom(ts, first + 1, last)
  }

  /** sales_chart_data: the window runs from six days before today up to today. */
  function SalesChart(ts: seq<Transaction>, today: int): seq<ChartPoint>
  {
    ChartFrom(ts, today - 6, today)
  }

  /** A point holds the sum and the (positive) count of its own day's transactions. */
  ghost predicate IsDayGroup(ts: seq<Transaction>, p: ChartPoint)
  {
    var sold := Filter(ts, OnDay(p.date));
    p.transactions >= 1 && p.transactions == |sold| && p.sales == Sum(sold, Amount)
  }

  /** The chart has a point for day `d`. */
  ghost predicate HasPoint(r: seq<ChartPoint>, d: int)
  {
    exists k :: 0 <= k < |r| && r[k].date == d
  }

  /** A day contributes at most one point, dated that day. */
  lemma DayPointSize(ts: seq<Transaction>, d: int)
    ensures |DayPoint(ts, d)| <= 1
    ensures |DayPoint(ts, d)| == 1 ==> DayPoint(ts, d)[0].date == d
  {
  }

  /** The point of a day holds that day's group. */
  lemma DayPointGroup(ts: seq<Transaction>, d: int)
    requires |DayPoint(ts, d)| == 1
    ensures IsDayGroup(ts, DayPoint(ts, d)[0])
  {
  }

  /** A day on which a given transaction was created has its point. */
  lemma DayPointPresent(ts: seq<Transaction>, t: Transaction)
    requires t in ts
    ensures |DayPoint(ts, t.createdAt.day)| == 1
  {
    FilterMember(ts, OnDay(t.createdAt.day), t);
  }

  /**
   * One step of the range: the point of `first`, if any, comes first, dated
   * `first`, and the points of first+1..last follow it.
   */
  lemma ChartFromStep(ts: seq<Transaction>, first: int, last: int, k: int)
    requires first <= last && 0 <= k < |ChartFrom(ts, first, last)|
    ensures |DayPoint(ts, first)| <= 1
    ensures |ChartFrom(ts, first, last)| == |DayPoint(ts, first)| + |ChartFrom(ts, first + 1, last)|
    ensures k < |DayPoint(ts, first)| ==> ChartFrom(ts, first, last)[k] == DayPoint(ts, first)[k] && DayPoint(ts, first)[k].date == first
    ensures k >= |DayPoint(ts, first)|
         ==> ChartFrom(ts, first, last)[k] == ChartFrom(ts, first + 1, last)[k - |DayPoint(ts, first)|]
  {
    DayPointSize(ts, first);
    var head, rest := DayPoint(ts, first), ChartFrom(ts, first + 1, last);
    assert ChartFrom(ts, first, last) == head + rest;
  }

  lemma {:induction false} ChartFromLength(ts: seq<Transaction>, first: int, last: int)
    ensures |ChartFrom(ts, first, last)| <= if first <= last then last - first + 1 else 0
    decreases last + 1 - first
  {
    if first <= last {
      ChartFromLength(ts, first + 1, last);
      DayPointSize(ts, first);
      assert ChartFrom(ts, first, last) == DayPoint(ts, first) + ChartFrom(ts, first + 1, last);
    }
  }

  /** Each point is dated within first..last. */
  lemma {:induction false} ChartFromDates(ts: seq<Transaction>, first: int, last: int, k: int)
    requires 0 <= k < |ChartFrom(ts, first, last)|
    ensures first <= ChartFrom(ts, first, last)[k].date <= last
    decreases last + 1 - first
  {
    if first <= last {
      var head, rest := DayPoint(ts, first), ChartFrom(ts, first + 1, last);
      assert ChartFrom(ts, first, last) == head + rest;
      DayPointSize(ts, first);
      if k >= |head| {
        ChartFromDates(ts, first + 1, last, k - |head|);
        assert ChartFrom(ts, first, last)[k] == rest[k - |head|];
      }
    }
  }

  /** Each point is the group of its day. */
  lemma {:induction false} ChartFromGroups(ts: seq<Transaction>, first: int, last: int, k: int)
    requires 0 <= k < |ChartFrom(ts, first, last)|
    ensures IsDayGroup(ts, ChartFrom(ts, first, last)[k])
    decreases last + 1 - first
  {
    if first <= last {
      var head, rest := DayPoint(ts, first), ChartFrom(ts, first + 1, last);
      assert ChartFrom(ts, first, last) == head + rest;
      if k >= |head| {
        ChartFromGroups(ts, first + 1, last, k - |head|);
        assert ChartFrom(ts, first, last)[k] == rest[k - |head|];
      } else {
        DayPointGroup(ts, first);
      }
    }
  }

  /** The points are strictly ascending by day. */
  lemma {:induction false} ChartFromAscending(ts: seq<Transaction>, first: int, last: int, i: int, j: int)
    requires 0 <= i < j < |ChartFrom(ts, first, last)|
    ensures ChartFrom(ts, first, last)[i].date < ChartFrom(ts, first, last)[j].date
    decreases last + 1 - first
  {
    if first <= last {
      var r, rest := ChartFrom(ts, first, last), ChartFrom(ts, first + 1, last);
      var h := |DayPoint(ts, first)|;
      ChartFromStep(ts, first, last, i);
      ChartFromStep(ts, first, last, j);
      assert r[j] == rest[j - h];
      if i < h {
        assert r[i].date == first;
        ChartFromDates(ts, first + 1, last, j - h);
      } else {
        assert r[i] == rest[i - h];
        ChartFromAscending(ts, first + 1, last, i - h, j - h);
      }
    }
  }

  /** The day of every transaction created within first..last has its point. */
  lemma {:induction false} ChartFromComplete(ts: seq<Transaction>, first: int, last: int, t: Transaction)
    requires t in ts && first <= t.createdAt.day <= last
    ensures HasPoint(ChartFrom(ts, first, last), t.createdAt.day)
    decreases last + 1 - first
  {
    var head, rest := DayPoint(ts, first), ChartFrom(ts, first + 1, last);
    var r := ChartFrom(ts, first, last);
    assert r == head + rest;
    var d := t.createdAt.day;
    if d == first {
      DayPointPresent(ts, t);
      DayPointSize(ts, first);
      assert r[0] == head[0];
    } else {
      ChartFromComplete(ts, first + 1, last, t);
      DayPointSize(ts, first);
      var k :| 0 <= k < |rest| && rest[k].date == d;
      assert r[k + |head|] == rest[k];
    }
  }

  /**
   * sales_chart_data has one point per day of the last seven (today included) on
   * which there was a sale, and no other: at most seven, strictly ascending by
   * day, each with that day's sum and count (at least one).
   */
  lemma SalesChartSpec(ts: seq<Transaction>, today: int)
    ensures |SalesChart(ts, today)| <= 7
    ensures forall i, j :: 0 <= i < j < |SalesChart(ts, today)|
              ==> SalesChart(ts, today)[i].date < SalesChart(ts, today)[j].date
    ensures forall k :: 0 <= k < |SalesChart(ts, today)|
              ==> today - 6 <= SalesChart(ts, today)[k].date <= today && IsDayGroup(ts, SalesChart(ts, today)[k])
    ensures forall d :: HasPoint(SalesChart(ts, today), d) <==> today - 6 <= d <= today && HasSaleOn(ts, d)
  {
    var r := SalesChart(ts, today);
    ChartFromLength(ts, today - 6, today);
    forall k | 0 <= k < |r|
      ensures today - 6 <= r[k].date <= today && IsDayGroup(ts, r[k])
    {
      ChartFromDates(ts, today - 6, today, k);
      ChartFromGroups(ts, today - 6, today, k);
    }
    forall i, j | 0 <= i < j < |r|
      ensures r[i].date < r[j].date
    {
      ChartFromAscending(ts, today - 6, today, i, j);
    }
    forall d ensures HasPoint(r, d) <==> today - 6 <= d <= today && HasSaleOn(ts, d) {
      if HasPoint(r, d) {
        var k :| 0 <= k < |r| && r[k].date == d;
        assert IsDayGroup(ts, r[k]);
        CountOnDay(ts, d);
      }
      if today - 6 <= d <= today && HasSaleOn(ts, d) {
        var t :| t in ts && t.createdAt.day == d;
        ChartFromComplete(ts, today - 6, today, t);
      }
    }
  }

  // ----------------------------------------------------------------- revenue

  /** SUM(total_amount) of the transactions created within `b` (0 when there are none). */
  function Revenue(ts: seq<Transaction>, b: Bounds): int
  {
    Sum(Filter(ts, InBounds(b)), Amount)
  }

  /**
   * Revenue is SUM(total_amount) over every transaction whose created_at lies in
   * [start, end], both ends included; every other transaction adds nothing.
   */
  lemma RevenueOver(ts: seq<Transaction>, b: Bounds)
    ensures Revenue(ts, b) == Sum(ts, Guarded(InBounds(b), Amount))
  {
    SumFilter(ts, InBounds(b), Amount);
  }

  /** A range that holds no transaction, in particular an empty range, has revenue 0. */
  lemma RevenueEmpty(ts: seq<Transaction>, b: Bounds)
    requires b.end < b.start || forall t :: t in ts ==> !(b.start <= t.createdAt.instant <= b.end)
    ensures Revenue(ts, b) == 0
  {
    NoMatch(ts, InBounds(b), Amount);
  }

  /** Splitting a range at `mid` splits its revenue: the bounds are inclusive at both ends. */
  lemma {:induction false} RevenueSplit(ts: seq<Transaction>, start: int, mid: int, end: int)
    requires start <= mid < end
    ensures Revenue(ts, Bounds(start, end)) == Revenue(ts, Bounds(start, mid)) + Revenue(ts, Bounds(mid + 1, end))
  {
    var whole, lower, upper := Bounds(start, end), Bounds(start, mid), Bounds(mid + 1, end);
    SumFilter(ts, InBounds(whole), Amount);
    SumFilter(ts, InBounds(lower), Amount);
    SumFilter(ts, InBounds(upper), Amount);
    GuardedSplit(ts, start, mid, end);
  }

  lemma {:induction false} GuardedSplit(ts: seq<Transaction>, start: int, mid: int, end: int)
    requires start <= mid < end
    ensures Sum(ts, Guarded(InBounds(Bounds(start, end)), Amount))
         == Sum(ts, Guarded(InBounds(Bounds(start, mid)), Amount))
          + Sum(ts, Guarded(InBounds(Bounds(mid + 1, end)), Amount))
  {
    if ts != [] {
      GuardedSplit(ts[1..], start, mid, end);
    }
  }

  /** Revenue of transactions that all have non-negative totals lies between 0 and their grand total. */
  lemma RevenueBounded(ts: seq<Transaction>, b: Bounds)
    requires forall t :: t in ts ==> t.totalAmount >= 0
    ensures 0 <= Revenue(ts, b) <= Sum(ts, Amount)
  {
    forall t | t in Filter(ts, InBounds(b)) ensures t.totalAmount >= 0 {
      FilterMember(ts, InBounds(b), t);
    }
    SumNonNegative(Filter(ts, InBounds(b)), Amount);
    SumFilter(ts, InBounds(b), Amount);
    GuardedAtMost(ts, b);
  }

  lemma {:induction false} GuardedAtMost(ts: seq<Transaction>, b: Bounds)
    requires forall t :: t in ts ==> t.totalAmount >= 0
    ensures Sum(ts, Guarded(InBounds(b), Amount)) <= Sum(ts, Amount)
  {
    if ts != [] {
      GuardedAtMost(ts[1..], b);
    }
  }

  // ----------------------------------------------------------------- growth

  /** sales_growth: percentage change against the previous month, 0 unless that month's revenue is positive. */
  function SalesGrowth(monthly: int, previous: int): real
  {
    if previous > 0 then ((monthly - previous) as real / previous as real) * 100.0 else 0.0
  }

  /**
   * Growth is 0 when the previous month brought in nothing (or less), and otherwise
   * is the change relative to it in percent: 0 exactly when the months are equal,
   * positive exactly when this month is higher.
   */
  lemma SalesGrowthSpec(monthly: int, previous: int)
    ensures previous <= 0 ==> SalesGrowth(monthly, previous) == 0.0
    ensures previous > 0 ==> SalesGrowth(monthly, previous) * previous as real == (monthly - previous) as real * 100.0
    ensures SalesGrowth(monthly, previous) == 0.0 <==> previous <= 0 || monthly == previous
    ensures SalesGrowth(monthly, previous) > 0.0 <==> previous > 0 && monthly > previous
  {
    if previous > 0 {
      var p, d := previous as real, (monthly - previous) as real;
      assert (d / p) * p == d;
      assert SalesGrowth(monthly, previous) * p == d * 100.0;
      if monthly > previous {
        assert d / p > 0.0;
      } else if monthly < previous {
        assert d / p < 0.0;
      }
    }
  }

  // -------------------------------------------------------------- customers

  /** The distinct non-null user_id values over all transactions. */
  function Customers(ts: seq<Transaction>): set<int>
  {
    set t | t in ts && HasUser(t) :: t.userId.value
  }

  /** total_customers: COUNT(DISTINCT user_id), with no date filter. */
  function TotalCustomers(ts: seq<Transaction>): nat
  {
    |Customers(ts)|
  }

  function HasUser(t: Transaction): bool
  {
    t.userId.Some?
  }

  /**
   * Distinct customers are at most the transactions that name a user, so at most
   * the transactions, and there are none exactly when no transaction names one.
   */
  lemma {:induction false} TotalCustomersSpec(ts: seq<Transaction>)
    ensures TotalCustomers(ts) <= |Filter(ts, HasUser)| <= |ts|
    ensures TotalCustomers(ts) == 0 <==> forall t :: t in ts ==> t.userId == None
  {
    if |ts| > 0 {
      var rest := ts[1..];
      TotalCustomersSpec(rest);
      CustomersStep(ts);
      var own: set<int> := if HasUser(ts[0]) then {ts[0].userId.value} else {};
      assert |own + Customers(rest)| <= |own| + |Customers(rest)|;
      if forall t :: t in ts ==> t.userId == None {
        assert forall t :: t in rest ==> t.userId == None;
      }
    }
  }

  /** The customers of a table are those of its first row together with those of the rest. */
  lemma CustomersStep(ts: seq<Transaction>)
    requires |ts| > 0
    ensures Customers(ts)
         == (if HasUser(ts[0]) then {ts[0].userId.value} else {}) + Customers(ts[1..])
  {
    var rest := ts[1..];
    assert ts == [ts[0]] + rest;
    forall u | u in Customers(ts)
      ensures u in (if HasUser(ts[0]) then {ts[0].userId.value} else {}) + Customers(rest)
    {
      var t :| t in ts && t.userId.Some? && t.userId.value == u;
      if t != ts[0] {
        assert t in rest;
      }
    }
  }

  // ------------------------------------------------------- best-selling products

  /** One row of the best-sellers query: products.name, SUM(quantity), SUM(subtotal). */
  datatype BestSeller = BestSeller(name: string, totalQuantity: int, totalSales: int)

  function Subtotal(i: Item): int
  {
    i.subtotal
  }

  function TotalQuantity(b: BestSeller): int
  {
    b.totalQuantity
  }

  /** whereMonth('transaction_items.created_at', month): the month of the year only, whatever the year. */
  function InMonth(month: int): Item -> bool
  {
    (i: Item) => i.createdAt.month == month
  }

  /** The join condition products.id = transaction_items.product_id. */
  function OfProduct(id: int): Item -> bool
  {
    (i: Item) => i.productId == id
  }

  function MonthItems(items: seq<Item>, month: int): seq<Item>
  {
    Filter(items, InMonth(month))
  }

  /** Some item joins with the product, so the product forms a group. */
  predicate Sold(p: Product, items: seq<Item>)
  {
    exists i :: i in items && i.productId == p.id
  }

  /** The group of one product: its name and the sums over the items joined with it. */
  function SellerOf(p: Product, items: seq<Item>): BestSeller
  {
    var own := Filter(items, OfProduct(p.id));
    BestSeller(p.name, Sum(own, Quantity), Sum(own, Subtotal))
  }

  /**
   * GROUP BY products.id, products.name over the join: one group per product row
   * that some item joins with (the same as one per product id, ids being the key).
   */
  function Groups(products: seq<Product>, items: seq<Item>): seq<BestSeller>
  {
    if products == [] then []
    else
      (if Sold(products[0], items) then [SellerOf(products[0], items)] else [])
        + Groups(products[1..], items)
  }

  /** best_selling_products: the groups of this month's items, by descending total quantity, first five. */
  function BestSelling(products: seq<Product>, items: seq<Item>, month: int): seq<BestSeller>
  {
    Top(Groups(products, MonthItems(items, month)), TotalQuantity, 5)
  }

  /** There are at most as many groups as products. */
  lemma {:induction false} GroupsBound(products: seq<Product>, items: seq<Item>)
    ensures |Groups(products, items)| <= |products|
  {
    if products != [] {
      GroupsBound(products[1..], items);
    }
  }

  /** Every group is that of a product some item joins with. */
  lemma {:induction false} GroupsFromProducts(products: seq<Product>, items: seq<Item>, g: BestSeller)
    requires g in Groups(products, items)
    ensures exists p :: p in products && Sold(p, items) && g == SellerOf(p, items)
  {
    var head := if Sold(products[0], items) then [SellerOf(products[0], items)] else [];
    assert Groups(products, items) == head + Groups(products[1..], items);
    if g !in head {
      GroupsFromProducts(products[1..], items, g);
      var p :| p in products[1..] && Sold(p, items) && g == SellerOf(p, items);
      assert p in products;
    }
  }

  /** Every product some item joins with has its group. */
  lemma {:induction false} GroupOfProduct(products: seq<Product>, items: seq<Item>, p: Product)
    requires p in products && Sold(p, items)
    ensures SellerOf(p, items) in Groups(products, items)
  {
    var head := if Sold(products[0], items) then [SellerOf(products[0], items)] else [];
    assert Groups(products, items) == head + Groups(products[1..], items);
    if p != products[0] {
      assert p in products[1..];
      GroupOfProduct(products[1..], items, p);
    }
  }

  /**
   * A group's totals are the sums of quantity and of subtotal over exactly those
   * items of the whole table that belong to its product and were created in the
   * given month of the year.
   */
  lemma SellerTotals(p: Product, items: seq<Item>, month: int)
    ensures SellerOf(p, MonthItems(items, month)).totalQuantity
         == Sum(items, (i: Item) => if i.productId == p.id && i.createdAt.month == month then i.quantity else 0)
    ensures SellerOf(p, MonthItems(items, month)).totalSales
         == Sum(items, (i: Item) => if i.productId == p.id && i.createdAt.month == month then i.subtotal else 0)
  {
    NestedFilterSum(items, InMonth(month), OfProduct(p.id), Quantity);
    NestedFilterSum(items, InMonth(month), OfProduct(p.id), Subtotal);
    SumCongruent(items, Guarded(InMonth(month), Guarded(OfProduct(p.id), Quantity)),
      (i: Item) => if i.productId == p.id && i.createdAt.month == month then i.quantity else 0);
    SumCongruent(items, Guarded(InMonth(month), Guarded(OfProduct(p.id), Subtotal)),
      (i: Item) => if i.productId == p.id && i.createdAt.month == month then i.subtotal else 0);
  }

  /**
   * best_selling_products holds as many groups as there are, up to five, by
   * non-increasing total quantity.
   */
  lemma BestSellingSpec(products: seq<Product>, items: seq<Item>, month: int)
    ensures |BestSelling(products, items, month)| == Min(5, |Groups(products, MonthItems(items, month))|)
    ensures |BestSelling(products, items, month)| <= 5
    ensures Descending(BestSelling(products, items, month), TotalQuantity)
  {
    TopSpec(Groups(products, MonthItems(items, month)), TotalQuantity, 5);
  }

  /** best_selling_products lists each group at most once: its entries are drawn from the groups without repetition. */
  lemma BestSellingDistinct(products: seq<Product>, items: seq<Item>, month: int)
    ensures multiset(BestSelling(products, items, month)) <= multiset(Groups(products, MonthItems(items, month)))
  {
    TopSpec(Groups(products, MonthItems(items, month)), TotalQuantity, 5);
  }

  /** Every entry of best_selling_products is the group of a product sold in the month. */
  lemma BestSellingGroups(products: seq<Product>, items: seq<Item>, month: int)
    ensures forall e :: e in BestSelling(products, items, month)
              ==> exists p :: p in products && Sold(p, MonthItems(items, month)) && e == SellerOf(p, MonthItems(items, month))
  {
    var mi := MonthItems(items, month);
    var groups := Groups(products, mi);
    var r := BestSelling(products, items, month);
    TopSpec(groups, TotalQuantity, 5);
    forall e | e in r
      ensures exists p :: p in products && Sold(p, mi) && e == SellerOf(p, mi)
    {
      assert e in multiset(r);
      GroupsFromProducts(products, mi, e);
    }
  }

  /** A product sold in the month but left out sold no more than any product listed. */
  lemma BestSellingLeftOut(products: seq<Product>, items: seq<Item>, month: int)
    ensures forall p, e :: p in products && Sold(p, MonthItems(items, month))
                && SellerOf(p, MonthItems(items, month)) !in BestSelling(products, items, month)
                && e in BestSelling(products, items, month)
              ==> SellerOf(p, MonthItems(items, month)).totalQuantity <= e.totalQuantity
  {
    var mi := MonthItems(items, month);
    var groups := Groups(products, mi);
    var r := BestSelling(products, items, month);
    forall p, e | p in products && Sold(p, mi) && SellerOf(p, mi) !in r && e in r
      ensures SellerOf(p, mi).totalQuantity <= e.totalQuantity
    {
      var g := SellerOf(p, mi);
      GroupOfProduct(products, mi, p);
      assert g in multiset(groups) - multiset(r);
      TopKeepsLargest(groups, TotalQuantity, 5, g, e);
    }
  }

  /** Every group left out, counted with its multiplicity, sold no more than any entry listed. */
  lemma BestSellingGroupsLeftOut(products: seq<Product>, items: seq<Item>, month: int, g: BestSeller, e: BestSeller)
    requires g in multiset(Groups(products, MonthItems(items, month))) - multiset(BestSelling(products, items, month))
    requires e in BestSelling(products, items, month)
    ensures g.totalQuantity <= e.totalQuantity
  {
    TopKeepsLargest(Groups(products, MonthItems(items, month)), TotalQuantity, 5, g, e);
  }

  // ----------------------------------------------------------- recent transactions

  /** The instant of created_at, which latest() orders by. */
  function InstantOf(t: Transaction): int
  {
    t.createdAt.instant
  }

  /** latest()->take(n): the n transactions with the latest created_at. */
  function Latest(ts: seq<Transaction>, n: nat): seq<Transaction>
  {
    Top(ts, InstantOf, n)
  }

  /** recent_transactions: the five latest transactions, each in its dashboard format. */
  function RecentTransactions(ts: seq<Transaction>, items: seq<Item>): seq<Summary>
  {
    var latest := Latest(ts, 5);
    seq(|latest|, k requires 0 <= k < |latest| => ToDashboardFormat(latest[k], items))
  }

  /**
   * recent_transactions has min(5, |transactions|) entries by non-increasing
   * created_at, each the summary of a stored transaction.
   */
  lemma RecentTransactionsSpec(ts: seq<Transaction>, items: seq<Item>)
    ensures |RecentTransactions(ts, items)| == Min(5, |ts|)
    ensures forall i, j :: 0 <= i < j < |RecentTransactions(ts, items)|
              ==> RecentTransactions(ts, items)[i].createdAt.instant >= RecentTransactions(ts, items)[j].createdAt.instant
    ensures forall k :: 0 <= k < |RecentTransactions(ts, items)|
              ==> Latest(ts, 5)[k] in ts && RecentTransactions(ts, items)[k] == ToDashboardFormat(Latest(ts, 5)[k], items)
    ensures multiset(Latest(ts, 5)) <= multiset(ts)
  {
    var latest := Latest(ts, 5);
    TopSpec(ts, InstantOf, 5);
    forall k | 0 <= k < |latest| ensures latest[k] in ts {
      assert latest[k] in multiset(latest);
    }
  }

  /** No transaction left out of recent_transactions is newer than an entry in it. */
  lemma RecentTransactionsNewest(ts: seq<Transaction>, items: seq<Item>)
    ensures forall t, k :: t in multiset(ts) - multiset(Latest(ts, 5)) && 0 <= k < |RecentTransactions(ts, items)|
              ==> t.createdAt.instant <= RecentTransactions(ts, items)[k].createdAt.instant
  {
    var latest := Latest(ts, 5);
    var r := RecentTransactions(ts, items);
    forall t, k | t in multiset(ts) - multiset(latest) && 0 <= k < |r|
      ensures t.createdAt.instant <= r[k].createdAt.instant
    {
      TopKeepsLargest(ts, InstantOf, 5, t, latest[k]);
    }
  }

  /** Each entry's items_count is the total quantity of that transaction's own items. */
  lemma RecentItemsCount(ts: seq<Transaction>, items: seq<Item>)
    ensures forall k :: 0 <= k < |RecentTransactions(ts, items)| ==>
              RecentTransactions(ts, items)[k].itemsCount
                == Sum(items, Guarded(BelongsTo(RecentTransactions(ts, items)[k].id), Quantity))
  {
    var latest := Latest(ts, 5);
    forall k | 0 <= k < |latest|
      ensures RecentTransactions(ts, items)[k].itemsCount
           == Sum(items, Guarded(BelongsTo(latest[k].id), Quantity))
    {
      ItemsCountOverAllItems(latest[k], items);
    }
  }

  // ------------------------------------------------------------------- report

  /** The `data` object of the response, field by field. */
  datatype Report = Report(
    todaySales: int,
    todayTransactions: nat,
    totalProductsSold: int,
    recentTransactions: seq<Summary>,
    monthlyRevenue: int,
    weeklyRevenue: int,
    salesGrowth: real,
    totalCustomers: nat,
    bestSellingProducts: seq<BestSeller>,
    salesChartData: seq<ChartPoint>)

  function ComputeReport(db: Store, cal: Calendar): Report
  {
    var today := TodayStats(db.transactions, cal.today);
    var monthly := Revenue(db.transactions, cal.thisMonth);
    var previous := Revenue(db.transactions, cal.previousMonth);
    Report(
      today.total,
      today.count,
      ProductsSoldToday(db.transactions, db.items, cal.today),
      RecentTransactions(db.transactions, db.items),
      monthly,
      Revenue(db.transactions, cal.thisWeek),
      SalesGrowth(monthly, previous),
      TotalCustomers(db.transactions),
      BestSelling(db.products, db.items, cal.monthOfYear),
      SalesChart(db.transactions, cal.today))
  }

  /** The size bounds and the growth guard every report satisfies. */
  lemma ReportBounds(db: Store, cal: Calendar)
    ensures ComputeReport(db, cal).todayTransactions <= |db.transactions|
    ensures |ComputeReport(db, cal).recentTransactions| == Min(5, |db.transactions|)
    ensures |ComputeReport(db, cal).bestSellingProducts| <= 5
    ensures |ComputeReport(db, cal).bestSellingProducts| <= |db.products|
    ensures |ComputeReport(db, cal).salesChartData| <= 7
    ensures ComputeReport(db, cal).totalCustomers <= |db.transactions|
    ensures Revenue(db.transactions, cal.previousMonth) <= 0 ==> ComputeReport(db, cal).salesGrowth == 0.0
  {
    var ts := db.transactions;
    TodayStatsSpec(ts, cal.today);
    RecentTransactionsSpec(ts, db.items);
    BestSellingSpec(db.products, db.items, cal.monthOfYear);
    GroupsBound(db.products, MonthItems(db.items, cal.monthOfYear));
    SalesChartSpec(ts, cal.today);
    TotalCustomersSpec(ts);
    SalesGrowthSpec(Revenue(ts, cal.thisMonth), Revenue(ts, cal.previousMonth));
  }

  /** With no transactions and no items every figure is 0 and every list is empty. */
  lemma EmptyStoreReport(products: seq<Product>, cal: Calendar)
    ensures ComputeReport(Store([], [], products), cal)
         == Report(0, 0, 0, [], 0, 0, 0.0, 0, [], [])
  {
    var r := ComputeReport(Store([], [], products), cal);
    assert r.todaySales == 0 && r.todayTransactions == 0 by {
      TodayStatsSpec([], cal.today);
    }
    assert r.recentTransactions == [] by {
      RecentTransactionsSpec([], []);
    }
    assert r.totalCustomers == 0 by {
      TotalCustomersSpec([]);
    }
    assert r.bestSellingProducts == [] by {
      GroupsOfNothing(products, MonthItems([], cal.monthOfYear));
      TopSpec(Groups(products, MonthItems([], cal.monthOfYear)), TotalQuantity, 5);
    }
    assert r.salesChartData == [] by {
      ChartOfNothing(cal.today - 6, cal.today);
    }
  }

  lemma {:induction false} ChartOfNothing(first: int, last: int)
    ensures ChartFrom([], first, last) == []
    decreases last + 1 - first
  {
    if first <= last {
      ChartOfNothing(first + 1, last);
    }
  }

  lemma {:induction false} GroupsOfNothing(products: seq<Product>, items: seq<Item>)
    requires items == []
    ensures Groups(products, items) == []
  {
    if products != [] {
      GroupsOfNothing(products[1..], items);
    }
  }

  // --------------------------------------------------------------- failure

  /** A snapshot of the tables as the queries saw it, or the storage fault that stopped them. */
  datatype Snapshot = Loaded(store: Store) | StorageFault(detail: string)

  /** The JSON envelope: the report, or the generic error message (with status 500). */
  datatype Response = Success(data: Report) | Error(message: string)

  const FailureMessage: string := "Failed to load dashboard data"

  /** `index()`: a storage fault aborts the whole computation and yields only the generic error. */
  function Index(snapshot: Snapshot, cal: Calendar): (r: Response)
    ensures r.Success? <==> snapshot.Loaded?
    ensures snapshot.Loaded? ==> r == Success(ComputeReport(snapshot.store, cal))
    ensures r.Error? ==> r.message == FailureMessage
  {
    match snapshot
    case Loaded(db) => Success(ComputeReport(db, cal))
    case StorageFault(_) => Error(FailureMessage)
  }

  // --------------------------------------------------------------- examples

  /** Two sales of today (100 and 50) and one of yesterday (200): today_sales 150 over 2 transactions. */
  lemma TodayExample()
    ensures TodayStats([
      Transaction(1, Some(7), 100, "completed", Stamp(1000, 20, 10)),
      Transaction(2, None, 50, "completed", Stamp(1100, 20, 10)),
      Transaction(3, Some(7), 200, "completed", Stamp(900, 19, 10))], 20) == DayStats(150, 2)
  {
  }

  /** A product with two items this month (3 for 30 and 2 for 20) is listed with 5 sold for 50. */
  lemma BestSellerExample()
    ensures BestSelling(
      [Product(1, "Coffee")],
      [Item(10, 1, 3, 30, Stamp(1000, 20, 10)), Item(11, 1, 2, 20, Stamp(1100, 20, 10))],
      10) == [BestSeller("Coffee", 5, 50)]
  {
  }
}
