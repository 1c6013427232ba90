# Point-of-sale dashboard report, modelled in Dafny

This project models the reporting core of a point-of-sale backend: the dashboard
endpoint `DashboardController::index`, which reads the `transactions`,
`transaction_items` and `products` tables and returns one report with ten
figures: today's sales and transaction count, products sold today, a 7-day sales
chart, monthly and weekly revenue, month-over-month growth, distinct customers,
the five best-selling products of the month, and the five most recent transactions.
It also models the per-transaction summary `Transaction::toDashboardFormat`.

Every query is a pure function over finite sequences of rows:

- `query.dfy` (module `Query`) holds the relational building blocks. `Filter` is
  WHERE. `Sum` is SUM with the 0 default. `SortDesc` is ORDER BY ... DESC, written
  as an insertion sort. `Top` is ORDER BY ... DESC LIMIT n.
- `transaction.dfy` (module `Models`) holds the rows and `ToDashboardFormat`.
  Money is integer cents.
- `dashboard.dfy` (module `Dashboard`) has one function per report field, plus
  `Report`, `ComputeReport` and `Index` (the error path).

"Now" is a parameter. A `Calendar` value carries today's day number, the bounds of
this month, this week and the previous month, and this month's number. A
timestamp (`Stamp`) carries three things already resolved in the server's time
zone: an `instant` (for ordering and BETWEEN bounds), a `day` (DATE(created_at))
and a `month` of the year (MONTH(created_at)).

Two behaviours of the code are kept as written:

- sales_chart_data omits days without transactions. It does not zero-fill them.
- sales_growth is 0 whenever the previous month's revenue is not positive. That
  covers a negative total too, not only 0.

Idempotence needs no lemma. Each report field is a function of the snapshot and
the calendar, so two calls on the same snapshot give equal reports.

## Model

| member | source | states |
|---|---|---|
| Models.ToDashboardFormat | pos_be/app/Models/Transaction.php:26-35 | id, status, total_amount and created_at of the summary are the transaction's own, unchanged |
| Models.ItemsCountOverAllItems | pos_be/app/Models/Transaction.php:31 | items_count is the sum, over the whole items table, of each item's quantity when it belongs to this transaction and 0 otherwise |
| Models.ItemsCountWithoutItems | pos_be/app/Models/Transaction.php:31 | a transaction with no items has items_count 0 |
| Models.ItemsCountNonNegative | pos_be/app/Models/Transaction.php:31 | with non-negative item quantities, items_count is never negative |
| Models.SummaryIgnoresForeignItems | pos_be/app/Models/Transaction.php:21-24 | adding items of other transactions to the table leaves the summary unchanged |
| Models.SummaryOwnItemsOnly | pos_be/app/Models/Transaction.php:21-24 | the summary computed from the transaction's own items equals the one computed from the whole table |
| Dashboard.TodayStatsSpec | pos_be/app/Http/Controllers/API/DashboardController.php:20-25 | today_sales is the sum of total_amount over exactly today's transactions; today_transactions is the number of them (a sum of 1 over today's transactions), is at most the number of transactions, and is 0 exactly when none was created today, in which case today_sales is 0 |
| Dashboard.TodayExample | pos_be/app/Http/Controllers/API/DashboardController.php:20-25 | sales of 100 and 50 today and 200 yesterday give today_sales 150 over 2 transactions |
| Dashboard.OrphanAddsNothing | pos_be/app/Http/Controllers/API/DashboardController.php:28-31 | an item that joins with no transaction created today contributes nothing to total_products_sold |
| Dashboard.NothingSoldToday | pos_be/app/Http/Controllers/API/DashboardController.php:28-31 | when no item joins with a transaction of today, total_products_sold is 0 |
| Dashboard.ProductsSoldTodaySpec | pos_be/app/Http/Controllers/API/DashboardController.php:28-31 | with distinct transaction ids, total_products_sold is the total quantity of the items whose parent transaction was created today |
| Dashboard.JoinsOnce | pos_be/app/Http/Controllers/API/DashboardController.php:29 | with distinct transaction ids, an item's share of the join is its quantity if its parent was created today, else 0 |
| Dashboard.DayPointPresent | pos_be/app/Http/Controllers/API/DashboardController.php:38-43 | a day on which some transaction was created forms a group |
| Dashboard.ChartFromLength | pos_be/app/Http/Controllers/API/DashboardController.php:38-43 | there are no more day groups over a range than days in the range |
| Dashboard.ChartFromDates | pos_be/app/Http/Controllers/API/DashboardController.php:34-43 | every day group over a range is dated within the range |
| Dashboard.ChartFromGroups | pos_be/app/Http/Controllers/API/DashboardController.php:38-43 | every day group carries SUM(total_amount) and COUNT(*) (at least 1) of the transactions created on its day |
| Dashboard.ChartFromAscending | pos_be/app/Http/Controllers/API/DashboardController.php:43-44 | the day groups are strictly ascending by date: one group per date, ordered by date |
| Dashboard.ChartFromComplete | pos_be/app/Http/Controllers/API/DashboardController.php:38-45 | for every stored transaction created on a day within the range, that day has a group |
| Dashboard.SalesChartSpec | pos_be/app/Http/Controllers/API/DashboardController.php:34-52 | sales_chart_data has a point for day d exactly when today-6 <= d <= today and some transaction was created on d; at most 7 points, strictly ascending, each with that day's sum and count (at least 1) |
| Dashboard.RevenueOver | pos_be/app/Http/Controllers/API/DashboardController.php:55-70 | monthly, weekly and previous-month revenue are the sum of total_amount over every transaction whose created_at lies within the bounds, both ends included, and no other |
| Dashboard.RevenueEmpty | pos_be/app/Http/Controllers/API/DashboardController.php:55-70 | monthly, weekly and previous-month revenue are 0 on an empty range or when no transaction lies in the range |
| Dashboard.RevenueSplit | pos_be/app/Http/Controllers/API/DashboardController.php:55-70 | the bounds are inclusive at both ends: the revenue of [start, end] is that of [start, mid] plus that of [mid+1, end] |
| Dashboard.RevenueBounded | pos_be/app/Http/Controllers/API/DashboardController.php:55-70 | with non-negative totals, revenue over any range lies between 0 and the grand total |
| Dashboard.SalesGrowthSpec | pos_be/app/Http/Controllers/API/DashboardController.php:72-74 | growth is 0 when the previous month's revenue is not positive; otherwise growth times previous is (monthly - previous) x 100; growth is 0 exactly when previous <= 0 or the two months are equal, and positive exactly when previous > 0 and monthly > previous |
| Dashboard.CustomersStep | pos_be/app/Http/Controllers/API/DashboardController.php:77 | the distinct user_ids of a table are those of its first row (when not null) together with those of the remaining rows |
| Dashboard.TotalCustomersSpec | pos_be/app/Http/Controllers/API/DashboardController.php:77 | the distinct non-null user_id count is at most the number of transactions naming a user, so at most the number of transactions, and is 0 exactly when no transaction names a user |
| Dashboard.GroupsBound | pos_be/app/Http/Controllers/API/DashboardController.php:88 | there are no more product groups than products |
| Dashboard.GroupsFromProducts | pos_be/app/Http/Controllers/API/DashboardController.php:81-88 | every group is the group of a product that some item joins with |
| Dashboard.GroupOfProduct | pos_be/app/Http/Controllers/API/DashboardController.php:81-88 | every product that some item joins with has its group |
| Dashboard.SellerTotals | pos_be/app/Http/Controllers/API/DashboardController.php:84-87 | a product's total_quantity and total_sales are the sums of quantity and subtotal over the items of that product whose created_at month number equals the current month, whatever their year |
| Dashboard.BestSellingSpec | pos_be/app/Http/Controllers/API/DashboardController.php:89-90 | best_selling_products has min(5, number of groups) entries, ordered by non-increasing total_quantity |
| Dashboard.BestSellingDistinct | pos_be/app/Http/Controllers/API/DashboardController.php:88-90 | best_selling_products lists one entry per group: its multiset is contained in the groups' |
| Dashboard.BestSellingGroups | pos_be/app/Http/Controllers/API/DashboardController.php:80-91 | every entry is the group of a product sold in the current month |
| Dashboard.BestSellingLeftOut | pos_be/app/Http/Controllers/API/DashboardController.php:89-90 | a product sold this month that is left out has total_quantity no greater than any entry listed |
| Dashboard.BestSellingGroupsLeftOut | pos_be/app/Http/Controllers/API/DashboardController.php:89-90 | every group left out, counted by multiset, has total_quantity no greater than any entry listed |
| Dashboard.BestSellerExample | pos_be/app/Http/Controllers/API/DashboardController.php:80-91 | a product with items (3, 30) and (2, 20) this month is listed with total_quantity 5 and total_sales 50 |
| Dashboard.RecentTransactionsSpec | pos_be/app/Http/Controllers/API/DashboardController.php:94-106 | recent_transactions has min(5, number of transactions) entries by non-increasing created_at, each the summary of a stored transaction; the transactions listed are distinct rows of the table (their multiset is contained in the table's) |
| Dashboard.RecentTransactionsNewest | pos_be/app/Http/Controllers/API/DashboardController.php:95-96 | no transaction left out is newer than any entry |
| Dashboard.RecentItemsCount | pos_be/app/Http/Controllers/API/DashboardController.php:102 | each entry's items_count is the total quantity of that transaction's own items |
| Dashboard.ReportBounds | pos_be/app/Http/Controllers/API/DashboardController.php:108-122 | every report has today_transactions and total_customers at most the number of transactions, at most 5 recent transactions and best sellers, at most 7 chart points, and growth 0 when the previous month's revenue is not positive |
| Dashboard.EmptyStoreReport | pos_be/app/Http/Controllers/API/DashboardController.php:108-122 | with no transactions and no items, every figure is 0 and every list is empty |
| Dashboard.Index | pos_be/app/Http/Controllers/API/DashboardController.php:123-129 | the response is a report exactly when the snapshot loaded, and then it is the report computed from that snapshot; a storage fault yields only the generic error message, never a partial report |
| Query.FilterCount | pos_be/app/Http/Controllers/API/DashboardController.php:20-25 | COUNT(*) under a WHERE clause is the number of rows satisfying it: the filter keeps one row per matching row; this pins today_transactions and each chart group's transaction count |
| Query.TopSpec | pos_be/app/Http/Controllers/API/DashboardController.php:89-90 | ORDER BY key DESC LIMIT n keeps min(n, number of rows) rows, all taken from the input, in non-increasing key order |
| Query.TopKeepsLargest | pos_be/app/Http/Controllers/API/DashboardController.php:89-90 | no row left out has a key above a row kept |

## Left out

- HTTP and JSON shaping (the `status`/`data` envelope, status codes 200/500), and the exception logging through `\Log::error`. `Index` keeps only the rule that a fault gives the generic message and no partial report.
- Which storage faults can occur, and when. A fault is an input (`StorageFault`): the model cannot see the database driver.
- PHP `\Error`s, which the `catch (\Exception $e)` does not catch and which therefore never produce the generic message. One example is `toIso8601String()` on a NULL created_at. The model assumes every created_at is non-null, so `Index` covers only the exceptions storage raises.
- Routing and the `auth:sanctum` middleware in `pos_be/routes/api.php`. This is framework plumbing.
- Carbon's calendar arithmetic (`today()`, `subDays`, `startOfWeek`/`endOfWeek`, `startOfMonth`/`endOfMonth`, `subMonth`, the server time zone). The resulting day numbers, bounds and month number are parameters. The previous-month bounds are whatever `Carbon::now()->subMonth()` yields. On a day the previous month lacks (the 30th and 31st of March, and the 29th outside leap years, for example), Carbon's month overflow gives the current month's bounds, so growth is then 0. No contract depends on those bounds being the previous calendar month. Nothing checks that a timestamp's `instant`, `day` and `month` agree with each other.
- Dashboard.SalesChart: the source bounds the chart query by instants (start of the day six days ago to the end of today). The model bounds it by day numbers (today-6 to today). These agree when each timestamp's day matches its instant.
- Date and string formatting: the `'d M'` chart label is the raw day number, and the ISO-8601 `created_at` is the timestamp itself.
- Floating point: the `(float)`, `(int)` and `'double'` casts are not modelled. Money is exact integer cents, and growth is an exact `real`. Rounding and machine integer width are out of scope.
- Eloquent relation plumbing (`hasMany`, `with('items')`). It is modelled as a filter of the items table on `transaction_id`.
- Tie-breaking among equal quantities or equal timestamps, which SQL leaves unspecified. The model sorts in one particular way, but its lemmas state only non-increasing order.
- Dashboard.ProductsSoldTodaySpec: assumes distinct transaction ids (the table's primary key). `ProductsSoldToday` itself follows the join row by row, so an item counts once per matching transaction row.
- Dashboard.Groups: one group per product row. This matches SQL's GROUP BY products.id only when product ids are distinct, which the primary key guarantees.
