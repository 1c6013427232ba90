/**
 * The stored records the dashboard reads (transactions, their line items and
 * products) and the per-transaction summary `Transaction::toDashboardFormat`.
 */
module Models {
  import opened Query

  datatype Option<T> = None | Some(value: T)

  /**
   * A `created_at` timestamp, with the calendar facts the queries use already
   * resolved in the server's time zone: `instant` orders timestamps and is what
   * BETWEEN bounds compare, `day` is DATE(created_at) as a day number, and
   * `month` is the month of the year (1..12) that MONTH(created_at) returns.
   */
  datatype Stamp = Stamp(instant: int, day: int, month: int)

  /** A transactions row; money is in integer cents. */
  datatype Transaction = Transaction(
    id: int,
    userId: Option<int>,
    totalAmount: int,
    status: string,
    createdAt: Stamp)

  /** A transaction_items row. */
  datatype Item = Item(
    transactionId: int,
    productId: int,
    quantity: int,
    subtotal: int,
    createdAt: Stamp)

  /** A products row. */
  datatype Product = Product(id: int, name: string)

  /** The array `toDashboardFormat` builds; `createdAt` stands for its ISO-8601 rendering. */
  datatype Summary = Summary(
    id: int,
    totalAmount: int,
    itemsCount: int,
    createdAt: Stamp,
    status: string)

  function Quantity(i: Item): int
  {
    i.quantity
  }

  /** The `items` relation (hasMany on transaction_id) of the transaction with this id. */
  function BelongsTo(id: int): Item -> bool
  {
    (i: Item) => i.transactionId == id
  }

  function ItemsOf(t: Transaction, items: seq<Item>): seq<Item>
  {
    Filter(items, BelongsTo(t.id))
  }

  /**
   * `toDashboardFormat`: id, amount, timestamp and status of the transaction as
   * stored, with items_count the total quantity over its own items.
   */
  function ToDashboardFormat(t: Transaction, items: seq<Item>): (r: Summary)
    ensures r.id == t.id && r.status == t.status
    ensures r.totalAmount == t.totalAmount && r.createdAt == t.createdAt
  {
    Summary(t.id, t.totalAmount, Sum(ItemsOf(t, items), Quantity), t.createdAt, t.status)
  }

  /**
   * items_count, read over the whole items table: every item of this
   * transaction adds its quantity and every other item adds nothing.
   */
  lemma ItemsCountOverAllItems(t: Transaction, items: seq<Item>)
    ensures ToDashboardFormat(t, items).itemsCount
         == Sum(items, Guarded(BelongsTo(t.id), Quantity))
  {
    SumFilter(items, BelongsTo(t.id), Quantity);
  }

  /** A transaction without items has items_count 0. */
  lemma ItemsCountWithoutItems(t: Transaction, items: seq<Item>)
    requires forall i :: i in items ==> i.transactionId != t.id
    ensures ToDashboardFormat(t, items).itemsCount == 0
  {
    NoMatch(items, BelongsTo(t.id), Quantity);
  }

  /** With non-negative quantities, items_count is never negative. */
  lemma ItemsCountNonNegative(t: Transaction, items: seq<Item>)
    requires forall i :: i in items ==> i.quantity >= 0
    ensures ToDashboardFormat(t, items).itemsCount >= 0
  {
    ItemsCountOverAllItems(t, items);
    SumNonNegative(items, Guarded(BelongsTo(t.id), Quantity));
  }

  /** Items of other transactions, added to the table, do not change the summary. */
  lemma {:induction false} SummaryIgnoresForeignItems(t: Transaction, items: seq<Item>, others: seq<Item>)
    requires forall i :: i in others ==> i.transactionId != t.id
    ensures ToDashboardFormat(t, items + others) == ToDashboardFormat(t, items)
  {
    ItemsCountOverAllItems(t, items + others);
    ItemsCountOverAllItems(t, items);
    SumAppend(items, others, Guarded(BelongsTo(t.id), Quantity));
    SumOfZeros(others, Guarded(BelongsTo(t.id), Quantity));
  }

  /** The summary is the same whether given the whole table or only the transaction's own items. */
  lemma SummaryOwnItemsOnly(t: Transaction, items: seq<Item>)
    ensures ToDashboardFormat(t, ItemsOf(t, items)) == ToDashboardFormat(t, items)
  {
    var own := ItemsOf(t, items);
    forall i | 0 <= i < |own| ensures BelongsTo(t.id)(own[i]) {
      FilterMember(items, BelongsTo(t.id), own[i]);
    }
    FilterKeepsAll(own, BelongsTo(t.id));
  }
}
