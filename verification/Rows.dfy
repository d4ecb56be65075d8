/** The tables of the shop as values: one datatype a row, and the database they make up.

Money is `Decimal` of two places in the orders domain and integer cents in billing; both are held here
as a whole number of cents (module `Money` shows that the conversion between the two loses nothing).
Clocks are not part of a row: no operation decides anything by them.
*/
module Rows {
  import opened Sums

  datatype Option<+T> = None | Some(value: T)

  /** The composite key `(warehouse_id, sku_id)` of a stock row. */
  datatype Pair = Pair(warehouse: int, sku: int)

  datatype OrderState = Draft | Reserved | Invoiced | Settled | Cancelled

  datatype Order = Order(
    reference: string, state: OrderState, total: int, customer: int, warehouse: int, invoice: Option<int>)

  datatype Line = Line(quantity: int, unitPrice: int)

  datatype Stock = Stock(onHand: int, reserved: int)

  datatype Reason = Purchase | Sale | Return | Adjustment

  datatype Movement = Movement(pair: Pair, delta: int, reason: Reason)

  datatype Subscription = Subscription(user: int, plan: int, active: bool)

  datatype Invoice = Invoice(amountCents: int, paid: bool, subscription: int)

  datatype Payment = Payment(amountCents: int, kind: string, invoice: int)

  /** Order lines are kept per order, by SKU: the pair of the two is the key of the table. Movements and
      payments are never looked up by id, so they are kept in the order they were committed in. */
  datatype Database = Database(
    users: set<int>,
    plans: set<int>,
    warehouses: set<int>,
    prices: map<int, int>,
    orders: map<int, Order>,
    lines: map<int, map<int, Line>>,
    stock: map<Pair, Stock>,
    movements: seq<Movement>,
    invoices: map<int, Invoice>,
    payments: seq<Payment>,
    subscriptions: map<int, Subscription>)

  /** The words a payment can be made with: the keys of `PAYMENT_KINDS`. */
  const PAYMENT_KINDS: set<string> := {"card", "transfer", "paypal", "wallet"}

  function LinesOf(db: Database, order: int): map<int, Line> {
    if order in db.lines then db.lines[order] else map[]
  }

  /** The units a line asks for; none without a line. */
  function QuantityOf(lines: map<int, Line>, sku: int): int {
    if sku in lines then lines[sku].quantity else 0
  }

  /** What the `CHECK`s of the stock table let in. */
  predicate Admissible(row: Stock) {
    0 <= row.onHand && 0 <= row.reserved
  }

  ghost predicate LinesWellFormed(lines: map<int, map<int, Line>>, orders: set<int>) {
    && lines.Keys <= orders
    && (forall o, s :: o in lines && s in lines[o] ==> 0 < lines[o][s].quantity && 0 <= lines[o][s].unitPrice)
  }

  ghost predicate StockWellFormed(stock: map<Pair, Stock>) {
    forall p :: p in stock ==> Admissible(stock[p])
  }

  ghost predicate MovementsLinked(movements: seq<Movement>, pairs: set<Pair>) {
    forall i :: 0 <= i < |movements| ==> movements[i].pair in pairs
  }

  ghost predicate OrdersLinked(orders: map<int, Order>, invoices: set<int>) {
    forall o :: o in orders && orders[o].invoice.Some? ==> orders[o].invoice.value in invoices
  }

  ghost predicate InvoicesLinked(invoices: map<int, Invoice>, subscriptions: set<int>) {
    forall i :: i in invoices ==> invoices[i].subscription in subscriptions
  }

  ghost predicate PaymentsLinked(payments: seq<Payment>, invoices: set<int>) {
    forall i :: 0 <= i < |payments| ==> payments[i].invoice in invoices
  }

  /** What the rows owe each other and the `CHECK`s. */
  ghost predicate RowsLinked(db: Database) {
    && LinesWellFormed(db.lines, db.orders.Keys)
    && StockWellFormed(db.stock)
    && MovementsLinked(db.movements, db.stock.Keys)
    && OrdersLinked(db.orders, db.invoices.Keys)
    && InvoicesLinked(db.invoices, db.subscriptions.Keys)
    && PaymentsLinked(db.payments, db.invoices.Keys)
  }

  ghost predicate OrdersPlaced(orders: map<int, Order>, users: set<int>, warehouses: set<int>) {
    forall o :: o in orders ==> orders[o].customer in users && orders[o].warehouse in warehouses
  }

  ghost predicate LinesPriced(lines: map<int, map<int, Line>>, skus: set<int>) {
    forall o, s :: o in lines && s in lines[o] ==> s in skus
  }

  ghost predicate StockPlaced(stock: map<Pair, Stock>, warehouses: set<int>, skus: set<int>) {
    forall p :: p in stock ==> p.warehouse in warehouses && p.sku in skus
  }

  ghost predicate SubscriptionsHeld(subscriptions: map<int, Subscription>, users: set<int>, plans: set<int>) {
    forall s :: s in subscriptions ==> subscriptions[s].user in users && subscriptions[s].plan in plans
  }

  /** `reference` is unique. */
  ghost predicate ReferencesUnique(orders: map<int, Order>) {
    forall a, b :: a in orders && b in orders && orders[a].reference == orders[b].reference ==> a == b
  }

  /** What they owe the users, plans, warehouses and SKUs, and the one unique column. */
  ghost predicate MastersLinked(db: Database) {
    && OrdersPlaced(db.orders, db.users, db.warehouses)
    && LinesPriced(db.lines, db.prices.Keys)
    && StockPlaced(db.stock, db.warehouses, db.prices.Keys)
    && SubscriptionsHeld(db.subscriptions, db.users, db.plans)
    && ReferencesUnique(db.orders)
  }

  /** What the engine enforces on every committed state: the foreign keys, the `CHECK`s and the unique reference. */
  ghost predicate Consistent(db: Database) {
    RowsLinked(db) && MastersLinked(db)
  }

  ghost function Price(lines: map<int, Line>, sku: int): int {
    if sku in lines then lines[sku].unitPrice * lines[sku].quantity else 0
  }

  /** The money of an order: price times quantity, over its lines in whatever order. */
  ghost function Total(lines: map<int, Line>): int {
    Sum(lines.Keys, sku => Price(lines, sku))
  }

  /** The money of the lines with one more in. */
  lemma TotalWith(lines: map<int, Line>, sku: int, line: Line)
    requires sku !in lines
    ensures Total(lines[sku := line]) == Total(lines) + line.unitPrice * line.quantity
  {
    var more := lines[sku := line];
    SumDelta(lines.Keys, s => Price(lines, s), more.Keys, s => Price(more, s), sku);
  }
}
