/** What each use case does to the database, all at once: the atomic meaning the statements of `OrderUseCases`,
`InventoryUseCases` and `BillingUseCases` are proved against, and the serial meaning of the interleavings.

`id` is what the engine's sequence hands out if the operation inserts a row that others point at.
*/
module Spec {
  import opened Rows
  import opened KeyOrder
  import Money

  datatype Reply = Done | MissingFields | NotFound | Conflict | PaymentDeclined | UnknownMethod | Raised

  datatype Outcome = Outcome(db: Database, reply: Reply)

  /** What the payment processor answers: it returns, it declines, or it fails in some other way. */
  datatype Charge = Accepts | Declines | Breaks

  /** The three things an operation does to a stock row on behalf of one order line. */
  datatype Move = Hold | Release | ShipHeld

  function Moved(move: Move, row: Stock, units: int): Stock {
    match move
    case Hold => row.(reserved := row.reserved + units)
    case Release => row.(reserved := row.reserved - units)
    case ShipHeld => row.(onHand := row.onHand - units, reserved := row.reserved - units)
  }

  predicate Open(state: OrderState) {
    state == Draft || state == Reserved
  }

  /** The table after the move has been made for every line whose pair has a row. */
  function MovedStock(stock: map<Pair, Stock>, warehouse: int, lines: map<int, Line>, move: Move): map<Pair, Stock> {
    map p | p in stock ::
      if p.warehouse == warehouse && p.sku in lines then Moved(move, stock[p], lines[p.sku].quantity) else stock[p]
  }

  /** Every row the move writes passes the `CHECK`s. */
  ghost predicate MovePasses(stock: map<Pair, Stock>, warehouse: int, lines: map<int, Line>, move: Move) {
    forall s :: s in lines && Pair(warehouse, s) in stock ==>
      Admissible(Moved(move, stock[Pair(warehouse, s)], lines[s].quantity))
  }

  ghost predicate AllStocked(stock: map<Pair, Stock>, warehouse: int, lines: map<int, Line>) {
    forall s :: s in lines ==> Pair(warehouse, s) in stock
  }

  ghost predicate AllAvailable(stock: map<Pair, Stock>, warehouse: int, lines: map<int, Line>) {
    forall s :: s in lines ==>
      Pair(warehouse, s) in stock
      && lines[s].quantity <= stock[Pair(warehouse, s)].onHand - stock[Pair(warehouse, s)].reserved
  }

  /** The keys of an order's lines in the order `lines_of` reads them. */
  function LineKeys(order: int, lines: map<int, Line>): seq<Pair> {
    Sorted(set s | s in lines :: Pair(order, s))
  }

  lemma LineKeysListTheLines(order: int, lines: map<int, Line>)
    ensures forall p :: p in LineKeys(order, lines) <==> p.warehouse == order && p.sku in lines
    ensures Ascending(LineKeys(order, lines))
  {
    SortedListsTheKeys(set s | s in lines :: Pair(order, s));
    forall p: Pair | p.warehouse == order && p.sku in lines ensures p in LineKeys(order, lines) {
      assert p == Pair(order, p.sku);
    }
  }

  function SaleOf(warehouse: int, key: Pair, lines: map<int, Line>): Movement {
    Movement(Pair(warehouse, key.sku), -QuantityOf(lines, key.sku), Sale)
  }

  /** One `SALE` movement a line, in the order the lines are read. */
  function Sales(warehouse: int, keys: seq<Pair>, lines: map<int, Line>): (sales: seq<Movement>)
    ensures |sales| == |keys|
    ensures forall i :: 0 <= i < |keys| ==> sales[i] == SaleOf(warehouse, keys[i], lines)
  {
    if keys == [] then []
    else Sales(warehouse, keys[..|keys| - 1], lines) + [SaleOf(warehouse, keys[|keys| - 1], lines)]
  }

  // ---- orders -----------------------------------------------------------------------------------------------

  function ItemSkus(items: seq<(int, int)>): set<int> {
    set i | 0 <= i < |items| :: items[i].0
  }

  /** `len({sku_id for ...}) != len(lines)`: the items name a SKU twice. */
  lemma {:induction false} DistinctByCount(items: seq<(int, int)>)
    ensures |ItemSkus(items)| <= |items|
    ensures |ItemSkus(items)| == |items| <==> forall i, j :: 0 <= i < j < |items| ==> items[i].0 != items[j].0
  {
    if items != [] {
      var init, last := items[..|items| - 1], items[|items| - 1];
      DistinctByCount(init);
      assert ItemSkus(items) == ItemSkus(init) + {last.0};
      if last.0 in ItemSkus(init) {
        assert ItemSkus(items) == ItemSkus(init);
        var i :| 0 <= i < |init| && init[i].0 == last.0;
        assert items[i].0 == items[|items| - 1].0;
      }
    }
  }

  /** The lines of a new order, each priced off its SKU. */
  function ItemLines(items: seq<(int, int)>, prices: map<int, int>): (lines: map<int, Line>)
    requires ItemSkus(items) <= prices.Keys
    ensures lines.Keys == ItemSkus(items)
    ensures forall s :: s in lines ==> lines[s].unitPrice == prices[s]
    ensures forall s :: s in lines ==> exists i :: 0 <= i < |items| && items[i] == (s, lines[s].quantity)
  {
    if items == [] then map[]
    else
      var last := |items| - 1;
      assert items == items[..last] + [items[last]];
      assert ItemSkus(items) == ItemSkus(items[..last]) + {items[last].0};
      ItemLines(items[..last], prices)[items[last].0 := Line(items[last].1, prices[items[last].0])]
  }

  ghost function PlaceOrder(
    db: Database, reference: string, customer: int, warehouse: int, items: seq<(int, int)>, id: int): Outcome
  {
    if reference == "" || items == [] then Outcome(db, MissingFields)
    else if exists i :: 0 <= i < |items| && items[i].1 <= 0 then Outcome(db, MissingFields)
    else if |ItemSkus(items)| != |items| then Outcome(db, MissingFields)
    else if customer !in db.users then Outcome(db, NotFound)
    else if warehouse !in db.warehouses then Outcome(db, NotFound)
    else if !(ItemSkus(items) <= db.prices.Keys) then Outcome(db, NotFound)
    else if exists o :: o in db.orders && db.orders[o].reference == reference then Outcome(db, Conflict)
    else
      var lines := ItemLines(items, db.prices);
      if exists s :: s in lines && lines[s].unitPrice < 0 then Outcome(db, Raised)
      else
        var order := Order(reference, Draft, Total(lines), customer, warehouse, None);
        Outcome(db.(orders := db.orders[id := order], lines := db.lines[id := lines]), Done)
  }

  ghost function WithLines(db: Database, order: int, lines: map<int, Line>): Database
    requires order in db.orders
  {
    db.(lines := db.lines[order := lines],
        orders := db.orders[order := db.orders[order].(total := Total(lines))])
  }

  ghost function SetLine(db: Database, order: int, sku: int, quantity: int): Outcome {
    if quantity <= 0 then Outcome(db, MissingFields)
    else if order !in db.orders then Outcome(db, NotFound)
    else if !Open(db.orders[order].state) then Outcome(db, Conflict)
    else if sku !in db.prices then Outcome(db, NotFound)
    else if db.prices[sku] < 0 then Outcome(db, Raised)
    else Outcome(WithLines(db, order, LinesOf(db, order)[sku := Line(quantity, db.prices[sku])]), Done)
  }

  ghost function RemoveLine(db: Database, order: int, sku: int): Outcome {
    if sku !in LinesOf(db, order) then Outcome(db, NotFound)
    else if order !in db.orders then Outcome(db, NotFound)
    else if !Open(db.orders[order].state) then Outcome(db, Conflict)
    else Outcome(WithLines(db, order, LinesOf(db, order) - {sku}), Done)
  }

  function WithState(db: Database, order: int, state: OrderState): Database
    requires order in db.orders
  {
    db.(orders := db.orders[order := db.orders[order].(state := state)])
  }

  ghost function CancelOrder(db: Database, order: int): Outcome {
    if order !in db.orders then Outcome(db, NotFound)
    else
      var row := db.orders[order];
      var lines := LinesOf(db, order);
      if !Open(row.state) then Outcome(db, Conflict)
      else if row.state == Draft then Outcome(WithState(db, order, Cancelled), Done)
      // An `IN` of no values does not compile: a RESERVED order without lines cannot be asked about.
      else if lines == map[] then Outcome(db, Raised)
      else if !MovePasses(db.stock, row.warehouse, lines, Release) then Outcome(db, Raised)
      else
        Outcome(WithState(db, order, Cancelled).(stock := MovedStock(db.stock, row.warehouse, lines, Release)), Done)
  }

  ghost function Reserve(db: Database, order: int): Outcome {
    if order !in db.orders then Outcome(db, NotFound)
    else
      var row := db.orders[order];
      var lines := LinesOf(db, order);
      if row.state != Draft then Outcome(db, Conflict)
      else if lines == map[] then Outcome(db, Conflict)
      else if !AllAvailable(db.stock, row.warehouse, lines) then Outcome(db, Conflict)
      else if !MovePasses(db.stock, row.warehouse, lines, Hold) then Outcome(db, Raised)
      else
        Outcome(WithState(db, order, Reserved).(stock := MovedStock(db.stock, row.warehouse, lines, Hold)), Done)
  }

  /** What `settle` asks before it writes anything; `Done` when nothing stands in the way. */
  ghost function SettleGuard(db: Database, order: int, subscription: int): Reply {
    if order !in db.orders then NotFound
    else if db.orders[order].state != Reserved then Conflict
    else if subscription !in db.subscriptions then NotFound
    else if db.subscriptions[subscription].user != db.orders[order].customer then Conflict
    else if LinesOf(db, order) == map[] then Raised
    else if !AllStocked(db.stock, db.orders[order].warehouse, LinesOf(db, order)) then Conflict
    else Done
  }

  /** The order billed: an invoice for its money, and the order pointing at it in the given state. */
  function Billed(db: Database, order: int, subscription: int, state: OrderState, paid: bool, id: int): Database
    requires order in db.orders
  {
    var amount := Money.InCents(Money.TwoPlaces(db.orders[order].total));
    db.(invoices := db.invoices[id := Invoice(amount, paid, subscription)],
        orders := db.orders[order := db.orders[order].(state := state, invoice := Some(id))])
  }

  /** The units gone from the shelf and from the promises, the money in, the order closed. */
  ghost function Shipped(db: Database, order: int, subscription: int, word: string, id: int): Database
    requires order in db.orders
  {
    var row := db.orders[order];
    var lines := LinesOf(db, order);
    var known := word in PAYMENT_KINDS;
    var billed := Billed(db, order, subscription, Settled, known, id);
    billed.(
      stock := MovedStock(db.stock, row.warehouse, lines, ShipHeld),
      movements := db.movements + Sales(row.warehouse, LineKeys(order, lines), lines),
      payments := if known then db.payments + [Payment(billed.invoices[id].amountCents, word, id)] else db.payments)
  }

  /** The bill stands unpaid, and what was held for the order is free again. */
  ghost function Declined(db: Database, order: int, subscription: int, id: int): Database
    requires order in db.orders
  {
    Billed(db, order, subscription, Invoiced, false, id).(
      stock := MovedStock(db.stock, db.orders[order].warehouse, LinesOf(db, order), Release))
  }

  /** `settle`, as three outcomes: nothing changed, shipped and paid, or billed and released. */
  ghost function Settle(db: Database, order: int, subscription: int, word: string, charge: Charge, id: int): Outcome {
    var guarded := SettleGuard(db, order, subscription);
    if guarded != Done then Outcome(db, guarded)
    else
      var row := db.orders[order];
      var lines := LinesOf(db, order);
      match charge
      case Breaks => Outcome(db, Raised)
      case Declines =>
        if MovePasses(db.stock, row.warehouse, lines, Release)
        then Outcome(Declined(db, order, subscription, id), PaymentDeclined)
        else Outcome(db, Raised)
      case Accepts =>
        if MovePasses(db.stock, row.warehouse, lines, ShipHeld)
        then Outcome(Shipped(db, order, subscription, word, id), Done)
        else Outcome(db, Raised)
  }

  ghost function AttachInvoice(db: Database, order: int, invoice: int): Outcome {
    if order !in db.orders then Outcome(db, NotFound)
    else if !Open(db.orders[order].state) then Outcome(db, Conflict)
    else if invoice !in db.invoices then Outcome(db, NotFound)
    else
      Outcome(db.(orders := db.orders[order := db.orders[order].(state := Invoiced, invoice := Some(invoice))]), Done)
  }

  ghost function RemoveOrder(db: Database, order: int): Outcome {
    if order !in db.orders then Outcome(db, NotFound)
    else if LinesOf(db, order) != map[] then Outcome(db, Conflict)
    else Outcome(db.(orders := db.orders - {order}, lines := db.lines - {order}), Done)
  }

  // ---- inventory --------------------------------------------------------------------------------------------

  function StockAt(db: Database, pair: Pair): Stock {
    if pair in db.stock then db.stock[pair] else Stock(0, 0)
  }

  ghost function Receive(db: Database, pair: Pair, units: int): Outcome {
    if units <= 0 then Outcome(db, MissingFields)
    else if pair.warehouse !in db.warehouses then Outcome(db, NotFound)
    else if pair.sku !in db.prices then Outcome(db, NotFound)
    else
      var row := StockAt(db, pair);
      var after := row.(onHand := row.onHand + units);
      if !Admissible(after) then Outcome(db, Raised)
      else
        Outcome(db.(stock := db.stock[pair := after],
                    movements := db.movements + [Movement(pair, units, Purchase)]), Done)
  }

  ghost function Ship(db: Database, pair: Pair, units: int): Outcome {
    if units <= 0 then Outcome(db, MissingFields)
    else if pair !in db.stock then Outcome(db, NotFound)
    else if db.stock[pair].onHand < units then Outcome(db, Conflict)
    else
      var after := db.stock[pair].(onHand := db.stock[pair].onHand - units);
      if !Admissible(after) then Outcome(db, Raised)
      else
        Outcome(db.(stock := db.stock[pair := after],
                    movements := db.movements + [Movement(pair, -units, Sale)]), Done)
  }

  ghost function UpdateStock(db: Database, pair: Pair, onHand: int, reserved: int): Outcome {
    if onHand < 0 || reserved < 0 then Outcome(db, MissingFields)
    else if pair !in db.stock then Outcome(db, NotFound)
    else Outcome(db.(stock := db.stock[pair := Stock(onHand, reserved)]), Done)
  }

  ghost predicate HasMoved(db: Database, pair: Pair) {
    exists i :: 0 <= i < |db.movements| && db.movements[i].pair == pair
  }

  ghost function RemoveStock(db: Database, pair: Pair): Outcome {
    if pair !in db.stock then Outcome(db, NotFound)
    else if HasMoved(db, pair) then Outcome(db, Conflict)
    else Outcome(db.(stock := db.stock - {pair}), Done)
  }

  ghost function CountStock(db: Database, pair: Pair, onHand: int): Outcome {
    if onHand < 0 then Outcome(db, MissingFields)
    else if pair.warehouse !in db.warehouses || pair.sku !in db.prices then Outcome(db, Raised)
    else Outcome(db.(stock := db.stock[pair := StockAt(db, pair).(onHand := onHand)]), Done)
  }

  /** The bulk `UPDATE`: every row of the warehouse promises so many units more, whatever it holds. */
  ghost function ReserveWarehouse(db: Database, warehouse: int, units: int): Outcome {
    if units <= 0 then Outcome(db, MissingFields)
    else
      Outcome(db.(stock := map p | p in db.stock ::
        if p.warehouse == warehouse then db.stock[p].(reserved := db.stock[p].reserved + units) else db.stock[p]), Done)
  }

  // ---- billing ----------------------------------------------------------------------------------------------

  ghost function Subscribe(db: Database, user: int, plan: int, id: int): Outcome {
    if user !in db.users || plan !in db.plans then Outcome(db, Raised)
    else Outcome(db.(subscriptions := db.subscriptions[id := Subscription(user, plan, true)]), Done)
  }

  ghost function CancelSubscription(db: Database, subscription: int): Outcome {
    if subscription !in db.subscriptions then Outcome(db, NotFound)
    else
      var row := db.subscriptions[subscription].(active := false);
      Outcome(db.(subscriptions := db.subscriptions[subscription := row]), Done)
  }

  ghost function IssueInvoice(db: Database, subscription: int, amountCents: int, id: int): Outcome {
    if subscription !in db.subscriptions then Outcome(db, Raised)
    else Outcome(db.(invoices := db.invoices[id := Invoice(amountCents, false, subscription)]), Done)
  }

  ghost function PayInvoice(db: Database, invoice: int, word: string): Outcome {
    if word !in PAYMENT_KINDS then Outcome(db, UnknownMethod)
    else if invoice !in db.invoices then Outcome(db, NotFound)
    else
      var row := db.invoices[invoice];
      Outcome(db.(payments := db.payments + [Payment(row.amountCents, word, invoice)],
                  invoices := db.invoices[invoice := row.(paid := true)]), Done)
  }

  // ---- one operation, and a run of them ---------------------------------------------------------------------

  datatype Op =
    | OpPlaceOrder(reference: string, customer: int, warehouse: int, items: seq<(int, int)>)
    | OpSetLine(order: int, sku: int, quantity: int)
    | OpRemoveLine(order: int, sku: int)
    | OpCancelOrder(order: int)
    | OpReserve(order: int)
    | OpSettle(order: int, subscription: int, word: string, charge: Charge)
    | OpAttachInvoice(order: int, invoice: int)
    | OpRemoveOrder(order: int)
    | OpReceive(pair: Pair, units: int)
    | OpShip(pair: Pair, units: int)
    | OpUpdateStock(pair: Pair, onHand: int, reserved: int)
    | OpRemoveStock(pair: Pair)
    | OpCountStock(pair: Pair, onHand: int)
    | OpReserveWarehouse(warehouse: int, units: int)
    | OpSubscribe(user: int, plan: int)
    | OpCancelSubscription(subscription: int)
    | OpIssueInvoice(subscription: int, amountCents: int)
    | OpPayInvoice(invoice: int, word: string)

  ghost function Apply(db: Database, op: Op, id: int): Outcome {
    match op
    case OpPlaceOrder(reference, customer, warehouse, items) =>
      PlaceOrder(db, reference, customer, warehouse, items, id)
    case OpSetLine(order, sku, quantity) => SetLine(db, order, sku, quantity)
    case OpRemoveLine(order, sku) => RemoveLine(db, order, sku)
    case OpCancelOrder(order) => CancelOrder(db, order)
    case OpReserve(order) => Reserve(db, order)
    case OpSettle(order, subscription, word, charge) => Settle(db, order, subscription, word, charge, id)
    case OpAttachInvoice(order, invoice) => AttachInvoice(db, order, invoice)
    case OpRemoveOrder(order) => RemoveOrder(db, order)
    case OpReceive(pair, units) => Receive(db, pair, units)
    case OpShip(pair, units) => Ship(db, pair, units)
    case OpUpdateStock(pair, onHand, reserved) => UpdateStock(db, pair, onHand, reserved)
    case OpRemoveStock(pair) => RemoveStock(db, pair)
    case OpCountStock(pair, onHand) => CountStock(db, pair, onHand)
    case OpReserveWarehouse(warehouse, units) => ReserveWarehouse(db, warehouse, units)
    case OpSubscribe(user, plan) => Subscribe(db, user, plan, id)
    case OpCancelSubscription(subscription) => CancelSubscription(db, subscription)
    case OpIssueInvoice(subscription, amountCents) => IssueInvoice(db, subscription, amountCents, id)
    case OpPayInvoice(invoice, word) => PayInvoice(db, invoice, word)
  }

  /** A run: operations one after another, each with the id the engine hands it. */
  datatype Event = Event(op: Op, id: int)

  ghost function Run(db: Database, events: seq<Event>): Database
    decreases |events|
  {
    if events == [] then db
    else Run(Apply(db, events[0].op, events[0].id).db, events[1..])
  }

  /** The sequences have not reached `next` yet. */
  ghost predicate Below(db: Database, next: int) {
    && (forall o :: o in db.orders || o in db.lines ==> o < next)
    && (forall i :: i in db.invoices ==> i < next)
    && (forall s :: s in db.subscriptions ==> s < next)
  }

  predicate Inserts(op: Op) {
    op.OpPlaceOrder? || op.OpSettle? || op.OpSubscribe? || op.OpIssueInvoice?
  }

  /** The id is spent once a row carries it. */
  ghost function NextId(db: Database, event: Event): int {
    if Inserts(event.op) && Apply(db, event.op, event.id).db != db then event.id + 1 else event.id
  }

  /** Ids as a sequence hands them out: upwards from `next`, with gaps where a transaction was rolled back, and
      none of them to two rows. */
  ghost predicate FromSequence(db: Database, next: int, events: seq<Event>)
    decreases |events|
  {
    events == []
    || (next <= events[0].id
        && FromSequence(Apply(db, events[0].op, events[0].id).db, NextId(db, events[0]), events[1..]))
  }
}
