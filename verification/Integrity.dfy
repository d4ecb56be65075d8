/** What the engine's own constraints promise, kept by every operation; and ids that stay below the sequence. */
module Integrity {
  import opened Rows
  import opened Spec

  /** A placed order is a new one, in DRAFT, and nothing else changes. */
  lemma PlacedShape(db: Database, reference: string, customer: int, warehouse: int, items: seq<(int, int)>, id: int)
    ensures var after := PlaceOrder(db, reference, customer, warehouse, items, id).db;
      after == db || (id in after.orders && id in after.lines && after.orders[id].state == Draft
        && after == db.(orders := db.orders[id := after.orders[id]], lines := db.lines[id := after.lines[id]]))
  {
  }

  predicate TouchesOrders(op: Op) {
    op.OpPlaceOrder? || op.OpSetLine? || op.OpRemoveLine? || op.OpCancelOrder? || op.OpReserve? || op.OpSettle?
    || op.OpAttachInvoice? || op.OpRemoveOrder?
  }

  /** The one order an operation may write. */
  function Target(op: Op, id: int): int
    requires TouchesOrders(op)
  {
    if op.OpPlaceOrder? then id else op.order
  }

  lemma SettlingTouchesOneOrder(
    db: Database, order: int, subscription: int, word: string, charge: Charge, id: int, other: int)
    requires other != order
    ensures SameOrder(db, Settle(db, order, subscription, word, charge, id).db, other)
  {
  }

  ghost predicate SameOrder(db: Database, after: Database, order: int) {
    && (order in after.orders <==> order in db.orders)
    && (order in db.orders ==> after.orders[order] == db.orders[order])
    && LinesOf(after, order) == LinesOf(db, order)
  }

  lemma PlacingTouchesOneOrder(
    db: Database, reference: string, customer: int, warehouse: int, items: seq<(int, int)>, id: int, other: int)
    requires other != id
    ensures SameOrder(db, PlaceOrder(db, reference, customer, warehouse, items, id).db, other)
  {
    PlacedShape(db, reference, customer, warehouse, items, id);
  }

  lemma ReservingTouchesOneOrder(db: Database, order: int, other: int)
    requires other != order
    ensures SameOrder(db, Spec.Reserve(db, order).db, other)
  {
  }

  lemma CancellingTouchesOneOrder(db: Database, order: int, other: int)
    requires other != order
    ensures SameOrder(db, CancelOrder(db, order).db, other)
  {
    if CancelOrder(db, order).reply == Done {
      if db.orders[order].state == Draft { StateTouchesOneOrder(db, order, Cancelled, db.stock, other); }
      else { StateTouchesOneOrder(db, order, Cancelled, CancelOrder(db, order).db.stock, other); }
    }
  }

  lemma StateTouchesOneOrder(db: Database, order: int, state: OrderState, stock: map<Pair, Stock>, other: int)
    requires order in db.orders && other != order
    ensures SameOrder(db, WithState(db, order, state).(stock := stock), other)
  {
  }

  lemma EditsTouchOneOrder(db: Database, op: Op, id: int, other: int)
    requires op.OpSetLine? || op.OpRemoveLine? || op.OpRemoveOrder? || op.OpAttachInvoice?
    requires other != op.order
    ensures SameOrder(db, Apply(db, op, id).db, other)
  {
  }

  lemma OnlyTheTargetChanges(db: Database, op: Op, id: int, other: int)
    requires TouchesOrders(op) && other != Target(op, id)
    ensures SameOrder(db, Apply(db, op, id).db, other)
  {
    match op
    case OpPlaceOrder(reference, customer, warehouse, items) =>
      PlacingTouchesOneOrder(db, reference, customer, warehouse, items, id, other);
    case OpSettle(order, subscription, word, charge) =>
      SettlingTouchesOneOrder(db, order, subscription, word, charge, id, other);
    case OpReserve(order) => ReservingTouchesOneOrder(db, order, other);
    case OpCancelOrder(order) => CancellingTouchesOneOrder(db, order, other);
    case _ => EditsTouchOneOrder(db, op, id, other);
  }

  lemma OrdersUntouched(db: Database, op: Op, id: int)
    requires !TouchesOrders(op)
    ensures Apply(db, op, id).db.orders == db.orders && Apply(db, op, id).db.lines == db.lines
  {
  }

  lemma {:induction false} ItemQuantities(items: seq<(int, int)>, prices: map<int, int>, sku: int)
    requires ItemSkus(items) <= prices.Keys && sku in ItemSkus(items)
    requires forall i :: 0 <= i < |items| ==> 0 < items[i].1
    ensures 0 < ItemLines(items, prices)[sku].quantity
  {
    var lines := ItemLines(items, prices);
    var i :| 0 <= i < |items| && items[i] == (sku, lines[sku].quantity);
  }

  lemma PlacingKeeps(db: Database, reference: string, customer: int, warehouse: int, items: seq<(int, int)>, id: int)
    requires RowsLinked(db)
    ensures RowsLinked(PlaceOrder(db, reference, customer, warehouse, items, id).db)
  {
    var outcome := PlaceOrder(db, reference, customer, warehouse, items, id);
    if outcome.reply == Done {
      forall s | s in outcome.db.lines[id]
        ensures 0 < outcome.db.lines[id][s].quantity && 0 <= outcome.db.lines[id][s].unitPrice
      {
        ItemQuantities(items, db.prices, s);
      }
    }
  }

  lemma LineEditsKeep(db: Database, order: int, lines: map<int, Line>)
    requires RowsLinked(db) && order in db.orders
    requires forall s :: s in lines ==> 0 < lines[s].quantity && 0 <= lines[s].unitPrice
    ensures RowsLinked(WithLines(db, order, lines))
  {
  }

  /** A move that passes the `CHECK`s leaves a table that satisfies them, over the same pairs. */
  lemma MoveKeeps(stock: map<Pair, Stock>, warehouse: int, lines: map<int, Line>, move: Move)
    requires StockWellFormed(stock) && MovePasses(stock, warehouse, lines, move)
    ensures StockWellFormed(MovedStock(stock, warehouse, lines, move))
    ensures MovedStock(stock, warehouse, lines, move).Keys == stock.Keys
  {
    var after := MovedStock(stock, warehouse, lines, move);
    forall p | p in after ensures Admissible(after[p]) {
      assert p == Pair(p.warehouse, p.sku);
    }
  }

  lemma ReservingKeeps(db: Database, order: int)
    requires RowsLinked(db)
    ensures RowsLinked(Spec.Reserve(db, order).db)
  {
    if Spec.Reserve(db, order).reply == Done {
      MoveKeeps(db.stock, db.orders[order].warehouse, LinesOf(db, order), Hold);
    }
  }

  lemma CancellingKeeps(db: Database, order: int)
    requires RowsLinked(db)
    ensures RowsLinked(CancelOrder(db, order).db)
  {
    if CancelOrder(db, order).reply == Done && db.orders[order].state == Reserved {
      MoveKeeps(db.stock, db.orders[order].warehouse, LinesOf(db, order), Release);
    }
  }

  lemma SalesLinked(
    stock: map<Pair, Stock>, movements: seq<Movement>, order: int, warehouse: int, lines: map<int, Line>)
    requires MovementsLinked(movements, stock.Keys) && AllStocked(stock, warehouse, lines)
    ensures MovementsLinked(movements + Sales(warehouse, LineKeys(order, lines), lines), stock.Keys)
  {
    var keys := LineKeys(order, lines);
    LineKeysListTheLines(order, lines);
    forall i | 0 <= i < |keys| ensures Pair(warehouse, keys[i].sku) in stock {
      assert keys[i] in keys;
    }
  }

  lemma SettlingKeeps(db: Database, order: int, subscription: int, word: string, charge: Charge, id: int)
    requires RowsLinked(db)
    ensures RowsLinked(Settle(db, order, subscription, word, charge, id).db)
  {
    var outcome := Settle(db, order, subscription, word, charge, id);
    if outcome.db != db {
      var warehouse, lines := db.orders[order].warehouse, LinesOf(db, order);
      MoveKeeps(db.stock, warehouse, lines, if charge == Accepts then ShipHeld else Release);
      SalesLinked(db.stock, db.movements, order, warehouse, lines);
    }
  }

  lemma BillingKeeps(db: Database, op: Op, id: int)
    requires RowsLinked(db)
    requires op.OpAttachInvoice? || op.OpRemoveOrder? || op.OpSubscribe? || op.OpCancelSubscription?
             || op.OpIssueInvoice? || op.OpPayInvoice?
    ensures RowsLinked(Apply(db, op, id).db)
  {
  }

  lemma ShelfOpsKeep(db: Database, op: Op, id: int)
    requires RowsLinked(db)
    requires op.OpReceive? || op.OpShip? || op.OpUpdateStock? || op.OpRemoveStock? || op.OpCountStock?
             || op.OpReserveWarehouse?
    ensures RowsLinked(Apply(db, op, id).db)
  {
  }

  lemma RowsStayLinked(db: Database, op: Op, id: int)
    requires RowsLinked(db)
    ensures RowsLinked(Apply(db, op, id).db)
  {
    match op
    case OpPlaceOrder(reference, customer, warehouse, items) =>
      PlacingKeeps(db, reference, customer, warehouse, items, id);
    case OpSetLine(order, sku, quantity) =>
      if Apply(db, op, id).reply == Done {
        LineEditsKeep(db, order, LinesOf(db, order)[sku := Line(quantity, db.prices[sku])]);
      }
    case OpRemoveLine(order, sku) =>
      if Apply(db, op, id).reply == Done { LineEditsKeep(db, order, LinesOf(db, order) - {sku}); }
    case OpCancelOrder(order) => CancellingKeeps(db, order);
    case OpReserve(order) => ReservingKeeps(db, order);
    case OpSettle(order, subscription, word, charge) => SettlingKeeps(db, order, subscription, word, charge, id);
    case OpAttachInvoice(_, _) => BillingKeeps(db, op, id);
    case OpRemoveOrder(_) => BillingKeeps(db, op, id);
    case OpSubscribe(_, _) => BillingKeeps(db, op, id);
    case OpCancelSubscription(_) => BillingKeeps(db, op, id);
    case OpIssueInvoice(_, _) => BillingKeeps(db, op, id);
    case OpPayInvoice(_, _) => BillingKeeps(db, op, id);
    case _ => ShelfOpsKeep(db, op, id);
  }

  // ---- users, plans, warehouses and SKUs --------------------------------------------------------------------

  /** The four are fixed. */
  ghost predicate SameMasters(db: Database, after: Database) {
    after.users == db.users && after.plans == db.plans && after.warehouses == db.warehouses && after.prices == db.prices
  }

  lemma OrderOpsFixMasters(db: Database, op: Op, id: int)
    requires TouchesOrders(op) && !op.OpPlaceOrder? && !op.OpSettle?
    ensures SameMasters(db, Apply(db, op, id).db)
  {
  }

  lemma SettlingFixesMasters(
    db: Database, order: int, subscription: int, word: string, charge: Charge, id: int)
    ensures SameMasters(db, Settle(db, order, subscription, word, charge, id).db)
  {
  }

  lemma OtherOpsFixMasters(db: Database, op: Op, id: int)
    requires !TouchesOrders(op)
    ensures SameMasters(db, Apply(db, op, id).db)
  {
  }

  lemma MastersAreFixed(db: Database, op: Op, id: int)
    ensures SameMasters(db, Apply(db, op, id).db)
  {
    match op
    case OpPlaceOrder(reference, customer, warehouse, items) =>
      PlacedShape(db, reference, customer, warehouse, items, id);
    case OpSettle(order, subscription, word, charge) =>
      SettlingFixesMasters(db, order, subscription, word, charge, id);
    case _ => if TouchesOrders(op) { OrderOpsFixMasters(db, op, id); } else { OtherOpsFixMasters(db, op, id); }
  }

  lemma PlacingLinksMasters(
    db: Database, reference: string, customer: int, warehouse: int, items: seq<(int, int)>, id: int)
    requires MastersLinked(db)
    ensures MastersLinked(PlaceOrder(db, reference, customer, warehouse, items, id).db)
  {
    var outcome := PlaceOrder(db, reference, customer, warehouse, items, id);
    if outcome.reply == Done {
      assert outcome.db.orders[id].reference == reference;
      assert outcome.db.lines[id].Keys == ItemSkus(items);
    }
  }

  /** An order keeps its reference, its customer and its warehouse through every change of state. */
  ghost predicate SameParties(before: map<int, Order>, after: map<int, Order>) {
    forall o :: o in after ==>
      o in before && after[o].reference == before[o].reference
      && after[o].customer == before[o].customer && after[o].warehouse == before[o].warehouse
  }

  lemma SettlingKeepsParties(
    db: Database, order: int, subscription: int, word: string, charge: Charge, id: int)
    ensures var after := Settle(db, order, subscription, word, charge, id).db;
      SameParties(db.orders, after.orders) && after.lines == db.lines && after.stock.Keys == db.stock.Keys
      && after.subscriptions == db.subscriptions
  {
  }

  lemma OrderOpsKeepParties(db: Database, op: Op, id: int)
    requires TouchesOrders(op) && !op.OpPlaceOrder? && !op.OpSettle?
    ensures var after := Apply(db, op, id).db;
      SameParties(db.orders, after.orders) && after.stock.Keys == db.stock.Keys
      && after.subscriptions == db.subscriptions
  {
  }

  lemma OrderOpsKeepPriced(db: Database, op: Op, id: int)
    requires TouchesOrders(op) && !op.OpPlaceOrder? && !op.OpSettle? && LinesPriced(db.lines, db.prices.Keys)
    ensures LinesPriced(Apply(db, op, id).db.lines, db.prices.Keys)
  {
  }

  lemma OtherOpsLinkMasters(db: Database, op: Op, id: int)
    requires !TouchesOrders(op) && MastersLinked(db)
    ensures MastersLinked(Apply(db, op, id).db)
  {
    OrdersUntouched(db, op, id);
  }

  lemma MastersStayLinked(db: Database, op: Op, id: int)
    requires MastersLinked(db)
    ensures MastersLinked(Apply(db, op, id).db)
  {
    MastersAreFixed(db, op, id);
    match op
    case OpPlaceOrder(reference, customer, warehouse, items) =>
      PlacingLinksMasters(db, reference, customer, warehouse, items, id);
    case OpSettle(order, subscription, word, charge) =>
      SettlingKeepsParties(db, order, subscription, word, charge, id);
    case _ =>
      if TouchesOrders(op) {
        OrderOpsKeepParties(db, op, id);
        OrderOpsKeepPriced(db, op, id);
      } else {
        OtherOpsLinkMasters(db, op, id);
      }
  }

  /** No operation leaves a dangling reference, a row its `CHECK` would have refused, or a reference used twice. */
  lemma ConstraintsHold(db: Database, op: Op, id: int)
    requires Consistent(db)
    ensures Consistent(Apply(db, op, id).db)
  {
    RowsStayLinked(db, op, id);
    MastersStayLinked(db, op, id);
  }

  ghost predicate KeysGrowBy(before: set<int>, after: set<int>, id: int) {
    after <= before + {id}
  }

  ghost predicate OnlyNew(db: Database, after: Database, id: int) {
    && KeysGrowBy(db.orders.Keys, after.orders.Keys, id)
    && KeysGrowBy(db.invoices.Keys, after.invoices.Keys, id)
    && KeysGrowBy(db.subscriptions.Keys, after.subscriptions.Keys, id)
  }

  lemma OnlyNewByOrderOp(db: Database, op: Op, id: int)
    requires TouchesOrders(op) && !op.OpPlaceOrder? && !op.OpSettle?
    ensures OnlyNew(db, Apply(db, op, id).db, id)
  {
  }

  lemma OnlyNewByOtherOp(db: Database, op: Op, id: int)
    requires !TouchesOrders(op)
    ensures OnlyNew(db, Apply(db, op, id).db, id)
  {
    OrdersUntouched(db, op, id);
  }

  lemma OnlyTheIdIsNew(db: Database, op: Op, id: int)
    ensures OnlyNew(db, Apply(db, op, id).db, id)
  {
    match op
    case OpPlaceOrder(reference, customer, warehouse, items) =>
      PlacedShape(db, reference, customer, warehouse, items, id);
    case OpSettle(_, _, _, _) =>
    case _ => if TouchesOrders(op) { OnlyNewByOrderOp(db, op, id); } else { OnlyNewByOtherOp(db, op, id); }
  }

  lemma WithoutInsertTheIdIsUnused(db: Database, op: Op, id: int, other: int)
    requires !Inserts(op)
    ensures Apply(db, op, id) == Apply(db, op, other)
  {
  }

  lemma KeysStayBelow(db: Database, op: Op, id: int, next: int)
    requires Consistent(db) && Below(db, next) && id < next
    ensures Below(Apply(db, op, id).db, next)
  {
    ConstraintsHold(db, op, id);
    OnlyTheIdIsNew(db, op, id);
    var after := Apply(db, op, id).db;
    forall o | o in after.orders || o in after.lines ensures o < next { assert o in after.orders.Keys; }
    forall i | i in after.invoices ensures i < next { assert i in after.invoices.Keys; }
    forall s | s in after.subscriptions ensures s < next { assert s in after.subscriptions.Keys; }
  }

  /** After an operation the next one can follow: constraints kept, and the sequence ahead of every id. */
  lemma StaysUsable(db: Database, event: Event)
    requires Consistent(db) && Below(db, event.id)
    ensures var after := Apply(db, event.op, event.id).db;
      Consistent(after) && Below(after, NextId(db, event))
  {
    var op, id := event.op, event.id;
    ConstraintsHold(db, op, id);
    if Inserts(op) {
      KeysStayBelow(db, op, id, id + 1);
    } else {
      WithoutInsertTheIdIsUnused(db, op, id, id - 1);
      KeysStayBelow(db, op, id - 1, id);
    }
  }
}
