/** Conservation of holds: what the stock rows promise, against what the RESERVED orders ask for. */
module Holds {
  import opened Rows
  import opened Spec
  import opened Sums
  import opened Integrity

  /** The units of a pair one order is holding: only a RESERVED order holds anything. */
  ghost function HeldFor(db: Database, order: int, p: Pair): int {
    if order in db.orders && db.orders[order].state == Reserved && db.orders[order].warehouse == p.warehouse
       && p.sku in LinesOf(db, order)
    then LinesOf(db, order)[p.sku].quantity
    else 0
  }

  ghost function HeldUnits(db: Database, p: Pair): int {
    Sum(db.orders.Keys, o => HeldFor(db, o, p))
  }

  /** Promised units of a pair that no RESERVED order accounts for. */
  ghost function Slack(db: Database, p: Pair): int {
    StockAt(db, p).reserved - HeldUnits(db, p)
  }

  ghost predicate HoldConsistent(db: Database) {
    forall p :: Slack(db, p) == 0
  }

  /** Only one order is different, so only its holds count. */
  lemma OneOrderChanges(db: Database, after: Database, order: int, p: Pair)
    requires db.orders.Keys - {order} == after.orders.Keys - {order}
    requires forall o :: o in db.orders && o in after.orders && o != order ==>
      db.orders[o] == after.orders[o] && LinesOf(db, o) == LinesOf(after, o)
    ensures HeldUnits(after, p) - HeldUnits(db, p) == HeldFor(after, order, p) - HeldFor(db, order, p)
  {
    forall o | o in db.orders && o != order ensures HeldFor(db, o, p) == HeldFor(after, o, p) {
      assert o in after.orders.Keys - {order};
    }
    SumDelta(db.orders.Keys, o => HeldFor(db, o, p), after.orders.Keys, o => HeldFor(after, o, p), order);
  }

  lemma NoOrderChanges(db: Database, after: Database, p: Pair)
    requires db.orders == after.orders && db.lines == after.lines
    ensures HeldUnits(after, p) == HeldUnits(db, p)
  {
    SumSame(db.orders.Keys, o => HeldFor(db, o, p), o => HeldFor(after, o, p));
  }

  /** One order's holds are part of the whole. */
  lemma HeldForAtMost(db: Database, order: int, p: Pair)
    requires Consistent(db)
    ensures 0 <= HeldFor(db, order, p) <= HeldUnits(db, p)
  {
    var held := o => HeldFor(db, o, p);
    forall o | o in db.orders ensures 0 <= held(o) {
      if o in db.lines && p.sku in db.lines[o] { assert 0 < db.lines[o][p.sku].quantity; }
    }
    if order in db.orders {
      SumWithout(db.orders.Keys, order, held);
      SumNotNegative(db.orders.Keys - {order}, held);
    } else {
      SumNotNegative(db.orders.Keys, held);
    }
  }

  /** How far an operation moves the slack of a pair. Zero except where the code leaves a hold behind. */
  ghost function SlackShift(db: Database, op: Op, id: int, p: Pair): int {
    if Apply(db, op, id).reply != Done then 0
    else match op
      case OpSetLine(order, sku, quantity) =>
        if db.orders[order].state == Reserved && p == Pair(db.orders[order].warehouse, sku)
        then QuantityOf(LinesOf(db, order), sku) - quantity else 0
      case OpRemoveLine(order, sku) =>
        if db.orders[order].state == Reserved && p == Pair(db.orders[order].warehouse, sku)
        then QuantityOf(LinesOf(db, order), sku) else 0
      case OpCancelOrder(order) => if p in db.stock then 0 else HeldFor(db, order, p)
      case OpAttachInvoice(order, _) => HeldFor(db, order, p)
      case OpUpdateStock(pair, _, reserved) => if p == pair then reserved - db.stock[pair].reserved else 0
      case OpRemoveStock(pair) => if p == pair then -db.stock[pair].reserved else 0
      case OpReserveWarehouse(warehouse, units) => if p in db.stock && p.warehouse == warehouse then units else 0
      case _ => 0
  }

  lemma SlackOfLines(db: Database, order: int, lines: map<int, Line>, p: Pair)
    requires order in db.orders
    ensures Slack(WithLines(db, order, lines), p) == Slack(db, p) -
      if db.orders[order].state == Reserved && db.orders[order].warehouse == p.warehouse
      then QuantityOf(lines, p.sku) - QuantityOf(LinesOf(db, order), p.sku) else 0
  {
    OneOrderChanges(db, WithLines(db, order, lines), order, p);
  }

  lemma SlackOfNewOrder(db: Database, id: int, row: Order, lines: map<int, Line>, p: Pair)
    requires id !in db.orders && row.state == Draft
    ensures Slack(db.(orders := db.orders[id := row], lines := db.lines[id := lines]), p) == Slack(db, p)
  {
    OneOrderChanges(db, db.(orders := db.orders[id := row], lines := db.lines[id := lines]), id, p);
  }

  lemma SlackOfPlacing(
    db: Database, reference: string, customer: int, warehouse: int, items: seq<(int, int)>, id: int, p: Pair)
    requires id !in db.orders
    ensures Slack(PlaceOrder(db, reference, customer, warehouse, items, id).db, p) == Slack(db, p)
  {
    PlacedShape(db, reference, customer, warehouse, items, id);
    var after := PlaceOrder(db, reference, customer, warehouse, items, id).db;
    if after != db { SlackOfNewOrder(db, id, after.orders[id], after.lines[id], p); }
  }

  /** The order changes its state, and its lines' rows make the move. */
  lemma SlackOfMove(db: Database, after: Database, order: int, move: Move, p: Pair)
    requires order in db.orders && after.orders.Keys == db.orders.Keys && after.lines == db.lines
    requires forall o :: o in db.orders && o != order ==> after.orders[o] == db.orders[o]
    requires after.stock == MovedStock(db.stock, db.orders[order].warehouse, LinesOf(db, order), move)
    requires after.orders[order].warehouse == db.orders[order].warehouse
    requires if move == Hold then db.orders[order].state == Draft && after.orders[order].state == Reserved
             else db.orders[order].state == Reserved && after.orders[order].state != Reserved
    ensures Slack(after, p) == Slack(db, p) +
      if p in db.stock then 0 else HeldFor(db, order, p) - HeldFor(after, order, p)
  {
    OneOrderChanges(db, after, order, p);
  }

  lemma SlackOfReserve(db: Database, order: int, p: Pair)
    ensures Slack(Spec.Reserve(db, order).db, p) == Slack(db, p)
  {
    var outcome := Spec.Reserve(db, order);
    if outcome.reply == Done {
      SlackOfMove(db, outcome.db, order, Hold, p);
    }
  }

  lemma SlackOfCancel(db: Database, order: int, id: int, p: Pair)
    ensures Slack(CancelOrder(db, order).db, p) == Slack(db, p) + SlackShift(db, OpCancelOrder(order), id, p)
  {
    var outcome := CancelOrder(db, order);
    if outcome.reply == Done {
      if db.orders[order].state == Draft {
        OneOrderChanges(db, outcome.db, order, p);
      } else {
        SlackOfMove(db, outcome.db, order, Release, p);
      }
    }
  }

  lemma SlackOfAttach(db: Database, order: int, invoice: int, p: Pair)
    ensures Slack(AttachInvoice(db, order, invoice).db, p)
         == Slack(db, p) + if AttachInvoice(db, order, invoice).reply == Done then HeldFor(db, order, p) else 0
  {
    var outcome := AttachInvoice(db, order, invoice);
    if outcome.reply == Done { OneOrderChanges(db, outcome.db, order, p); }
  }

  lemma SlackOfRemoval(db: Database, order: int, p: Pair)
    ensures Slack(RemoveOrder(db, order).db, p) == Slack(db, p)
  {
    var outcome := RemoveOrder(db, order);
    if outcome.reply == Done { OneOrderChanges(db, outcome.db, order, p); }
  }

  lemma SlackOfSettle(db: Database, order: int, subscription: int, word: string, charge: Charge, id: int, p: Pair)
    ensures Slack(Settle(db, order, subscription, word, charge, id).db, p) == Slack(db, p)
  {
    var outcome := Settle(db, order, subscription, word, charge, id);
    if outcome.reply == Done {
      SlackOfMove(db, outcome.db, order, ShipHeld, p);
    } else if outcome.reply == PaymentDeclined {
      SlackOfMove(db, outcome.db, order, Release, p);
    }
  }

  lemma PromisesAfter(db: Database, op: Op, id: int, p: Pair)
    requires !TouchesOrders(op)
    ensures StockAt(Apply(db, op, id).db, p).reserved == StockAt(db, p).reserved + SlackShift(db, op, id, p)
  {
  }

  lemma SlackOfOtherOp(db: Database, op: Op, id: int, p: Pair)
    requires !TouchesOrders(op)
    ensures Slack(Apply(db, op, id).db, p) == Slack(db, p) + SlackShift(db, op, id, p)
  {
    OrdersUntouched(db, op, id);
    PromisesAfter(db, op, id, p);
    NoOrderChanges(db, Apply(db, op, id).db, p);
  }

  lemma SlackMoves(db: Database, op: Op, id: int, p: Pair)
    requires Consistent(db) && Below(db, id)
    ensures Slack(Apply(db, op, id).db, p) == Slack(db, p) + SlackShift(db, op, id, p)
  {
    match op
    case OpPlaceOrder(reference, customer, warehouse, items) =>
      SlackOfPlacing(db, reference, customer, warehouse, items, id, p);
    case OpSetLine(order, sku, quantity) =>
      if Apply(db, op, id).reply == Done {
        SlackOfLines(db, order, LinesOf(db, order)[sku := Line(quantity, db.prices[sku])], p);
      }
    case OpRemoveLine(order, sku) =>
      if Apply(db, op, id).reply == Done { SlackOfLines(db, order, LinesOf(db, order) - {sku}, p); }
    case OpCancelOrder(order) => SlackOfCancel(db, order, id, p);
    case OpReserve(order) => SlackOfReserve(db, order, p);
    case OpSettle(order, subscription, word, charge) => SlackOfSettle(db, order, subscription, word, charge, id, p);
    case OpAttachInvoice(order, invoice) => SlackOfAttach(db, order, invoice, p);
    case OpRemoveOrder(order) => SlackOfRemoval(db, order, p);
    case _ => SlackOfOtherOp(db, op, id, p);
  }

  /** The calls after which the difference of some pair is another one. Every condition can be read off the database
      before the call. Where every hold has its order each of them but cancelling leaves units promised to nobody or an
      order without its hold; cancelling moves the difference only after a removal has stripped the order of its hold,
      and then it is the repair (`RemovalStripsTheHold`, `CancellingRepairs`). */
  ghost predicate BreaksHolds(db: Database, op: Op) {
    match op
    case OpSetLine(order, sku, quantity) =>
      && order in db.orders && db.orders[order].state == Reserved
      && 0 < quantity && sku in db.prices && 0 <= db.prices[sku]
      && QuantityOf(LinesOf(db, order), sku) != quantity
    case OpRemoveLine(order, sku) =>
      order in db.orders && db.orders[order].state == Reserved && sku in LinesOf(db, order)
    case OpCancelOrder(order) =>
      && order in db.orders && db.orders[order].state == Reserved
      && !AllStocked(db.stock, db.orders[order].warehouse, LinesOf(db, order))
      && MovePasses(db.stock, db.orders[order].warehouse, LinesOf(db, order), Release)
    case OpAttachInvoice(order, invoice) =>
      && order in db.orders && db.orders[order].state == Reserved
      && invoice in db.invoices && LinesOf(db, order) != map[]
    case OpUpdateStock(pair, onHand, reserved) =>
      0 <= onHand && 0 <= reserved && pair in db.stock && reserved != db.stock[pair].reserved
    case OpRemoveStock(pair) => pair in db.stock && !HasMoved(db, pair) && db.stock[pair].reserved != 0
    case OpReserveWarehouse(warehouse, units) => 0 < units && exists p :: p in db.stock && p.warehouse == warehouse
    case _ => false
  }

  /** The pair a breaking call shows on. */
  ghost function Witness(db: Database, op: Op): Pair
    requires BreaksHolds(db, op)
  {
    match op
    case OpSetLine(order, sku, _) => Pair(db.orders[order].warehouse, sku)
    case OpRemoveLine(order, sku) => Pair(db.orders[order].warehouse, sku)
    case OpCancelOrder(order) =>
      var warehouse := db.orders[order].warehouse;
      var s :| s in LinesOf(db, order) && Pair(warehouse, s) !in db.stock;
      Pair(warehouse, s)
    case OpAttachInvoice(order, _) =>
      assert LinesOf(db, order).Keys != {};
      NonEmpty(LinesOf(db, order).Keys);
      var s :| s in LinesOf(db, order).Keys;
      Pair(db.orders[order].warehouse, s)
    case OpUpdateStock(pair, _, _) => pair
    case OpRemoveStock(pair) => pair
    case OpReserveWarehouse(warehouse, _) =>
      var p :| p in db.stock && p.warehouse == warehouse;
      p
  }

  lemma BreakShows(db: Database, op: Op, id: int)
    requires Consistent(db) && BreaksHolds(db, op)
    ensures SlackShift(db, op, id, Witness(db, op)) != 0
  {
    var p := Witness(db, op);
    var after := Apply(db, op, id).db;
    match op {
      case OpSetLine(order, sku, quantity) =>
        assert LinesOf(after, order)[sku].quantity == quantity;
        assert QuantityOf(LinesOf(after, order), sku) != QuantityOf(LinesOf(db, order), sku);
      case OpRemoveLine(order, sku) =>
        assert sku !in LinesOf(after, order);
        assert 0 < db.lines[order][sku].quantity;
      case OpCancelOrder(order) =>
        assert after.orders[order].state == Cancelled;
        assert 0 < db.lines[order][p.sku].quantity;
      case OpAttachInvoice(order, _) =>
        assert after.orders[order].state == Invoiced;
        assert 0 < db.lines[order][p.sku].quantity;
      case OpUpdateStock(pair, _, _) =>
        assert after.stock[pair] != db.stock[pair];
      case OpRemoveStock(pair) =>
        assert pair !in after.stock;
      case OpReserveWarehouse(_, _) =>
        assert after.stock[p] != db.stock[p];
    }
  }

  lemma NoBreakNoShift(db: Database, op: Op, id: int, p: Pair)
    requires Consistent(db) && !BreaksHolds(db, op)
    ensures SlackShift(db, op, id, p) == 0
  {
  }

  /** Every operation keeps `reserved` minus the held units of every pair, except exactly the calls named. */
  lemma HoldsAreConservedExactly(db: Database, op: Op, id: int)
    requires Consistent(db) && Below(db, id)
    ensures (forall p :: Slack(Apply(db, op, id).db, p) == Slack(db, p)) <==> !BreaksHolds(db, op)
  {
    forall p ensures Slack(Apply(db, op, id).db, p) == Slack(db, p) + SlackShift(db, op, id, p) {
      SlackMoves(db, op, id, p);
    }
    if BreaksHolds(db, op) {
      BreakShows(db, op, id);
      assert Slack(Apply(db, op, id).db, Witness(db, op)) != Slack(db, Witness(db, op));
    } else {
      forall p ensures SlackShift(db, op, id, p) == 0 { NoBreakNoShift(db, op, id, p); }
    }
  }

  /** `remove_stock` asks for a history and not for a hold: a row goes with whatever it was promising. */
  lemma RemovalStripsTheHold(db: Database, pair: Pair, id: int)
    requires Consistent(db) && HoldConsistent(db)
    requires pair in db.stock && !HasMoved(db, pair) && 0 < db.stock[pair].reserved
    ensures RemoveStock(db, pair).reply == Done
    ensures Slack(RemoveStock(db, pair).db, pair) == -HeldUnits(db, pair) && 0 < HeldUnits(db, pair)
  {
    assert Slack(db, pair) == 0;
    NoOrderChanges(db, RemoveStock(db, pair).db, pair);
  }

  lemma HeldIsNotNegative(db: Database, p: Pair)
    requires Consistent(db)
    ensures 0 <= HeldUnits(db, p)
  {
    HeldForAtMost(db, 0, p);
  }

  /** Where a cancellation moves the difference, units were asked for that no row promised, and fewer are afterwards. */
  lemma CancellingRepairs(db: Database, order: int, id: int, p: Pair)
    requires Consistent(db)
    ensures var after := CancelOrder(db, order).db;
      Slack(after, p) != Slack(db, p) ==> p !in db.stock && Slack(db, p) < Slack(after, p) <= 0
  {
    var after := CancelOrder(db, order).db;
    SlackOfCancel(db, order, id, p);
    HeldForAtMost(db, order, p);
    ConstraintsHold(db, OpCancelOrder(order), id);
    HeldIsNotNegative(after, p);
  }

  /** `attach_invoice` bills a RESERVED order like a draft: two units stay promised, and no RESERVED order asks for
      them any more. */
  lemma AttachingLosesTheHold(db: Database, order: int, invoice: int, sku: int)
    requires order in db.orders && db.orders[order].state == Reserved && invoice in db.invoices
    requires LinesOf(db, order) == map[sku := Line(2, 5)]
    ensures var p, after := Pair(db.orders[order].warehouse, sku), AttachInvoice(db, order, invoice);
      after.reply == Done && Slack(after.db, p) == Slack(db, p) + 2
  {
    SlackOfAttach(db, order, invoice, Pair(db.orders[order].warehouse, sku));
  }
}
