/** What a caller of `settle` gets, read off the database row by row: one of three outcomes and nothing in between. */
module Settlement {
  import opened Rows
  import opened KeyOrder
  import opened Spec
  import opened Integrity
  import opened Audit
  import Money
  import Sums

  /** Row by row: the pairs of the order's lines go down by the line, on the columns named; no other pair moves. */
  ghost predicate TakenOff(
    before: map<Pair, Stock>, after: map<Pair, Stock>, warehouse: int, lines: map<int, Line>, shelf: bool)
  {
    && after.Keys == before.Keys
    && (forall s :: s in lines && Pair(warehouse, s) in before ==>
          var p := Pair(warehouse, s);
          after[p].reserved == before[p].reserved - lines[s].quantity
          && after[p].onHand == before[p].onHand - if shelf then lines[s].quantity else 0)
    && (forall p :: p in before && !(p.warehouse == warehouse && p.sku in lines) ==> after[p] == before[p])
  }

  lemma MovesTakeOff(stock: map<Pair, Stock>, warehouse: int, lines: map<int, Line>)
    ensures TakenOff(stock, MovedStock(stock, warehouse, lines, ShipHeld), warehouse, lines, true)
    ensures TakenOff(stock, MovedStock(stock, warehouse, lines, Release), warehouse, lines, false)
  {
  }

  /** One invoice more, for the order's money, and the order pointing at it. */
  ghost predicate OneInvoiceMore(
    db: Database, after: Database, order: int, subscription: int, id: int, state: OrderState, paid: bool)
  {
    && order in db.orders && id in after.invoices
    && after.invoices == db.invoices[id := after.invoices[id]]
    && after.invoices[id] == Invoice(db.orders[order].total, paid, subscription)
    && after.orders == db.orders[order := db.orders[order].(state := state, invoice := Some(id))]
  }

  ghost predicate NothingElse(db: Database, after: Database) {
    && after.lines == db.lines && after.subscriptions == db.subscriptions && after.prices == db.prices
    && after.users == db.users && after.plans == db.plans && after.warehouses == db.warehouses
  }

  ghost predicate PaidInFull(db: Database, after: Database, word: string, id: int) {
    after.payments == db.payments +
      if word in PAYMENT_KINDS && id in after.invoices then [Payment(after.invoices[id].amountCents, word, id)] else []
  }

  /** Settled: the invoice paid in full if the word is a payment kind, both levels of every line's pair down by the
      line, and one movement a line, each a sale, that together take from every pair what its line asked. */
  ghost predicate ShippedAndPaid(db: Database, after: Database, order: int, subscription: int, word: string, id: int) {
    && OneInvoiceMore(db, after, order, subscription, id, Settled, word in PAYMENT_KINDS)
    && PaidInFull(db, after, word, id)
    && TakenOff(db.stock, after.stock, db.orders[order].warehouse, LinesOf(db, order), true)
    && |after.movements| == |db.movements| + |LinesOf(db, order).Keys| && db.movements <= after.movements
    && (forall i :: |db.movements| <= i < |after.movements| ==> after.movements[i].reason == Sale)
    && (forall p :: NetMoved(after.movements, p) == NetMoved(db.movements, p) -
          if p.warehouse == db.orders[order].warehouse then QuantityOf(LinesOf(db, order), p.sku) else 0)
    && NothingElse(db, after)
  }

  /** Declined: the invoice stands unpaid, what was held is free, and neither a payment nor a movement is left. */
  ghost predicate BilledAndReleased(db: Database, after: Database, order: int, subscription: int, id: int) {
    && OneInvoiceMore(db, after, order, subscription, id, Invoiced, false)
    && after.payments == db.payments && after.movements == db.movements
    && TakenOff(db.stock, after.stock, db.orders[order].warehouse, LinesOf(db, order), false)
    && NothingElse(db, after)
  }

  lemma OneKeyALine(order: int, lines: map<int, Line>)
    ensures |LineKeys(order, lines)| == |lines.Keys|
  {
    SortedListsTheKeys(set s | s in lines :: Pair(order, s));
    PairedIsAsMany(order, lines.Keys);
    assert (set s | s in lines :: Pair(order, s)) == (set s | s in lines.Keys :: Pair(order, s));
  }

  lemma {:induction false} PairedIsAsMany(order: int, skus: set<int>)
    ensures |set s | s in skus :: Pair(order, s)| == |skus|
    decreases skus
  {
    if skus != {} {
      Sums.NonEmpty(skus);
      var s :| s in skus;
      PairedIsAsMany(order, skus - {s});
      assert (set t | t in skus :: Pair(order, t)) == (set t | t in skus - {s} :: Pair(order, t)) + {Pair(order, s)};
    }
  }

  lemma SalesOfAnOrder(db: Database, order: int, p: Pair)
    requires order in db.orders
    ensures var row, lines := db.orders[order], LinesOf(db, order);
      var sales := Sales(row.warehouse, LineKeys(order, lines), lines);
      && |sales| == |lines.Keys| && (forall i :: 0 <= i < |sales| ==> sales[i].reason == Sale)
      && NetMoved(db.movements + sales, p) == NetMoved(db.movements, p) -
           if p.warehouse == row.warehouse && p.sku in lines then lines[p.sku].quantity else 0
  {
    var row, lines := db.orders[order], LinesOf(db, order);
    OneKeyALine(order, lines);
    NetOfAnOrder(row.warehouse, order, lines, p);
    NetOfConcatenation(db.movements, Sales(row.warehouse, LineKeys(order, lines), lines), p);
  }

  lemma ShippedIsBilled(db: Database, order: int, subscription: int, word: string, id: int)
    requires order in db.orders
    ensures var after := Shipped(db, order, subscription, word, id);
      && OneInvoiceMore(db, after, order, subscription, id, Settled, word in PAYMENT_KINDS)
      && PaidInFull(db, after, word, id) && NothingElse(db, after)
  {
    Money.InCentsIsExact(db.orders[order].total);
  }

  lemma ShippedIsShippedAndPaid(db: Database, order: int, subscription: int, word: string, id: int)
    requires order in db.orders
    ensures ShippedAndPaid(db, Shipped(db, order, subscription, word, id), order, subscription, word, id)
  {
    var row, lines := db.orders[order], LinesOf(db, order);
    ShippedIsBilled(db, order, subscription, word, id);
    MovesTakeOff(db.stock, row.warehouse, lines);
    forall p { SalesOfAnOrder(db, order, p); }
    SalesOfAnOrder(db, order, Pair(0, 0));
  }

  lemma DeclinedIsBilledAndReleased(db: Database, order: int, subscription: int, id: int)
    requires order in db.orders
    ensures BilledAndReleased(db, Spec.Declined(db, order, subscription, id), order, subscription, id)
  {
    Money.InCentsIsExact(db.orders[order].total);
    MovesTakeOff(db.stock, db.orders[order].warehouse, LinesOf(db, order));
  }

  /** Nothing changed, shipped and paid, or billed and released: which one is told by the reply. */
  lemma SettleHasThreeOutcomes(db: Database, order: int, subscription: int, word: string, charge: Charge, id: int)
    ensures var outcome := Settle(db, order, subscription, word, charge, id);
      match outcome.reply
      case Done => charge == Accepts && ShippedAndPaid(db, outcome.db, order, subscription, word, id)
      case PaymentDeclined => charge == Declines && BilledAndReleased(db, outcome.db, order, subscription, id)
      case _ => outcome.db == db
  {
    if order in db.orders {
      ShippedIsShippedAndPaid(db, order, subscription, word, id);
      DeclinedIsBilledAndReleased(db, order, subscription, id);
    }
  }
}
