/** The money: totals derived from lines, invoices that do not move once issued, and payments that add up. */
module Ledger {
  import opened Rows
  import opened Sums
  import opened Spec
  import opened Integrity
  import Money

  predicate Unbilled(state: OrderState) {
    state == Draft || state == Reserved || state == Cancelled
  }

  /** An order's total is its lines' money, and it points at an invoice exactly once it has been billed. */
  ghost predicate SoundOrder(row: Order, lines: map<int, Line>) {
    row.total == Total(lines) && (row.invoice == None <==> Unbilled(row.state))
  }

  ghost predicate MoneyDerived(db: Database) {
    forall o :: o in db.orders ==> SoundOrder(db.orders[o], LinesOf(db, o))
  }

  ghost predicate PaidBy(payments: seq<Payment>, invoice: int) {
    exists k :: 0 <= k < |payments| && payments[k].invoice == invoice
  }

  /** An invoice says `paid` exactly when a payment names it. */
  ghost predicate PaidMeansPayment(db: Database) {
    forall i :: i in db.invoices ==> (db.invoices[i].paid <==> PaidBy(db.payments, i))
  }

  ghost predicate FullAmounts(db: Database) {
    forall k :: 0 <= k < |db.payments| ==>
      db.payments[k].invoice in db.invoices
      && db.payments[k].amountCents == db.invoices[db.payments[k].invoice].amountCents
  }

  /** The invoice is there, and the subscription it is raised against is the customer's own. */
  ghost predicate OwnInvoice(db: Database, row: Order) {
    && row.invoice.Some? && row.invoice.value in db.invoices
    && db.invoices[row.invoice.value].subscription in db.subscriptions
    && db.subscriptions[db.invoices[row.invoice.value].subscription].user == row.customer
  }

  ghost predicate SettledIsOwn(db: Database) {
    forall o :: o in db.orders && db.orders[o].state == Settled ==> OwnInvoice(db, db.orders[o])
  }

  ghost predicate SettledIsPaid(db: Database) {
    forall o :: o in db.orders && db.orders[o].state == Settled ==>
      OwnInvoice(db, db.orders[o]) && db.invoices[db.orders[o].invoice.value].paid
  }

  ghost predicate Books(db: Database) {
    MoneyDerived(db) && PaidMeansPayment(db) && FullAmounts(db) && SettledIsOwn(db)
  }

  // ---- totals -----------------------------------------------------------------------------------------------

  lemma LineEditsKeepMoney(db: Database, order: int, lines: map<int, Line>)
    requires MoneyDerived(db) && order in db.orders
    ensures MoneyDerived(WithLines(db, order, lines))
  {
  }

  lemma PlacingKeepsMoney(
    db: Database, reference: string, customer: int, warehouse: int, items: seq<(int, int)>, id: int)
    requires MoneyDerived(db) && id !in db.orders
    ensures MoneyDerived(PlaceOrder(db, reference, customer, warehouse, items, id).db)
  {
    PlacedShape(db, reference, customer, warehouse, items, id);
    var after := PlaceOrder(db, reference, customer, warehouse, items, id).db;
    if after != db {
      assert after.orders[id] == Order(reference, Draft, Total(after.lines[id]), customer, warehouse, None);
      forall o | o in after.orders ensures SoundOrder(after.orders[o], LinesOf(after, o)) {
        if o != id { assert LinesOf(after, o) == LinesOf(db, o); }
      }
    }
  }

  /** One row moves on; its lines and total do not. */
  lemma StateChangeKeepsMoney(db: Database, after: Database, order: int)
    requires MoneyDerived(db) && order in db.orders
    requires after.lines == db.lines && after.orders.Keys == db.orders.Keys
    requires forall o :: o in db.orders && o != order ==> after.orders[o] == db.orders[o]
    requires after.orders[order].total == db.orders[order].total
    requires after.orders[order].invoice == None <==> Unbilled(after.orders[order].state)
    ensures MoneyDerived(after)
  {
    forall o | o in after.orders ensures SoundOrder(after.orders[o], LinesOf(after, o)) {
      assert SoundOrder(db.orders[o], LinesOf(db, o));
    }
  }

  lemma SettlingKeepsMoney(db: Database, order: int, subscription: int, word: string, charge: Charge, id: int)
    requires MoneyDerived(db)
    ensures MoneyDerived(Settle(db, order, subscription, word, charge, id).db)
  {
    var after := Settle(db, order, subscription, word, charge, id).db;
    if after != db {
      assert SoundOrder(db.orders[order], LinesOf(db, order));
      StateChangeKeepsMoney(db, after, order);
    }
  }

  lemma OrderOpKeepsMoney(db: Database, op: Op, id: int)
    requires MoneyDerived(db)
    requires op.OpReserve? || op.OpCancelOrder? || op.OpAttachInvoice?
    ensures MoneyDerived(Apply(db, op, id).db)
  {
    var after := Apply(db, op, id).db;
    if after != db {
      assert SoundOrder(db.orders[op.order], LinesOf(db, op.order));
      StateChangeKeepsMoney(db, after, op.order);
    }
  }

  lemma RemovalKeepsMoney(db: Database, order: int)
    requires MoneyDerived(db)
    ensures MoneyDerived(RemoveOrder(db, order).db)
  {
    var after := RemoveOrder(db, order).db;
    forall o | o in after.orders ensures SoundOrder(after.orders[o], LinesOf(after, o)) {
      assert SoundOrder(db.orders[o], LinesOf(db, o));
    }
  }

  lemma MoneyStaysDerived(db: Database, op: Op, id: int)
    requires MoneyDerived(db) && Below(db, id)
    ensures MoneyDerived(Apply(db, op, id).db)
  {
    match op
    case OpPlaceOrder(reference, customer, warehouse, items) =>
      PlacingKeepsMoney(db, reference, customer, warehouse, items, id);
    case OpSetLine(order, sku, quantity) =>
      if Apply(db, op, id).reply == Done {
        LineEditsKeepMoney(db, order, LinesOf(db, order)[sku := Line(quantity, db.prices[sku])]);
      }
    case OpRemoveLine(order, sku) =>
      if Apply(db, op, id).reply == Done { LineEditsKeepMoney(db, order, LinesOf(db, order) - {sku}); }
    case OpRemoveOrder(order) => RemovalKeepsMoney(db, order);
    case OpSettle(order, subscription, word, charge) => SettlingKeepsMoney(db, order, subscription, word, charge, id);
    case _ =>
      if TouchesOrders(op) { OrderOpKeepsMoney(db, op, id); } else { OrdersUntouched(db, op, id); }
  }

  // ---- what does not move once billed -----------------------------------------------------------------------

  predicate Closed(state: OrderState) {
    state == Invoiced || state == Settled || state == Cancelled
  }

  lemma ClosedOrdersRefuse(db: Database, op: Op, id: int)
    requires Consistent(db) && TouchesOrders(op) && !op.OpPlaceOrder?
    requires op.order in db.orders && Closed(db.orders[op.order].state)
    ensures Apply(db, op, id).db == db
         || (op.OpRemoveOrder? && LinesOf(db, op.order) == map[] && op.order !in Apply(db, op, id).db.orders)
  {
  }

  /** A billed or cancelled order is never written again. It can only be deleted, and only without lines. */
  lemma ClosedOrdersAreFrozen(db: Database, op: Op, id: int, order: int)
    requires Consistent(db) && Below(db, id) && order in db.orders && Closed(db.orders[order].state)
    ensures var after := Apply(db, op, id).db;
      if order in after.orders
      then after.orders[order] == db.orders[order] && LinesOf(after, order) == LinesOf(db, order)
      else LinesOf(db, order) == map[]
  {
    if !TouchesOrders(op) {
      OrdersUntouched(db, op, id);
    } else if order != Target(op, id) {
      OnlyTheTargetChanges(db, op, id, order);
    } else {
      ClosedOrdersRefuse(db, op, id);
    }
  }

  /** An issued invoice keeps its amount and its subscription for ever, and what is paid stays paid. */
  lemma InvoicesAreFrozen(db: Database, op: Op, id: int, invoice: int)
    requires Below(db, id) && invoice in db.invoices
    ensures var after := Apply(db, op, id).db;
      invoice in after.invoices
      && after.invoices[invoice].amountCents == db.invoices[invoice].amountCents
      && after.invoices[invoice].subscription == db.invoices[invoice].subscription
      && (db.invoices[invoice].paid ==> after.invoices[invoice].paid)
  {
    if op.OpPlaceOrder? { PlacedShape(db, op.reference, op.customer, op.warehouse, op.items, id); }
  }

  lemma OwnersAreFrozen(db: Database, op: Op, id: int, subscription: int)
    requires Below(db, id) && subscription in db.subscriptions
    ensures var after := Apply(db, op, id).db;
      subscription in after.subscriptions
      && after.subscriptions[subscription].user == db.subscriptions[subscription].user
  {
    if op.OpPlaceOrder? { PlacedShape(db, op.reference, op.customer, op.warehouse, op.items, id); }
  }

  // ---- payments ---------------------------------------------------------------------------------------------

  lemma OneMorePayment(payments: seq<Payment>, payment: Payment, invoice: int)
    ensures PaidBy(payments + [payment], invoice) <==> PaidBy(payments, invoice) || payment.invoice == invoice
  {
    var more := payments + [payment];
    assert more[|payments|] == payment;
    if PaidBy(payments, invoice) {
      var k :| 0 <= k < |payments| && payments[k].invoice == invoice;
      assert more[k].invoice == invoice;
    }
  }

  /** One payment more, for the amount of its invoice, and the invoice marked. */
  lemma PayingKeepsBooks(db: Database, invoice: int, word: string)
    requires PaidMeansPayment(db) && FullAmounts(db)
    ensures PaidMeansPayment(PayInvoice(db, invoice, word).db) && FullAmounts(PayInvoice(db, invoice, word).db)
  {
    var outcome := PayInvoice(db, invoice, word);
    if outcome.reply == Done {
      var payment := Payment(db.invoices[invoice].amountCents, word, invoice);
      forall i | i in outcome.db.invoices ensures outcome.db.invoices[i].paid <==> PaidBy(outcome.db.payments, i) {
        OneMorePayment(db.payments, payment, i);
      }
    }
  }

  /** A new invoice, unpaid without a payment or paid with one. */
  lemma BillingKeepsBooks(db: Database, after: Database, id: int, paid: bool, word: string)
    requires PaidMeansPayment(db) && FullAmounts(db) && id !in db.invoices
      && PaymentsLinked(db.payments, db.invoices.Keys)
    requires id in after.invoices && after.invoices == db.invoices[id := after.invoices[id]]
    requires after.invoices[id].paid == paid
    requires after.payments
          == if paid then db.payments + [Payment(after.invoices[id].amountCents, word, id)] else db.payments
    ensures PaidMeansPayment(after) && FullAmounts(after)
  {
    var payment := Payment(after.invoices[id].amountCents, word, id);
    assert !PaidBy(db.payments, id);
    if paid {
      forall i | i in after.invoices ensures after.invoices[i].paid <==> PaidBy(after.payments, i) {
        OneMorePayment(db.payments, payment, i);
      }
    }
  }

  lemma SettlingKeepsPayments(db: Database, order: int, subscription: int, word: string, charge: Charge, id: int)
    requires PaidMeansPayment(db) && FullAmounts(db) && Consistent(db) && Below(db, id)
    ensures var after := Settle(db, order, subscription, word, charge, id).db;
      PaidMeansPayment(after) && FullAmounts(after)
  {
    var outcome := Settle(db, order, subscription, word, charge, id);
    if outcome.db != db {
      BillingKeepsBooks(db, outcome.db, id, charge == Accepts && word in PAYMENT_KINDS, word);
    }
  }

  lemma PaymentsUntouched(db: Database, op: Op, id: int)
    requires !op.OpSettle? && !op.OpIssueInvoice? && !op.OpPayInvoice?
    ensures Apply(db, op, id).db.invoices == db.invoices && Apply(db, op, id).db.payments == db.payments
  {
    if op.OpPlaceOrder? { PlacedShape(db, op.reference, op.customer, op.warehouse, op.items, id); }
  }

  lemma PaymentsStayMatched(db: Database, op: Op, id: int)
    requires PaidMeansPayment(db) && FullAmounts(db) && Consistent(db) && Below(db, id)
    ensures PaidMeansPayment(Apply(db, op, id).db) && FullAmounts(Apply(db, op, id).db)
  {
    match op
    case OpSettle(order, subscription, word, charge) =>
      SettlingKeepsPayments(db, order, subscription, word, charge, id);
    case OpPayInvoice(invoice, word) => PayingKeepsBooks(db, invoice, word);
    case OpIssueInvoice(subscription, amountCents) =>
      if Apply(db, op, id).reply == Done { BillingKeepsBooks(db, Apply(db, op, id).db, id, false, ""); }
    case _ => PaymentsUntouched(db, op, id);
  }

  // ---- settled orders ---------------------------------------------------------------------------------------

  lemma OnlySettlingSettles(db: Database, op: Op, id: int)
    requires TouchesOrders(op)
    requires Target(op, id) in Apply(db, op, id).db.orders
    requires Apply(db, op, id).db.orders[Target(op, id)].state == Settled
    ensures Apply(db, op, id).db == db || (op.OpSettle? && Apply(db, op, id).reply == Done)
  {
    if op.OpPlaceOrder? { PlacedShape(db, op.reference, op.customer, op.warehouse, op.items, id); }
  }

  /** An order that is SETTLED afterwards was SETTLED before, row for row, or has just been settled. */
  lemma WhoIsSettled(db: Database, op: Op, id: int, order: int)
    requires Below(db, id)
    requires order in Apply(db, op, id).db.orders && Apply(db, op, id).db.orders[order].state == Settled
    ensures (order in db.orders && Apply(db, op, id).db.orders[order] == db.orders[order])
         || (op.OpSettle? && op.order == order && Apply(db, op, id).reply == Done)
  {
    if !TouchesOrders(op) {
      OrdersUntouched(db, op, id);
    } else if order != Target(op, id) {
      OnlyTheTargetChanges(db, op, id, order);
    } else {
      OnlySettlingSettles(db, op, id);
    }
  }

  lemma JustSettledIsOwn(db: Database, op: Op, id: int)
    requires op.OpSettle? && Apply(db, op, id).reply == Done
    ensures var after := Apply(db, op, id).db;
      && op.order in after.orders && after.orders[op.order].state == Settled
      && OwnInvoice(after, after.orders[op.order])
      && (after.invoices[after.orders[op.order].invoice.value].paid <==> op.word in PAYMENT_KINDS)
  {
  }

  lemma SettledStaysOwn(db: Database, op: Op, id: int, order: int)
    requires Below(db, id) && SettledIsOwn(db)
    requires order in Apply(db, op, id).db.orders && Apply(db, op, id).db.orders[order].state == Settled
    ensures OwnInvoice(Apply(db, op, id).db, Apply(db, op, id).db.orders[order])
  {
    WhoIsSettled(db, op, id, order);
    if op.OpSettle? && op.order == order && Apply(db, op, id).reply == Done {
      JustSettledIsOwn(db, op, id);
    } else {
      var invoice := db.orders[order].invoice.value;
      assert OwnInvoice(db, db.orders[order]);
      InvoicesAreFrozen(db, op, id, invoice);
      OwnersAreFrozen(db, op, id, db.invoices[invoice].subscription);
    }
  }

  /** The books stay right through every operation. */
  lemma BooksStayRight(db: Database, op: Op, id: int)
    requires Consistent(db) && Below(db, id) && Books(db)
    ensures Books(Apply(db, op, id).db)
  {
    MoneyStaysDerived(db, op, id);
    PaymentsStayMatched(db, op, id);
    var after := Apply(db, op, id).db;
    forall o | o in after.orders && after.orders[o].state == Settled ensures OwnInvoice(after, after.orders[o]) {
      SettledStaysOwn(db, op, id, o);
    }
  }

  /** A settlement in a word that is not a payment kind: `_pay` returns without a payment, and the charge, the
      shipment and the SETTLED state go ahead. */
  ghost predicate SettlesUnpaid(db: Database, op: Op) {
    && op.OpSettle? && op.charge == Accepts && op.word !in PAYMENT_KINDS
    && SettleGuard(db, op.order, op.subscription) == Done
    && MovePasses(db.stock, db.orders[op.order].warehouse, LinesOf(db, op.order), ShipHeld)
  }

  /** Every settled order is paid for, until exactly such a settlement. */
  lemma SettledIsPaidExactly(db: Database, op: Op, id: int)
    requires Consistent(db) && Below(db, id) && SettledIsPaid(db)
    ensures SettledIsPaid(Apply(db, op, id).db) <==> !SettlesUnpaid(db, op)
  {
    var after := Apply(db, op, id).db;
    if SettlesUnpaid(db, op) {
      JustSettledIsOwn(db, op, id);
    } else {
      forall o | o in after.orders && after.orders[o].state == Settled
        ensures OwnInvoice(after, after.orders[o]) && after.invoices[after.orders[o].invoice.value].paid
      {
        SettledStaysOwn(db, op, id, o);
        WhoIsSettled(db, op, id, o);
        if op.OpSettle? && op.order == o && Apply(db, op, id).reply == Done {
          JustSettledIsOwn(db, op, id);
        } else {
          InvoicesAreFrozen(db, op, id, db.orders[o].invoice.value);
        }
      }
    }
  }

  /** A word the order API passes on as it came: the order ends SETTLED, its one invoice unpaid, the units gone. */
  lemma ChequesSettleUnpaid(db: Database, order: int, subscription: int, id: int)
    requires Consistent(db) && Below(db, id) && SettledIsPaid(db)
    requires SettleGuard(db, order, subscription) == Done
    requires MovePasses(db.stock, db.orders[order].warehouse, LinesOf(db, order), ShipHeld)
    ensures var outcome := Settle(db, order, subscription, "cheque", Accepts, id);
      && outcome.reply == Done && outcome.db.orders[order].state == Settled
      && outcome.db.orders[order].invoice == Some(id) && !outcome.db.invoices[id].paid
      && outcome.db.payments == db.payments && !SettledIsPaid(outcome.db)
  {
    var op := OpSettle(order, subscription, "cheque", Accepts);
    assert "cheque" !in PAYMENT_KINDS by {
      assert "cheque"[1] != "card"[1] && "cheque"[0] != "transfer"[0] && "cheque"[0] != "paypal"[0]
        && "cheque"[0] != "wallet"[0];
    }
    SettledIsPaidExactly(db, op, id);
    assert SettlesUnpaid(db, op);
  }
}
