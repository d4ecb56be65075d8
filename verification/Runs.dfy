/** Whole runs: what holds after any number of operations, whatever they are and in whatever order. */
module Runs {
  import opened Rows
  import opened Sums
  import opened Spec
  import opened Integrity
  import opened Holds
  import opened Audit
  import opened Oversell
  import opened Ledger
  import Money

  /** No operation of the run is one of the `bad` calls at the moment it is made. */
  ghost predicate Never(db: Database, events: seq<Event>, bad: (Database, Op) -> bool)
    decreases |events|
  {
    events == [] || (!bad(db, events[0].op) && Never(Apply(db, events[0].op, events[0].id).db, events[1..], bad))
  }

  lemma {:induction false} RunStaysConsistent(db: Database, events: seq<Event>, next: int)
    requires Consistent(db) && Below(db, next) && FromSequence(db, next, events)
    ensures Consistent(Run(db, events))
    decreases |events|
  {
    if events != [] {
      var op, id := events[0].op, events[0].id;
      StaysUsable(db, events[0]);
      RunStaysConsistent(Apply(db, op, id).db, events[1..], NextId(db, events[0]));
    }
  }

  /** Hold conservation over runs. */
  lemma {:induction false} RunConservesHolds(db: Database, events: seq<Event>, next: int, p: Pair)
    requires Consistent(db) && Below(db, next) && FromSequence(db, next, events)
    requires Never(db, events, BreaksHolds)
    ensures Slack(Run(db, events), p) == Slack(db, p)
    decreases |events|
  {
    if events != [] {
      var op, id := events[0].op, events[0].id;
      HoldsAreConservedExactly(db, op, id);
      StaysUsable(db, events[0]);
      RunConservesHolds(Apply(db, op, id).db, events[1..], NextId(db, events[0]), p);
    }
  }

  /** The calls whose holds need no watching: everything but the ones that edit or bill a RESERVED order by
      hand, or write a level over. */
  ghost predicate OutsideHoldDomain(db: Database, op: Op) {
    match op
    case OpSetLine(order, _, _) => order in db.orders && db.orders[order].state == Reserved
    case OpRemoveLine(order, _) => order in db.orders && db.orders[order].state == Reserved
    case OpAttachInvoice(order, _) => order in db.orders && db.orders[order].state == Reserved
    case OpUpdateStock(_, _, _) => true
    case OpRemoveStock(_) => true
    case OpReserveWarehouse(_, _) => true
    case _ => false
  }

  /** Where every promise has its order, an order's rows are there and hold at least what it asked for. */
  lemma HeldOrdersAreCovered(db: Database, order: int)
    requires Consistent(db) && HoldConsistent(db)
    requires order in db.orders && db.orders[order].state == Reserved
    ensures var warehouse, lines := db.orders[order].warehouse, LinesOf(db, order);
      AllStocked(db.stock, warehouse, lines) && MovePasses(db.stock, warehouse, lines, Release)
  {
    var warehouse, lines := db.orders[order].warehouse, LinesOf(db, order);
    forall s | s in lines
      ensures Pair(warehouse, s) in db.stock && lines[s].quantity <= db.stock[Pair(warehouse, s)].reserved
    {
      var p := Pair(warehouse, s);
      assert Slack(db, p) == 0;
      HeldForAtMost(db, order, p);
      assert 0 < db.lines[order][s].quantity;
    }
  }

  /** From books where every hold has its order, a run inside the domain keeps them so. */
  lemma {:induction false} RunKeepsHoldsOwned(db: Database, events: seq<Event>, next: int)
    requires Consistent(db) && Below(db, next) && FromSequence(db, next, events)
    requires HoldConsistent(db) && Never(db, events, OutsideHoldDomain)
    ensures HoldConsistent(Run(db, events))
    decreases |events|
  {
    if events != [] {
      var op, id := events[0].op, events[0].id;
      if op.OpCancelOrder? && op.order in db.orders && db.orders[op.order].state == Reserved {
        HeldOrdersAreCovered(db, op.order);
      }
      HoldsAreConservedExactly(db, op, id);
      StaysUsable(db, events[0]);
      RunKeepsHoldsOwned(Apply(db, op, id).db, events[1..], NextId(db, events[0]));
    }
  }

  /** Audit conservation over runs, rewound settlements included. */
  lemma {:induction false} RunConservesAudit(db: Database, events: seq<Event>, p: Pair)
    requires Never(db, events, BreaksAudit)
    ensures Drift(Run(db, events), p) == Drift(db, p)
    decreases |events|
  {
    if events != [] {
      AuditIsConservedExactly(db, events[0].op, events[0].id);
      RunConservesAudit(Apply(db, events[0].op, events[0].id).db, events[1..], p);
    }
  }

  /** A run without an overselling call never promises more than it holds. */
  lemma {:induction false} RunNeverOversells(db: Database, events: seq<Event>, next: int)
    requires Consistent(db) && Below(db, next) && FromSequence(db, next, events)
    requires Covered(db.stock) && Never(db, events, Oversells)
    ensures Covered(Run(db, events).stock)
    decreases |events|
  {
    if events != [] {
      var op, id := events[0].op, events[0].id;
      OversellsExactly(db, op, id);
      StaysUsable(db, events[0]);
      RunNeverOversells(Apply(db, op, id).db, events[1..], NextId(db, events[0]));
    }
  }

  ghost predicate NothingRecorded(db: Database) {
    && db.orders == map[] && db.lines == map[] && db.stock == map[] && db.movements == []
    && db.invoices == map[] && db.payments == [] && db.subscriptions == map[]
  }

  lemma {:induction false} RunKeepsBooks(db: Database, events: seq<Event>, next: int)
    requires Consistent(db) && Below(db, next) && FromSequence(db, next, events) && Books(db)
    ensures Books(Run(db, events))
    decreases |events|
  {
    if events != [] {
      var op, id := events[0].op, events[0].id;
      BooksStayRight(db, op, id);
      StaysUsable(db, events[0]);
      RunKeepsBooks(Apply(db, op, id).db, events[1..], NextId(db, events[0]));
    }
  }

  /** From an empty database, whatever is called: totals are derived, an order has an invoice exactly once it is
      billed, an invoice is paid exactly when a payment names it, and every payment is for the full amount. */
  lemma BooksFromScratch(db: Database, events: seq<Event>, next: int)
    requires NothingRecorded(db) && FromSequence(db, next, events)
    ensures Books(Run(db, events))
  {
    RunKeepsBooks(db, events, next);
  }

  lemma {:induction false} RunKeepsSettledPaid(db: Database, events: seq<Event>, next: int)
    requires Consistent(db) && Below(db, next) && FromSequence(db, next, events) && SettledIsPaid(db)
    requires Never(db, events, SettlesUnpaid)
    ensures SettledIsPaid(Run(db, events))
    decreases |events|
  {
    if events != [] {
      var op, id := events[0].op, events[0].id;
      SettledIsPaidExactly(db, op, id);
      StaysUsable(db, events[0]);
      RunKeepsSettledPaid(Apply(db, op, id).db, events[1..], NextId(db, events[0]));
    }
  }

  lemma {:induction false} KnownWordsNeverSettleUnpaid(db: Database, events: seq<Event>)
    requires forall i :: 0 <= i < |events| && events[i].op.OpSettle? ==> events[i].op.word in PAYMENT_KINDS
    ensures Never(db, events, SettlesUnpaid)
    decreases |events|
  {
    if events != [] {
      assert events[0].op.OpSettle? ==> events[0].op.word in PAYMENT_KINDS;
      KnownWordsNeverSettleUnpaid(Apply(db, events[0].op, events[0].id).db, events[1..]);
    }
  }

  /** From an empty database, with every settlement in a known payment word: each SETTLED order has a paid
      invoice raised against a subscription of its own customer. */
  lemma SettledOrdersArePaidFromScratch(db: Database, events: seq<Event>, next: int)
    requires NothingRecorded(db) && FromSequence(db, next, events)
    requires forall i :: 0 <= i < |events| && events[i].op.OpSettle? ==> events[i].op.word in PAYMENT_KINDS
    ensures SettledIsPaid(Run(db, events))
  {
    KnownWordsNeverSettleUnpaid(db, events);
    RunKeepsSettledPaid(db, events, next);
  }

  /** What a run leaves of a closed order and of an issued invoice: both, as they were. */
  lemma {:induction false} RunFreezesTheBill(db: Database, events: seq<Event>, next: int, order: int, invoice: int)
    requires Consistent(db) && Below(db, next) && FromSequence(db, next, events)
    requires order in db.orders && Closed(db.orders[order].state) && LinesOf(db, order) != map[]
    requires invoice in db.invoices
    ensures var later := Run(db, events);
      && order in later.orders && later.orders[order] == db.orders[order] && LinesOf(later, order) == LinesOf(db, order)
      && invoice in later.invoices && later.invoices[invoice].amountCents == db.invoices[invoice].amountCents
    decreases |events|
  {
    if events != [] {
      var op, id := events[0].op, events[0].id;
      ClosedOrdersAreFrozen(db, op, id, order);
      InvoicesAreFrozen(db, op, id, invoice);
      StaysUsable(db, events[0]);
      RunFreezesTheBill(Apply(db, op, id).db, events[1..], NextId(db, events[0]), order, invoice);
    }
  }

  /** An invoice issued by `settle`, accepted or declined, is its order's line sum in cents in every later state. */
  lemma SettledInvoiceIsTheLineSum(
    db: Database, order: int, subscription: int, word: string, charge: Charge, id: int, events: seq<Event>)
    requires Consistent(db) && Below(db, id) && MoneyDerived(db)
    requires FromSequence(Settle(db, order, subscription, word, charge, id).db, id + 1, events)
    requires Settle(db, order, subscription, word, charge, id).reply in {Done, PaymentDeclined}
    ensures var later := Run(Settle(db, order, subscription, word, charge, id).db, events);
      && order in later.orders && later.orders[order].invoice == Some(id) && id in later.invoices
      && later.invoices[id].amountCents == Total(LinesOf(later, order))
  {
    var after := Settle(db, order, subscription, word, charge, id).db;
    assert SoundOrder(db.orders[order], LinesOf(db, order));
    Money.InCentsIsExact(db.orders[order].total);
    assert after == Apply(db, OpSettle(order, subscription, word, charge), id).db;
    StaysUsable(db, Event(OpSettle(order, subscription, word, charge), id));
    RunFreezesTheBill(after, events, id + 1, order, id);
  }

  // ---- what a caller can count on before settling or cancelling ---------------------------------------------

  /** With the holds owned and the shelf covered, `settle` fails in the engine only on an order without lines
      (an empty `IN` does not compile) or because the charge itself broke. */
  lemma SettleRaisesExactly(db: Database, order: int, subscription: int, word: string, charge: Charge, id: int)
    requires Consistent(db) && HoldConsistent(db) && Covered(db.stock)
    ensures Settle(db, order, subscription, word, charge, id).reply == Raised <==>
      (order in db.orders && db.orders[order].state == Reserved && subscription in db.subscriptions
       && db.subscriptions[subscription].user == db.orders[order].customer
       && (LinesOf(db, order) == map[] || charge == Breaks))
  {
    if order in db.orders && db.orders[order].state == Reserved {
      HeldOrdersAreCovered(db, order);
      var warehouse, lines := db.orders[order].warehouse, LinesOf(db, order);
      forall s | s in lines ensures Admissible(Moved(ShipHeld, db.stock[Pair(warehouse, s)], lines[s].quantity)) {
        assert Admissible(Moved(Release, db.stock[Pair(warehouse, s)], lines[s].quantity));
      }
    }
  }

  lemma CancelRaisesExactly(db: Database, order: int)
    requires Consistent(db) && HoldConsistent(db)
    ensures CancelOrder(db, order).reply == Raised <==>
      order in db.orders && db.orders[order].state == Reserved && LinesOf(db, order) == map[]
  {
    if order in db.orders && db.orders[order].state == Reserved {
      HeldOrdersAreCovered(db, order);
    }
  }

  /** How an order gets there: reserve it, then take its only line off. It can then neither ship nor be
      cancelled, and the units stay promised. */
  lemma LastLineOffStrandsTheOrder(db: Database, order: int, sku: int)
    requires Consistent(db)
    requires order in db.orders && db.orders[order].state == Reserved && LinesOf(db, order).Keys == {sku}
    ensures var after := RemoveLine(db, order, sku).db;
      && after.stock == db.stock
      && CancelOrder(after, order).reply == Raised
      && (forall subscription, word, charge, id :: Settle(after, order, subscription, word, charge, id).db == after)
  {
    assert LinesOf(db, order) - {sku} == map[];
  }
}
