/** What each stock and billing call answers, and what it leaves, read off the tables as in `OrderAnswers`. */
module ShelfAnswers {
  import opened Rows
  import opened Spec

  // ---- the shelf --------------------------------------------------------------------------------------------

  /** The levels of a pair; none of anything where it has no row. */
  function OnHandOf(db: Database, pair: Pair): int {
    if pair in db.stock then db.stock[pair].onHand else 0
  }

  function ReservedOf(db: Database, pair: Pair): int {
    if pair in db.stock then db.stock[pair].reserved else 0
  }

  /** The pair has these levels now, every other pair has what it had, and nothing but stock and movements changed. */
  ghost predicate OnlyThePair(db: Database, after: Database, pair: Pair, onHand: int, reserved: int) {
    && pair in after.stock && after.stock[pair].onHand == onHand && after.stock[pair].reserved == reserved
    && (forall p :: p != pair ==>
          (p in after.stock <==> p in db.stock) && (p in db.stock ==> after.stock[p] == db.stock[p]))
    && after == db.(stock := after.stock, movements := after.movements)
  }

  /** Units in: the shelf up by exactly those units, a purchase of exactly those units in the history. */
  lemma ReceiveAnswers(db: Database, pair: Pair, units: int, id: int)
    requires Consistent(db)
    ensures var outcome := Apply(db, OpReceive(pair, units), id);
      var there := pair.warehouse in db.warehouses && pair.sku in db.prices;
      && (outcome.reply == MissingFields <==> units <= 0)
      && (outcome.reply == NotFound <==> 0 < units && !there)
      && (outcome.reply == Done <==> 0 < units && there)
      && (outcome.reply != Done ==> outcome.db == db)
      && (outcome.reply == Done ==>
            && OnlyThePair(db, outcome.db, pair, OnHandOf(db, pair) + units, ReservedOf(db, pair))
            && outcome.db.movements == db.movements + [Movement(pair, units, Purchase)])
  {
  }

  /** Units out: the shelf down by exactly those units if it has them, promised or not, and a sale of them. */
  lemma ShipAnswers(db: Database, pair: Pair, units: int, id: int)
    requires Consistent(db)
    ensures var outcome := Apply(db, OpShip(pair, units), id);
      && (outcome.reply == MissingFields <==> units <= 0)
      && (outcome.reply == NotFound <==> 0 < units && pair !in db.stock)
      && (outcome.reply == Conflict <==> 0 < units && pair in db.stock && OnHandOf(db, pair) < units)
      && (outcome.reply == Done <==> 0 < units && pair in db.stock && units <= OnHandOf(db, pair))
      && (outcome.reply != Done ==> outcome.db == db)
      && (outcome.reply == Done ==>
            && OnlyThePair(db, outcome.db, pair, OnHandOf(db, pair) - units, ReservedOf(db, pair))
            && outcome.db.movements == db.movements + [Movement(pair, -units, Sale)])
  {
  }

  /** Both levels as they were given, without a movement. */
  lemma UpdateStockAnswers(db: Database, pair: Pair, onHand: int, reserved: int, id: int)
    ensures var outcome := Apply(db, OpUpdateStock(pair, onHand, reserved), id);
      var sensible := 0 <= onHand && 0 <= reserved;
      && (outcome.reply == MissingFields <==> !sensible)
      && (outcome.reply == NotFound <==> sensible && pair !in db.stock)
      && (outcome.reply == Done <==> sensible && pair in db.stock)
      && (outcome.reply != Done ==> outcome.db == db)
      && (outcome.reply == Done ==>
            OnlyThePair(db, outcome.db, pair, onHand, reserved) && outcome.db.movements == db.movements)
  {
  }

  lemma RemoveStockAnswers(db: Database, pair: Pair, id: int)
    ensures var outcome := Apply(db, OpRemoveStock(pair), id);
      var moved := exists i :: 0 <= i < |db.movements| && db.movements[i].pair == pair;
      && (outcome.reply == NotFound <==> pair !in db.stock)
      && (outcome.reply == Conflict <==> pair in db.stock && moved)
      && (outcome.reply == Done <==> pair in db.stock && !moved)
      && (outcome.reply != Done ==> outcome.db == db)
      && (outcome.reply == Done ==>
            && pair !in outcome.db.stock
            && (forall p :: p != pair ==>
                  (p in outcome.db.stock <==> p in db.stock)
                  && (p in db.stock ==> outcome.db.stock[p] == db.stock[p]))
            && outcome.db == db.(stock := outcome.db.stock))
  {
  }

  /** The shelf as it was counted, the promises as they were, without a movement; a pair that had no row has one. */
  lemma CountStockAnswers(db: Database, pair: Pair, onHand: int, id: int)
    ensures var outcome := Apply(db, OpCountStock(pair, onHand), id);
      var there := pair.warehouse in db.warehouses && pair.sku in db.prices;
      && (outcome.reply == MissingFields <==> onHand < 0)
      && (outcome.reply == Raised <==> 0 <= onHand && !there)
      && (outcome.reply == Done <==> 0 <= onHand && there)
      && (outcome.reply != Done ==> outcome.db == db)
      && (outcome.reply == Done ==>
            && OnlyThePair(db, outcome.db, pair, onHand, ReservedOf(db, pair))
            && outcome.db.movements == db.movements)
  {
  }

  /** Every pair of the warehouse promises the units more, whatever it holds; no other pair does. */
  lemma ReserveWarehouseAnswers(db: Database, warehouse: int, units: int, id: int)
    ensures var outcome := Apply(db, OpReserveWarehouse(warehouse, units), id);
      && (outcome.reply == MissingFields <==> units <= 0)
      && (outcome.reply == Done <==> 0 < units)
      && (outcome.reply != Done ==> outcome.db == db)
      && (outcome.reply == Done ==>
            && outcome.db.stock.Keys == db.stock.Keys
            && (forall p :: p in db.stock ==>
                  outcome.db.stock[p].onHand == db.stock[p].onHand
                  && outcome.db.stock[p].reserved
                     == db.stock[p].reserved + if p.warehouse == warehouse then units else 0)
            && outcome.db == db.(stock := outcome.db.stock))
  {
  }

  // ---- billing ----------------------------------------------------------------------------------------------

  lemma SubscribeAnswers(db: Database, user: int, plan: int, id: int)
    ensures var outcome := Apply(db, OpSubscribe(user, plan), id);
      && (outcome.reply == Raised <==> user !in db.users || plan !in db.plans)
      && (outcome.reply == Done <==> user in db.users && plan in db.plans)
      && (outcome.reply != Done ==> outcome.db == db)
      && (outcome.reply == Done ==>
            outcome.db == db.(subscriptions := db.subscriptions[id := Subscription(user, plan, true)]))
  {
  }

  /** The subscription stops being active and keeps its user and its plan. */
  lemma CancelSubscriptionAnswers(db: Database, subscription: int, id: int)
    ensures var outcome := Apply(db, OpCancelSubscription(subscription), id);
      && (outcome.reply == NotFound <==> subscription !in db.subscriptions)
      && (outcome.reply == Done <==> subscription in db.subscriptions)
      && (outcome.reply != Done ==> outcome.db == db)
      && (outcome.reply == Done ==>
            var row := db.subscriptions[subscription];
            outcome.db == db.(subscriptions :=
              db.subscriptions[subscription := Subscription(row.user, row.plan, false)]))
  {
  }

  /** One invoice more, unpaid, for the amount that was given. */
  lemma IssueInvoiceAnswers(db: Database, subscription: int, amountCents: int, id: int)
    ensures var outcome := Apply(db, OpIssueInvoice(subscription, amountCents), id);
      && (outcome.reply == Raised <==> subscription !in db.subscriptions)
      && (outcome.reply == Done <==> subscription in db.subscriptions)
      && (outcome.reply != Done ==> outcome.db == db)
      && (outcome.reply == Done ==>
            outcome.db == db.(invoices := db.invoices[id := Invoice(amountCents, false, subscription)]))
  {
  }

  /** One payment more, of the kind that was named and for the invoice's own amount, and the invoice marked. The word is
      looked at before the invoice is. */
  lemma PayInvoiceAnswers(db: Database, invoice: int, word: string, id: int)
    ensures var outcome := Apply(db, OpPayInvoice(invoice, word), id);
      var known := word == "card" || word == "transfer" || word == "paypal" || word == "wallet";
      && (outcome.reply == UnknownMethod <==> !known)
      && (outcome.reply == NotFound <==> known && invoice !in db.invoices)
      && (outcome.reply == Done <==> known && invoice in db.invoices)
      && (outcome.reply != Done ==> outcome.db == db)
      && (outcome.reply == Done ==>
            var bill := db.invoices[invoice];
            outcome.db == db.(
              payments := db.payments + [Payment(bill.amountCents, word, invoice)],
              invoices := db.invoices[invoice := Invoice(bill.amountCents, true, bill.subscription)]))
  {
  }
}
