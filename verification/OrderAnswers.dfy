/** What each order call answers, and what it leaves, read off the tables: for every reply the condition under which it
comes, and for every Done the rows it wrote. No condition and no outcome is put in the words of `Spec`.
*/
module OrderAnswers {
  import opened Rows
  import opened Spec
  import opened Settlement
  import opened Sums

  // ---- place_order ------------------------------------------------------------------------------------------

  /** A reference, at least one item, a positive quantity in each, and no SKU named twice. */
  ghost predicate WellAsked(reference: string, items: seq<(int, int)>) {
    && reference != "" && items != []
    && (forall i :: 0 <= i < |items| ==> 0 < items[i].1)
    && (forall i, j :: 0 <= i < j < |items| ==> items[i].0 != items[j].0)
  }

  ghost predicate AllThere(db: Database, customer: int, warehouse: int, items: seq<(int, int)>) {
    && customer in db.users && warehouse in db.warehouses
    && forall i :: 0 <= i < |items| ==> items[i].0 in db.prices
  }

  ghost predicate ReferenceTaken(db: Database, reference: string) {
    exists o :: o in db.orders && db.orders[o].reference == reference
  }

  /** No item's price is one the `CHECK` of the lines refuses. */
  ghost predicate PricesPass(db: Database, items: seq<(int, int)>) {
    forall i :: 0 <= i < |items| && items[i].0 in db.prices ==> 0 <= db.prices[items[i].0]
  }

  lemma SkusThere(items: seq<(int, int)>, prices: map<int, int>)
    ensures ItemSkus(items) <= prices.Keys <==> forall i :: 0 <= i < |items| ==> items[i].0 in prices
  {
    if ItemSkus(items) <= prices.Keys {
      forall i | 0 <= i < |items| ensures items[i].0 in prices {
        assert items[i].0 in ItemSkus(items);
      }
    }
  }

  /** Lines over the items' SKUs at their prices pass exactly when the prices do. */
  lemma LinesPass(lines: map<int, Line>, items: seq<(int, int)>, prices: map<int, int>)
    requires lines.Keys == ItemSkus(items) && forall s :: s in lines ==> s in prices && lines[s].unitPrice == prices[s]
    ensures (exists s :: s in lines && lines[s].unitPrice < 0)
       <==> (exists i :: 0 <= i < |items| && items[i].0 in prices && prices[items[i].0] < 0)
  {
    if s :| s in lines && lines[s].unitPrice < 0 {
      assert s in ItemSkus(items);
      var i :| 0 <= i < |items| && items[i].0 == s;
      assert prices[items[i].0] < 0;
    }
    if i :| 0 <= i < |items| && items[i].0 in prices && prices[items[i].0] < 0 {
      var s := items[i].0;
      assert s in ItemSkus(items);
      assert s in lines.Keys;
      assert s in lines && lines[s].unitPrice == prices[s];
    }
  }

  /** Asked well or not, the first three conditions of the code. */
  lemma AskedWell(reference: string, items: seq<(int, int)>)
    ensures WellAsked(reference, items) <==>
      && !(reference == "" || items == [])
      && !(exists i :: 0 <= i < |items| && items[i].1 <= 0)
      && |ItemSkus(items)| == |items|
  {
    DistinctByCount(items);
  }

  /** No refusal comes first, and the engine looks at the lines. */
  lemma PlaceOrderGoesOn(
    db: Database, reference: string, customer: int, warehouse: int, items: seq<(int, int)>, id: int)
    requires WellAsked(reference, items) && AllThere(db, customer, warehouse, items) && !ReferenceTaken(db, reference)
    requires ItemSkus(items) <= db.prices.Keys
    ensures PlaceOrder(db, reference, customer, warehouse, items, id) ==
      var lines := ItemLines(items, db.prices);
      if exists s :: s in lines && lines[s].unitPrice < 0 then Outcome(db, Raised)
      else
        Outcome(db.(orders := db.orders[id := Order(reference, Draft, Total(lines), customer, warehouse, None)],
                    lines := db.lines[id := lines]), Done)
  {
    AskedWell(reference, items);
  }

  lemma PlaceOrderWritesOrNot(
    db: Database, reference: string, customer: int, warehouse: int, items: seq<(int, int)>, id: int)
    requires WellAsked(reference, items) && AllThere(db, customer, warehouse, items) && !ReferenceTaken(db, reference)
    requires ItemSkus(items) <= db.prices.Keys
    ensures PlaceOrder(db, reference, customer, warehouse, items, id) ==
      var lines := ItemLines(items, db.prices);
      if PricesPass(db, items) then
          Outcome(db.(orders := db.orders[id := Order(reference, Draft, Total(lines), customer, warehouse, None)],
                      lines := db.lines[id := lines]), Done)
        else Outcome(db, Raised)
  {
    PlaceOrderGoesOn(db, reference, customer, warehouse, items, id);
    LinesPass(ItemLines(items, db.prices), items, db.prices);
  }

  lemma PlaceOrderRefuses(
    db: Database, reference: string, customer: int, warehouse: int, items: seq<(int, int)>, id: int)
    requires !WellAsked(reference, items) || !AllThere(db, customer, warehouse, items) || ReferenceTaken(db, reference)
    ensures PlaceOrder(db, reference, customer, warehouse, items, id) == Outcome(db,
      if !WellAsked(reference, items) then MissingFields
      else if !AllThere(db, customer, warehouse, items) then NotFound else Conflict)
  {
    AskedWell(reference, items);
    SkusThere(items, db.prices);
  }

  /** The refusals in the order of the code: what was asked, what is there, the reference, and the engine last. */
  lemma PlaceOrderAnswers(
    db: Database, reference: string, customer: int, warehouse: int, items: seq<(int, int)>, id: int)
    ensures var outcome := Apply(db, OpPlaceOrder(reference, customer, warehouse, items), id);
      var asked, there := WellAsked(reference, items), AllThere(db, customer, warehouse, items);
      var taken, passes := ReferenceTaken(db, reference), PricesPass(db, items);
      && (outcome.reply == MissingFields <==> !asked)
      && (outcome.reply == NotFound <==> asked && !there)
      && (outcome.reply == Conflict <==> asked && there && taken)
      && (outcome.reply == Raised <==> asked && there && !taken && !passes)
      && (outcome.reply == Done <==> asked && there && !taken && passes)
      && (outcome.reply != Done ==> outcome.db == db)
  {
    if WellAsked(reference, items) && AllThere(db, customer, warehouse, items) && !ReferenceTaken(db, reference) {
      SkusThere(items, db.prices);
      PlaceOrderWritesOrNot(db, reference, customer, warehouse, items, id);
    } else {
      PlaceOrderRefuses(db, reference, customer, warehouse, items, id);
    }
  }

  /** Quantity times price, item by item. */
  ghost function ItemsTotal(items: seq<(int, int)>, prices: map<int, int>): int
    requires forall i :: 0 <= i < |items| ==> items[i].0 in prices
  {
    if items == [] then 0
    else
      var last := items[|items| - 1];
      ItemsTotal(items[..|items| - 1], prices) + last.1 * prices[last.0]
  }

  /** The line of an item is for its quantity, at the price of its SKU, and there is no other line. */
  ghost predicate LinesOfItems(lines: map<int, Line>, items: seq<(int, int)>, prices: map<int, int>) {
    && |lines.Keys| == |items|
    && forall i :: 0 <= i < |items| ==>
      items[i].0 in prices && items[i].0 in lines && lines[items[i].0] == Line(items[i].1, prices[items[i].0])
  }

  lemma TotalOfNone()
    ensures Total(map[]) == 0
  {
  }

  lemma LinesAreItems(lines: map<int, Line>, items: seq<(int, int)>, prices: map<int, int>)
    requires lines.Keys == ItemSkus(items) && |ItemSkus(items)| == |items| && ItemSkus(items) <= prices.Keys
    requires forall i, j :: 0 <= i < j < |items| ==> items[i].0 != items[j].0
    requires forall s :: s in lines ==> s in prices && lines[s].unitPrice == prices[s]
    requires forall s :: s in lines ==> exists i :: 0 <= i < |items| && items[i] == (s, lines[s].quantity)
    ensures LinesOfItems(lines, items, prices)
  {
    forall i | 0 <= i < |items|
      ensures items[i].0 in prices && items[i].0 in lines && lines[items[i].0] == Line(items[i].1, prices[items[i].0])
    {
      assert items[i].0 in ItemSkus(items);
      var k :| 0 <= k < |items| && items[k] == (items[i].0, lines[items[i].0].quantity);
    }
  }

  lemma {:induction false} LinesAddUp(items: seq<(int, int)>, prices: map<int, int>)
    requires ItemSkus(items) <= prices.Keys
    requires forall i, j :: 0 <= i < j < |items| ==> items[i].0 != items[j].0
    requires forall i :: 0 <= i < |items| ==> items[i].0 in prices
    ensures Total(ItemLines(items, prices)) == ItemsTotal(items, prices)
    decreases |items|
  {
    if items == [] {
      TotalOfNone();
    } else {
      var init, last := items[..|items| - 1], items[|items| - 1];
      SkusThere(init, prices);
      LinesAddUp(init, prices);
      NotAmongThem(items);
      TotalWith(ItemLines(init, prices), last.0, Line(last.1, prices[last.0]));
    }
  }

  lemma NotAmongThem(items: seq<(int, int)>)
    requires items != [] && forall i, j :: 0 <= i < j < |items| ==> items[i].0 != items[j].0
    ensures items[|items| - 1].0 !in ItemSkus(items[..|items| - 1])
  {
  }

  lemma LinesOfTheNewOne(db: Database, after: Database, id: int, lines: map<int, Line>)
    requires after.lines == db.lines[id := lines]
    ensures LinesOf(after, id) == lines && forall o :: o != id ==> LinesOf(after, o) == LinesOf(db, o)
  {
  }

  /** One order more: in DRAFT, unbilled, for what was asked, at the sum of its items, with a line for each item. */
  lemma PlaceOrderLeaves(
    db: Database, reference: string, customer: int, warehouse: int, items: seq<(int, int)>, id: int)
    requires Apply(db, OpPlaceOrder(reference, customer, warehouse, items), id).reply == Done
    ensures var after := Apply(db, OpPlaceOrder(reference, customer, warehouse, items), id).db;
      && AllThere(db, customer, warehouse, items)
      && after.orders
         == db.orders[id := Order(reference, Draft, ItemsTotal(items, db.prices), customer, warehouse, None)]
      && LinesOfItems(LinesOf(after, id), items, db.prices)
      && (forall o :: o != id ==> LinesOf(after, o) == LinesOf(db, o))
      && after == db.(orders := after.orders, lines := after.lines)
  {
    PlaceOrderAnswers(db, reference, customer, warehouse, items, id);
    SkusThere(items, db.prices);
    AskedWell(reference, items);
    PlaceOrderWritesOrNot(db, reference, customer, warehouse, items, id);
    var lines := ItemLines(items, db.prices);
    LinesOfTheNewOne(db, PlaceOrder(db, reference, customer, warehouse, items, id).db, id, lines);
    LinesAreItems(lines, items, db.prices);
    LinesAddUp(items, db.prices);
  }

  // ---- set_line and remove_line -----------------------------------------------------------------------------

  /** Nothing has been billed yet, and nothing was called off. */
  predicate CanChange(state: OrderState) {
    state == Draft || state == Reserved
  }

  lemma SetLineAnswers(db: Database, order: int, sku: int, quantity: int, id: int)
    ensures var outcome := Apply(db, OpSetLine(order, sku, quantity), id);
      var open := order in db.orders && CanChange(db.orders[order].state);
      && (outcome.reply == MissingFields <==> quantity <= 0)
      && (outcome.reply == NotFound <==> 0 < quantity && (order !in db.orders || (open && sku !in db.prices)))
      && (outcome.reply == Conflict <==> 0 < quantity && order in db.orders && !open)
      && (outcome.reply == Raised <==> 0 < quantity && open && sku in db.prices && db.prices[sku] < 0)
      && (outcome.reply == Done <==> 0 < quantity && open && sku in db.prices && 0 <= db.prices[sku])
      && (outcome.reply != Done ==> outcome.db == db)
  {
  }

  /** Line by line, two orders of lines are alike but for one SKU. */
  ghost predicate SameLinesBut(before: map<int, Line>, after: map<int, Line>, sku: int) {
    forall s :: s != sku ==> (s in after <==> s in before) && (s in after ==> after[s] == before[s])
  }

  /** The order is the one it was, with its total the sum of its lines; every other order and line, and every other
      table, is as it was. */
  ghost predicate OnlyItsLines(db: Database, after: Database, order: int) {
    && order in db.orders
    && after.orders == db.orders[order := db.orders[order].(total := Total(LinesOf(after, order)))]
    && (forall o :: o != order ==> LinesOf(after, o) == LinesOf(db, o))
    && after == db.(orders := after.orders, lines := after.lines)
  }

  /** In DRAFT and in RESERVED alike: the line is there for the quantity, at the price of its SKU. */
  lemma SetLineLeaves(db: Database, order: int, sku: int, quantity: int, id: int)
    requires Apply(db, OpSetLine(order, sku, quantity), id).reply == Done
    ensures var after := Apply(db, OpSetLine(order, sku, quantity), id).db;
      && sku in db.prices && sku in LinesOf(after, order)
      && LinesOf(after, order)[sku] == Line(quantity, db.prices[sku])
      && SameLinesBut(LinesOf(db, order), LinesOf(after, order), sku) && OnlyItsLines(db, after, order)
  {
  }

  lemma RemoveLineAnswers(db: Database, order: int, sku: int, id: int)
    requires Consistent(db)
    ensures var outcome := Apply(db, OpRemoveLine(order, sku), id);
      var there := sku in LinesOf(db, order);
      && (outcome.reply == NotFound <==> !there)
      && (outcome.reply == Conflict <==> there && !CanChange(db.orders[order].state))
      && (outcome.reply == Done <==> there && CanChange(db.orders[order].state))
      && (outcome.reply != Done ==> outcome.db == db)
  {
  }

  lemma RemoveLineLeaves(db: Database, order: int, sku: int, id: int)
    requires Apply(db, OpRemoveLine(order, sku), id).reply == Done
    ensures var after := Apply(db, OpRemoveLine(order, sku), id).db;
      && sku !in LinesOf(after, order)
      && SameLinesBut(LinesOf(db, order), LinesOf(after, order), sku) && OnlyItsLines(db, after, order)
  {
  }

  // ---- reserve ----------------------------------------------------------------------------------------------

  /** Each line's pair has a row, with that many units that nobody was promised. */
  ghost predicate EnoughFree(stock: map<Pair, Stock>, warehouse: int, lines: map<int, Line>) {
    forall s :: s in lines ==>
      Pair(warehouse, s) in stock
      && lines[s].quantity <= stock[Pair(warehouse, s)].onHand - stock[Pair(warehouse, s)].reserved
  }

  lemma HoldingPasses(db: Database, order: int)
    requires Consistent(db) && order in db.orders
    requires EnoughFree(db.stock, db.orders[order].warehouse, LinesOf(db, order))
    ensures MovePasses(db.stock, db.orders[order].warehouse, LinesOf(db, order), Hold)
  {
    var lines := LinesOf(db, order);
    forall s | s in lines ensures 0 < lines[s].quantity {
      assert s in db.lines[order];
    }
  }

  /** All of the lines or none: a pair without a row, and one without enough free units, are the same refusal. The
      engine never raises. */
  lemma ReserveAnswers(db: Database, order: int, id: int)
    requires Consistent(db)
    ensures var outcome := Apply(db, OpReserve(order), id);
      var can := order in db.orders && db.orders[order].state == Draft && LinesOf(db, order) != map[]
        && EnoughFree(db.stock, db.orders[order].warehouse, LinesOf(db, order));
      && (outcome.reply == NotFound <==> order !in db.orders)
      && (outcome.reply == Conflict <==> order in db.orders && !can)
      && (outcome.reply == Done <==> can)
      && (outcome.reply != Done ==> outcome.db == db)
  {
    if order in db.orders && EnoughFree(db.stock, db.orders[order].warehouse, LinesOf(db, order)) {
      HoldingPasses(db, order);
    }
  }

  /** Row by row: the pairs of the order's lines promise so many units more; no shelf and no other pair moves. */
  ghost predicate PutOn(before: map<Pair, Stock>, after: map<Pair, Stock>, warehouse: int, lines: map<int, Line>) {
    && after.Keys == before.Keys
    && (forall s :: s in lines && Pair(warehouse, s) in before ==>
          var p := Pair(warehouse, s);
          after[p].reserved == before[p].reserved + lines[s].quantity && after[p].onHand == before[p].onHand)
    && (forall p :: p in before && !(p.warehouse == warehouse && p.sku in lines) ==> after[p] == before[p])
  }

  /** The order in another state, its other columns as they were, and no other table but stock touched. */
  ghost predicate OnlyItsState(db: Database, after: Database, order: int, state: OrderState) {
    && order in db.orders && after.orders == db.orders[order := db.orders[order].(state := state)]
    && after == db.(orders := after.orders, stock := after.stock)
  }

  lemma ReserveLeaves(db: Database, order: int, id: int)
    requires Apply(db, OpReserve(order), id).reply == Done
    ensures var after := Apply(db, OpReserve(order), id).db;
      && OnlyItsState(db, after, order, Reserved)
      && PutOn(db.stock, after.stock, db.orders[order].warehouse, LinesOf(db, order))
  {
  }

  // ---- cancel_order -----------------------------------------------------------------------------------------

  /** Each line's row, where there is one, promises at least what the line asks. */
  ghost predicate HoldsEnough(stock: map<Pair, Stock>, warehouse: int, lines: map<int, Line>) {
    forall s :: s in lines && Pair(warehouse, s) in stock ==>
      lines[s].quantity <= stock[Pair(warehouse, s)].reserved
  }

  lemma ReleasingPasses(db: Database, order: int)
    requires Consistent(db) && order in db.orders
    ensures MovePasses(db.stock, db.orders[order].warehouse, LinesOf(db, order), Release)
       <==> HoldsEnough(db.stock, db.orders[order].warehouse, LinesOf(db, order))
  {
    var warehouse, lines := db.orders[order].warehouse, LinesOf(db, order);
    if MovePasses(db.stock, warehouse, lines, Release) {
      forall s | s in lines && Pair(warehouse, s) in db.stock
        ensures lines[s].quantity <= db.stock[Pair(warehouse, s)].reserved
      {
        assert Admissible(Moved(Release, db.stock[Pair(warehouse, s)], lines[s].quantity));
      }
    }
  }

  lemma CancelAnswers(db: Database, order: int, id: int)
    requires Consistent(db)
    ensures var outcome := Apply(db, OpCancelOrder(order), id);
      var open := order in db.orders && CanChange(db.orders[order].state);
      var can := open && (db.orders[order].state == Reserved ==>
        LinesOf(db, order) != map[] && HoldsEnough(db.stock, db.orders[order].warehouse, LinesOf(db, order)));
      && (outcome.reply == NotFound <==> order !in db.orders)
      && (outcome.reply == Conflict <==> order in db.orders && !open)
      && (outcome.reply == Raised <==> open && !can)
      && (outcome.reply == Done <==> can)
      && (outcome.reply != Done ==> outcome.db == db)
  {
    if order in db.orders { ReleasingPasses(db, order); }
  }

  /** From DRAFT the order is called off and nothing else; from RESERVED its units go back as well. */
  lemma CancelLeaves(db: Database, order: int, id: int)
    requires Apply(db, OpCancelOrder(order), id).reply == Done
    ensures var after := Apply(db, OpCancelOrder(order), id).db;
      && OnlyItsState(db, after, order, Cancelled)
      && if db.orders[order].state == Reserved
         then TakenOff(db.stock, after.stock, db.orders[order].warehouse, LinesOf(db, order), false)
         else after.stock == db.stock
  {
    if db.orders[order].state == Reserved {
      MovesTakeOff(db.stock, db.orders[order].warehouse, LinesOf(db, order));
    }
  }

  // ---- settle -----------------------------------------------------------------------------------------------

  /** The order is held, and the subscription is its customer's. */
  ghost predicate CanBill(db: Database, order: int, subscription: int) {
    && order in db.orders && db.orders[order].state == Reserved
    && subscription in db.subscriptions && db.subscriptions[subscription].user == db.orders[order].customer
  }

  ghost predicate RowsThere(stock: map<Pair, Stock>, warehouse: int, lines: map<int, Line>) {
    forall s :: s in lines ==> Pair(warehouse, s) in stock
  }

  ghost predicate ShelfEnough(stock: map<Pair, Stock>, warehouse: int, lines: map<int, Line>) {
    forall s :: s in lines && Pair(warehouse, s) in stock ==>
      lines[s].quantity <= stock[Pair(warehouse, s)].onHand
  }

  lemma ShippingPasses(db: Database, order: int)
    requires Consistent(db) && order in db.orders
    ensures MovePasses(db.stock, db.orders[order].warehouse, LinesOf(db, order), ShipHeld)
       <==> HoldsEnough(db.stock, db.orders[order].warehouse, LinesOf(db, order))
            && ShelfEnough(db.stock, db.orders[order].warehouse, LinesOf(db, order))
  {
    var warehouse, lines := db.orders[order].warehouse, LinesOf(db, order);
    if MovePasses(db.stock, warehouse, lines, ShipHeld) {
      forall s | s in lines && Pair(warehouse, s) in db.stock
        ensures lines[s].quantity <= db.stock[Pair(warehouse, s)].reserved
        ensures lines[s].quantity <= db.stock[Pair(warehouse, s)].onHand
      {
        assert Admissible(Moved(ShipHeld, db.stock[Pair(warehouse, s)], lines[s].quantity));
      }
    }
  }

  /** Each of the five answers, and when it comes. */
  lemma SettleAnswers(db: Database, order: int, subscription: int, word: string, charge: Charge, id: int)
    requires Consistent(db)
    ensures var outcome := Apply(db, OpSettle(order, subscription, word, charge), id);
      var held := order in db.orders && db.orders[order].state == Reserved;
      var bills := CanBill(db, order, subscription);
      var lines := LinesOf(db, order);
      var there := bills && lines != map[] && RowsThere(db.stock, db.orders[order].warehouse, lines);
      var holds := there && HoldsEnough(db.stock, db.orders[order].warehouse, lines);
      var ships := holds && ShelfEnough(db.stock, db.orders[order].warehouse, lines);
      && (outcome.reply == NotFound <==> order !in db.orders || (held && subscription !in db.subscriptions))
      && (outcome.reply == Conflict <==>
            (order in db.orders && !held) || (held && subscription in db.subscriptions && !bills)
            || (bills && lines != map[] && !there))
      && (outcome.reply == PaymentDeclined <==> holds && charge == Declines)
      && (outcome.reply == Done <==> ships && charge == Accepts)
      && (outcome.reply == Raised <==>
            (bills && lines == map[]) || (there && charge == Breaks) || (there && charge == Declines && !holds)
            || (there && charge == Accepts && !ships))
  {
    if order in db.orders {
      ReleasingPasses(db, order);
      ShippingPasses(db, order);
    }
  }

  /** And what each of them leaves. */
  lemma SettleLeaves(db: Database, order: int, subscription: int, word: string, charge: Charge, id: int)
    ensures var outcome := Apply(db, OpSettle(order, subscription, word, charge), id);
      && (outcome.reply == Done ==> ShippedAndPaid(db, outcome.db, order, subscription, word, id))
      && (outcome.reply == PaymentDeclined ==> BilledAndReleased(db, outcome.db, order, subscription, id))
      && (outcome.reply != Done && outcome.reply != PaymentDeclined ==> outcome.db == db)
  {
    SettleHasThreeOutcomes(db, order, subscription, word, charge, id);
  }

  // ---- attach_invoice and remove_order ----------------------------------------------------------------------

  lemma AttachInvoiceAnswers(db: Database, order: int, invoice: int, id: int)
    ensures var outcome := Apply(db, OpAttachInvoice(order, invoice), id);
      var open := order in db.orders && CanChange(db.orders[order].state);
      && (outcome.reply == NotFound <==> order !in db.orders || (open && invoice !in db.invoices))
      && (outcome.reply == Conflict <==> order in db.orders && !open)
      && (outcome.reply == Done <==> open && invoice in db.invoices)
      && (outcome.reply != Done ==> outcome.db == db)
      && (outcome.reply == Done ==>
            var row := db.orders[order].(state := Invoiced, invoice := Some(invoice));
            outcome.db == db.(orders := db.orders[order := row]))
  {
  }

  lemma RemoveOrderAnswers(db: Database, order: int, id: int)
    ensures var outcome := Apply(db, OpRemoveOrder(order), id);
      && (outcome.reply == NotFound <==> order !in db.orders)
      && (outcome.reply == Conflict <==> order in db.orders && LinesOf(db, order) != map[])
      && (outcome.reply == Done <==> order in db.orders && LinesOf(db, order) == map[])
      && (outcome.reply != Done ==> outcome.db == db)
      && (outcome.reply == Done ==>
            && order !in outcome.db.orders
            && (forall o :: o != order ==>
                  (o in outcome.db.orders <==> o in db.orders)
                  && (o in db.orders ==> outcome.db.orders[o] == db.orders[o]))
            && (forall o :: LinesOf(outcome.db, o) == LinesOf(db, o))
            && outcome.db == db.(orders := outcome.db.orders, lines := outcome.db.lines))
  {
  }
}
