/** The orders domain, statement by statement, each use case proved to do to the database exactly what `Spec` says. */
module OrderUseCases {
  import opened Rows
  import opened Spec
  import opened ShopSession
  import Sums
  import Money

  // ---- the moves done so far --------------------------------------------------------------------------------

  /** Writing one more row of the move. */
  lemma MoveOneMore(
    stock: map<Pair, Stock>, warehouse: int, lines: map<int, Line>, rows: seq<OrderLine>, n: int, move: Move)
    requires RowsOf(lines, rows) && 0 <= n < |rows|
    ensures var pair := Pair(warehouse, rows[n].sku);
      MovedStock(stock, warehouse, Part(lines, rows, n + 1), move)
      == if pair in stock
         then MovedStock(stock, warehouse, Part(lines, rows, n), move)[
           pair := Moved(move, stock[pair], rows[n].quantity)]
         else MovedStock(stock, warehouse, Part(lines, rows, n), move)
  {
    PartGrows(lines, rows, n);
    var before := MovedStock(stock, warehouse, Part(lines, rows, n), move);
    var after := MovedStock(stock, warehouse, Part(lines, rows, n)[rows[n].sku := lines[rows[n].sku]], move);
    var pair := Pair(warehouse, rows[n].sku);
    forall p | p in stock
      ensures after[p] == if p == pair then Moved(move, stock[p], rows[n].quantity) else before[p]
    {
      assert p == Pair(p.warehouse, p.sku);
    }
  }

  /** The `CHECK` on one more row is one more conjunct, and one the whole move needs. */
  lemma PassOneMore(
    stock: map<Pair, Stock>, warehouse: int, lines: map<int, Line>, rows: seq<OrderLine>, n: int, move: Move)
    requires RowsOf(lines, rows) && 0 <= n < |rows|
    requires MovePasses(stock, warehouse, Part(lines, rows, n), move)
    ensures var pair := Pair(warehouse, rows[n].sku);
      if pair in stock && !Admissible(Moved(move, stock[pair], rows[n].quantity))
      then !MovePasses(stock, warehouse, lines, move)
      else MovePasses(stock, warehouse, Part(lines, rows, n + 1), move)
  {
    PartGrows(lines, rows, n);
    assert lines[rows[n].sku].quantity == rows[n].quantity;
  }

  lemma MoveNoneIsNothing(
    stock: map<Pair, Stock>, warehouse: int, lines: map<int, Line>, rows: seq<OrderLine>, move: Move)
    requires RowsOf(lines, rows)
    ensures MovedStock(stock, warehouse, Part(lines, rows, 0), move) == stock
    ensures MovedStock(stock, warehouse, Part(lines, rows, |rows|), move) == MovedStock(stock, warehouse, lines, move)
  {
    PartEnds(lines, rows);
  }

  /** The instances of the rows from `n` on still say what the table said when they were read. */
  ghost predicate Unspent(held: map<int, StockRow>, instances: set<StockRow>, stock: map<Pair, Stock>, warehouse: int,
                          rows: seq<OrderLine>, n: int)
    requires 0 <= n <= |rows|
    reads instances
  {
    forall j :: n <= j < |rows| && rows[j].sku in held ==>
      held[rows[j].sku] in instances && Pair(warehouse, rows[j].sku) in stock
      && held[rows[j].sku].Value() == stock[Pair(warehouse, rows[j].sku)]
  }

  /** What a locking read hands back: one instance per stocked line, under its own key. */
  ghost predicate Loaded(held: map<int, StockRow>, stock: map<Pair, Stock>, warehouse: int, rows: seq<OrderLine>) {
    && (forall s :: s in held ==> held[s].pair == Pair(warehouse, s))
    && (forall j :: 0 <= j < |rows| ==> (rows[j].sku in held <==> Pair(warehouse, rows[j].sku) in stock))
  }

  // ---- the writes the operations share ----------------------------------------------------------------------

  method HoldUnits(session: Session, stock: StockRow, units: int) returns (ok: bool)
    modifies session`working, stock
    ensures stock.Value() == Moved(Hold, old(stock.Value()), units)
    ensures ok <==> Admissible(stock.Value())
    ensures session.working == if ok && stock.pair in old(session.working).stock
      then old(session.working).(stock := old(session.working).stock[stock.pair := stock.Value()])
      else old(session.working)
  {
    stock.reserved := stock.reserved + units;
    ok := session.UpdateStock(stock);
  }

  method ReleaseUnits(session: Session, stock: StockRow, units: int) returns (ok: bool)
    modifies session`working, stock
    ensures stock.Value() == Moved(Release, old(stock.Value()), units)
    ensures ok <==> Admissible(stock.Value())
    ensures session.working == if ok && stock.pair in old(session.working).stock
      then old(session.working).(stock := old(session.working).stock[stock.pair := stock.Value()])
      else old(session.working)
  {
    stock.reserved := stock.reserved - units;
    ok := session.UpdateStock(stock);
  }

  method ShipHeldUnits(session: Session, stock: StockRow, units: int) returns (ok: bool)
    requires stock.pair in session.working.stock
    modifies session`working, stock
    ensures stock.Value() == Moved(ShipHeld, old(stock.Value()), units)
    ensures ok <==> Admissible(stock.Value())
    ensures ok ==> session.working == old(session.working).(
      stock := old(session.working).stock[stock.pair := stock.Value()],
      movements := old(session.working).movements + [Movement(stock.pair, -units, Sale)])
  {
    stock.onHand := stock.onHand - units;
    stock.reserved := stock.reserved - units;
    ok := session.UpdateStock(stock);
    if !ok { return; }
    session.AddMovement(Movement(stock.pair, -units, Sale));
  }

  method SetState(session: Session, order: OrderRow, state: OrderState)
    modifies session`working, order`state
    ensures order.state == state
    ensures session.working == old(session.working).(orders :=
      if order.id in old(session.working).orders then old(session.working).orders[order.id := order.Value()]
      else old(session.working).orders)
  {
    order.state := state;
    session.UpdateOrder(order);
  }

  /** Holds every line's units on the instances that were locked. */
  method HoldAll(session: Session, ghost lines: map<int, Line>, rows: seq<OrderLine>, held: map<int, StockRow>,
                 ghost instances: set<StockRow>, ghost warehouse: int)
    returns (ok: bool)
    requires RowsOf(lines, rows) && Loaded(held, session.working.stock, warehouse, rows)
    requires forall j :: 0 <= j < |rows| ==> rows[j].sku in held
    requires Unspent(held, instances, session.working.stock, warehouse, rows, 0)
    modifies session`working, instances
    ensures ok <==> MovePasses(old(session.working.stock), warehouse, lines, Hold)
    ensures ok ==> session.working == old(session.working).(
      stock := MovedStock(old(session.working.stock), warehouse, lines, Hold))
  {
    ghost var start := session.working;
    MoveNoneIsNothing(start.stock, warehouse, lines, rows, Hold);
    for i := 0 to |rows|
      invariant session.working == start.(stock := MovedStock(start.stock, warehouse, Part(lines, rows, i), Hold))
      invariant Unspent(held, instances, start.stock, warehouse, rows, i)
      invariant MovePasses(start.stock, warehouse, Part(lines, rows, i), Hold)
    {
      MoveOneMore(start.stock, warehouse, lines, rows, i, Hold);
      PassOneMore(start.stock, warehouse, lines, rows, i, Hold);
      ok := HoldUnits(session, held[rows[i].sku], rows[i].quantity);
      if !ok { return; }
    }
    PartEnds(lines, rows);
    ok := true;
  }

  /** Releases every line's units on the instances at hand, passing over a line whose pair had no row. */
  method ReleaseAll(session: Session, ghost lines: map<int, Line>, rows: seq<OrderLine>, held: map<int, StockRow>,
                    ghost instances: set<StockRow>, ghost warehouse: int)
    returns (ok: bool)
    requires RowsOf(lines, rows) && Loaded(held, session.working.stock, warehouse, rows)
    requires Unspent(held, instances, session.working.stock, warehouse, rows, 0)
    modifies session`working, instances
    ensures ok <==> MovePasses(old(session.working.stock), warehouse, lines, Release)
    ensures ok ==> session.working == old(session.working).(
      stock := MovedStock(old(session.working.stock), warehouse, lines, Release))
  {
    ghost var start := session.working;
    MoveNoneIsNothing(start.stock, warehouse, lines, rows, Release);
    for i := 0 to |rows|
      invariant session.working == start.(stock := MovedStock(start.stock, warehouse, Part(lines, rows, i), Release))
      invariant Unspent(held, instances, start.stock, warehouse, rows, i)
      invariant MovePasses(start.stock, warehouse, Part(lines, rows, i), Release)
    {
      MoveOneMore(start.stock, warehouse, lines, rows, i, Release);
      PassOneMore(start.stock, warehouse, lines, rows, i, Release);
      if rows[i].sku in held {
        ok := ReleaseUnits(session, held[rows[i].sku], rows[i].quantity);
        if !ok { return; }
      }
    }
    PartEnds(lines, rows);
    ok := true;
  }

  lemma OneMoreOf<T>(base: seq<T>, more: seq<T>, i: nat)
    requires i < |more|
    ensures base + more[..i + 1] == base + more[..i] + [more[i]]
  {
  }

  ghost predicate SoldBy(sales: seq<Movement>, warehouse: int, rows: seq<OrderLine>) {
    && |sales| == |rows|
    && forall i :: 0 <= i < |rows| ==> sales[i] == Movement(Pair(warehouse, rows[i].sku), -rows[i].quantity, Sale)
  }

  /** The database with the first `n` lines shipped. */
  ghost function ShippedSoFar(start: Database, warehouse: int, lines: map<int, Line>, rows: seq<OrderLine>,
                              sales: seq<Movement>, n: int): Database
    requires 0 <= n <= |rows| == |sales|
  {
    start.(stock := MovedStock(start.stock, warehouse, Part(lines, rows, n), ShipHeld),
           movements := start.movements + sales[..n])
  }

  lemma ShipOneMore(
    start: Database, warehouse: int, lines: map<int, Line>, rows: seq<OrderLine>, sales: seq<Movement>, n: int)
    requires RowsOf(lines, rows) && SoldBy(sales, warehouse, rows) && 0 <= n < |rows|
    requires Pair(warehouse, rows[n].sku) in start.stock
    ensures var pair, before := Pair(warehouse, rows[n].sku), ShippedSoFar(start, warehouse, lines, rows, sales, n);
      ShippedSoFar(start, warehouse, lines, rows, sales, n + 1)
      == before.(stock := before.stock[pair := Moved(ShipHeld, start.stock[pair], rows[n].quantity)],
                 movements := before.movements + [Movement(pair, -rows[n].quantity, Sale)])
  {
    MoveOneMore(start.stock, warehouse, lines, rows, n, ShipHeld);
    OneMoreOf(start.movements, sales, n);
  }

  lemma ShippedEnds(start: Database, warehouse: int, lines: map<int, Line>, rows: seq<OrderLine>, sales: seq<Movement>)
    requires RowsOf(lines, rows) && |rows| == |sales|
    ensures ShippedSoFar(start, warehouse, lines, rows, sales, 0) == start
    ensures ShippedSoFar(start, warehouse, lines, rows, sales, |rows|)
         == start.(stock := MovedStock(start.stock, warehouse, lines, ShipHeld), movements := start.movements + sales)
    ensures MovePasses(start.stock, warehouse, Part(lines, rows, 0), ShipHeld)
    ensures Part(lines, rows, |rows|) == lines
  {
    MoveNoneIsNothing(start.stock, warehouse, lines, rows, ShipHeld);
    PartEnds(lines, rows);
    assert sales[..|rows|] == sales;
  }

  /** Ships one line on its instance. */
  method ShipLine(session: Session, stock: StockRow, row: OrderLine, ghost start: Database, ghost warehouse: int,
                  ghost lines: map<int, Line>, ghost rows: seq<OrderLine>, ghost sales: seq<Movement>, ghost n: int)
    returns (ok: bool)
    requires RowsOf(lines, rows) && SoldBy(sales, warehouse, rows) && 0 <= n < |rows| && row == rows[n]
    requires stock.pair == Pair(warehouse, row.sku) && stock.pair in start.stock
      && stock.Value() == start.stock[stock.pair]
    requires session.working == ShippedSoFar(start, warehouse, lines, rows, sales, n)
    requires MovePasses(start.stock, warehouse, Part(lines, rows, n), ShipHeld)
    modifies session`working, stock
    ensures if ok then MovePasses(start.stock, warehouse, Part(lines, rows, n + 1), ShipHeld)
            else !MovePasses(start.stock, warehouse, lines, ShipHeld)
    ensures ok ==> session.working == ShippedSoFar(start, warehouse, lines, rows, sales, n + 1)
  {
    ShipOneMore(start, warehouse, lines, rows, sales, n);
    PassOneMore(start.stock, warehouse, lines, rows, n, ShipHeld);
    ok := ShipHeldUnits(session, stock, row.quantity);
  }

  /** Ships every line on the instances that were locked, one movement each. */
  method ShipAll(session: Session, ghost lines: map<int, Line>, rows: seq<OrderLine>, held: map<int, StockRow>,
                 ghost instances: set<StockRow>, ghost warehouse: int, ghost sales: seq<Movement>)
    returns (ok: bool)
    requires RowsOf(lines, rows) && SoldBy(sales, warehouse, rows)
      && Loaded(held, session.working.stock, warehouse, rows)
    requires forall j :: 0 <= j < |rows| ==> rows[j].sku in held
    requires Unspent(held, instances, session.working.stock, warehouse, rows, 0)
    modifies session`working, instances
    ensures ok <==> MovePasses(old(session.working.stock), warehouse, lines, ShipHeld)
    ensures ok ==> session.working == old(session.working).(
      stock := MovedStock(old(session.working.stock), warehouse, lines, ShipHeld),
      movements := old(session.working.movements) + sales)
  {
    ghost var start := session.working;
    ShippedEnds(start, warehouse, lines, rows, sales);
    for i := 0 to |rows|
      invariant session.working == ShippedSoFar(start, warehouse, lines, rows, sales, i)
      invariant Unspent(held, instances, start.stock, warehouse, rows, i)
      invariant MovePasses(start.stock, warehouse, Part(lines, rows, i), ShipHeld)
    {
      ok := ShipLine(session, held[rows[i].sku], rows[i], start, warehouse, lines, rows, sales, i);
      if !ok { return; }
    }
    ok := true;
  }

  // ---- the use cases ----------------------------------------------------------------------------------------

  /** `not lines`. */
  lemma NoRowsExactly(lines: map<int, Line>, rows: seq<OrderLine>)
    requires RowsOf(lines, rows)
    ensures rows == [] <==> lines == map[]
  {
    if rows != [] { assert rows[0].sku in lines.Keys; }
    Sums.NonEmpty(lines.Keys);
    if s :| s in lines.Keys {
      var i :| 0 <= i < |rows| && rows[i].sku == s;
    }
  }

  /** The locking read of an order's rows, with what the loops below rely on. */
  method LockLines(session: Session, warehouse: int, ghost lines: map<int, Line>, rows: seq<OrderLine>)
    returns (ok: bool, held: map<int, StockRow>, ghost instances: set<StockRow>)
    requires RowsOf(lines, rows)
    ensures ok <==> lines != map[]
    ensures fresh(instances)
    ensures ok ==> Loaded(held, session.working.stock, warehouse, rows)
    ensures ok ==> Unspent(held, instances, session.working.stock, warehouse, rows, 0)
  {
    NoRowsExactly(lines, rows);
    ok, held, instances := session.StockBySku(warehouse, rows);
  }

  /** Whether every line's row is there and has that many units free. */
  method Suffices(rows: seq<OrderLine>, held: map<int, StockRow>) returns (enough: bool)
    ensures enough <==> forall i :: 0 <= i < |rows| ==>
      rows[i].sku in held && rows[i].quantity <= held[rows[i].sku].onHand - held[rows[i].sku].reserved
  {
    for i := 0 to |rows|
      invariant forall j :: 0 <= j < i ==>
        rows[j].sku in held && rows[j].quantity <= held[rows[j].sku].onHand - held[rows[j].sku].reserved
    {
      if rows[i].sku !in held || held[rows[i].sku].onHand - held[rows[i].sku].reserved < rows[i].quantity {
        return false;
      }
    }
    enough := true;
  }

  lemma SufficesMeansAvailable(
    stock: map<Pair, Stock>, warehouse: int, lines: map<int, Line>, rows: seq<OrderLine>, held: map<int, StockRow>,
    instances: set<StockRow>)
    requires RowsOf(lines, rows) && Loaded(held, stock, warehouse, rows)
      && Unspent(held, instances, stock, warehouse, rows, 0)
    ensures AllAvailable(stock, warehouse, lines) <==> forall i :: 0 <= i < |rows| ==>
      rows[i].sku in held && rows[i].quantity <= held[rows[i].sku].onHand - held[rows[i].sku].reserved
  {
    forall i | 0 <= i < |rows| && rows[i].sku in held
      ensures held[rows[i].sku].Value() == stock[Pair(warehouse, rows[i].sku)]
    {
    }
    if AllAvailable(stock, warehouse, lines) {
      forall i | 0 <= i < |rows|
        ensures rows[i].sku in held && rows[i].quantity <= held[rows[i].sku].onHand - held[rows[i].sku].reserved
      {
        assert rows[i].sku in lines;
      }
    }
  }

  /** The locked half of `reserve`: take the rows, decide over all of them, then hold. */
  method TakeHolds(session: Session, warehouse: int, ghost lines: map<int, Line>, rows: seq<OrderLine>)
    returns (verdict: Reply)
    requires RowsOf(lines, rows) && lines != map[]
    modifies session`working
    ensures verdict == if !AllAvailable(old(session.working.stock), warehouse, lines) then Conflict
                       else if !MovePasses(old(session.working.stock), warehouse, lines, Hold) then Raised else Done
    ensures verdict == Done ==> session.working == old(session.working).(
      stock := MovedStock(old(session.working.stock), warehouse, lines, Hold))
  {
    var ok, held, instances := LockLines(session, warehouse, lines, rows);
    var enough := Suffices(rows, held);
    SufficesMeansAvailable(session.working.stock, warehouse, lines, rows, held, instances);
    if !enough { return Conflict; }
    ok := HoldAll(session, lines, rows, held, instances, warehouse);
    verdict := if ok then Done else Raised;
  }

  method Reserve(session: Session, orderId: int) returns (reply: Reply)
    requires session.Idle()
    modifies session
    ensures session.Idle() && session.sequence == old(session.sequence)
    ensures Outcome(session.committed, reply) == Spec.Reserve(old(session.committed), orderId)
  {
    var order := session.FirstOrder(orderId);
    if order == null {
      session.Rollback();
      return NotFound;
    }
    if order.state != Draft {
      session.Rollback();
      return Conflict;
    }
    var rows := session.AllLines(orderId);
    ghost var lines := LinesOf(session.working, orderId);
    NoRowsExactly(lines, rows);
    if rows == [] {
      session.Rollback();
      return Conflict;
    }
    reply := TakeHolds(session, order.warehouse, lines, rows);
    if reply != Done {
      session.Rollback();
      return;
    }
    SetState(session, order, Reserved);
    session.Commit();
  }

  /** A locking read and a release of every line on what it brought: the whole of a cancellation's stock side,
      and the compensation after a declined charge. */
  method GiveBack(session: Session, warehouse: int, ghost lines: map<int, Line>, rows: seq<OrderLine>)
    returns (ok: bool)
    requires RowsOf(lines, rows)
    modifies session`working
    ensures ok <==> lines != map[] && MovePasses(old(session.working.stock), warehouse, lines, Release)
    ensures ok ==> session.working == old(session.working).(
      stock := MovedStock(old(session.working.stock), warehouse, lines, Release))
  {
    var held;
    ghost var instances;
    ok, held, instances := LockLines(session, warehouse, lines, rows);
    if !ok { return; }
    ok := ReleaseAll(session, lines, rows, held, instances, warehouse);
  }

  method CancelOrder(session: Session, orderId: int) returns (reply: Reply)
    requires session.Idle()
    modifies session
    ensures session.Idle() && session.sequence == old(session.sequence)
    ensures Outcome(session.committed, reply) == Spec.CancelOrder(old(session.committed), orderId)
  {
    var order := session.FirstOrder(orderId);
    if order == null {
      session.Rollback();
      return NotFound;
    }
    if !Open(order.state) {
      session.Rollback();
      return Conflict;
    }
    if order.state == Reserved {
      var rows := session.AllLines(orderId);
      var ok := GiveBack(session, order.warehouse, LinesOf(session.working, orderId), rows);
      if !ok {
        session.Rollback();
        return Raised;
      }
    }
    SetState(session, order, Cancelled);
    session.Commit();
    reply := Done;
  }

  /** A payment for the whole invoice and the invoice marked, or, for an unknown word, neither. */
  ghost function WithPayment(db: Database, invoice: int, word: string): Database {
    if invoice in db.invoices && word in PAYMENT_KINDS then
      db.(payments := db.payments + [Payment(db.invoices[invoice].amountCents, word, invoice)],
          invoices := db.invoices[invoice := db.invoices[invoice].(paid := true)])
    else db
  }

  /** Records the payment before the processor answers. An unknown word is not an error here. */
  method Pay(session: Session, invoiceId: int, word: string)
    modifies session`working
    ensures session.working == WithPayment(old(session.working), invoiceId, word)
  {
    var invoice := session.FirstInvoice(invoiceId);
    if invoice == null { return; }
    if word !in PAYMENT_KINDS { return; }
    session.AddPayment(Payment(invoice.amountCents, word, invoiceId));
    invoice.paid := true;
    session.UpdateInvoice(invoice);
  }

  /** `all(line.sku_id in held for line in lines)`. */
  method AllHeld(ghost stock: map<Pair, Stock>, ghost warehouse: int, ghost lines: map<int, Line>, rows: seq<OrderLine>,
                 held: map<int, StockRow>)
    returns (all: bool)
    requires RowsOf(lines, rows) && Loaded(held, stock, warehouse, rows)
    ensures all <==> AllStocked(stock, warehouse, lines)
    ensures all <==> forall i :: 0 <= i < |rows| ==> rows[i].sku in held
  {
    for i := 0 to |rows|
      invariant forall j :: 0 <= j < i ==> rows[j].sku in held
    {
      if rows[i].sku !in held {
        assert rows[i].sku in lines;
        return false;
      }
    }
    all := true;
  }

  lemma SalesAreSold(warehouse: int, keys: seq<Pair>, lines: map<int, Line>, rows: seq<OrderLine>)
    requires RowsOf(lines, rows) && KeyedBy(keys, rows)
    ensures SoldBy(Sales(warehouse, keys, lines), warehouse, rows)
  {
    forall i | 0 <= i < |rows|
      ensures Sales(warehouse, keys, lines)[i] == Movement(Pair(warehouse, rows[i].sku), -rows[i].quantity, Sale)
    {
      assert lines[rows[i].sku].quantity == rows[i].quantity;
    }
  }

  /** Issues the invoice for the order's money and points the order at it. */
  method Bill(session: Session, order: OrderRow, subscriptionId: int) returns (invoice: InvoiceRow)
    requires subscriptionId in session.working.subscriptions && order.id in session.working.orders
    requires order.Value() == session.working.orders[order.id]
    modifies session`working, session`sequence, order`state, order`invoice
    ensures session.sequence == old(session.sequence) + 1 && invoice.id == old(session.sequence)
    ensures session.working == Billed(old(session.working), order.id, subscriptionId, Invoiced, false, invoice.id)
    ensures order.Value() == session.working.orders[order.id]
  {
    var ok;
    ok, invoice := session.AddInvoice(Invoice(Money.InCents(Money.TwoPlaces(order.total)), false, subscriptionId));
    order.invoice := Some(invoice.id);
    order.state := Invoiced;
    session.UpdateOrder(order);
  }

  lemma WrittenTwice<K, V>(table: map<K, V>, key: K, first: V, second: V)
    ensures table[key := first][key := second] == table[key := second]
  {
  }

  /** Billing, paying and shipping, one after the other, come to the outcome the specification names at once. */
  lemma ShippedInSteps(db: Database, order: int, subscription: int, word: string, id: int)
    requires order in db.orders
    ensures var billed := Billed(db, order, subscription, Invoiced, false, id);
      var paid := WithPayment(billed, id, word);
      var warehouse, lines := db.orders[order].warehouse, LinesOf(db, order);
      Shipped(db, order, subscription, word, id) == paid.(
        stock := MovedStock(db.stock, warehouse, lines, ShipHeld),
        movements := db.movements + Sales(warehouse, LineKeys(order, lines), lines),
        orders := paid.orders[order := billed.orders[order].(state := Settled)])
  {
    var amount := Money.InCents(Money.TwoPlaces(db.orders[order].total));
    WrittenTwice(db.invoices, id, Invoice(amount, false, subscription), Invoice(amount, true, subscription));
    var row := db.orders[order].(invoice := Some(id));
    WrittenTwice(db.orders, order, row.(state := Invoiced), row.(state := Settled));
  }

  /** What the savepoint block does after the charge: every line shipped, and the order closed. */
  method ShipAndClose(session: Session, order: OrderRow, rows: seq<OrderLine>, held: map<int, StockRow>,
                      ghost instances: set<StockRow>, ghost start: Database, ghost subscription: int,
                      ghost word: string, ghost id: int)
    returns (ok: bool)
    requires order.id in start.orders && order.warehouse == start.orders[order.id].warehouse
    requires RowsOf(LinesOf(start, order.id), rows) && KeyedBy(LineKeys(order.id, LinesOf(start, order.id)), rows)
    requires Loaded(held, start.stock, order.warehouse, rows)
    requires forall j :: 0 <= j < |rows| ==> rows[j].sku in held
    requires Unspent(held, instances, start.stock, order.warehouse, rows, 0)
    requires session.working == WithPayment(Billed(start, order.id, subscription, Invoiced, false, id), id, word)
    requires order.Value() == session.working.orders[order.id]
    modifies session`working, order`state, instances
    ensures ok <==> MovePasses(start.stock, order.warehouse, LinesOf(start, order.id), ShipHeld)
    ensures ok ==> session.working == Shipped(start, order.id, subscription, word, id)
  {
    ghost var lines := LinesOf(start, order.id);
    ghost var sales := Sales(order.warehouse, LineKeys(order.id, lines), lines);
    SalesAreSold(order.warehouse, LineKeys(order.id, lines), lines, rows);
    ShippedInSteps(start, order.id, subscription, word, id);
    ok := ShipAll(session, lines, rows, held, instances, order.warehouse, sales);
    if !ok { return; }
    SetState(session, order, Settled);
  }

  /** After a decline: the tables go back to where they were before the payment, and what was held for the order
      is given back on rows that are read again. */
  method RewindAndRelease(session: Session, warehouse: int, rows: seq<OrderLine>, ghost start: Database,
                          ghost order: int, ghost subscription: int, ghost id: int)
    returns (ok: bool)
    requires order in start.orders && warehouse == start.orders[order].warehouse && LinesOf(start, order) != map[]
    requires RowsOf(LinesOf(start, order), rows)
    requires session.savepoints == [Billed(start, order, subscription, Invoiced, false, id)]
    modifies session`working, session`savepoints
    ensures session.savepoints == []
    ensures ok <==> MovePasses(start.stock, warehouse, LinesOf(start, order), Release)
    ensures ok ==> session.working == Spec.Declined(start, order, subscription, id)
  {
    session.RollbackToSavepoint();
    ok := GiveBack(session, warehouse, LinesOf(start, order), rows);
  }

  /** After the charge: ship and close, or rewind when a `CHECK` refuses. */
  method ShipOrRewind(session: Session, order: OrderRow, rows: seq<OrderLine>, held: map<int, StockRow>,
                      ghost instances: set<StockRow>, ghost start: Database, ghost subscription: int,
                      ghost word: string, ghost id: int)
    returns (ok: bool)
    requires order.id in start.orders && order.warehouse == start.orders[order.id].warehouse
    requires RowsOf(LinesOf(start, order.id), rows) && KeyedBy(LineKeys(order.id, LinesOf(start, order.id)), rows)
    requires Loaded(held, start.stock, order.warehouse, rows)
    requires forall j :: 0 <= j < |rows| ==> rows[j].sku in held
    requires Unspent(held, instances, start.stock, order.warehouse, rows, 0)
    requires session.working == WithPayment(Billed(start, order.id, subscription, Invoiced, false, id), id, word)
    requires order.Value() == session.working.orders[order.id] && |session.savepoints| == 1
    modifies session`working, session`savepoints, order`state, instances
    ensures session.savepoints == []
    ensures ok <==> MovePasses(start.stock, order.warehouse, LinesOf(start, order.id), ShipHeld)
    ensures ok ==> session.working == Shipped(start, order.id, subscription, word, id)
  {
    ok := ShipAndClose(session, order, rows, held, instances, start, subscription, word, id);
    if ok {
      session.ReleaseSavepoint();
    } else {
      session.RollbackToSavepoint();
    }
  }

  /** From the invoice on: bill, open the savepoint, pay, charge, and then ship, rewind and release, or fail. */
  method BillAndCharge(session: Session, order: OrderRow, subscriptionId: int, word: string, charge: Charge,
                       rows: seq<OrderLine>, held: map<int, StockRow>, ghost instances: set<StockRow>,
                       ghost start: Database)
    returns (reply: Reply)
    requires session.working == start && session.savepoints == []
    requires order.id in start.orders && order.Value() == start.orders[order.id]
      && subscriptionId in start.subscriptions
    requires LinesOf(start, order.id) != map[]
    requires RowsOf(LinesOf(start, order.id), rows) && KeyedBy(LineKeys(order.id, LinesOf(start, order.id)), rows)
    requires Loaded(held, start.stock, order.warehouse, rows)
    requires forall j :: 0 <= j < |rows| ==> rows[j].sku in held
    requires Unspent(held, instances, start.stock, order.warehouse, rows, 0)
    modifies session`working, session`sequence, session`savepoints, order`state, order`invoice, instances
    ensures session.sequence == old(session.sequence) + 1 && session.savepoints == []
    ensures reply == match charge
      case Breaks => Raised
      case Declines =>
        if MovePasses(start.stock, order.warehouse, LinesOf(start, order.id), Release) then PaymentDeclined else Raised
      case Accepts =>
        if MovePasses(start.stock, order.warehouse, LinesOf(start, order.id), ShipHeld) then Done else Raised
    ensures reply == PaymentDeclined ==>
      session.working == Spec.Declined(start, order.id, subscriptionId, old(session.sequence))
    ensures reply == Done ==>
      session.working == Shipped(start, order.id, subscriptionId, word, old(session.sequence))
  {
    var invoice := Bill(session, order, subscriptionId);
    session.Savepoint();
    Pay(session, invoice.id, word);
    match charge {
      case Breaks =>
        session.RollbackToSavepoint();
        reply := Raised;
      case Declines =>
        var ok := RewindAndRelease(session, order.warehouse, rows, start, order.id, subscriptionId, invoice.id);
        reply := if ok then PaymentDeclined else Raised;
      case Accepts =>
        var ok := ShipOrRewind(session, order, rows, held, instances, start, subscriptionId, word, invoice.id);
        reply := if ok then Done else Raised;
    }
  }

  method Settle(session: Session, orderId: int, subscriptionId: int, word: string, charge: Charge)
    returns (reply: Reply)
    requires session.Idle()
    modifies session
    ensures session.Idle() && old(session.sequence) <= session.sequence <= old(session.sequence) + 1
    ensures session.committed != old(session.committed) ==> session.sequence == old(session.sequence) + 1
    ensures Outcome(session.committed, reply)
         == Spec.Settle(old(session.committed), orderId, subscriptionId, word, charge, old(session.sequence))
  {
    var order := session.FirstOrder(orderId);
    if order == null {
      session.Rollback();
      return NotFound;
    }
    if order.state != Reserved {
      session.Rollback();
      return Conflict;
    }
    if subscriptionId !in session.working.subscriptions {
      session.Rollback();
      return NotFound;
    }
    if session.working.subscriptions[subscriptionId].user != order.customer {
      session.Rollback();
      return Conflict;
    }
    var rows := session.AllLines(orderId);
    ghost var lines := LinesOf(session.working, orderId);
    var ok, held, instances := LockLines(session, order.warehouse, lines, rows);
    if !ok {
      session.Rollback();
      return Raised;
    }
    var all := AllHeld(session.working.stock, order.warehouse, lines, rows, held);
    if !all {
      session.Rollback();
      return Conflict;
    }
    reply := BillAndCharge(session, order, subscriptionId, word, charge, rows, held, instances, session.working);
    if reply == Raised {
      session.Rollback();
    } else {
      session.Commit();
    }
  }

  // ---- drafting: lines and totals ---------------------------------------------------------------------------

  /** `sum(line.unit_price * line.quantity for line in lines)`. */
  method SumOfLines(rows: seq<OrderLine>, ghost lines: map<int, Line>) returns (total: int)
    requires RowsOf(lines, rows)
    ensures total == Total(lines)
  {
    total := 0;
    PartEnds(lines, rows);
    for i := 0 to |rows|
      invariant total == Total(Part(lines, rows, i))
    {
      PartGrows(lines, rows, i);
      TotalWith(Part(lines, rows, i), rows[i].sku, lines[rows[i].sku]);
      total := total + rows[i].unitPrice * rows[i].quantity;
    }
  }

  /** Re-derives the order's total from the lines the transaction now sees, not from the ones the caller loaded. */
  method Retotal(session: Session, order: OrderRow)
    requires order.id in session.working.orders && order.Value() == session.working.orders[order.id]
    modifies session`working, order`total
    ensures session.working == old(session.working).(orders := old(session.working.orders)[
      order.id := old(session.working.orders[order.id]).(total := Total(LinesOf(old(session.working), order.id)))])
  {
    var rows := session.AllLines(order.id);
    order.total := SumOfLines(rows, LinesOf(session.working, order.id));
    session.UpdateOrder(order);
  }

  method SetLine(session: Session, orderId: int, skuId: int, quantity: int) returns (reply: Reply)
    requires session.Idle()
    modifies session
    ensures session.Idle() && session.sequence == old(session.sequence)
    ensures Outcome(session.committed, reply) == Spec.SetLine(old(session.committed), orderId, skuId, quantity)
  {
    if quantity <= 0 {
      session.Rollback();
      return MissingFields;
    }
    var order := session.FirstOrder(orderId);
    if order == null {
      session.Rollback();
      return NotFound;
    }
    if !Open(order.state) {
      session.Rollback();
      return Conflict;
    }
    if skuId !in session.working.prices {
      session.Rollback();
      return NotFound;
    }
    var ok := session.UpsertLine(orderId, skuId, Line(quantity, session.working.prices[skuId]));
    if !ok {
      session.Rollback();
      return Raised;
    }
    Retotal(session, order);
    session.Commit();
    reply := Done;
  }

  method RemoveLine(session: Session, orderId: int, skuId: int) returns (reply: Reply)
    requires session.Idle()
    modifies session
    ensures session.Idle() && session.sequence == old(session.sequence)
    ensures Outcome(session.committed, reply) == Spec.RemoveLine(old(session.committed), orderId, skuId)
  {
    if skuId !in LinesOf(session.working, orderId) {
      session.Rollback();
      return NotFound;
    }
    var order := session.FirstOrder(orderId);
    if order == null {
      session.Rollback();
      return NotFound;
    }
    if !Open(order.state) {
      session.Rollback();
      return Conflict;
    }
    session.DeleteLine(orderId, skuId);
    Retotal(session, order);
    session.Commit();
    reply := Done;
  }

  /** The items, each with the price of its SKU: what the lines of the new order are built from. */
  ghost predicate PricedItems(items: seq<(int, int)>, prices: map<int, int>, priced: seq<OrderLine>) {
    && |priced| == |items|
    && forall i :: 0 <= i < |items| ==>
      items[i].0 in prices && priced[i] == OrderLine(items[i].0, items[i].1, prices[items[i].0])
  }

  method PriceItems(session: Session, items: seq<(int, int)>) returns (found: bool, priced: seq<OrderLine>)
    ensures found <==> ItemSkus(items) <= session.working.prices.Keys
    ensures found ==> PricedItems(items, session.working.prices, priced)
  {
    priced := [];
    for i := 0 to |items|
      invariant PricedItems(items[..i], session.working.prices, priced)
    {
      if items[i].0 !in session.working.prices {
        assert items[i].0 in ItemSkus(items);
        return false, priced;
      }
      priced := priced + [OrderLine(items[i].0, items[i].1, session.working.prices[items[i].0])];
    }
    assert items[..|items|] == items;
    found := true;
  }

  lemma PricedItemsAreTheLines(items: seq<(int, int)>, prices: map<int, int>, priced: seq<OrderLine>)
    requires ItemSkus(items) <= prices.Keys && |ItemSkus(items)| == |items|
    requires PricedItems(items, prices, priced)
    ensures RowsOf(ItemLines(items, prices), priced)
  {
    DistinctByCount(items);
    var lines := ItemLines(items, prices);
    forall i | 0 <= i < |priced|
      ensures priced[i].sku in lines && Line(priced[i].quantity, priced[i].unitPrice) == lines[priced[i].sku]
    {
      PricedItemIsTheLine(items, prices, i);
    }
    forall s | s in lines ensures exists i :: 0 <= i < |priced| && priced[i].sku == s {
      var i :| 0 <= i < |items| && items[i].0 == s;
      assert priced[i].sku == s;
    }
  }

  lemma PricedItemIsTheLine(items: seq<(int, int)>, prices: map<int, int>, i: nat)
    requires ItemSkus(items) <= prices.Keys && i < |items|
    requires forall i, j :: 0 <= i < j < |items| ==> items[i].0 != items[j].0
    ensures items[i].0 in ItemLines(items, prices) && items[i].0 in prices
    ensures ItemLines(items, prices)[items[i].0] == Line(items[i].1, prices[items[i].0])
  {
    var lines := ItemLines(items, prices);
    assert items[i].0 in ItemSkus(items);
    var k :| 0 <= k < |items| && items[k] == (items[i].0, lines[items[i].0].quantity);
  }

  /** Writes the order and its lines, once everything has been checked. */
  method WriteOrder(session: Session, reference: string, customerId: int, warehouseId: int, priced: seq<OrderLine>,
                    ghost lines: map<int, Line>)
    returns (reply: Reply)
    requires session.Idle() && RowsOf(lines, priced)
    modifies session
    ensures session.Idle() && session.sequence == old(session.sequence) + 1
    ensures Outcome(session.committed, reply) ==
      if exists s :: s in lines && (lines[s].quantity <= 0 || lines[s].unitPrice < 0)
      then Outcome(old(session.committed), Raised)
      else
        Outcome(old(session.committed).(
          orders := old(session.committed).orders[
            old(session.sequence) := Order(reference, Draft, Total(lines), customerId, warehouseId, None)],
          lines := old(session.committed).lines[old(session.sequence) := lines]), Done)
  {
    var total := SumOfLines(priced, lines);
    var order := session.AddOrder(Order(reference, Draft, total, customerId, warehouseId, None));
    var ok := session.AddLines(order.id, priced, lines);
    if !ok {
      session.Rollback();
      return Raised;
    }
    session.Commit();
    reply := Done;
  }

  method PlaceOrder(session: Session, reference: string, customerId: int, warehouseId: int, items: seq<(int, int)>)
    returns (reply: Reply)
    requires session.Idle()
    modifies session
    ensures session.Idle() && old(session.sequence) <= session.sequence <= old(session.sequence) + 1
    ensures session.committed != old(session.committed) ==> session.sequence == old(session.sequence) + 1
    ensures Outcome(session.committed, reply)
         == Spec.PlaceOrder(old(session.committed), reference, customerId, warehouseId, items, old(session.sequence))
  {
    if reference == "" || items == [] {
      session.Rollback();
      return MissingFields;
    }
    if exists i :: 0 <= i < |items| && items[i].1 <= 0 {
      session.Rollback();
      return MissingFields;
    }
    if |set i | 0 <= i < |items| :: items[i].0| != |items| {
      session.Rollback();
      return MissingFields;
    }
    if customerId !in session.working.users {
      session.Rollback();
      return NotFound;
    }
    if warehouseId !in session.working.warehouses {
      session.Rollback();
      return NotFound;
    }
    var found, priced := PriceItems(session, items);
    if !found {
      session.Rollback();
      return NotFound;
    }
    if exists o :: o in session.working.orders && session.working.orders[o].reference == reference {
      session.Rollback();
      return Conflict;
    }
    PricedItemsAreTheLines(items, session.working.prices, priced);
    ghost var lines := ItemLines(items, session.working.prices);
    reply := WriteOrder(session, reference, customerId, warehouseId, priced, lines);
  }

  method AttachInvoice(session: Session, orderId: int, invoiceId: int) returns (reply: Reply)
    requires session.Idle()
    modifies session
    ensures session.Idle() && session.sequence == old(session.sequence)
    ensures Outcome(session.committed, reply) == Spec.AttachInvoice(old(session.committed), orderId, invoiceId)
  {
    var order := session.FirstOrder(orderId);
    if order == null {
      session.Rollback();
      return NotFound;
    }
    if !Open(order.state) {
      session.Rollback();
      return Conflict;
    }
    var invoice := session.FirstInvoice(invoiceId);
    if invoice == null {
      session.Rollback();
      return NotFound;
    }
    order.invoice := Some(invoiceId);
    order.state := Invoiced;
    session.UpdateOrder(order);
    session.Commit();
    reply := Done;
  }

  method RemoveOrder(session: Session, orderId: int) returns (reply: Reply)
    requires session.Idle()
    modifies session
    ensures session.Idle() && session.sequence == old(session.sequence)
    ensures Outcome(session.committed, reply) == Spec.RemoveOrder(old(session.committed), orderId)
  {
    var order := session.FirstOrder(orderId);
    if order == null {
      session.Rollback();
      return NotFound;
    }
    var rows := session.AllLines(orderId);
    NoRowsExactly(LinesOf(session.working, orderId), rows);
    if |rows| > 0 {
      session.Rollback();
      return Conflict;
    }
    session.DeleteOrder(orderId);
    session.Commit();
    reply := Done;
  }
}
