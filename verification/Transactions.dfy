/** One stock-touching transaction as the statements it sends after it has its locks, and what they come to.

A transaction writes into an overlay that nobody else sees. The instances it loaded are kept beside the overlay:
rewinding the savepoint takes the overlay back and leaves the instances as they are.
*/
module Transactions {
  import opened Rows
  import opened KeyOrder
  import opened Spec
  import Audit
  import Money

  /** What the transaction has written and not committed. */
  datatype Overlay = Overlay(
    orders: map<int, Order>,
    stock: map<Pair, Stock>,
    movements: seq<Movement>,
    invoices: map<int, Invoice>,
    payments: seq<Payment>)

  const NOTHING := Overlay(map[], map[], [], map[], [])

  function Merge(db: Database, own: Overlay): Database {
    db.(orders := db.orders + own.orders,
        stock := db.stock + own.stock,
        movements := db.movements + own.movements,
        invoices := db.invoices + own.invoices,
        payments := db.payments + own.payments)
  }

  datatype Stmt =
    | PutOrder(order: int, row: Order)
    | PutInvoice(invoice: int, bill: Invoice)
    | AddPayment(payment: Payment)
    | AddMovement(movement: Movement)
    | MoveUnits(move: Move, pair: Pair, units: int)
    | OpenSavepoint
    | ReleaseSavepoint
    | Rewind
    | Reread
    | ChargeBreaks

  /** The uncommitted half of a transaction: its writes, its savepoints, and the stock instances it loaded. */
  datatype Private = Private(own: Overlay, saved: seq<Overlay>, instances: map<Pair, Stock>)

  /** What the transaction sees of a row: its own write if it made one, the table's otherwise. */
  function Visible(stock: map<Pair, Stock>, own: Overlay, p: Pair): Stock
    requires p in stock
  {
    if p in own.stock then own.stock[p] else stock[p]
  }

  /** The loaded rows, read again into new instances. */
  function Reloaded(stock: map<Pair, Stock>, mine: Private): map<Pair, Stock> {
    map p | p in mine.instances :: if p in stock then Visible(stock, mine.own, p) else mine.instances[p]
  }

  /** One statement. `None` is the engine, or the payment processor, raising. */
  function Exec(stock: map<Pair, Stock>, mine: Private, stmt: Stmt): Option<Private>
  {
    match stmt
    case PutOrder(order, row) => Some(mine.(own := mine.own.(orders := mine.own.orders[order := row])))
    case PutInvoice(invoice, bill) => Some(mine.(own := mine.own.(invoices := mine.own.invoices[invoice := bill])))
    case AddPayment(payment) => Some(mine.(own := mine.own.(payments := mine.own.payments + [payment])))
    case AddMovement(movement) => Some(mine.(own := mine.own.(movements := mine.own.movements + [movement])))
    case MoveUnits(move, pair, units) =>
      if pair !in mine.instances then None
      else
        var row := Moved(move, mine.instances[pair], units);
        if !Admissible(row) then None
        else
          Some(mine.(own := mine.own.(stock := mine.own.stock[pair := row]), instances := mine.instances[pair := row]))
    case OpenSavepoint => Some(mine.(saved := mine.saved + [mine.own]))
    case ReleaseSavepoint => if mine.saved == [] then None else Some(mine.(saved := mine.saved[..|mine.saved| - 1]))
    case Rewind =>
      if mine.saved == [] then None
      else Some(mine.(own := mine.saved[|mine.saved| - 1], saved := mine.saved[..|mine.saved| - 1]))
    case Reread => Some(mine.(instances := Reloaded(stock, mine)))
    case ChargeBreaks => None
  }

  /** Every statement left, with nobody else in between. */
  function Finish(stock: map<Pair, Stock>, mine: Private, todo: seq<Stmt>): Option<Private>
    decreases |todo|
  {
    if todo == [] then Some(mine)
    else
      match Exec(stock, mine, todo[0])
      case None => None
      case Some(next) => Finish(stock, next, todo[1..])
  }

  /** Statements read the table only through the rows the transaction has loaded. */
  lemma {:induction false} FinishReadsLoadedRows(
    a: map<Pair, Stock>, b: map<Pair, Stock>, mine: Private, todo: seq<Stmt>)
    requires forall p :: p in mine.instances ==> p in a && p in b && a[p] == b[p]
    ensures Finish(a, mine, todo) == Finish(b, mine, todo)
    decreases |todo|
  {
    if todo != [] {
      assert Reloaded(a, mine) == Reloaded(b, mine);
      match Exec(a, mine, todo[0])
      case None =>
      case Some(next) =>
        assert next.instances.Keys == mine.instances.Keys;
        FinishReadsLoadedRows(a, b, next, todo[1..]);
    }
  }

  lemma FinishFirst(stock: map<Pair, Stock>, mine: Private, stmt: Stmt, rest: seq<Stmt>)
    ensures Finish(stock, mine, [stmt] + rest) ==
      match Exec(stock, mine, stmt) case None => None case Some(next) => Finish(stock, next, rest)
  {
    assert ([stmt] + rest)[1..] == rest;
  }

  // ---- what each operation sends ----------------------------------------------------------------------------

  /** The row, and a movement with it if units leave the shelf. */
  function OneLine(move: Move, pair: Pair, units: int): seq<Stmt> {
    if move == ShipHeld then [MoveUnits(move, pair, units), AddMovement(Movement(pair, -units, Sale))]
    else [MoveUnits(move, pair, units)]
  }

  /** The loop over the lines, passing over a line whose pair has no row. */
  function Moves(
    move: Move, warehouse: int, keys: seq<Pair>, lines: map<int, Line>, read: map<Pair, Stock>): seq<Stmt>
  {
    if keys == [] then []
    else
      var pair := Pair(warehouse, keys[0].sku);
      (if pair in read then OneLine(move, pair, QuantityOf(lines, keys[0].sku)) else [])
      + Moves(move, warehouse, keys[1..], lines, read)
  }

  function Paying(word: string, id: int, bill: Invoice): seq<Stmt> {
    if word in PAYMENT_KINDS
    then [AddPayment(Payment(bill.amountCents, word, id)), PutInvoice(id, bill.(paid := true))]
    else []
  }

  function Bill(row: Order, subscription: int): Invoice {
    Invoice(Money.InCents(Money.TwoPlaces(row.total)), false, subscription)
  }

  function Invoicing(op: Op, row: Order, id: int): seq<Stmt>
    requires op.OpSettle?
  {
    [PutInvoice(id, Bill(row, op.subscription)),
     PutOrder(op.order, row.(state := Invoiced, invoice := Some(id))),
     OpenSavepoint] + Paying(op.word, id, Bill(row, op.subscription))
  }

  /** What follows the charge. */
  function Fulfilling(op: Op, row: Order, lines: map<int, Line>, read: map<Pair, Stock>, id: int): seq<Stmt>
    requires op.OpSettle?
  {
    var keys := LineKeys(op.order, lines);
    match op.charge
    case Breaks => [ChargeBreaks]
    case Declines => [Rewind, Reread] + Moves(Release, row.warehouse, keys, lines, read)
    case Accepts =>
      Moves(ShipHeld, row.warehouse, keys, lines, read)
      + [PutOrder(op.order, row.(state := Settled, invoice := Some(id))), ReleaseSavepoint]
  }

  predicate TakesStock(op: Op) {
    op.OpReserve? || op.OpCancelOrder? || op.OpSettle?
  }

  /** The statements of an operation that has its locks and has decided to go on. */
  function Plan(op: Op, row: Order, lines: map<int, Line>, read: map<Pair, Stock>, id: int): seq<Stmt>
    requires TakesStock(op)
  {
    var keys := LineKeys(op.order, lines);
    match op
    case OpReserve(order) =>
      Moves(Hold, row.warehouse, keys, lines, read) + [PutOrder(order, row.(state := Reserved))]
    case OpCancelOrder(order) =>
      if row.state == Reserved
      then Moves(Release, row.warehouse, keys, lines, read) + [PutOrder(order, row.(state := Cancelled))]
      else [PutOrder(order, row.(state := Cancelled))]
    case OpSettle(_, _, _, _) => Invoicing(op, row, id) + Fulfilling(op, row, lines, read, id)
  }

  function PlannedReply(op: Op): Reply {
    if op.OpSettle? && op.charge == Declines then PaymentDeclined else Done
  }

  // ---- what the loop over the lines comes to ----------------------------------------------------------------

  ghost predicate Hits(keys: seq<Pair>, warehouse: int, read: map<Pair, Stock>, p: Pair) {
    p in read && p.warehouse == warehouse && exists i :: 0 <= i < |keys| && keys[i].sku == p.sku
  }

  ghost predicate Passes(move: Move, keys: seq<Pair>, warehouse: int, lines: map<int, Line>, read: map<Pair, Stock>) {
    forall p :: Hits(keys, warehouse, read, p) ==> Admissible(Moved(move, read[p], QuantityOf(lines, p.sku)))
  }

  /** The sales of the lines that have a row. */
  function SalesOf(warehouse: int, keys: seq<Pair>, lines: map<int, Line>, read: map<Pair, Stock>): seq<Movement> {
    if keys == [] then []
    else
      var pair := Pair(warehouse, keys[0].sku);
      (if pair in read then [Movement(pair, -QuantityOf(lines, keys[0].sku), Sale)] else [])
      + SalesOf(warehouse, keys[1..], lines, read)
  }

  /** The private state after the loop, if nothing raised. */
  ghost predicate AfterMoves(
    before: Private, after: Private, move: Move, warehouse: int, keys: seq<Pair>, lines: map<int, Line>,
    read: map<Pair, Stock>)
  {
    && after.saved == before.saved
    && after.own.orders == before.own.orders && after.own.invoices == before.own.invoices
    && after.own.payments == before.own.payments
    && after.own.movements
      == before.own.movements + (if move == ShipHeld then SalesOf(warehouse, keys, lines, read) else [])
    && (forall p :: p in after.own.stock <==> p in before.own.stock || Hits(keys, warehouse, read, p))
    && (forall p :: p in after.own.stock ==>
          after.own.stock[p] ==
            if Hits(keys, warehouse, read, p) then Moved(move, read[p], QuantityOf(lines, p.sku))
            else before.own.stock[p])
  }

  ghost predicate Unmoved(mine: Private, keys: seq<Pair>, warehouse: int, read: map<Pair, Stock>) {
    && (forall p :: p in read ==> p in mine.instances)
    && (forall p :: Hits(keys, warehouse, read, p) ==> mine.instances[p] == read[p])
  }

  lemma HitsFirst(keys: seq<Pair>, warehouse: int, read: map<Pair, Stock>, p: Pair)
    requires keys != []
    ensures Hits(keys, warehouse, read, p) <==>
      Hits(keys[1..], warehouse, read, p) || (p == Pair(warehouse, keys[0].sku) && p in read)
    ensures Audit.SkusAscend(keys) ==>
      Audit.SkusAscend(keys[1..]) && !Hits(keys[1..], warehouse, read, Pair(warehouse, keys[0].sku))
  {
    if Hits(keys, warehouse, read, p) {
      var i :| 0 <= i < |keys| && keys[i].sku == p.sku;
      if i > 0 { assert keys[1..][i - 1].sku == p.sku; }
    }
    if Hits(keys[1..], warehouse, read, p) {
      var i :| 0 <= i < |keys[1..]| && keys[1..][i].sku == p.sku;
      assert keys[i + 1].sku == p.sku;
    }
  }

  /** One line's statements, on a row that passes. */
  function MoveOne(mine: Private, move: Move, pair: Pair, units: int, row: Stock): Private {
    mine.(own := mine.own.(stock := mine.own.stock[pair := row],
                           movements := mine.own.movements
                             + if move == ShipHeld then [Movement(pair, -units, Sale)] else []),
          instances := mine.instances[pair := row])
  }

  lemma MoveOneRuns(stock: map<Pair, Stock>, mine: Private, move: Move, pair: Pair, units: int, later: seq<Stmt>)
    requires pair in mine.instances
    ensures var row := Moved(move, mine.instances[pair], units);
      Finish(stock, mine, OneLine(move, pair, units) + later)
      == if Admissible(row) then Finish(stock, MoveOne(mine, move, pair, units, row), later) else None
  {
    var row := Moved(move, mine.instances[pair], units);
    if move == ShipHeld {
      var sale := AddMovement(Movement(pair, -units, Sale));
      assert OneLine(move, pair, units) + later == [MoveUnits(move, pair, units)] + ([sale] + later);
      FinishFirst(stock, mine, MoveUnits(move, pair, units), [sale] + later);
      if Admissible(row) {
        var next :=
          mine.(own := mine.own.(stock := mine.own.stock[pair := row]), instances := mine.instances[pair := row]);
        FinishFirst(stock, next, sale, later);
      }
    } else {
      FinishFirst(stock, mine, MoveUnits(move, pair, units), later);
      assert mine.own.movements + [] == mine.own.movements;
    }
  }

  lemma AfterNoMore(
    mine: Private, after: Private, move: Move, warehouse: int, keys: seq<Pair>, lines: map<int, Line>,
    read: map<Pair, Stock>)
    requires keys != [] && Pair(warehouse, keys[0].sku) !in read
    requires AfterMoves(mine, after, move, warehouse, keys[1..], lines, read)
    ensures AfterMoves(mine, after, move, warehouse, keys, lines, read)
  {
    forall p ensures Hits(keys, warehouse, read, p) <==> Hits(keys[1..], warehouse, read, p) {
      HitsFirst(keys, warehouse, read, p);
    }
    var later := SalesOf(warehouse, keys[1..], lines, read);
    assert SalesOf(warehouse, keys, lines, read) == [] + later == later;
  }

  lemma AfterOneMore(
    mine: Private, after: Private, move: Move, warehouse: int, keys: seq<Pair>, lines: map<int, Line>,
    read: map<Pair, Stock>)
    requires keys != [] && Audit.SkusAscend(keys) && Pair(warehouse, keys[0].sku) in read
    requires var pair, units := Pair(warehouse, keys[0].sku), QuantityOf(lines, keys[0].sku);
      var next := MoveOne(mine, move, pair, units, Moved(move, read[pair], units));
      AfterMoves(next, after, move, warehouse, keys[1..], lines, read)
    ensures AfterMoves(mine, after, move, warehouse, keys, lines, read)
  {
    forall p { HitsFirst(keys, warehouse, read, p); }
    if move == ShipHeld {
      var sale := [Movement(Pair(warehouse, keys[0].sku), -QuantityOf(lines, keys[0].sku), Sale)];
      var later := SalesOf(warehouse, keys[1..], lines, read);
      assert mine.own.movements + sale + later == mine.own.movements + (sale + later);
    }
  }

  lemma PassesFirst(move: Move, keys: seq<Pair>, warehouse: int, lines: map<int, Line>, read: map<Pair, Stock>)
    requires keys != [] && Audit.SkusAscend(keys)
    ensures var pair := Pair(warehouse, keys[0].sku);
      Passes(move, keys, warehouse, lines, read) <==>
        Passes(move, keys[1..], warehouse, lines, read)
        && (pair in read ==> Admissible(Moved(move, read[pair], QuantityOf(lines, keys[0].sku))))
  {
    forall p { HitsFirst(keys, warehouse, read, p); }
    var pair := Pair(warehouse, keys[0].sku);
    assert pair in read ==> Hits(keys, warehouse, read, pair);
  }

  lemma UnmovedFirst(
    mine: Private, keys: seq<Pair>, warehouse: int, read: map<Pair, Stock>, move: Move, units: int, row: Stock)
    requires keys != [] && Audit.SkusAscend(keys) && Unmoved(mine, keys, warehouse, read)
    ensures Unmoved(mine, keys[1..], warehouse, read)
    ensures Unmoved(MoveOne(mine, move, Pair(warehouse, keys[0].sku), units, row), keys[1..], warehouse, read)
    ensures Pair(warehouse, keys[0].sku) in read ==>
      mine.instances[Pair(warehouse, keys[0].sku)] == read[Pair(warehouse, keys[0].sku)]
  {
    forall p { HitsFirst(keys, warehouse, read, p); }
  }

  /** The loop, followed by whatever comes after it: all rows moved and checked, or an exception. */
  lemma {:induction false} MovesRun(
    stock: map<Pair, Stock>, mine: Private, move: Move, warehouse: int, keys: seq<Pair>, lines: map<int, Line>,
    read: map<Pair, Stock>, rest: seq<Stmt>) returns (after: Private)
    requires Audit.SkusAscend(keys) && Unmoved(mine, keys, warehouse, read)
    ensures Passes(move, keys, warehouse, lines, read) ==>
      && AfterMoves(mine, after, move, warehouse, keys, lines, read)
      && Finish(stock, mine, Moves(move, warehouse, keys, lines, read) + rest) == Finish(stock, after, rest)
    ensures !Passes(move, keys, warehouse, lines, read) ==>
      Finish(stock, mine, Moves(move, warehouse, keys, lines, read) + rest) == None
    decreases |keys|
  {
    after := mine;
    if keys == [] {
      assert Moves(move, warehouse, keys, lines, read) + rest == rest;
      return;
    }
    var pair, units := Pair(warehouse, keys[0].sku), QuantityOf(lines, keys[0].sku);
    var later := Moves(move, warehouse, keys[1..], lines, read) + rest;
    PassesFirst(move, keys, warehouse, lines, read);
    if pair !in read {
      assert Moves(move, warehouse, keys, lines, read) + rest == later;
      UnmovedFirst(mine, keys, warehouse, read, move, units, Stock(0, 0));
      after := MovesRun(stock, mine, move, warehouse, keys[1..], lines, read, rest);
      if Passes(move, keys, warehouse, lines, read) { AfterNoMore(mine, after, move, warehouse, keys, lines, read); }
    } else {
      var row := Moved(move, read[pair], units);
      UnmovedFirst(mine, keys, warehouse, read, move, units, row);
      MoveOneRuns(stock, mine, move, pair, units, later);
      assert Moves(move, warehouse, keys, lines, read) + rest == OneLine(move, pair, units) + later;
      if Admissible(row) {
        after := MovesRun(stock, MoveOne(mine, move, pair, units, row), move, warehouse, keys[1..], lines, read, rest);
        if Passes(move, keys, warehouse, lines, read) { AfterOneMore(mine, after, move, warehouse, keys, lines, read); }
      }
    }
  }

  // ---- what a transaction relied on, and what it comes to ---------------------------------------------------

  /** Cancelling a draft reads no lines and takes no row. */
  predicate TakesLines(op: Op, row: Order) {
    !(op.OpCancelOrder? && row.state == Draft)
  }

  ghost predicate Wanted(stock: map<Pair, Stock>, row: Order, lines: map<int, Line>, p: Pair) {
    p in stock && p.warehouse == row.warehouse && p.sku in lines
  }

  /** The database still says what the transaction read. */
  ghost predicate Agrees(db: Database, op: Op, row: Order, lines: map<int, Line>, read: map<Pair, Stock>)
    requires TakesStock(op)
  {
    && op.order in db.orders && db.orders[op.order] == row
    && (TakesLines(op, row) ==>
          && LinesOf(db, op.order) == lines
          && (forall p :: p in read <==> Wanted(db.stock, row, lines, p))
          && (forall p :: p in read ==> db.stock[p] == read[p]))
  }

  /** What the transaction checked before it began to write. */
  ghost predicate Decided(db: Database, op: Op, row: Order, lines: map<int, Line>, read: map<Pair, Stock>)
    requires TakesStock(op)
  {
    match op
    case OpReserve(_) => row.state == Draft && lines != map[] && AllAvailable(read, row.warehouse, lines)
    case OpCancelOrder(_) => Open(row.state) && (row.state == Reserved ==> lines != map[])
    case OpSettle(_, subscription, _, _) =>
      && row.state == Reserved && lines != map[] && AllStocked(read, row.warehouse, lines)
      && subscription in db.subscriptions && db.subscriptions[subscription].user == row.customer
  }

  function Fresh(read: map<Pair, Stock>): Private {
    Private(NOTHING, [], read)
  }

  lemma LineKeysHit(order: int, lines: map<int, Line>, warehouse: int, read: map<Pair, Stock>)
    ensures Audit.SkusAscend(LineKeys(order, lines))
    ensures forall p ::
      Hits(LineKeys(order, lines), warehouse, read, p) <==> p in read && p.warehouse == warehouse && p.sku in lines
  {
    var keys := LineKeys(order, lines);
    LineKeysListTheLines(order, lines);
    forall i, j | 0 <= i < j < |keys| ensures keys[i].sku < keys[j].sku {
      assert keys[i] in keys && keys[j] in keys && Before(keys[i], keys[j]);
    }
    forall p: Pair | p in read && p.warehouse == warehouse && p.sku in lines ensures Hits(keys, warehouse, read, p) {
      assert Pair(order, p.sku) in keys;
      var i :| 0 <= i < |keys| && keys[i] == Pair(order, p.sku);
    }
    forall p | Hits(keys, warehouse, read, p) ensures p.sku in lines {
      var i :| 0 <= i < |keys| && keys[i].sku == p.sku;
      assert keys[i] in keys;
    }
  }

  /** The loop over all of an order's lines, read off rows that agree with the table: the specification's move. */
  lemma LoopMeetsMove(
    db: Database, op: Op, row: Order, lines: map<int, Line>, read: map<Pair, Stock>, mine: Private, move: Move,
    rest: seq<Stmt>) returns (after: Private)
    requires TakesStock(op) && TakesLines(op, row) && Agrees(db, op, row, lines, read)
    requires mine.instances == read && mine.own.stock == map[]
    ensures var keys := LineKeys(op.order, lines);
      var todo := Moves(move, row.warehouse, keys, lines, read) + rest;
      if MovePasses(db.stock, row.warehouse, lines, move) then
        && Finish(read, mine, todo) == Finish(read, after, rest)
        && after.saved == mine.saved
        && after.own == mine.own.(stock := after.own.stock, movements := after.own.movements)
        && after.own.movements ==
             mine.own.movements + (if move == ShipHeld then SalesOf(row.warehouse, keys, lines, read) else [])
        && db.stock + after.own.stock == MovedStock(db.stock, row.warehouse, lines, move)
      else Finish(read, mine, todo) == None
  {
    var keys := LineKeys(op.order, lines);
    LineKeysHit(op.order, lines, row.warehouse, read);
    after := MovesRun(read, mine, move, row.warehouse, keys, lines, read, rest);
    if MovePasses(db.stock, row.warehouse, lines, move) {
      forall p | Hits(keys, row.warehouse, read, p) ensures Admissible(Moved(move, read[p], QuantityOf(lines, p.sku))) {
        assert p == Pair(row.warehouse, p.sku);
      }
      assert Passes(move, keys, row.warehouse, lines, read);
      MergedStock(db, row, lines, read, move, after);
    } else {
      var s :| s in lines && Pair(row.warehouse, s) in db.stock
        && !Admissible(Moved(move, db.stock[Pair(row.warehouse, s)], lines[s].quantity));
      assert Wanted(db.stock, row, lines, Pair(row.warehouse, s));
      assert Hits(keys, row.warehouse, read, Pair(row.warehouse, s));
      assert !Passes(move, keys, row.warehouse, lines, read);
    }
  }

  lemma MergedStock(db: Database, row: Order, lines: map<int, Line>, read: map<Pair, Stock>, move: Move, after: Private)
    requires forall p :: p in read <==> Wanted(db.stock, row, lines, p)
    requires forall p :: p in read ==> p in db.stock && db.stock[p] == read[p]
    requires forall p :: p in after.own.stock <==> p in read
    requires forall p :: p in read ==> after.own.stock[p] == Moved(move, read[p], QuantityOf(lines, p.sku))
    ensures db.stock + after.own.stock == MovedStock(db.stock, row.warehouse, lines, move)
  {
  }

  lemma {:induction false} SalesOfAll(warehouse: int, keys: seq<Pair>, lines: map<int, Line>, read: map<Pair, Stock>)
    requires forall i :: 0 <= i < |keys| ==> Pair(warehouse, keys[i].sku) in read && keys[i].sku in lines
    ensures SalesOf(warehouse, keys, lines, read) == Sales(warehouse, keys, lines)
    decreases |keys|
  {
    if keys != [] {
      SalesOfAll(warehouse, keys[1..], lines, read);
      var sales, later := Sales(warehouse, keys, lines), Sales(warehouse, keys[1..], lines);
      forall i | 0 <= i < |keys| ensures sales[i] == ([SaleOf(warehouse, keys[0], lines)] + later)[i] {
        if i > 0 { assert keys[i] == keys[1..][i - 1]; }
      }
      assert sales == [SaleOf(warehouse, keys[0], lines)] + later;
    }
  }

  ghost predicate Meets(db: Database, op: Op, id: int, finished: Option<Private>)
    requires TakesStock(op)
  {
    match finished
    case Some(mine) => Outcome(Merge(db, mine.own), PlannedReply(op)) == Apply(db, op, id)
    case None => Outcome(db, Raised) == Apply(db, op, id)
  }

  /** An overlay that writes one order, no invoice and no payment. */
  lemma MergedOrder(db: Database, own: Overlay, order: int, row: Order)
    requires own.orders == map[order := row] && own.invoices == map[] && own.payments == [] && own.movements == []
    ensures Merge(db, own) == db.(orders := db.orders[order := row], stock := db.stock + own.stock)
  {
    assert db.orders + own.orders == db.orders[order := row];
    assert db.invoices + own.invoices == db.invoices;
  }

  lemma ReservePlan(db: Database, order: int, row: Order, lines: map<int, Line>, read: map<Pair, Stock>, id: int)
    requires Agrees(db, OpReserve(order), row, lines, read) && Decided(db, OpReserve(order), row, lines, read)
    ensures Meets(db, OpReserve(order), id, Finish(read, Fresh(read), Plan(OpReserve(order), row, lines, read, id)))
  {
    var close := PutOrder(order, row.(state := Reserved));
    var after := LoopMeetsMove(db, OpReserve(order), row, lines, read, Fresh(read), Hold, [close]);
    assert AllAvailable(db.stock, row.warehouse, lines);
    if MovePasses(db.stock, row.warehouse, lines, Hold) {
      FinishFirst(read, after, close, []);
      assert [close] + [] == [close];
      MergedOrder(db, after.own.(orders := map[order := close.row]), order, close.row);
    }
  }

  lemma CancelPlan(db: Database, order: int, row: Order, lines: map<int, Line>, read: map<Pair, Stock>, id: int)
    requires Agrees(db, OpCancelOrder(order), row, lines, read) && Decided(db, OpCancelOrder(order), row, lines, read)
    ensures var plan := Plan(OpCancelOrder(order), row, lines, read, id);
      Meets(db, OpCancelOrder(order), id, Finish(read, Fresh(read), plan))
  {
    var close := PutOrder(order, row.(state := Cancelled));
    assert [close] + [] == [close];
    if row.state == Draft {
      FinishFirst(read, Fresh(read), close, []);
      MergedOrder(db, NOTHING.(orders := map[order := close.row]), order, close.row);
      assert db.stock + map[] == db.stock;
    } else {
      var after := LoopMeetsMove(db, OpCancelOrder(order), row, lines, read, Fresh(read), Release, [close]);
      if MovePasses(db.stock, row.warehouse, lines, Release) {
        FinishFirst(read, after, close, []);
        MergedOrder(db, after.own.(orders := map[order := close.row]), order, close.row);
      }
    }
  }

  /** The overlay that survives a rewind: the order billed, and its invoice as issued. */
  function BilledOverlay(op: Op, row: Order, id: int): Overlay
    requires op.OpSettle?
  {
    NOTHING.(orders := map[op.order := row.(state := Invoiced, invoice := Some(id))],
             invoices := map[id := Bill(row, op.subscription)])
  }

  /** With the payment in, if the word is one. */
  function PaidOverlay(op: Op, row: Order, id: int): Overlay
    requires op.OpSettle?
  {
    var billed, bill := BilledOverlay(op, row, id), Bill(row, op.subscription);
    if op.word in PAYMENT_KINDS
    then billed.(payments := [Payment(bill.amountCents, op.word, id)], invoices := map[id := bill.(paid := true)])
    else billed
  }

  lemma PayingRuns(stock: map<Pair, Stock>, op: Op, row: Order, mine: Private, id: int, rest: seq<Stmt>)
    requires op.OpSettle? && mine.own == BilledOverlay(op, row, id)
    ensures Finish(stock, mine, Paying(op.word, id, Bill(row, op.subscription)) + rest)
         == Finish(stock, mine.(own := PaidOverlay(op, row, id)), rest)
  {
    var bill := Bill(row, op.subscription);
    if op.word in PAYMENT_KINDS {
      var pay, mark := AddPayment(Payment(bill.amountCents, op.word, id)), PutInvoice(id, bill.(paid := true));
      assert Paying(op.word, id, bill) + rest == [pay] + ([mark] + rest);
      FinishFirst(stock, mine, pay, [mark] + rest);
      var paying := mine.(own := mine.own.(payments := [pay.payment]));
      assert [] + [pay.payment] == [pay.payment];
      FinishFirst(stock, paying, mark, rest);
      assert map[id := bill][id := bill.(paid := true)] == map[id := bill.(paid := true)];
    } else {
      assert [] + rest == rest;
    }
  }

  lemma InvoicingRuns(stock: map<Pair, Stock>, op: Op, row: Order, read: map<Pair, Stock>, id: int, rest: seq<Stmt>)
    requires op.OpSettle?
    ensures Finish(stock, Fresh(read), Invoicing(op, row, id) + rest)
         == Finish(stock, Private(PaidOverlay(op, row, id), [BilledOverlay(op, row, id)], read), rest)
  {
    var bill := PutInvoice(id, Bill(row, op.subscription));
    var point := PutOrder(op.order, row.(state := Invoiced, invoice := Some(id)));
    var pay := Paying(op.word, id, Bill(row, op.subscription));
    assert Invoicing(op, row, id) + rest == [bill] + ([point] + ([OpenSavepoint] + (pay + rest)));
    var first := Fresh(read).(own := NOTHING.(invoices := map[id := bill.bill]));
    var second := Fresh(read).(own := BilledOverlay(op, row, id));
    FinishFirst(stock, Fresh(read), bill, [point] + ([OpenSavepoint] + (pay + rest)));
    FinishFirst(stock, first, point, [OpenSavepoint] + (pay + rest));
    FinishFirst(stock, second, OpenSavepoint, pay + rest);
    assert [] + [second.own] == [second.own];
    PayingRuns(stock, op, row, second.(saved := [second.own]), id, rest);
  }

  /** The savepoint taken back and the rows read again: what was read under the lock, because the lock is still held. */
  lemma RewindRuns(op: Op, row: Order, read: map<Pair, Stock>, id: int, rest: seq<Stmt>)
    requires op.OpSettle?
    ensures Finish(read, Private(PaidOverlay(op, row, id), [BilledOverlay(op, row, id)], read), [Rewind, Reread] + rest)
         == Finish(read, Private(BilledOverlay(op, row, id), [], read), rest)
  {
    var mine := Private(PaidOverlay(op, row, id), [BilledOverlay(op, row, id)], read);
    var rewound := Private(BilledOverlay(op, row, id), [], read);
    assert [Rewind, Reread] + rest == [Rewind] + ([Reread] + rest);
    FinishFirst(read, mine, Rewind, [Reread] + rest);
    FinishFirst(read, rewound, Reread, rest);
    assert Reloaded(read, rewound) == read;
  }

  lemma DeclinedPlan(db: Database, op: Op, row: Order, lines: map<int, Line>, read: map<Pair, Stock>, id: int)
    requires op.OpSettle? && op.charge == Declines
    requires Agrees(db, op, row, lines, read) && Decided(db, op, row, lines, read)
    ensures Meets(db, op, id, Finish(read, Fresh(read), Plan(op, row, lines, read, id)))
  {
    var loop := Moves(Release, row.warehouse, LineKeys(op.order, lines), lines, read);
    InvoicingRuns(read, op, row, read, id, [Rewind, Reread] + loop);
    RewindRuns(op, row, read, id, loop);
    var rewound := Private(BilledOverlay(op, row, id), [], read);
    var after := LoopMeetsMove(db, op, row, lines, read, rewound, Release, []);
    assert loop + [] == loop;
    if MovePasses(db.stock, row.warehouse, lines, Release) {
      MergedBill(db, op, row, after.own, id, row.(state := Invoiced, invoice := Some(id)), false);
    }
  }

  /** An overlay that writes one order and one invoice. */
  lemma MergedBill(db: Database, op: Op, row: Order, own: Overlay, id: int, closed: Order, paid: bool)
    requires op.OpSettle? && op.order in db.orders && db.orders[op.order] == row
    requires closed == row.(state := closed.state, invoice := Some(id))
    requires own.orders == map[op.order := closed]
    requires own.invoices == map[id := Bill(row, op.subscription).(paid := paid)]
    ensures Merge(db, own) == Billed(db, op.order, op.subscription, closed.state, paid, id).(
      stock := db.stock + own.stock, movements := db.movements + own.movements, payments := db.payments + own.payments)
  {
    assert db.orders + own.orders == db.orders[op.order := closed];
    assert db.invoices + own.invoices == db.invoices[id := Bill(row, op.subscription).(paid := paid)];
  }

  /** The merge of a settlement that shipped. */
  lemma MergedShipment(db: Database, op: Op, row: Order, lines: map<int, Line>, own: Overlay, id: int)
    requires op.OpSettle? && op.order in db.orders && db.orders[op.order] == row && LinesOf(db, op.order) == lines
    requires own.orders == map[op.order := row.(state := Settled, invoice := Some(id))]
    requires own.invoices == PaidOverlay(op, row, id).invoices && own.payments == PaidOverlay(op, row, id).payments
    requires own.movements == Sales(row.warehouse, LineKeys(op.order, lines), lines)
    requires db.stock + own.stock == MovedStock(db.stock, row.warehouse, lines, ShipHeld)
    ensures Merge(db, own) == Shipped(db, op.order, op.subscription, op.word, id)
  {
    MergedBill(db, op, row, own, id, row.(state := Settled, invoice := Some(id)), op.word in PAYMENT_KINDS);
  }

  lemma SettleShips(db: Database, op: Op, row: Order, lines: map<int, Line>, read: map<Pair, Stock>, id: int)
    requires op.OpSettle? && op.charge == Accepts
    requires Agrees(db, op, row, lines, read) && Decided(db, op, row, lines, read)
    ensures Apply(db, op, id) ==
      if MovePasses(db.stock, row.warehouse, lines, ShipHeld)
      then Outcome(Shipped(db, op.order, op.subscription, op.word, id), Done) else Outcome(db, Raised)
  {
    assert AllStocked(db.stock, row.warehouse, lines);
    assert SettleGuard(db, op.order, op.subscription) == Done;
  }

  lemma AcceptedPlan(db: Database, op: Op, row: Order, lines: map<int, Line>, read: map<Pair, Stock>, id: int)
    requires op.OpSettle? && op.charge == Accepts
    requires Agrees(db, op, row, lines, read) && Decided(db, op, row, lines, read)
    ensures Meets(db, op, id, Finish(read, Fresh(read), Plan(op, row, lines, read, id)))
  {
    var keys, closed := LineKeys(op.order, lines), row.(state := Settled, invoice := Some(id));
    var close := [PutOrder(op.order, closed), ReleaseSavepoint];
    var loop := Moves(ShipHeld, row.warehouse, keys, lines, read);
    SettleShips(db, op, row, lines, read, id);
    InvoicingRuns(read, op, row, read, id, loop + close);
    var paid := Private(PaidOverlay(op, row, id), [BilledOverlay(op, row, id)], read);
    var after := LoopMeetsMove(db, op, row, lines, read, paid, ShipHeld, close);
    assert Plan(op, row, lines, read, id) == Invoicing(op, row, id) + (loop + close);
    if MovePasses(db.stock, row.warehouse, lines, ShipHeld) {
      ClosingRuns(read, after, op.order, row.(state := Invoiced, invoice := Some(id)), closed);
      SoldAll(db, op.order, row, lines, read);
      assert [] + SalesOf(row.warehouse, keys, lines, read) == SalesOf(row.warehouse, keys, lines, read);
      MergedShipment(db, op, row, lines, after.own.(orders := map[op.order := closed]), id);
    }
  }

  lemma ClosingRuns(stock: map<Pair, Stock>, mine: Private, order: int, billed: Order, closed: Order)
    requires mine.own.orders == map[order := billed] && |mine.saved| == 1
    ensures Finish(stock, mine, [PutOrder(order, closed), ReleaseSavepoint])
         == Some(mine.(own := mine.own.(orders := map[order := closed]), saved := []))
  {
    var close := PutOrder(order, closed);
    var ended := mine.(own := mine.own.(orders := map[order := closed]));
    assert [close, ReleaseSavepoint] == [close] + ([ReleaseSavepoint] + []);
    assert map[order := billed][order := closed] == map[order := closed];
    FinishFirst(stock, mine, close, [ReleaseSavepoint] + []);
    FinishFirst(stock, ended, ReleaseSavepoint, []);
  }

  lemma SoldAll(db: Database, order: int, row: Order, lines: map<int, Line>, read: map<Pair, Stock>)
    requires AllStocked(read, row.warehouse, lines)
    ensures SalesOf(row.warehouse, LineKeys(order, lines), lines, read)
      == Sales(row.warehouse, LineKeys(order, lines), lines)
  {
    var keys := LineKeys(order, lines);
    LineKeysListTheLines(order, lines);
    forall i | 0 <= i < |keys| ensures Pair(row.warehouse, keys[i].sku) in read && keys[i].sku in lines {
      assert keys[i] in keys;
    }
    SalesOfAll(row.warehouse, keys, lines, read);
  }

  /** The statements of an operation, run to the end on rows that agree with the table, come to what the
      specification does at once, or raise exactly when it does. */
  lemma PlanMeets(db: Database, op: Op, row: Order, lines: map<int, Line>, read: map<Pair, Stock>, id: int)
    requires TakesStock(op) && Agrees(db, op, row, lines, read) && Decided(db, op, row, lines, read)
    ensures Meets(db, op, id, Finish(read, Fresh(read), Plan(op, row, lines, read, id)))
  {
    match op
    case OpReserve(order) => ReservePlan(db, order, row, lines, read, id);
    case OpCancelOrder(order) => CancelPlan(db, order, row, lines, read, id);
    case OpSettle(_, _, _, charge) =>
      match charge
      case Accepts => AcceptedPlan(db, op, row, lines, read, id);
      case Declines => DeclinedPlan(db, op, row, lines, read, id);
      case Breaks =>
        InvoicingRuns(read, op, row, read, id, [ChargeBreaks]);
        assert AllStocked(db.stock, row.warehouse, lines);
  }
}
