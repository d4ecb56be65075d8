/** The audit trail: what is on the shelf, against what the movements say came and went. */
module Audit {
  import opened Rows
  import opened KeyOrder
  import opened Spec
  import opened Integrity

  /** The sum of a pair's movements. */
  ghost function NetMoved(movements: seq<Movement>, p: Pair): int {
    if movements == [] then 0
    else
      var last := movements[|movements| - 1];
      NetMoved(movements[..|movements| - 1], p) + if last.pair == p then last.delta else 0
  }

  lemma {:induction false} NetOfConcatenation(a: seq<Movement>, b: seq<Movement>, p: Pair)
    ensures NetMoved(a + b, p) == NetMoved(a, p) + NetMoved(b, p)
  {
    if b == [] {
      assert a + b == a;
    } else {
      var init := b[..|b| - 1];
      assert (a + b)[..|a + b| - 1] == a + init;
      NetOfConcatenation(a, init, p);
    }
  }

  ghost predicate SkusAscend(keys: seq<Pair>) {
    forall i, j :: 0 <= i < j < |keys| ==> keys[i].sku < keys[j].sku
  }

  ghost predicate Lists(keys: seq<Pair>, sku: int) {
    exists i :: 0 <= i < |keys| && keys[i].sku == sku
  }

  lemma ListsOneMore(keys: seq<Pair>, sku: int)
    requires keys != [] && SkusAscend(keys)
    ensures SkusAscend(keys[..|keys| - 1])
    ensures Lists(keys, sku) <==> Lists(keys[..|keys| - 1], sku) || keys[|keys| - 1].sku == sku
    ensures !(Lists(keys[..|keys| - 1], sku) && keys[|keys| - 1].sku == sku)
  {
    var init := keys[..|keys| - 1];
    if Lists(keys, sku) {
      var i :| 0 <= i < |keys| && keys[i].sku == sku;
      assert i < |keys| - 1 ==> init[i].sku == sku;
    }
  }

  /** A pair leaves the shelf once per order, however the lines are listed, because its SKUs ascend. */
  lemma {:induction false} NetOfSales(warehouse: int, keys: seq<Pair>, lines: map<int, Line>, p: Pair)
    requires SkusAscend(keys)
    ensures NetMoved(Sales(warehouse, keys, lines), p)
         == if p.warehouse == warehouse && Lists(keys, p.sku) && p.sku in lines then -lines[p.sku].quantity else 0
  {
    if keys != [] {
      var init, last := keys[..|keys| - 1], keys[|keys| - 1];
      ListsOneMore(keys, p.sku);
      NetOfSales(warehouse, init, lines, p);
      assert Sales(warehouse, keys, lines) == Sales(warehouse, init, lines) + [SaleOf(warehouse, last, lines)];
      assert Sales(warehouse, keys, lines)[..|keys| - 1] == Sales(warehouse, init, lines);
    }
  }

  /** Units on the shelf that no movement explains. */
  ghost function Drift(db: Database, p: Pair): int {
    StockAt(db, p).onHand - NetMoved(db.movements, p)
  }

  /** How far an operation moves the drift of a pair. Zero except where it corrects a level outright. */
  ghost function DriftShift(db: Database, op: Op, id: int, p: Pair): int {
    if Apply(db, op, id).reply != Done then 0
    else match op
      case OpUpdateStock(pair, onHand, _) => if p == pair then onHand - db.stock[pair].onHand else 0
      case OpCountStock(pair, onHand) => if p == pair then onHand - StockAt(db, pair).onHand else 0
      case OpRemoveStock(pair) => if p == pair then -db.stock[pair].onHand else 0
      case _ => 0
  }

  lemma NetOfAnOrder(warehouse: int, order: int, lines: map<int, Line>, p: Pair)
    ensures NetMoved(Sales(warehouse, LineKeys(order, lines), lines), p)
         == if p.warehouse == warehouse && p.sku in lines then -lines[p.sku].quantity else 0
  {
    var keys := LineKeys(order, lines);
    LineKeysListTheLines(order, lines);
    forall i, j | 0 <= i < j < |keys| ensures keys[i].sku < keys[j].sku {
      assert keys[i] in keys && keys[j] in keys && Before(keys[i], keys[j]);
    }
    NetOfSales(warehouse, keys, lines, p);
    if p.sku in lines {
      assert Pair(order, p.sku) in keys;
      var i :| 0 <= i < |keys| && keys[i] == Pair(order, p.sku);
      assert Lists(keys, p.sku);
    }
  }

  lemma DriftOfShipping(db: Database, order: int, subscription: int, word: string, id: int, p: Pair)
    requires order in db.orders && AllStocked(db.stock, db.orders[order].warehouse, LinesOf(db, order))
    ensures Drift(Shipped(db, order, subscription, word, id), p) == Drift(db, p)
  {
    var warehouse, lines := db.orders[order].warehouse, LinesOf(db, order);
    NetOfConcatenation(db.movements, Sales(warehouse, LineKeys(order, lines), lines), p);
    NetOfAnOrder(warehouse, order, lines, p);
    assert p == Pair(p.warehouse, p.sku);
  }

  /** Shipped or rewound and released, `settle` leaves the shelf explained. */
  lemma DriftOfSettle(db: Database, order: int, subscription: int, word: string, charge: Charge, id: int, p: Pair)
    ensures Drift(Settle(db, order, subscription, word, charge, id).db, p) == Drift(db, p)
  {
    if Settle(db, order, subscription, word, charge, id).reply == Done {
      DriftOfShipping(db, order, subscription, word, id, p);
    }
  }

  lemma DriftOfOneMovement(db: Database, p: Pair, moved: Movement)
    ensures NetMoved(db.movements + [moved], p)
         == NetMoved(db.movements, p) + if moved.pair == p then moved.delta else 0
  {
    NetOfConcatenation(db.movements, [moved], p);
    assert [moved][..0] == [];
  }

  lemma ShelfOnlyByMovement(db: Database, op: Op, id: int, p: Pair)
    requires TouchesOrders(op) && !op.OpSettle?
    ensures Drift(Apply(db, op, id).db, p) == Drift(db, p)
  {
    if op.OpPlaceOrder? { PlacedShape(db, op.reference, op.customer, op.warehouse, op.items, id); }
  }

  /** Corrections write no movement, and move the drift by as much as they move the level. */
  lemma CorrectionsDrift(db: Database, op: Op, id: int, p: Pair)
    requires op.OpUpdateStock? || op.OpRemoveStock? || op.OpCountStock? || op.OpReserveWarehouse?
    ensures Drift(Apply(db, op, id).db, p) == Drift(db, p) + DriftShift(db, op, id, p)
  {
  }

  lemma BillingDoesNotDrift(db: Database, op: Op, id: int, p: Pair)
    requires op.OpSubscribe? || op.OpCancelSubscription? || op.OpIssueInvoice? || op.OpPayInvoice?
    ensures Drift(Apply(db, op, id).db, p) == Drift(db, p)
  {
  }

  lemma DriftMoves(db: Database, op: Op, id: int, p: Pair)
    ensures Drift(Apply(db, op, id).db, p) == Drift(db, p) + DriftShift(db, op, id, p)
  {
    match op
    case OpSettle(order, subscription, word, charge) => DriftOfSettle(db, order, subscription, word, charge, id, p);
    case OpReceive(pair, units) => DriftOfOneMovement(db, p, Movement(pair, units, Purchase));
    case OpShip(pair, units) => DriftOfOneMovement(db, p, Movement(pair, -units, Sale));
    case _ =>
      if TouchesOrders(op) {
        ShelfOnlyByMovement(db, op, id, p);
      } else if op.OpUpdateStock? || op.OpRemoveStock? || op.OpCountStock? || op.OpReserveWarehouse? {
        CorrectionsDrift(db, op, id, p);
      } else {
        BillingDoesNotDrift(db, op, id, p);
      }
  }

  /** The calls that set a level instead of moving it, when the level they set is another one. */
  ghost predicate BreaksAudit(db: Database, op: Op) {
    match op
    case OpUpdateStock(pair, onHand, reserved) =>
      0 <= onHand && 0 <= reserved && pair in db.stock && onHand != db.stock[pair].onHand
    case OpCountStock(pair, onHand) =>
      && 0 <= onHand && pair.warehouse in db.warehouses && pair.sku in db.prices
      && onHand != StockAt(db, pair).onHand
    case OpRemoveStock(pair) => pair in db.stock && !HasMoved(db, pair) && db.stock[pair].onHand != 0
    case _ => false
  }

  /** Every operation keeps the shelf equal to its history plus a constant, except exactly the calls named. */
  lemma AuditIsConservedExactly(db: Database, op: Op, id: int)
    ensures (forall p :: Drift(Apply(db, op, id).db, p) == Drift(db, p)) <==> !BreaksAudit(db, op)
  {
    forall p ensures Drift(Apply(db, op, id).db, p) == Drift(db, p) + DriftShift(db, op, id, p) {
      DriftMoves(db, op, id, p);
    }
    if BreaksAudit(db, op) {
      assert DriftShift(db, op, id, op.pair) != 0;
      assert Drift(Apply(db, op, id).db, op.pair) != Drift(db, op.pair);
    } else {
      forall p ensures DriftShift(db, op, id, p) == 0 { }
    }
  }
}
