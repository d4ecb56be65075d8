/** No oversell: what is promised is on the shelf. */
module Oversell {
  import opened Rows
  import opened Spec
  import opened Integrity

  ghost predicate Covered(stock: map<Pair, Stock>) {
    forall p :: p in stock ==> 0 <= stock[p].reserved <= stock[p].onHand
  }

  /** The calls after which some pair has promised more than it holds. `ship` looks at the shelf only, so it
      can send away units that an order is holding; the other three write a level without looking. */
  ghost predicate Oversells(db: Database, op: Op) {
    match op
    case OpShip(pair, units) =>
      0 < units && pair in db.stock && units <= db.stock[pair].onHand
      && db.stock[pair].onHand - db.stock[pair].reserved < units
    case OpUpdateStock(pair, onHand, reserved) => 0 <= onHand < reserved && pair in db.stock
    case OpCountStock(pair, onHand) =>
      0 <= onHand < StockAt(db, pair).reserved && pair.warehouse in db.warehouses && pair.sku in db.prices
    case OpReserveWarehouse(warehouse, units) =>
      0 < units && exists p ::
        p in db.stock && p.warehouse == warehouse && db.stock[p].onHand < db.stock[p].reserved + units
    case _ => false
  }

  lemma MoveKeepsCover(stock: map<Pair, Stock>, warehouse: int, lines: map<int, Line>, move: Move)
    requires Covered(stock)
    requires forall s :: s in lines ==> 0 < lines[s].quantity
    requires if move == Hold then AllAvailable(stock, warehouse, lines) else MovePasses(stock, warehouse, lines, move)
    ensures Covered(MovedStock(stock, warehouse, lines, move))
  {
    var after := MovedStock(stock, warehouse, lines, move);
    forall p | p in after ensures 0 <= after[p].reserved <= after[p].onHand {
      assert p == Pair(p.warehouse, p.sku);
    }
  }

  lemma LinesArePositive(db: Database, order: int)
    requires Consistent(db)
    ensures forall s :: s in LinesOf(db, order) ==> 0 < LinesOf(db, order)[s].quantity
  {
  }

  lemma OrderOpsKeepCover(db: Database, op: Op, id: int)
    requires Consistent(db) && Covered(db.stock) && TouchesOrders(op)
    ensures Covered(Apply(db, op, id).db.stock)
  {
    match op {
      case OpReserve(order) =>
        LinesArePositive(db, order);
        if Apply(db, op, id).reply == Done {
          MoveKeepsCover(db.stock, db.orders[order].warehouse, LinesOf(db, order), Hold);
        }
      case OpCancelOrder(order) =>
        LinesArePositive(db, order);
        if Apply(db, op, id).reply == Done && db.orders[order].state == Reserved {
          MoveKeepsCover(db.stock, db.orders[order].warehouse, LinesOf(db, order), Release);
        }
      case OpSettle(order, _, _, charge) =>
        LinesArePositive(db, order);
        if Apply(db, op, id).db != db {
          MoveKeepsCover(db.stock, db.orders[order].warehouse, LinesOf(db, order),
            if charge == Accepts then ShipHeld else Release);
        }
      case OpPlaceOrder(reference, customer, warehouse, items) =>
        PlacedShape(db, reference, customer, warehouse, items, id);
      case _ =>
    }
  }

  lemma ShelfOpsKeepCover(db: Database, op: Op, id: int)
    requires Consistent(db) && Covered(db.stock) && !TouchesOrders(op)
    ensures Covered(Apply(db, op, id).db.stock) <==> !Oversells(db, op)
  {
    var after := Apply(db, op, id).db.stock;
    if Oversells(db, op) {
      match op {
        case OpShip(pair, units) => assert after[pair].onHand < after[pair].reserved;
        case OpUpdateStock(pair, _, _) => assert after[pair].onHand < after[pair].reserved;
        case OpCountStock(pair, _) => assert after[pair].onHand < after[pair].reserved;
        case OpReserveWarehouse(warehouse, units) =>
          var p :| p in db.stock && p.warehouse == warehouse && db.stock[p].onHand < db.stock[p].reserved + units;
          assert after[p].onHand < after[p].reserved;
      }
    }
  }

  /** From a covered shelf, an operation leaves a covered shelf unless it is exactly one of the calls named. */
  lemma OversellsExactly(db: Database, op: Op, id: int)
    requires Consistent(db) && Covered(db.stock)
    ensures Covered(Apply(db, op, id).db.stock) <==> !Oversells(db, op)
  {
    if TouchesOrders(op) { OrderOpsKeepCover(db, op, id); } else { ShelfOpsKeepCover(db, op, id); }
  }

  /** A shelf of five with four promised ships three: two are left for a promise of four. */
  lemma ShipIgnoresPromises(db: Database, pair: Pair)
    requires pair in db.stock && db.stock[pair] == Stock(5, 4) && Consistent(db)
    ensures Ship(db, pair, 3).reply == Done && !Covered(Ship(db, pair, 3).db.stock)
  {
    assert Ship(db, pair, 3).db.stock[pair] == Stock(2, 4);
  }
}
