/** The stock operations that no order drives: what comes in, what goes out, and what is corrected. */
module InventoryUseCases {
  import opened Rows
  import opened Spec
  import opened ShopSession

  /** The row and the reason it moved, in one unit of work. */
  method MoveStock(session: Session, stock: StockRow, delta: int, reason: Reason) returns (ok: bool)
    requires stock.pair in session.working.stock
    modifies session`working, stock
    ensures ok <==> Admissible(old(stock.Value()).(onHand := old(stock.onHand) + delta))
    ensures ok ==> session.working == old(session.working).(
      stock := old(session.working).stock[stock.pair := old(stock.Value()).(onHand := old(stock.onHand) + delta)],
      movements := old(session.working).movements + [Movement(stock.pair, delta, reason)])
  {
    stock.onHand := stock.onHand + delta;
    ok := session.UpdateStock(stock);
    if !ok { return; }
    session.AddMovement(Movement(stock.pair, delta, reason));
  }

  /** The row of a pair, after the upsert that makes one where there was none. That upsert is committed on its own. */
  method StockToReceiveInto(session: Session, pair: Pair) returns (stock: StockRow)
    requires session.Idle() && pair.warehouse in session.committed.warehouses && pair.sku in session.committed.prices
    modifies session
    ensures session.Idle() && session.sequence == old(session.sequence)
    ensures session.committed ==
      old(session.committed).(stock := old(session.committed).stock[pair := StockAt(old(session.committed), pair)])
    ensures fresh(stock) && stock.pair == pair && stock.Value() == StockAt(old(session.committed), pair)
  {
    var found := session.FirstStock(pair);
    if found == null {
      var _ := session.UpsertStock(pair, 0);
      session.Commit();
      found := session.FirstStock(pair);
    }
    stock := found;
  }

  method Receive(session: Session, pair: Pair, units: int) returns (reply: Reply)
    requires session.Idle() && StockWellFormed(session.committed.stock)
    modifies session
    ensures session.Idle() && session.sequence == old(session.sequence)
    ensures Outcome(session.committed, reply) == Spec.Receive(old(session.committed), pair, units)
  {
    if units <= 0 {
      session.Rollback();
      return MissingFields;
    }
    if pair.warehouse !in session.working.warehouses {
      session.Rollback();
      return NotFound;
    }
    if pair.sku !in session.working.prices {
      session.Rollback();
      return NotFound;
    }
    var stock := StockToReceiveInto(session, pair);
    var _ := MoveStock(session, stock, units, Purchase);
    session.Commit();
    reply := Done;
  }

  method Ship(session: Session, pair: Pair, units: int) returns (reply: Reply)
    requires session.Idle()
    modifies session
    ensures session.Idle() && session.sequence == old(session.sequence)
    ensures Outcome(session.committed, reply) == Spec.Ship(old(session.committed), pair, units)
  {
    if units <= 0 {
      session.Rollback();
      return MissingFields;
    }
    var stock := session.FirstStock(pair);
    if stock == null {
      session.Rollback();
      return NotFound;
    }
    if stock.onHand < units {
      session.Rollback();
      return Conflict;
    }
    var ok := MoveStock(session, stock, -units, Sale);
    if !ok {
      session.Rollback();
      return Raised;
    }
    session.Commit();
    reply := Done;
  }

  method UpdateStock(session: Session, pair: Pair, onHand: int, reserved: int) returns (reply: Reply)
    requires session.Idle()
    modifies session
    ensures session.Idle() && session.sequence == old(session.sequence)
    ensures Outcome(session.committed, reply) == Spec.UpdateStock(old(session.committed), pair, onHand, reserved)
  {
    if onHand < 0 || reserved < 0 {
      session.Rollback();
      return MissingFields;
    }
    var stock := session.FirstStock(pair);
    if stock == null {
      session.Rollback();
      return NotFound;
    }
    stock.onHand := onHand;
    stock.reserved := reserved;
    var _ := session.UpdateStock(stock);
    session.Commit();
    reply := Done;
  }

  method RemoveStock(session: Session, pair: Pair) returns (reply: Reply)
    requires session.Idle()
    modifies session
    ensures session.Idle() && session.sequence == old(session.sequence)
    ensures Outcome(session.committed, reply) == Spec.RemoveStock(old(session.committed), pair)
  {
    var stock := session.FirstStock(pair);
    if stock == null {
      session.Rollback();
      return NotFound;
    }
    var moved := session.CountMovements(pair);
    if moved > 0 {
      session.Rollback();
      return Conflict;
    }
    session.DeleteStock(pair);
    session.Commit();
    reply := Done;
  }

  method CountStock(session: Session, pair: Pair, onHand: int) returns (reply: Reply)
    requires session.Idle() && StockWellFormed(session.committed.stock)
    modifies session
    ensures session.Idle() && session.sequence == old(session.sequence)
    ensures Outcome(session.committed, reply) == Spec.CountStock(old(session.committed), pair, onHand)
  {
    if onHand < 0 {
      session.Rollback();
      return MissingFields;
    }
    var ok := session.UpsertStock(pair, onHand);
    if !ok {
      session.Rollback();
      return Raised;
    }
    session.Commit();
    reply := Done;
  }

  method ReserveWarehouse(session: Session, warehouse: int, units: int) returns (reply: Reply)
    requires session.Idle()
    modifies session
    ensures session.Idle() && session.sequence == old(session.sequence)
    ensures Outcome(session.committed, reply) == Spec.ReserveWarehouse(old(session.committed), warehouse, units)
  {
    if units <= 0 {
      session.Rollback();
      return MissingFields;
    }
    session.AddToReserved(warehouse, units);
    session.Commit();
    reply := Done;
  }
}
