/** The session as the use cases drive it: one transaction over the database, a stack of savepoints, and row
instances that live on the heap and know nothing of each other or of the tables they were read from.

Two reads of one row give two instances, and `update` writes every non-key column of the instance it is
handed: rewinding a savepoint changes the tables and no instance. A method that the engine can refuse (a `CHECK`,
a foreign key, a statement that does not compile) says so in `ok`; the exception leaves the use case and the
session's own context manager rolls the transaction back.
*/
module ShopSession {
  import opened Rows
  import opened KeyOrder
  import opened Spec

  class OrderRow {
    const id: int
    var reference: string
    var state: OrderState
    var total: int
    var customer: int
    var warehouse: int
    var invoice: Option<int>

    ghost function Value(): Order
      reads this
    {
      Order(reference, state, total, customer, warehouse, invoice)
    }

    constructor (id: int, row: Order)
      ensures this.id == id && Value() == row
    {
      this.id := id;
      reference, state, total := row.reference, row.state, row.total;
      customer, warehouse, invoice := row.customer, row.warehouse, row.invoice;
    }
  }

  class StockRow {
    const pair: Pair
    var onHand: int
    var reserved: int

    function Value(): Stock
      reads this
    {
      Stock(onHand, reserved)
    }

    constructor (pair: Pair, row: Stock)
      ensures this.pair == pair && Value() == row
    {
      this.pair := pair;
      onHand, reserved := row.onHand, row.reserved;
    }
  }

  class InvoiceRow {
    const id: int
    var amountCents: int
    var paid: bool
    var subscription: int

    function Value(): Invoice
      reads this
    {
      Invoice(amountCents, paid, subscription)
    }

    constructor (id: int, row: Invoice)
      ensures this.id == id && Value() == row
    {
      this.id := id;
      amountCents, paid, subscription := row.amountCents, row.paid, row.subscription;
    }
  }

  class SubscriptionRow {
    const id: int
    var user: int
    var plan: int
    var active: bool

    function Value(): Subscription
      reads this
    {
      Subscription(user, plan, active)
    }

    constructor (id: int, row: Subscription)
      ensures this.id == id && Value() == row
    {
      this.id := id;
      user, plan, active := row.user, row.plan, row.active;
    }
  }

  /** A line as `lines_of` reads it. Operations never write one back. */
  datatype OrderLine = OrderLine(sku: int, quantity: int, unitPrice: int)

  /** The rows list the lines, each once, in some order. */
  ghost predicate RowsOf(lines: map<int, Line>, rows: seq<OrderLine>) {
    && (forall i :: 0 <= i < |rows| ==>
      rows[i].sku in lines && Line(rows[i].quantity, rows[i].unitPrice) == lines[rows[i].sku])
    && (forall s :: s in lines ==> exists i :: 0 <= i < |rows| && rows[i].sku == s)
    && (forall i, j :: 0 <= i < j < |rows| ==> rows[i].sku != rows[j].sku)
  }

  /** Row by row, the rows are the ones with these keys. */
  ghost predicate KeyedBy(keys: seq<Pair>, rows: seq<OrderLine>) {
    |rows| == |keys| && forall i :: 0 <= i < |rows| ==> rows[i].sku == keys[i].sku
  }

  /** The lines of the first `n` rows. */
  ghost function Part(lines: map<int, Line>, rows: seq<OrderLine>, n: int): map<int, Line>
    requires 0 <= n <= |rows|
  {
    map s | s in lines && exists j :: 0 <= j < n && rows[j].sku == s :: lines[s]
  }

  lemma PartGrows(lines: map<int, Line>, rows: seq<OrderLine>, n: int)
    requires RowsOf(lines, rows) && 0 <= n < |rows|
    ensures rows[n].sku !in Part(lines, rows, n)
    ensures Part(lines, rows, n + 1) == Part(lines, rows, n)[rows[n].sku := lines[rows[n].sku]]
  {
  }

  lemma PartEnds(lines: map<int, Line>, rows: seq<OrderLine>)
    requires RowsOf(lines, rows)
    ensures Part(lines, rows, 0) == map[] && Part(lines, rows, |rows|) == lines
  {
    forall s | s in lines ensures s in Part(lines, rows, |rows|) {
      var i :| 0 <= i < |rows| && rows[i].sku == s;
    }
  }

  class Session {
    var committed: Database
    var working: Database
    var savepoints: seq<Database>
    var sequence: int

    constructor (database: Database, sequence: int)
      ensures Idle() && committed == database && this.sequence == sequence
    {
      committed, working, savepoints := database, database, [];
      this.sequence := sequence;
    }

    /** Nothing in flight: what a use case is handed, and what it hands back. */
    ghost predicate Idle()
      reads this
    {
      working == committed && savepoints == []
    }

    // ---- the transaction ------------------------------------------------------------------------------------

    method Commit()
      modifies this`committed, this`savepoints
      ensures committed == working && savepoints == []
    {
      committed, savepoints := working, [];
    }

    method Rollback()
      modifies this`working, this`savepoints
      ensures working == committed && savepoints == []
    {
      working, savepoints := committed, [];
    }

    method Savepoint()
      modifies this`savepoints
      ensures savepoints == old(savepoints) + [working]
    {
      savepoints := savepoints + [working];
    }

    method RollbackToSavepoint()
      requires savepoints != []
      modifies this`working, this`savepoints
      ensures working == old(savepoints)[|old(savepoints)| - 1]
      ensures savepoints == old(savepoints)[..|old(savepoints)| - 1]
    {
      working, savepoints := savepoints[|savepoints| - 1], savepoints[..|savepoints| - 1];
    }

    method ReleaseSavepoint()
      requires savepoints != []
      modifies this`savepoints
      ensures savepoints == old(savepoints)[..|old(savepoints)| - 1]
    {
      savepoints := savepoints[..|savepoints| - 1];
    }

    // ---- reads ----------------------------------------------------------------------------------------------

    method FirstOrder(id: int) returns (row: OrderRow?)
      ensures row == null <==> id !in working.orders
      ensures row != null ==> fresh(row) && row.id == id && row.Value() == working.orders[id]
    {
      if id in working.orders { row := new OrderRow(id, working.orders[id]); } else { row := null; }
    }

    method FirstStock(pair: Pair) returns (row: StockRow?)
      ensures row == null <==> pair !in working.stock
      ensures row != null ==> fresh(row) && row.pair == pair && row.Value() == working.stock[pair]
    {
      if pair in working.stock { row := new StockRow(pair, working.stock[pair]); } else { row := null; }
    }

    method FirstInvoice(id: int) returns (row: InvoiceRow?)
      ensures row == null <==> id !in working.invoices
      ensures row != null ==> fresh(row) && row.id == id && row.Value() == working.invoices[id]
    {
      if id in working.invoices { row := new InvoiceRow(id, working.invoices[id]); } else { row := null; }
    }

    method FirstSubscription(id: int) returns (row: SubscriptionRow?)
      ensures row == null <==> id !in working.subscriptions
      ensures row != null ==> fresh(row) && row.id == id && row.Value() == working.subscriptions[id]
    {
      row := null;
      if id in working.subscriptions { row := new SubscriptionRow(id, working.subscriptions[id]); }
    }

    /** `lines_of`: the rows of an order's lines, ordered by SKU. */
    method AllLines(order: int) returns (rows: seq<OrderLine>)
      ensures RowsOf(LinesOf(working, order), rows)
      ensures KeyedBy(LineKeys(order, LinesOf(working, order)), rows)
    {
      var lines := LinesOf(working, order);
      var keys := LineKeys(order, lines);
      LineKeysListTheLines(order, lines);
      rows := [];
      for k := 0 to |keys|
        invariant |rows| == k
        invariant forall i :: 0 <= i < k ==> rows[i].sku == keys[i].sku
        invariant forall i :: 0 <= i < k ==>
          rows[i].sku in lines && Line(rows[i].quantity, rows[i].unitPrice) == lines[rows[i].sku]
      {
        assert keys[k] in keys;
        var line := lines[keys[k].sku];
        rows := rows + [OrderLine(keys[k].sku, line.quantity, line.unitPrice)];
      }
      forall s | s in lines ensures exists i :: 0 <= i < |rows| && rows[i].sku == s {
        assert Pair(order, s) in keys;
        var i :| 0 <= i < |keys| && keys[i] == Pair(order, s);
        assert rows[i].sku == s;
      }
      forall i, j | 0 <= i < j < |rows| ensures rows[i].sku != rows[j].sku {
        assert keys[i] in keys && keys[j] in keys && Before(keys[i], keys[j]);
      }
    }

    /** The locking read, keyed by SKU: one new instance for each pair that has a row. With no SKU to name there
        is no statement to send. */
    method StockBySku(warehouse: int, lines: seq<OrderLine>)
      returns (ok: bool, rows: map<int, StockRow>, ghost instances: set<StockRow>)
      ensures ok <==> lines != []
      ensures ok ==> forall s :: s in rows <==>
        Pair(warehouse, s) in working.stock && exists i :: 0 <= i < |lines| && lines[i].sku == s
      ensures fresh(instances) && forall s :: s in rows ==> rows[s] in instances && rows[s].pair == Pair(warehouse, s)
      ensures forall s :: s in rows ==>
        Pair(warehouse, s) in working.stock && rows[s].Value() == working.stock[Pair(warehouse, s)]
    {
      rows, instances := map[], {};
      if lines == [] { return false, rows, instances; }
      var skus := set i | 0 <= i < |lines| :: lines[i].sku;
      var keys := StockToTakeFrom(working.stock, warehouse, skus);
      TakesTheStockedSkus(working.stock, warehouse, skus);
      for k := 0 to |keys|
        invariant forall s :: s in rows <==> exists j :: 0 <= j < k && keys[j].sku == s
        invariant fresh(instances) && forall s :: s in rows ==>
          rows[s] in instances && rows[s].pair == Pair(warehouse, s)
        invariant forall s :: s in rows ==>
          rows[s].pair in working.stock && rows[s].Value() == working.stock[rows[s].pair]
      {
        assert keys[k] in keys;
        var row := new StockRow(keys[k], working.stock[keys[k]]);
        rows, instances := rows[keys[k].sku := row], instances + {row};
      }
      forall s | Pair(warehouse, s) in working.stock && s in skus ensures s in rows {
        assert Pair(warehouse, s) in keys;
      }
      forall s | s in rows ensures s in skus {
        var j :| 0 <= j < |keys| && keys[j].sku == s;
        assert keys[j] in keys;
      }
      ok := true;
    }

    // ---- writes ---------------------------------------------------------------------------------------------

    method UpdateOrder(row: OrderRow)
      modifies this`working
      ensures working == old(working).(orders :=
        if row.id in old(working).orders then old(working).orders[row.id := row.Value()] else old(working).orders)
    {
      if row.id in working.orders {
        var value := Order(row.reference, row.state, row.total, row.customer, row.warehouse, row.invoice);
        working := working.(orders := working.orders[row.id := value]);
      }
    }

    method UpdateStock(row: StockRow) returns (ok: bool)
      modifies this`working
      ensures ok <==> Admissible(row.Value())
      ensures working == if ok && row.pair in old(working).stock
        then old(working).(stock := old(working).stock[row.pair := row.Value()]) else old(working)
    {
      ok := Admissible(row.Value());
      if ok && row.pair in working.stock {
        working := working.(stock := working.stock[row.pair := row.Value()]);
      }
    }

    method UpdateInvoice(row: InvoiceRow)
      requires row.id in working.invoices
      modifies this`working
      ensures working == old(working).(invoices := old(working).invoices[row.id := row.Value()])
    {
      working := working.(invoices := working.invoices[row.id := row.Value()]);
    }

    method UpdateSubscription(row: SubscriptionRow)
      requires row.id in working.subscriptions
      modifies this`working
      ensures working == old(working).(subscriptions := old(working).subscriptions[row.id := row.Value()])
    {
      working := working.(subscriptions := working.subscriptions[row.id := row.Value()]);
    }

    /** The bulk `UPDATE ... SET reserved = reserved + units`: one statement, no instances. */
    method AddToReserved(warehouse: int, units: int)
      modifies this`working
      ensures working == old(working).(stock := map p | p in old(working).stock ::
        if p.warehouse == warehouse
        then old(working).stock[p].(reserved := old(working).stock[p].reserved + units) else old(working).stock[p])
    {
      working := working.(stock := map p | p in working.stock ::
        if p.warehouse == warehouse then working.stock[p].(reserved := working.stock[p].reserved + units)
        else working.stock[p]);
    }

    method AddMovement(movement: Movement)
      modifies this`working
      ensures working == old(working).(movements := old(working).movements + [movement])
    {
      working := working.(movements := working.movements + [movement]);
    }

    method AddPayment(payment: Payment)
      modifies this`working
      ensures working == old(working).(payments := old(working).payments + [payment])
    {
      working := working.(payments := working.payments + [payment]);
    }

    /** The id comes from a sequence, and a sequence does not go back when the transaction does. */
    method AddInvoice(value: Invoice) returns (ok: bool, row: InvoiceRow)
      modifies this`working, this`sequence
      ensures ok <==> value.subscription in old(working).subscriptions
      ensures sequence == old(sequence) + 1
      ensures fresh(row) && row.id == old(sequence) && row.Value() == value
      ensures working == if ok then old(working).(invoices := old(working).invoices[row.id := value]) else old(working)
    {
      ok := value.subscription in working.subscriptions;
      row := new InvoiceRow(sequence, value);
      if ok { working := working.(invoices := working.invoices[sequence := value]); }
      sequence := sequence + 1;
    }

    method AddSubscription(value: Subscription) returns (ok: bool)
      modifies this`working, this`sequence
      ensures ok <==> value.user in old(working).users && value.plan in old(working).plans
      ensures sequence == old(sequence) + 1
      ensures working == if ok then old(working).(subscriptions := old(working).subscriptions[old(sequence) := value])
        else old(working)
    {
      ok := value.user in working.users && value.plan in working.plans;
      if ok { working := working.(subscriptions := working.subscriptions[sequence := value]); }
      sequence := sequence + 1;
    }

    method AddOrder(value: Order) returns (row: OrderRow)
      modifies this`working, this`sequence
      ensures sequence == old(sequence) + 1
      ensures fresh(row) && row.id == old(sequence) && row.Value() == value
      ensures working == old(working).(orders := old(working).orders[row.id := value])
    {
      row := new OrderRow(sequence, value);
      working := working.(orders := working.orders[sequence := value]);
      sequence := sequence + 1;
    }

    /** `add_all` of an order's lines: one statement, and the `CHECK`s of every row in it. */
    method AddLines(order: int, rows: seq<OrderLine>, ghost lines: map<int, Line>) returns (ok: bool)
      requires RowsOf(lines, rows)
      modifies this`working
      ensures ok <==> forall s :: s in lines ==> 0 < lines[s].quantity && 0 <= lines[s].unitPrice
      ensures working == if ok then old(working).(lines := old(working).lines[order := lines]) else old(working)
    {
      var added: map<int, Line> := map[];
      for i := 0 to |rows|
        invariant working == old(working) && added == Part(lines, rows, i)
        invariant forall j :: 0 <= j < i ==> 0 < rows[j].quantity && 0 <= rows[j].unitPrice
      {
        PartGrows(lines, rows, i);
        assert Line(rows[i].quantity, rows[i].unitPrice) == lines[rows[i].sku];
        if rows[i].quantity <= 0 || rows[i].unitPrice < 0 { return false; }
        added := added[rows[i].sku := Line(rows[i].quantity, rows[i].unitPrice)];
      }
      PartEnds(lines, rows);
      ok := true;
      working := working.(lines := working.lines[order := added]);
    }

    method UpsertLine(order: int, sku: int, line: Line) returns (ok: bool)
      modifies this`working
      ensures ok <==> 0 < line.quantity && 0 <= line.unitPrice
      ensures working == if ok
        then old(working).(lines := old(working).lines[order := LinesOf(old(working), order)[sku := line]])
        else old(working)
    {
      ok := 0 < line.quantity && 0 <= line.unitPrice;
      if ok { working := working.(lines := working.lines[order := LinesOf(working, order)[sku := line]]); }
    }

    method DeleteLine(order: int, sku: int)
      modifies this`working
      ensures working == old(working).(lines := old(working).lines[order := LinesOf(old(working), order) - {sku}])
    {
      working := working.(lines := working.lines[order := LinesOf(working, order) - {sku}]);
    }

    method DeleteOrder(id: int)
      modifies this`working
      ensures working == old(working).(orders := old(working).orders - {id}, lines := old(working).lines - {id})
    {
      working := working.(orders := working.orders - {id}, lines := working.lines - {id});
    }

    method DeleteStock(pair: Pair)
      modifies this`working
      ensures working == old(working).(stock := old(working).stock - {pair})
    {
      working := working.(stock := working.stock - {pair});
    }

    /** The stock upsert: a new row reserves nothing, an existing one changes `on_hand` and nothing else. */
    method UpsertStock(pair: Pair, onHand: int) returns (ok: bool)
      modifies this`working
      ensures ok <==> 0 <= onHand && (pair in old(working).stock ==> 0 <= old(working).stock[pair].reserved)
                      && pair.warehouse in old(working).warehouses && pair.sku in old(working).prices
      ensures working == if ok
        then old(working).(stock := old(working).stock[pair := StockAt(old(working), pair).(onHand := onHand)])
        else old(working)
    {
      var row := StockAt(working, pair).(onHand := onHand);
      ok := Admissible(row) && pair.warehouse in working.warehouses && pair.sku in working.prices;
      if ok { working := working.(stock := working.stock[pair := row]); }
    }

    method CountMovements(pair: Pair) returns (count: int)
      ensures 0 < count <==> HasMoved(working, pair)
    {
      count := 0;
      for i := 0 to |working.movements|
        invariant 0 <= count
        invariant 0 < count <==> exists j :: 0 <= j < i && working.movements[j].pair == pair
      {
        if working.movements[i].pair == pair { count := count + 1; }
      }
    }
  }
}
