/** Several `reserve`, `settle` and `cancel_order` calls in flight at once, one statement at a time, in READ COMMITTED.

A transaction sees what is committed when each of its statements runs, and its own writes. The locking read takes the
stock rows one by one in the order of its `ORDER BY` and waits for a row another transaction holds; locks go when the
transaction ends. A refusal and the rollback that follows it are one step. The order row is not locked by the code, so
a second call on an order that is in flight is not let in.
*/
module Interleaving {
  import opened Rows
  import opened KeyOrder
  import opened Spec
  import opened Integrity
  import opened Logs
  import opened Transactions

  datatype Phase =
    | Begun
    | SawOrder(row: Order)
    | SawSubscription(row: Order)
    | Locking(row: Order, lines: map<int, Line>, held: map<Pair, Stock>, left: seq<Pair>)
    | Writing(row: Order, lines: map<int, Line>, read: map<Pair, Stock>, id: int, mine: Private, todo: seq<Stmt>)

  datatype Txn = Txn(op: Op, phase: Phase)

  /** `log` is in the order transactions ended in; `sequence` is the invoices' and does not go back. */
  datatype System = System(db: Database, sequence: int, txns: map<int, Txn>, log: seq<Entry>)

  datatype Action = Start(tid: int, op: Op) | Go(tid: int)

  function Holding(txn: Txn): set<Pair> {
    match txn.phase
    case Locking(_, _, held, _) => held.Keys
    case Writing(_, _, read, _, _, _) => read.Keys
    case _ => {}
  }

  /** `t` asks for a row that `u` holds. */
  predicate WaitsFor(s: System, t: int, u: int) {
    && t in s.txns && u in s.txns && t != u
    && s.txns[t].phase.Locking? && s.txns[t].phase.left != []
    && s.txns[t].phase.left[0] in Holding(s.txns[u])
  }

  predicate Waits(s: System, t: int) {
    exists u :: u in s.txns && WaitsFor(s, t, u)
  }

  function Ended(s: System, t: int, id: int, reply: Reply): System
    requires t in s.txns
  {
    s.(txns := s.txns - {t}, log := s.log + [Entry(Event(s.txns[t].op, id), reply)])
  }

  function Moving(s: System, t: int, phase: Phase): System
    requires t in s.txns
  {
    s.(txns := s.txns[t := s.txns[t].(phase := phase)])
  }

  function StartWriting(s: System, t: int, row: Order, lines: map<int, Line>, read: map<Pair, Stock>, id: int): System
    requires t in s.txns && TakesStock(s.txns[t].op)
  {
    Moving(s, t, Writing(row, lines, read, id, Fresh(read), Plan(s.txns[t].op, row, lines, read, id)))
  }

  /** The state an order has to be in for the call to go past reading it. */
  predicate RightState(op: Op, state: OrderState)
    requires TakesStock(op)
  {
    match op
    case OpReserve(_) => state == Draft
    case OpCancelOrder(_) => Open(state)
    case OpSettle(_, _, _, _) => state == Reserved
  }

  function ReadOrder(s: System, t: int): System
    requires t in s.txns && TakesStock(s.txns[t].op)
  {
    var op := s.txns[t].op;
    if op.order !in s.db.orders then Ended(s, t, 0, NotFound)
    else
      var row := s.db.orders[op.order];
      if !RightState(op, row.state) then Ended(s, t, 0, Conflict)
      else if !TakesLines(op, row) then StartWriting(s, t, row, map[], map[], 0)
      else Moving(s, t, SawOrder(row))
  }

  function ReadSubscription(s: System, t: int, row: Order): System
    requires t in s.txns && s.txns[t].op.OpSettle?
  {
    var op := s.txns[t].op;
    if op.subscription !in s.db.subscriptions then Ended(s, t, 0, NotFound)
    else if s.db.subscriptions[op.subscription].user != row.customer then Ended(s, t, 0, Conflict)
    else Moving(s, t, SawSubscription(row))
  }

  /** Reads the lines and opens the locking read. */
  function ReadLines(s: System, t: int, row: Order): System
    requires t in s.txns && TakesStock(s.txns[t].op)
  {
    var op := s.txns[t].op;
    var lines := LinesOf(s.db, op.order);
    if lines == map[] then Ended(s, t, 0, if op.OpReserve? then Conflict else Raised)
    else Moving(s, t, Locking(row, lines, map[], StockToTakeFrom(s.db.stock, row.warehouse, lines.Keys)))
  }

  function TakeRow(s: System, t: int): System
    requires t in s.txns && s.txns[t].phase.Locking? && s.txns[t].phase.left != []
  {
    if Waits(s, t) then s
    else
      var phase := s.txns[t].phase;
      Moving(s, t, phase.(held := phase.held[phase.left[0] := StockAt(s.db, phase.left[0])], left := phase.left[1..]))
  }

  /** Every row is held: the check, over all of them, before anything is written. */
  ghost function Decide(s: System, t: int): System
    requires t in s.txns && TakesStock(s.txns[t].op) && s.txns[t].phase.Locking?
  {
    var op, phase := s.txns[t].op, s.txns[t].phase;
    match op
    case OpReserve(_) =>
      if AllAvailable(phase.held, phase.row.warehouse, phase.lines)
      then StartWriting(s, t, phase.row, phase.lines, phase.held, 0) else Ended(s, t, 0, Conflict)
    case OpCancelOrder(_) => StartWriting(s, t, phase.row, phase.lines, phase.held, 0)
    case OpSettle(_, _, _, _) =>
      if AllStocked(phase.held, phase.row.warehouse, phase.lines)
      then StartWriting(s.(sequence := s.sequence + 1), t, phase.row, phase.lines, phase.held, s.sequence)
      else Ended(s, t, 0, Conflict)
  }

  /** The next write, or the commit once there is none left. */
  function Write(s: System, t: int): System
    requires t in s.txns && s.txns[t].phase.Writing?
  {
    var phase := s.txns[t].phase;
    if phase.todo == [] then
      Ended(s.(db := Merge(s.db, phase.mine.own)), t, phase.id, PlannedReply(s.txns[t].op))
    else
      match Exec(s.db.stock, phase.mine, phase.todo[0])
      case None => Ended(s, t, phase.id, Raised)
      case Some(next) => Moving(s, t, phase.(mine := next, todo := phase.todo[1..]))
  }

  ghost function Advance(s: System, t: int): System
    requires t in s.txns && TakesStock(s.txns[t].op)
  {
    match s.txns[t].phase
    case Begun => ReadOrder(s, t)
    case SawOrder(row) => if s.txns[t].op.OpSettle? then ReadSubscription(s, t, row) else ReadLines(s, t, row)
    case SawSubscription(row) => ReadLines(s, t, row)
    case Locking(_, _, _, left) => if left != [] then TakeRow(s, t) else Decide(s, t)
    case Writing(_, _, _, _, _, _) => Write(s, t)
  }

  predicate Admits(s: System, tid: int, op: Op) {
    && tid !in s.txns && TakesStock(op)
    && forall u :: u in s.txns && TakesStock(s.txns[u].op) ==> s.txns[u].op.order != op.order
  }

  /** What the scheduler does: any action at any moment. One that cannot be taken now changes nothing. */
  ghost function Do(s: System, action: Action): System {
    match action
    case Start(tid, op) => if Admits(s, tid, op) then s.(txns := s.txns[tid := Txn(op, Begun)]) else s
    case Go(tid) => if tid in s.txns && TakesStock(s.txns[tid].op) then Advance(s, tid) else s
  }

  ghost function Play(s: System, schedule: seq<Action>): System {
    if schedule == [] then s else Do(Play(s, schedule[..|schedule| - 1]), schedule[|schedule| - 1])
  }

  ghost predicate Initial(s: System) {
    s.txns == map[] && s.log == [] && forall i :: i in s.db.invoices ==> i < s.sequence
  }

  // ---- what holds of one transaction ------------------------------------------------------------------------

  ghost predicate Saw(db: Database, op: Op, row: Order)
    requires TakesStock(op)
  {
    op.order in db.orders && db.orders[op.order] == row && RightState(op, row.state) && TakesLines(op, row)
  }

  ghost predicate OwnSubscription(db: Database, op: Op, row: Order) {
    op.OpSettle? ==> op.subscription in db.subscriptions && db.subscriptions[op.subscription].user == row.customer
  }

  /** Rows are taken in ascending order; what is held reads as the table does; held and still to take make up
      exactly the rows wanted. */
  ghost predicate LocksInOrder(
    stock: map<Pair, Stock>, row: Order, lines: map<int, Line>, held: map<Pair, Stock>, left: seq<Pair>)
  {
    && Ascending(left)
    && (forall p :: p in held || p in left <==> Wanted(stock, row, lines, p))
    && (forall p :: p in held ==> stock[p] == held[p])
    && (forall p, q :: p in held && q in left ==> Before(p, q))
  }

  ghost predicate Upholds(db: Database, txn: Txn) {
    && TakesStock(txn.op)
    && match txn.phase
       case Begun => true
       case SawOrder(row) => Saw(db, txn.op, row)
       case SawSubscription(row) => Saw(db, txn.op, row) && OwnSubscription(db, txn.op, row)
       case Locking(row, lines, held, left) =>
         && Saw(db, txn.op, row) && OwnSubscription(db, txn.op, row)
         && lines == LinesOf(db, txn.op.order) && lines != map[]
         && LocksInOrder(db.stock, row, lines, held, left)
       case Writing(row, lines, read, id, mine, todo) =>
         && Agrees(db, txn.op, row, lines, read) && Decided(db, txn.op, row, lines, read)
         && (forall p :: p in read ==> p in db.stock && db.stock[p] == read[p])
         && mine.instances.Keys == read.Keys
         && Finish(read, mine, todo) == Finish(read, Fresh(read), Plan(txn.op, row, lines, read, id))
  }

  /** A commit that is no business of the others: one order, the rows locked for it, and no subscription. */
  ghost predicate Isolated(db: Database, after: Database, order: int, locked: set<Pair>) {
    && after.stock.Keys == db.stock.Keys
    && (forall p :: p in db.stock && p !in locked ==> after.stock[p] == db.stock[p])
    && after.subscriptions == db.subscriptions
    && (forall o :: o != order ==>
          (o in after.orders <==> o in db.orders)
          && (o in db.orders ==> after.orders[o] == db.orders[o])
          && LinesOf(after, o) == LinesOf(db, o))
  }

  lemma OthersKeepWhatTheySaw(db: Database, after: Database, order: int, locked: set<Pair>, txn: Txn)
    requires Upholds(db, txn) && txn.op.order != order && Isolated(db, after, order, locked)
    requires Holding(txn) !! locked
    ensures Upholds(after, txn)
  {
    match txn.phase
    case Locking(row, lines, held, left) =>
      forall p ensures Wanted(after.stock, row, lines, p) <==> Wanted(db.stock, row, lines, p) {
        assert p in after.stock.Keys <==> p in db.stock.Keys;
      }
    case Writing(row, lines, read, _, _, _) =>
      forall p ensures Wanted(after.stock, row, lines, p) <==> Wanted(db.stock, row, lines, p) {
        assert p in after.stock.Keys <==> p in db.stock.Keys;
      }
    case _ =>
  }

  lemma StockOutsideLocks(
    db: Database, op: Op, row: Order, lines: map<int, Line>, read: map<Pair, Stock>, id: int, p: Pair)
    requires TakesStock(op) && Agrees(db, op, row, lines, read)
    ensures var after := Apply(db, op, id).db;
      && (p in after.stock <==> p in db.stock)
      && (p in db.stock && p !in read ==> after.stock[p] == db.stock[p])
  {
    if p in db.stock && p.warehouse == row.warehouse && p.sku in lines { assert Wanted(db.stock, row, lines, p); }
  }

  lemma CommitIsIsolated(db: Database, op: Op, row: Order, lines: map<int, Line>, read: map<Pair, Stock>, id: int)
    requires TakesStock(op) && Agrees(db, op, row, lines, read)
    ensures Isolated(db, Apply(db, op, id).db, op.order, read.Keys)
  {
    var after := Apply(db, op, id).db;
    forall o | o != op.order
      ensures o in after.orders <==> o in db.orders
      ensures o in db.orders ==> after.orders[o] == db.orders[o]
      ensures LinesOf(after, o) == LinesOf(db, o)
    {
      OnlyTheTargetChanges(db, op, id, o);
    }
    forall p
      ensures p in after.stock <==> p in db.stock
      ensures p in db.stock && p !in read ==> after.stock[p] == db.stock[p]
    {
      StockOutsideLocks(db, op, row, lines, read, id, p);
    }
    SubscriptionsStay(db, op, id);
  }

  lemma SubscriptionsStay(db: Database, op: Op, id: int)
    requires TakesStock(op)
    ensures Apply(db, op, id).db.subscriptions == db.subscriptions
  {
  }

  // ---- what holds of all of them together -------------------------------------------------------------------

  ghost predicate AllUphold(s: System) {
    forall t :: t in s.txns ==> Upholds(s.db, s.txns[t])
  }

  ghost predicate OnePerOrder(s: System) {
    forall t, u :: t in s.txns && u in s.txns && t != u && TakesStock(s.txns[t].op) && TakesStock(s.txns[u].op) ==>
      s.txns[t].op.order != s.txns[u].op.order
  }

  /** No row is held twice. */
  ghost predicate Exclusive(s: System) {
    forall t, u :: t in s.txns && u in s.txns && t != u ==> Holding(s.txns[t]) !! Holding(s.txns[u])
  }

  /** The id a transaction has drawn for the invoice it is about to commit. */
  function Drawn(txn: Txn): Option<int> {
    if txn.op.OpSettle? && txn.phase.Writing? then Some(txn.phase.id) else None
  }

  predicate Unused(s: System, drawn: Option<int>) {
    drawn.Some? ==> drawn.value < s.sequence && drawn.value !in s.db.invoices
  }

  predicate Apart(a: Option<int>, b: Option<int>) {
    a == None || a != b
  }

  /** No id is handed out twice, whatever the order of the commits. */
  ghost predicate IdsApart(s: System) {
    && (forall i :: i in s.db.invoices ==> i < s.sequence)
    && (forall t :: t in s.txns ==> Unused(s, Drawn(s.txns[t])))
    && (forall t, u :: t in s.txns && u in s.txns && t != u ==> Apart(Drawn(s.txns[t]), Drawn(s.txns[u])))
  }

  ghost predicate Sound(start: Database, s: System) {
    AllUphold(s) && OnePerOrder(s) && Exclusive(s) && IdsApart(s) && Serial(start, s.log, s.db)
  }

  lemma MovingKeepsExclusive(s: System, t: int, phase: Phase)
    requires Exclusive(s) && t in s.txns
    requires forall u :: u in s.txns && u != t ==> Holding(s.txns[t].(phase := phase)) !! Holding(s.txns[u])
    ensures Exclusive(Moving(s, t, phase))
  {
  }

  lemma MovingKeepsIdsApart(s: System, t: int, phase: Phase)
    requires IdsApart(s) && t in s.txns
    requires forall u :: u in s.txns && u != t ==> Apart(Drawn(s.txns[t].(phase := phase)), Drawn(s.txns[u]))
    requires Unused(s, Drawn(s.txns[t].(phase := phase)))
    ensures IdsApart(Moving(s, t, phase))
  {
  }

  /** A transaction moves on without touching the database. */
  lemma MovingKeeps(start: Database, s: System, t: int, phase: Phase)
    requires Sound(start, s) && t in s.txns
    requires Upholds(s.db, s.txns[t].(phase := phase))
    requires forall u :: u in s.txns && u != t ==> Holding(s.txns[t].(phase := phase)) !! Holding(s.txns[u])
    requires forall u :: u in s.txns && u != t ==> Apart(Drawn(s.txns[t].(phase := phase)), Drawn(s.txns[u]))
    requires Unused(s, Drawn(s.txns[t].(phase := phase)))
    ensures Sound(start, Moving(s, t, phase))
  {
    MovingKeepsExclusive(s, t, phase);
    MovingKeepsIdsApart(s, t, phase);
  }

  /** A transaction ends having changed nothing. */
  lemma RefusalKeeps(start: Database, s: System, t: int, id: int, reply: Reply)
    requires Sound(start, s) && t in s.txns
    requires Apply(s.db, s.txns[t].op, id) == Outcome(s.db, reply)
    ensures Sound(start, Ended(s, t, id, reply))
  {
    SerialOneMore(start, s.log, s.db, Entry(Event(s.txns[t].op, id), reply));
  }

  lemma ReadOrderKeeps(start: Database, s: System, t: int)
    requires Sound(start, s) && t in s.txns && s.txns[t].phase == Begun
    ensures Sound(start, ReadOrder(s, t))
  {
    var op := s.txns[t].op;
    if op.order !in s.db.orders {
      RefusalKeeps(start, s, t, 0, NotFound);
    } else {
      var row := s.db.orders[op.order];
      if !RightState(op, row.state) {
        RefusalKeeps(start, s, t, 0, Conflict);
      } else if TakesLines(op, row) {
        MovingKeeps(start, s, t, SawOrder(row));
      } else {
        MovingKeeps(start, s, t, Writing(row, map[], map[], 0, Fresh(map[]), Plan(op, row, map[], map[], 0)));
      }
    }
  }

  lemma ReadSubscriptionKeeps(start: Database, s: System, t: int, row: Order)
    requires Sound(start, s) && t in s.txns && s.txns[t].phase == SawOrder(row) && s.txns[t].op.OpSettle?
    ensures Sound(start, ReadSubscription(s, t, row))
  {
    var op := s.txns[t].op;
    if op.subscription !in s.db.subscriptions {
      RefusalKeeps(start, s, t, 0, NotFound);
    } else if s.db.subscriptions[op.subscription].user != row.customer {
      RefusalKeeps(start, s, t, 0, Conflict);
    } else {
      MovingKeeps(start, s, t, SawSubscription(row));
    }
  }

  lemma ReadLinesKeeps(start: Database, s: System, t: int, row: Order)
    requires Sound(start, s) && t in s.txns && Saw(s.db, s.txns[t].op, row) && OwnSubscription(s.db, s.txns[t].op, row)
    requires !s.txns[t].phase.Writing?
    ensures Sound(start, ReadLines(s, t, row))
  {
    var op := s.txns[t].op;
    var lines := LinesOf(s.db, op.order);
    if lines == map[] {
      RefusalKeeps(start, s, t, 0, if op.OpReserve? then Conflict else Raised);
    } else {
      TakesTheStockedSkus(s.db.stock, row.warehouse, lines.Keys);
      MovingKeeps(start, s, t, Locking(row, lines, map[], StockToTakeFrom(s.db.stock, row.warehouse, lines.Keys)));
    }
  }

  lemma TakeRowKeeps(start: Database, s: System, t: int)
    requires Sound(start, s) && t in s.txns && s.txns[t].phase.Locking? && s.txns[t].phase.left != []
    ensures Sound(start, TakeRow(s, t))
  {
    if !Waits(s, t) {
      var phase := s.txns[t].phase;
      var key, rest := phase.left[0], phase.left[1..];
      var next := phase.(held := phase.held[key := StockAt(s.db, key)], left := rest);
      assert phase.left == [key] + rest;
      assert key in phase.left;
      forall u | u in s.txns && u != t ensures Holding(s.txns[t].(phase := next)) !! Holding(s.txns[u]) {
        assert !WaitsFor(s, t, u);
      }
      assert Wanted(s.db.stock, phase.row, phase.lines, key);
      assert LocksInOrder(s.db.stock, next.row, next.lines, next.held, next.left);
      MovingKeeps(start, s, t, next);
    }
  }

  /** What is held is all that was wanted: the transaction's copies and the table agree. */
  lemma AllLockedAgrees(db: Database, txn: Txn)
    requires Upholds(db, txn) && txn.phase.Locking? && txn.phase.left == []
    ensures Agrees(db, txn.op, txn.phase.row, txn.phase.lines, txn.phase.held)
    ensures AllStocked(txn.phase.held, txn.phase.row.warehouse, txn.phase.lines)
        <==> AllStocked(db.stock, txn.phase.row.warehouse, txn.phase.lines)
    ensures AllAvailable(txn.phase.held, txn.phase.row.warehouse, txn.phase.lines)
        <==> AllAvailable(db.stock, txn.phase.row.warehouse, txn.phase.lines)
  {
    var phase := txn.phase;
    forall s | s in phase.lines
      ensures Pair(phase.row.warehouse, s) in phase.held <==> Pair(phase.row.warehouse, s) in db.stock
      ensures Pair(phase.row.warehouse, s) in phase.held ==>
        phase.held[Pair(phase.row.warehouse, s)] == db.stock[Pair(phase.row.warehouse, s)]
    {
      assert Pair(phase.row.warehouse, s) in db.stock ==>
        Wanted(db.stock, phase.row, phase.lines, Pair(phase.row.warehouse, s));
    }
  }

  /** Drawing an id: nobody has it, and nobody else will. */
  lemma DrawKeeps(start: Database, s: System)
    requires Sound(start, s)
    ensures Sound(start, s.(sequence := s.sequence + 1))
    ensures s.sequence !in s.db.invoices && forall u :: u in s.txns ==> Apart(Some(s.sequence), Drawn(s.txns[u]))
  {
  }

  lemma StartWritingKeeps(start: Database, s: System, t: int, id: int)
    requires Sound(start, s) && t in s.txns && s.txns[t].phase.Locking? && s.txns[t].phase.left == []
    requires var phase := s.txns[t].phase; Decided(s.db, s.txns[t].op, phase.row, phase.lines, phase.held)
    requires s.txns[t].op.OpSettle? ==>
      Unused(s, Some(id)) && forall u :: u in s.txns ==> Apart(Some(id), Drawn(s.txns[u]))
    ensures var phase := s.txns[t].phase; Sound(start, StartWriting(s, t, phase.row, phase.lines, phase.held, id))
  {
    var op, phase := s.txns[t].op, s.txns[t].phase;
    AllLockedAgrees(s.db, s.txns[t]);
    MovingKeeps(start, s, t, Writing(phase.row, phase.lines, phase.held, id, Fresh(phase.held),
      Plan(op, phase.row, phase.lines, phase.held, id)));
  }

  lemma DecideKeeps(start: Database, s: System, t: int)
    requires Sound(start, s) && t in s.txns && s.txns[t].phase.Locking? && s.txns[t].phase.left == []
    ensures Sound(start, Decide(s, t))
  {
    var op, phase := s.txns[t].op, s.txns[t].phase;
    AllLockedAgrees(s.db, s.txns[t]);
    match op
    case OpReserve(_) =>
      if AllAvailable(phase.held, phase.row.warehouse, phase.lines) {
        StartWritingKeeps(start, s, t, 0);
      } else {
        RefusalKeeps(start, s, t, 0, Conflict);
      }
    case OpCancelOrder(_) => StartWritingKeeps(start, s, t, 0);
    case OpSettle(_, _, _, _) =>
      if AllStocked(phase.held, phase.row.warehouse, phase.lines) {
        DrawKeeps(start, s);
        StartWritingKeeps(start, s.(sequence := s.sequence + 1), t, s.sequence);
      } else {
        RefusalKeeps(start, s, t, 0, Conflict);
      }
  }

  /** A statement reads the table only through rows the transaction holds, so it does what it would have done had
      nobody else been there. */
  lemma ExecUnderLocks(db: Database, txn: Txn)
    requires Upholds(db, txn) && txn.phase.Writing? && txn.phase.todo != []
    ensures Exec(db.stock, txn.phase.mine, txn.phase.todo[0]) == Exec(txn.phase.read, txn.phase.mine, txn.phase.todo[0])
    ensures var next := Exec(db.stock, txn.phase.mine, txn.phase.todo[0]);
      next.Some? ==> next.value.instances.Keys == txn.phase.mine.instances.Keys
  {
    assert Reloaded(db.stock, txn.phase.mine) == Reloaded(txn.phase.read, txn.phase.mine);
  }

  lemma StatementKeeps(start: Database, s: System, t: int)
    requires Sound(start, s) && t in s.txns && s.txns[t].phase.Writing? && s.txns[t].phase.todo != []
    ensures Sound(start, Write(s, t))
  {
    var op, phase := s.txns[t].op, s.txns[t].phase;
    ExecUnderLocks(s.db, s.txns[t]);
    match Exec(s.db.stock, phase.mine, phase.todo[0])
    case None =>
      PlanMeets(s.db, op, phase.row, phase.lines, phase.read, phase.id);
      RefusalKeeps(start, s, t, phase.id, Raised);
    case Some(next) =>
      var later := phase.(mine := next, todo := phase.todo[1..]);
      assert Drawn(s.txns[t].(phase := later)) == Drawn(s.txns[t]);
      MovingKeeps(start, s, t, later);
  }

  lemma OnlyTheDrawnIdIsNew(db: Database, txn: Txn, id: int)
    requires TakesStock(txn.op) && txn.phase.Writing? && txn.phase.id == id
    ensures forall i :: i in Apply(db, txn.op, id).db.invoices ==> i in db.invoices || Drawn(txn) == Some(i)
  {
  }

  /** After the commit nobody else's view has moved, and the ids are still apart. */
  lemma CommitLeavesOthers(s: System, t: int, after: System)
    requires AllUphold(s) && OnePerOrder(s) && Exclusive(s) && IdsApart(s)
    requires t in s.txns && s.txns[t].phase.Writing?
    requires after.txns == s.txns - {t} && after.sequence == s.sequence
    requires after.db == Apply(s.db, s.txns[t].op, s.txns[t].phase.id).db
    ensures AllUphold(after) && IdsApart(after)
  {
    var op, phase := s.txns[t].op, s.txns[t].phase;
    CommitIsIsolated(s.db, op, phase.row, phase.lines, phase.read, phase.id);
    OnlyTheDrawnIdIsNew(s.db, s.txns[t], phase.id);
    assert Unused(s, Drawn(s.txns[t]));
    forall u | u in after.txns ensures Upholds(after.db, after.txns[u]) {
      OthersKeepWhatTheySaw(s.db, after.db, op.order, phase.read.Keys, s.txns[u]);
    }
  }

  lemma CommitKeeps(start: Database, s: System, t: int)
    requires Sound(start, s) && t in s.txns && s.txns[t].phase.Writing? && s.txns[t].phase.todo == []
    ensures Sound(start, Write(s, t))
    ensures Write(s, t).db == Apply(s.db, s.txns[t].op, s.txns[t].phase.id).db
  {
    var op, phase := s.txns[t].op, s.txns[t].phase;
    PlanMeets(s.db, op, phase.row, phase.lines, phase.read, phase.id);
    SerialOneMore(start, s.log, s.db, Entry(Event(op, phase.id), PlannedReply(op)));
    CommitLeavesOthers(s, t, Write(s, t));
  }

  lemma AdvanceKeeps(start: Database, s: System, t: int)
    requires Sound(start, s) && t in s.txns && TakesStock(s.txns[t].op)
    ensures Sound(start, Advance(s, t))
  {
    match s.txns[t].phase
    case Begun => ReadOrderKeeps(start, s, t);
    case SawOrder(row) =>
      if s.txns[t].op.OpSettle? { ReadSubscriptionKeeps(start, s, t, row); } else { ReadLinesKeeps(start, s, t, row); }
    case SawSubscription(row) => ReadLinesKeeps(start, s, t, row);
    case Locking(_, _, _, left) => if left != [] { TakeRowKeeps(start, s, t); } else { DecideKeeps(start, s, t); }
    case Writing(_, _, _, _, _, todo) =>
      if todo != [] { StatementKeeps(start, s, t); } else { CommitKeeps(start, s, t); }
  }

  lemma StartKeeps(start: Database, s: System, tid: int, op: Op)
    requires Sound(start, s)
    ensures Sound(start, Do(s, Start(tid, op)))
  {
  }

  /** Everything above holds in every state a scheduler can reach. */
  lemma {:induction false} PlayKeeps(s: System, schedule: seq<Action>)
    requires Initial(s)
    ensures Sound(s.db, Play(s, schedule))
    decreases |schedule|
  {
    if schedule != [] {
      var before, action := Play(s, schedule[..|schedule| - 1]), schedule[|schedule| - 1];
      PlayKeeps(s, schedule[..|schedule| - 1]);
      match action
      case Start(tid, op) => StartKeeps(s.db, before, tid, op);
      case Go(tid) => if tid in before.txns && TakesStock(before.txns[tid].op) { AdvanceKeeps(s.db, before, tid); }
    }
  }
}
