/** What the interleavings amount to: they are serial, they lose no update and oversell nothing, and they cannot
deadlock. Each statement is about every schedule from every initial state. */
module Concurrency {
  import opened Rows
  import opened Sums
  import opened KeyOrder
  import opened Spec
  import opened Integrity
  import opened Holds
  import opened Oversell
  import opened Transactions
  import opened Interleaving
  import opened Logs
  import Runs

  // ---- serializability --------------------------------------------------------------------------------------

  /** Any interleaving commits the database of the calls made one after another in the order they ended, and
      every call answers what it would have answered there. */
  lemma Serializable(s: System, schedule: seq<Action>)
    requires Initial(s)
    ensures var end := Play(s, schedule);
      Serial(s.db, end.log, end.db) && end.db == Run(s.db, EventsOf(end.log))
  {
    PlayKeeps(s, schedule);
    SerialIsARun(s.db, Play(s, schedule).log, Play(s, schedule).db);
  }

  // ---- no lost update, no oversell --------------------------------------------------------------------------

  /** The copy a transaction holds of a locked row. */
  function CopyOf(txn: Txn, p: Pair): Stock
    requires p in Holding(txn)
  {
    match txn.phase
    case Locking(_, _, held, _) => held[p]
    case Writing(_, _, read, _, _, _) => read[p]
  }

  /** From the lock to the end of the transaction the committed row is the one that was read, and nobody else
      has it. */
  lemma NoLostUpdate(s: System, schedule: seq<Action>, t: int, p: Pair)
    requires Initial(s) && t in Play(s, schedule).txns && p in Holding(Play(s, schedule).txns[t])
    ensures var now := Play(s, schedule);
      && p in now.db.stock && now.db.stock[p] == CopyOf(now.txns[t], p)
      && forall u :: u in now.txns && p in Holding(now.txns[u]) ==> u == t
  {
    PlayKeeps(s, schedule);
    var now := Play(s, schedule);
    assert Upholds(now.db, now.txns[t]);
    if now.txns[t].phase.Locking? {
      assert Wanted(now.db.stock, now.txns[t].phase.row, now.txns[t].phase.lines, p);
    }
    assert forall u :: u in now.txns && u != t ==> Holding(now.txns[t]) !! Holding(now.txns[u]);
  }

  ghost predicate Healthy(db: Database) {
    Consistent(db) && HoldConsistent(db) && Covered(db.stock)
  }

  lemma CallKeepsHealthy(db: Database, op: Op, id: int)
    requires Healthy(db) && TakesStock(op)
    ensures Healthy(Apply(db, op, id).db)
  {
    ConstraintsHold(db, op, id);
    OversellsExactly(db, op, id);
    if op.OpCancelOrder? && op.order in db.orders && db.orders[op.order].state == Reserved {
      Runs.HeldOrdersAreCovered(db, op.order);
    }
    forall p ensures Slack(Apply(db, op, id).db, p) == 0 {
      assert Slack(db, p) == 0;
      match op
      case OpReserve(order) => SlackOfReserve(db, order, p);
      case OpCancelOrder(order) => SlackOfCancel(db, order, id, p);
      case OpSettle(order, subscription, word, charge) => SlackOfSettle(db, order, subscription, word, charge, id, p);
    }
  }

  ghost predicate OnlyStockCalls(log: seq<Entry>) {
    forall i :: 0 <= i < |log| ==> TakesStock(log[i].event.op)
  }

  lemma {:induction false} SerialKeepsHealthy(db: Database, log: seq<Entry>, final: Database)
    requires Serial(db, log, final) && Healthy(db) && OnlyStockCalls(log)
    ensures Healthy(final)
    decreases |log|
  {
    if log != [] {
      assert TakesStock(log[0].event.op);
      CallKeepsHealthy(db, log[0].event.op, log[0].event.id);
      SerialKeepsHealthy(Apply(db, log[0].event.op, log[0].event.id).db, log[1..], final);
    }
  }

  lemma AdvanceLogs(s: System, t: int)
    requires t in s.txns && TakesStock(s.txns[t].op) && OnlyStockCalls(s.log)
    ensures OnlyStockCalls(Advance(s, t).log)
  {
  }

  lemma {:induction false} PlayLogsStockCalls(s: System, schedule: seq<Action>)
    requires Initial(s)
    ensures OnlyStockCalls(Play(s, schedule).log)
    decreases |schedule|
  {
    if schedule != [] {
      var before, action := Play(s, schedule[..|schedule| - 1]), schedule[|schedule| - 1];
      PlayLogsStockCalls(s, schedule[..|schedule| - 1]);
      if action.Go? && action.tid in before.txns && TakesStock(before.txns[action.tid].op) {
        AdvanceLogs(before, action.tid);
      }
    }
  }

  /** From a start where every hold has its order and every promise is on the shelf, both are so in every committed
      state of every interleaving, and no constraint is ever broken. */
  lemma NoOversell(s: System, schedule: seq<Action>)
    requires Initial(s) && Healthy(s.db)
    ensures Healthy(Play(s, schedule).db)
  {
    PlayKeeps(s, schedule);
    PlayLogsStockCalls(s, schedule);
    SerialKeepsHealthy(s.db, Play(s, schedule).log, Play(s, schedule).db);
  }

  /** Commits come in any order, not the order the ids were drawn in: still no commit writes over an invoice. */
  lemma NoInvoiceIsOverwritten(s: System, schedule: seq<Action>, action: Action, invoice: int)
    requires Initial(s) && invoice in Play(s, schedule).db.invoices
    ensures var before, after := Play(s, schedule).db, Do(Play(s, schedule), action).db;
      invoice in after.invoices && after.invoices[invoice] == before.invoices[invoice]
  {
    PlayKeeps(s, schedule);
    var before := Play(s, schedule);
    if action.Go? && action.tid in before.txns && TakesStock(before.txns[action.tid].op) {
      var t := action.tid;
      var txn := before.txns[t];
      if txn.phase.Writing? && txn.phase.todo == [] {
        CommitKeeps(s.db, before, t);
        assert Unused(before, Drawn(txn));
        InvoiceStays(before.db, txn, invoice);
      }
    }
  }

  lemma InvoiceStays(db: Database, txn: Txn, invoice: int)
    requires TakesStock(txn.op) && txn.phase.Writing? && invoice in db.invoices && Drawn(txn) != Some(invoice)
    ensures var after := Apply(db, txn.op, txn.phase.id).db;
      invoice in after.invoices && after.invoices[invoice] == db.invoices[invoice]
  {
  }

  /** The database as a call believes it to be that read the order's row before somebody else changed it. */
  function Believed(db: Database, order: int, row: Order): Database {
    db.(orders := db.orders[order := row])
  }

  /** Why one call an order: the order row is not locked, and a second `reserve` that read the order before the first
      committed goes on, on the rows as they now are, to hold every line again. */
  lemma StaleReserveHoldsTwice(
    db: Database, order: int, row: Order, lines: map<int, Line>, read: map<Pair, Stock>, id: int, p: Pair)
    requires row.state == Draft && order in db.orders && db.orders[order] == row.(state := Reserved)
    requires Agrees(Believed(db, order, row), OpReserve(order), row, lines, read)
    requires Decided(Believed(db, order, row), OpReserve(order), row, lines, read)
    requires MovePasses(db.stock, row.warehouse, lines, Hold)
    ensures var second := Finish(read, Fresh(read), Plan(OpReserve(order), row, lines, read, id));
      second.Some? && Slack(Merge(db, second.value.own), p) == Slack(db, p) + HeldFor(db, order, p)
  {
    var seen := Believed(db, order, row);
    SeenBefore(db, seen, order, row, p);
    SecondIsAReserve(seen, order, row, lines, read, id);
    SlackOfReserve(seen, order, p);
    var second := Finish(read, Fresh(read), Plan(OpReserve(order), row, lines, read, id));
    WrittenOverEither(db, order, row, second.value.own);
  }

  /** A merge that writes the order does not show what the order's row was. */
  lemma WrittenOverEither(db: Database, order: int, row: Order, own: Overlay)
    requires order in own.orders
    ensures Merge(db, own) == Merge(Believed(db, order, row), own)
  {
    assert db.orders + own.orders == Believed(db, order, row).orders + own.orders;
  }

  /** The state the second call believes in. */
  lemma SeenBefore(db: Database, seen: Database, order: int, row: Order, p: Pair)
    requires row.state == Draft && order in db.orders && db.orders[order] == row.(state := Reserved)
    requires seen == Believed(db, order, row)
    ensures Slack(seen, p) == Slack(db, p) + HeldFor(db, order, p)
  {
    OneOrderChanges(seen, db, order, p);
  }

  lemma SecondIsAReserve(seen: Database, order: int, row: Order, lines: map<int, Line>, read: map<Pair, Stock>, id: int)
    requires Agrees(seen, OpReserve(order), row, lines, read) && Decided(seen, OpReserve(order), row, lines, read)
    requires MovePasses(seen.stock, row.warehouse, lines, Hold)
    ensures var second := Finish(read, Fresh(read), Plan(OpReserve(order), row, lines, read, id));
      second.Some? && order in second.value.own.orders && Merge(seen, second.value.own) == Spec.Reserve(seen, order).db
  {
    ReservePlan(seen, order, row, lines, read, id);
    PlanWritesTheOrder(seen, order, row, lines, read, id);
    assert Apply(seen, OpReserve(order), id) == Spec.Reserve(seen, order);
  }

  lemma PlanWritesTheOrder(db: Database, order: int, row: Order, lines: map<int, Line>, read: map<Pair, Stock>, id: int)
    requires Agrees(db, OpReserve(order), row, lines, read) && Decided(db, OpReserve(order), row, lines, read)
    requires MovePasses(db.stock, row.warehouse, lines, Hold)
    ensures var second := Finish(read, Fresh(read), Plan(OpReserve(order), row, lines, read, id));
      second.Some? && order in second.value.own.orders
  {
    var close := PutOrder(order, row.(state := Reserved));
    var after := LoopMeetsMove(db, OpReserve(order), row, lines, read, Fresh(read), Hold, [close]);
    FinishFirst(read, after, close, []);
    assert [close] + [] == [close];
  }

  // ---- no deadlock ------------------------------------------------------------------------------------------

  predicate Asking(s: System, t: int) {
    t in s.txns && s.txns[t].phase.Locking? && s.txns[t].phase.left != []
  }

  /** The key of the row a transaction is about to take. */
  function NextKey(s: System, t: int): Pair {
    if Asking(s, t) then s.txns[t].phase.left[0] else Pair(0, 0)
  }

  lemma BeforeIsAnOrder(a: Pair, b: Pair, c: Pair)
    ensures !Before(a, a)
    ensures Before(a, b) && Before(b, c) ==> Before(a, c)
  {
  }

  /** One waits for another only if the other is further along the one order of the keys. */
  lemma WaitingClimbs(start: Database, s: System, t: int, u: int)
    requires Sound(start, s) && WaitsFor(s, t, u) && Asking(s, u)
    ensures Asking(s, t) && Before(NextKey(s, t), NextKey(s, u))
  {
    var phase := s.txns[u].phase;
    assert Upholds(s.db, s.txns[u]);
    assert phase.left[0] in phase.left;
  }

  /** Each one waits for the next. */
  ghost predicate Chain(s: System, chain: seq<int>) {
    |chain| >= 2 && forall i :: 0 <= i < |chain| - 1 ==> WaitsFor(s, chain[i], chain[i + 1])
  }

  lemma {:induction false} ChainsClimb(start: Database, s: System, chain: seq<int>)
    requires Sound(start, s) && Chain(s, chain) && Asking(s, chain[|chain| - 1])
    ensures Before(NextKey(s, chain[0]), NextKey(s, chain[|chain| - 1]))
    decreases |chain|
  {
    var n := |chain|;
    WaitingClimbs(start, s, chain[n - 2], chain[n - 1]);
    if n > 2 {
      ChainsClimb(start, s, chain[..n - 1]);
      BeforeIsAnOrder(NextKey(s, chain[0]), NextKey(s, chain[n - 2]), NextKey(s, chain[n - 1]));
    }
  }

  /** The waits-for relation has no cycle in any reachable state. */
  lemma NoDeadlock(s: System, schedule: seq<Action>, chain: seq<int>)
    requires Initial(s) && Chain(Play(s, schedule), chain)
    ensures chain[0] != chain[|chain| - 1]
  {
    PlayKeeps(s, schedule);
    var now := Play(s, schedule);
    var last := chain[|chain| - 1];
    assert WaitsFor(now, chain[0], chain[1]);
    if Asking(now, last) {
      ChainsClimb(s.db, now, chain);
      BeforeIsAnOrder(NextKey(now, last), NextKey(now, last), NextKey(now, last));
    }
  }

  /** Among those that ask for a row, one asks for the last key of all. */
  lemma {:induction false} FurthestAlong(s: System, asking: set<int>) returns (t: int)
    requires asking != {}
    ensures t in asking && forall u :: u in asking ==> !Before(NextKey(s, t), NextKey(s, u))
    decreases asking
  {
    NonEmpty(asking);
    t :| t in asking;
    if asking != {t} {
      NonEmpty(asking - {t});
      var other := FurthestAlong(s, asking - {t});
      if Before(NextKey(s, t), NextKey(s, other)) { t := other; }
    }
  }

  /** While anything is in flight, something in flight is not waiting. */
  lemma SomeoneCanGo(start: Database, s: System) returns (t: int)
    requires Sound(start, s) && s.txns != map[]
    ensures t in s.txns && !Waits(s, t)
  {
    var waiting := set u | u in s.txns && Waits(s, u);
    if waiting == {} {
      assert s.txns.Keys != {};
      NonEmpty(s.txns.Keys);
      t :| t in s.txns;
      assert t !in waiting;
    } else {
      var furthest := FurthestAlong(s, waiting);
      t :| t in s.txns && WaitsFor(s, furthest, t);
      if Waits(s, t) { WaitingClimbs(start, s, furthest, t); }
    }
  }
}
