/** Nothing stays in flight for want of a lock: from every reachable state there is a way to let everything finish. */
module Progress {
  import opened Rows
  import opened Sums
  import Sequences
  import opened KeyOrder
  import opened Spec
  import opened Transactions
  import opened Interleaving
  import opened Logs
  import opened Concurrency

  /** More than the statements a plan can have. */
  function Room(db: Database, order: int): nat {
    2 * |LineKeys(order, LinesOf(db, order))| + 8
  }

  /** At most so many steps of its own, and a transaction is over. */
  function StepsLeft(db: Database, txn: Txn): nat
    requires TakesStock(txn.op)
  {
    var room := Room(db, txn.op.order);
    match txn.phase
    case Begun => |db.stock.Keys| + room + 5
    case SawOrder(_) => |db.stock.Keys| + room + 4
    case SawSubscription(_) => |db.stock.Keys| + room + 3
    case Locking(_, _, _, left) => |left| + room + 2
    case Writing(_, _, _, _, _, todo) => |todo| + 1
  }

  lemma {:induction false} MovesAreFew(
    move: Move, warehouse: int, keys: seq<Pair>, lines: map<int, Line>, read: map<Pair, Stock>)
    ensures |Moves(move, warehouse, keys, lines, read)| <= 2 * |keys|
    decreases |keys|
  {
    if keys != [] { MovesAreFew(move, warehouse, keys[1..], lines, read); }
  }

  lemma PlanFitsTheRoom(db: Database, op: Op, row: Order, lines: map<int, Line>, read: map<Pair, Stock>, id: int)
    requires TakesStock(op) && Agrees(db, op, row, lines, read)
    ensures |Plan(op, row, lines, read, id)| < Room(db, op.order)
  {
    var keys := LineKeys(op.order, lines);
    MovesAreFew(Hold, row.warehouse, keys, lines, read);
    MovesAreFew(Release, row.warehouse, keys, lines, read);
    MovesAreFew(ShipHeld, row.warehouse, keys, lines, read);
  }

  lemma RowsToTakeAreStocked(stock: map<Pair, Stock>, warehouse: int, skus: set<int>)
    ensures |StockToTakeFrom(stock, warehouse, skus)| <= |stock.Keys|
  {
    var wanted := set p | p in stock && p.warehouse == warehouse && p.sku in skus;
    SortedListsTheKeys(wanted);
    Sequences.PartIsNoLarger(wanted, stock.Keys);
  }

  /** A step of a transaction that is not waiting brings it closer to its end, or ends it. */
  ghost predicate Shrinks(s: System, after: System, t: int) {
    t in s.txns && TakesStock(s.txns[t].op) &&
    if t in after.txns
    then after.db == s.db && after.txns == s.txns[t := after.txns[t]] && after.txns[t].op == s.txns[t].op
         && StepsLeft(s.db, after.txns[t]) < StepsLeft(s.db, s.txns[t])
    else after.txns == s.txns - {t}
  }

  lemma StartWritingShrinks(s: System, t: int, row: Order, lines: map<int, Line>, read: map<Pair, Stock>, id: int)
    requires t in s.txns && TakesStock(s.txns[t].op) && Agrees(s.db, s.txns[t].op, row, lines, read)
    requires Room(s.db, s.txns[t].op.order) < StepsLeft(s.db, s.txns[t])
    ensures Shrinks(s, StartWriting(s, t, row, lines, read, id), t)
  {
    PlanFitsTheRoom(s.db, s.txns[t].op, row, lines, read, id);
  }

  lemma ReadLinesShrinks(s: System, t: int, row: Order)
    requires t in s.txns && TakesStock(s.txns[t].op)
    requires s.txns[t].phase.SawOrder? || s.txns[t].phase.SawSubscription?
    ensures Shrinks(s, ReadLines(s, t, row), t)
  {
    RowsToTakeAreStocked(s.db.stock, row.warehouse, LinesOf(s.db, s.txns[t].op.order).Keys);
  }

  lemma DecideShrinks(start: Database, s: System, t: int)
    requires Sound(start, s) && t in s.txns && s.txns[t].phase.Locking? && s.txns[t].phase.left == []
    ensures Shrinks(s, Decide(s, t), t)
  {
    var phase := s.txns[t].phase;
    AllLockedAgrees(s.db, s.txns[t]);
    PlanFitsTheRoom(s.db, s.txns[t].op, phase.row, phase.lines, phase.held, 0);
    PlanFitsTheRoom(s.db, s.txns[t].op, phase.row, phase.lines, phase.held, s.sequence);
  }

  lemma AdvanceShrinks(start: Database, s: System, t: int)
    requires Sound(start, s) && t in s.txns && !Waits(s, t)
    ensures Shrinks(s, Advance(s, t), t)
  {
    var op, phase := s.txns[t].op, s.txns[t].phase;
    match phase
    case Begun =>
      if op.order in s.db.orders && RightState(op, s.db.orders[op.order].state)
        && !TakesLines(op, s.db.orders[op.order]) {
        StartWritingShrinks(s, t, s.db.orders[op.order], map[], map[], 0);
      }
    case SawOrder(row) => if !op.OpSettle? { ReadLinesShrinks(s, t, row); }
    case SawSubscription(row) => ReadLinesShrinks(s, t, row);
    case Locking(_, _, _, left) => if left == [] { DecideShrinks(start, s, t); }
    case Writing(_, _, _, _, _, _) =>
  }

  lemma IsolatedLeavesSteps(db: Database, after: Database, order: int, locked: set<Pair>, txn: Txn)
    requires Isolated(db, after, order, locked) && TakesStock(txn.op) && txn.op.order != order
    ensures StepsLeft(after, txn) == StepsLeft(db, txn)
  {
    assert LinesOf(after, txn.op.order) == LinesOf(db, txn.op.order);
  }

  lemma OthersAsFarAsTheyWere(start: Database, s: System, t: int, u: int)
    requires Sound(start, s) && t in s.txns && u in s.txns && t != u
    ensures StepsLeft(Advance(s, t).db, s.txns[u]) == StepsLeft(s.db, s.txns[u])
  {
    var op, phase := s.txns[t].op, s.txns[t].phase;
    if phase.Writing? && phase.todo == [] {
      CommitKeeps(start, s, t);
      CommitIsIsolated(s.db, op, phase.row, phase.lines, phase.read, phase.id);
      IsolatedLeavesSteps(s.db, Advance(s, t).db, op.order, phase.read.Keys, s.txns[u]);
    }
  }

  ghost function StepsOf(s: System, t: int): int {
    if t in s.txns && TakesStock(s.txns[t].op) then StepsLeft(s.db, s.txns[t]) else 0
  }

  ghost function AllSteps(s: System): nat {
    SumNotNegative(s.txns.Keys, t => StepsOf(s, t));
    Sum(s.txns.Keys, t => StepsOf(s, t))
  }

  lemma AdvanceLessens(start: Database, s: System, t: int)
    requires Sound(start, s) && t in s.txns && !Waits(s, t)
    ensures AllSteps(Advance(s, t)) < AllSteps(s)
  {
    var after := Advance(s, t);
    AdvanceShrinks(start, s, t);
    forall u | u in s.txns && u != t ensures u in after.txns && StepsOf(after, u) == StepsOf(s, u) {
      OthersAsFarAsTheyWere(start, s, t, u);
    }
    SumDelta(s.txns.Keys, u => StepsOf(s, u), after.txns.Keys, u => StepsOf(after, u), t);
  }

  lemma {:induction false} PlayFirst(s: System, action: Action, rest: seq<Action>)
    ensures Play(s, [action] + rest) == Play(Do(s, action), rest)
    decreases |rest|
  {
    var all := [action] + rest;
    if rest == [] {
      assert all == [action] && all[..0] == [];
    } else {
      assert all[..|all| - 1] == [action] + rest[..|rest| - 1];
      PlayFirst(s, action, rest[..|rest| - 1]);
    }
  }

  /** Only steps of what is already there: nothing new is let in, and nothing has to be aborted. */
  ghost predicate OnlySteps(schedule: seq<Action>) {
    forall i :: 0 <= i < |schedule| ==> schedule[i].Go?
  }

  lemma {:induction false} Drain(start: Database, s: System) returns (schedule: seq<Action>)
    requires Sound(start, s)
    ensures OnlySteps(schedule) && |schedule| <= AllSteps(s) && Play(s, schedule).txns == map[]
    decreases AllSteps(s)
  {
    if s.txns == map[] {
      schedule := [];
    } else {
      var t := SomeoneCanGo(start, s);
      AdvanceKeeps(start, s, t);
      AdvanceLessens(start, s, t);
      var rest := Drain(start, Advance(s, t));
      PlayFirst(s, Go(t), rest);
      schedule := [Go(t)] + rest;
    }
  }

  /** Whatever has been started and however it has interleaved, everything in flight can still run to its end. */
  lemma EverythingCanFinish(s: System, schedule: seq<Action>)
    requires Initial(s)
    ensures exists more :: OnlySteps(more) && Play(Play(s, schedule), more).txns == map[]
  {
    PlayKeeps(s, schedule);
    var more := Drain(s.db, Play(s, schedule));
  }

  // ---- every call ends once ---------------------------------------------------------------------------------

  /** The calls the scheduler has let in, each as often as it was. */
  ghost function LetIn(s: System, schedule: seq<Action>): multiset<Op> {
    if schedule == [] then multiset{}
    else
      var init, last := schedule[..|schedule| - 1], schedule[|schedule| - 1];
      LetIn(s, init) + if last.Start? && Admits(Play(s, init), last.tid, last.op) then multiset{last.op} else multiset{}
  }

  /** The calls that have answered, each as often as it has. */
  ghost function Answered(log: seq<Entry>): multiset<Op> {
    if log == [] then multiset{} else Answered(log[..|log| - 1]) + multiset{log[|log| - 1].event.op}
  }

  /** The transactions in flight on behalf of a call. */
  ghost function InFlight(txns: map<int, Txn>, op: Op): set<int> {
    set t | t in txns && txns[t].op == op
  }

  /** A step ends its transaction and logs its call, or does neither. */
  ghost predicate EndsOrMoves(s: System, after: System, t: int)
    requires t in s.txns
  {
    || (after.txns == s.txns - {t} && |after.log| == |s.log| + 1 && after.log[..|s.log|] == s.log
        && after.log[|s.log|].event.op == s.txns[t].op)
    || (after.log == s.log && t in after.txns && after.txns == s.txns[t := after.txns[t]]
        && after.txns[t].op == s.txns[t].op)
  }

  lemma AdvanceEndsOrMoves(s: System, t: int)
    requires t in s.txns && TakesStock(s.txns[t].op)
    ensures EndsOrMoves(s, Advance(s, t), t)
  {
  }

  lemma AdvanceAccounts(s: System, t: int, op: Op)
    requires t in s.txns && TakesStock(s.txns[t].op)
    ensures var after := Advance(s, t);
      Answered(after.log)[op] + |InFlight(after.txns, op)| == Answered(s.log)[op] + |InFlight(s.txns, op)|
  {
    AdvanceEndsOrMoves(s, t);
    var after := Advance(s, t);
    if t in after.txns {
      assert InFlight(after.txns, op) == InFlight(s.txns, op);
    } else {
      assert InFlight(after.txns, op) == InFlight(s.txns, op) - {t};
    }
  }

  lemma StartAccounts(s: System, tid: int, call: Op, op: Op)
    requires tid !in s.txns
    ensures |InFlight(s.txns[tid := Txn(call, Begun)], op)| == |InFlight(s.txns, op)| + if op == call then 1 else 0
  {
    assert InFlight(s.txns[tid := Txn(call, Begun)], op) == InFlight(s.txns, op) + if op == call then {tid} else {};
  }

  /** Call by call: as many times as it was let in, a call is in flight or in the log. None is lost, none ends twice,
      and none is answered that was not made. */
  lemma {:induction false} EveryCallIsAccountedFor(s: System, schedule: seq<Action>, op: Op)
    requires Initial(s)
    ensures var now := Play(s, schedule);
      LetIn(s, schedule)[op] == Answered(now.log)[op] + |InFlight(now.txns, op)|
    decreases |schedule|
  {
    if schedule == [] {
      assert InFlight(s.txns, op) == {};
    } else {
      var before, action := Play(s, schedule[..|schedule| - 1]), schedule[|schedule| - 1];
      EveryCallIsAccountedFor(s, schedule[..|schedule| - 1], op);
      match action
      case Go(t) => if t in before.txns && TakesStock(before.txns[t].op) { AdvanceAccounts(before, t, op); }
      case Start(t, call) => if Admits(before, t, call) { StartAccounts(before, t, call, op); }
    }
  }

  /** A call on an order that nobody is at, on a session that is free, is let in. */
  lemma FreeCallsAreLetIn(s: System, tid: int, op: Op)
    requires op.OpReserve? || op.OpCancelOrder? || op.OpSettle?
    requires tid !in s.txns && forall t :: t in s.txns ==> TakesStock(s.txns[t].op) && s.txns[t].op.order != op.order
    ensures Do(s, Start(tid, op)) == s.(txns := s.txns[tid := Txn(op, Begun)])
  {
  }

  lemma {:induction false} PlayOn(s: System, first: seq<Action>, rest: seq<Action>)
    ensures Play(s, first + rest) == Play(Play(s, first), rest)
    decreases |rest|
  {
    if rest == [] {
      assert first + rest == first;
    } else {
      var n := |rest| - 1;
      assert (first + rest)[..|first| + n] == first + rest[..n];
      PlayOn(s, first, rest[..n]);
    }
  }

  lemma {:induction false} StepsLetNobodyIn(s: System, schedule: seq<Action>, more: seq<Action>)
    requires OnlySteps(more)
    ensures LetIn(s, schedule + more) == LetIn(s, schedule)
    decreases |more|
  {
    if more == [] {
      assert schedule + more == schedule;
    } else {
      var n := |more| - 1;
      assert (schedule + more)[..|schedule| + n] == schedule + more[..n];
      StepsLetNobodyIn(s, schedule, more[..n]);
    }
  }

  /** Whatever has been let in can be brought to an end in which every call has answered, exactly as often as it was
      made, with the answers and the database of a serial run. */
  lemma EveryCallIsAnswered(s: System, schedule: seq<Action>)
    requires Initial(s)
    ensures exists more ::
      var end := Play(Play(s, schedule), more);
      OnlySteps(more) && end.txns == map[] && Answered(end.log) == LetIn(s, schedule) && Serial(s.db, end.log, end.db)
  {
    PlayKeeps(s, schedule);
    var more := Drain(s.db, Play(s, schedule));
    var end := Play(Play(s, schedule), more);
    PlayOn(s, schedule, more);
    PlayKeeps(s, schedule + more);
    StepsLetNobodyIn(s, schedule, more);
    forall op ensures Answered(end.log)[op] == LetIn(s, schedule)[op] {
      EveryCallIsAccountedFor(s, schedule + more, op);
      assert InFlight(end.txns, op) == {};
    }
    assert Answered(end.log) == LetIn(s, schedule);
  }
}
