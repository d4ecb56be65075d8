/** Any sequence of calls on one session, against the run the specification makes of it: with this, everything `Runs`
proves of runs is proved of the databases the statements leave behind. */
module Shop {
  import opened Rows
  import opened Spec
  import opened ShopSession
  import opened Integrity
  import opened Logs
  import opened Ledger
  import Runs
  import OrderUseCases
  import InventoryUseCases
  import BillingUseCases

  /** What one call did: the outcome the specification names, on an id the sequence had not passed. */
  twostate predicate Performed(session: Session, op: Op, reply: Reply)
    reads session
  {
    && session.Idle() && old(session.sequence) <= session.sequence
    && (Inserts(op) && session.committed != old(session.committed) ==> old(session.sequence) < session.sequence)
    && Outcome(session.committed, reply) == Apply(old(session.committed), op, old(session.sequence))
  }

  method PerformOrderOp(session: Session, op: Op) returns (reply: Reply)
    requires session.Idle() && TouchesOrders(op)
    modifies session
    ensures Performed(session, op, reply)
  {
    match op {
      case OpPlaceOrder(reference, customer, warehouse, items) =>
        reply := OrderUseCases.PlaceOrder(session, reference, customer, warehouse, items);
      case OpSetLine(order, sku, quantity) => reply := OrderUseCases.SetLine(session, order, sku, quantity);
      case OpRemoveLine(order, sku) => reply := OrderUseCases.RemoveLine(session, order, sku);
      case OpCancelOrder(order) => reply := OrderUseCases.CancelOrder(session, order);
      case OpReserve(order) => reply := OrderUseCases.Reserve(session, order);
      case OpSettle(order, subscription, word, charge) =>
        reply := OrderUseCases.Settle(session, order, subscription, word, charge);
      case OpAttachInvoice(order, invoice) => reply := OrderUseCases.AttachInvoice(session, order, invoice);
      case OpRemoveOrder(order) => reply := OrderUseCases.RemoveOrder(session, order);
    }
  }

  method PerformOtherOp(session: Session, op: Op) returns (reply: Reply)
    requires session.Idle() && !TouchesOrders(op) && StockWellFormed(session.committed.stock)
    modifies session
    ensures Performed(session, op, reply)
  {
    match op {
      case OpReceive(pair, units) => reply := InventoryUseCases.Receive(session, pair, units);
      case OpShip(pair, units) => reply := InventoryUseCases.Ship(session, pair, units);
      case OpUpdateStock(pair, onHand, reserved) =>
        reply := InventoryUseCases.UpdateStock(session, pair, onHand, reserved);
      case OpRemoveStock(pair) => reply := InventoryUseCases.RemoveStock(session, pair);
      case OpCountStock(pair, onHand) => reply := InventoryUseCases.CountStock(session, pair, onHand);
      case OpReserveWarehouse(warehouse, units) =>
        reply := InventoryUseCases.ReserveWarehouse(session, warehouse, units);
      case OpSubscribe(user, plan) => reply := BillingUseCases.Subscribe(session, user, plan);
      case OpCancelSubscription(subscription) => reply := BillingUseCases.CancelSubscription(session, subscription);
      case OpIssueInvoice(subscription, amountCents) =>
        reply := BillingUseCases.IssueInvoice(session, subscription, amountCents);
      case OpPayInvoice(invoice, word) => reply := BillingUseCases.PayInvoice(session, invoice, word);
    }
  }

  /** Where the sequence has got to after a run. */
  ghost function SpentTo(db: Database, next: int, events: seq<Event>): int
    decreases |events|
  {
    if events == [] then next
    else SpentTo(Apply(db, events[0].op, events[0].id).db, NextId(db, events[0]), events[1..])
  }

  lemma {:induction false} SequenceOneMore(db: Database, next: int, events: seq<Event>, event: Event)
    requires FromSequence(db, next, events) && SpentTo(db, next, events) <= event.id
    ensures FromSequence(db, next, events + [event])
    ensures SpentTo(db, next, events + [event]) == NextId(Run(db, events), event)
    decreases |events|
  {
    if events == [] {
      assert [event][1..] == [];
    } else {
      assert (events + [event])[1..] == events[1..] + [event];
      SequenceOneMore(Apply(db, events[0].op, events[0].id).db, NextId(db, events[0]), events[1..], event);
    }
  }

  lemma EventsOneMore(log: seq<Entry>, entry: Entry)
    ensures EventsOf(log + [entry]) == EventsOf(log) + [entry.event]
  {
  }

  /** The log so far: a serial run to here, on ids the sequence handed out in order. */
  ghost predicate LoggedTo(start: Database, next: int, log: seq<Entry>, db: Database, sequence: int) {
    && Serial(start, log, db) && FromSequence(start, next, EventsOf(log))
    && SpentTo(start, next, EventsOf(log)) <= sequence
  }

  lemma LogOneMore(start: Database, next: int, log: seq<Entry>, db: Database, entry: Entry, sequence: int)
    requires LoggedTo(start, next, log, db, entry.event.id)
    requires Apply(db, entry.event.op, entry.event.id).reply == entry.reply && NextId(db, entry.event) <= sequence
    ensures LoggedTo(start, next, log + [entry], Apply(db, entry.event.op, entry.event.id).db, sequence)
  {
    SerialIsARun(start, log, db);
    SerialOneMore(start, log, db, entry);
    SequenceOneMore(start, next, EventsOf(log), entry.event);
    EventsOneMore(log, entry);
  }

  /** Whatever is called, in whatever order: every reply is the one the specification gives at that point of its run,
      and the session ends where the run ends. */
  method PerformAll(session: Session, ops: seq<Op>) returns (replies: seq<Reply>, ghost log: seq<Entry>)
    requires session.Idle() && Consistent(session.committed) && Below(session.committed, session.sequence)
    modifies session
    ensures session.Idle() && Consistent(session.committed) && Below(session.committed, session.sequence)
    ensures |log| == |ops| == |replies|
    ensures forall i :: 0 <= i < |ops| ==> log[i].event.op == ops[i] && log[i].reply == replies[i]
    ensures Serial(old(session.committed), log, session.committed)
    ensures FromSequence(old(session.committed), old(session.sequence), EventsOf(log))
    ensures session.committed == Run(old(session.committed), EventsOf(log))
    ensures Runs.NothingRecorded(old(session.committed)) ==> Books(session.committed)
  {
    ghost var start, next := session.committed, session.sequence;
    replies, log := [], [];
    for i := 0 to |ops|
      invariant session.Idle() && Consistent(session.committed) && Below(session.committed, session.sequence)
      invariant |log| == |replies| == i
      invariant forall j :: 0 <= j < i ==> log[j].event.op == ops[j] && log[j].reply == replies[j]
      invariant LoggedTo(start, next, log, session.committed, session.sequence)
    {
      ghost var event, before := Event(ops[i], session.sequence), session.committed;
      StaysUsable(before, event);
      var reply;
      if TouchesOrders(ops[i]) {
        reply := PerformOrderOp(session, ops[i]);
      } else {
        reply := PerformOtherOp(session, ops[i]);
      }
      LogOneMore(start, next, log, before, Entry(event, reply), session.sequence);
      replies, log := replies + [reply], log + [Entry(event, reply)];
    }
    SerialIsARun(start, log, session.committed);
    if Runs.NothingRecorded(start) { Runs.BooksFromScratch(start, EventsOf(log), next); }
  }
}
