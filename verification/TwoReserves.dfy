/** The schedule that the rule of one call an order shuts out: two reservations of one order, begun together on a
shop in order. Both answer Done, and every unit of the order is promised twice.
*/
module TwoReserves {
  import opened Rows
  import opened KeyOrder
  import opened Spec
  import opened Sums
  import opened Holds
  import opened Transactions
  import opened Interleaving
  import opened Logs
  import opened Concurrency
  import opened Progress

  const P := Pair(1, 7)
  const ROW := Order("A-1", Draft, 10, 1, 1, None)
  const LINES: map<int, Line> := map[7 := Line(2, 5)]
  const CALL := OpReserve(1)

  /** One draft of two units, ten on the shelf, nothing promised. */
  const SHOP := Database({1}, {}, {1}, map[7 := 5], map[1 := ROW], map[1 := LINES], map[P := Stock(10, 0)], [], map[],
                         [], map[])

  /** Both calls let in. */
  const BOTH := System(SHOP, 0, map[1 := Txn(CALL, Begun), 2 := Txn(CALL, Begun)], [])

  ghost function Times(t: int, n: nat): seq<Action> {
    if n == 0 then [] else Times(t, n - 1) + [Go(t)]
  }

  lemma OneKey(keys: seq<Pair>, p: Pair)
    requires Ascending(keys) && forall k :: k in keys <==> k == p
    ensures keys == [p]
  {
    assert p in keys;
    forall i | 0 <= i < |keys| ensures keys[i] == p {
      assert keys[i] in keys;
    }
    assert |keys| > 1 ==> Before(keys[0], keys[1]);
  }

  lemma TheRowToTake(r: int)
    ensures StockToTakeFrom(map[P := Stock(10, r)], 1, LINES.Keys) == [P]
  {
    TakesTheStockedSkus(map[P := Stock(10, r)], 1, LINES.Keys);
    OneKey(StockToTakeFrom(map[P := Stock(10, r)], 1, LINES.Keys), P);
  }

  lemma TheStatements(r: int)
    ensures Plan(CALL, ROW, LINES, map[P := Stock(10, r)], 0)
         == [MoveUnits(Hold, P, 2), PutOrder(1, ROW.(state := Reserved))]
  {
    LineKeysListTheLines(1, LINES);
    OneKey(LineKeys(1, LINES), P);
    var none: seq<Pair> := [];
    assert [P][1..] == none;
    assert Moves(Hold, 1, [P], LINES, map[P := Stock(10, r)]) == [MoveUnits(Hold, P, 2)] + [];
  }

  /** Where a call has read the order, nobody holds a row, and `r` units are promised. */
  ghost predicate Standing(s: System, t: int, r: int) {
    && t in s.txns && s.txns[t] == Txn(CALL, SawOrder(ROW))
    && 1 in s.db.orders && LinesOf(s.db, 1) == LINES && s.db.stock == map[P := Stock(10, r)] && 0 <= r <= 8
    && forall u :: u in s.txns ==> Holding(s.txns[u]) == {}
  }

  /** The shop after a reservation, whatever the order's row said by then. */
  function Held(s: System, t: int, r: int): System {
    s.(db := s.db.(orders := s.db.orders[1 := ROW.(state := Reserved)], stock := map[P := Stock(10, r + 2)]),
       txns := s.txns - {t}, log := s.log + [Entry(Event(CALL, 0), Done)])
  }

  function At(s: System, t: int, phase: Phase): System {
    s.(txns := s.txns[t := Txn(CALL, phase)])
  }

  lemma TakesItsRow(s: System, t: int, r: int)
    requires Standing(s, t, r)
    ensures var read := map[P := Stock(10, r)];
      Do(Do(s, Go(t)), Go(t)) == At(s, t, Locking(ROW, LINES, read, []))
  {
    TheRowToTake(r);
    var asking := At(s, t, Locking(ROW, LINES, map[], [P]));
    assert Do(s, Go(t)) == asking;
    assert !Waits(asking, t);
    var none: seq<Pair> := [];
    assert [P][1..] == none && map[][P := Stock(10, r)] == map[P := Stock(10, r)];
    assert asking.txns[t := Txn(CALL, Locking(ROW, LINES, map[P := Stock(10, r)], []))]
        == s.txns[t := Txn(CALL, Locking(ROW, LINES, map[P := Stock(10, r)], []))];
  }

  lemma Decides(s: System, t: int, r: int)
    requires Standing(s, t, r)
    ensures var read := map[P := Stock(10, r)];
      Do(At(s, t, Locking(ROW, LINES, read, [])), Go(t))
      == At(s, t, Writing(ROW, LINES, read, 0, Fresh(read), Plan(CALL, ROW, LINES, read, 0)))
  {
    var read := map[P := Stock(10, r)];
    assert AllAvailable(read, 1, LINES);
    var writing := Writing(ROW, LINES, read, 0, Fresh(read), Plan(CALL, ROW, LINES, read, 0));
    assert s.txns[t := Txn(CALL, Locking(ROW, LINES, read, []))][t := Txn(CALL, writing)]
      == s.txns[t := Txn(CALL, writing)];
  }

  function Planned(r: int): Phase {
    var read := map[P := Stock(10, r)];
    Writing(ROW, LINES, read, 0, Fresh(read), [MoveUnits(Hold, P, 2), PutOrder(1, ROW.(state := Reserved))])
  }

  /** Both statements made, nothing committed. */
  function Written(r: int): Phase {
    var after := map[P := Stock(10, r + 2)];
    var own := NOTHING.(stock := after, orders := map[1 := ROW.(state := Reserved)]);
    Writing(ROW, LINES, map[P := Stock(10, r)], 0, Private(own, [], after), [])
  }

  lemma MovesAndCloses(s: System, t: int, r: int)
    requires Standing(s, t, r)
    ensures Do(Do(At(s, t, Planned(r)), Go(t)), Go(t)) == At(s, t, Written(r))
  {
    var read, after := map[P := Stock(10, r)], map[P := Stock(10, r + 2)];
    var put := PutOrder(1, ROW.(state := Reserved));
    var once := At(s, t, Writing(ROW, LINES, read, 0, Private(NOTHING.(stock := after), [], after), [put]));
    assert read[P := Stock(10, r + 2)] == after && map[][P := Stock(10, r + 2)] == after;
    assert [MoveUnits(Hold, P, 2), put][1..] == [put];
    assert At(s, t, Planned(r)).txns[t := once.txns[t]] == once.txns;
    assert Do(At(s, t, Planned(r)), Go(t)) == once;
    var none: seq<Stmt> := [];
    assert [put][1..] == none && map[][1 := put.row] == map[1 := put.row];
    assert once.txns[t := Txn(CALL, Written(r))] == At(s, t, Written(r)).txns;
  }

  lemma Commits(s: System, t: int, r: int)
    requires Standing(s, t, r)
    ensures Do(At(s, t, Written(r)), Go(t)) == Held(s, t, r)
  {
    var after, closed := map[P := Stock(10, r + 2)], ROW.(state := Reserved);
    assert s.db.stock + after == after && s.db.orders + map[1 := closed] == s.db.orders[1 := closed];
    assert At(s, t, Written(r)).txns - {t} == s.txns - {t};
  }

  /** From there six steps reserve, on what the stock row now says and on what the order's row said then. */
  lemma SixSteps(s: System, t: int, r: int)
    requires Standing(s, t, r)
    ensures Play(s, Times(t, 6)) == Held(s, t, r)
  {
    TakesItsRow(s, t, r);
    Decides(s, t, r);
    TheStatements(r);
    MovesAndCloses(s, t, r);
    Commits(s, t, r);
    FiveMore(s, t);
  }

  lemma FiveMore(s: System, t: int)
    ensures Play(s, Times(t, 6)) == Do(Do(Do(Do(Do(Do(s, Go(t)), Go(t)), Go(t)), Go(t)), Go(t)), Go(t))
  {
    forall n: nat ensures Play(s, Times(t, n + 1)) == Do(Play(s, Times(t, n)), Go(t)) {
      assert Times(t, n + 1)[..|Times(t, n)|] == Times(t, n);
    }
    assert Times(t, 0) == [];
    assert Play(s, Times(t, 1)) == Do(s, Go(t));
    assert Play(s, Times(t, 2)) == Do(Play(s, Times(t, 1)), Go(t));
    assert Play(s, Times(t, 3)) == Do(Play(s, Times(t, 2)), Go(t));
    assert Play(s, Times(t, 4)) == Do(Play(s, Times(t, 3)), Go(t));
    assert Play(s, Times(t, 5)) == Do(Play(s, Times(t, 4)), Go(t));
    assert Play(s, Times(t, 6)) == Do(Play(s, Times(t, 5)), Go(t));
  }

  const BOTH_READ := System(SHOP, 0, map[1 := Txn(CALL, SawOrder(ROW)), 2 := Txn(CALL, SawOrder(ROW))], [])

  lemma BothReadTheOrder()
    ensures Play(BOTH, [Go(1), Go(2)]) == BOTH_READ
  {
    var none: seq<Action> := [];
    assert [Go(1), Go(2)][..1] == [Go(1)] && [Go(1)][..0] == none;
    assert Do(BOTH, Go(1)) == BOTH.(txns := BOTH.txns[1 := Txn(CALL, SawOrder(ROW))]);
    assert Play(BOTH, [Go(1)]) == Do(BOTH, Go(1));
    assert Play(BOTH, [Go(1), Go(2)]) == Do(Play(BOTH, [Go(1)]), Go(2));
  }

  /** Nothing is wrong at the start. */
  lemma TheShopIsInOrder()
    ensures Healthy(SHOP)
  {
    assert SHOP.orders.Keys == {1} && {1} - {1} == {};
    forall p ensures Slack(SHOP, p) == 0 {
      SumWithout(SHOP.orders.Keys, 1, o => HeldFor(SHOP, o, p));
      assert HeldUnits(SHOP, p) == HeldFor(SHOP, 1, p) == 0;
    }
  }

  /** Both read the order, one reserves, the other reserves: two units are asked for and four are promised. */
  lemma TwoReservesHoldTwice()
    ensures Healthy(SHOP) && BOTH.db == SHOP
    ensures var end := Play(BOTH, [Go(1), Go(2)] + Times(1, 6) + Times(2, 6));
      && end.log == [Entry(Event(CALL, 0), Done), Entry(Event(CALL, 0), Done)]
      && HeldUnits(end.db, P) == 2 && StockAt(end.db, P).reserved == 4 && !HoldConsistent(end.db)
  {
    TheShopIsInOrder();
    BothReadTheOrder();
    SixSteps(BOTH_READ, 1, 0);
    var first := Held(BOTH_READ, 1, 0);
    SixSteps(first, 2, 2);
    var end := Held(first, 2, 2);
    PlayOn(BOTH, [Go(1), Go(2)], Times(1, 6));
    PlayOn(BOTH, [Go(1), Go(2)] + Times(1, 6), Times(2, 6));
    FourPromised(end);
  }

  lemma FourPromised(end: System)
    requires end == Held(Held(BOTH_READ, 1, 0), 2, 2)
    ensures end.log == [Entry(Event(CALL, 0), Done), Entry(Event(CALL, 0), Done)]
    ensures HeldUnits(end.db, P) == 2 && StockAt(end.db, P).reserved == 4 && !HoldConsistent(end.db)
  {
    assert end.db.orders.Keys == {1} && {1} - {1} == {};
    SumWithout(end.db.orders.Keys, 1, o => HeldFor(end.db, o, P));
    assert Slack(end.db, P) == 2;
  }
}
