/** Two compounds that one engine cannot run, folded in the program instead: the result has to be the engine's. */
module Folds {
  import opened Sequences

  // ---- Python's sort, largest first -------------------------------------------------------------------------

  predicate Less(a: (int, int), b: (int, int)) {
    a.0 < b.0 || (a.0 == b.0 && a.1 < b.1)
  }

  /** Puts `x` behind everything at least as large. */
  function Insert<T>(sorted: seq<T>, x: T, key: T -> (int, int)): seq<T> {
    if sorted == [] || !Less(key(sorted[|sorted| - 1]), key(x)) then sorted + [x]
    else Insert(sorted[..|sorted| - 1], x, key) + [sorted[|sorted| - 1]]
  }

  /** `sort(key=..., reverse=True)`: a stable sort, in which `reverse` does not turn equals round. */
  function Sort<T>(rows: seq<T>, key: T -> (int, int)): seq<T> {
    if rows == [] then [] else Insert(Sort(rows[..|rows| - 1], key), rows[|rows| - 1], key)
  }

  ghost predicate Descending<T(!new)>(rows: seq<T>, key: T -> (int, int)) {
    forall i, j :: 0 <= i < j < |rows| ==> !Less(key(rows[i]), key(rows[j]))
  }

  /** The rows with one key, as they come. */
  ghost function At<T>(rows: seq<T>, key: T -> (int, int), k: (int, int)): seq<T> {
    if rows == [] then []
    else At(rows[..|rows| - 1], key, k) + if key(rows[|rows| - 1]) == k then [rows[|rows| - 1]] else []
  }

  lemma LargestFirst<T(!new)>(rows: seq<T>, key: T -> (int, int), i: nat, j: nat)
    requires Descending(rows, key) && i < j < |rows|
    ensures key(rows[i]).0 > key(rows[j]).0 || (key(rows[i]).0 == key(rows[j]).0 && key(rows[i]).1 >= key(rows[j]).1)
  {
  }

  lemma {:induction false} AtConcatenation<T>(a: seq<T>, b: seq<T>, key: T -> (int, int), k: (int, int))
    ensures At(a + b, key, k) == At(a, key, k) + At(b, key, k)
    decreases |b|
  {
    if b == [] {
      assert a + b == a;
    } else {
      assert (a + b)[..|a + b| - 1] == a + b[..|b| - 1];
      AtConcatenation(a, b[..|b| - 1], key, k);
    }
  }

  lemma {:induction false} AtNothing<T>(rows: seq<T>, key: T -> (int, int), k: (int, int))
    requires forall i :: 0 <= i < |rows| ==> key(rows[i]) != k
    ensures At(rows, key, k) == []
    decreases |rows|
  {
    if rows != [] { AtNothing(rows[..|rows| - 1], key, k); }
  }

  lemma {:induction false} InsertKeepsAll<T>(sorted: seq<T>, x: T, key: T -> (int, int))
    ensures multiset(Insert(sorted, x, key)) == multiset(sorted) + multiset{x}
    decreases |sorted|
  {
    if sorted != [] {
      var init, last := sorted[..|sorted| - 1], sorted[|sorted| - 1];
      assert sorted == init + [last];
      InsertKeepsAll(init, x, key);
    }
  }

  lemma {:induction false} InsertKeepsOrder<T(!new)>(sorted: seq<T>, x: T, key: T -> (int, int))
    requires Descending(sorted, key)
    ensures Descending(Insert(sorted, x, key), key)
    decreases |sorted|
  {
    if sorted != [] && Less(key(sorted[|sorted| - 1]), key(x)) {
      var init, last := sorted[..|sorted| - 1], sorted[|sorted| - 1];
      InsertKeepsOrder(init, x, key);
      InsertKeepsAll(init, x, key);
      var less := Insert(init, x, key);
      forall i | 0 <= i < |less| ensures !Less(key(less[i]), key(last)) {
        assert less[i] in multiset(less);
      }
    }
  }

  lemma {:induction false} InsertGoesLast<T(!new)>(sorted: seq<T>, x: T, key: T -> (int, int), k: (int, int))
    requires Descending(sorted, key)
    ensures At(Insert(sorted, x, key), key, k) == At(sorted, key, k) + if key(x) == k then [x] else []
    decreases |sorted|
  {
    if sorted == [] || !Less(key(sorted[|sorted| - 1]), key(x)) {
      assert (sorted + [x])[..|sorted|] == sorted;
    } else {
      var init, last := sorted[..|sorted| - 1], sorted[|sorted| - 1];
      InsertGoesLast(init, x, key, k);
      assert (Insert(init, x, key) + [last])[..|Insert(init, x, key)|] == Insert(init, x, key);
    }
  }

  /** Sorted, and the rows with one key in the order they were in: nothing lost, nothing folded. */
  lemma {:induction false} SortIsStable<T(!new)>(rows: seq<T>, key: T -> (int, int))
    ensures Descending(Sort(rows, key), key)
    ensures multiset(Sort(rows, key)) == multiset(rows)
    ensures forall k :: At(Sort(rows, key), key, k) == At(rows, key, k)
    decreases |rows|
  {
    if rows != [] {
      var init, last := rows[..|rows| - 1], rows[|rows| - 1];
      assert rows == init + [last];
      SortIsStable(init, key);
      InsertKeepsAll(Sort(init, key), last, key);
      InsertKeepsOrder(Sort(init, key), last, key);
      forall k ensures At(Sort(rows, key), key, k) == At(rows, key, k) {
        InsertGoesLast(Sort(init, key), last, key, k);
      }
    }
  }

  lemma SameInit<T>(a: seq<T>, b: seq<T>, x: T)
    requires a + [x] == b + [x]
    ensures a == b
  {
    assert a == (a + [x])[..|a + [x]| - 1] && b == (b + [x])[..|b + [x]| - 1];
  }

  lemma SomethingSomewhere<T(!new)>(rows: seq<T>, key: T -> (int, int))
    requires rows != []
    ensures exists k :: At(rows, key, k) != []
  {
    assert At(rows, key, key(rows[|rows| - 1])) != [];
  }

  /** A list is known by its order and by what it holds at each key. */
  lemma {:induction false} OneSuchList<T(!new)>(a: seq<T>, b: seq<T>, key: T -> (int, int))
    requires Descending(a, key) && Descending(b, key)
    requires forall k :: At(a, key, k) == At(b, key, k)
    ensures a == b
    decreases |a| + |b|
  {
    if a == [] || b == [] {
      if a != [] { SomethingSomewhere(a, key); }
      if b != [] { SomethingSomewhere(b, key); }
    } else {
      SameLast(a, b, key);
      var x, y := a[|a| - 1], b[|b| - 1];
      var c, d := a[..|a| - 1], b[..|b| - 1];
      forall k ensures At(c, key, k) == At(d, key, k) {
        assert At(a, key, k) == At(c, key, k) + if key(x) == k then [x] else [];
        assert At(b, key, k) == At(d, key, k) + if key(y) == k then [y] else [];
        if key(x) == k {
          SameInit(At(c, key, k), At(d, key, k), x);
        } else {
          assert At(c, key, k) + [] == At(c, key, k) && At(d, key, k) + [] == At(d, key, k);
        }
      }
      OneSuchList(c, d, key);
      assert a == c + [x] && b == d + [y];
    }
  }

  lemma SameLast<T(!new)>(a: seq<T>, b: seq<T>, key: T -> (int, int))
    requires Descending(a, key) && Descending(b, key) && a != [] && b != []
    requires forall k :: At(a, key, k) == At(b, key, k)
    ensures a[|a| - 1] == b[|b| - 1]
  {
    var x, y := a[|a| - 1], b[|b| - 1];
    EndsWithTheLast(a, key);
    EndsWithTheLast(b, key);
    if Less(key(x), key(y)) {
      AtNothing(b, key, key(x));
    } else if Less(key(y), key(x)) {
      AtNothing(a, key, key(y));
    }
  }

  lemma EndsWithTheLast<T>(rows: seq<T>, key: T -> (int, int))
    requires rows != []
    ensures var last := rows[|rows| - 1]; var same := At(rows, key, key(last)); same != [] && same[|same| - 1] == last
  {
  }

  // ---- the book: `UNION ALL` --------------------------------------------------------------------------------

  /** A line of the book carries no identity: two of them can be equal and be two events. */
  datatype BookLine = BookLine(warehouse: int, sku: int, delta: int, happenedAt: int)

  function Instant(line: BookLine): (int, int) {
    (line.happenedAt, 0)
  }

  function FoldBook(shop: seq<BookLine>, floor: seq<BookLine>): seq<BookLine> {
    Sort(shop + floor, Instant)
  }

  /** What `UNION ALL ... ORDER BY happened_at DESC` may answer: every line of both branches as often as it was
      there, latest first, in any order within an instant. */
  ghost predicate IsUnionAll(shop: seq<BookLine>, floor: seq<BookLine>, book: seq<BookLine>) {
    Descending(book, Instant) && multiset(book) == multiset(shop) + multiset(floor)
  }

  /** The fold is one of the engine's answers: the one with the shop's lines first within an instant, and it is
      the only list that is so. */
  lemma FoldBookIsUnionAll(shop: seq<BookLine>, floor: seq<BookLine>)
    ensures IsUnionAll(shop, floor, FoldBook(shop, floor))
    ensures forall t ::
      At(FoldBook(shop, floor), Instant, (t, 0)) == At(shop, Instant, (t, 0)) + At(floor, Instant, (t, 0))
  {
    SortIsStable(shop + floor, Instant);
    forall t ensures At(shop + floor, Instant, (t, 0)) == At(shop, Instant, (t, 0)) + At(floor, Instant, (t, 0)) {
      AtConcatenation(shop, floor, Instant, (t, 0));
    }
  }

  /** The book is read from the latest line down. */
  lemma FoldBookIsLatestFirst(shop: seq<BookLine>, floor: seq<BookLine>)
    ensures forall i, j :: 0 <= i < j < |FoldBook(shop, floor)| ==>
      FoldBook(shop, floor)[j].happenedAt <= FoldBook(shop, floor)[i].happenedAt
  {
    FoldBookIsUnionAll(shop, floor);
    forall i, j | 0 <= i < j < |FoldBook(shop, floor)|
      ensures FoldBook(shop, floor)[j].happenedAt <= FoldBook(shop, floor)[i].happenedAt
    {
      LargestFirst(FoldBook(shop, floor), Instant, i, j);
    }
  }

  lemma FoldBookIsTheOnly(shop: seq<BookLine>, floor: seq<BookLine>, book: seq<BookLine>)
    requires Descending(book, Instant)
    requires forall t :: At(book, Instant, (t, 0)) == At(shop, Instant, (t, 0)) + At(floor, Instant, (t, 0))
    ensures book == FoldBook(shop, floor)
  {
    FoldBookIsUnionAll(shop, floor);
    SortIsStable(shop + floor, Instant);
    var fold := FoldBook(shop, floor);
    forall k: (int, int) ensures At(book, Instant, k) == At(fold, Instant, k) {
      if k.1 != 0 {
        AtNothing(book, Instant, k);
        AtNothing(fold, Instant, k);
      } else {
        var t := k.0;
        assert k == (t, 0);
        assert At(fold, Instant, (t, 0)) == At(shop, Instant, (t, 0)) + At(floor, Instant, (t, 0));
      }
    }
    OneSuchList(book, fold, Instant);
  }

  // ---- the highlights: `UNION` ------------------------------------------------------------------------------

  /** An order as the highlights show it. */
  datatype Highlight = Highlight(id: int, total: int, placedAt: int)

  function Recency(order: Highlight): (int, int) {
    (order.placedAt, order.id)
  }

  function Size(order: Highlight): (int, int) {
    (order.total, order.id)
  }

  /** What `UNION ... ORDER BY placed_at DESC, id DESC` may answer: each row of either branch, once, in strict order
      unless two rows tie on both keys. */
  ghost predicate IsUnion(a: seq<Highlight>, b: seq<Highlight>, rows: seq<Highlight>) {
    && Descending(rows, Recency)
    && (forall row :: row in rows <==> row in a || row in b)
    && (forall i, j :: 0 <= i < j < |rows| ==> rows[i] != rows[j])
  }

  ghost predicate DistinctIds(rows: seq<Highlight>) {
    forall i, j :: 0 <= i < j < |rows| ==> rows[i].id != rows[j].id
  }

  function Ids(rows: seq<Highlight>): set<int> {
    set i | 0 <= i < |rows| :: rows[i].id
  }

  lemma IdsOneMore(rows: seq<Highlight>, row: Highlight)
    ensures Ids(rows + [row]) == Ids(rows) + {row.id}
    ensures DistinctIds(rows) && row.id !in Ids(rows) ==> DistinctIds(rows + [row])
  {
    var more := rows + [row];
    assert more[|rows|] == row;
    forall id | id in Ids(rows) ensures id in Ids(more) {
      var i :| 0 <= i < |rows| && rows[i].id == id;
      assert more[i].id == id;
    }
  }

  /** The first row of its order: the one that is kept. */
  ghost predicate IsFirst(rows: seq<Highlight>, row: Highlight) {
    exists i :: 0 <= i < |rows| && rows[i] == row && row.id !in Ids(rows[..i])
  }

  /** One row of each order seen, latest first; of an order read in two versions, the one the newest branch read. */
  ghost predicate IsFold(newest: seq<Highlight>, biggest: seq<Highlight>, rows: seq<Highlight>) {
    && Descending(rows, Recency) && DistinctIds(rows)
    && (forall row :: row in rows ==> IsFirst(newest + biggest, row))
    && (forall row :: row in newest || row in biggest ==> exists i :: 0 <= i < |rows| && rows[i].id == row.id)
  }

  lemma SortedKeepsIds(folded: seq<Highlight>, rows: seq<Highlight>)
    requires DistinctIds(folded) && multiset(rows) == multiset(folded)
    ensures DistinctIds(rows) && forall row :: row in rows <==> row in folded
  {
    forall row ensures row in rows <==> row in folded {
      assert row in multiset(rows) <==> row in multiset(folded);
    }
    SameBagNoneTwice(folded, rows);
    forall i, j | 0 <= i < j < |rows| ensures rows[i].id != rows[j].id {
      assert rows[i] in folded && rows[j] in folded;
    }
  }

  method FoldHighlights(newest: seq<Highlight>, biggest: seq<Highlight>) returns (highlights: seq<Highlight>)
    ensures IsFold(newest, biggest, highlights)
  {
    var seen: set<int> := {};
    var folded: seq<Highlight> := [];
    var all := newest + biggest;
    for i := 0 to |all|
      invariant seen == Ids(folded)
      invariant DistinctIds(folded)
      invariant seen == Ids(all[..i])
      invariant forall row :: row in folded ==> IsFirst(all, row)
    {
      assert all[..i + 1] == all[..i] + [all[i]];
      IdsOneMore(all[..i], all[i]);
      if all[i].id !in seen {
        IdsOneMore(folded, all[i]);
        seen := seen + {all[i].id};
        folded := folded + [all[i]];
      }
    }
    highlights := Sort(folded, Recency);
    SortIsStable(folded, Recency);
    SortedKeepsIds(folded, highlights);
    assert all[..|all|] == all;
    forall row | row in newest || row in biggest
      ensures exists i :: 0 <= i < |highlights| && highlights[i].id == row.id
    {
      assert row in all;
      var j :| 0 <= j < |all| && all[j] == row;
      assert row.id in Ids(all);
      var k :| 0 <= k < |folded| && folded[k].id == row.id;
      assert folded[k] in highlights;
    }
  }

  /** The highlights are read from the order placed last, and of two placed at once from the one with the larger id. */
  lemma FoldIsNewestFirst(newest: seq<Highlight>, biggest: seq<Highlight>, rows: seq<Highlight>, i: nat, j: nat)
    requires IsFold(newest, biggest, rows) && i < j < |rows|
    ensures rows[j].placedAt < rows[i].placedAt || (rows[j].placedAt == rows[i].placedAt && rows[j].id < rows[i].id)
  {
    LargestFirst(rows, Recency, i, j);
  }

  /** What the fold returns is settled by the two branches. */
  lemma FoldIsOneList(newest: seq<Highlight>, biggest: seq<Highlight>, rows: seq<Highlight>, others: seq<Highlight>)
    requires IsFold(newest, biggest, rows) && IsFold(newest, biggest, others)
    ensures rows == others
  {
    FoldsHoldTheSame(newest, biggest, rows, others);
    FoldsHoldTheSame(newest, biggest, others, rows);
    SameRowsSameList(rows, others);
  }

  lemma FirstsAreOne(all: seq<Highlight>, a: Highlight, b: Highlight)
    requires IsFirst(all, a) && IsFirst(all, b) && a.id == b.id
    ensures a == b
  {
    var i :| 0 <= i < |all| && all[i] == a && a.id !in Ids(all[..i]);
    var j :| 0 <= j < |all| && all[j] == b && b.id !in Ids(all[..j]);
    EarlierIsSeen(all, i, j);
    EarlierIsSeen(all, j, i);
  }

  lemma EarlierIsSeen(all: seq<Highlight>, i: nat, j: nat)
    requires i < |all| && j < |all|
    ensures i < j ==> all[i].id in Ids(all[..j])
  {
    if i < j { assert all[..j][i] == all[i]; }
  }

  lemma FoldsHoldTheSame(newest: seq<Highlight>, biggest: seq<Highlight>, rows: seq<Highlight>, others: seq<Highlight>)
    requires IsFold(newest, biggest, rows) && IsFold(newest, biggest, others)
    ensures forall row :: row in rows ==> row in others
  {
    forall row | row in rows ensures row in others {
      assert IsFirst(newest + biggest, row);
      assert row in newest || row in biggest;
      var i :| 0 <= i < |others| && others[i].id == row.id;
      assert others[i] in others;
      FirstsAreOne(newest + biggest, row, others[i]);
    }
  }

  /** The two branches tell the same thing of an order that both name, as two reads of one table state do. */
  ghost predicate Agree(newest: seq<Highlight>, biggest: seq<Highlight>) {
    forall a, b :: (a in newest || a in biggest) && (b in newest || b in biggest) && a.id == b.id ==> a == b
  }

  /** The fold knows a row by its id and `UNION` by all of its columns: they answer alike exactly when no order was
      read in two versions. */
  lemma FoldIsTheUnionExactly(newest: seq<Highlight>, biggest: seq<Highlight>, rows: seq<Highlight>)
    requires IsFold(newest, biggest, rows)
    ensures IsUnion(newest, biggest, rows) <==> Agree(newest, biggest)
  {
    if Agree(newest, biggest) {
      forall row | row in newest || row in biggest ensures row in rows {
        var i :| 0 <= i < |rows| && rows[i].id == row.id;
        assert rows[i] in rows;
      }
    }
    if IsUnion(newest, biggest, rows) {
      forall a, b | (a in newest || a in biggest) && (b in newest || b in biggest) && a.id == b.id ensures a == b {
        var i :| 0 <= i < |rows| && rows[i] == a;
        var j :| 0 <= j < |rows| && rows[j] == b;
      }
    }
  }

  lemma {:induction false} AtIsTheRow(rows: seq<Highlight>, row: Highlight)
    requires DistinctIds(rows) && row in rows
    ensures At(rows, Recency, Recency(row)) == [row]
    decreases |rows|
  {
    var init, last := rows[..|rows| - 1], rows[|rows| - 1];
    if last == row {
      AtNothing(init, Recency, Recency(row));
    } else {
      assert row in init;
      AtIsTheRow(init, row);
      assert last.id != row.id;
    }
  }

  /** Under the total order the rows make the list. */
  lemma SameRowsSameList(rows: seq<Highlight>, others: seq<Highlight>)
    requires Descending(rows, Recency) && Descending(others, Recency) && DistinctIds(rows) && DistinctIds(others)
    requires forall row :: row in rows <==> row in others
    ensures rows == others
  {
    forall k ensures At(rows, Recency, k) == At(others, Recency, k) {
      if i :| 0 <= i < |rows| && Recency(rows[i]) == k {
        assert rows[i] in others;
        AtIsTheRow(rows, rows[i]);
        AtIsTheRow(others, rows[i]);
      } else {
        AtNothing(rows, Recency, k);
        forall j | 0 <= j < |others| ensures Recency(others[j]) != k {
          assert others[j] in rows;
        }
        AtNothing(others, Recency, k);
      }
    }
    OneSuchList(rows, others, Recency);
  }

  /** There is one such list, whichever branch came first. */
  lemma UnionIsOneList(a: seq<Highlight>, b: seq<Highlight>, rows: seq<Highlight>, others: seq<Highlight>)
    requires Agree(a, b) && IsUnion(a, b, rows) && IsUnion(b, a, others)
    ensures rows == others
  {
    IdsOfUnion(a, b, rows);
    IdsOfUnion(a, b, others);
    SameRowsSameList(rows, others);
  }

  lemma IdsOfUnion(a: seq<Highlight>, b: seq<Highlight>, rows: seq<Highlight>)
    requires Agree(a, b) && (IsUnion(a, b, rows) || IsUnion(b, a, rows))
    ensures DistinctIds(rows)
  {
    forall i, j | 0 <= i < j < |rows| ensures rows[i].id != rows[j].id {
      assert rows[i] in rows && rows[j] in rows;
    }
  }

  // ---- the branches -----------------------------------------------------------------------------------------

  /** `ORDER BY <key> DESC LIMIT size` over a table whose ids are distinct. */
  ghost predicate IsTop(table: set<Highlight>, key: Highlight -> (int, int), size: nat, rows: seq<Highlight>) {
    && Descending(rows, key) && DistinctIds(rows)
    && (forall row :: row in rows ==> row in table)
    && |rows| == (if size < |table| then size else |table|)
    && (forall row, out :: row in rows && out in table && out !in rows ==> Less(key(out), key(row)))
  }

  ghost predicate KeyedById(table: set<Highlight>) {
    forall a, b :: a in table && b in table && a.id == b.id ==> a == b
  }

  /** The page is the same on every engine: the fold of the two branches, taken either way round, is the one list the
      compound answers with. */
  lemma HighlightsAreTheCompound(
    table: set<Highlight>, size: nat, biggest: seq<Highlight>, newest: seq<Highlight>, compound: seq<Highlight>,
    fold: seq<Highlight>)
    requires KeyedById(table) && IsTop(table, Size, size, biggest) && IsTop(table, Recency, size, newest)
    requires IsUnion(biggest, newest, compound)
    requires IsFold(newest, biggest, fold) || IsFold(biggest, newest, fold)
    ensures fold == compound
  {
    assert Agree(newest, biggest) && Agree(biggest, newest);
    if IsFold(newest, biggest, fold) {
      FoldIsTheUnionExactly(newest, biggest, fold);
      UnionIsOneList(newest, biggest, fold, compound);
    } else {
      FoldIsTheUnionExactly(biggest, newest, fold);
      assert IsUnion(newest, biggest, fold);
      UnionIsOneList(newest, biggest, fold, compound);
    }
  }
}
