/** The index advisor: filtered or foreign-key columns without an index, and how slow the queries on them were.

What a query filters is what the two patterns find in its text, in order; a query comes in here as those two lists of
`(table, column)` matches. A duration is a number that is only compared with others.
*/
module Advisor {
  import Folds
  import opened Rows
  import opened Sequences

  datatype Column = Column(name: string, unique: bool)

  datatype Relationship = Relationship(toOne: bool, locals: seq<string>)

  datatype Table = Table(
    name: string,
    columns: seq<Column>,
    primaryKey: seq<string>,
    indexes: seq<seq<string>>,
    relationships: seq<Relationship>)

  type Key = (string, string)

  datatype Query = Query(correlated: seq<Key>, simple: seq<Key>)

  datatype Hint = Hint(key: Key, worst: int)

  // ---- what is indexed --------------------------------------------------------------------------------------

  ghost predicate Indexed(table: Table, column: string) {
    || column in table.primaryKey
    || (exists i :: 0 <= i < |table.columns| && table.columns[i] == Column(column, true))
    || (exists i :: 0 <= i < |table.indexes| && column in table.indexes[i])
  }

  /** Primary key, unique columns, and every column of every declared index. */
  method IndexedColumns(table: Table) returns (names: set<string>)
    ensures forall column :: column in names <==> Indexed(table, column)
  {
    names := (set c | c in table.primaryKey)
      + (set i | 0 <= i < |table.columns| && table.columns[i].unique :: table.columns[i].name);
    forall column
      ensures column in (set i | 0 <= i < |table.columns| && table.columns[i].unique :: table.columns[i].name)
        <==> exists i :: 0 <= i < |table.columns| && table.columns[i] == Column(column, true)
    {
      if i :| 0 <= i < |table.columns| && table.columns[i].unique && table.columns[i].name == column {
        assert table.columns[i] == Column(column, true);
      }
    }
    ghost var plain := names;
    for i := 0 to |table.indexes|
      invariant forall column :: column in names <==>
        column in plain || exists k :: 0 <= k < i && column in table.indexes[k]
    {
      names := names + set c | c in table.indexes[i];
    }
  }

  // ---- each hint once, in order of appearance ---------------------------------------------------------------

  /** The keys, without the ones already seen. */
  function FirstSeen(keys: seq<Key>): seq<Key> {
    if keys == [] then []
    else
      var before := FirstSeen(keys[..|keys| - 1]);
      if keys[|keys| - 1] in before then before else before + [keys[|keys| - 1]]
  }

  lemma {:induction false} FirstSeenKeepsAll(keys: seq<Key>)
    ensures NoneTwice(FirstSeen(keys))
    ensures forall key :: key in FirstSeen(keys) <==> key in keys
    decreases |keys|
  {
    if keys != [] {
      FirstSeenKeepsAll(keys[..|keys| - 1]);
      assert keys == keys[..|keys| - 1] + [keys[|keys| - 1]];
    }
  }

  /** Whatever is left, in the order it first appeared in. */
  lemma {:induction false} FirstSeenKeepsOrder(keys: seq<Key>, a: nat, b: nat)
    requires a < b < |keys|
    requires forall i :: 0 <= i < a ==> keys[i] != keys[a]
    requires forall i :: 0 <= i < b ==> keys[i] != keys[b]
    ensures exists i, j ::
      0 <= i < j < |FirstSeen(keys)| && FirstSeen(keys)[i] == keys[a] && FirstSeen(keys)[j] == keys[b]
    decreases |keys|
  {
    var init := keys[..|keys| - 1];
    var before := FirstSeen(init);
    FirstSeenKeepsAll(init);
    if b == |keys| - 1 {
      assert init[a] in init;
      var i :| 0 <= i < |before| && before[i] == keys[a];
      assert keys[b] !in init;
      assert FirstSeen(keys)[i] == keys[a] && FirstSeen(keys)[|before|] == keys[b];
    } else {
      FirstSeenKeepsOrder(init, a, b);
      var i, j :| 0 <= i < j < |before| && before[i] == keys[a] && before[j] == keys[b];
      assert FirstSeen(keys)[i] == keys[a] && FirstSeen(keys)[j] == keys[b];
    }
  }

  // ---- the static audit -------------------------------------------------------------------------------------

  ghost function FromLocals(table: Table, locals: seq<string>): seq<Key> {
    if locals == [] then []
    else
      var last := locals[|locals| - 1];
      FromLocals(table, locals[..|locals| - 1]) + if Indexed(table, last) then [] else [(table.name, last)]
  }

  /** Only the side that owns the foreign key has local columns. */
  ghost function FromRelationships(table: Table, relationships: seq<Relationship>): seq<Key> {
    if relationships == [] then []
    else
      var last := relationships[|relationships| - 1];
      FromRelationships(table, relationships[..|relationships| - 1])
      + if last.toOne then FromLocals(table, last.locals) else []
  }

  ghost function FromTables(tables: seq<Table>): seq<Key> {
    if tables == [] then []
    else
      FromTables(tables[..|tables| - 1]) + FromRelationships(tables[|tables| - 1], tables[|tables| - 1].relationships)
  }

  lemma SeenOneMore(keys: seq<Key>, key: Key)
    ensures FirstSeen(keys + [key]) == if key in FirstSeen(keys) then FirstSeen(keys) else FirstSeen(keys) + [key]
  {
    assert (keys + [key])[..|keys|] == keys;
  }

  lemma LocalsOneMore(table: Table, locals: seq<string>, p: nat, found: seq<Key>)
    requires p < |locals|
    ensures FirstSeen(found + FromLocals(table, locals[..p + 1])) ==
      var before, key := FirstSeen(found + FromLocals(table, locals[..p])), (table.name, locals[p]);
      if !Indexed(table, locals[p]) && key !in before then before + [key] else before
  {
    var before, key := FromLocals(table, locals[..p]), (table.name, locals[p]);
    FromLocalsOneMore(table, locals, p);
    SeenOneMore(found + before, key);
    assert found + (before + [key]) == found + before + [key];
    assert found + (before + []) == found + before;
  }

  lemma FromLocalsOneMore(table: Table, locals: seq<string>, p: nat)
    requires p < |locals|
    ensures FromLocals(table, locals[..p + 1])
         == FromLocals(table, locals[..p]) + if Indexed(table, locals[p]) then [] else [(table.name, locals[p])]
  {
    assert locals[..p + 1][..p] == locals[..p];
  }

  lemma KeysOneMore(keys: seq<Key>, key: Key)
    ensures (set k | k in keys + [key]) == (set k | k in keys) + {key}
  {
  }

  method AddLocals(table: Table, locals: seq<string>, hints: seq<Key>, seen: set<Key>, ghost found: seq<Key>)
    returns (more: seq<Key>, all: set<Key>)
    requires hints == FirstSeen(found) && seen == (set key | key in hints)
    ensures more == FirstSeen(found + FromLocals(table, locals)) && all == (set key | key in more)
  {
    var indexed := IndexedColumns(table);
    more, all := hints, seen;
    assert found + FromLocals(table, locals[..0]) == found;
    for p := 0 to |locals|
      invariant more == FirstSeen(found + FromLocals(table, locals[..p])) && all == (set key | key in more)
    {
      var key := (table.name, locals[p]);
      LocalsOneMore(table, locals, p, found);
      if locals[p] !in indexed && key !in all {
        KeysOneMore(more, key);
        more, all := more + [key], all + {key};
      }
    }
    assert locals[..|locals|] == locals;
  }

  /** Every foreign key column without an index, once, in order of appearance. */
  method UnindexedForeignKeys(tables: seq<Table>) returns (hints: seq<Key>)
    ensures hints == FirstSeen(FromTables(tables))
  {
    hints := [];
    var seen: set<Key> := {};
    for i := 0 to |tables|
      invariant hints == FirstSeen(FromTables(tables[..i])) && seen == (set key | key in hints)
    {
      ghost var before := FromTables(tables[..i]);
      var owned := tables[i].relationships;
      assert before + FromRelationships(tables[i], owned[..0]) == before;
      for r := 0 to |owned|
        invariant hints == FirstSeen(before + FromRelationships(tables[i], owned[..r]))
          && seen == (set key | key in hints)
      {
        ghost var found := before + FromRelationships(tables[i], owned[..r]);
        assert owned[..r + 1][..r] == owned[..r];
        if !owned[r].toOne {
          assert before + FromRelationships(tables[i], owned[..r + 1]) == found;
          continue;
        }
        hints, seen := AddLocals(tables[i], owned[r].locals, hints, seen, found);
        assert before + FromRelationships(tables[i], owned[..r + 1]) == found + FromLocals(tables[i], owned[r].locals);
      }
      assert owned[..|owned|] == owned && tables[..i + 1][..i] == tables[..i];
    }
    assert tables[..|tables|] == tables;
  }

  ghost predicate UnindexedIn(table: Table, key: Key) {
    && key.0 == table.name && !Indexed(table, key.1)
    && exists r ::
      0 <= r < |table.relationships| && table.relationships[r].toOne && key.1 in table.relationships[r].locals
  }

  /** A foreign key column of some table, on the side that owns it, and not indexed there. */
  ghost predicate Unindexed(tables: seq<Table>, key: Key) {
    exists i :: 0 <= i < |tables| && UnindexedIn(tables[i], key)
  }

  lemma {:induction false} FromLocalsExactly(table: Table, locals: seq<string>, key: Key)
    ensures key in FromLocals(table, locals) <==> key.0 == table.name && key.1 in locals && !Indexed(table, key.1)
    decreases |locals|
  {
    if locals != [] {
      FromLocalsExactly(table, locals[..|locals| - 1], key);
      assert locals == locals[..|locals| - 1] + [locals[|locals| - 1]];
    }
  }

  lemma {:induction false} FromRelationshipsExactly(table: Table, relationships: seq<Relationship>, key: Key)
    ensures key in FromRelationships(table, relationships) <==>
      exists r ::
        0 <= r < |relationships| && relationships[r].toOne && key.0 == table.name && key.1 in relationships[r].locals
        && !Indexed(table, key.1)
    decreases |relationships|
  {
    if relationships != [] {
      var n := |relationships| - 1;
      FromRelationshipsExactly(table, relationships[..n], key);
      FromLocalsExactly(table, relationships[n].locals, key);
      assert forall r :: 0 <= r < n ==> relationships[..n][r] == relationships[r];
    }
  }

  lemma {:induction false} FromTablesExactly(tables: seq<Table>, key: Key)
    ensures key in FromTables(tables) <==> Unindexed(tables, key)
    decreases |tables|
  {
    if tables != [] {
      var n := |tables| - 1;
      FromTablesExactly(tables[..n], key);
      FromRelationshipsExactly(tables[n], tables[n].relationships, key);
      assert key in FromRelationships(tables[n], tables[n].relationships) <==> UnindexedIn(tables[n], key);
      assert forall i :: 0 <= i < n ==> tables[..n][i] == tables[i];
    }
  }

  /** The audit names exactly the unindexed foreign key columns. */
  lemma AuditIsExact(tables: seq<Table>, key: Key)
    ensures key in FirstSeen(FromTables(tables)) <==> Unindexed(tables, key)
  {
    FirstSeenKeepsAll(FromTables(tables));
    FromTablesExactly(tables, key);
  }

  // ---- from the queries -------------------------------------------------------------------------------------

  /** `{table.name: table for table in tables}`: the last one of a name. */
  function ByName(tables: seq<Table>): map<string, Table> {
    if tables == [] then map[] else ByName(tables[..|tables| - 1])[tables[|tables| - 1].name := tables[|tables| - 1]]
  }

  ghost predicate IsLast(tables: seq<Table>, i: nat, name: string)
    requires i < |tables|
  {
    tables[i].name == name && forall j :: i < j < |tables| ==> tables[j].name != name
  }

  /** Of the tables of one name the last is the one that is asked. */
  lemma {:induction false} ByNameIsTheLast(tables: seq<Table>, name: string)
    ensures name in ByName(tables) <==> exists i :: 0 <= i < |tables| && tables[i].name == name
    ensures forall i :: 0 <= i < |tables| && IsLast(tables, i, name) ==> ByName(tables)[name] == tables[i]
    decreases |tables|
  {
    if tables != [] {
      var n := |tables| - 1;
      ByNameIsTheLast(tables[..n], name);
      assert forall i :: 0 <= i < n ==> tables[..n][i] == tables[i];
      forall i | 0 <= i < n && IsLast(tables, i, name)
        ensures tables[n].name != name && IsLast(tables[..n], i, name)
      {
      }
    }
  }

  predicate HasColumn(table: Table, column: string) {
    exists i :: 0 <= i < |table.columns| && table.columns[i].name == column
  }

  /** The column exists in the table of that name, and has no index there. */
  ghost predicate Suggestable(tables: seq<Table>, key: Key) {
    var byName := ByName(tables);
    key.0 in byName && HasColumn(byName[key.0], key.1) && !Indexed(byName[key.0], key.1)
  }

  ghost function FromMatches(tables: seq<Table>, matches: seq<Key>): seq<Key> {
    if matches == [] then []
    else
      var last := matches[|matches| - 1];
      FromMatches(tables, matches[..|matches| - 1]) + if Suggestable(tables, last) then [last] else []
  }

  ghost function FromQueries(tables: seq<Table>, queries: seq<Query>): seq<Key> {
    if queries == [] then []
    else
      var last := queries[|queries| - 1];
      FromQueries(tables, queries[..|queries| - 1]) + FromMatches(tables, last.correlated)
        + FromMatches(tables, last.simple)
  }

  ghost predicate Knows(indexed: map<string, set<string>>, byName: map<string, Table>) {
    && indexed.Keys == byName.Keys
    && forall name, column :: name in byName ==> (column in indexed[name] <==> Indexed(byName[name], column))
  }

  method IndexedByName(byName: map<string, Table>) returns (indexed: map<string, set<string>>)
    ensures Knows(indexed, byName)
  {
    indexed := map[];
    var left := byName.Keys;
    while left != {}
      invariant left <= byName.Keys && indexed.Keys == byName.Keys - left
      invariant forall name, column :: name in indexed ==> (column in indexed[name] <==> Indexed(byName[name], column))
      decreases |left|
    {
      var name :| name in left;
      var names := IndexedColumns(byName[name]);
      indexed := indexed[name := names];
      left := left - {name};
    }
  }

  lemma MatchesOneMore(tables: seq<Table>, matches: seq<Key>, m: nat, found: seq<Key>)
    requires m < |matches|
    ensures FirstSeen(found + FromMatches(tables, matches[..m + 1])) ==
      var before := FirstSeen(found + FromMatches(tables, matches[..m]));
      if Suggestable(tables, matches[m]) && matches[m] !in before then before + [matches[m]] else before
  {
    var before, last := FromMatches(tables, matches[..m]), matches[m];
    FromMatchesOneMore(tables, matches, m);
    SeenOneMore(found + before, last);
    assert found + (before + [last]) == found + before + [last];
    assert found + (before + []) == found + before;
  }

  lemma FromMatchesOneMore(tables: seq<Table>, matches: seq<Key>, m: nat)
    requires m < |matches|
    ensures FromMatches(tables, matches[..m + 1])
         == FromMatches(tables, matches[..m]) + if Suggestable(tables, matches[m]) then [matches[m]] else []
  {
    assert matches[..m + 1][..m] == matches[..m];
  }

  method AddMatches(
    tables: seq<Table>, byName: map<string, Table>, indexed: map<string, set<string>>, matches: seq<Key>,
    hints: seq<Key>, seen: set<Key>, ghost found: seq<Key>)
    returns (more: seq<Key>, all: set<Key>)
    requires byName == ByName(tables) && Knows(indexed, byName)
    requires hints == FirstSeen(found) && seen == (set key | key in hints)
    ensures more == FirstSeen(found + FromMatches(tables, matches)) && all == (set key | key in more)
  {
    more, all := hints, seen;
    assert found + FromMatches(tables, matches[..0]) == found;
    for m := 0 to |matches|
      invariant more == FirstSeen(found + FromMatches(tables, matches[..m])) && all == (set key | key in more)
    {
      var key := matches[m];
      MatchesOneMore(tables, matches, m, found);
      if key.0 in byName && key.1 !in indexed[key.0] && key !in all && HasColumn(byName[key.0], key.1) {
        KeysOneMore(more, key);
        more, all := more + [key], all + {key};
      }
    }
    assert matches[..|matches|] == matches;
  }

  /** Every unindexed column that is filtered somewhere, once, in order of appearance. */
  method IndexHintsFromSql(queries: seq<Query>, tables: seq<Table>) returns (hints: seq<Key>)
    ensures hints == FirstSeen(FromQueries(tables, queries))
  {
    var byName := ByName(tables);
    var indexed := IndexedByName(byName);
    hints := [];
    var seen: set<Key> := {};
    for q := 0 to |queries|
      invariant hints == FirstSeen(FromQueries(tables, queries[..q])) && seen == (set key | key in hints)
    {
      ghost var found := FromQueries(tables, queries[..q]);
      assert queries[..q + 1][..q] == queries[..q];
      hints, seen := AddMatches(tables, byName, indexed, queries[q].correlated, hints, seen, found);
      found := found + FromMatches(tables, queries[q].correlated);
      hints, seen := AddMatches(tables, byName, indexed, queries[q].simple, hints, seen, found);
    }
    assert queries[..|queries|] == queries;
  }

  ghost predicate Filters(query: Query, key: Key) {
    key in query.correlated || key in query.simple
  }

  lemma {:induction false} FromMatchesExactly(tables: seq<Table>, matches: seq<Key>, key: Key)
    ensures key in FromMatches(tables, matches) <==> key in matches && Suggestable(tables, key)
    decreases |matches|
  {
    if matches != [] {
      FromMatchesExactly(tables, matches[..|matches| - 1], key);
      assert matches == matches[..|matches| - 1] + [matches[|matches| - 1]];
    }
  }

  /** A column is suggested exactly when some query filters it, it exists, and it has no index. */
  lemma {:induction false} HintsAreExact(tables: seq<Table>, queries: seq<Query>, key: Key)
    ensures key in FirstSeen(FromQueries(tables, queries)) <==>
      Suggestable(tables, key) && exists q :: 0 <= q < |queries| && Filters(queries[q], key)
    decreases |queries|
  {
    FirstSeenKeepsAll(FromQueries(tables, queries));
    if queries != [] {
      var n := |queries| - 1;
      HintsAreExact(tables, queries[..n], key);
      FirstSeenKeepsAll(FromQueries(tables, queries[..n]));
      FromMatchesExactly(tables, queries[n].correlated, key);
      FromMatchesExactly(tables, queries[n].simple, key);
      assert forall q :: 0 <= q < n ==> queries[..n][q] == queries[q];
    }
  }

  // ---- from the slow queries only ---------------------------------------------------------------------------

  ghost predicate Suggests(tables: seq<Table>, query: Query, key: Key) {
    Suggestable(tables, key) && Filters(query, key)
  }

  /** `max(worst.get(hint, 0.0), duration)` over the queries that are slow and filter the column. */
  ghost function WorstOf(rows: seq<(Query, int)>, tables: seq<Table>, minMs: int, key: Key): Option<int> {
    if rows == [] then None
    else
      var last, before := rows[|rows| - 1], WorstOf(rows[..|rows| - 1], tables, minMs, key);
      if last.1 < minMs || !Suggests(tables, last.0, key) then before
      else Some(Larger(if before.Some? then before.value else 0, last.1))
  }

  function Larger(a: int, b: int): int {
    if a < b then b else a
  }

  function Get(worst: map<Key, int>, key: Key): int {
    if key in worst then worst[key] else 0
  }

  /** A dictionary keeps its keys in the order they were first put in. */
  ghost predicate Ordered(worst: map<Key, int>, order: seq<Key>) {
    NoneTwice(order) && forall key :: key in order <==> key in worst
  }

  lemma PrefixOneMore(found: seq<Key>, hints: seq<Key>, k: nat)
    requires k < |hints| && NoneTwice(hints)
    ensures FirstSeen(found + hints[..k + 1]) ==
      var before := FirstSeen(found + hints[..k]);
      if hints[k] in before then before else before + [hints[k]]
    ensures forall key :: key in hints[..k + 1] <==> key in hints[..k] || key == hints[k]
    ensures hints[k] !in hints[..k]
  {
    assert hints[..k + 1] == hints[..k] + [hints[k]];
    assert found + hints[..k + 1] == found + hints[..k] + [hints[k]];
    SeenOneMore(found + hints[..k], hints[k]);
  }

  /** Each of these columns raised to the duration, and the others as they were. */
  ghost predicate RaisedBy(worst: map<Key, int>, raised: map<Key, int>, hints: seq<Key>, duration: int) {
    && (forall key :: key in raised <==> key in worst || key in hints)
    && (forall key :: key in raised ==>
          raised[key] == if key in hints then Larger(Get(worst, key), duration) else worst[key])
  }

  lemma RaiseOne(worst: map<Key, int>, raised: map<Key, int>, hints: seq<Key>, k: nat, duration: int)
    requires k < |hints| && NoneTwice(hints) && RaisedBy(worst, raised, hints[..k], duration)
    ensures RaisedBy(worst, raised[hints[k] := Larger(Get(raised, hints[k]), duration)], hints[..k + 1], duration)
  {
    PrefixOneMore([], hints, k);
  }

  lemma OrderOne(
    worst: map<Key, int>, order: seq<Key>, found: seq<Key>, hints: seq<Key>, k: nat, duration: int)
    requires k < |hints| && NoneTwice(hints) && Ordered(worst, order) && order == FirstSeen(found + hints[..k])
    ensures var more := if hints[k] in worst then order else order + [hints[k]];
      Ordered(worst[hints[k] := duration], more) && more == FirstSeen(found + hints[..k + 1])
  {
    PrefixOneMore(found, hints, k);
  }

  /** One slow query: each column it suggests, raised to its duration. */
  method Raise(worst: map<Key, int>, order: seq<Key>, hints: seq<Key>, duration: int, ghost found: seq<Key>)
    returns (raised: map<Key, int>, keys: seq<Key>)
    requires NoneTwice(hints) && Ordered(worst, order) && order == FirstSeen(found)
    ensures Ordered(raised, keys) && keys == FirstSeen(found + hints)
    ensures RaisedBy(worst, raised, hints, duration)
  {
    raised, keys := worst, order;
    assert found + hints[..0] == found;
    for k := 0 to |hints|
      invariant Ordered(raised, keys) && keys == FirstSeen(found + hints[..k])
      invariant RaisedBy(worst, raised, hints[..k], duration)
    {
      var larger := Larger(Get(raised, hints[k]), duration);
      OrderOne(raised, keys, found, hints, k, larger);
      RaiseOne(worst, raised, hints, k, duration);
      if hints[k] !in raised { keys := keys + [hints[k]]; }
      raised := raised[hints[k] := larger];
    }
    assert hints[..|hints|] == hints;
  }

  function Slowness(hint: Hint): (int, int) {
    (hint.worst, 0)
  }

  ghost predicate Records(rows: seq<(Query, int)>, tables: seq<Table>, minMs: int, worst: map<Key, int>) {
    forall key :: WorstOf(rows, tables, minMs, key) == if key in worst then Some(worst[key]) else None
  }

  lemma OneMoreRow(rows: seq<(Query, int)>, i: nat, tables: seq<Table>, minMs: int, key: Key)
    requires i < |rows|
    ensures WorstOf(rows[..i + 1], tables, minMs, key) ==
      var before := WorstOf(rows[..i], tables, minMs, key);
      if rows[i].1 < minMs || !Suggests(tables, rows[i].0, key) then before
      else Some(Larger(if before.Some? then before.value else 0, rows[i].1))
  {
    assert rows[..i + 1][..i] == rows[..i];
  }

  /** A fast query leaves the records as they are; a slow one raises the columns it suggests. */
  lemma RecordsOneMore(
    rows: seq<(Query, int)>, i: nat, tables: seq<Table>, minMs: int, worst: map<Key, int>, raised: map<Key, int>,
    hints: seq<Key>)
    requires i < |rows| && Records(rows[..i], tables, minMs, worst)
    requires rows[i].1 < minMs ==> raised == worst
    requires minMs <= rows[i].1 ==> RaisedBy(worst, raised, hints, rows[i].1)
    requires forall key :: key in hints <==> Suggests(tables, rows[i].0, key)
    ensures Records(rows[..i + 1], tables, minMs, raised)
  {
    forall key ensures WorstOf(rows[..i + 1], tables, minMs, key) == if key in raised then Some(raised[key]) else None {
      OneMoreRow(rows, i, tables, minMs, key);
    }
  }

  lemma SuggestedByOne(tables: seq<Table>, query: Query, key: Key)
    ensures key in FirstSeen(FromQueries(tables, [query])) <==> Suggests(tables, query, key)
  {
    HintsAreExact(tables, [query], key);
  }

  ghost predicate OnePerKey(hints: seq<Hint>) {
    forall i, j :: 0 <= i < j < |hints| ==> hints[i].key != hints[j].key
  }

  /** `worst.items()`, as it is handed to the sort. */
  function Listed(worst: map<Key, int>, order: seq<Key>): (listed: seq<Hint>)
    ensures |listed| == |order|
    ensures forall i :: 0 <= i < |order| ==> listed[i] == Hint(order[i], Get(worst, order[i]))
  {
    seq(|order|, i requires 0 <= i < |order| => Hint(order[i], Get(worst, order[i])))
  }

  lemma ListedSorted(worst: map<Key, int>, order: seq<Key>)
    requires Ordered(worst, order)
    ensures var hints := Folds.Sort(Listed(worst, order), Slowness);
      && Folds.Descending(hints, Slowness) && OnePerKey(hints)
      && forall hint :: hint in hints <==> hint.key in worst && hint.worst == worst[hint.key]
  {
    var listed := Listed(worst, order);
    var hints := Folds.Sort(listed, Slowness);
    Folds.SortIsStable(listed, Slowness);
    SameBagNoneTwice(listed, hints);
    forall hint ensures hint in hints <==> hint.key in worst && hint.worst == worst[hint.key] {
      assert hint in hints <==> hint in multiset(listed);
      if hint in listed {
        var i :| 0 <= i < |order| && listed[i] == hint;
        assert order[i] in order;
      }
      if hint.key in worst && hint.worst == worst[hint.key] {
        var i :| 0 <= i < |order| && order[i] == hint.key;
        assert listed[i] == hint;
      }
    }
    forall i, j | 0 <= i < j < |hints| ensures hints[i].key != hints[j].key {
      assert hints[i] in hints && hints[j] in hints;
    }
  }

  /** What the slow queries suggest, query by query. */
  ghost function SlowKeys(rows: seq<(Query, int)>, tables: seq<Table>, minMs: int): seq<Key> {
    if rows == [] then []
    else
      var last := rows[|rows| - 1];
      SlowKeys(rows[..|rows| - 1], tables, minMs)
      + if last.1 < minMs then [] else FirstSeen(FromQueries(tables, [last.0]))
  }

  /** The hints in the order their columns first came up, each with its worst duration. */
  ghost function Rated(rows: seq<(Query, int)>, tables: seq<Table>, minMs: int): seq<Hint> {
    var order := FirstSeen(SlowKeys(rows, tables, minMs));
    seq(|order|, i requires 0 <= i < |order| =>
      Hint(order[i], match WorstOf(rows, tables, minMs, order[i]) case Some(w) => w case None => 0))
  }

  /** The columns worth an index, with the worst duration that says so: slowest first, and those that are equally
      slow in the order they first came up in. */
  method IndexHintsFromRecords(rows: seq<(Query, int)>, tables: seq<Table>, minMs: int) returns (hints: seq<Hint>)
    ensures Folds.Descending(hints, Slowness) && OnePerKey(hints)
    ensures forall hint :: hint in hints <==> WorstOf(rows, tables, minMs, hint.key) == Some(hint.worst)
    ensures hints == Folds.Sort(Rated(rows, tables, minMs), Slowness)
    ensures forall i, j :: 0 <= i < j < |hints| ==> hints[j].worst <= hints[i].worst
  {
    var worst: map<Key, int> := map[];
    var order: seq<Key> := [];
    for i := 0 to |rows|
      invariant Records(rows[..i], tables, minMs, worst) && Ordered(worst, order)
      invariant order == FirstSeen(SlowKeys(rows[..i], tables, minMs))
    {
      ghost var named := FirstSeen(FromQueries(tables, [rows[i].0]));
      FirstSeenKeepsAll(FromQueries(tables, [rows[i].0]));
      forall key { SuggestedByOne(tables, rows[i].0, key); }
      SlowKeysOneMore(rows, i, tables, minMs);
      if rows[i].1 < minMs {
        RecordsOneMore(rows, i, tables, minMs, worst, worst, named);
        continue;
      }
      ghost var before := worst;
      var suggested := IndexHintsFromSql([rows[i].0], tables);
      worst, order := Raise(worst, order, suggested, rows[i].1, SlowKeys(rows[..i], tables, minMs));
      RecordsOneMore(rows, i, tables, minMs, before, worst, named);
    }
    assert rows[..|rows|] == rows;
    ListedSorted(worst, order);
    assert Listed(worst, order) == Rated(rows, tables, minMs);
    hints := Folds.Sort(Listed(worst, order), Slowness);
    forall i, j | 0 <= i < j < |hints| ensures hints[j].worst <= hints[i].worst {
      Folds.LargestFirst(hints, Slowness, i, j);
    }
  }

  lemma SlowKeysOneMore(rows: seq<(Query, int)>, i: nat, tables: seq<Table>, minMs: int)
    requires i < |rows|
    ensures SlowKeys(rows[..i + 1], tables, minMs) ==
      var before := SlowKeys(rows[..i], tables, minMs);
      if rows[i].1 < minMs then before else before + FirstSeen(FromQueries(tables, [rows[i].0]))
  {
    assert rows[..i + 1][..i] == rows[..i];
  }

  // ---- what the durations mean ------------------------------------------------------------------------------

  ghost predicate SlowFor(rows: seq<(Query, int)>, tables: seq<Table>, minMs: int, key: Key, i: nat) {
    i < |rows| && minMs <= rows[i].1 && Suggests(tables, rows[i].0, key)
  }

  /** A column is reported exactly when some slow query filters it; the duration is that of the slowest of them, or
      zero if the clock ran backwards on all. */
  lemma {:induction false} WorstIsTheWorst(rows: seq<(Query, int)>, tables: seq<Table>, minMs: int, key: Key)
    ensures WorstOf(rows, tables, minMs, key).Some? <==> exists i: nat :: SlowFor(rows, tables, minMs, key, i)
    ensures forall w :: WorstOf(rows, tables, minMs, key) == Some(w) ==>
      && 0 <= w && (forall i: nat :: SlowFor(rows, tables, minMs, key, i) ==> rows[i].1 <= w)
      && (w == 0 || exists i: nat :: SlowFor(rows, tables, minMs, key, i) && rows[i].1 == w)
    decreases |rows|
  {
    if rows != [] {
      var n := |rows| - 1;
      var init := rows[..n];
      WorstIsTheWorst(init, tables, minMs, key);
      forall i: nat | i < n ensures SlowFor(init, tables, minMs, key, i) <==> SlowFor(rows, tables, minMs, key, i) {
        assert init[i] == rows[i];
      }
      assert SlowFor(rows, tables, minMs, key, n) <==> minMs <= rows[n].1 && Suggests(tables, rows[n].0, key);
      forall i: nat | SlowFor(rows, tables, minMs, key, i) ensures i == n || SlowFor(init, tables, minMs, key, i) {
        assert i < n ==> init[i] == rows[i];
      }
    }
  }

  /** The duration reported is one that was measured, and so the true worst, exactly when some slow query on the column
      has a duration that is not negative: the running maximum starts at zero. */
  lemma WorstIsAttainedExactly(rows: seq<(Query, int)>, tables: seq<Table>, minMs: int, key: Key, w: int)
    requires WorstOf(rows, tables, minMs, key) == Some(w)
    ensures (exists i: nat :: SlowFor(rows, tables, minMs, key, i) && rows[i].1 == w) <==>
            (exists i: nat :: SlowFor(rows, tables, minMs, key, i) && 0 <= rows[i].1)
  {
    WorstIsTheWorst(rows, tables, minMs, key);
    if i: nat :| SlowFor(rows, tables, minMs, key, i) && 0 <= rows[i].1 {
      assert rows[i].1 <= w;
    }
  }

  /** With a threshold that is not negative it always is: the panel's is ten. */
  lemma WorstIsMeasured(rows: seq<(Query, int)>, tables: seq<Table>, minMs: int, key: Key, w: int)
    requires 0 <= minMs && WorstOf(rows, tables, minMs, key) == Some(w)
    ensures exists i: nat :: SlowFor(rows, tables, minMs, key, i) && rows[i].1 == w
  {
    WorstIsTheWorst(rows, tables, minMs, key);
    WorstIsAttainedExactly(rows, tables, minMs, key, w);
    var i: nat :| SlowFor(rows, tables, minMs, key, i);
    assert 0 <= rows[i].1;
  }

  /** One query on a column without an index, of duration minus one, under a threshold of minus one: zero is
      reported. */
  lemma NegativeWorstIsZero(column: string)
    ensures var table := Table("t", [Column(column, false)], [], [], []);
      var rows := [(Query([], [("t", column)]), -1)];
      WorstOf(rows, [table], -1, ("t", column)) == Some(0)
      && !exists i: nat :: SlowFor(rows, [table], -1, ("t", column), i) && rows[i].1 == 0
  {
    var table, key := Table("t", [Column(column, false)], [], [], []), ("t", column);
    var query := Query([], [key]);
    assert ByName([table]) == map["t" := table];
    assert table.columns[0].name == column;
    assert key in query.simple;
    assert Suggests([table], query, key);
    var none: seq<(Query, int)> := [];
    assert [(query, -1)][..0] == none && WorstOf(none, [table], -1, key) == None;
  }

  /** Raising the threshold keeps a part of the hints, with the durations they had. */
  lemma HigherThresholdKeepsAPart(rows: seq<(Query, int)>, tables: seq<Table>, low: int, high: int, key: Key)
    requires low <= high
    ensures WorstOf(rows, tables, high, key).Some? ==>
      WorstOf(rows, tables, low, key) == WorstOf(rows, tables, high, key)
  {
    WorstIsTheWorst(rows, tables, low, key);
    WorstIsTheWorst(rows, tables, high, key);
    if WorstOf(rows, tables, high, key).Some? {
      var i: nat :| SlowFor(rows, tables, high, key, i);
      assert SlowFor(rows, tables, low, key, i);
      var a, b := WorstOf(rows, tables, low, key).value, WorstOf(rows, tables, high, key).value;
      if a != 0 {
        var j: nat :| SlowFor(rows, tables, low, key, j) && rows[j].1 == a;
        assert high <= rows[i].1 <= a;
        assert SlowFor(rows, tables, high, key, j);
      }
      if b != 0 {
        var j: nat :| SlowFor(rows, tables, high, key, j) && rows[j].1 == b;
        assert SlowFor(rows, tables, low, key, j);
      }
    }
  }
}
