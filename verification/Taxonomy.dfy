/** The tree of tags: one recursion read both ways, and the breadcrumb walked over what it brings back. */
module Taxonomy {
  import opened Rows
  import Sums
  import Sequences

  /** A tag as the walks see it: its id, and the tag above it. */
  datatype Tag = Tag(id: int, parent: Option<int>)

  /** The table, by primary key. */
  type Table = map<int, Option<int>>

  /** The pair of columns handed to `recursive`: `(parent_id, id)` goes down, `(id, parent_id)` goes up. */
  datatype Hop = Down | Up

  /** `JOIN ... ON source.<child column> = tree.<parent column>`: `b` is one hop from `a`. A NULL joins nothing. */
  predicate Joins(table: Table, hop: Hop, a: int, b: int) {
    && a in table && b in table
    && match hop
       case Down => table[b] == Some(a)
       case Up => table[a] == Some(b)
  }

  /** `WITH RECURSIVE ... UNION`: the step joins the rows of the last round only, and `UNION` drops what is
      already there. It ends because each round that goes on brings a new row. */
  ghost function Grow(table: Table, hop: Hop, reached: set<int>, last: set<int>): set<int>
    requires reached <= table.Keys
    decreases |table.Keys - reached|
  {
    var next := set b | b in table && b !in reached && exists a :: a in last && Joins(table, hop, a, b);
    if next == {} then reached
    else
      Shrinks(table.Keys, reached, next);
      Grow(table, hop, reached + next, next)
  }

  lemma Shrinks(all: set<int>, reached: set<int>, next: set<int>)
    requires next != {} && next <= all && next !! reached
    ensures |all - (reached + next)| < |all - reached|
  {
    assert all - reached == (all - (reached + next)) + next;
  }

  ghost function Walk(table: Table, hop: Hop, anchor: int): set<int> {
    var start := if anchor in table then {anchor} else {};
    Grow(table, hop, start, start)
  }

  ghost function SubtreeOf(table: Table, tag: int): set<int> {
    Walk(table, Down, tag)
  }

  ghost function AncestryOf(table: Table, tag: int): set<int> {
    Walk(table, Up, tag)
  }

  // ---- the recursion is reachability ------------------------------------------------------------------------

  ghost predicate IsPath(table: Table, hop: Hop, path: seq<int>) {
    && path != [] && path[0] in table
    && forall i :: 0 <= i < |path| - 1 ==> Joins(table, hop, path[i], path[i + 1])
  }

  ghost predicate Reaches(table: Table, hop: Hop, a: int, b: int) {
    exists path :: IsPath(table, hop, path) && path[0] == a && path[|path| - 1] == b
  }

  lemma ReachesItself(table: Table, hop: Hop, a: int)
    requires a in table
    ensures Reaches(table, hop, a, a)
  {
    assert IsPath(table, hop, [a]);
  }

  lemma ReachesFurther(table: Table, hop: Hop, a: int, b: int, c: int)
    requires Reaches(table, hop, a, b) && Joins(table, hop, b, c)
    ensures Reaches(table, hop, a, c)
  {
    var path :| IsPath(table, hop, path) && path[0] == a && path[|path| - 1] == b;
    assert IsPath(table, hop, path + [c]);
  }

  ghost predicate Closed(table: Table, hop: Hop, from: set<int>, within: set<int>) {
    forall a, b :: a in from && Joins(table, hop, a, b) ==> b in within
  }

  lemma {:induction false} GrowCloses(table: Table, hop: Hop, reached: set<int>, last: set<int>)
    requires reached <= table.Keys && Closed(table, hop, reached - last, reached)
    ensures reached <= Grow(table, hop, reached, last)
    ensures Closed(table, hop, Grow(table, hop, reached, last), Grow(table, hop, reached, last))
    decreases |table.Keys - reached|
  {
    var next := set b | b in table && b !in reached && exists a :: a in last && Joins(table, hop, a, b);
    forall a, b | a in reached && Joins(table, hop, a, b) ensures b in reached + next {
      if a !in last { assert a in reached - last; }
    }
    if next != {} {
      Shrinks(table.Keys, reached, next);
      GrowCloses(table, hop, reached + next, next);
    }
  }

  lemma {:induction false} GrowOnlyReaches(table: Table, hop: Hop, anchor: int, reached: set<int>, last: set<int>)
    requires reached <= table.Keys && last <= reached
    requires forall x :: x in reached ==> Reaches(table, hop, anchor, x)
    ensures forall x :: x in Grow(table, hop, reached, last) ==> Reaches(table, hop, anchor, x)
    decreases |table.Keys - reached|
  {
    var next := set b | b in table && b !in reached && exists a :: a in last && Joins(table, hop, a, b);
    if next != {} {
      forall b | b in next ensures Reaches(table, hop, anchor, b) {
        var a :| a in last && Joins(table, hop, a, b);
        ReachesFurther(table, hop, anchor, a, b);
      }
      Shrinks(table.Keys, reached, next);
      GrowOnlyReaches(table, hop, anchor, reached + next, next);
    }
  }

  lemma {:induction false} ClosedHoldsPaths(table: Table, hop: Hop, within: set<int>, path: seq<int>)
    requires IsPath(table, hop, path) && path[0] in within && Closed(table, hop, within, within)
    ensures path[|path| - 1] in within
    decreases |path|
  {
    if |path| > 1 {
      var init := path[..|path| - 1];
      assert IsPath(table, hop, init) by {
        forall i | 0 <= i < |init| - 1 ensures Joins(table, hop, init[i], init[i + 1]) {
          assert Joins(table, hop, path[i], path[i + 1]);
        }
      }
      ClosedHoldsPaths(table, hop, within, init);
      assert Joins(table, hop, path[|path| - 2], path[|path| - 2 + 1]);
    }
  }

  /** On every table, cycles and dangling parents included, the recursion brings exactly what can be reached. */
  lemma WalkIsReachability(table: Table, hop: Hop, anchor: int, b: int)
    ensures b in Walk(table, hop, anchor) <==> Reaches(table, hop, anchor, b)
  {
    var start := if anchor in table then {anchor} else {};
    GrowCloses(table, hop, start, start);
    if anchor in table { ReachesItself(table, hop, anchor); }
    GrowOnlyReaches(table, hop, anchor, start, start);
    if Reaches(table, hop, anchor, b) {
      var path :| IsPath(table, hop, path) && path[0] == anchor && path[|path| - 1] == b;
      ClosedHoldsPaths(table, hop, Walk(table, hop, anchor), path);
    }
  }

  const TREE_LIMIT: nat := 500

  /** What comes back under the `LIMIT`: rows of the walk, none twice, as many as fit. */
  ghost predicate IsAnswer(table: Table, hop: Hop, anchor: int, ids: seq<int>) {
    && (forall i :: 0 <= i < |ids| ==> ids[i] in Walk(table, hop, anchor))
    && (forall i, j :: 0 <= i < j < |ids| ==> ids[i] != ids[j])
    && |ids| == if |Walk(table, hop, anchor)| < TREE_LIMIT then |Walk(table, hop, anchor)| else TREE_LIMIT
  }

  lemma {:induction false} SetOfDistinct(ids: seq<int>)
    requires forall i, j :: 0 <= i < j < |ids| ==> ids[i] != ids[j]
    ensures |set x | x in ids| == |ids|
    decreases |ids|
  {
    if ids != [] {
      var init, last := ids[..|ids| - 1], ids[|ids| - 1];
      SetOfDistinct(init);
      assert (set x | x in ids) == (set x | x in init) + {last};
    }
  }

  /** The bound cuts the answer short exactly when the walk is longer than it. */
  lemma LimitCutsExactly(table: Table, hop: Hop, anchor: int, ids: seq<int>)
    requires IsAnswer(table, hop, anchor, ids)
    ensures (forall x :: x in Walk(table, hop, anchor) ==> x in ids) <==> |Walk(table, hop, anchor)| <= TREE_LIMIT
  {
    var answered := set x | x in ids;
    var walk := Walk(table, hop, anchor);
    SetOfDistinct(ids);
    Sequences.PartIsNoLarger(answered, walk);
    if |walk| <= TREE_LIMIT {
      assert walk == answered;
    } else {
      Sums.NonEmpty(walk - answered);
      assert walk == answered + (walk - answered);
      var x :| x in walk - answered;
      assert x !in ids;
    }
  }

  function Other(hop: Hop): Hop {
    if hop == Down then Up else Down
  }

  lemma ReversedPath(table: Table, hop: Hop, path: seq<int>) returns (back: seq<int>)
    requires IsPath(table, hop, path)
    ensures IsPath(table, Other(hop), back)
    ensures |back| == |path| && forall i :: 0 <= i < |path| ==> back[i] == path[|path| - 1 - i]
  {
    var n := |path|;
    back := seq(n, i requires 0 <= i < n => path[n - 1 - i]);
    assert n > 1 ==> Joins(table, hop, path[n - 2], path[n - 2 + 1]);
    forall i | 0 <= i < n - 1 ensures Joins(table, Other(hop), back[i], back[i + 1]) {
      assert Joins(table, hop, path[n - 2 - i], path[n - 2 - i + 1]);
    }
  }

  /** Swapping the pair of columns gives the converse: who is above whom is who is below whom. */
  lemma AncestryIsTheConverse(table: Table, a: int, t: int)
    ensures a in AncestryOf(table, t) <==> t in SubtreeOf(table, a)
  {
    WalkIsReachability(table, Up, t, a);
    WalkIsReachability(table, Down, a, t);
    if Reaches(table, Up, t, a) {
      var path :| IsPath(table, Up, path) && path[0] == t && path[|path| - 1] == a;
      var back := ReversedPath(table, Up, path);
    }
    if Reaches(table, Down, a, t) {
      var path :| IsPath(table, Down, path) && path[0] == a && path[|path| - 1] == t;
      var back := ReversedPath(table, Down, path);
    }
  }

  /** Down is to the tags that name this one as their parent, up is to the tag this one names. */
  lemma HopsAreParentLinks(table: Table, parent: int, child: int)
    requires parent in table && child in table && table[child] == Some(parent)
    ensures child in SubtreeOf(table, parent) && parent in AncestryOf(table, child)
    ensures parent != child && Acyclic(table) ==> parent !in SubtreeOf(table, child)
  {
    assert IsPath(table, Down, [parent, child]);
    WalkIsReachability(table, Down, parent, child);
    AncestryIsTheConverse(table, parent, child);
    WalkIsReachability(table, Down, child, parent);
    if Reaches(table, Down, child, parent) {
      var path :| IsPath(table, Down, path) && path[0] == child && path[|path| - 1] == parent;
      var back := ReversedPath(table, Down, path);
      LoopFromTheParent(table, parent, child, back);
    }
  }

  lemma LoopFromTheParent(table: Table, parent: int, child: int, back: seq<int>)
    requires IsPath(table, Up, back) && back[0] == parent && back[|back| - 1] == child
    requires child in table && table[child] == Some(parent) && parent in table
    ensures !Acyclic(table)
  {
    assert IsPath(table, Up, [child] + back);
  }

  // ---- the breadcrumb ---------------------------------------------------------------------------------------

  /** `{tag.id: tag for tag in rows}`. */
  function ById(rows: seq<Tag>): Table {
    if rows == [] then map[] else ById(rows[..|rows| - 1])[rows[|rows| - 1].id := rows[|rows| - 1].parent]
  }

  /** The next tag up, if the walk goes on to one: `if current.parent_id` is false of NULL and of zero. */
  function NextUp(byId: Table, id: int): Option<int>
    requires id in byId
  {
    match byId[id]
    case None => None
    case Some(parent) => if parent != 0 && parent in byId then Some(parent) else None
  }

  /** The chain from some stop down to the tag: each the parent of the next, none twice, and the walk has nowhere
      new to go from the first. */
  ghost predicate IsBreadcrumb(byId: Table, tag: int, chain: seq<int>) {
    && (chain == [] <==> tag !in byId)
    && (forall i :: 0 <= i < |chain| ==> chain[i] in byId)
    && (chain != [] ==>
          && chain[|chain| - 1] == tag
          && (NextUp(byId, chain[0]) == None || NextUp(byId, chain[0]).value in chain))
    && (forall i :: 0 <= i < |chain| - 1 ==> NextUp(byId, chain[i + 1]) == Some(chain[i]))
    && (forall i, j :: 0 <= i < j < |chain| ==> chain[i] != chain[j])
  }

  function Ids(tags: seq<Tag>): (ids: seq<int>)
    ensures |ids| == |tags| && forall i :: 0 <= i < |tags| ==> ids[i] == tags[i].id
  {
    seq(|tags|, i requires 0 <= i < |tags| => tags[i].id)
  }

  function Reversed<T>(s: seq<T>): (r: seq<T>)
    ensures |r| == |s| && forall i :: 0 <= i < |s| ==> r[i] == s[|s| - 1 - i]
  {
    seq(|s|, i requires 0 <= i < |s| => s[|s| - 1 - i])
  }

  /** The walk, from the tag up. The second condition of the loop is what ends it on a cycle. */
  method OrderAncestry(rows: seq<Tag>, tag: int) returns (breadcrumb: seq<Tag>)
    ensures IsBreadcrumb(ById(rows), tag, Ids(breadcrumb))
    ensures forall i :: 0 <= i < |breadcrumb| ==>
      breadcrumb[i].id in ById(rows) && breadcrumb[i].parent == ById(rows)[breadcrumb[i].id]
  {
    var byId := ById(rows);
    var chain: seq<Tag> := [];
    var current := if tag in byId then Some(Tag(tag, byId[tag])) else None;
    while current.Some? && current.value.id !in Ids(chain)
      invariant forall i :: 0 <= i < |chain| ==> chain[i].id in byId && chain[i].parent == byId[chain[i].id]
      invariant forall i, j :: 0 <= i < j < |chain| ==> chain[i].id != chain[j].id
      invariant forall i :: 0 <= i < |chain| - 1 ==> NextUp(byId, chain[i].id) == Some(chain[i + 1].id)
      invariant chain == [] ==> current == if tag in byId then Some(Tag(tag, byId[tag])) else None
      invariant chain != [] ==> chain[0].id == tag
      invariant current.Some? ==> current.value.id in byId && current.value.parent == byId[current.value.id]
      invariant chain != [] ==>
        NextUp(byId, chain[|chain| - 1].id) == if current.Some? then Some(current.value.id) else None
      decreases |byId.Keys| - |chain|
    {
      Sequences.DistinctAreFew(Ids(chain + [current.value]), byId.Keys);
      chain := chain + [current.value];
      var up := current.value.parent;
      current := if up.Some? && up.value != 0 && up.value in byId then Some(Tag(up.value, byId[up.value])) else None;
    }
    breadcrumb := Reversed(chain);
    if current.Some? {
      var k :| 0 <= k < |chain| && Ids(chain)[k] == current.value.id;
      assert Ids(breadcrumb)[|chain| - 1 - k] == current.value.id;
    }
  }

  /** There is only one such chain. */
  lemma {:induction false} BreadcrumbsAgree(byId: Table, tag: int, a: seq<int>, b: seq<int>, k: nat)
    requires IsBreadcrumb(byId, tag, a) && IsBreadcrumb(byId, tag, b)
    requires k < |a| && k < |b|
    ensures a[|a| - 1 - k] == b[|b| - 1 - k]
  {
    if k > 0 {
      BreadcrumbsAgree(byId, tag, a, b, k - 1);
      assert NextUp(byId, a[|a| - 1 - k + 1]) == Some(a[|a| - 1 - k]);
      assert NextUp(byId, b[|b| - 1 - k + 1]) == Some(b[|b| - 1 - k]);
    }
  }

  lemma NoneIsLonger(byId: Table, tag: int, a: seq<int>, b: seq<int>)
    requires IsBreadcrumb(byId, tag, a) && IsBreadcrumb(byId, tag, b)
    ensures |a| <= |b|
  {
    if |b| < |a| && b != [] {
      // One step above the start of `b` there is `a`'s next tag, so `b` stopped on a tag it already had.
      var d := |a| - |b|;
      BreadcrumbsAgree(byId, tag, a, b, |b| - 1);
      assert NextUp(byId, a[d - 1 + 1]) == Some(a[d - 1]);
      var j :| 0 <= j < |b| && b[j] == a[d - 1];
      BreadcrumbsAgree(byId, tag, a, b, |b| - 1 - j);
    }
  }

  lemma BreadcrumbIsUnique(byId: Table, tag: int, a: seq<int>, b: seq<int>)
    requires IsBreadcrumb(byId, tag, a) && IsBreadcrumb(byId, tag, b)
    ensures a == b
  {
    NoneIsLonger(byId, tag, a, b);
    NoneIsLonger(byId, tag, b, a);
    forall i | 0 <= i < |a| ensures a[i] == b[i] {
      BreadcrumbsAgree(byId, tag, a, b, |a| - 1 - i);
    }
  }

  /** The rows of these tags, in any order. */
  ghost predicate RowsOf(table: Table, tags: set<int>, rows: seq<Tag>) {
    && (forall i :: 0 <= i < |rows| ==>
      rows[i].id in tags && rows[i].id in table && rows[i].parent == table[rows[i].id])
    && (forall t :: t in tags ==> exists i :: 0 <= i < |rows| && rows[i].id == t)
  }

  lemma {:induction false} ByIdFindsTheRows(rows: seq<Tag>)
    ensures forall x :: x in ById(rows) <==> exists i :: 0 <= i < |rows| && rows[i].id == x
    ensures forall x :: x in ById(rows) ==> Tag(x, ById(rows)[x]) in rows
    decreases |rows|
  {
    if rows != [] {
      var init, last := rows[..|rows| - 1], rows[|rows| - 1];
      ByIdFindsTheRows(init);
      assert ById(rows) == ById(init)[last.id := last.parent];
      forall x | exists i :: 0 <= i < |rows| && rows[i].id == x ensures x in ById(rows) {
        var i :| 0 <= i < |rows| && rows[i].id == x;
        if i < |init| { assert init[i].id == x; }
      }
      forall x | x in ById(rows) ensures exists i :: 0 <= i < |rows| && rows[i].id == x {
        if x != last.id {
          var i :| 0 <= i < |init| && init[i].id == x;
          assert rows[i].id == x;
        } else {
          assert rows[|rows| - 1].id == x;
        }
      }
    }
  }

  /** The dictionary is the same whatever order the engine sends the rows in. */
  lemma AnyOrderOfRows(table: Table, tags: set<int>, rows: seq<Tag>)
    requires RowsOf(table, tags, rows)
    ensures ById(rows).Keys == tags && forall t :: t in tags ==> t in table && ById(rows)[t] == table[t]
  {
    ByIdFindsTheRows(rows);
    forall x | x in tags ensures x in ById(rows).Keys {
      var i :| 0 <= i < |rows| && rows[i].id == x;
    }
    forall x | x in ById(rows).Keys ensures x in tags && ById(rows)[x] == table[x] {
      assert Tag(x, ById(rows)[x]) in rows;
    }
  }

  /** Two orders of the same rows give the same breadcrumb. */
  lemma BreadcrumbIgnoresRowOrder(
    table: Table, tags: set<int>, tag: int, rows: seq<Tag>, others: seq<Tag>, a: seq<int>, b: seq<int>)
    requires RowsOf(table, tags, rows) && RowsOf(table, tags, others)
    requires IsBreadcrumb(ById(rows), tag, a) && IsBreadcrumb(ById(others), tag, b)
    ensures a == b
  {
    AnyOrderOfRows(table, tags, rows);
    AnyOrderOfRows(table, tags, others);
    forall t | t in ById(rows).Keys ensures ById(rows)[t] == ById(others)[t] {
      assert t in tags;
    }
    assert ById(rows) == ById(others);
    BreadcrumbIsUnique(ById(rows), tag, a, b);
  }

  // ---- the breadcrumb of an ancestry ------------------------------------------------------------------------

  lemma AncestryIsClosed(table: Table, tag: int)
    ensures Closed(table, Up, AncestryOf(table, tag), AncestryOf(table, tag))
    ensures AncestryOf(table, tag) <= table.Keys && (tag in table <==> tag in AncestryOf(table, tag))
  {
    var start := if tag in table then {tag} else {};
    GrowCloses(table, Up, start, start);
    forall x | x in AncestryOf(table, tag) ensures x in table {
      WalkIsReachability(table, Up, tag, x);
      var path :| IsPath(table, Up, path) && path[0] == tag && path[|path| - 1] == x;
      assert |path| > 1 ==> Joins(table, Up, path[|path| - 2], path[|path| - 2 + 1]);
    }
    WalkIsReachability(table, Up, tag, tag);
  }

  lemma NextUpJoins(table: Table, tag: int, rows: seq<Tag>, x: int)
    requires RowsOf(table, AncestryOf(table, tag), rows) && x in ById(rows)
    ensures NextUp(ById(rows), x).Some? ==> Joins(table, Up, x, NextUp(ById(rows), x).value)
    ensures forall p :: Joins(table, Up, x, p) && p != 0 ==> NextUp(ById(rows), x) == Some(p)
  {
    AnyOrderOfRows(table, AncestryOf(table, tag), rows);
    AncestryIsClosed(table, tag);
  }

  /** Every tag of the chain is one the asked-for tag reaches. */
  lemma ChainIsAncestors(table: Table, tag: int, rows: seq<Tag>, chain: seq<int>)
    requires RowsOf(table, AncestryOf(table, tag), rows) && IsBreadcrumb(ById(rows), tag, chain)
    ensures forall x :: x in chain ==> x in AncestryOf(table, tag)
  {
    AnyOrderOfRows(table, AncestryOf(table, tag), rows);
  }

  /** From a link to the next above it, the chain is closed, unless the link is to id zero. */
  lemma ChainIsClosed(table: Table, tag: int, rows: seq<Tag>, chain: seq<int>, x: int, p: int)
    requires RowsOf(table, AncestryOf(table, tag), rows) && IsBreadcrumb(ById(rows), tag, chain)
    requires x in chain && Joins(table, Up, x, p) && p != 0
    ensures p in chain
  {
    var i :| 0 <= i < |chain| && chain[i] == x;
    NextUpJoins(table, tag, rows, x);
    if i > 0 { assert NextUp(ById(rows), chain[i - 1 + 1]) == Some(chain[i - 1]); }
  }

  lemma ZeroOnlyAsTheTag(byId: Table, tag: int, chain: seq<int>)
    requires IsBreadcrumb(byId, tag, chain) && 0 in chain
    ensures tag == 0
  {
    forall i | 0 <= i < |chain| - 1 ensures chain[i] != 0 {
      assert NextUp(byId, chain[i + 1]) == Some(chain[i]);
    }
  }

  /** The breadcrumb names the whole ancestry, cycles included, except exactly when some tag above has id zero:
      that id is false in a condition. (Generated ids start at one.) */
  lemma BreadcrumbIsTheAncestryExactly(table: Table, tag: int, rows: seq<Tag>, chain: seq<int>)
    requires RowsOf(table, AncestryOf(table, tag), rows) && IsBreadcrumb(ById(rows), tag, chain)
    ensures (forall x :: x in AncestryOf(table, tag) <==> x in chain) <==> (tag == 0 || 0 !in AncestryOf(table, tag))
  {
    AnyOrderOfRows(table, AncestryOf(table, tag), rows);
    AncestryIsClosed(table, tag);
    ChainIsAncestors(table, tag, rows, chain);
    if tag == 0 || 0 !in AncestryOf(table, tag) {
      var within := set x | x in chain;
      forall x, p | x in within && Joins(table, Up, x, p) ensures p in within {
        if p == 0 {
          assert p in AncestryOf(table, tag);
        } else {
          ChainIsClosed(table, tag, rows, chain, x, p);
        }
      }
      forall x | x in AncestryOf(table, tag) ensures x in chain {
        WalkIsReachability(table, Up, tag, x);
        var path :| IsPath(table, Up, path) && path[0] == tag && path[|path| - 1] == x;
        ClosedHoldsPaths(table, Up, within, path);
      }
    } else if 0 in chain {
      ZeroOnlyAsTheTag(ById(rows), tag, chain);
    }
  }

  /** Every tag above is in the breadcrumb of every tag below it. */
  lemma SubtreeShowsTheTag(table: Table, tag: int, below: int, rows: seq<Tag>, chain: seq<int>)
    requires below in SubtreeOf(table, tag) && (below == 0 || 0 !in AncestryOf(table, below))
    requires RowsOf(table, AncestryOf(table, below), rows) && IsBreadcrumb(ById(rows), below, chain)
    ensures tag in chain
  {
    AncestryIsTheConverse(table, tag, below);
    AncestryIsClosed(table, below);
    BreadcrumbIsTheAncestryExactly(table, below, rows, chain);
  }

  lemma AncestryIsTheChain(table: Table, tag: int, rows: seq<Tag>, chain: seq<int>, p: int)
    requires tag in table && (tag == 0 || 0 !in AncestryOf(table, tag))
    requires RowsOf(table, AncestryOf(table, tag), rows) && IsBreadcrumb(ById(rows), tag, chain) && chain != []
    requires Joins(table, Up, chain[0], p)
    ensures p in chain
  {
    ChainIsAncestors(table, tag, rows, chain);
    AncestryIsClosed(table, tag);
    BreadcrumbIsTheAncestryExactly(table, tag, rows, chain);
  }

  /** A child of the tag with id zero: its ancestry is the two of them, and its breadcrumb is itself alone. */
  lemma ZeroIsLeftOut()
    ensures var table: Table := map[0 := None, 5 := Some(0)];
      && 0 in AncestryOf(table, 5) && RowsOf(table, AncestryOf(table, 5), [Tag(5, Some(0)), Tag(0, None)])
      && IsBreadcrumb(ById([Tag(5, Some(0)), Tag(0, None)]), 5, [5])
  {
    var table: Table := map[0 := None, 5 := Some(0)];
    var rows := [Tag(5, Some(0)), Tag(0, None)];
    assert IsPath(table, Up, [5, 0]) && IsPath(table, Up, [5]);
    WalkIsReachability(table, Up, 5, 0);
    WalkIsReachability(table, Up, 5, 5);
    AncestryIsClosed(table, 5);
    assert rows[0].id == 5 && rows[1].id == 0;
    AnyOrderOfRows(table, AncestryOf(table, 5), rows);
  }

  ghost predicate Acyclic(table: Table) {
    forall path :: IsPath(table, Up, path) && |path| > 1 ==> path[0] != path[|path| - 1]
  }

  /** With no cycle the chain starts at a root: a tag with no parent, or none that exists. */
  lemma AcyclicStartsAtTheRoot(table: Table, tag: int, rows: seq<Tag>, chain: seq<int>)
    requires Acyclic(table) && tag in table && (tag == 0 || 0 !in AncestryOf(table, tag))
    requires RowsOf(table, AncestryOf(table, tag), rows) && IsBreadcrumb(ById(rows), tag, chain)
    ensures chain != [] && forall p :: !Joins(table, Up, chain[0], p)
  {
    AnyOrderOfRows(table, AncestryOf(table, tag), rows);
    AncestryIsClosed(table, tag);
    NextUpJoins(table, tag, rows, chain[0]);
    if p :| Joins(table, Up, chain[0], p) {
      AncestryIsTheChain(table, tag, rows, chain, p);
      var j :| 0 <= j < |chain| && chain[j] == p;
      var loop := [chain[0]] + seq(j + 1, i requires 0 <= i <= j => chain[j - i]);
      forall i | 0 <= i < |loop| - 1 ensures Joins(table, Up, loop[i], loop[i + 1]) {
        if i > 0 {
          NextUpJoins(table, tag, rows, chain[j - i + 1]);
          assert NextUp(ById(rows), chain[j - i + 1]) == Some(chain[j - i]);
        }
      }
      assert IsPath(table, Up, loop);
      assert false;
    }
  }
}
