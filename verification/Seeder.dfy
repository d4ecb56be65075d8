/** The seeder's forest of tags, inserted in waves: a parent's id has to exist before a row can point at it. */
module Seeder {
  import opened Rows
  import Sequences

  /** A tag as it is drawn: a name and its group. */
  datatype Drawn = Drawn(name: string, group: int)

  datatype TagRow = TagRow(id: int, name: string, group: int, parent: Option<int>)

  ghost predicate DistinctNames(drawn: seq<Drawn>) {
    forall i, j :: 0 <= i < j < |drawn| ==> drawn[i].name != drawn[j].name
  }

  function Names(drawn: seq<Drawn>): set<string> {
    set i | 0 <= i < |drawn| :: drawn[i].name
  }

  /** A tag whose parent was not drawn at this scale is a root. */
  predicate IsRoot(seeded: set<string>, parents: map<string, string>, name: string) {
    name !in parents || parents[name] !in seeded
  }

  ghost predicate HasRoot(part: set<string>, parents: map<string, string>) {
    exists name :: name in part && IsRoot(part, parents, name)
  }

  /** Every non-empty part of the drawn names has one whose parent is not in the part: what makes them a forest. */
  ghost predicate Forest(seeded: set<string>, parents: map<string, string>) {
    forall part :: part != {} && part <= seeded ==> HasRoot(part, parents)
  }

  /** How deep each name is, in the forest that was seeded. */
  ghost predicate IsDepth(seeded: set<string>, parents: map<string, string>, depth: map<string, nat>) {
    && depth.Keys == seeded
    && forall name :: name in seeded ==>
      depth[name] == if IsRoot(seeded, parents, name) then 0 else depth[parents[name]] + 1
  }

  // ---- a forest is what has no cycle ------------------------------------------------------------------------

  /** Each name is the parent of the one before it. */
  ghost predicate Climb(seeded: set<string>, parents: map<string, string>, path: seq<string>) {
    && (forall i :: 0 <= i < |path| ==> path[i] in seeded)
    && (forall i :: 0 <= i < |path| - 1 ==> path[i] in parents && parents[path[i]] == path[i + 1])
  }

  ghost predicate NoCycle(seeded: set<string>, parents: map<string, string>) {
    forall path :: Climb(seeded, parents, path) && |path| > 1 ==> path[0] != path[|path| - 1]
  }

  lemma {:induction false} LongClimb(
    seeded: set<string>, parents: map<string, string>, part: set<string>, name: string, n: nat)
    returns (path: seq<string>)
    requires part <= seeded && name in part
    requires forall x :: x in part ==> !IsRoot(part, parents, x)
    ensures |path| == n + 1 && path[0] == name && Climb(seeded, parents, path)
    ensures forall i :: 0 <= i < |path| ==> path[i] in part
    decreases n
  {
    if n == 0 {
      path := [name];
    } else {
      path := LongClimb(seeded, parents, part, parents[name], n - 1);
      path := [name] + path;
    }
  }

  lemma RepeatIsACycle(seeded: set<string>, parents: map<string, string>, path: seq<string>, i: nat, j: nat)
    requires Climb(seeded, parents, path) && i < j < |path| && path[i] == path[j]
    ensures !NoCycle(seeded, parents)
  {
    assert Climb(seeded, parents, path[i..j + 1]);
  }

  /** Too long a climb within a part comes back to a name it has passed. */
  lemma NoCycleMakesAForest(seeded: set<string>, parents: map<string, string>)
    requires NoCycle(seeded, parents)
    ensures Forest(seeded, parents)
  {
    forall part: set<string> | part != {} && part <= seeded
      ensures HasRoot(part, parents)
    {
      if !HasRoot(part, parents) {
        var name :| name in part;
        var path := LongClimb(seeded, parents, part, name, |part|);
        if forall i, j :: 0 <= i < j < |path| ==> path[i] != path[j] {
          Sequences.DistinctAreFew(path, part);
        } else {
          var i, j :| 0 <= i < j < |path| && path[i] == path[j];
          RepeatIsACycle(seeded, parents, path, i, j);
        }
      }
    }
  }

  lemma ACycleHasNoRoot(seeded: set<string>, parents: map<string, string>, path: seq<string>)
    requires Climb(seeded, parents, path) && |path| > 1 && path[0] == path[|path| - 1]
    ensures !Forest(seeded, parents)
  {
    var part := set i | 0 <= i < |path| :: path[i];
    assert path[0] in part && part <= seeded;
    forall name | name in part ensures !IsRoot(part, parents, name) {
      var i :| 0 <= i < |path| && path[i] == name;
      var k := if i == |path| - 1 then 0 else i;
      assert path[k] in parents && parents[path[k]] == path[k + 1];
    }
    assert !HasRoot(part, parents);
  }

  lemma ForestHasNoCycle(seeded: set<string>, parents: map<string, string>)
    requires Forest(seeded, parents)
    ensures NoCycle(seeded, parents)
  {
    forall path | Climb(seeded, parents, path) && |path| > 1 ensures path[0] != path[|path| - 1] {
      if path[0] == path[|path| - 1] { ACycleHasNoRoot(seeded, parents, path); }
    }
  }

  /** "Acyclic" and "every part has a root of its own" are the same condition on the parents. */
  lemma ForestIsAcyclic(seeded: set<string>, parents: map<string, string>)
    ensures Forest(seeded, parents) <==> NoCycle(seeded, parents)
  {
    if NoCycle(seeded, parents) { NoCycleMakesAForest(seeded, parents); }
    if Forest(seeded, parents) { ForestHasNoCycle(seeded, parents); }
  }

  lemma DepthIsUnique(seeded: set<string>, parents: map<string, string>, a: map<string, nat>, b: map<string, nat>)
    requires Forest(seeded, parents) && IsDepth(seeded, parents, a) && IsDepth(seeded, parents, b)
    ensures a == b
  {
    var differ := set name | name in seeded && a[name] != b[name];
    assert differ <= seeded;
    forall name | name in seeded && IsRoot(differ, parents, name) ensures a[name] == b[name] { }
    assert !HasRoot(differ, parents);
    forall name | name in a.Keys ensures a[name] == b[name] {
      assert name !in differ;
    }
  }

  // ---- the loop ---------------------------------------------------------------------------------------------

  predicate Ready(seeded: set<string>, parents: map<string, string>, known: set<string>, name: string) {
    IsRoot(seeded, parents, name) || parents[name] in known
  }

  /** The rows whose parents are in already, in drawing order. */
  function Wave(
    pending: seq<Drawn>, seeded: set<string>, parents: map<string, string>, known: set<string>): seq<Drawn>
  {
    if pending == [] then []
    else
      var row := pending[|pending| - 1];
      var before := Wave(pending[..|pending| - 1], seeded, parents, known);
      if Ready(seeded, parents, known, row.name) then before + [row] else before
  }

  /** `[row for row in pending if row not in wave]`. */
  function Without(pending: seq<Drawn>, wave: seq<Drawn>): seq<Drawn> {
    if pending == [] then []
    else
      var row, before := pending[|pending| - 1], Without(pending[..|pending| - 1], wave);
      if row in wave then before else before + [row]
  }

  /** `identifiers.get(_TAG_PARENTS.get(name, ""))`. */
  function ParentId(parents: map<string, string>, identifiers: map<string, int>, name: string): Option<int> {
    var parent := if name in parents then parents[name] else "";
    if parent in identifiers then Some(identifiers[parent]) else None
  }

  lemma {:induction false} WaveIsTheReady(
    pending: seq<Drawn>, seeded: set<string>, parents: map<string, string>, known: set<string>)
    ensures forall row ::
      row in Wave(pending, seeded, parents, known) <==> row in pending && Ready(seeded, parents, known, row.name)
    ensures |Wave(pending, seeded, parents, known)| <= |pending|
    ensures DistinctNames(pending) ==> DistinctNames(Wave(pending, seeded, parents, known))
    decreases |pending|
  {
    if pending != [] {
      WaveIsTheReady(pending[..|pending| - 1], seeded, parents, known);
      var before := Wave(pending[..|pending| - 1], seeded, parents, known);
      if DistinctNames(pending) {
        forall i | 0 <= i < |before| ensures before[i].name != pending[|pending| - 1].name {
          assert before[i] in pending[..|pending| - 1];
        }
      }
    }
  }

  lemma {:induction false} WithoutIsTheRest(pending: seq<Drawn>, wave: seq<Drawn>)
    ensures forall row :: row in Without(pending, wave) <==> row in pending && row !in wave
    ensures |Without(pending, wave)| <= |pending|
    ensures (exists row :: row in pending && row in wave) ==> |Without(pending, wave)| < |pending|
    ensures DistinctNames(pending) ==> DistinctNames(Without(pending, wave))
    decreases |pending|
  {
    if pending != [] {
      WithoutIsTheRest(pending[..|pending| - 1], wave);
      var before := Without(pending[..|pending| - 1], wave);
      if DistinctNames(pending) {
        forall i | 0 <= i < |before| ensures before[i].name != pending[|pending| - 1].name {
          assert before[i] in pending[..|pending| - 1];
        }
      }
    }
  }

  function RowNames(tags: seq<TagRow>): set<string> {
    set i | 0 <= i < |tags| :: tags[i].name
  }

  lemma RowNamesOneMore(tags: seq<TagRow>, row: TagRow)
    ensures RowNames(tags + [row]) == RowNames(tags) + {row.name}
  {
    var more := tags + [row];
    assert more[|tags|] == row;
    forall name | name in RowNames(tags) ensures name in RowNames(more) {
      var i :| 0 <= i < |tags| && tags[i].name == name;
      assert more[i].name == name;
    }
  }

  /** What has been inserted so far: ids in order, each row drawn, each parent an earlier row in the wave before. */
  ghost predicate Inserted(
    drawn: seq<Drawn>, parents: map<string, string>, tags: seq<TagRow>, depth: map<string, nat>, next: int)
  {
    && depth.Keys == RowNames(tags) && InOrder(drawn, tags, depth, next)
    && AllPlaced(Names(drawn), parents, tags, depth)
  }

  ghost predicate InOrder(drawn: seq<Drawn>, tags: seq<TagRow>, depth: map<string, nat>, next: int)
    requires depth.Keys == RowNames(tags)
  {
    && (forall i :: 0 <= i < |tags| ==> tags[i].id == next + i)
    && (forall i :: 0 <= i < |tags| ==> Drawn(tags[i].name, tags[i].group) in drawn)
    && (forall i, j :: 0 <= i < j < |tags| ==> tags[i].name != tags[j].name)
    && (forall i, j :: 0 <= i < j < |tags| ==> depth[tags[i].name] <= depth[tags[j].name])
  }

  ghost predicate AllPlaced(
    seeded: set<string>, parents: map<string, string>, tags: seq<TagRow>, depth: map<string, nat>)
    requires depth.Keys == RowNames(tags)
  {
    forall i :: 0 <= i < |tags| ==> Placed(seeded, parents, tags, depth, i)
  }

  /** A root points nowhere; any other tag points at the row of its parent, one wave up. */
  ghost predicate Placed(
    seeded: set<string>, parents: map<string, string>, tags: seq<TagRow>, depth: map<string, nat>, i: nat)
    requires i < |tags| && tags[i].name in depth
  {
    if IsRoot(seeded, parents, tags[i].name) then tags[i].parent == None && depth[tags[i].name] == 0
    else exists j :: 0 <= j < i && tags[j].name == parents[tags[i].name] && tags[i].parent == Some(tags[j].id)
                     && tags[j].name in depth && depth[tags[i].name] == depth[tags[j].name] + 1
  }

  /** `identifiers` knows the id of every row inserted before this wave. */
  ghost predicate Knows(identifiers: map<string, int>, tags: seq<TagRow>) {
    && identifiers.Keys == RowNames(tags)
    && forall i :: 0 <= i < |tags| ==> tags[i].name in identifiers && identifiers[tags[i].name] == tags[i].id
  }

  /** A row may go into this wave: it is drawn and not in yet, and its parent, if it has one, went in one wave up. */
  ghost predicate Due(
    drawn: seq<Drawn>, parents: map<string, string>, identifiers: map<string, int>, depth: map<string, nat>, level: nat,
    row: Drawn)
  {
    && row in drawn && row.name !in depth
    && Ready(Names(drawn), parents, identifiers.Keys, row.name)
    && if IsRoot(Names(drawn), parents, row.name) then level == 0
       else 0 < level && parents[row.name] in depth && depth[parents[row.name]] == level - 1
  }

  function RowOf(parents: map<string, string>, identifiers: map<string, int>, row: Drawn, id: int): TagRow {
    TagRow(id, row.name, row.group, ParentId(parents, identifiers, row.name))
  }

  lemma PlacedStays(
    seeded: set<string>, parents: map<string, string>, tags: seq<TagRow>, depth: map<string, nat>, row: TagRow,
    level: nat, i: nat)
    requires i < |tags| && tags[i].name in depth && row.name !in depth && Placed(seeded, parents, tags, depth, i)
    ensures Placed(seeded, parents, tags + [row], depth[row.name := level], i)
  {
    if !IsRoot(seeded, parents, tags[i].name) {
      var j :| 0 <= j < i && tags[j].name == parents[tags[i].name] && tags[i].parent == Some(tags[j].id)
        && tags[j].name in depth && depth[tags[i].name] == depth[tags[j].name] + 1;
      assert (tags + [row])[j] == tags[j];
    }
  }

  lemma NewRowPlaced(
    drawn: seq<Drawn>, parents: map<string, string>, earlier: seq<TagRow>, tags: seq<TagRow>,
    identifiers: map<string, int>, depth: map<string, nat>, level: nat, row: Drawn, id: int)
    requires "" !in Names(drawn) && Due(drawn, parents, identifiers, depth, level, row)
    requires earlier <= tags && Knows(identifiers, earlier) && identifiers.Keys <= Names(drawn)
    ensures var added := RowOf(parents, identifiers, row, id);
      Placed(Names(drawn), parents, tags + [added], depth[row.name := level], |tags|)
  {
    var added := RowOf(parents, identifiers, row, id);
    if !IsRoot(Names(drawn), parents, row.name) {
      var j :| 0 <= j < |earlier| && earlier[j].name == parents[row.name];
      assert (tags + [added])[j] == earlier[j];
    }
  }

  lemma RestStaysPlaced(
    seeded: set<string>, parents: map<string, string>, tags: seq<TagRow>, depth: map<string, nat>, row: TagRow,
    level: nat)
    requires depth.Keys == RowNames(tags) && row.name !in depth && AllPlaced(seeded, parents, tags, depth)
    requires row.name in depth[row.name := level]
      && Placed(seeded, parents, tags + [row], depth[row.name := level], |tags|)
    ensures depth[row.name := level].Keys == RowNames(tags + [row])
    ensures AllPlaced(seeded, parents, tags + [row], depth[row.name := level])
  {
    RowNamesOneMore(tags, row);
    var more, deeper := tags + [row], depth[row.name := level];
    forall i | 0 <= i < |tags| ensures Placed(seeded, parents, more, deeper, i) {
      PlacedStays(seeded, parents, tags, depth, row, level, i);
    }
  }

  lemma OneMoreInOrder(
    drawn: seq<Drawn>, tags: seq<TagRow>, depth: map<string, nat>, next: int, row: TagRow, level: nat)
    requires depth.Keys == RowNames(tags) && row.name !in depth && InOrder(drawn, tags, depth, next)
    requires row.id == next + |tags| && Drawn(row.name, row.group) in drawn
    requires forall name :: name in depth ==> depth[name] <= level
    ensures depth[row.name := level].Keys == RowNames(tags + [row])
    ensures InOrder(drawn, tags + [row], depth[row.name := level], next)
  {
    RowNamesOneMore(tags, row);
  }

  lemma InsertOne(
    drawn: seq<Drawn>, parents: map<string, string>, earlier: seq<TagRow>, tags: seq<TagRow>,
    identifiers: map<string, int>, depth: map<string, nat>, level: nat, row: Drawn, next: int)
    requires "" !in Names(drawn) && Due(drawn, parents, identifiers, depth, level, row)
    requires earlier <= tags && Knows(identifiers, earlier) && identifiers.Keys <= Names(drawn)
    requires Inserted(drawn, parents, tags, depth, next)
    requires forall name :: name in depth ==> depth[name] <= level
    ensures var added := RowOf(parents, identifiers, row, next + |tags|);
      Inserted(drawn, parents, tags + [added], depth[row.name := level], next)
  {
    var added := RowOf(parents, identifiers, row, next + |tags|);
    OneMoreInOrder(drawn, tags, depth, next, added, level);
    NewRowPlaced(drawn, parents, earlier, tags, identifiers, depth, level, row, next + |tags|);
    RestStaysPlaced(Names(drawn), parents, tags, depth, added, level);
  }

  /** The first `k` rows of the wave are in, at this level, and nothing else is new. */
  ghost predicate WaveIn(
    wave: seq<Drawn>, k: nat, inserted: seq<TagRow>, depth: map<string, nat>, deeper: map<string, nat>, level: nat)
    requires k <= |wave|
  {
    && |inserted| == k
    && (forall i :: 0 <= i < k ==> Drawn(inserted[i].name, inserted[i].group) == wave[i])
    && deeper.Keys == depth.Keys + Names(wave[..k])
    && (forall name :: name in deeper ==> deeper[name] == if name in depth then depth[name] else level)
  }

  lemma NamesOneMore(drawn: seq<Drawn>, k: nat)
    requires k < |drawn|
    ensures Names(drawn[..k + 1]) == Names(drawn[..k]) + {drawn[k].name}
    ensures DistinctNames(drawn) ==> drawn[k].name !in Names(drawn[..k])
  {
    var fewer, more := drawn[..k], drawn[..k + 1];
    assert more[k] == drawn[k];
    forall name | name in Names(fewer) ensures name in Names(more) {
      var i :| 0 <= i < |fewer| && fewer[i].name == name;
      assert more[i].name == name;
    }
  }

  /** A row is still due after others of its wave have gone in. */
  lemma StillDue(
    wave: seq<Drawn>, k: nat, parents: map<string, string>, identifiers: map<string, int>, drawn: seq<Drawn>,
    depth: map<string, nat>, level: nat, inserted: seq<TagRow>, deeper: map<string, nat>)
    requires DistinctNames(wave) && k < |wave| && WaveIn(wave, k, inserted, depth, deeper, level)
    requires Due(drawn, parents, identifiers, depth, level, wave[k])
    requires forall name :: name in depth ==> depth[name] < level
    ensures Due(drawn, parents, identifiers, deeper, level, wave[k])
    ensures forall name :: name in deeper ==> deeper[name] <= level
    ensures forall id :: WaveIn(wave, k + 1, inserted + [RowOf(parents, identifiers, wave[k], id)], depth,
                                deeper[wave[k].name := level], level)
  {
    NamesOneMore(wave, k);
    forall name | name in deeper ensures deeper[name] <= level { }
  }

  lemma InsertNext(
    wave: seq<Drawn>, k: nat, parents: map<string, string>, identifiers: map<string, int>, tags: seq<TagRow>, next: int,
    drawn: seq<Drawn>, depth: map<string, nat>, level: nat, inserted: seq<TagRow>, deeper: map<string, nat>)
    requires "" !in Names(drawn) && DistinctNames(wave) && k < |wave|
    requires Knows(identifiers, tags) && identifiers.Keys <= Names(drawn)
    requires Due(drawn, parents, identifiers, depth, level, wave[k])
    requires forall name :: name in depth ==> depth[name] < level
    requires Inserted(drawn, parents, tags + inserted, deeper, next) && WaveIn(wave, k, inserted, depth, deeper, level)
    ensures var row := RowOf(parents, identifiers, wave[k], next + |tags| + k);
      && Inserted(drawn, parents, tags + (inserted + [row]), deeper[row.name := level], next)
      && WaveIn(wave, k + 1, inserted + [row], depth, deeper[row.name := level], level)
  {
    var row := RowOf(parents, identifiers, wave[k], next + |tags| + k);
    StillDue(wave, k, parents, identifiers, drawn, depth, level, inserted, deeper);
    InsertOne(drawn, parents, tags, tags + inserted, identifiers, deeper, level, wave[k], next);
    assert tags + inserted + [row] == tags + (inserted + [row]);
  }

  lemma IdentifiersAreDrawn(
    drawn: seq<Drawn>, parents: map<string, string>, identifiers: map<string, int>, tags: seq<TagRow>,
    depth: map<string, nat>, next: int)
    requires Knows(identifiers, tags) && Inserted(drawn, parents, tags, depth, next)
    ensures identifiers.Keys <= Names(drawn)
  {
    forall name | name in identifiers.Keys ensures name in Names(drawn) {
      var i :| 0 <= i < |tags| && tags[i].name == name;
      var k :| 0 <= k < |drawn| && drawn[k] == Drawn(tags[i].name, tags[i].group);
    }
  }

  /** One wave: a batch inserted against the identifiers of the waves before it. */
  method InsertWave(
    wave: seq<Drawn>, parents: map<string, string>, identifiers: map<string, int>, tags: seq<TagRow>, next: int,
    ghost drawn: seq<Drawn>, ghost depth: map<string, nat>, ghost level: nat)
    returns (inserted: seq<TagRow>, ghost deeper: map<string, nat>)
    requires "" !in Names(drawn) && DistinctNames(wave)
    requires Knows(identifiers, tags) && Inserted(drawn, parents, tags, depth, next)
    requires forall i :: 0 <= i < |wave| ==> Due(drawn, parents, identifiers, depth, level, wave[i])
    requires forall name :: name in depth ==> depth[name] < level
    ensures |inserted| == |wave|
    ensures forall i :: 0 <= i < |wave| ==> inserted[i] == RowOf(parents, identifiers, wave[i], next + |tags| + i)
    ensures Inserted(drawn, parents, tags + inserted, deeper, next)
    ensures WaveIn(wave, |wave|, inserted, depth, deeper, level)
  {
    inserted, deeper := [], depth;
    IdentifiersAreDrawn(drawn, parents, identifiers, tags, depth, next);
    assert tags + [] == tags;
    for k := 0 to |wave|
      invariant Inserted(drawn, parents, tags + inserted, deeper, next)
      invariant WaveIn(wave, k, inserted, depth, deeper, level)
      invariant forall i :: 0 <= i < k ==> inserted[i] == RowOf(parents, identifiers, wave[i], next + |tags| + i)
    {
      InsertNext(wave, k, parents, identifiers, tags, next, drawn, depth, level, inserted, deeper);
      inserted := inserted + [RowOf(parents, identifiers, wave[k], next + |tags| + k)];
      deeper := deeper[wave[k].name := level];
    }
  }

  /** `identifiers.update({tag.name: tag.id for tag in inserted})`. */
  method Update(identifiers: map<string, int>, ghost tags: seq<TagRow>, inserted: seq<TagRow>)
    returns (updated: map<string, int>)
    requires Knows(identifiers, tags)
    requires forall i, j :: 0 <= i < j < |tags + inserted| ==> (tags + inserted)[i].name != (tags + inserted)[j].name
    ensures Knows(updated, tags + inserted)
  {
    updated := identifiers;
    assert tags + inserted[..0] == tags;
    for k := 0 to |inserted|
      invariant Knows(updated, tags + inserted[..k])
    {
      ghost var all := tags + inserted;
      RowNamesOneMore(tags + inserted[..k], inserted[k]);
      assert tags + inserted[..k + 1] == tags + inserted[..k] + [inserted[k]];
      assert all[|tags| + k] == inserted[k] && tags + inserted[..k] == all[..|tags| + k];
      updated := updated[inserted[k].name := inserted[k].id];
    }
    assert inserted[..|inserted|] == inserted;
  }

  /** Where the loop stands before the wave numbered `level`: what is pending is what is not in, and its parents
      are pending too, or went in with the last wave. */
  ghost predicate Standing(
    drawn: seq<Drawn>, parents: map<string, string>, pending: seq<Drawn>, depth: map<string, nat>, level: nat)
  {
    && DistinctNames(pending)
    && (forall row :: row in pending <==> row in drawn && row.name !in depth)
    && (forall name :: name in depth ==> depth[name] < level)
    && (level == 0 ==> depth == map[])
    && (0 < level ==> forall row :: row in pending ==>
          !IsRoot(Names(drawn), parents, row.name)
          && (parents[row.name] in depth ==> depth[parents[row.name]] == level - 1))
  }

  lemma ReadyIsDue(
    drawn: seq<Drawn>, parents: map<string, string>, pending: seq<Drawn>, identifiers: map<string, int>,
    depth: map<string, nat>, level: nat, row: Drawn)
    requires Standing(drawn, parents, pending, depth, level) && identifiers.Keys == depth.Keys
    requires row in pending && Ready(Names(drawn), parents, identifiers.Keys, row.name)
    ensures Due(drawn, parents, identifiers, depth, level, row)
  {
  }

  /** In a forest no round comes up empty: this is what ends the loop. */
  lemma SomeoneIsReady(drawn: seq<Drawn>, parents: map<string, string>, pending: seq<Drawn>, known: set<string>)
    requires Forest(Names(drawn), parents) && pending != []
    requires Names(pending) <= Names(drawn) <= Names(pending) + known
    ensures exists row :: row in pending && Ready(Names(drawn), parents, known, row.name)
  {
    var part := Names(pending);
    assert pending[0].name in part;
    assert HasRoot(part, parents);
    var name :| name in part && IsRoot(part, parents, name);
    var i :| 0 <= i < |pending| && pending[i].name == name;
    assert pending[i] in pending;
  }

  // ---- the loop, round by round -----------------------------------------------------------------------------

  /** What is pending after so many rounds. What is not pending has been inserted and is known. */
  ghost function AfterRounds(drawn: seq<Drawn>, parents: map<string, string>, n: nat): seq<Drawn> {
    if n == 0 then drawn
    else
      var pending := AfterRounds(drawn, parents, n - 1);
      Without(pending, Wave(pending, Names(drawn), parents, Names(drawn) - Names(pending)))
  }

  lemma NamesOfRows(drawn: seq<Drawn>, row: Drawn)
    requires row in drawn
    ensures row.name in Names(drawn)
  {
    var i :| 0 <= i < |drawn| && drawn[i] == row;
  }

  lemma {:induction false} PendingWereDrawn(drawn: seq<Drawn>, parents: map<string, string>, n: nat)
    ensures forall row :: row in AfterRounds(drawn, parents, n) ==> row in drawn
    ensures Names(AfterRounds(drawn, parents, n)) <= Names(drawn)
    decreases n
  {
    if n > 0 {
      PendingWereDrawn(drawn, parents, n - 1);
      var before := AfterRounds(drawn, parents, n - 1);
      WithoutIsTheRest(before, Wave(before, Names(drawn), parents, Names(drawn) - Names(before)));
    }
    var pending := AfterRounds(drawn, parents, n);
    forall name | name in Names(pending) ensures name in Names(drawn) {
      var i :| 0 <= i < |pending| && pending[i].name == name;
      NamesOfRows(drawn, pending[i]);
    }
  }

  /** While none of them is in, none of them is ready. */
  ghost predicate NeverReady(seeded: set<string>, parents: map<string, string>, part: set<string>) {
    forall known: set<string>, name :: name in part && known !! part ==> !Ready(seeded, parents, known, name)
  }

  /** On parents that are not a forest some of the names are never ready, whatever else has been inserted. */
  lemma ACycleIsNeverReady(seeded: set<string>, parents: map<string, string>)
    requires !Forest(seeded, parents)
    ensures exists part: set<string> :: part != {} && part <= seeded && NeverReady(seeded, parents, part)
  {
    var part :| part != {} && part <= seeded && !HasRoot(part, parents);
    assert NeverReady(seeded, parents, part);
  }

  lemma {:induction false} StuckStay(drawn: seq<Drawn>, parents: map<string, string>, part: set<string>, n: nat)
    requires part <= Names(drawn) && NeverReady(Names(drawn), parents, part)
    ensures part <= Names(AfterRounds(drawn, parents, n))
    decreases n
  {
    if n > 0 {
      StuckStay(drawn, parents, part, n - 1);
      var before := AfterRounds(drawn, parents, n - 1);
      var known := Names(drawn) - Names(before);
      WaveIsTheReady(before, Names(drawn), parents, known);
      WithoutIsTheRest(before, Wave(before, Names(drawn), parents, known));
      forall name | name in part ensures name in Names(AfterRounds(drawn, parents, n)) {
        var i :| 0 <= i < |before| && before[i].name == name;
        assert !Ready(Names(drawn), parents, known, name);
        NamesOfRows(AfterRounds(drawn, parents, n), before[i]);
      }
    }
  }

  lemma RoundShrinks(drawn: seq<Drawn>, parents: map<string, string>, n: nat)
    requires Forest(Names(drawn), parents) && AfterRounds(drawn, parents, n) != []
    ensures |AfterRounds(drawn, parents, n + 1)| < |AfterRounds(drawn, parents, n)|
  {
    PendingWereDrawn(drawn, parents, n);
    var pending := AfterRounds(drawn, parents, n);
    var known := Names(drawn) - Names(pending);
    SomeoneIsReady(drawn, parents, pending, known);
    WaveIsTheReady(pending, Names(drawn), parents, known);
    WithoutIsTheRest(pending, Wave(pending, Names(drawn), parents, known));
  }

  lemma {:induction false} ForestsRunOut(drawn: seq<Drawn>, parents: map<string, string>, n: nat)
    requires Forest(Names(drawn), parents)
    ensures exists m :: n <= m && AfterRounds(drawn, parents, m) == []
    decreases |AfterRounds(drawn, parents, n)|
  {
    if AfterRounds(drawn, parents, n) != [] {
      RoundShrinks(drawn, parents, n);
      ForestsRunOut(drawn, parents, n + 1);
    }
  }

  /** The loop ends exactly on the parents that make a forest. On any other it goes round for ever. */
  lemma LoopEndsExactly(drawn: seq<Drawn>, parents: map<string, string>)
    ensures (exists n :: AfterRounds(drawn, parents, n) == []) <==> Forest(Names(drawn), parents)
  {
    if Forest(Names(drawn), parents) {
      ForestsRunOut(drawn, parents, 0);
    } else {
      ACycleIsNeverReady(Names(drawn), parents);
      var part: set<string> :| part != {} && part <= Names(drawn) && NeverReady(Names(drawn), parents, part);
      forall n ensures AfterRounds(drawn, parents, n) != [] {
        StuckStay(drawn, parents, part, n);
      }
    }
  }

  // ---- the waves --------------------------------------------------------------------------------------------

  ghost function Joined(waves: seq<seq<TagRow>>): seq<TagRow> {
    if waves == [] then [] else Joined(waves[..|waves| - 1]) + waves[|waves| - 1]
  }

  /** The rows of a wave, none of them at another depth. */
  ghost predicate AtDepth(wave: seq<TagRow>, depth: map<string, nat>, level: nat) {
    wave != [] && forall i :: 0 <= i < |wave| ==> wave[i].name in depth && depth[wave[i].name] == level
  }

  /** The batches in the order they were inserted in: together all the rows, and each of one depth, its number. */
  ghost predicate InWaves(waves: seq<seq<TagRow>>, tags: seq<TagRow>, depth: map<string, nat>) {
    Joined(waves) == tags && forall w :: 0 <= w < |waves| ==> AtDepth(waves[w], depth, w)
  }

  lemma OneMoreWave(
    waves: seq<seq<TagRow>>, tags: seq<TagRow>, depth: map<string, nat>, wave: seq<Drawn>, inserted: seq<TagRow>,
    deeper: map<string, nat>)
    requires InWaves(waves, tags, depth) && wave != []
    requires WaveIn(wave, |wave|, inserted, depth, deeper, |waves|)
    requires forall i :: 0 <= i < |wave| ==> wave[i].name !in depth
    ensures InWaves(waves + [inserted], tags + inserted, deeper)
  {
    var more := waves + [inserted];
    assert more[..|waves|] == waves && wave[..|wave|] == wave;
    forall i | 0 <= i < |inserted| ensures inserted[i].name in deeper && deeper[inserted[i].name] == |waves| {
      NamesOfRows(wave, wave[i]);
    }
    forall w | 0 <= w < |waves| ensures AtDepth(more[w], deeper, w) {
      assert AtDepth(waves[w], depth, w);
    }
  }

  lemma NextStanding(
    drawn: seq<Drawn>, parents: map<string, string>, pending: seq<Drawn>, identifiers: map<string, int>,
    depth: map<string, nat>, level: nat, wave: seq<Drawn>, inserted: seq<TagRow>, deeper: map<string, nat>)
    requires DistinctNames(drawn) && Standing(drawn, parents, pending, depth, level) && identifiers.Keys == depth.Keys
    requires wave == Wave(pending, Names(drawn), parents, identifiers.Keys)
    requires WaveIn(wave, |wave|, inserted, depth, deeper, level)
    ensures Standing(drawn, parents, Without(pending, wave), deeper, level + 1)
  {
    WaveIsTheReady(pending, Names(drawn), parents, identifiers.Keys);
    WithoutIsTheRest(pending, wave);
    assert wave[..|wave|] == wave;
    forall row | row in drawn ensures row.name in Names(wave) <==> row in wave {
      if row.name in Names(wave) {
        var i :| 0 <= i < |wave| && wave[i].name == row.name;
        assert wave[i] in pending;
      }
    }
  }

  lemma AllIn(
    drawn: seq<Drawn>, parents: map<string, string>, tags: seq<TagRow>, depth: map<string, nat>, next: int,
    level: nat)
    requires Standing(drawn, parents, [], depth, level) && Inserted(drawn, parents, tags, depth, next)
    ensures forall k :: 0 <= k < |drawn| ==> drawn[k].name in RowNames(tags)
    ensures IsDepth(Names(drawn), parents, depth)
  {
    forall k | 0 <= k < |drawn| ensures drawn[k].name in RowNames(tags) {
      assert drawn[k] in drawn;
    }
    forall name | name in depth ensures name in Names(drawn)
      && (!IsRoot(Names(drawn), parents, name) ==> parents[name] in depth)
      && depth[name] == if IsRoot(Names(drawn), parents, name) then 0 else depth[parents[name]] + 1
    {
      var i :| 0 <= i < |tags| && tags[i].name == name;
      var k :| 0 <= k < |drawn| && drawn[k] == Drawn(tags[i].name, tags[i].group);
      assert Placed(Names(drawn), parents, tags, depth, i);
    }
  }

  /** What the loop knows is what is no longer pending. */
  lemma KnownIsTheRest(
    drawn: seq<Drawn>, parents: map<string, string>, pending: seq<Drawn>, identifiers: map<string, int>,
    tags: seq<TagRow>, depth: map<string, nat>, next: int, level: nat)
    requires Standing(drawn, parents, pending, depth, level) && Inserted(drawn, parents, tags, depth, next)
    requires Knows(identifiers, tags)
    ensures identifiers.Keys == Names(drawn) - Names(pending) && Names(pending) <= Names(drawn)
  {
    IdentifiersAreDrawn(drawn, parents, identifiers, tags, depth, next);
    forall name | name in Names(pending) ensures name in Names(drawn) && name !in depth {
      var i :| 0 <= i < |pending| && pending[i].name == name;
      assert pending[i] in pending;
      NamesOfRows(drawn, pending[i]);
    }
    forall name | name in Names(drawn) && name !in depth ensures name in Names(pending) {
      var k :| 0 <= k < |drawn| && drawn[k].name == name;
      assert drawn[k] in drawn;
      NamesOfRows(pending, drawn[k]);
    }
  }

  /** The loop before its next round. */
  ghost predicate LoopAt(
    drawn: seq<Drawn>, parents: map<string, string>, next: int, pending: seq<Drawn>, identifiers: map<string, int>,
    tags: seq<TagRow>, depth: map<string, nat>, waves: seq<seq<TagRow>>)
  {
    && Standing(drawn, parents, pending, depth, |waves|) && pending == AfterRounds(drawn, parents, |waves|)
    && Inserted(drawn, parents, tags, depth, next) && Knows(identifiers, tags) && InWaves(waves, tags, depth)
  }

  lemma WaveIsDue(
    drawn: seq<Drawn>, parents: map<string, string>, next: int, pending: seq<Drawn>, identifiers: map<string, int>,
    tags: seq<TagRow>, depth: map<string, nat>, waves: seq<seq<TagRow>>)
    requires Forest(Names(drawn), parents) && pending != []
    requires LoopAt(drawn, parents, next, pending, identifiers, tags, depth, waves)
    ensures var wave := Wave(pending, Names(drawn), parents, identifiers.Keys);
      && wave != [] && DistinctNames(wave)
      && (forall i :: 0 <= i < |wave| ==> Due(drawn, parents, identifiers, depth, |waves|, wave[i]))
      && |Without(pending, wave)| < |pending|
  {
    var wave := Wave(pending, Names(drawn), parents, identifiers.Keys);
    WaveIsTheReady(pending, Names(drawn), parents, identifiers.Keys);
    KnownIsTheRest(drawn, parents, pending, identifiers, tags, depth, next, |waves|);
    SomeoneIsReady(drawn, parents, pending, identifiers.Keys);
    forall i | 0 <= i < |wave| ensures Due(drawn, parents, identifiers, depth, |waves|, wave[i]) {
      assert wave[i] in wave;
      ReadyIsDue(drawn, parents, pending, identifiers, depth, |waves|, wave[i]);
    }
    WithoutIsTheRest(pending, wave);
  }

  lemma RoundDone(
    drawn: seq<Drawn>, parents: map<string, string>, next: int, pending: seq<Drawn>, identifiers: map<string, int>,
    tags: seq<TagRow>, depth: map<string, nat>, waves: seq<seq<TagRow>>, wave: seq<Drawn>, inserted: seq<TagRow>,
    deeper: map<string, nat>, updated: map<string, int>)
    requires DistinctNames(drawn) && LoopAt(drawn, parents, next, pending, identifiers, tags, depth, waves)
    requires wave == Wave(pending, Names(drawn), parents, identifiers.Keys) && wave != []
    requires forall i :: 0 <= i < |wave| ==> wave[i].name !in depth
    requires Inserted(drawn, parents, tags + inserted, deeper, next) && Knows(updated, tags + inserted)
    requires WaveIn(wave, |wave|, inserted, depth, deeper, |waves|)
    ensures LoopAt(drawn, parents, next, Without(pending, wave), updated, tags + inserted, deeper, waves + [inserted])
  {
    KnownIsTheRest(drawn, parents, pending, identifiers, tags, depth, next, |waves|);
    NextStanding(drawn, parents, pending, identifiers, depth, |waves|, wave, inserted, deeper);
    OneMoreWave(waves, tags, depth, wave, inserted, deeper);
  }

  /** Every tag drawn goes in once, pointing at a row of the wave before. The waves are batches: each is every row of
      one depth, none is empty, and the ids are the ones the engine hands out from `next` on. */
  method SeedTags(drawn: seq<Drawn>, parents: map<string, string>, next: int)
    returns (tags: seq<TagRow>, ghost depth: map<string, nat>, ghost waves: seq<seq<TagRow>>)
    requires DistinctNames(drawn) && "" !in Names(drawn) && Forest(Names(drawn), parents)
    ensures Inserted(drawn, parents, tags, depth, next)
    ensures forall k :: 0 <= k < |drawn| ==> drawn[k].name in RowNames(tags)
    ensures IsDepth(Names(drawn), parents, depth)
    ensures InWaves(waves, tags, depth) && AfterRounds(drawn, parents, |waves|) == []
  {
    var seeded := Names(drawn);
    tags, depth, waves := [], map[], [];
    var identifiers: map<string, int> := map[];
    var pending := drawn;
    while pending != []
      invariant LoopAt(drawn, parents, next, pending, identifiers, tags, depth, waves)
      decreases |pending|
    {
      var wave := Wave(pending, seeded, parents, identifiers.Keys);
      WaveIsDue(drawn, parents, next, pending, identifiers, tags, depth, waves);
      var inserted;
      ghost var deeper;
      inserted, deeper := InsertWave(wave, parents, identifiers, tags, next, drawn, depth, |waves|);
      var updated := Update(identifiers, tags, inserted);
      RoundDone(drawn, parents, next, pending, identifiers, tags, depth, waves, wave, inserted, deeper, updated);
      identifiers, tags, pending := updated, tags + inserted, Without(pending, wave);
      depth, waves := deeper, waves + [inserted];
    }
    AllIn(drawn, parents, tags, depth, next, |waves|);
  }
}
