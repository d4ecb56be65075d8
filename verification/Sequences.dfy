/** Sequences without repeats, against the sets and bags they fill. */
module Sequences {
  ghost predicate NoneTwice<T(!new)>(rows: seq<T>) {
    forall i, j :: 0 <= i < j < |rows| ==> rows[i] != rows[j]
  }

  lemma {:induction false} OnceInTheBag<T(!new)>(rows: seq<T>)
    requires NoneTwice(rows)
    ensures forall row :: multiset(rows)[row] <= 1
    decreases |rows|
  {
    if rows != [] {
      var init, last := rows[..|rows| - 1], rows[|rows| - 1];
      assert rows == init + [last];
      OnceInTheBag(init);
      assert last !in init;
    }
  }

  lemma TwiceInTheBag<T>(rows: seq<T>, i: nat, j: nat)
    requires i < j < |rows| && rows[i] == rows[j]
    ensures 2 <= multiset(rows)[rows[i]]
  {
    assert rows == rows[..j] + rows[j..];
    assert rows[..j][i] in multiset(rows[..j]) && rows[j..][0] in multiset(rows[j..]);
  }

  lemma SameBagNoneTwice<T(!new)>(rows: seq<T>, others: seq<T>)
    requires NoneTwice(rows) && multiset(others) == multiset(rows)
    ensures NoneTwice(others)
  {
    OnceInTheBag(rows);
    forall i, j | 0 <= i < j < |others| ensures others[i] != others[j] {
      if others[i] == others[j] { TwiceInTheBag(others, i, j); }
    }
  }

  lemma {:induction false} DistinctAreFew<T(!new)>(rows: seq<T>, all: set<T>)
    requires NoneTwice(rows) && forall i :: 0 <= i < |rows| ==> rows[i] in all
    ensures |rows| <= |all|
    decreases |rows|
  {
    if rows != [] {
      var init, last := rows[..|rows| - 1], rows[|rows| - 1];
      assert forall i :: 0 <= i < |init| ==> init[i] == rows[i] && rows[i] != last;
      DistinctAreFew(init, all - {last});
    }
  }

  lemma PartIsNoLarger<T>(part: set<T>, whole: set<T>)
    requires part <= whole
    ensures |part| <= |whole| && (|part| == |whole| ==> part == whole)
  {
    assert whole == part + (whole - part);
    if |part| == |whole| { assert whole - part == {}; }
  }
}
