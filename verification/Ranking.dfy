/** Ordered listings: what a LIMIT on one keeps, and selecting the earliest rows up to a LIMIT. */
module Ranking {
  import opened Wrappers

  type Order<!T> = (T, T) -> bool

  /** A strict total order on the rows: which of two comes first in the listing. */
  ghost predicate Orders<T(!new)>(first: Order<T>, rows: set<T>) {
    && (forall x | x in rows :: !first(x, x))
    && (forall x, y | x in rows && y in rows && x != y :: first(x, y) || first(y, x))
    && (forall x, y, z | x in rows && y in rows && z in rows && first(x, y) && first(y, z) :: first(x, z))
  }

  function Ahead<T(==)>(first: Order<T>, rows: set<T>, x: T): set<T> {
    set y | y in rows && first(y, x)
  }

  lemma {:induction false} FinalRow<T(!new)>(first: Order<T>, rows: set<T>, some: set<T>) returns (last: T)
    requires Orders(first, rows) && some <= rows && some != {}
    ensures last in some && forall x | x in some && x != last :: first(x, last)
    decreases |some|
  {
    var x :| x in some;
    if some == {x} {
      last := x;
    } else {
      var y := FinalRow(first, rows, some - {x});
      assert first(x, y) || first(y, x);
      last := if first(x, y) then y else x;
    }
  }

  /** No more than `n` rows have fewer than `n` ahead of them. */
  lemma FewAreNearTheFront<T(!new)>(first: Order<T>, rows: set<T>, kept: set<T>, n: nat)
    requires Orders(first, rows) && kept <= rows
    requires forall x | x in kept :: |Ahead(first, rows, x)| < n
    ensures |kept| <= n
  {
    if kept != {} {
      var last := FinalRow(first, rows, kept);
      SubsetSize(kept - {last}, Ahead(first, rows, last));
      assert |kept| == |kept - {last}| + 1;
    }
  }

  /** SELECT ... ORDER BY time ASC LIMIT size, where `times` has the rows that match. */
  predicate IsEarliest(times: map<nat, int>, rows: seq<nat>, size: nat) {
    && |rows| <= size
    && (forall i | 0 <= i < |rows| :: rows[i] in times)
    && (forall i, j | 0 <= i < j < |rows| :: rows[i] != rows[j] && times[rows[i]] <= times[rows[j]])
    && (forall x | x in times && x !in rows ::
          |rows| == size && forall i | 0 <= i < |rows| :: times[rows[i]] <= times[x])
  }

  /** The rows listed so far, in order, and those that come after them. */
  predicate Listed(times: map<nat, int>, rows: seq<nat>, rest: set<nat>) {
    && rest <= times.Keys
    && (forall x | x in times :: x in rest || x in rows)
    && (forall i | 0 <= i < |rows| :: rows[i] in times && rows[i] !in rest)
    && (forall i, j | 0 <= i < j < |rows| :: rows[i] != rows[j] && times[rows[i]] <= times[rows[j]])
    && (forall i, x | 0 <= i < |rows| && x in rest :: times[rows[i]] <= times[x])
  }

  lemma {:induction false} ListedNext(times: map<nat, int>, rows: seq<nat>, rest: set<nat>, x: nat)
    requires Listed(times, rows, rest) && x in rest && forall y | y in rest :: times[x] <= times[y]
    ensures Listed(times, rows + [x], rest - {x})
  {
    var more := rows + [x];
    assert forall i | 0 <= i < |rows| :: more[i] == rows[i];
    assert x == more[|rows|];
  }

  lemma {:induction false} EarliestExists(times: map<nat, int>, rest: set<nat>) returns (x: nat)
    requires rest != {} && rest <= times.Keys
    ensures x in rest && forall y | y in rest :: times[x] <= times[y]
    decreases |rest|
  {
    x :| x in rest;
    if rest != {x} {
      var y := EarliestExists(times, rest - {x});
      x := if times[x] <= times[y] then x else y;
    }
  }

  /** The selection, one row after another. */
  method SelectEarliest(times: map<nat, int>, size: nat) returns (rows: seq<nat>)
    ensures IsEarliest(times, rows, size)
  {
    var rest := times.Keys;
    rows := [];
    while |rows| < size && rest != {}
      invariant |rows| <= size && Listed(times, rows, rest)
    {
      ghost var first := EarliestExists(times, rest);
      var x :| x in rest && forall y | y in rest :: times[x] <= times[y];
      ListedNext(times, rows, rest, x);
      rows, rest := rows + [x], rest - {x};
    }
  }
}
