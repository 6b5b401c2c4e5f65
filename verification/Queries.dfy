/** Queries whose answer the database may choose, and the sorts done on their results. */
module Queries {
  import opened Types
  import opened Packing
  import opened Actions

  /** A query without an order and with a limit. */
  method SelectSome(matching: set<Id>, max: nat) returns (rows: set<Id>)
    ensures Limited(rows, matching, max)
  {
    rows := {};
    while |rows| < max && rows != matching
      invariant rows <= matching && |rows| <= max
      decreases matching - rows
    {
      assert matching - rows != {};
      var i :| i in matching - rows;
      rows := rows + {i};
    }
  }

  /** The rows of `rows` ascend in attempt time, and none of `rest` is due before any of them. */
  ghost predicate Leads(db: DB, rows: seq<Id>, rest: set<Id>)
    requires Elements(rows) + rest <= db.deliveries.Keys
  {
    && (forall k, l :: 0 <= k < l < |rows| ==> db.deliveries[rows[k]].attemptAt <= db.deliveries[rows[l]].attemptAt)
    && (forall i, j :: i in Elements(rows) && j in rest ==> db.deliveries[i].attemptAt <= db.deliveries[j].attemptAt)
  }

  lemma LeadsNext(db: DB, rows: seq<Id>, rest: set<Id>, m: Id)
    requires Elements(rows) + rest <= db.deliveries.Keys && Leads(db, rows, rest)
    requires m in rest && forall j :: j in rest ==> db.deliveries[m].attemptAt <= db.deliveries[j].attemptAt
    ensures Elements(rows + [m]) == Elements(rows) + {m}
    ensures Leads(db, rows + [m], rest - {m})
  {
    var more := rows + [m];
    assert Elements(more) == Elements(rows) + {m};
    forall k, l | 0 <= k < l < |more|
      ensures db.deliveries[more[k]].attemptAt <= db.deliveries[more[l]].attemptAt
    {
      assert more[k] in Elements(rows);
    }
  }

  /** A query ordered by attempt time, with a limit. */
  method SelectFirst(db: DB, matching: set<Id>, max: nat) returns (rows: seq<Id>)
    requires matching <= db.deliveries.Keys
    ensures FirstRows(db, rows, matching, max)
  {
    rows := [];
    var rest := matching;
    while rest != {} && |rows| < max
      invariant rest <= matching && Elements(rows) == matching - rest && |rows| <= max
      invariant Distinct(rows) && Leads(db, rows, rest)
      decreases rest
    {
      var m := Earliest(db, rest);
      assert m !in Elements(rows);
      DistinctAppend(rows, m);
      LeadsNext(db, rows, rest, m);
      rows, rest := rows + [m], rest - {m};
    }
    assert forall i :: i in rows ==> i in Elements(rows);
    assert forall i :: i in matching && i !in rows ==> i !in Elements(rows);
  }

  method Earliest(db: DB, rows: set<Id>) returns (m: Id)
    requires rows <= db.deliveries.Keys && rows != {}
    ensures m in rows && forall j :: j in rows ==> db.deliveries[m].attemptAt <= db.deliveries[j].attemptAt
  {
    m :| m in rows;
    var rest := rows - {m};
    while rest != {}
      invariant rest <= rows && m in rows
      invariant forall j :: j in rows && j !in rest ==> db.deliveries[m].attemptAt <= db.deliveries[j].attemptAt
      decreases rest
    {
      var x :| x in rest;
      rest := rest - {x};
      if db.deliveries[x].attemptAt < db.deliveries[m].attemptAt {
        m := x;
      }
    }
  }

  /** The first row in order of publish time. */
  method OldestOf(db: DB, rows: set<Id>) returns (m: Id)
    requires rows <= db.deliveries.Keys && rows != {}
    ensures m in rows && forall j :: j in rows ==> db.deliveries[m].publishedAt <= db.deliveries[j].publishedAt
  {
    m :| m in rows;
    var rest := rows - {m};
    while rest != {}
      invariant rest <= rows && m in rows
      invariant forall j :: j in rows && j !in rest ==> db.deliveries[m].publishedAt <= db.deliveries[j].publishedAt
      decreases rest
    {
      var x :| x in rest;
      rest := rest - {x};
      if db.deliveries[x].publishedAt < db.deliveries[m].publishedAt {
        m := x;
      }
    }
  }

  predicate Ascending(q: seq<Id>) {
    forall k, l :: 0 <= k < l < |q| ==> q[k] < q[l]
  }

  lemma AscendingAppend(q: seq<Id>, m: Id)
    requires Ascending(q) && forall x :: x in Elements(q) ==> x < m
    ensures Ascending(q + [m]) && Elements(q + [m]) == Elements(q) + {m}
  {
    assert forall k :: 0 <= k < |q| ==> q[k] in Elements(q);
    assert forall x :: x in q + [m] <==> x in q || x == m;
  }

  /** The rows of a set in ascending order of id. */
  method SortIds(rows: set<Id>) returns (q: seq<Id>)
    ensures Ascending(q) && Distinct(q) && Elements(q) == rows
  {
    q := [];
    var rest := rows;
    while rest != {}
      invariant Elements(q) == rows - rest && rest <= rows
      invariant Ascending(q)
      invariant forall k, x :: k in Elements(q) && x in rest ==> k < x
      decreases rest
    {
      var m := Least(rest);
      AscendingAppend(q, m);
      q, rest := q + [m], rest - {m};
    }
  }

  method Least(s: set<Id>) returns (m: Id)
    requires s != {}
    ensures m in s && forall x :: x in s ==> m <= x
  {
    m :| m in s;
    var rest := s - {m};
    while rest != {}
      invariant rest <= s && m in s
      invariant forall x :: x in s && x !in rest ==> m <= x
      decreases rest
    {
      var x :| x in rest;
      rest := rest - {x};
      if x < m {
        m := x;
      }
    }
  }

  /** Some order of a duplicate-free list: all that the sort in `applyResults` promises, since its
      comparator reads another list. */
  method AnyOrder(q: seq<Id>) returns (r: seq<Id>)
    requires Distinct(q)
    ensures Distinct(r) && Elements(r) == Elements(q)
  {
    r := [];
    var rest := Elements(q);
    while rest != {}
      invariant Distinct(r) && Elements(r) == Elements(q) - rest && rest <= Elements(q)
      decreases rest
    {
      var x :| x in rest;
      assert x !in Elements(r);
      DistinctAppend(r, x);
      r, rest := r + [x], rest - {x};
    }
  }
}
