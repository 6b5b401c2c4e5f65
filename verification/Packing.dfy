/** The greedy choice a pull makes among the rows its query returned. */
module Packing {
  import opened Types

  datatype PullLimits = PullLimits(maxMessages: nat, maxBytes: int, strict: bool)

  /** Rows handed out, rows dead-lettered instead, and the payload bytes handed out. */
  datatype Packed = Packed(taken: seq<Id>, dead: seq<Id>, bytes: nat)

  predicate Loaded(db: DB, rows: seq<Id>) {
    forall i :: i in rows ==> i in db.deliveries && db.deliveries[i].messageId in db.messages
  }

  function Size(db: DB, i: Id): nat
    requires i in db.deliveries && db.deliveries[i].messageId in db.messages
  {
    |db.messages[db.deliveries[i].messageId].payload|
  }

  /** What the loop has chosen after the first `n` rows. Only the first row of a non-strict pull
      escapes the size test, and that test comes before the attempt limit. */
  function Pack(db: DB, sub: Subscription, rows: seq<Id>, n: nat, limits: PullLimits): Packed
    requires n <= |rows| && Loaded(db, rows)
  {
    if n == 0 then Packed([], [], 0) else
      var p, i := Pack(db, sub, rows, n - 1, limits), rows[n - 1];
      if (limits.strict || n - 1 > 0) && p.bytes + Size(db, i) > limits.maxBytes then p
      else if sub.Exhausted(db.deliveries[i].attempts) then p.(dead := p.dead + [i])
      else p.(taken := p.taken + [i], bytes := p.bytes + Size(db, i))
  }

  function TotalSize(db: DB, rows: seq<Id>): nat
    requires Loaded(db, rows)
  {
    if rows == [] then 0 else TotalSize(db, rows[..|rows| - 1]) + Size(db, rows[|rows| - 1])
  }

  /** Appending an element that is new keeps a listing free of duplicates. */
  lemma DistinctAppend(q: seq<Id>, x: Id)
    requires Distinct(q) && x !in q
    ensures Distinct(q + [x])
  {
  }

  /** Taken and dead rows are candidates among the first `n`, none of them twice; the limit test
      decides which list a row is in. */
  lemma {:induction false} PackChooses(db: DB, sub: Subscription, rows: seq<Id>, n: nat, limits: PullLimits)
    requires n <= |rows| && Loaded(db, rows) && Distinct(rows)
    ensures var p := Pack(db, sub, rows, n, limits);
      && |p.taken| + |p.dead| <= n
      && (forall i :: i in p.taken ==> i in rows[..n] && !sub.Exhausted(db.deliveries[i].attempts))
      && (forall i :: i in p.dead ==> i in rows[..n] && sub.Exhausted(db.deliveries[i].attempts))
      && Distinct(p.taken) && Distinct(p.dead)
  {
    if n > 0 {
      PackChooses(db, sub, rows, n - 1, limits);
      var p := Pack(db, sub, rows, n - 1, limits);
      assert rows[..n] == rows[..n - 1] + [rows[n - 1]];
      assert rows[n - 1] !in rows[..n - 1];
      DistinctAppend(p.taken, rows[n - 1]);
      DistinctAppend(p.dead, rows[n - 1]);
    }
  }

  /** The byte count is the size of what is taken. */
  lemma {:induction false} PackCounts(db: DB, sub: Subscription, rows: seq<Id>, n: nat, limits: PullLimits)
    requires n <= |rows| && Loaded(db, rows)
    ensures var p := Pack(db, sub, rows, n, limits);
      Loaded(db, p.taken) && p.bytes == TotalSize(db, p.taken)
  {
    if n > 0 {
      PackCounts(db, sub, rows, n - 1, limits);
      var p := Pack(db, sub, rows, n - 1, limits);
      assert (p.taken + [rows[n - 1]])[..|p.taken|] == p.taken;
    }
  }

  /** The bytes handed out fit the limit, except that a non-strict pull may return exactly one
      delivery that is too big on its own. */
  lemma {:induction false} PackFits(db: DB, sub: Subscription, rows: seq<Id>, n: nat, limits: PullLimits)
    requires n <= |rows| && Loaded(db, rows) && limits.maxBytes >= 0
    ensures var p := Pack(db, sub, rows, n, limits);
      p.bytes <= limits.maxBytes || (!limits.strict && p.taken == [rows[0]] && Size(db, rows[0]) > limits.maxBytes)
  {
    if n > 0 {
      PackFits(db, sub, rows, n - 1, limits);
      if n == 1 {
        assert Pack(db, sub, rows, 0, limits).taken == [];
      }
    }
  }

  /** Bytes never shrink as more rows are looked at. */
  lemma {:induction false} PackGrows(db: DB, sub: Subscription, rows: seq<Id>, m: nat, n: nat, limits: PullLimits)
    requires m <= n <= |rows| && Loaded(db, rows)
    ensures Pack(db, sub, rows, m, limits).bytes <= Pack(db, sub, rows, n, limits).bytes
    ensures Pack(db, sub, rows, m, limits).taken <= Pack(db, sub, rows, n, limits).taken
    ensures Pack(db, sub, rows, m, limits).dead <= Pack(db, sub, rows, n, limits).dead
  {
    if m < n {
      PackGrows(db, sub, rows, m, n - 1, limits);
    }
  }

  /** A row that was passed over would not fit beside the final result either: the choice is maximal. */
  lemma PackMaximal(db: DB, sub: Subscription, rows: seq<Id>, k: nat, limits: PullLimits)
    requires k < |rows| && Loaded(db, rows) && Distinct(rows)
    ensures var p := Pack(db, sub, rows, |rows|, limits);
      rows[k] in p.taken || rows[k] in p.dead || p.bytes + Size(db, rows[k]) > limits.maxBytes
  {
    PackGrows(db, sub, rows, k, |rows|, limits);
    PackGrows(db, sub, rows, k + 1, |rows|, limits);
    var p, before, after := Pack(db, sub, rows, |rows|, limits), Pack(db, sub, rows, k, limits), Pack(db, sub, rows, k + 1, limits);
    assert after == before || rows[k] in after.taken || rows[k] in after.dead;
    assert forall i :: i in after.taken ==> i in p.taken;
    assert forall i :: i in after.dead ==> i in p.dead;
  }
}
