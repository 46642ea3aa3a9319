/**
 * The table of buildable types of an operation format: each distinct
 * builder call is stored once, and its index is the position at which it
 * was first inserted (a `MapVector` from call to its insertion index).
 */
module BuildablePool {

  predicate NoDuplicates(pool: seq<string>) {
    forall p, q :: 0 <= p < q < |pool| ==> pool[p] != pool[q]
  }

  /** The index of `x` in the table: its first position. */
  function IndexOf(pool: seq<string>, x: string): (i: nat)
    requires x in pool
    ensures i < |pool| && pool[i] == x
    ensures forall j :: 0 <= j < i ==> pool[j] != x
  {
    if pool[0] == x then 0 else 1 + IndexOf(pool[1..], x)
  }

  /** Inserting a call that is already present leaves the table as it is; a new one goes last. */
  function Insert(pool: seq<string>, x: string): (r: seq<string>)
    ensures x in r
    ensures x in pool ==> r == pool
    ensures x !in pool ==> r == pool + [x] && IndexOf(r, x) == |pool|
    ensures NoDuplicates(pool) ==> NoDuplicates(r)
  {
    if x in pool then pool else pool + [x]
  }

  /** Insertion never moves an entry that is already in the table. */
  lemma InsertKeepsIndices(pool: seq<string>, x: string)
    ensures forall c :: c in pool ==> c in Insert(pool, x) && IndexOf(Insert(pool, x), c) == IndexOf(pool, c)
  {
    forall c | c in pool
      ensures IndexOf(Insert(pool, x), c) == IndexOf(pool, c)
    {
      var r := Insert(pool, x);
      var i := IndexOf(pool, c);
      var k := IndexOf(r, c);
      assert r[i] == c;
      assert k <= i;
      assert pool[k] == c;
    }
  }

  /** The table after inserting each of `calls` in turn. */
  function InsertAll(pool: seq<string>, calls: seq<string>): seq<string>
    decreases |calls|
  {
    if |calls| == 0 then pool
    else Insert(InsertAll(pool, calls[..|calls| - 1]), calls[|calls| - 1])
  }

  /** The index of the first use of `x` among `calls`. */
  function FirstUse(calls: seq<string>, x: string): (i: nat)
    requires x in calls
    ensures i < |calls| && calls[i] == x
    ensures forall j :: 0 <= j < i ==> calls[j] != x
  {
    IndexOf(calls, x)
  }

  /** Inserting calls keeps the entries of the table in place and adds no duplicate. */
  lemma {:induction false} InsertAllExtends(pool: seq<string>, calls: seq<string>)
    requires NoDuplicates(pool)
    ensures pool <= InsertAll(pool, calls) && NoDuplicates(InsertAll(pool, calls))
    decreases |calls|
  {
    if |calls| > 0 {
      InsertAllExtends(pool, calls[..|calls| - 1]);
    }
  }

  /** Every inserted call ends up in the table. */
  lemma {:induction false} InsertAllContains(pool: seq<string>, calls: seq<string>)
    ensures forall c :: c in calls ==> c in InsertAll(pool, calls)
    ensures forall c :: c in pool ==> c in InsertAll(pool, calls)
    decreases |calls|
  {
    if |calls| > 0 {
      var init := calls[..|calls| - 1];
      InsertAllContains(pool, init);
      assert calls == init + [calls[|calls| - 1]];
    }
  }

  /** The entries past the old table are calls that were not in it. */
  lemma {:induction false} InsertAllAddsOnlyNew(pool: seq<string>, calls: seq<string>)
    requires NoDuplicates(pool)
    ensures var r := InsertAll(pool, calls);
            forall p :: |pool| <= p < |r| ==> r[p] in calls && r[p] !in pool
    decreases |calls|
  {
    if |calls| > 0 {
      var init := calls[..|calls| - 1];
      var x := calls[|calls| - 1];
      InsertAllAddsOnlyNew(pool, init);
      InsertAllContains(pool, init);
      InsertAllExtends(pool, init);
      var r0 := InsertAll(pool, init);
      var r := Insert(r0, x);
      forall p | |pool| <= p < |r|
        ensures r[p] in calls && r[p] !in pool
      {
        if p < |r0| {
          assert r[p] == r0[p];
          assert r0[p] in init;
        } else {
          assert r[p] == x && x !in r0;
        }
      }
    }
  }

  /** The entries of `r` from position `lo` on are calls, ordered by their first use among `calls`. */
  predicate OrderedByFirstUse(r: seq<string>, lo: nat, calls: seq<string>) {
    (forall p :: lo <= p < |r| ==> r[p] in calls) &&
    (forall p, q :: lo <= p < q < |r| ==> FirstUse(calls, r[p]) < FirstUse(calls, r[q]))
  }

  /** The new entries are ordered by their first use among the calls. */
  lemma {:induction false} InsertAllFirstUseOrder(pool: seq<string>, calls: seq<string>)
    requires NoDuplicates(pool)
    ensures OrderedByFirstUse(InsertAll(pool, calls), |pool|, calls)
    decreases |calls|
  {
    if |calls| > 0 {
      var init := calls[..|calls| - 1];
      var x := calls[|calls| - 1];
      assert calls == init + [x];
      InsertAllFirstUseOrder(pool, init);
      InsertAllContains(pool, init);
      InsertAllExtends(pool, init);
      OrderedInsert(InsertAll(pool, init), |pool|, init, x);
    }
  }

  lemma OrderedInsert(r0: seq<string>, lo: nat, init: seq<string>, x: string)
    requires lo <= |r0| && OrderedByFirstUse(r0, lo, init)
    requires forall c :: c in init ==> c in r0
    ensures OrderedByFirstUse(Insert(r0, x), lo, init + [x])
  {
    var calls := init + [x];
    var r := Insert(r0, x);
    forall p | lo <= p < |r|
      ensures r[p] in calls
    {
      if p < |r0| {
        assert r[p] == r0[p];
      }
    }
    forall p, q | lo <= p < q < |r|
      ensures FirstUse(calls, r[p]) < FirstUse(calls, r[q])
    {
      assert r[p] == r0[p];
      FirstUseOfPrefix(init, x, r[p]);
      if q < |r0| {
        assert r[q] == r0[q];
        FirstUseOfPrefix(init, x, r[q]);
      } else {
        assert r[q] == x && x !in init;
      }
    }
  }

  lemma FirstUseOfPrefix(init: seq<string>, x: string, c: string)
    requires c in init
    ensures c in init + [x] && FirstUse(init + [x], c) == FirstUse(init, c)
  {
    var k := FirstUse(init + [x], c);
    var i := FirstUse(init, c);
    assert (init + [x])[i] == c;
    assert k <= i;
    assert init[k] == c;
  }

  /** The entries of a table are exactly the indices `0 .. |pool| - 1`, so every index names one call. */
  lemma IndicesAreDense(pool: seq<string>, c: string)
    requires NoDuplicates(pool) && c in pool
    ensures forall p :: 0 <= p < |pool| && pool[p] == c ==> p == IndexOf(pool, c)
  {
  }
}
