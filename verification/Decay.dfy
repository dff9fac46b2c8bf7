/** The callers of the batch lockers: the bump drain and the decay walk over all live facts. */
module Decay {
  import opened Sorting
  import opened RowLocks

  const MAX_BATCH: nat := 5_000

  predicate Le(a: nat, b: nat) { a <= b }

  lemma LeIsTotal()
    ensures TotalPreorder(Le)
  {
  }

  /** `dedup`: drops a value equal to the one before it. */
  method Dedup(ids: seq<nat>) returns (r: seq<nat>)
    requires SortedBy(ids, Le)
    ensures Ascending(r) && forall x :: x in r <==> x in ids
  {
    r := [];
    for i := 0 to |ids|
      invariant Ascending(r)
      invariant forall x :: x in r <==> x in ids[..i]
      invariant r == [] <==> i == 0
      invariant r != [] ==> r[|r| - 1] == ids[i - 1]
    {
      assert ids[..i + 1] == ids[..i] + [ids[i]];
      if r == [] || r[|r| - 1] != ids[i] {
        assert i > 0 ==> Le(ids[i - 1], ids[i]);
        r := r + [ids[i]];
      }
    }
    assert ids[..|ids|] == ids;
  }

  /** Whatever waits in the channel becomes one ascending list of unique ids to lock. */
  method DrainIntoBatch(channel: seq<nat>) returns (ids: seq<nat>)
    ensures Ascending(ids) && forall x :: x in ids <==> x in channel
  {
    var drained: seq<nat> := [];
    var rx := channel;
    while rx != []
      invariant drained + rx == channel
      decreases |rx|
    {
      drained, rx := drained + [rx[0]], rx[1..];
    }
    if drained == [] {
      return [];
    }
    var sorted := StableSort(drained, Le);
    LeIsTotal();
    StableSortSorted(drained, Le);
    StableSortPermutes(drained, Le);
    SameMembers(drained, sorted);
    ids := Dedup(sorted);
  }

  // ----- the decay walk -----

  function Beyond(live: seq<nat>, after: nat): (r: seq<nat>)
    ensures forall x :: x in r <==> x in live && x > after
  {
    if live == [] then []
    else if live[0] > after then [live[0]] + Beyond(live[1..], after)
    else Beyond(live[1..], after)
  }

  /** Ids past `after` in ascending order; the nil id 0 stands for "from the start". */
  function Pending(live: seq<nat>, after: nat): seq<nat> {
    StableSort(Beyond(live, after), Le)
  }

  function Least(a: nat, b: nat): nat {
    if a <= b then a else b
  }

  function Clamp(limit: nat): nat {
    if limit < 1 then 1 else Least(limit, MAX_BATCH)
  }

  function SelectDecayBatch(live: seq<nat>, after: nat, limit: nat): seq<nat> {
    var rows := Pending(live, after);
    rows[..Least(|rows|, Clamp(limit))]
  }

  lemma BeyondDistinct(live: seq<nat>, after: nat)
    requires Distinct(live)
    ensures Distinct(Beyond(live, after))
  {
    if live != [] {
      var rest := live[1..];
      assert forall i | 0 <= i < |rest| :: rest[i] == live[i + 1] && live[0] != live[i + 1];
      BeyondDistinct(rest, after);
      assert live[0] !in Beyond(rest, after);
    }
  }

  lemma PendingFacts(live: seq<nat>, after: nat)
    requires Distinct(live)
    ensures Ascending(Pending(live, after))
    ensures forall x :: x in Pending(live, after) <==> x in live && x > after
  {
    var rows := Beyond(live, after);
    var p := Pending(live, after);
    LeIsTotal();
    BeyondDistinct(live, after);
    StableSortSorted(rows, Le);
    StableSortPermutes(rows, Le);
    SameMembers(rows, p);
    PermutationDistinct(rows, p);
    forall i, j | 0 <= i < j < |p| ensures p[i] < p[j] {
      assert Le(p[i], p[j]);
    }
  }

  lemma AscendingAgree(a: seq<nat>, b: seq<nat>)
    requires Ascending(a) && Ascending(b) && forall x :: x in a <==> x in b
    ensures a == b
  {
    assert Distinct(a) && Distinct(b);
    forall x ensures multiset(a)[x] == multiset(b)[x] {
      DistinctCount(a, x);
      DistinctCount(b, x);
    }
    SortedUnique(a, b, Le);
  }

  lemma PrefixBefore(p: seq<nat>, n: nat, x: nat)
    requires Ascending(p) && 1 <= n <= |p| && x in p
    ensures x in p[n..] <==> x > p[n - 1]
    ensures x in p[..n] <==> x <= p[n - 1]
  {
    var i :| 0 <= i < |p| && p[i] == x;
    if i < n { assert p[..n][i] == x; } else { assert p[n..][i - n] == x; }
    if x in p[n..] { var j :| 0 <= j < |p| - n && p[n..][j] == x; assert p[j + n] == x; }
    if x in p[..n] { var j :| 0 <= j < n && p[..n][j] == x; assert p[j] == x; }
  }

  /** What is left after a batch is the rest of what was left before it. */
  lemma PendingAfter(live: seq<nat>, after: nat, n: nat)
    requires Distinct(live) && 1 <= n <= |Pending(live, after)|
    ensures Pending(live, Pending(live, after)[n - 1]) == Pending(live, after)[n..]
  {
    var p := Pending(live, after);
    var last := p[n - 1];
    PendingFacts(live, after);
    PendingFacts(live, last);
    hide Pending;
    assert last in p;
    forall x ensures x in p[n..] <==> x in Pending(live, last) {
      if x in p { PrefixBefore(p, n, x); }
    }
    AscendingAgree(Pending(live, last), p[n..]);
  }

  // ----- one tick -----

  /** Ids are 128 bits wide. */
  const ID_BOUND: nat := 0x1_0000_0000_0000_0000_0000_0000_0000_0000

  /** A batch is the next live ids past `after`, all of them unless it is full. */
  lemma BatchFacts(live: seq<nat>, after: nat, limit: nat)
    requires Distinct(live)
    ensures var rows := SelectDecayBatch(live, after, limit);
            && Ascending(rows) && |rows| <= Clamp(limit) && 1 <= Clamp(limit) <= 5_000
            && (1 <= limit <= 5_000 ==> Clamp(limit) == limit)
            && (forall x | x in rows :: x in live && x > after)
            && (forall x | x in live && x > after :: x in rows || (rows != [] && x > rows[|rows| - 1]))
            && (|rows| < Clamp(limit) ==> rows == Pending(live, after))
  {
    hide Pending;
    PendingFacts(live, after);
    var p, rows := Pending(live, after), SelectDecayBatch(live, after, limit);
    forall x | x in rows ensures x in p { }
    forall x | x in live && x > after ensures x in rows || (rows != [] && x > rows[|rows| - 1]) {
      if rows != [] { PrefixBefore(p, |rows|, x); }
    }
  }

  lemma AscendingConcat(a: seq<nat>, b: seq<nat>)
    requires Ascending(a) && Ascending(b) && (a == [] || b == [] || a[|a| - 1] < b[0])
    ensures Ascending(a + b)
  {
    var c := a + b;
    forall i, j | 0 <= i < j < |c| ensures c[i] < c[j] {
      if i < |a| <= j { assert a[i] <= a[|a| - 1] && b[0] <= b[j - |a|]; }
    }
  }

  /** Live at every one of the first `n` selects of a tick. */
  ghost predicate LiveThroughout(lives: nat -> seq<nat>, n: nat, x: nat) {
    forall i: nat | i < n :: x in lives(i)
  }

  ghost predicate LiveOnce(lives: nat -> seq<nat>, n: nat, x: nat) {
    exists i: nat | i < n :: x in lives(i)
  }

  /** Everything the tick has updated so far, in id order, and nothing live throughout left behind. */
  ghost predicate Walked(lives: nat -> seq<nat>, n: nat, after: nat, updated: seq<nat>) {
    && Ascending(updated) && after == (if updated == [] then 0 else updated[|updated| - 1])
    && (forall x | x in updated :: 0 < x && LiveOnce(lives, n, x))
    && (forall x | 0 < x <= after && LiveThroughout(lives, n, x) :: x in updated)
  }

  lemma WalkedOn(lives: nat -> seq<nat>, n: nat, after: nat, updated: seq<nat>, limit: nat)
    requires Distinct(lives(n)) && Walked(lives, n, after, updated)
    requires SelectDecayBatch(lives(n), after, limit) != []
    ensures var rows := SelectDecayBatch(lives(n), after, limit);
            && rows[|rows| - 1] > after && rows[|rows| - 1] in lives(n)
            && Walked(lives, n + 1, rows[|rows| - 1], updated + rows)
  {
    hide SelectDecayBatch;
    var rows := SelectDecayBatch(lives(n), after, limit);
    var last := rows[|rows| - 1];
    BatchFacts(lives(n), after, limit);
    assert last in rows && rows[0] in rows;
    AscendingConcat(updated, rows);
    forall x | x in updated + rows ensures 0 < x && LiveOnce(lives, n + 1, x) {
      if x in updated { assert LiveOnce(lives, n, x); } else { assert x in lives(n); }
    }
    forall x | 0 < x <= last && LiveThroughout(lives, n + 1, x) ensures x in updated + rows {
      assert LiveThroughout(lives, n, x) && x in lives(n);
    }
  }

  /** A batch that is not full is the last of what is live. */
  lemma WalkEnds(lives: nat -> seq<nat>, n: nat, after: nat, updated: seq<nat>, limit: nat)
    requires Distinct(lives(n)) && Walked(lives, n, after, updated)
    requires |SelectDecayBatch(lives(n), after, limit)| < Clamp(limit)
    ensures forall x | 0 < x && LiveThroughout(lives, n + 1, x) ::
              x in updated + SelectDecayBatch(lives(n), after, limit)
  {
    hide SelectDecayBatch, Pending;
    var rows := SelectDecayBatch(lives(n), after, limit);
    BatchFacts(lives(n), after, limit);
    PendingFacts(lives(n), after);
    forall x | 0 < x && LiveThroughout(lives, n + 1, x) ensures x in updated + rows {
      assert LiveThroughout(lives, n, x) && x in lives(n);
    }
  }

  /** On a table that stays as it is, the tick is all that is live, in id order. */
  lemma FixedTable(lives: nat -> seq<nat>, n: nat, updated: seq<nat>)
    requires Distinct(lives(0)) && n >= 1 && forall i: nat :: lives(i) == lives(0)
    requires Ascending(updated)
    requires forall x | x in updated :: 0 < x && LiveOnce(lives, n, x)
    requires forall x | 0 < x && LiveThroughout(lives, n, x) :: x in updated
    ensures updated == Pending(lives(0), 0)
  {
    PendingFacts(lives(0), 0);
    hide Pending;
    forall x ensures x in updated <==> x in Pending(lives(0), 0) {
      if x in lives(0) && 0 < x { assert LiveThroughout(lives, n, x); }
    }
    AscendingAgree(updated, Pending(lives(0), 0));
  }

  /** The tick after `n` selects; an oversized batch stops it after the first. */
  ghost predicate Ticking(lives: nat -> seq<nat>, batch: nat, n: nat, after: nat, updated: seq<nat>, more: bool) {
    && Walked(lives, n, after, updated)
    && (batch > 5_000 && more ==> n == 0 && after == 0 && updated == [])
    && (batch > 5_000 && !more ==> n == 1 && updated == SelectDecayBatch(lives(0), 0, batch))
    && (batch <= 5_000 && !more ==> forall x | 0 < x && LiveThroughout(lives, n, x) :: x in updated)
  }

  /** How many rows `n` selects have given: full batches until one is not. */
  ghost predicate Batched(batch: nat, n: nat, count: nat, more: bool) {
    batch <= 5_000 ==> if more then count == n * batch else n >= 1 && (n - 1) * batch <= count < n * batch
  }

  lemma BatchStep(batch: nat, n: nat, count: nat, rows: nat)
    requires batch >= 1 && Batched(batch, n, count, true) && (batch <= 5_000 ==> rows <= batch)
    ensures Batched(batch, n + 1, count + rows, rows >= batch)
  {
    assert (n + 1) * batch == n * batch + batch;
  }

  lemma TickStarts(lives: nat -> seq<nat>, batch: nat)
    ensures Ticking(lives, batch, 0, 0, [], true)
  {
  }

  lemma TickStep(lives: nat -> seq<nat>, batch: nat, n: nat, after: nat, updated: seq<nat>)
    requires batch >= 1 && Distinct(lives(n)) && Ticking(lives, batch, n, after, updated, true)
    ensures var rows := SelectDecayBatch(lives(n), after, batch);
            && (rows == [] ==> Ticking(lives, batch, n + 1, after, updated, false))
            && (rows != [] ==>
                  && rows[|rows| - 1] > after && rows[|rows| - 1] in lives(n)
                  && Ticking(lives, batch, n + 1, rows[|rows| - 1], updated + rows, |rows| >= batch))
  {
    hide SelectDecayBatch, Walked, LiveThroughout, Pending;
    var rows := SelectDecayBatch(lives(n), after, batch);
    BatchFacts(lives(n), after, batch);
    if |rows| < Clamp(batch) { WalkEnds(lives, n, after, updated, batch); }
    assert updated + [] == updated && [] + rows == rows;
    if rows == [] {
      SameWalk(lives, n, after, updated);
    } else {
      WalkedOn(lives, n, after, updated, batch);
    }
  }

  lemma TickEnds(lives: nat -> seq<nat>, batch: nat, n: nat, after: nat, updated: seq<nat>)
    requires n >= 1 && Distinct(lives(0)) && Ticking(lives, batch, n, after, updated, false)
    ensures Ascending(updated) && forall x | x in updated :: 0 < x && LiveOnce(lives, n, x)
    ensures batch <= 5_000 ==> forall x | 0 < x && LiveThroughout(lives, n, x) :: x in updated
    ensures batch <= 5_000 && (forall i: nat :: lives(i) == lives(0)) ==> updated == Pending(lives(0), 0)
    ensures batch > 5_000 ==>
              n == 1 && updated ==
                Pending(lives(0), 0)[..if |Pending(lives(0), 0)| < 5_000 then |Pending(lives(0), 0)| else 5_000]
  {
    hide Pending, LiveThroughout, LiveOnce;
    if batch <= 5_000 && forall i: nat :: lives(i) == lives(0) { FixedTable(lives, n, updated); }
  }

  /**
   One tick over a table that may change before every select (`lives(n)` is what is live at the n-th). No fact is
   updated twice and ids climb, so the tick ends however fast facts arrive; with a batch size the store serves,
   every fact that stays live is updated; a larger one ends the tick after the first 5000 rows.
   */
  method TickOnce(lives: nat -> seq<nat>, configured: nat) returns (updated: seq<nat>, total: nat, selects: nat)
    requires forall n :: Distinct(lives(n)) && forall x | x in lives(n) :: x < ID_BOUND
    ensures total == |updated| && Ascending(updated) && selects >= 1
    ensures forall x | x in updated :: 0 < x && LiveOnce(lives, selects, x)
    ensures configured <= 5_000 ==> var batch := if configured == 0 then 1 else configured;
                                    (selects - 1) * batch <= total < selects * batch
    ensures configured <= 5_000 ==> forall x | 0 < x && LiveThroughout(lives, selects, x) :: x in updated
    ensures configured <= 5_000 && (forall n: nat :: lives(n) == lives(0)) ==> updated == Pending(lives(0), 0)
    ensures configured > 5_000 ==>
              selects == 1
                && updated ==
                     Pending(lives(0), 0)[..if |Pending(lives(0), 0)| < 5_000 then |Pending(lives(0), 0)| else 5_000]
  {
    hide Pending, SelectDecayBatch, Ticking, LiveOnce, LiveThroughout, Ascending, Distinct;
    hide Batched;
    var batch := if configured < 1 then 1 else configured;
    var after: nat := 0;
    updated, total, selects := [], 0, 0;
    TickStarts(lives, batch);
    NothingBatched(batch);
    var more := true;
    while more
      invariant total == |updated| && after < ID_BOUND && (more || selects >= 1)
      invariant Ticking(lives, batch, selects, after, updated, more)
      invariant Batched(batch, selects, total, more)
      decreases more, ID_BOUND - after
    {
      var rows := SelectDecayBatch(lives(selects), after, batch);
      TickStep(lives, batch, selects, after, updated);
      BatchSize(lives(selects), after, batch);
      BatchStep(batch, selects, total, |rows|);
      selects := selects + 1;
      if rows == [] {
        more := false;
      } else {
        updated := updated + rows;
        total := total + |rows|;
        after := rows[|rows| - 1];
        more := |rows| >= batch;
      }
    }
    TickEnds(lives, batch, selects, after, updated);
    BatchedEnds(batch, selects, total);
  }

  lemma NothingBatched(batch: nat)
    ensures Batched(batch, 0, 0, true)
  {
  }

  lemma BatchedEnds(batch: nat, n: nat, count: nat)
    requires Batched(batch, n, count, false)
    ensures batch <= 5_000 ==> n >= 1 && (n - 1) * batch <= count < n * batch
  {
  }

  lemma BatchSize(live: seq<nat>, after: nat, batch: nat)
    requires 1 <= batch
    ensures batch <= 5_000 ==> |SelectDecayBatch(live, after, batch)| <= batch
  {
  }

  /** An empty batch leaves the walk where it was. */
  lemma SameWalk(lives: nat -> seq<nat>, n: nat, after: nat, updated: seq<nat>)
    requires Walked(lives, n, after, updated)
    ensures Walked(lives, n + 1, after, updated)
  {
    forall x | x in updated ensures LiveOnce(lives, n + 1, x) { assert LiveOnce(lives, n, x); }
    forall x | 0 < x <= after && LiveThroughout(lives, n + 1, x) ensures x in updated {
      assert LiveThroughout(lives, n, x);
    }
  }
}
