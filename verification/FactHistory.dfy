/** What every serial history of the fact store guarantees. */
module FactHistory {
  import opened Options
  import opened Sorting
  import opened Facts

  // ----- versions -----

  lemma {:induction false} WritesOfExtends(log: seq<Effect>, n: nat, f: int)
    requires n <= |log|
    ensures WritesOf(log[..n], f) <= WritesOf(log, f)
    ensures forall i | 0 <= i < |WritesOf(log, f)| :: i < |WritesOf(log[..n], f)| <==> WritesOf(log, f)[i] < n
    decreases |log|
  {
    if n < |log| {
      var front := log[..|log| - 1];
      WritesOfExtends(front, n, f);
      assert front[..n] == log[..n];
    } else {
      assert log[..n] == log;
    }
  }

  /** The write found at position `i` is the one that made version `After(log, i)` + 1. */
  lemma WritePosition(log: seq<Effect>, i: nat, f: int)
    requires Serial(log) && i < |log| && Writes(log[i], f)
    ensures var v := VersionIn(After(log, i), f);
            v < |WritesOf(log, f)| && WritesOf(log, f)[v] == i
  {
    SerialPrefix(log, i);
    VersionCountsWrites(log[..i], f);
    WritesOfExtends(log, i, f);
    WritesOfExtends(log, i + 1, f);
    WritesOfPrefix(log[..i + 1], f);
    assert log[..i + 1][..i] == log[..i];
    hide WritesOf;
  }

  /** An effect that overwrites `f` on the condition that it is at version `v`. */
  predicate Expects(e: Effect, f: int, v: nat) {
    || (e.Amend? && e.fact == f && e.expected == Some(v))
    || (e.Promote? && e.fact == f && e.version == v)
  }

  /** At any point of the history a row at version `v` shows what write number `v` stored. */
  lemma RowShowsItsVersion(log: seq<Effect>, i: nat, f: int)
    requires Serial(log) && i <= |log| && f in After(log, i).facts
    ensures var v := After(log, i).facts[f].version;
            && 1 <= v <= |WritesOf(log, f)|
            && var w := WritesOf(log, f)[v - 1];
               && w < i && After(log, i).facts[f].payload == PayloadOf(After(log, w), log[w])
               && After(log, i).facts[f].source == SourceOf(log[w])
  {
    SerialPrefix(log, i);
    var front := log[..i];
    var db := After(log, i);
    VersionCountsWrites(front, f);
    WritesOfExtends(log, i, f);
    var ws, all := WritesOf(front, f), WritesOf(log, f);
    hide WritesOf;
    hide Replay;
    hide PayloadOf;
    hide SourceOf;
    assert ws != [] && db.facts[f].version == |ws|;
    var w := ws[|ws| - 1];
    assert all[|ws| - 1] == w;
    AfterPrefix(log, i, w);
  }

  /**
   A committed write that expected version `v` is the write that follows
   version `v`, and the row it overwrote still showed what version `v` stored.
   */
  lemma ExpectedVersionNamesTheWrite(log: seq<Effect>, i: nat, f: int, v: nat)
    requires Serial(log) && i < |log| && Expects(log[i], f, v)
    ensures 1 <= v < |WritesOf(log, f)| && WritesOf(log, f)[v] == i
    ensures var w := WritesOf(log, f)[v - 1];
            && f in After(log, i).facts && After(log, i).facts[f].version == v
            && After(log, i).facts[f].payload == PayloadOf(After(log, w), log[w])
  {
    hide *;
    AfterStep(log, i);
    ExpectedIsFound(After(log, i), log[i], f, v);
    WritePosition(log, i, f);
    RowShowsItsVersion(log, i, f);
  }

  lemma ExpectedIsFound(db: Db, e: Effect, f: int, v: nat)
    requires Legal(db, e) && Expects(e, f, v)
    ensures Writes(e, f) && f in db.facts && db.facts[f].version == v && VersionIn(db, f) == v
  {
  }

  /** At most one committed write per expected version. */
  lemma OneWriterPerVersion(log: seq<Effect>, i: nat, j: nat, f: int, v: nat)
    requires Serial(log) && i < |log| && j < |log|
    requires Expects(log[i], f, v) && Expects(log[j], f, v)
    ensures i == j
  {
    ExpectedVersionNamesTheWrite(log, i, f, v);
    ExpectedVersionNamesTheWrite(log, j, f, v);
  }

  /**
   Version 1 is a creation; every later version is an amendment by a source
   trusted at least as much as the one it replaced, or the promotion of a
   dissent that was then pending on this fact.
   */
  ghost predicate Justified(log: seq<Effect>, f: int, k: nat)
    requires k < |WritesOf(log, f)|
  {
    var ws := WritesOf(log, f);
    var e := log[ws[k]];
    if k == 0 then e.Create?
    else
      || (e.Amend? && TrustRank(e.source) >= TrustRank(SourceOf(log[ws[k - 1]])))
      || (e.Promote? && e.dissent in After(log, ws[k]).dissents
          && var d := After(log, ws[k]).dissents[e.dissent]; d.status == Pending && d.fact == f)
  }

  lemma EveryVersionIsJustified(log: seq<Effect>, f: int, k: nat)
    requires Serial(log) && k < |WritesOf(log, f)|
    ensures Justified(log, f, k)
  {
    var ws := WritesOf(log, f);
    var i := ws[k];
    var db := After(log, i);
    AfterStep(log, i);
    WritesAscend(log, f);
    hide WritesOf;
    hide PayloadOf;
    hide SourceOf;
    hide Apply;
    hide After;
    hide Replay;
    WritePosition(log, i, f);
    assert VersionIn(db, f) == k;
    if f in db.facts {
      RowShowsItsVersion(log, i, f);
    }
  }

  lemma {:induction false} WritesAscend(log: seq<Effect>, f: int)
    ensures forall a | 0 <= a < |WritesOf(log, f)| :: Writes(log[WritesOf(log, f)[a]], f)
    ensures forall a, b | 0 <= a < b < |WritesOf(log, f)| :: WritesOf(log, f)[a] < WritesOf(log, f)[b]
  {
    if log != [] {
      WritesAscend(log[..|log| - 1], f);
    }
  }

  // ----- ranks -----

  function RankIn(db: Db, f: int): nat {
    if f in db.facts then TrustRank(db.facts[f].source) else 0
  }

  /** Where no dissent on `f` is promoted, the fact never moves to a less trusted source. */
  lemma {:induction false} OnlyPromotionLowersTrust(log: seq<Effect>, f: int, m: nat, n: nat)
    requires Serial(log) && m <= n <= |log|
    requires forall i | m <= i < n :: !(log[i].Promote? && log[i].fact == f)
    ensures RankIn(After(log, m), f) <= RankIn(After(log, n), f)
    decreases n - m
  {
    if m < n {
      AfterStep(log, n - 1);
      OnlyPromotionLowersTrust(log, f, m, n - 1);
      hide After;
    }
  }

  // ----- dissents -----

  predicate Resolves(e: Effect, d: int) {
    (e.Promote? || e.Discard?) && e.dissent == d
  }

  ghost predicate ResolvedIn(db: Db, d: int) {
    d in db.dissents && db.dissents[d].status != Pending
  }

  /** Once resolved, a dissent row never changes again. */
  lemma {:induction false} ResolvedIsFinal(log: seq<Effect>, d: int, m: nat, n: nat)
    requires Serial(log) && m <= n <= |log|
    requires ResolvedIn(After(log, m), d)
    ensures ResolvedIn(After(log, n), d) && After(log, n).dissents[d] == After(log, m).dissents[d]
    decreases n - m
  {
    if m < n {
      ResolvedIsFinal(log, d, m, n - 1);
      AfterStep(log, n - 1);
      hide After;
    }
  }

  /** Of any promotions and discards of one dissent, exactly one commits. */
  lemma ResolvedOnce(log: seq<Effect>, d: int, i: nat, j: nat)
    requires Serial(log) && i < |log| && j < |log|
    requires Resolves(log[i], d) && Resolves(log[j], d)
    ensures i == j
  {
    var a, b := if i < j then i else j, if i < j then j else i;
    if a < b {
      AfterStep(log, a);
      ResolvedIsFinal(log, d, a + 1, b);
      AfterStep(log, b);
      hide After;
    }
  }

  /** No dissent is the justification of two versions, of one fact or of two. */
  lemma DissentJustifiesOneVersion(log: seq<Effect>, f: int, g: int, a: nat, b: nat)
    requires Serial(log) && a < |WritesOf(log, f)| && b < |WritesOf(log, g)|
    requires log[WritesOf(log, f)[a]].Promote? && log[WritesOf(log, g)[b]].Promote?
    requires log[WritesOf(log, f)[a]].dissent == log[WritesOf(log, g)[b]].dissent
    ensures f == g && a == b
  {
    var i, j := WritesOf(log, f)[a], WritesOf(log, g)[b];
    ResolvedOnce(log, log[i].dissent, i, j);
    WritesAscend(log, f);
    WritesAscend(log, g);
    assert Writes(log[i], f) && Writes(log[j], g);
    hide WritesOf;
  }

  ghost predicate OnePendingPerContent(db: Db) {
    forall x, y | x in db.dissents && y in db.dissents
               && db.dissents[x].status == Pending && db.dissents[y].status == Pending
               && db.dissents[x].fact == db.dissents[y].fact && db.dissents[x].hash == db.dissents[y].hash :: x == y
  }

  /** The same proposal against the same fact is never pending twice. */
  lemma {:induction false} PendingIsDeduplicated(log: seq<Effect>)
    requires Serial(log)
    ensures OnePendingPerContent(Replay(log).value)
  {
    if log != [] {
      PendingIsDeduplicated(log[..|log| - 1]);
      PendingStep(Replay(log[..|log| - 1]).value, log[|log| - 1]);
    }
  }

  lemma PendingStep(db: Db, e: Effect)
    requires Legal(db, e) && OnePendingPerContent(db)
    ensures OnePendingPerContent(Apply(db, e))
  {
    if e.Submit? && e.dissent !in db.dissents {
      assert forall x | x in db.dissents :: !PendingOn(db.dissents[x], e.fact, e.hash);
    }
  }

  /** No two facts of a type share a hash, and every stored hash names the payload stored with it. */
  ghost predicate Indexed(db: Db) {
    && (forall f | f in db.facts :: !Taken(db.facts, db.facts[f].kind, db.facts[f].hash, f))
    && (forall f | f in db.facts :: db.facts[f].hash.payload == db.facts[f].payload)
    && (forall d | d in db.dissents :: db.dissents[d].hash.payload == db.dissents[d].payload)
  }

  lemma {:induction false} IndexHolds(log: seq<Effect>)
    requires Serial(log)
    ensures Indexed(Replay(log).value)
  {
    if log != [] {
      IndexHolds(log[..|log| - 1]);
      IndexStep(Replay(log[..|log| - 1]).value, log[|log| - 1]);
    }
  }

  lemma IndexStep(db: Db, e: Effect)
    requires Legal(db, e) && Indexed(db)
    ensures Indexed(Apply(db, e))
  {
  }

  // ----- submissions -----

  function Submissions(log: seq<Effect>): nat {
    if log == [] then 0
    else Submissions(log[..|log| - 1]) + (if log[|log| - 1].Submit? then 1 else 0)
  }

  function CountIn(db: Db, d: int): nat {
    if d in db.dissents then db.dissents[d].count else 0
  }

  function SumCounts(db: Db, ids: seq<int>): nat {
    if ids == [] then 0 else CountIn(db, ids[0]) + SumCounts(db, ids[1..])
  }

  lemma {:induction false} SumStep(db: Db, after: Db, ids: seq<int>, d: int, more: nat)
    requires Distinct(ids)
    requires forall x :: CountIn(after, x) == CountIn(db, x) + if x == d then more else 0
    ensures SumCounts(after, ids) == SumCounts(db, ids) + if d in ids then more else 0
  {
    if ids != [] {
      SumStep(db, after, ids[1..], d, more);
      assert ids == [ids[0]] + ids[1..];
    }
  }

  /** Every accepted submission is counted on exactly one dissent row, however the rows are listed. */
  lemma {:induction false} SubmissionsAreConserved(log: seq<Effect>, ids: seq<int>)
    requires Serial(log) && Distinct(ids)
    requires forall d | d in Replay(log).value.dissents :: d in ids
    ensures SumCounts(Replay(log).value, ids) == Submissions(log)
  {
    if log == [] {
      NothingToSum(ids);
    } else {
      var front, e := log[..|log| - 1], log[|log| - 1];
      var db, after := Replay(front).value, Replay(log).value;
      assert forall d | d in db.dissents :: d in after.dissents;
      SubmissionsAreConserved(front, ids);
      if e.Submit? {
        SumStep(db, after, ids, e.dissent, 1);
        assert e.dissent in after.dissents;
      } else {
        SumStep(db, after, ids, 0, 0);
      }
    }
  }

  lemma NothingToSum(ids: seq<int>)
    ensures SumCounts(EMPTY, ids) == 0
  {
  }
}
