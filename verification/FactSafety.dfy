/** Every interleaving of the fact store's transactions leaves a serial history behind. */
module FactSafety {
  import opened Options
  import opened Sorting
  import opened Facts
  import opened FactHistory
  import opened FactTx

  /** A step that only moves `t` forward, possibly taking one free lock. */
  lemma LocalStep(s: State, t: int, tx: Tx, locks: map<Row, int>)
    requires Inv(s)
    requires forall other | other != t :: KeepsLocks(s.locks, locks, other)
    requires TxOk(s.db, locks, t, tx)
    ensures Inv(s.(locks := locks, txs := s.txs[t := tx]))
  {
    var after := s.(locks := locks, txs := s.txs[t := tx]);
    forall x | x in after.txs ensures TxOk(after.db, after.locks, x, after.txs[x]) {
      if x != t {
        SameDb(s.db, s.locks, x);
        TxOkFrame(s.db, s.locks, s.db, locks, x, s.txs[x]);
      }
    }
    hide TxOk;
  }

  lemma SameDb(db: Db, locks: map<Row, int>, t: int)
    ensures Undisturbed(db, db, locks, t)
  {
  }

  lemma LockKeepsOthers(s: State, t: int, r: Row, other: int)
    requires CanLock(s, t, r) && other != t
    ensures KeepsLocks(s.locks, s.locks[r := t], other)
  {
  }

  lemma ReleaseKeepsOthers(locks: map<Row, int>, t: int, other: int)
    requires other != t
    ensures KeepsLocks(locks, Release(locks, t), other)
  {
  }

  /** A step that changes committed rows and logs the effect. */
  lemma CommittedStep(s: State, after: State, t: int, e: Effect)
    requires Inv(s) && Legal(s.db, e)
    requires after.db == Apply(s.db, e) && after.log == s.log + [e]
    requires forall x | x in after.txs :: x != t && x in s.txs && after.txs[x] == s.txs[x]
    requires forall x | x in after.txs :: KeepsLocks(s.locks, after.locks, x) && Undisturbed(s.db, after.db, s.locks, x)
    ensures Inv(after)
  {
    ReplayOneMore(s.log, s.db, e);
    forall x | x in after.txs ensures TxOk(after.db, after.locks, x, after.txs[x]) {
      TxOkFrame(s.db, s.locks, after.db, after.locks, x, s.txs[x]);
    }
    hide TxOk;
    hide Legal;
    hide Apply;
  }

  lemma InsertDissentKeeps(s: State, t: int, id: int, f: int, payload: Json, hash: Hash, source: Source)
    requires Inv(s) && t in s.txs
    requires InsertDissent(s, t, id, f, payload, hash, source).Some?
    requires SubmitOk(s.db, s.locks, t, s.txs[t].op, Dissent(f, payload, hash, source, Pending, 1))
    requires hash.payload == payload == OpPayload(s.txs[t].op)
    requires source == (if s.txs[t].op.Upsert? then s.txs[t].op.source else AgentProposal)
    ensures Inv(InsertDissent(s, t, id, f, payload, hash, source).value)
  {
    var after := InsertDissent(s, t, id, f, payload, hash, source).value;
    if id in s.db.dissents {
      forall other | other != t ensures KeepsLocks(s.locks, after.locks, other) {
        LockKeepsOthers(s, t, DissentRow(id), other);
      }
    }
    LocalStep(s, t, after.txs[t], after.locks);
  }

  lemma StatementKeeps(s: State, t: int, id: int)
    requires Inv(s) && t in s.txs && RunStatement(s, t, id).Some?
    ensures Inv(RunStatement(s, t, id).value)
  {
    var tx := s.txs[t];
    var op := tx.op;
    assert TxOk(s.db, s.locks, t, tx);
    var after := RunStatement(s, t, id).value;
    match tx.pc
    case IdHit(f, version, source) =>
      if TrustRank(op.source) < TrustRank(source) {
        InsertDissentKeeps(s, t, id, f, op.payload, Hash(op.kind, op.payload), op.source);
      } else {
        LocalStep(s, t, after.txs[t], s.locks);
      }
    case FactHeld(f, kind) =>
      InsertDissentKeeps(s, t, id, f, op.payload, Hash(kind, op.payload), AgentProposal);
    case SameHit(f, version) => LocalStep(s, t, after.txs[t], s.locks);
    case IdMissed => LocalStep(s, t, after.txs[t], s.locks);
    case BothHeld(d, row, version) => LocalStep(s, t, after.txs[t], s.locks);
    case _ =>
  }

  lemma LockingStepKeeps(s: State, t: int, r: Row, pc: Pc)
    requires Inv(s) && t in s.txs && CanLock(s, t, r)
    requires TxOk(s.db, s.locks[r := t], t, s.txs[t].(pc := pc))
    ensures Inv(LockGoto(s, t, r, pc))
  {
    var grown := s.locks[r := t];
    forall other | other != t ensures KeepsLocks(s.locks, grown, other) {
      LockKeepsOthers(s, t, r, other);
    }
    LocalStep(s, t, s.txs[t].(pc := pc), grown);
  }

  lemma SelectKeeps(s: State, a: Action)
    requires Inv(s) && Step(s, a).Some?
    requires a.SelectSame? || a.SelectId? || a.SelectFact? || a.SelectDissent? || a.SelectDissentFact?
    ensures Inv(Step(s, a).value)
  {
    var after := Step(s, a).value;
    var t := a.t;
    assert TxOk(s.db, s.locks, t, s.txs[t]);
    if after.txs[t].pc.SameMissed? || after.txs[t].pc.IdMissed? {
      LocalStep(s, t, after.txs[t], s.locks);
    } else {
      var r := match a
        case SelectSame(_, hit) => FactRow(hit.value)
        case SelectId(_, _) => FactRow(s.txs[t].op.explicitId.value)
        case SelectFact(_) => FactRow(s.txs[t].op.fact)
        case SelectDissent(_) => DissentRow(s.txs[t].op.dissent)
        case SelectDissentFact(_) => FactRow(s.txs[t].pc.row.fact);
      LockingStepKeeps(s, t, r, after.txs[t].pc);
    }
  }

  lemma CommitKeeps(s: State, t: int)
    requires Inv(s) && Step(s, Commit(t)).Some?
    ensures Inv(Step(s, Commit(t)).value)
  {
    var after := Step(s, Commit(t)).value;
    var tx := s.txs[t];
    assert TxOk(s.db, s.locks, t, tx);
    CommitIsLegal(s.db, s.locks, t, tx.op, tx.pc.w);
    forall x | x in after.txs
      ensures KeepsLocks(s.locks, after.locks, x) && Undisturbed(s.db, after.db, s.locks, x)
    {
      ReleaseKeepsOthers(s.locks, t, x);
      InstallDisturbsNobody(s.db, s.locks, t, tx.op, tx.pc.w, x);
    }
    CommittedStep(s, after, t, EffectOf(tx.op, tx.pc.w));
  }

  lemma AbortKeeps(s: State, t: int)
    requires Inv(s) && t in s.txs
    ensures Inv(s.(locks := Release(s.locks, t), txs := s.txs - {t}))
  {
    forall x | x in s.txs - {t} ensures TxOk(s.db, Release(s.locks, t), x, s.txs[x]) {
      ReleaseKeepsOthers(s.locks, t, x);
      SameDb(s.db, s.locks, x);
      TxOkFrame(s.db, s.locks, s.db, Release(s.locks, t), x, s.txs[x]);
    }
    hide TxOk;
  }

  lemma UnlockedStepKeeps(s: State, e: Effect, r: Row)
    requires Inv(s) && Legal(s.db, e) && r !in s.locks
    requires (e.Discard? && r == DissentRow(e.dissent)) || (e.SetDeleted? && r == FactRow(e.fact))
    ensures Inv(s.(db := Apply(s.db, e), log := s.log + [e]))
  {
    var after := s.(db := Apply(s.db, e), log := s.log + [e]);
    forall x | x in s.txs ensures TxOk(after.db, after.locks, x, after.txs[x]) {
      assert Undisturbed(s.db, after.db, s.locks, x);
      TxOkFrame(s.db, s.locks, after.db, s.locks, x, s.txs[x]);
    }
    ReplayOneMore(s.log, s.db, e);
    hide TxOk;
  }

  lemma StepKeepsInv(s: State, a: Action)
    requires Inv(s) && Step(s, a).Some?
    ensures Inv(Step(s, a).value)
  {
    match a
    case Begin(t, op) => LocalStep(s, t, Tx(op, Start), s.locks);
    case RunWrite(t, id) => StatementKeeps(s, t, id);
    case Commit(t) => CommitKeeps(s, t);
    case Abort(t) => AbortKeeps(s, t);
    case DiscardNow(d) => UnlockedStepKeeps(s, Discard(d), DissentRow(d));
    case SetDeletedNow(f, deleted) => UnlockedStepKeeps(s, SetDeleted(f, deleted), FactRow(f));
    case _ => SelectKeeps(s, a);
  }

  /**
   However the transactions interleave, the committed rows are exactly the
   result of running the logged effects one after the other, each of them legal
   at its turn: row locks and version checks make the concurrent run serial.
   */
  lemma {:induction false} EveryRunIsSerial(actions: seq<Action>)
    requires Run(actions).Some?
    ensures Inv(Run(actions).value)
    ensures Replay(Run(actions).value.log) == Some(Run(actions).value.db)
  {
    if actions != [] {
      EveryRunIsSerial(actions[..|actions| - 1]);
      StepKeepsInv(Run(actions[..|actions| - 1]).value, actions[|actions| - 1]);
    }
  }

  // ----- the history theorems, read off the state any interleaving reaches -----

  /** A write that expected version `v` is write number `v + 1`, and what it replaced is what write `v` stored. */
  ghost predicate VersionsNameWrites(log: seq<Effect>) {
    forall i: nat, f: int, v: nat | i < |log| && Expects(log[i], f, v) ::
      && 1 <= v < |WritesOf(log, f)| && WritesOf(log, f)[v] == i
      && f in After(log, i).facts && After(log, i).facts[f].version == v
      && After(log, i).facts[f].payload == PayloadOf(After(log, WritesOf(log, f)[v - 1]), log[WritesOf(log, f)[v - 1]])
  }

  ghost predicate ResolvedStays(log: seq<Effect>) {
    forall d: int, m: nat, n: nat | m <= n <= |log| && ResolvedIn(After(log, m), d) ::
      ResolvedIn(After(log, n), d) && After(log, n).dissents[d] == After(log, m).dissents[d]
  }

  ghost predicate OneVersionPerDissent(log: seq<Effect>) {
    forall f: int, g: int, a: nat, b: nat | a < |WritesOf(log, f)| && b < |WritesOf(log, g)|
      && log[WritesOf(log, f)[a]].Promote? && log[WritesOf(log, g)[b]].Promote?
      && log[WritesOf(log, f)[a]].dissent == log[WritesOf(log, g)[b]].dissent :: f == g && a == b
  }

  ghost predicate CountsAddUp(db: Db, log: seq<Effect>) {
    forall ids: seq<int> | Distinct(ids) && (forall d | d in db.dissents :: d in ids) ::
      SumCounts(db, ids) == Submissions(log)
  }

  /** What a serial history guarantees of all its rows at once. */
  ghost predicate SafeHistory(log: seq<Effect>, db: Db) {
    && VersionsNameWrites(log) && ResolvedStays(log) && OneVersionPerDissent(log) && CountsAddUp(db, log)
    && OnePendingPerContent(db) && Indexed(db)
    && (forall f, k | 0 <= k < |WritesOf(log, f)| :: Justified(log, f, k))
    && (forall i, j, f, v | 0 <= i < |log| && 0 <= j < |log|
                         && Expects(log[i], f, v) && Expects(log[j], f, v) :: i == j)
    && (forall i, j, d | 0 <= i < |log| && 0 <= j < |log|
                      && Resolves(log[i], d) && Resolves(log[j], d) :: i == j)
  }

  lemma SerialNamesWrites(log: seq<Effect>)
    requires Serial(log)
    ensures VersionsNameWrites(log)
  {
    hide WritesOf, After, Expects, PayloadOf, Serial;
    forall i: nat, f: int, v: nat | i < |log| && Expects(log[i], f, v)
      ensures 1 <= v < |WritesOf(log, f)| && WritesOf(log, f)[v] == i
      ensures f in After(log, i).facts && After(log, i).facts[f].version == v
      ensures After(log, i).facts[f].payload ==
                PayloadOf(After(log, WritesOf(log, f)[v - 1]), log[WritesOf(log, f)[v - 1]])
    {
      ExpectedVersionNamesTheWrite(log, i, f, v);
    }
  }

  lemma SerialResolves(log: seq<Effect>)
    requires Serial(log)
    ensures ResolvedStays(log) && OneVersionPerDissent(log)
  {
    hide After, WritesOf, Serial;
    forall d: int, m: nat, n: nat | m <= n <= |log| && ResolvedIn(After(log, m), d)
      ensures ResolvedIn(After(log, n), d) && After(log, n).dissents[d] == After(log, m).dissents[d]
    {
      ResolvedIsFinal(log, d, m, n);
    }
    forall f: int, g: int, a: nat, b: nat | a < |WritesOf(log, f)| && b < |WritesOf(log, g)|
      && log[WritesOf(log, f)[a]].Promote? && log[WritesOf(log, g)[b]].Promote?
      && log[WritesOf(log, f)[a]].dissent == log[WritesOf(log, g)[b]].dissent
      ensures f == g && a == b
    {
      DissentJustifiesOneVersion(log, f, g, a, b);
    }
  }

  lemma SerialIsSafe(log: seq<Effect>)
    requires Serial(log)
    ensures SafeHistory(log, Replay(log).value)
  {
    hide Replay, Justified, VersionsNameWrites, ResolvedStays, OneVersionPerDissent, OnePendingPerContent, Indexed,
         WritesOf, Expects, Resolves, SumCounts, Submissions;
    SerialNamesWrites(log);
    SerialResolves(log);
    PendingIsDeduplicated(log);
    IndexHolds(log);
    var db := Replay(log).value;
    forall ids: seq<int> | Distinct(ids) && (forall d | d in db.dissents :: d in ids)
      ensures SumCounts(db, ids) == Submissions(log)
    {
      SubmissionsAreConserved(log, ids);
    }
    forall f, k | 0 <= k < |WritesOf(log, f)| ensures Justified(log, f, k) {
      EveryVersionIsJustified(log, f, k);
    }
    forall i, j, f, v | 0 <= i < |log| && 0 <= j < |log| && Expects(log[i], f, v) && Expects(log[j], f, v)
      ensures i == j
    {
      OneWriterPerVersion(log, i, j, f, v);
    }
    forall i, j, d | 0 <= i < |log| && 0 <= j < |log| && Resolves(log[i], d) && Resolves(log[j], d)
      ensures i == j
    {
      ResolvedOnce(log, d, i, j);
    }
  }

  /** Whatever the interleaving: every fact shows its last committed write at the version that counts them, and
      the log behind it is safe. */
  lemma ConcurrentStoreIsSafe(actions: seq<Action>)
    requires Run(actions).Some?
    ensures var s := Run(actions).value;
            (forall f :: ShowsLastWrite(s.log, s.db, f)) && SafeHistory(s.log, s.db)
  {
    hide Run, Inv, Replay, ShowsLastWrite, SafeHistory;
    EveryRunIsSerial(actions);
    var s := Run(actions).value;
    SerialIsSafe(s.log);
    forall f ensures ShowsLastWrite(s.log, s.db, f) { VersionCountsWrites(s.log, f); }
  }

  /**
   Why deadlock freedom is not claimed here: a promotion locks the dissent and
   then the fact, a repeated dissenting upsert the fact and then the dissent.
   Once each has its first lock, neither statement can run and only aborts are left.
   */
  lemma PromoteAndDissentCanCross(s: State, p: int, u: int, d: int, version: nat, canonical: Source, id: int)
    requires Inv(s) && p in s.txs && u in s.txs && p != u && d in s.db.dissents
    requires s.txs[p].pc == DissentHeld(d, s.db.dissents[d])
    requires s.txs[u].pc == IdHit(s.db.dissents[d].fact, version, canonical)
    requires TrustRank(s.txs[u].op.source) < TrustRank(canonical)
    requires s.db.dissents[d].hash == Hash(s.txs[u].op.kind, s.txs[u].op.payload)
    ensures Step(s, SelectDissentFact(p)).None? && Step(s, RunWrite(u, id)).None?
  {
    assert TxOk(s.db, s.locks, p, s.txs[p]) && TxOk(s.db, s.locks, u, s.txs[u]);
    EveryPendingIsOne(s, d, id);
  }

  lemma EveryPendingIsOne(s: State, d: int, id: int)
    requires Inv(s) && d in s.db.dissents && s.db.dissents[d].status == Pending
    ensures id in s.db.dissents && PendingOn(s.db.dissents[id], s.db.dissents[d].fact, s.db.dissents[d].hash) ==>
              id == d
    ensures PendingOn(s.db.dissents[d], s.db.dissents[d].fact, s.db.dissents[d].hash)
  {
    PendingIsDeduplicated(s.log);
  }
}
