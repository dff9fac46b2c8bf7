/** What requests get: every committed effect answers the request behind it, and every legal answer can be had. */
module FactRequests {
  import opened Options
  import opened Facts
  import opened FactTx
  import opened FactSafety

  /** `e`, taken on the rows of `db`, is something `op` asks for: its own rows, content, source and version. */
  ghost predicate Answers(op: Op, db: Db, e: Effect) {
    match op
    case Upsert(kind, payload, source, explicitId, expected) =>
      (match e
       case Touch(_, k, p, v) => k == kind && p == payload && v == expected
       case Create(f, k, p, s) => (explicitId.Some? ==> explicitId == Some(f)) && k == kind && p == payload
         && s == source
       case Amend(f, k, p, s, v) => explicitId == Some(f) && k == kind && p == payload && s == source && v == expected
       case Submit(_, f, p, h, s, direct) =>
         explicitId == Some(f) && p == payload && h == Hash(kind, payload) && s == source && !direct
       case _ => false)
    case Propose(fact, payload) =>
      && e.Submit? && e.fact == fact && e.payload == payload && e.source == AgentProposal && e.direct
      && fact in db.facts && e.hash == Hash(db.facts[fact].kind, payload)
    case Resolve(dissent, caller, version) =>
      && e.Promote? && e.dissent == dissent && e.caller == caller && e.version == version
      && dissent in db.dissents && e.fact == db.dissents[dissent].fact
  }

  /** One legal effect, committed and logged. */
  ghost predicate Commits(before: State, after: State, e: Effect) {
    Legal(before.db, e) && after.db == Apply(before.db, e) && after.log == before.log + [e]
  }

  lemma WrittenAnswers(db: Db, locks: map<Row, int>, t: int, op: Op, w: Write)
    requires WriteOk(db, locks, t, op, w)
    ensures Answers(op, db, EffectOf(op, w))
  {
  }

  // ----- every commit answers its request -----

  /** The request `t` is running after these actions: the last it began and has neither committed nor aborted. */
  function Open(actions: seq<Action>, t: int): Option<Op> {
    if actions == [] then None
    else
      var front, last := actions[..|actions| - 1], actions[|actions| - 1];
      match last
      case Begin(u, op) => if u == t then Some(op) else Open(front, t)
      case Commit(u) => if u == t then None else Open(front, t)
      case Abort(u) => if u == t then None else Open(front, t)
      case _ => Open(front, t)
  }

  lemma StepKeepsRequests(s: State, a: Action, t: int)
    requires Step(s, a).Some?
    ensures var after := Step(s, a).value;
            if a == Commit(t) || a == Abort(t) then t !in after.txs
            else if a.Begin? && a.t == t then t in after.txs && after.txs[t].op == a.op
            else (t in after.txs <==> t in s.txs) && (t in s.txs ==> after.txs[t].op == s.txs[t].op)
  {
    hide PendingOn, Apply, Legal, Taken, Release;
  }

  lemma {:induction false} OpenIsRunning(actions: seq<Action>, t: int)
    requires Run(actions).Some?
    ensures var s := Run(actions).value;
            (t in s.txs <==> Open(actions, t).Some?) && (t in s.txs ==> Open(actions, t) == Some(s.txs[t].op))
  {
    hide Step;
    if actions != [] {
      OpenIsRunning(actions[..|actions| - 1], t);
      StepKeepsRequests(Run(actions[..|actions| - 1]).value, actions[|actions| - 1], t);
    }
  }

  lemma {:induction false} RunPrefix(actions: seq<Action>, n: nat)
    requires Run(actions).Some? && n <= |actions|
    ensures Run(actions[..n]).Some?
    decreases |actions|
  {
    hide Step;
    if n < |actions| {
      RunPrefix(actions[..|actions| - 1], n);
      assert actions[..|actions| - 1][..n] == actions[..n];
    } else {
      assert actions[..n] == actions;
    }
  }

  /** What action number `i` of a run did to the committed rows and the log. */
  ghost predicate Accounted(actions: seq<Action>, i: nat)
    requires i < |actions| && Run(actions[..i]).Some? && Run(actions[..i + 1]).Some?
  {
    var before, after := Run(actions[..i]).value, Run(actions[..i + 1]).value;
    match actions[i]
    case Commit(t) =>
      var op := Open(actions[..i], t);
      op.Some? && exists e :: Answers(op.value, before.db, e) && Commits(before, after, e)
    case DiscardNow(d) => Commits(before, after, Discard(d))
    case SetDeletedNow(f, deleted) => Commits(before, after, SetDeleted(f, deleted))
    case _ => after.db == before.db && after.log == before.log
  }

  lemma StepIsAccounted(s: State, a: Action)
    requires Inv(s) && Step(s, a).Some?
    ensures var after := Step(s, a).value;
            match a
            case Commit(t) => t in s.txs && exists e :: Answers(s.txs[t].op, s.db, e) && Commits(s, after, e)
            case DiscardNow(d) => Commits(s, after, Discard(d))
            case SetDeletedNow(f, deleted) => Commits(s, after, SetDeleted(f, deleted))
            case _ => after.db == s.db && after.log == s.log
  {
    if a.Commit? {
      hide Legal, Apply, Answers, WriteOk, CanInstall, Install;
      var tx := s.txs[a.t];
      assert TxOk(s.db, s.locks, a.t, tx);
      CommitIsLegal(s.db, s.locks, a.t, tx.op, tx.pc.w);
      WrittenAnswers(s.db, s.locks, a.t, tx.op, tx.pc.w);
      assert Commits(s, Step(s, a).value, EffectOf(tx.op, tx.pc.w));
    } else {
      hide TxOk;
    }
  }

  /** Whatever the interleaving, the rows change only at commits, each by one legal effect that answers the request
      its transaction began with, and at the two writes that need no transaction. */
  lemma EveryCommitAnswersItsRequest(actions: seq<Action>, i: nat)
    requires Run(actions).Some? && i < |actions|
    ensures Run(actions[..i]).Some? && Run(actions[..i + 1]).Some? && Accounted(actions, i)
  {
    hide Step, Answers, Commits, Inv;
    RunPrefix(actions, i);
    RunPrefix(actions, i + 1);
    assert actions[..i + 1][..i] == actions[..i];
    EveryRunIsSerial(actions[..i]);
    StepIsAccounted(Run(actions[..i]).value, actions[i]);
    if actions[i].Commit? { OpenIsRunning(actions[..i], actions[i].t); }
  }

  // ----- and every legal answer can be had -----

  /** No row is locked and `t` is free. */
  ghost predicate Quiet(s: State, t: int) { s.locks == map[] && t !in s.txs }

  ghost predicate Done(s: State, after: Option<State>, e: Effect) {
    after.Some? && Commits(s, after.value, e) && after.value.txs == s.txs && after.value.locks == map[]
  }

  /** The transaction alone in the store, at its program counter and with its locks. */
  ghost predicate At(s: State, now: Option<State>, t: int, op: Op, pc: Pc, locks: map<Row, int>) {
    now.Some? && now.value == State(s.db, locks, s.txs[t := Tx(op, pc)], s.log)
  }

  lemma Begins(s: State, t: int, op: Op)
    requires Quiet(s, t)
    ensures At(s, Then(Some(s), Begin(t, op)), t, op, Start, map[])
  {
  }

  lemma Finishes(s: State, now: Option<State>, t: int, op: Op, w: Write, locks: map<Row, int>, e: Effect)
    requires Quiet(s, t) && At(s, now, t, op, Written(w), locks) && forall r | r in locks :: locks[r] == t
    requires CanInstall(s.db, w) && EffectOf(op, w) == e && Legal(s.db, e) && Install(s.db, w) == Apply(s.db, e)
    ensures Done(s, Then(now, Commit(t)), e)
  {
    hide CanInstall, Legal, EffectOf, Install, Apply;
    assert s.txs[t := Tx(op, Written(w))] - {t} == s.txs;
  }

  lemma Moves(s: State, now: Option<State>, t: int, op: Op, pc: Pc, locks: map<Row, int>, r: Row, next: Pc)
    requires At(s, now, t, op, pc, locks)
    ensures At(s, Some(Goto(now.value, t, next)), t, op, next, locks)
    ensures At(s, Some(LockGoto(now.value, t, r, next)), t, op, next, locks[r := t])
  {
    assert s.txs[t := Tx(op, pc)][t := Tx(op, next)] == s.txs[t := Tx(op, next)];
  }

  /** The content is stored: the row is locked and touched. */
  lemma Touches(s: State, t: int, op: Op, e: Effect) returns (actions: seq<Action>)
    requires Quiet(s, t) && op.Upsert? && e.Touch? && Answers(op, s.db, e) && Legal(s.db, e)
    ensures actions == [Begin(t, op), SelectSame(t, Some(e.fact)), RunWrite(t, 0), Commit(t)]
    ensures Done(s, RunFrom(Some(s), actions), e)
  {
    var r, held := FactRow(e.fact), SameHit(e.fact, s.db.facts[e.fact].version);
    var a, b, c := Begin(t, op), SelectSame(t, Some(e.fact)), RunWrite(t, 0);
    var s1 := Then(Some(s), a);
    Begins(s, t, op);
    Moves(s, s1, t, op, Start, map[], r, held);
    var s2 := Then(s1, b);
    assert At(s, s2, t, op, held, map[][r := t]);
    Moves(s, s2, t, op, held, map[][r := t], r, Written(WTouch(e.fact)));
    var s3 := Then(s2, c);
    assert At(s, s3, t, op, Written(WTouch(e.fact)), map[][r := t]);
    Finishes(s, s3, t, op, WTouch(e.fact), map[][r := t], e);
    FourSteps(Some(s), a, b, c, Commit(t));
    return [a, b, c, Commit(t)];
  }

  /** An upsert that missed its content looks up its id, if it has one. */
  lemma Misses(s: State, t: int, op: Op)
    requires Quiet(s, t) && op.Upsert?
    ensures At(s, Then(Then(Some(s), Begin(t, op)), SelectSame(t, None)), t, op, SameMissed, map[])
    ensures At(s, Then(Then(Then(Some(s), Begin(t, op)), SelectSame(t, None)), SelectId(t, false)), t, op, IdMissed,
              map[])
    ensures op.explicitId.Some? && op.explicitId.value in s.db.facts ==>
              var f := op.explicitId.value;
              At(s, Then(Then(Then(Some(s), Begin(t, op)), SelectSame(t, None)), SelectId(t, true)),
                 t, op, IdHit(f, s.db.facts[f].version, s.db.facts[f].source), map[][FactRow(f) := t])
  {
    Begins(s, t, op);
    var s1 := Then(Some(s), Begin(t, op));
    Moves(s, s1, t, op, Start, map[], FactRow(0), SameMissed);
    var s2 := Then(s1, SelectSame(t, None));
    assert At(s, s2, t, op, SameMissed, map[]);
    Moves(s, s2, t, op, SameMissed, map[], FactRow(0), IdMissed);
    if op.explicitId.Some? && op.explicitId.value in s.db.facts {
      var f := op.explicitId.value;
      Moves(s, s2, t, op, SameMissed, map[], FactRow(f), IdHit(f, s.db.facts[f].version, s.db.facts[f].source));
    }
  }

  lemma Creates(s: State, t: int, op: Op, e: Effect) returns (actions: seq<Action>)
    requires Quiet(s, t) && op.Upsert? && e.Create? && Answers(op, s.db, e) && Legal(s.db, e)
    ensures actions == [Begin(t, op), SelectSame(t, None), SelectId(t, false), RunWrite(t, e.fact), Commit(t)]
    ensures Done(s, RunFrom(Some(s), actions), e)
  {
    var a, b, c, d := Begin(t, op), SelectSame(t, None), SelectId(t, false), RunWrite(t, e.fact);
    Misses(s, t, op);
    var s3 := Then(Then(Then(Some(s), a), b), c);
    var w := WCreate(e.fact, Fact(op.kind, op.payload, Hash(op.kind, op.payload), op.source, 1, false));
    Moves(s, s3, t, op, IdMissed, map[], FactRow(0), Written(w));
    Finishes(s, Then(s3, d), t, op, w, map[], e);
    FiveSteps(Some(s), a, b, c, d, Commit(t));
    return [a, b, c, d, Commit(t)];
  }

  lemma Amends(s: State, t: int, op: Op, e: Effect) returns (actions: seq<Action>)
    requires Quiet(s, t) && op.Upsert? && e.Amend? && Answers(op, s.db, e) && Legal(s.db, e)
    ensures actions == [Begin(t, op), SelectSame(t, None), SelectId(t, true), RunWrite(t, 0), Commit(t)]
    ensures Done(s, RunFrom(Some(s), actions), e)
  {
    var a, b, c, d := Begin(t, op), SelectSame(t, None), SelectId(t, true), RunWrite(t, 0);
    var f, row := e.fact, s.db.facts[e.fact];
    Misses(s, t, op);
    var s3 := Then(Then(Then(Some(s), a), b), c);
    var w := WAmend(f, Overwrite(row, op.payload, Hash(op.kind, op.payload), op.source));
    Moves(s, s3, t, op, IdHit(f, row.version, row.source), map[][FactRow(f) := t], FactRow(f), Written(w));
    Finishes(s, Then(s3, d), t, op, w, map[][FactRow(f) := t], e);
    FiveSteps(Some(s), a, b, c, d, Commit(t));
    return [a, b, c, d, Commit(t)];
  }

  /** What a dissent insert carries to its commit: the pending twin counted once more, or a new row. */
  function DissentWrite(db: Db, e: Effect): Write
    requires e.Submit?
  {
    if e.dissent in db.dissents then
      WAgain(e.dissent, db.dissents[e.dissent].(count := db.dissents[e.dissent].count + 1))
    else WNew(e.dissent, Dissent(e.fact, e.payload, e.hash, e.source, Pending, 1))
  }

  function DissentLocks(db: Db, t: int, e: Effect): map<Row, int>
    requires e.Submit?
  {
    if e.dissent in db.dissents
      then map[][FactRow(e.fact) := t][DissentRow(e.dissent) := t] else map[][FactRow(e.fact) := t]
  }

  /** With the fact locked, the insert meets the pending twin or files a new row. */
  lemma Inserts(s: State, now: Option<State>, t: int, op: Op, pc: Pc, e: Effect)
    requires Quiet(s, t) && e.Submit? && Answers(op, s.db, e) && Legal(s.db, e)
    requires At(s, now, t, op, pc, map[][FactRow(e.fact) := t])
    requires (op.Upsert? && pc == IdHit(e.fact, s.db.facts[e.fact].version, s.db.facts[e.fact].source))
          || (op.Propose? && pc == FactHeld(e.fact, s.db.facts[e.fact].kind))
    ensures At(s, Then(now, RunWrite(t, e.dissent)), t, op, Written(DissentWrite(s.db, e)), DissentLocks(s.db, t, e))
    ensures Done(s, Then(Then(now, RunWrite(t, e.dissent)), Commit(t)), e)
  {
    var w := DissentWrite(s.db, e);
    Moves(s, now, t, op, pc, map[][FactRow(e.fact) := t], DissentRow(e.dissent), Written(w));
    var next := Then(now, RunWrite(t, e.dissent));
    assert At(s, next, t, op, Written(w), DissentLocks(s.db, t, e));
    DissentInstalls(s.db, op, e);
    Finishes(s, next, t, op, w, DissentLocks(s.db, t, e), e);
  }

  lemma DissentInstalls(db: Db, op: Op, e: Effect)
    requires e.Submit? && Answers(op, db, e) && Legal(db, e)
    ensures var w := DissentWrite(db, e);
            CanInstall(db, w) && EffectOf(op, w) == e && Install(db, w) == Apply(db, e)
  {
  }

  lemma Dissents(s: State, t: int, op: Op, e: Effect) returns (actions: seq<Action>)
    requires Quiet(s, t) && op.Upsert? && e.Submit? && Answers(op, s.db, e) && Legal(s.db, e)
    ensures actions == [Begin(t, op), SelectSame(t, None), SelectId(t, true), RunWrite(t, e.dissent), Commit(t)]
    ensures Done(s, RunFrom(Some(s), actions), e)
  {
    hide Then, Step;
    var a, b, c, d := Begin(t, op), SelectSame(t, None), SelectId(t, true), RunWrite(t, e.dissent);
    var f, row := e.fact, s.db.facts[e.fact];
    Misses(s, t, op);
    Inserts(s, Then(Then(Then(Some(s), a), b), c), t, op, IdHit(f, row.version, row.source), e);
    FiveSteps(Some(s), a, b, c, d, Commit(t));
    return [a, b, c, d, Commit(t)];
  }

  lemma Proposes(s: State, t: int, op: Op, e: Effect) returns (actions: seq<Action>)
    requires Quiet(s, t) && op.Propose? && Answers(op, s.db, e) && Legal(s.db, e)
    ensures actions == [Begin(t, op), SelectFact(t), RunWrite(t, e.dissent), Commit(t)]
    ensures Done(s, RunFrom(Some(s), actions), e)
  {
    var a, b, c := Begin(t, op), SelectFact(t), RunWrite(t, e.dissent);
    var held := FactHeld(e.fact, s.db.facts[e.fact].kind);
    Begins(s, t, op);
    Moves(s, Then(Some(s), a), t, op, Start, map[], FactRow(e.fact), held);
    assert At(s, Then(Then(Some(s), a), b), t, op, held, map[][FactRow(e.fact) := t]);
    Inserts(s, Then(Then(Some(s), a), b), t, op, held, e);
    FourSteps(Some(s), a, b, c, Commit(t));
    return [a, b, c, Commit(t)];
  }

  lemma Promotes(s: State, t: int, op: Op, e: Effect) returns (actions: seq<Action>)
    requires Quiet(s, t) && op.Resolve? && Answers(op, s.db, e) && Legal(s.db, e)
    ensures actions == [Begin(t, op), SelectDissent(t), SelectDissentFact(t), RunWrite(t, 0), Commit(t)]
    ensures Done(s, RunFrom(Some(s), actions), e)
  {
    var a, b, c, d := Begin(t, op), SelectDissent(t), SelectDissentFact(t), RunWrite(t, 0);
    var row, fact := s.db.dissents[e.dissent], s.db.facts[e.fact];
    var r, q := DissentRow(e.dissent), FactRow(e.fact);
    Begins(s, t, op);
    var s1 := Then(Some(s), a);
    Moves(s, s1, t, op, Start, map[], r, DissentHeld(e.dissent, row));
    var s2 := Then(s1, b);
    assert At(s, s2, t, op, DissentHeld(e.dissent, row), map[][r := t]);
    Moves(s, s2, t, op, DissentHeld(e.dissent, row), map[][r := t], q, BothHeld(e.dissent, row, fact.version));
    var s3 := Then(s2, c);
    assert At(s, s3, t, op, BothHeld(e.dissent, row, fact.version), map[][r := t][q := t]);
    var w := WPromote(e.dissent, e.fact, Overwrite(fact, row.payload, row.hash, op.caller), row.(status := Promoted));
    Moves(s, s3, t, op, BothHeld(e.dissent, row, fact.version), map[][r := t][q := t], q, Written(w));
    Finishes(s, Then(s3, d), t, op, w, map[][r := t][q := t], e);
    FiveSteps(Some(s), a, b, c, d, Commit(t));
    return [a, b, c, d, Commit(t)];
  }

  /** The protocol refuses nothing it should grant: with no row locked, every legal effect that answers a request is
      what one transaction running that request can commit. */
  lemma EveryAnswerCanBeHad(s: State, t: int, op: Op, e: Effect) returns (actions: seq<Action>)
    requires Quiet(s, t) && Answers(op, s.db, e) && Legal(s.db, e)
    ensures |actions| >= 2 && actions[0] == Begin(t, op) && actions[|actions| - 1] == Commit(t)
    ensures var after := RunFrom(Some(s), actions);
            after.Some? && Commits(s, after.value, e) && after.value.txs == s.txs && after.value.locks == map[]
  {
    hide RunFrom, Commits;
    match op
    case Propose(_, _) => actions := Proposes(s, t, op, e);
    case Resolve(_, _, _) => actions := Promotes(s, t, op, e);
    case Upsert(_, _, _, _, _) =>
      match e {
        case Touch(_, _, _, _) => actions := Touches(s, t, op, e);
        case Create(_, _, _, _) => actions := Creates(s, t, op, e);
        case Amend(_, _, _, _, _) => actions := Amends(s, t, op, e);
        case Submit(_, _, _, _, _, _) => actions := Dissents(s, t, op, e);
      }
  }
}
