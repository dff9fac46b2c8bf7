/**
 The fact store under concurrency. Every SQL statement is one step; a
 `FOR UPDATE` read takes a row lock that is held to the end of the transaction;
 writes are row images computed when the statement runs and become visible at
 commit. Any transaction may abort at any time, which covers deadlock victims,
 version conflicts and lost connections.
 */
module FactTx {
  import opened Options
  import opened Facts

  datatype Row = FactRow(fact: int) | DissentRow(dissent: int)

  datatype Op =
    | Upsert(kind: FactType, payload: Json, source: Source, explicitId: Option<int>, expected: Option<nat>)
    | Propose(fact: int, payload: Json)
    | Resolve(dissent: int, caller: Source, version: nat)

  /** A row image waiting for commit. */
  datatype Write =
    | WTouch(fact: int)
    | WAmend(fact: int, row: Fact)
    | WNew(dissent: int, image: Dissent)
    | WAgain(dissent: int, image: Dissent)
    | WCreate(fact: int, row: Fact)
    | WPromote(dissent: int, fact: int, row: Fact, image: Dissent)

  /** Program counter with the columns the statement so far has read. */
  datatype Pc =
    | Start
    | SameHit(fact: int, version: nat)
    | SameMissed
    | IdHit(fact: int, version: nat, source: Source)
    | IdMissed
    | FactHeld(fact: int, kind: FactType)
    | DissentHeld(dissent: int, row: Dissent)
    | BothHeld(dissent: int, row: Dissent, version: nat)
    | Written(w: Write)

  datatype Tx = Tx(op: Op, pc: Pc)

  datatype State = State(db: Db, locks: map<Row, int>, txs: map<int, Tx>, log: seq<Effect>)

  datatype Action =
    | Begin(t: int, op: Op)
    | SelectSame(t: int, hit: Option<int>)
    | SelectId(t: int, found: bool)
    | SelectFact(t: int)
    | SelectDissent(t: int)
    | SelectDissentFact(t: int)
    | RunWrite(t: int, id: int)
    | Commit(t: int)
    | Abort(t: int)
    | DiscardNow(dissent: int)
    | SetDeletedNow(fact: int, deleted: bool)

  const INITIAL: State := State(EMPTY, map[], map[], [])

  predicate CanLock(s: State, t: int, r: Row) {
    r !in s.locks || s.locks[r] == t
  }

  function Release(locks: map<Row, int>, t: int): map<Row, int> {
    map r | r in locks && locks[r] != t :: locks[r]
  }

  function Goto(s: State, t: int, pc: Pc): State
    requires t in s.txs
  {
    s.(txs := s.txs[t := s.txs[t].(pc := pc)])
  }

  function LockGoto(s: State, t: int, r: Row, pc: Pc): State
    requires t in s.txs
  {
    s.(locks := s.locks[r := t], txs := s.txs[t := s.txs[t].(pc := pc)])
  }

  // ----- statements -----

  predicate SameContent(f: Fact, op: Op)
    requires op.Upsert?
  {
    f.kind == op.kind && f.hash == Hash(op.kind, op.payload)
  }

  /** `INSERT INTO dissents ... ON CONFLICT ... DO UPDATE`: `id` is the pending row it meets, or a new id. */
  function InsertDissent(s: State, t: int, id: int, f: int, payload: Json, hash: Hash, source: Source): Option<State>
    requires t in s.txs
  {
    if id in s.db.dissents then
      if PendingOn(s.db.dissents[id], f, hash) && CanLock(s, t, DissentRow(id)) then
        var d := s.db.dissents[id];
        Some(LockGoto(s, t, DissentRow(id), Written(WAgain(id, d.(count := d.count + 1)))))
      else None
    else if forall x | x in s.db.dissents :: !PendingOn(s.db.dissents[x], f, hash) then
      Some(Goto(s, t, Written(WNew(id, Dissent(f, payload, hash, source, Pending, 1)))))
    else None
  }

  function RunStatement(s: State, t: int, id: int): Option<State>
    requires t in s.txs
  {
    var op := s.txs[t].op;
    match s.txs[t].pc
    case SameHit(f, version) =>
      if op.Upsert? && ExpectedOk(op.expected, version) then Some(Goto(s, t, Written(WTouch(f)))) else None
    case IdHit(f, version, source) =>
      if !op.Upsert? || f !in s.db.facts then None
      else if TrustRank(op.source) < TrustRank(source) then
        InsertDissent(s, t, id, f, op.payload, Hash(op.kind, op.payload), op.source)
      else if ExpectedOk(op.expected, version) then
        Some(Goto(s, t, Written(WAmend(f, Overwrite(s.db.facts[f], op.payload, Hash(op.kind, op.payload), op.source)))))
      else None
    case IdMissed =>
      if !op.Upsert? then None
      else
        var f := if op.explicitId.Some? then op.explicitId.value else id;
        Some(Goto(s, t, Written(WCreate(f, Fact(op.kind, op.payload, Hash(op.kind, op.payload), op.source, 1, false)))))
    case FactHeld(f, kind) =>
      if op.Propose? then InsertDissent(s, t, id, f, op.payload, Hash(kind, op.payload), AgentProposal) else None
    case BothHeld(d, row, version) =>
      if op.Resolve? && row.fact in s.db.facts && version == op.version then
        Some(Goto(s, t, Written(WPromote(d, row.fact,
          Overwrite(s.db.facts[row.fact], row.payload, row.hash, op.caller), row.(status := Promoted)))))
      else None
    case _ => None
  }

  /** Primary keys and the unique index on facts are checked when the write goes in. */
  predicate CanInstall(db: Db, w: Write) {
    match w
    case WTouch(_) => true
    case WAmend(f, row) => !Taken(db.facts, row.kind, row.hash, f)
    case WNew(d, _) => d !in db.dissents
    case WAgain(_, _) => true
    case WCreate(f, row) => f !in db.facts && !Taken(db.facts, row.kind, row.hash, f)
    case WPromote(_, f, row, _) => !Taken(db.facts, row.kind, row.hash, f)
  }

  function Install(db: Db, w: Write): Db {
    match w
    case WTouch(_) => db
    case WAmend(f, row) => db.(facts := db.facts[f := row])
    case WNew(d, image) => db.(dissents := db.dissents[d := image])
    case WAgain(d, image) => db.(dissents := db.dissents[d := image])
    case WCreate(f, row) => db.(facts := db.facts[f := row])
    case WPromote(d, f, row, image) => Db(db.facts[f := row], db.dissents[d := image])
  }

  function OpPayload(op: Op): Json {
    if op.Resolve? then NO_PAYLOAD else op.payload
  }

  /** What the log says about a committed write. */
  function EffectOf(op: Op, w: Write): Effect {
    match w
    case WTouch(f) => Touch(f, if op.Upsert? then op.kind else UserFact, OpPayload(op),
                            if op.Upsert? then op.expected else None)
    case WAmend(f, row) => Amend(f, if op.Upsert? then op.kind else UserFact, row.payload, row.source,
                                 if op.Upsert? then op.expected else None)
    case WNew(d, image) =>
      Submit(d, image.fact, OpPayload(op), image.hash, if op.Upsert? then op.source else AgentProposal, op.Propose?)
    case WAgain(d, image) =>
      Submit(d, image.fact, OpPayload(op), image.hash, if op.Upsert? then op.source else AgentProposal, op.Propose?)
    case WCreate(f, row) => Create(f, row.kind, row.payload, row.source)
    case WPromote(d, f, row, _) => Promote(d, f, row.source, if op.Resolve? then op.version else 0)
  }

  // ----- steps -----

  function Step(s: State, a: Action): Option<State> {
    match a
    case Begin(t, op) => if t in s.txs then None else Some(s.(txs := s.txs[t := Tx(op, Start)]))
    case SelectSame(t, hit) =>
      if t !in s.txs || !s.txs[t].op.Upsert? || s.txs[t].pc != Start then None
      else if hit.None? then Some(Goto(s, t, SameMissed))   // stale snapshots may miss a row
      else
        var f := hit.value;
        if f in s.db.facts && SameContent(s.db.facts[f], s.txs[t].op) && CanLock(s, t, FactRow(f))
        then Some(LockGoto(s, t, FactRow(f), SameHit(f, s.db.facts[f].version)))
        else None
    case SelectId(t, found) =>
      if t !in s.txs || !s.txs[t].op.Upsert? || s.txs[t].pc != SameMissed then None
      else if !found then Some(Goto(s, t, IdMissed))
      else if s.txs[t].op.explicitId.None? then None
      else
        var f := s.txs[t].op.explicitId.value;
        if f in s.db.facts && CanLock(s, t, FactRow(f))
        then Some(LockGoto(s, t, FactRow(f), IdHit(f, s.db.facts[f].version, s.db.facts[f].source)))
        else None
    case SelectFact(t) =>
      if t !in s.txs || !s.txs[t].op.Propose? || s.txs[t].pc != Start then None
      else
        var f := s.txs[t].op.fact;
        if f in s.db.facts && !s.db.facts[f].deleted && CanLock(s, t, FactRow(f))
        then Some(LockGoto(s, t, FactRow(f), FactHeld(f, s.db.facts[f].kind)))
        else None
    case SelectDissent(t) =>
      if t !in s.txs || !s.txs[t].op.Resolve? || s.txs[t].pc != Start then None
      else
        var d := s.txs[t].op.dissent;
        if d in s.db.dissents && s.db.dissents[d].status == Pending && CanLock(s, t, DissentRow(d))
        then Some(LockGoto(s, t, DissentRow(d), DissentHeld(d, s.db.dissents[d])))
        else None
    case SelectDissentFact(t) =>
      if t !in s.txs || !s.txs[t].pc.DissentHeld? then None
      else
        var row := s.txs[t].pc.row;
        if row.fact in s.db.facts && CanLock(s, t, FactRow(row.fact))
        then Some(LockGoto(s, t, FactRow(row.fact), BothHeld(s.txs[t].pc.dissent, row, s.db.facts[row.fact].version)))
        else None
    case RunWrite(t, id) => if t in s.txs then RunStatement(s, t, id) else None
    case Commit(t) =>
      if t !in s.txs || !s.txs[t].pc.Written? then None
      else
        var w := s.txs[t].pc.w;
        if CanInstall(s.db, w) then
          Some(State(Install(s.db, w), Release(s.locks, t), s.txs - {t}, s.log + [EffectOf(s.txs[t].op, w)]))
        else None
    case Abort(t) =>
      if t in s.txs then Some(s.(locks := Release(s.locks, t), txs := s.txs - {t})) else None
    case DiscardNow(d) =>
      if d in s.db.dissents && s.db.dissents[d].status == Pending && DissentRow(d) !in s.locks
      then Some(s.(db := Apply(s.db, Discard(d)), log := s.log + [Discard(d)]))
      else None
    case SetDeletedNow(f, deleted) =>
      if f in s.db.facts && FactRow(f) !in s.locks
      then Some(s.(db := Apply(s.db, SetDeleted(f, deleted)), log := s.log + [SetDeleted(f, deleted)]))
      else None
  }

  /** Any interleaving of any transactions, or None when a step was not possible. */
  function Run(actions: seq<Action>): Option<State> {
    if actions == [] then Some(INITIAL)
    else
      var last := |actions| - 1;
      match Run(actions[..last])
      case None => None
      case Some(s) => Step(s, actions[last])
  }

  /** Steps taken one after the other from any state. */
  function RunFrom(s: Option<State>, actions: seq<Action>): Option<State>
    decreases |actions|
  {
    if actions == [] || s.None? then s else RunFrom(Step(s.value, actions[0]), actions[1..])
  }

  lemma {:induction false} RunConcat(before: seq<Action>, more: seq<Action>)
    requires Run(before).Some?
    ensures Run(before + more) == RunFrom(Run(before), more)
    decreases |more|
  {
    hide Step;
    if more == [] {
      assert before + more == before;
    } else {
      var next := before + [more[0]];
      assert next[..|before|] == before;
      assert before + more == next + more[1..];
      if Run(next).Some? {
        RunConcat(next, more[1..]);
      } else {
        StaysImpossible(next, more[1..]);
      }
    }
  }

  lemma {:induction false} StaysImpossible(before: seq<Action>, more: seq<Action>)
    requires Run(before).None?
    ensures Run(before + more).None?
  {
    hide Step;
    if more == [] {
      assert before + more == before;
    } else {
      var last := |more| - 1;
      StaysImpossible(before, more[..last]);
      assert (before + more)[..|before| + last] == before + more[..last];
    }
  }

  function Then(s: Option<State>, a: Action): Option<State> {
    match s
    case None => None
    case Some(t) => Step(t, a)
  }

  lemma OneStep(s: Option<State>, a: Action, rest: seq<Action>)
    ensures RunFrom(s, [a] + rest) == RunFrom(Then(s, a), rest)
  {
    hide Step;
    assert ([a] + rest)[1..] == rest;
  }

  lemma FourSteps(s: Option<State>, a: Action, b: Action, c: Action, d: Action)
    ensures RunFrom(s, [a, b, c, d]) == Then(Then(Then(Then(s, a), b), c), d)
  {
    hide Then, Step;
    var s1, s2, s3 := Then(s, a), Then(Then(s, a), b), Then(Then(Then(s, a), b), c);
    OneStep(s, a, [b, c, d]);
    OneStep(s1, b, [c, d]);
    OneStep(s2, c, [d]);
    OneStep(s3, d, []);
    assert [a] + [b, c, d] == [a, b, c, d] && [b] + [c, d] == [b, c, d];
    assert [c] + [d] == [c, d] && [d] + [] == [d];
  }

  /** Five actions, one after the other. */
  lemma FiveSteps(s: Option<State>, a: Action, b: Action, c: Action, d: Action, e: Action)
    ensures RunFrom(s, [a, b, c, d, e]) == Then(Then(Then(Then(Then(s, a), b), c), d), e)
  {
    hide Then, Step;
    var s1, s2, s3 := Then(s, a), Then(Then(s, a), b), Then(Then(Then(s, a), b), c);
    OneStep(s, a, [b, c, d, e]);
    OneStep(s1, b, [c, d, e]);
    OneStep(s2, c, [d, e]);
    OneStep(s3, d, [e]);
    OneStep(Then(s3, d), e, []);
    assert [a] + [b, c, d, e] == [a, b, c, d, e] && [b] + [c, d, e] == [b, c, d, e];
    assert [c] + [d, e] == [c, d, e] && [d] + [e] == [d, e] && [e] + [] == [e];
  }

  // ----- what the locks protect -----

  ghost predicate Holds(locks: map<Row, int>, t: int, r: Row) {
    r in locks && locks[r] == t
  }

  ghost predicate SubmitOk(db: Db, locks: map<Row, int>, t: int, op: Op, image: Dissent) {
    && Holds(locks, t, FactRow(image.fact)) && image.fact in db.facts && image.status == Pending
    && (op.Propose? || op.Upsert?) && image.hash.payload == OpPayload(op)
    && (op.Propose? ==>
          image.fact == op.fact && !db.facts[image.fact].deleted && image.hash.kind == db.facts[image.fact].kind)
    && (op.Upsert? ==>
          && op.explicitId == Some(image.fact) && image.hash.kind == op.kind
          && TrustRank(op.source) < TrustRank(db.facts[image.fact].source))
  }

  /** The write image a transaction carries is still what `Apply` would compute from the committed rows. */
  ghost predicate WriteOk(db: Db, locks: map<Row, int>, t: int, op: Op, w: Write) {
    match w
    case WTouch(f) =>
      && op.Upsert? && Holds(locks, t, FactRow(f)) && f in db.facts
      && SameContent(db.facts[f], op) && ExpectedOk(op.expected, db.facts[f].version)
    case WAmend(f, row) =>
      && op.Upsert? && op.explicitId == Some(f) && Holds(locks, t, FactRow(f)) && f in db.facts
      && TrustRank(op.source) >= TrustRank(db.facts[f].source)
      && ExpectedOk(op.expected, db.facts[f].version)
      && row == Overwrite(db.facts[f], op.payload, Hash(op.kind, op.payload), op.source)
    case WNew(d, image) =>
      && SubmitOk(db, locks, t, op, image) && image.count == 1 && image.payload == OpPayload(op)
      && image.source == (if op.Upsert? then op.source else AgentProposal)
      && forall x | x in db.dissents :: !PendingOn(db.dissents[x], image.fact, image.hash)
    case WAgain(d, image) =>
      && SubmitOk(db, locks, t, op, image) && Holds(locks, t, DissentRow(d))
      && d in db.dissents && image == db.dissents[d].(count := db.dissents[d].count + 1)
    case WCreate(f, row) =>
      && op.Upsert? && (op.explicitId.Some? ==> op.explicitId == Some(f))
      && row == Fact(op.kind, op.payload, Hash(op.kind, op.payload), op.source, 1, false)
    case WPromote(d, f, row, image) =>
      && op.Resolve? && op.dissent == d && Holds(locks, t, FactRow(f)) && Holds(locks, t, DissentRow(d))
      && f in db.facts && d in db.dissents
      && db.dissents[d].status == Pending && db.dissents[d].fact == f && db.facts[f].version == op.version
      && row == Overwrite(db.facts[f], db.dissents[d].payload, db.dissents[d].hash, op.caller)
      && image == db.dissents[d].(status := Promoted)
  }

  /** Every column a transaction has read under a lock is still the committed value. */
  ghost predicate TxOk(db: Db, locks: map<Row, int>, t: int, tx: Tx) {
    match tx.pc
    case Start => true
    case SameMissed => true
    case IdMissed => true
    case SameHit(f, version) =>
      && tx.op.Upsert? && Holds(locks, t, FactRow(f)) && f in db.facts
      && SameContent(db.facts[f], tx.op) && db.facts[f].version == version
    case IdHit(f, version, source) =>
      && tx.op.Upsert? && tx.op.explicitId == Some(f) && Holds(locks, t, FactRow(f)) && f in db.facts
      && db.facts[f].version == version && db.facts[f].source == source
    case FactHeld(f, kind) =>
      && tx.op.Propose? && tx.op.fact == f && Holds(locks, t, FactRow(f)) && f in db.facts
      && !db.facts[f].deleted && db.facts[f].kind == kind
    case DissentHeld(d, row) =>
      && tx.op.Resolve? && tx.op.dissent == d && Holds(locks, t, DissentRow(d)) && d in db.dissents
      && db.dissents[d] == row && row.status == Pending
    case BothHeld(d, row, version) =>
      && tx.op.Resolve? && tx.op.dissent == d && Holds(locks, t, DissentRow(d)) && d in db.dissents
      && db.dissents[d] == row && row.status == Pending
      && Holds(locks, t, FactRow(row.fact)) && row.fact in db.facts && db.facts[row.fact].version == version
    case Written(w) => WriteOk(db, locks, t, tx.op, w)
  }

  ghost predicate Inv(s: State) {
    && Replay(s.log) == Some(s.db)
    && forall t | t in s.txs :: TxOk(s.db, s.locks, t, s.txs[t])
  }

  /** A change of the committed rows that respects the locks of `t`. */
  ghost predicate Undisturbed(db: Db, after: Db, locks: map<Row, int>, t: int) {
    && (forall f | f in db.facts && Holds(locks, t, FactRow(f)) :: f in after.facts && after.facts[f] == db.facts[f])
    && (forall d | d in db.dissents && Holds(locks, t, DissentRow(d)) ::
          d in after.dissents && after.dissents[d] == db.dissents[d])
    && (forall d, f, h | d in after.dissents && PendingOn(after.dissents[d], f, h) && Holds(locks, t, FactRow(f)) ::
          d in db.dissents && PendingOn(db.dissents[d], f, h))
  }

  ghost predicate KeepsLocks(locks: map<Row, int>, after: map<Row, int>, t: int) {
    forall r | Holds(locks, t, r) :: Holds(after, t, r)
  }

  lemma TxOkFrame(db: Db, locks: map<Row, int>, after: Db, afterLocks: map<Row, int>, t: int, tx: Tx)
    requires TxOk(db, locks, t, tx) && Undisturbed(db, after, locks, t) && KeepsLocks(locks, afterLocks, t)
    ensures TxOk(after, afterLocks, t, tx)
  {
  }

  /** An install under `t`'s locks disturbs nobody else. */
  lemma InstallDisturbsNobody(db: Db, locks: map<Row, int>, t: int, op: Op, w: Write, other: int)
    requires WriteOk(db, locks, t, op, w) && CanInstall(db, w) && other != t
    ensures Undisturbed(db, Install(db, w), locks, other)
  {
  }

  /** At commit the carried image is a legal effect, and installing it is applying that effect. */
  lemma CommitIsLegal(db: Db, locks: map<Row, int>, t: int, op: Op, w: Write)
    requires WriteOk(db, locks, t, op, w) && CanInstall(db, w)
    ensures Legal(db, EffectOf(op, w)) && Apply(db, EffectOf(op, w)) == Install(db, w)
  {
  }

  lemma ReplayOneMore(log: seq<Effect>, db: Db, e: Effect)
    requires Replay(log) == Some(db) && Legal(db, e)
    ensures Replay(log + [e]) == Some(Apply(db, e))
  {
    assert (log + [e])[..|log|] == log;
  }
}
