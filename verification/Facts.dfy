/**
 The committed side of the fact store: rows, and the effects a transaction can
 have on them. An effect log replayed from the empty store is a serial history.
 */
module Facts {
  import opened Options

  datatype Source = User | Controller | Task | AgentProposal

  function TrustRank(s: Source): nat {
    match s
    case User => 4
    case Controller => 3
    case Task => 2
    case AgentProposal => 1
  }

  datatype FactType = UserFact | TaskFact | EnvFact

  datatype Json = Json(text: string)

  const NO_PAYLOAD: Json := Json("")

  /** `canonical_json_hash(type, payload)`, taken as collision-free. */
  datatype Hash = Hash(kind: FactType, payload: Json)

  datatype Fact = Fact(kind: FactType, payload: Json, hash: Hash, source: Source, version: nat, deleted: bool)

  datatype Status = Pending | Promoted | Discarded

  datatype Dissent = Dissent(fact: int, payload: Json, hash: Hash, source: Source, status: Status, count: nat)

  datatype Db = Db(facts: map<int, Fact>, dissents: map<int, Dissent>)

  const EMPTY: Db := Db(map[], map[])

  datatype Effect =
    | Create(fact: int, kind: FactType, payload: Json, source: Source)
    | Touch(fact: int, kind: FactType, payload: Json, expected: Option<nat>)
    | Amend(fact: int, kind: FactType, payload: Json, source: Source, expected: Option<nat>)
    | Submit(dissent: int, fact: int, payload: Json, hash: Hash, source: Source, direct: bool)
    | Promote(dissent: int, fact: int, caller: Source, version: nat)
    | Discard(dissent: int)
    | SetDeleted(fact: int, deleted: bool)

  /** The unique index on `(type, payload_hash)` would refuse this row. */
  predicate Taken(facts: map<int, Fact>, kind: FactType, hash: Hash, self: int) {
    exists f | f in facts :: f != self && facts[f].kind == kind && facts[f].hash == hash
  }

  predicate PendingOn(d: Dissent, fact: int, hash: Hash) {
    d.status == Pending && d.fact == fact && d.hash == hash
  }

  predicate ExpectedOk(expected: Option<nat>, version: nat) {
    expected.None? || expected.value == version
  }

  /** When an effect may be the next entry of a serial history. */
  predicate Legal(db: Db, e: Effect) {
    match e
    case Create(f, kind, payload, _) =>
      f !in db.facts && !Taken(db.facts, kind, Hash(kind, payload), f)
    case Touch(f, kind, payload, expected) =>
      && f in db.facts && db.facts[f].kind == kind && db.facts[f].hash == Hash(kind, payload)
      && ExpectedOk(expected, db.facts[f].version)
    case Amend(f, kind, payload, source, expected) =>
      && f in db.facts && TrustRank(source) >= TrustRank(db.facts[f].source)
      && ExpectedOk(expected, db.facts[f].version)
      && !Taken(db.facts, db.facts[f].kind, Hash(kind, payload), f)
    case Submit(d, f, payload, hash, source, direct) =>
      && f in db.facts && hash.payload == payload
      && (if direct then !db.facts[f].deleted && source == AgentProposal
          else TrustRank(source) < TrustRank(db.facts[f].source))
      && (if d in db.dissents then PendingOn(db.dissents[d], f, hash)
          else forall x | x in db.dissents :: !PendingOn(db.dissents[x], f, hash))
    case Promote(d, f, caller, version) =>
      && d in db.dissents && db.dissents[d].status == Pending && db.dissents[d].fact == f
      && f in db.facts && db.facts[f].version == version
      && !Taken(db.facts, db.facts[f].kind, db.dissents[d].hash, f)
    case Discard(d) => d in db.dissents && db.dissents[d].status == Pending
    case SetDeleted(f, _) => f in db.facts
  }

  function Overwrite(row: Fact, payload: Json, hash: Hash, source: Source): Fact {
    row.(payload := payload, hash := hash, source := source, version := row.version + 1)
  }

  function Apply(db: Db, e: Effect): Db
    requires Legal(db, e)
  {
    match e
    case Create(f, kind, payload, source) =>
      db.(facts := db.facts[f := Fact(kind, payload, Hash(kind, payload), source, 1, false)])
    case Touch(_, _, _, _) => db
    case Amend(f, kind, payload, source, _) =>
      db.(facts := db.facts[f := Overwrite(db.facts[f], payload, Hash(kind, payload), source)])
    case Submit(d, f, payload, hash, source, _) =>
      db.(dissents := db.dissents[d :=
        if d in db.dissents then db.dissents[d].(count := db.dissents[d].count + 1)
        else Dissent(f, payload, hash, source, Pending, 1)])
    case Promote(d, f, caller, _) =>
      Db(db.facts[f := Overwrite(db.facts[f], db.dissents[d].payload, db.dissents[d].hash, caller)],
         db.dissents[d := db.dissents[d].(status := Promoted)])
    case Discard(d) =>
      db.(dissents := db.dissents[d := db.dissents[d].(status := Discarded)])
    case SetDeleted(f, deleted) =>
      db.(facts := db.facts[f := db.facts[f].(deleted := deleted)])
  }

  /** The store after a serial history, or None when some entry was not legal. */
  function Replay(log: seq<Effect>): Option<Db> {
    if log == [] then Some(EMPTY)
    else
      var last := |log| - 1;
      match Replay(log[..last])
      case None => None
      case Some(db) => if Legal(db, log[last]) then Some(Apply(db, log[last])) else None
  }

  ghost predicate Serial(log: seq<Effect>) {
    Replay(log).Some?
  }

  lemma {:induction false} SerialPrefix(log: seq<Effect>, n: nat)
    requires Serial(log) && n <= |log|
    ensures Serial(log[..n])
    decreases |log|
  {
    if n == |log| {
      assert log[..n] == log;
    } else {
      SerialPrefix(log[..|log| - 1], n);
      assert log[..|log| - 1][..n] == log[..n];
    }
  }

  /** The store after the first `n` entries. */
  function After(log: seq<Effect>, n: nat): Db
    requires n <= |log|
  {
    match Replay(log[..n])
    case Some(db) => db
    case None => EMPTY
  }

  lemma AfterStep(log: seq<Effect>, n: nat)
    requires Serial(log) && n < |log|
    ensures Legal(After(log, n), log[n]) && After(log, n + 1) == Apply(After(log, n), log[n])
  {
    SerialPrefix(log, n);
    SerialPrefix(log, n + 1);
    assert log[..n + 1][..n] == log[..n];
  }

  lemma AfterPrefix(log: seq<Effect>, m: nat, n: nat)
    requires Serial(log) && n <= m <= |log|
    ensures Serial(log[..m]) && Serial(log[..n]) && After(log[..m], n) == After(log, n)
  {
    SerialPrefix(log, m);
    SerialPrefix(log, n);
    assert log[..m][..n] == log[..n];
  }

  // ----- versions -----

  /** Does this effect store a new payload on `f`? */
  predicate Writes(e: Effect, f: int) {
    (e.Create? || e.Amend? || e.Promote?) && e.fact == f
  }

  /** Log positions that stored a payload on `f`: version v was stored by entry v - 1. */
  function WritesOf(log: seq<Effect>, f: int): (ws: seq<nat>)
    ensures forall i | 0 <= i < |ws| :: ws[i] < |log|
  {
    if log == [] then []
    else
      var last := |log| - 1;
      var ws := WritesOf(log[..last], f);
      if Writes(log[last], f) then ws + [last] else ws
  }

  /** The payload an effect stores; a promotion stores its dissent's. */
  function PayloadOf(db: Db, e: Effect): Json {
    match e
    case Create(_, _, payload, _) => payload
    case Amend(_, _, payload, _, _) => payload
    case Promote(d, _, _, _) => if d in db.dissents then db.dissents[d].payload else NO_PAYLOAD
    case _ => NO_PAYLOAD
  }

  function SourceOf(e: Effect): Source {
    match e
    case Create(_, _, _, source) => source
    case Amend(_, _, _, source, _) => source
    case Promote(_, _, caller, _) => caller
    case _ => AgentProposal
  }

  /** `f` is at version |ws|, showing what its latest writing entry stored. */
  ghost predicate ShowsLastWrite(log: seq<Effect>, db: Db, f: int) {
    var ws := WritesOf(log, f);
    && (f in db.facts <==> ws != [])
    && (f in db.facts ==>
          var w := ws[|ws| - 1];
          && db.facts[f].version == |ws|
          && db.facts[f].payload == PayloadOf(After(log, w), log[w])
          && db.facts[f].source == SourceOf(log[w]))
  }

  function VersionIn(db: Db, f: int): nat {
    if f in db.facts then db.facts[f].version else 0
  }

  /** One entry: a write adds a version on top of the row it found, anything else leaves the row's content. */
  lemma OneEntry(db: Db, e: Effect, f: int)
    requires Legal(db, e)
    ensures var after := Apply(db, e).facts;
            if Writes(e, f) then
              && f in after && after[f].version == VersionIn(db, f) + 1
              && after[f].payload == PayloadOf(db, e) && after[f].source == SourceOf(e)
            else
              && (f in after <==> f in db.facts)
              && (f in after ==> && after[f].version == db.facts[f].version
                                 && after[f].payload == db.facts[f].payload
                                 && after[f].source == db.facts[f].source)
  {
  }

  /** Users before controllers before tasks before agent proposals. */
  lemma TrustOrder(a: Source, b: Source)
    ensures TrustRank(a) >= TrustRank(b) <==>
            a == b || a == User || b == AgentProposal || (a == Controller && b == Task)
  {
  }

  /** A fact keeps its type for good, and is deleted when the last entry to say so said it. */
  lemma OneEntryOnFlags(db: Db, e: Effect, f: int)
    requires Legal(db, e) && f in Apply(db, e).facts
    ensures var after := Apply(db, e).facts[f];
            && after.deleted ==
                 (if e.SetDeleted? && e.fact == f then e.deleted else f in db.facts && db.facts[f].deleted)
            && (f in db.facts ==> after.kind == db.facts[f].kind)
            && (f !in db.facts ==> e.Create? && e.fact == f && after.kind == e.kind)
  {
  }

  /** Exactly the dissent an entry names is filed, counted once more, or resolved. */
  lemma OneEntryOnDissents(db: Db, e: Effect, d: int)
    requires Legal(db, e)
    ensures var after := Apply(db, e).dissents;
            && (d in after <==> d in db.dissents || (e.Submit? && e.dissent == d))
            && (d in after && d !in db.dissents ==>
                  after[d] == Dissent(e.fact, e.payload, e.hash, e.source, Pending, 1))
            && (d in db.dissents ==>
                  var row := db.dissents[d];
                  after[d] ==
                  if e.Submit? && e.dissent == d then row.(count := row.count + 1)
                  else if e.Promote? && e.dissent == d then row.(status := Promoted)
                  else if e.Discard? && e.dissent == d then row.(status := Discarded)
                  else row)
  {
  }

  lemma WritesOfPrefix(log: seq<Effect>, f: int)
    requires log != []
    ensures var ws := WritesOf(log[..|log| - 1], f);
            WritesOf(log, f) == if Writes(log[|log| - 1], f) then ws + [|log| - 1] else ws
  {
  }

  /** The version counts the committed payload changes, and the row shows the last of them. */
  lemma {:induction false} VersionCountsWrites(log: seq<Effect>, f: int)
    requires Serial(log)
    ensures ShowsLastWrite(log, Replay(log).value, f)
  {
    if log != [] {
      var last := |log| - 1;
      var front := log[..last];
      SerialPrefix(log, last);
      VersionCountsWrites(front, f);
      var ws := WritesOf(front, f);
      if ws != [] {
        AfterPrefix(log, last, ws[|ws| - 1]);
      }
      var db := Replay(front).value;
      assert After(log, last) == db;
      OneEntry(db, log[last], f);
      WritesOfPrefix(log, f);
      hide Legal;
      hide Apply;
      hide WritesOf;
      hide After;
      hide PayloadOf;
      hide SourceOf;
    }
  }

  /** A dissent row counts at least the submission that created it. */
  lemma {:induction false} CountsArePositive(log: seq<Effect>)
    requires Serial(log)
    ensures forall d | d in Replay(log).value.dissents :: Replay(log).value.dissents[d].count >= 1
  {
    if log != [] {
      CountsArePositive(log[..|log| - 1]);
    }
  }
}
