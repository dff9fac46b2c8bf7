/** A run, statement by statement, that ends with a promotion and a dissenting upsert each waiting for the other. */
module FactCrossing {
  import opened Options
  import opened Facts
  import opened FactTx

  const X: Json := Json("x")
  const Y: Json := Json("y")

  /** The canonical write of `X` by a user, and a task's contradicting `Y` against the same fact. */
  const CANONICAL: Op := Upsert(UserFact, X, User, Some(1), None)
  const CONTRADICTION: Op := Upsert(UserFact, Y, Task, Some(1), None)
  const PROMOTION: Op := Resolve(7, User, 1)

  const FACT: Fact := Fact(UserFact, X, Hash(UserFact, X), User, 1, false)
  const DISSENT: Dissent := Dissent(1, Y, Hash(UserFact, Y), Task, Pending, 1)

  const CREATED: seq<Action> :=
    [Begin(0, CANONICAL), SelectSame(0, None), SelectId(0, false), RunWrite(0, 1), Commit(0)]
  const DISSENTED: seq<Action> :=
    [Begin(1, CONTRADICTION), SelectSame(1, None), SelectId(1, true), RunWrite(1, 7), Commit(1)]
  const CROSSED: seq<Action> :=
    [Begin(2, PROMOTION), SelectDissent(2), Begin(3, CONTRADICTION), SelectSame(3, None), SelectId(3, true)]

  ghost predicate AfterCreate(s: State) {
    s.db == Db(map[1 := FACT], map[]) && s.locks == map[] && s.txs == map[]
  }

  /** The first three statements of each run only read and lock. */
  ghost predicate Creating(s: State) {
    s.db == EMPTY && s.locks == map[] && s.txs == map[0 := Tx(CANONICAL, IdMissed)]
  }

  lemma CreateReads()
    ensures var r := Then(Then(Then(Some(INITIAL), CREATED[0]), CREATED[1]), CREATED[2]); r.Some? && Creating(r.value)
  {
  }

  lemma CreateWrites(s: State)
    requires Creating(s)
    ensures var r := Then(Then(Some(s), CREATED[3]), CREATED[4]); r.Some? && AfterCreate(r.value)
  {
  }

  lemma Creates()
    ensures var r := RunFrom(Some(INITIAL), CREATED); r.Some? && AfterCreate(r.value)
  {
    hide Then, AfterCreate, Creating;
    FiveSteps(Some(INITIAL), CREATED[0], CREATED[1], CREATED[2], CREATED[3], CREATED[4]);
    CreateReads();
    CreateWrites(Then(Then(Then(Some(INITIAL), CREATED[0]), CREATED[1]), CREATED[2]).value);
  }

  ghost predicate AfterDissent(s: State) {
    s.db == Db(map[1 := FACT], map[7 := DISSENT]) && s.locks == map[] && s.txs == map[]
  }

  ghost predicate Dissenting(s: State) {
    && s.db == Db(map[1 := FACT], map[]) && s.locks == map[FactRow(1) := 1]
    && s.txs == map[1 := Tx(CONTRADICTION, IdHit(1, 1, User))]
  }

  lemma DissentReads(s: State)
    requires AfterCreate(s)
    ensures var r := Then(Then(Then(Some(s), DISSENTED[0]), DISSENTED[1]), DISSENTED[2]); r.Some? && Dissenting(r.value)
  {
  }

  lemma DissentWrites(s: State)
    requires Dissenting(s)
    ensures var r := Then(Then(Some(s), DISSENTED[3]), DISSENTED[4]); r.Some? && AfterDissent(r.value)
  {
  }

  lemma Dissents(s: State)
    requires AfterCreate(s)
    ensures var r := RunFrom(Some(s), DISSENTED); r.Some? && AfterDissent(r.value)
  {
    hide Then, AfterCreate, AfterDissent, Dissenting;
    FiveSteps(Some(s), DISSENTED[0], DISSENTED[1], DISSENTED[2], DISSENTED[3], DISSENTED[4]);
    DissentReads(s);
    DissentWrites(Then(Then(Then(Some(s), DISSENTED[0]), DISSENTED[1]), DISSENTED[2]).value);
  }

  /** The promotion holds the dissent, the upsert the fact, and neither next statement can run. */
  ghost predicate Crossed(s: State) {
    && 2 in s.txs && 3 in s.txs
    && s.txs[2] == Tx(PROMOTION, DissentHeld(7, DISSENT)) && s.txs[3] == Tx(CONTRADICTION, IdHit(1, 1, User))
    && s.locks == map[DissentRow(7) := 2, FactRow(1) := 3]
    && Step(s, SelectDissentFact(2)).None? && forall id :: Step(s, RunWrite(3, id)).None?
  }

  ghost predicate Promoting(s: State) {
    && s.db == Db(map[1 := FACT], map[7 := DISSENT]) && s.locks == map[DissentRow(7) := 2]
    && s.txs == map[2 := Tx(PROMOTION, DissentHeld(7, DISSENT))]
  }

  lemma PromotionReads(s: State)
    requires AfterDissent(s)
    ensures var r := Then(Then(Some(s), CROSSED[0]), CROSSED[1]); r.Some? && Promoting(r.value)
  {
  }

  /** Both transactions hold their first lock. */
  ghost predicate Crossing(s: State) {
    && s.db == Db(map[1 := FACT], map[7 := DISSENT]) && s.locks == map[DissentRow(7) := 2, FactRow(1) := 3]
    && s.txs == map[2 := Tx(PROMOTION, DissentHeld(7, DISSENT)), 3 := Tx(CONTRADICTION, IdHit(1, 1, User))]
  }

  lemma UpsertReads(s: State)
    requires Promoting(s)
    ensures var r := Then(Then(Then(Some(s), CROSSED[2]), CROSSED[3]), CROSSED[4]); r.Some? && Crossing(r.value)
  {
  }

  lemma NeitherCanGoOn(s: State)
    requires Crossing(s)
    ensures Crossed(s)
  {
    assert 7 in s.db.dissents && PendingOn(s.db.dissents[7], 1, Hash(UserFact, Y));
  }

  lemma Crosses(s: State)
    requires AfterDissent(s)
    ensures var r := RunFrom(Some(s), CROSSED); r.Some? && Crossed(r.value)
  {
    hide Then, AfterDissent, Crossed, Promoting, Crossing;
    FiveSteps(Some(s), CROSSED[0], CROSSED[1], CROSSED[2], CROSSED[3], CROSSED[4]);
    PromotionReads(s);
    UpsertReads(Then(Then(Some(s), CROSSED[0]), CROSSED[1]).value);
    var both := Then(Then(Then(Then(Then(Some(s), CROSSED[0]), CROSSED[1]), CROSSED[2]), CROSSED[3]), CROSSED[4]);
    NeitherCanGoOn(both.value);
  }

  /** From the empty store, fifteen statements lead to a state in which only aborts are left to the two. */
  lemma ProtocolCanDeadlock()
    ensures var r := Run(CREATED + DISSENTED + CROSSED); r.Some? && Crossed(r.value)
  {
    hide Step, Crossed, AfterCreate, AfterDissent;
    Creates();
    assert [] + CREATED == CREATED;
    RunConcat([], CREATED);
    Dissents(Run(CREATED).value);
    RunConcat(CREATED, DISSENTED);
    Crosses(Run(CREATED + DISSENTED).value);
    RunConcat(CREATED + DISSENTED, CROSSED);
  }
}
