/** Runs, with every reply written out, in which the cursor and the store part ways. */
module ScanWitness {
  import opened Options
  import opened ScanStore
  import opened Scan

  const FILE: Path := Path(["root", "file"])
  const HOST: string := "host"
  const KEY: Key := Key(HOST, FILE)

  const A: Chunk := Chunk("a")
  const B: Chunk := Chunk("b")

  const JUST_A: Content := Content("a")
  const JUST_B: Content := Content("b")
  const BOTH: Content := Content("a and b")

  function ChunksOf(p: Path, c: Content): seq<Chunk> {
    if c == JUST_A then [A] else if c == JUST_B then [B] else [A, B]
  }

  const YES: Reply := Reply(Served, true, {})
  const QUEUED: Reply := Reply(Served, false, {})
  const LOST: Reply := Reply(Broken, false, {})

  /** The replies in turn, then `rest`; no worker runs unless a run says so, and the disk never fails. */
  function Answering(first: seq<Reply>, rest: Reply): Config {
    Config(HOST, ChunksOf, Env((_: Chunk) => true, (n: nat) => if n < |first| then first[n] else rest,
                               (_: nat) => [], (_: nat) => true))
  }

  lemma Publishes(cfg: Config, w: World, k: Key, c: Chunk)
    requires cfg.env.accepts(c) && cfg.env.work(w.clock) == []
    ensures var reply := cfg.env.replies(w.clock);
            && (reply.fate == Served ==>
                  Publishing(cfg.env, w, k, c, 1) == (World(Take(w.service, reply.found, k, c), w.clock + 1), Accepted))
            && (reply == LOST ==> Publishing(cfg.env, w, k, c, 1) == (World(w.service, w.clock + 1), Error))
  {
  }

  lemma Deletes(cfg: Config, w: World, k: Key)
    requires cfg.env.replies(w.clock).fate == Served && cfg.env.work(w.clock) == []
    ensures var s := w.service;
            Deleting(cfg.env, w, k) == World(s.(copies := s.copies[k := {}], lost := s.lost[k := {}]), w.clock + 1)
  {
  }

  /** A file of one chunk is indexed as its reply says. */
  lemma IndexesOne(cfg: Config, st: State, body: Content, c: Chunk, mtime: int)
    requires cfg.host == HOST && cfg.chunksOf(FILE, body) == [c] && cfg.env.accepts(c)
    requires cfg.env.work(st.world.clock) == [] && cfg.env.disk(st.ops)
    ensures var reply := cfg.env.replies(st.world.clock);
            var begun := Contents(Lookup(st.torn, FILE)) + {body};
            && (reply.fate == Served ==>
                  Reindexing(cfg, st, FILE, body, mtime) ==
                  (State(st.rows[FILE := Row(body, mtime)], st.ops + 1,
                         World(Take(st.world.service, reply.found, KEY, c), st.world.clock + 1),
                         if begun == {body} then st.torn[FILE := begun] - {FILE} else st.torn[FILE := begun]), Indexed))
            && (reply == LOST ==>
                  Reindexing(cfg, st, FILE, body, mtime) ==
                  (st.(world := World(st.world.service, st.world.clock + 1), torn := st.torn[FILE := begun]),
                    PublishFailed))
  {
    hide Publishing;
    var chunks := cfg.chunksOf(FILE, body);
    Publishes(cfg, st.world, KEY, c);
    assert Offering(cfg, st.world, FILE, chunks, 0) == Progress(st.world, false, false);
    assert Offering(cfg, st.world, FILE, chunks, 1).world == Publishing(cfg.env, st.world, KEY, c, 1).0;
  }

  /** The path has its row, and its copies are not that content's chunks. */
  ghost predicate Differs(cfg: Config, rows: map<Path, Row>, s: Service) {
    FILE in rows && Stored(s, KEY) != Storable(cfg, FILE, rows[FILE].content)
  }

  lemma StorableOne(cfg: Config, body: Content, c: Chunk)
    requires cfg.chunksOf(FILE, body) == [c] && cfg.env.accepts(c)
    ensures Storable(cfg, FILE, body) == {c}
  {
  }

  /** Every request is served, then the worker's embed fails: the file counts as indexed, untorn, with nothing queued,
      and its only chunk is not in the store. */
  lemma DroppedAfterIndexing()
    ensures var cfg := Answering([], QUEUED);
            var (st, r) := Visiting(cfg, INITIAL, Listed(FILE, 1, Some(JUST_A)));
            var later := Worked(st.world.service, [Drop(0)]);
            r == Indexed && FILE !in st.torn && Queued(later, KEY) == {} && Differs(cfg, st.rows, later)
  {
    hide Reindexing, Clearing;
    var cfg := Answering([], QUEUED);
    IndexesOne(cfg, INITIAL.(ops := 1), JUST_A, A, 1);
    StorableOne(cfg, JUST_A, A);
    var st := Visiting(cfg, INITIAL, Listed(FILE, 1, Some(JUST_A))).0;
    assert st.world.service.queue == [Job(KEY, A)];
    WorksOnce(st.world.service, Drop(0));
  }

  lemma WorksOnce(s: Service, w: Work)
    ensures Worked(s, [w]) == WorkStep(s, w)
  {
    assert [w][..0] == [];
  }

  lemma WorksTwice(s: Service, w: Work, x: Work)
    ensures Worked(s, [w, x]) == WorkStep(WorkStep(s, w), x)
  {
    assert [w, x][..1] == [w];
    WorksOnce(s, w);
  }

  lemma BothLand(s: Service)
    requires s.queue == [Job(KEY, A), Job(KEY, B)] && Stored(s, KEY) == {} && Lost(s, KEY) == {}
    ensures var later := Worked(s, [Land(0), Land(0)]);
            Queued(later, KEY) == {} && Lost(later, KEY) == {} && Stored(later, KEY) == {A, B}
  {
    WorksTwice(s, Land(0), Land(0));
    var once := WorkStep(s, Land(0));
    assert once.queue == [Job(KEY, B)] && Stored(once, KEY) == {A};
    assert WorkStep(once, Land(0)).queue == [];
  }

  /** The first content, still queued. */
  lemma FirstIsQueued(cfg: Config)
    requires cfg == Answering([], QUEUED)
    ensures var (st, r) := Visiting(cfg, INITIAL, Listed(FILE, 1, Some(JUST_A)));
            && r == Indexed && st.rows == map[FILE := Row(JUST_A, 1)] && st.torn == map[] && st.ops == 2
            && st.world == World(Service(map[], [Job(KEY, A)], map[]), 1)
  {
    hide Reindexing, Clearing;
    IndexesOne(cfg, INITIAL.(ops := 1), JUST_A, A, 1);
    assert {} + {JUST_A} == {JUST_A};
    assert map[FILE := {JUST_A}] - {FILE} == map[];
    assert [] + [Job(KEY, A)] == [Job(KEY, A)];
  }

  /** The delete of the first content, which does not reach the queue. */
  lemma DeleteMisses(cfg: Config, st: State)
    requires cfg == Answering([], QUEUED) && st.rows == map[FILE := Row(JUST_A, 1)] && st.torn == map[]
    requires st.world == World(Service(map[], [Job(KEY, A)], map[]), 1)
    ensures var (cleared, s) := Clearing(cfg, st, FILE);
            && s == Ok && cleared.rows == st.rows && cleared.ops == st.ops && cleared.torn == map[FILE := {JUST_A}]
            && cleared.world == World(Service(map[KEY := {}], [Job(KEY, A)], map[KEY := {}]), 2)
  {
    hide Deleting;
    Deletes(cfg, st.world, KEY);
    assert Job(KEY, A) in [Job(KEY, A)];
    assert A in Waiting([Job(KEY, A)], KEY);
    assert {} + {JUST_A} == {JUST_A};
  }

  /** Every request is served, but the old content is still queued when the file is reindexed: the delete misses it,
      it lands afterwards, and stays beside the new content. */
  lemma LandsAfterTheDelete()
    ensures var cfg := Answering([], QUEUED);
            var first := Visiting(cfg, INITIAL, Listed(FILE, 1, Some(JUST_A)));
            var second := Visiting(cfg, first.0, Listed(FILE, 2, Some(JUST_B)));
            var later := Worked(second.0.world.service, [Land(0), Land(0)]);
            && first.1 == Indexed && second.1 == Indexed
            && Queued(later, KEY) == {} && Lost(later, KEY) == {} && Stored(later, KEY) == {A, B}
            && Differs(cfg, second.0.rows, later)
  {
    hide Reindexing, Clearing, Worked, Queued, Storable;
    var cfg := Answering([], QUEUED);
    FirstIsQueued(cfg);
    var first := Visiting(cfg, INITIAL, Listed(FILE, 1, Some(JUST_A))).0;
    var read := first.(ops := first.ops + 1);
    DeleteMisses(cfg, read);
    IndexesOne(cfg, Clearing(cfg, read, FILE).0, JUST_B, B, 2);
    var second := Visiting(cfg, first, Listed(FILE, 2, Some(JUST_B))).0;
    assert [Job(KEY, A)] + [Job(KEY, B)] == [Job(KEY, A), Job(KEY, B)];
    BothLand(second.world.service);
    StorableOne(cfg, JUST_B, B);
  }

  /** The first content is stored at once. */
  lemma FirstIsStored(cfg: Config)
    requires cfg == Answering([YES, YES, LOST], YES)
    ensures var (st, r) := Visiting(cfg, INITIAL, Listed(FILE, 1, Some(JUST_A)));
            && r == Indexed && st.rows == map[FILE := Row(JUST_A, 1)] && st.torn == map[] && st.ops == 2
            && st.world == World(Service(map[KEY := {A}], [], map[]), 1)
  {
    hide Reindexing, Clearing;
    IndexesOne(cfg, INITIAL.(ops := 1), JUST_A, A, 1);
    assert {} + {JUST_A} == {JUST_A} && {} + {A} == {A};
    assert map[FILE := {JUST_A}] - {FILE} == map[];
  }

  /** The edit's delete goes through and its publish does not. */
  lemma EditIsLost(cfg: Config, st: State)
    requires cfg == Answering([YES, YES, LOST], YES) && st.rows == map[FILE := Row(JUST_A, 1)] && st.torn == map[]
    requires st.world == World(Service(map[KEY := {A}], [], map[]), 1)
    ensures var (after, r) := Visiting(cfg, st, Listed(FILE, 2, Some(JUST_B)));
            && r == PublishFailed && after.rows == st.rows && Stored(after.world.service, KEY) == {}
  {
    hide Reindexing, Deleting;
    Deletes(cfg, st.world, KEY);
    var cleared := Clearing(cfg, st.(ops := st.ops + 1), FILE).0;
    IndexesOne(cfg, cleared, JUST_B, B, 2);
  }

  /** An indexed file is edited, the reindex fails after the delete, and the edit is undone: the cursor accepts the
      file as unchanged and no later scan will publish it, although the store holds nothing of it. */
  lemma EditThenRevert()
    ensures var cfg := Answering([YES, YES, LOST], YES);
            var first := Visiting(cfg, INITIAL, Listed(FILE, 1, Some(JUST_A)));
            var second := Visiting(cfg, first.0, Listed(FILE, 2, Some(JUST_B)));
            var third := Visiting(cfg, second.0, Listed(FILE, 3, Some(JUST_A)));
            && first.1 == Indexed && second.1 == PublishFailed && third.1 == HashUnchanged
            && third.0.rows[FILE] == Row(JUST_A, 3) && Stored(third.0.world.service, KEY) == {}
            && Differs(cfg, third.0.rows, third.0.world.service)
  {
    hide Reindexing, Clearing, Stored, Storable;
    var cfg := Answering([YES, YES, LOST], YES);
    FirstIsStored(cfg);
    EditIsLost(cfg, Visiting(cfg, INITIAL, Listed(FILE, 1, Some(JUST_A))).0);
    StorableOne(cfg, JUST_A, A);
  }

  /** A new file of two chunks, the second of which fails. */
  lemma HalfPublished(cfg: Config)
    requires cfg == Answering([YES, LOST], YES)
    ensures var (st, r) := Visiting(cfg, INITIAL, Listed(FILE, 1, Some(BOTH)));
            && r == PublishFailed && st.rows == map[] && st.world.clock == 2 && st.ops == 1
            && st.torn == map[FILE := {BOTH}] && st.world.service == Service(map[KEY := {A}], [], map[])
  {
    hide Publishing;
    var w := World(EMPTY_SERVICE, 0);
    var w1 := World(Take(EMPTY_SERVICE, true, KEY, A), 1);
    var chunks := [A, B];
    Publishes(cfg, w, KEY, A);
    Publishes(cfg, w1, KEY, B);
    assert Offering(cfg, w, FILE, chunks, 0) == Progress(w, false, false);
    assert Offering(cfg, w, FILE, chunks, 1) == Progress(w1, false, false);
    assert Offering(cfg, w, FILE, chunks, 2) == Progress(World(w1.service, 2), true, false);
    assert {} + {A} == {A} && {} + {BOTH} == {BOTH};
    assert w1.service.copies == map[KEY := {A}];
    assert map[][FILE := {BOTH}] == map[FILE := {BOTH}];
  }

  /** It is edited before the next scan: with no row there is no delete, so the chunk that had landed stays beside the
      edit's, and the file counts as indexed. */
  lemma FailThenEdit()
    ensures var cfg := Answering([YES, LOST], YES);
            var first := Visiting(cfg, INITIAL, Listed(FILE, 1, Some(BOTH)));
            var second := Visiting(cfg, first.0, Listed(FILE, 2, Some(JUST_B)));
            && first.1 == PublishFailed && second.1 == Indexed
            && Stored(second.0.world.service, KEY) == {A, B} && Differs(cfg, second.0.rows, second.0.world.service)
  {
    hide Reindexing;
    var cfg := Answering([YES, LOST], YES);
    HalfPublished(cfg);
    var first := Visiting(cfg, INITIAL, Listed(FILE, 1, Some(BOTH))).0;
    IndexesOne(cfg, first.(ops := first.ops + 1), JUST_B, B, 2);
    StorableOne(cfg, JUST_B, B);
  }

  /** Or it vanishes: the prune goes by cursor rows, so what had landed stays without one. */
  lemma FailThenVanish()
    ensures var cfg := Answering([YES, LOST], YES);
            var first := Visiting(cfg, INITIAL, Listed(FILE, 1, Some(BOTH)));
            var scan := Scanning(cfg, first.0, Path(["root"]), [], []);
            && first.1 == PublishFailed && scan.alive
            && scan.state.rows == map[] && Stored(scan.state.world.service, KEY) == {A}
  {
    hide Visiting;
    HalfPublished(Answering([YES, LOST], YES));
  }
}
