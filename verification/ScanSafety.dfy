/** What every history of scans keeps, with the exact conditions under which a file's copies are its chunks. */
module ScanSafety {
  import opened Options
  import opened ScanStore
  import opened Scan

  ghost predicate PathAgrees(cfg: Config, p: Path, row: Option<Row>, held: set<Chunk>, torn: Option<set<Content>>) {
    match torn
    case None => held == if row.Some? then Storable(cfg, p, row.value.content) else {}
    case Some(contents) => forall k | k in held :: exists c | c in contents :: k in Storable(cfg, p, c)
  }

  ghost predicate AgreesAt(cfg: Config, st: State, p: Path) {
    PathAgrees(cfg, p, Lookup(st.rows, p), Held(cfg, st, p), Lookup(st.torn, p))
  }

  /** Off the torn paths, the service has acknowledged exactly the storable chunks of what the cursor indexes. */
  ghost predicate Agrees(cfg: Config, st: State) {
    forall p: Path :: AgreesAt(cfg, st, p)
  }

  ghost predicate Untouched(cfg: Config, a: State, b: State, q: Path) {
    && Lookup(b.rows, q) == Lookup(a.rows, q)
    && Lookup(b.torn, q) == Lookup(a.torn, q)
    && Held(cfg, b, q) == Held(cfg, a, q)
    && Pending(cfg, b, q) <= Pending(cfg, a, q)
  }

  /** The writes of `p` on this host that no worker has taken up yet. */
  function Pending(cfg: Config, st: State, p: Path): set<Chunk> {
    Queued(st.world.service, Key(cfg.host, p))
  }

  ghost predicate OtherHostsKept(cfg: Config, a: State, b: State) {
    forall k: Key | k.host != cfg.host :: Acked(b.world.service, k) == Acked(a.world.service, k)
  }

  /** Nothing changed but what this host knows of `p`. */
  ghost predicate Moves(cfg: Config, a: State, b: State, p: Path) {
    (forall q: Path | q != p :: Untouched(cfg, a, b, q)) && OtherHostsKept(cfg, a, b)
  }

  lemma UntouchedChain(cfg: Config, a: State, b: State, c: State, q: Path)
    requires Untouched(cfg, a, b, q) && Untouched(cfg, b, c, q)
    ensures Untouched(cfg, a, c, q)
  {
  }

  lemma OthersChain(cfg: Config, a: State, b: State, c: State)
    requires OtherHostsKept(cfg, a, b) && OtherHostsKept(cfg, b, c)
    ensures OtherHostsKept(cfg, a, c)
  {
  }

  lemma MovesChain(cfg: Config, a: State, b: State, c: State, p: Path)
    requires Moves(cfg, a, b, p) && Moves(cfg, b, c, p)
    ensures Moves(cfg, a, c, p)
  {
    hide Untouched, OtherHostsKept;
    OthersChain(cfg, a, b, c);
    forall q: Path | q != p ensures Untouched(cfg, a, c, q) { UntouchedChain(cfg, a, b, c, q); }
  }

  lemma MovesKeepsOthers(cfg: Config, a: State, b: State, p: Path)
    requires Agrees(cfg, a) && Moves(cfg, a, b, p) && AgreesAt(cfg, b, p)
    ensures Agrees(cfg, b)
  {
    hide PathAgrees, Held;
    forall q: Path ensures AgreesAt(cfg, b, q) {
      if q != p { assert Untouched(cfg, a, b, q) && AgreesAt(cfg, a, q); }
    }
  }

  /** A change of bookkeeping for `p`, with requests that concern only `p`'s key. */
  lemma OnlyPathMoves(cfg: Config, a: State, b: State, p: Path)
    requires OnlyFor(a.world.service, b.world.service, Key(cfg.host, p))
    requires forall q: Path | q != p :: Lookup(b.rows, q) == Lookup(a.rows, q) && Lookup(b.torn, q) == Lookup(a.torn, q)
    ensures Moves(cfg, a, b, p)
  {
    hide Acked, Queued;
    forall q: Path | q != p ensures Untouched(cfg, a, b, q) { assert Key(cfg.host, q) != Key(cfg.host, p); }
  }

  lemma SameService(s: Service, k: Key)
    ensures OnlyFor(s, s, k)
  {
  }

  // ----- one path's life, step by step -----

  /** A delete or publish of `c` begins: from now on chunks of `c` may be among what is held. */
  lemma TornAgrees(cfg: Config, p: Path, row: Option<Row>, held: set<Chunk>, torn: Option<set<Content>>, c: Content)
    requires PathAgrees(cfg, p, row, held, torn)
    requires torn.None? && row.Some? ==> row.value.content == c
    ensures PathAgrees(cfg, p, row, held, Some(Contents(torn) + {c}))
  {
    hide Storable;
    if torn.None? && row.None? { assert held == {}; }
  }

  lemma FewerAgrees(cfg: Config, p: Path, row: Option<Row>, held: set<Chunk>, fewer: set<Chunk>, contents: set<Content>)
    requires PathAgrees(cfg, p, row, held, Some(contents)) && fewer <= held
    ensures PathAgrees(cfg, p, row, fewer, Some(contents))
  {
    hide Storable;
  }

  lemma MoreAgrees(cfg: Config, p: Path, row: Option<Row>, held: set<Chunk>, more: set<Chunk>, contents: set<Content>,
                   c: Content)
    requires PathAgrees(cfg, p, row, held, Some(contents)) && c in contents && more <= held + Storable(cfg, p, c)
    ensures PathAgrees(cfg, p, row, more, Some(contents))
  {
    hide Storable;
  }

  /** The row of a torn path says nothing about what is held. */
  lemma RowOfTorn(cfg: Config, p: Path, row: Option<Row>, other: Option<Row>, held: set<Chunk>, contents: set<Content>)
    requires PathAgrees(cfg, p, row, held, Some(contents))
    ensures PathAgrees(cfg, p, other, held, Some(contents))
  {
  }

  lemma NoneHeld(cfg: Config, p: Path, row: Option<Row>)
    ensures PathAgrees(cfg, p, row, {}, Some({})) && PathAgrees(cfg, p, None, {}, None)
  {
  }

  /** Once every storable chunk of `c` is there and nothing else can be, the path is whole again. */
  lemma WholeAgrees(cfg: Config, p: Path, row: Option<Row>, held: set<Chunk>, c: Content, mtime: int)
    requires PathAgrees(cfg, p, row, held, Some({c})) && Storable(cfg, p, c) <= held
    ensures PathAgrees(cfg, p, Some(Row(c, mtime)), held, None)
  {
    hide Storable;
  }

  // ----- clearing and offering -----

  lemma ClearingFacts(cfg: Config, st: State, p: Path)
    requires p in st.rows
    ensures var (after, s) := Clearing(cfg, st, p);
            && Moves(cfg, st, after, p) && after.rows == st.rows && after.ops == st.ops && p in after.torn
            && Held(cfg, after, p) <= Held(cfg, st, p)
            && Queued(after.world.service, Key(cfg.host, p)) <= Queued(st.world.service, Key(cfg.host, p))
            && (s == Ok ==> Held(cfg, after, p) == Queued(after.world.service, Key(cfg.host, p)))
            && (s == Ok && Held(cfg, after, p) == {} ==> after.torn[p] == {})
            && (after.torn[p] == {} ==> Held(cfg, after, p) == {})
            && (s == Ok || s == Failed || s == Died)
  {
    hide Deleting, Acked, Queued, Stored, OnlyFor;
    DeletingFacts(cfg.env, st.world, Key(cfg.host, p));
    var (after, s) := Clearing(cfg, st, p);
    OnlyPathMoves(cfg, st, after, p);
  }

  lemma ClearingAgrees(cfg: Config, st: State, p: Path)
    requires p in st.rows && AgreesAt(cfg, st, p)
    ensures AgreesAt(cfg, Clearing(cfg, st, p).0, p)
  {
    hide PathAgrees, Held;
    ClearingFacts(cfg, st, p);
    var (after, s) := Clearing(cfg, st, p);
    var row, held := Lookup(st.rows, p), Held(cfg, st, p);
    TornAgrees(cfg, p, row, held, Lookup(st.torn, p), st.rows[p].content);
    if after.torn[p] == {} {
      NoneHeld(cfg, p, row);
    } else {
      FewerAgrees(cfg, p, row, held, Held(cfg, after, p), Contents(Lookup(st.torn, p)) + {st.rows[p].content});
    }
  }

  lemma OnlyForChain(a: Service, b: Service, c: Service, k: Key)
    requires OnlyFor(a, b, k) && OnlyFor(b, c, k)
    ensures OnlyFor(a, c, k)
  {
  }

  /** Offering acknowledges only storable chunks of this file, and all of them unless something failed. */
  lemma {:induction false} OfferingFacts(cfg: Config, w: World, p: Path, c: Content, n: nat)
    requires n <= |cfg.chunksOf(p, c)|
    ensures var k := Key(cfg.host, p);
            var chunks := cfg.chunksOf(p, c);
            var r := Offering(cfg, w, p, chunks, n);
            && OnlyFor(w.service, r.world.service, k)
            && Acked(w.service, k) <= Acked(r.world.service, k) <= Acked(w.service, k) + Storable(cfg, p, c)
            && (!r.failed && !r.died ==>
                  forall i | 0 <= i < n && cfg.env.accepts(chunks[i]) :: chunks[i] in Acked(r.world.service, k))
  {
    hide Publishing, Acked, OnlyFor;
    var k := Key(cfg.host, p);
    var chunks := cfg.chunksOf(p, c);
    if n == 0 {
      SameService(w.service, k);
    } else {
      OfferingFacts(cfg, w, p, c, n - 1);
      var before := Offering(cfg, w, p, chunks, n - 1);
      if !before.died {
        PublishingFacts(cfg.env, before.world, k, chunks[n - 1], 1);
        var (w1, outcome) := Publishing(cfg.env, before.world, k, chunks[n - 1], 1);
        OnlyForChain(w.service, before.world.service, w1.service, k);
        assert cfg.env.accepts(chunks[n - 1]) ==> chunks[n - 1] in Storable(cfg, p, c);
      }
    }
  }

  lemma OfferedAll(cfg: Config, w: World, p: Path, c: Content)
    ensures var k := Key(cfg.host, p);
            var r := Offering(cfg, w, p, cfg.chunksOf(p, c), |cfg.chunksOf(p, c)|);
            && OnlyFor(w.service, r.world.service, k)
            && Acked(w.service, k) <= Acked(r.world.service, k) <= Acked(w.service, k) + Storable(cfg, p, c)
            && (!r.failed && !r.died ==> Acked(r.world.service, k) == Acked(w.service, k) + Storable(cfg, p, c))
  {
    hide Offering, Acked, OnlyFor;
    OfferingFacts(cfg, w, p, c, |cfg.chunksOf(p, c)|);
  }

  lemma ReindexingFacts(cfg: Config, st: State, p: Path, body: Content, mtime: int)
    ensures var (after, r) := Reindexing(cfg, st, p, body, mtime);
            && Moves(cfg, st, after, p)
            && (r == PublishFailed || r == Stopped || r == Indexed)
            && (r != Indexed ==> after.rows == st.rows && p in after.torn)
            && (r == Indexed ==>
                  && after.rows == st.rows[p := Row(body, mtime)]
                  && Held(cfg, after, p) == Held(cfg, st, p) + Storable(cfg, p, body)
                  && (p !in after.torn <==> Contents(Lookup(st.torn, p)) <= {body}))
  {
    hide Offering, Acked, OnlyFor, Storable;
    OfferedAll(cfg, st.world, p, body);
    var (after, r) := Reindexing(cfg, st, p, body, mtime);
    var contents := Contents(Lookup(st.torn, p));
    assert contents + {body} == {body} <==> contents <= {body};
    OnlyPathMoves(cfg, st, after, p);
  }

  lemma ReindexingAgrees(cfg: Config, st: State, p: Path, body: Content, mtime: int)
    requires AgreesAt(cfg, st, p) && (p in st.rows ==> p in st.torn)
    ensures AgreesAt(cfg, Reindexing(cfg, st, p, body, mtime).0, p)
  {
    hide Offering, Acked, OnlyFor, Storable, PathAgrees;
    OfferedAll(cfg, st.world, p, body);
    var (after, r) := Reindexing(cfg, st, p, body, mtime);
    var row, begun := Lookup(st.rows, p), Contents(Lookup(st.torn, p)) + {body};
    TornAgrees(cfg, p, row, Held(cfg, st, p), Lookup(st.torn, p), body);
    MoreAgrees(cfg, p, row, Held(cfg, st, p), Held(cfg, after, p), begun, body);
    if r == Indexed {
      if begun == {body} {
        WholeAgrees(cfg, p, row, Held(cfg, after, p), body, mtime);
      } else {
        RowOfTorn(cfg, p, row, Lookup(after.rows, p), Held(cfg, after, p), begun);
      }
    }
  }

  // ----- one visit -----

  lemma Resting(cfg: Config, a: State, b: State, p: Path)
    requires b.rows == a.rows && b.world == a.world && b.torn == a.torn
    ensures Moves(cfg, a, b, p) && (AgreesAt(cfg, a, p) ==> AgreesAt(cfg, b, p))
  {
    hide Storable;
  }

  lemma Refreshing(cfg: Config, a: State, b: State, p: Path, row: Row)
    requires p in a.rows && a.rows[p].content == row.content
    requires b.rows == a.rows[p := row] && b.world == a.world && b.torn == a.torn
    ensures Moves(cfg, a, b, p) && (AgreesAt(cfg, a, p) ==> AgreesAt(cfg, b, p))
  {
    hide Storable;
    SameService(a.world.service, Key(cfg.host, p));
    OnlyPathMoves(cfg, a, b, p);
  }

  /** A visit that finds the hash unchanged asks the service for nothing, so whatever was missing or stale stays. */
  lemma UnchangedExactly(cfg: Config, st: State, f: Listed)
    requires Visiting(cfg, st, f).1 == HashUnchanged
    ensures f.body.Some? && f.path in st.rows && st.rows[f.path].content == f.body.value
    ensures var after := Visiting(cfg, st, f).0;
            && after.world == st.world && after.torn == st.torn
            && after.rows == st.rows[f.path := Row(f.body.value, f.mtime)]
  {
    hide Clearing, Reindexing;
    var read := st.(ops := st.ops + 1);
    if f.path !in st.rows {
      ReindexingFacts(cfg, read, f.path, f.body.value, f.mtime);
    } else if f.body.Some? && st.rows[f.path].content != f.body.value {
      ReindexingFacts(cfg, Clearing(cfg, read, f.path).0, f.path, f.body.value, f.mtime);
    }
  }

  /** A visit moves nothing but its own path. */
  lemma VisitingMoves(cfg: Config, st: State, f: Listed)
    ensures Moves(cfg, st, Visiting(cfg, st, f).0, f.path)
  {
    hide Clearing, Reindexing, Moves;
    var read := st.(ops := st.ops + 1);
    var (after, r) := Visiting(cfg, st, f);
    Resting(cfg, st, read, f.path);
    if r == HashUnchanged {
      UnchangedExactly(cfg, st, f);
      Refreshing(cfg, st, after, f.path, Row(f.body.value, f.mtime));
    } else if after.world == st.world && after.rows == st.rows && after.torn == st.torn {
      Resting(cfg, st, after, f.path);
    } else if f.path in st.rows {
      ClearingFacts(cfg, read, f.path);
      var (cleared, s) := Clearing(cfg, read, f.path);
      MovesChain(cfg, st, read, cleared, f.path);
      ReindexingFacts(cfg, cleared, f.path, f.body.value, f.mtime);
      MovesChain(cfg, st, cleared, Reindexing(cfg, cleared, f.path, f.body.value, f.mtime).0, f.path);
    } else {
      ReindexingFacts(cfg, read, f.path, f.body.value, f.mtime);
      MovesChain(cfg, st, read, after, f.path);
    }
  }

  lemma VisitingAgreesAt(cfg: Config, st: State, f: Listed)
    requires AgreesAt(cfg, st, f.path)
    ensures AgreesAt(cfg, Visiting(cfg, st, f).0, f.path)
  {
    hide Clearing, Reindexing, Moves, AgreesAt;
    var read := st.(ops := st.ops + 1);
    var (after, r) := Visiting(cfg, st, f);
    Resting(cfg, st, read, f.path);
    if r == HashUnchanged {
      UnchangedExactly(cfg, st, f);
      Refreshing(cfg, st, after, f.path, Row(f.body.value, f.mtime));
    } else if after.world == st.world && after.rows == st.rows && after.torn == st.torn {
      Resting(cfg, st, after, f.path);
    } else if f.path in st.rows {
      ClearingFacts(cfg, read, f.path);
      ClearingAgrees(cfg, read, f.path);
      ReindexingAgrees(cfg, Clearing(cfg, read, f.path).0, f.path, f.body.value, f.mtime);
    } else {
      ReindexingAgrees(cfg, read, f.path, f.body.value, f.mtime);
    }
  }

  /** Whatever happens during a visit, the agreement is kept. */
  lemma VisitingKeeps(cfg: Config, st: State, f: Listed)
    requires Agrees(cfg, st)
    ensures Agrees(cfg, Visiting(cfg, st, f).0)
  {
    hide Visiting, Moves, AgreesAt;
    VisitingMoves(cfg, st, f);
    VisitingAgreesAt(cfg, st, f);
    MovesKeepsOthers(cfg, st, Visiting(cfg, st, f).0, f.path);
  }

  // ----- exactly when a file's copies are its chunks -----

  /** What outlives the start of a reindex: with a row, the queued writes the delete cannot reach; without one
      there is no delete, so everything. */
  function Survivors(cfg: Config, st: State, p: Path): set<Chunk> {
    if p in st.rows then Queued(Deleting(cfg.env, st.world, Key(cfg.host, p)).service, Key(cfg.host, p))
    else Held(cfg, st, p)
  }

  /** An indexing visit leaves the survivors and the file's storable chunks, and nothing else: the path is
      exactly its file if and only if every survivor is one of its chunks. */
  lemma IndexedExactly(cfg: Config, st: State, f: Listed)
    requires Visiting(cfg, st, f).1 == Indexed
    ensures f.body.Some?
    ensures var after := Visiting(cfg, st, f).0;
            && Held(cfg, after, f.path) == Survivors(cfg, st, f.path) + Storable(cfg, f.path, f.body.value)
            && (Held(cfg, after, f.path) == Storable(cfg, f.path, f.body.value) <==>
                Survivors(cfg, st, f.path) <= Storable(cfg, f.path, f.body.value))
  {
    hide Reindexing, Moves, Storable, Acked, Deleting;
    var read := st.(ops := st.ops + 1);
    if f.path in st.rows {
      DeletingFacts(cfg.env, st.world, Key(cfg.host, f.path));
      ReindexingFacts(cfg, Clearing(cfg, read, f.path).0, f.path, f.body.value, f.mtime);
    } else {
      ReindexingFacts(cfg, read, f.path, f.body.value, f.mtime);
    }
  }

  /** A path with nothing queued has no survivors of its old content. */
  lemma NothingQueuedNothingSurvives(cfg: Config, st: State, p: Path)
    requires p in st.rows && Queued(st.world.service, Key(cfg.host, p)) == {}
    ensures Survivors(cfg, st, p) == {}
  {
    hide Deleting, Queued, Acked;
    DeletingFacts(cfg.env, st.world, Key(cfg.host, p));
  }

  /** Among acknowledged chunks, the store has them all exactly when none is still queued and none was dropped
      without being stored by another request. */
  lemma StoredExactly(s: Service, k: Key, want: set<Chunk>)
    requires Acked(s, k) == want
    ensures Stored(s, k) == want <==> Queued(s, k) + Lost(s, k) <= Stored(s, k)
  {
    hide Stored, Queued, Lost;
  }

  /** Once the workers have finished with a path after an indexing visit, what is stored or was dropped is the
      survivors and the file's chunks. The copies are the file's chunks if and only if none of these was dropped for
      good and no survivor that is stored is foreign; with nothing dropped at all, if and only if no survivor is. */
  lemma SettledExactly(cfg: Config, st: State, f: Listed, ws: seq<Work>)
    requires Visiting(cfg, st, f).1 == Indexed
    requires Queued(Worked(Visiting(cfg, st, f).0.world.service, ws), Key(cfg.host, f.path)) == {}
    ensures f.body.Some?
    ensures var later, k := Worked(Visiting(cfg, st, f).0.world.service, ws), Key(cfg.host, f.path);
            var want, survivors := Storable(cfg, f.path, f.body.value), Survivors(cfg, st, f.path);
            && Stored(later, k) + Lost(later, k) == survivors + want
            && (Stored(later, k) == want <==>
                Lost(later, k) * want <= Stored(later, k) && survivors * Stored(later, k) <= want)
            && (Lost(later, k) <= Stored(later, k) ==> (Stored(later, k) == want <==> survivors <= want))
  {
    hide Visiting, Storable, Queued, Stored, Lost, Survivors, Worked;
    IndexedExactly(cfg, st, f);
    WorkMoves(Visiting(cfg, st, f).0.world.service, ws, Key(cfg.host, f.path));
    var later, k := Worked(Visiting(cfg, st, f).0.world.service, ws), Key(cfg.host, f.path);
    SplitTwoWays(Stored(later, k), Lost(later, k), Survivors(cfg, st, f.path), Storable(cfg, f.path, f.body.value));
  }

  lemma SplitTwoWays(stored: set<Chunk>, lost: set<Chunk>, survivors: set<Chunk>, want: set<Chunk>)
    requires stored + lost == survivors + want
    ensures stored == want <==> lost * want <= stored && survivors * stored <= want
    ensures lost <= stored ==> (stored == want <==> survivors <= want)
  {
    forall x ensures x in stored || x in lost <==> x in survivors || x in want {
      assert x in stored + lost <==> x in survivors + want;
    }
  }

  // ----- a whole scan -----

  lemma {:induction false} VisitingUpToKeeps(cfg: Config, st: State, files: seq<Listed>, n: nat)
    requires n <= |files| && Agrees(cfg, st)
    ensures Agrees(cfg, VisitingUpTo(cfg, st, files, n).0)
  {
    hide Agrees, Visiting;
    if n > 0 {
      VisitingUpToKeeps(cfg, st, files, n - 1);
      VisitingKeeps(cfg, VisitingUpTo(cfg, st, files, n - 1).0, files[n - 1]);
    }
  }

  lemma MovesElsewhere(cfg: Config, a: State, b: State, p: Path, q: Path)
    requires Moves(cfg, a, b, p) && q != p
    ensures Untouched(cfg, a, b, q)
  {
  }

  lemma {:induction false} VisitingUpToTouches(cfg: Config, st: State, files: seq<Listed>, n: nat, q: Path)
    requires n <= |files| && forall i | 0 <= i < n :: files[i].path != q
    ensures Untouched(cfg, st, VisitingUpTo(cfg, st, files, n).0, q)
  {
    hide Visiting, Held;
    if n > 0 {
      var before := VisitingUpTo(cfg, st, files, n - 1).0;
      VisitingUpToTouches(cfg, st, files, n - 1, q);
      VisitingMoves(cfg, before, files[n - 1]);
      MovesElsewhere(cfg, before, Visiting(cfg, before, files[n - 1]).0, files[n - 1].path, q);
    }
  }

  lemma {:induction false} VisitingUpToHosts(cfg: Config, st: State, files: seq<Listed>, n: nat)
    requires n <= |files|
    ensures OtherHostsKept(cfg, st, VisitingUpTo(cfg, st, files, n).0)
  {
    hide Visiting, Acked;
    if n > 0 {
      var before := VisitingUpTo(cfg, st, files, n - 1).0;
      VisitingUpToHosts(cfg, st, files, n - 1);
      VisitingMoves(cfg, before, files[n - 1]);
    }
  }

  lemma PruningOneFacts(cfg: Config, st: State, p: Path)
    requires p in st.rows
    ensures var (after, alive) := PruningOne(cfg, st, p);
            && Moves(cfg, st, after, p)
            && (AgreesAt(cfg, st, p) ==> AgreesAt(cfg, after, p))
            && (p in after.rows && alive ==> p in after.torn)
            && (p !in after.rows && Queued(st.world.service, Key(cfg.host, p)) == {} ==> Held(cfg, after, p) == {})
  {
    hide Acked, Queued, Deleting, PathAgrees, Clearing;
    ClearingFacts(cfg, st, p);
    var (cleared, s) := Clearing(cfg, st, p);
    var (after, alive) := PruningOne(cfg, st, p);
    SameService(cleared.world.service, Key(cfg.host, p));
    OnlyPathMoves(cfg, cleared, after, p);
    MovesChain(cfg, st, cleared, after, p);
    if AgreesAt(cfg, st, p) {
      ClearingAgrees(cfg, st, p);
      NoneHeld(cfg, p, Lookup(st.rows, p));
      RowOfTorn(cfg, p, Lookup(cleared.rows, p), Lookup(after.rows, p), Held(cfg, cleared, p), cleared.torn[p]);
    }
  }

  lemma {:induction false} PruningUpToKeeps(cfg: Config, st: State, root: Path, seen: set<Path>, all: seq<Path>, n: nat)
    requires n <= |all| && Agrees(cfg, st)
    ensures Agrees(cfg, PruningUpTo(cfg, st, root, seen, all, n).0)
  {
    hide Agrees, PruningOne, AgreesAt, Moves;
    if n > 0 {
      var (before, alive) := PruningUpTo(cfg, st, root, seen, all, n - 1);
      var p := all[n - 1];
      PruningUpToKeeps(cfg, st, root, seen, all, n - 1);
      if !(!alive || p in seen || !(root.parts <= p.parts) || p !in before.rows) {
        PruningOneFacts(cfg, before, p);
        AgreesFor(cfg, before, p);
        MovesKeepsOthers(cfg, before, PruningOne(cfg, before, p).0, p);
      }
    }
  }

  lemma AgreesFor(cfg: Config, st: State, p: Path)
    requires Agrees(cfg, st)
    ensures AgreesAt(cfg, st, p)
  {
  }

  lemma {:induction false} PruningUpToTouches(cfg: Config, st: State, root: Path, seen: set<Path>, all: seq<Path>,
                                              n: nat)
    requires n <= |all|
    ensures var after := PruningUpTo(cfg, st, root, seen, all, n).0;
            && OtherHostsKept(cfg, st, after)
            && (forall q: Path | q in seen || !(root.parts <= q.parts) || q !in st.rows :: Untouched(cfg, st, after, q))
  {
    hide PruningOne, Moves, Acked;
    if n > 0 {
      var (before, alive) := PruningUpTo(cfg, st, root, seen, all, n - 1);
      var p := all[n - 1];
      PruningUpToTouches(cfg, st, root, seen, all, n - 1);
      if !(!alive || p in seen || !(root.parts <= p.parts) || p !in before.rows) {
        var after := PruningOne(cfg, before, p).0;
        PruningOneFacts(cfg, before, p);
        MovesHosts(cfg, before, after, p);
        forall q: Path | q in seen || !(root.parts <= q.parts) || q !in st.rows ensures Untouched(cfg, st, after, q) {
          MovesElsewhere(cfg, before, after, p, q);
        }
      }
    }
  }

  lemma MovesHosts(cfg: Config, a: State, b: State, p: Path)
    requires Moves(cfg, a, b, p)
    ensures OtherHostsKept(cfg, a, b)
  {
  }

  /** However a scan ends, it keeps the agreement. */
  lemma ScanningKeeps(cfg: Config, st: State, root: Path, files: seq<Listed>, all: seq<Path>)
    requires Agrees(cfg, st)
    ensures Agrees(cfg, Scanning(cfg, st, root, files, all).state)
  {
    hide VisitingUpTo, PruningUpTo, AgreesAt;
    VisitingUpToKeeps(cfg, st, files, |files|);
    var visited := VisitingUpTo(cfg, st, files, |files|).0;
    var listed := visited.(ops := visited.ops + 1);
    OpsAgree(cfg, visited, listed);
    PruningUpToKeeps(cfg, listed, root, SeenIn(files), all, |all|);
  }

  lemma OpsAgree(cfg: Config, a: State, b: State)
    requires b.rows == a.rows && b.world == a.world && b.torn == a.torn
    ensures Agrees(cfg, a) ==> Agrees(cfg, b)
    ensures OtherHostsKept(cfg, a, b) && forall q: Path :: Untouched(cfg, a, b, q)
  {
    hide PathAgrees;
    forall q: Path ensures AgreesAt(cfg, a, q) ==> AgreesAt(cfg, b, q) { }
  }

  /** And it leaves other hosts and everything outside its root alone. */
  lemma ScanningTouches(cfg: Config, st: State, root: Path, files: seq<Listed>, all: seq<Path>)
    requires forall i | 0 <= i < |files| :: root.parts <= files[i].path.parts
    ensures var after := Scanning(cfg, st, root, files, all).state;
            OtherHostsKept(cfg, st, after) && forall q: Path | !(root.parts <= q.parts) :: Untouched(cfg, st, after, q)
  {
    hide VisitingUpTo, PruningUpTo, Acked, Untouched, OtherHostsKept, SeenIn;
    var visited := VisitingUpTo(cfg, st, files, |files|).0;
    var listed := visited.(ops := visited.ops + 1);
    var pruned := PruningUpTo(cfg, listed, root, SeenIn(files), all, |all|).0;
    VisitingUpToHosts(cfg, st, files, |files|);
    OpsAgree(cfg, visited, listed);
    OthersChain(cfg, st, visited, listed);
    PruningUpToTouches(cfg, listed, root, SeenIn(files), all, |all|);
    OthersChain(cfg, st, listed, pruned);
    forall q: Path | !(root.parts <= q.parts)
      ensures Untouched(cfg, st, visited, q) && Untouched(cfg, st, listed, q) && Untouched(cfg, st, pruned, q)
    {
      VisitingUpToTouches(cfg, st, files, |files|, q);
      UntouchedChain(cfg, st, visited, listed, q);
      UntouchedChain(cfg, st, listed, pruned, q);
    }
  }

  // ----- every history -----

  /** Workers, other hosts, anything that leaves this host's rows and acknowledged chunks as they are. */
  ghost predicate Elsewhere(cfg: Config, a: State, b: State) {
    b.rows == a.rows && b.torn == a.torn && forall p: Path :: Held(cfg, b, p) == Held(cfg, a, p)
  }

  /** Workers at any time, landing or dropping whatever they like, are such a step. */
  lemma WorkIsElsewhere(cfg: Config, a: State, ws: seq<Work>)
    ensures Elsewhere(cfg, a, a.(world := World(Worked(a.world.service, ws), a.world.clock)))
  {
    hide Acked, Worked;
    forall p: Path { WorkMoves(a.world.service, ws, Key(cfg.host, p)); }
  }

  ghost predicate IsScan(cfg: Config, a: State, b: State) {
    exists root, files, all :: b == Scanning(cfg, a, root, files, all).state
  }

  ghost predicate IsHistory(cfg: Config, states: seq<State>) {
    && states != [] && states[0] == INITIAL
    && forall i | 0 < i < |states| :: IsScan(cfg, states[i - 1], states[i]) || Elsewhere(cfg, states[i - 1], states[i])
  }

  lemma InitialAgrees(cfg: Config)
    ensures Agrees(cfg, INITIAL)
  {
  }

  lemma ElsewhereKeeps(cfg: Config, a: State, b: State)
    requires Agrees(cfg, a) && Elsewhere(cfg, a, b)
    ensures Agrees(cfg, b)
  {
    hide PathAgrees, Held;
    forall p: Path ensures AgreesAt(cfg, b, p) { assert AgreesAt(cfg, a, p); }
  }

  /** After any scans of any roots, cut short anywhere, with workers and other hosts in between: a path off the
      torn ones has acknowledged exactly its indexed chunks, and its stored copies are exactly those if and only if
      none of them is still queued or was dropped for good. */
  lemma {:induction false} EveryHistoryAgrees(cfg: Config, states: seq<State>, i: nat, p: Path)
    requires IsHistory(cfg, states) && i < |states|
    ensures Agrees(cfg, states[i])
    ensures p in states[i].rows && p !in states[i].torn ==>
              var s, k := states[i].world.service, Key(cfg.host, p);
              var want := Storable(cfg, p, states[i].rows[p].content);
              Acked(s, k) == want && (Stored(s, k) == want <==> Queued(s, k) + Lost(s, k) <= Stored(s, k))
    ensures p !in states[i].rows && p !in states[i].torn ==> Held(cfg, states[i], p) == {}
  {
    hide Storable, Acked, Scanning, Stored, Queued, Lost;
    if i == 0 {
      InitialAgrees(cfg);
    } else {
      EveryHistoryAgrees(cfg, states, i - 1, p);
      var a, b := states[i - 1], states[i];
      if IsScan(cfg, a, b) {
        var root, files, all :| b == Scanning(cfg, a, root, files, all).state;
        ScanningKeeps(cfg, a, root, files, all);
      } else {
        ElsewhereKeeps(cfg, a, b);
      }
    }
    AgreesFor(cfg, states[i], p);
    if p in states[i].rows && p !in states[i].torn {
      StoredExactly(states[i].world.service, Key(cfg.host, p), Storable(cfg, p, states[i].rows[p].content));
    }
  }

  ghost predicate AllUnder(root: Path, files: seq<Listed>) {
    forall i | 0 <= i < |files| :: root.parts <= files[i].path.parts
  }

  ghost predicate IsScanOf(cfg: Config, roots: set<Path>, a: State, b: State) {
    exists root, files: seq<Listed>, all ::
      root in roots && AllUnder(root, files) && b == Scanning(cfg, a, root, files, all).state
  }

  /** Scans of these roots, in any order and cut short anywhere, with anything else in between. */
  ghost predicate ScansOnly(cfg: Config, roots: set<Path>, states: seq<State>) {
    forall i | 0 < i < |states| ::
      IsScanOf(cfg, roots, states[i - 1], states[i]) || Elsewhere(cfg, states[i - 1], states[i])
  }

  ghost predicate Kept(cfg: Config, a: State, b: State, q: Path) {
    Lookup(b.rows, q) == Lookup(a.rows, q) && Lookup(b.torn, q) == Lookup(a.torn, q)
      && Held(cfg, b, q) == Held(cfg, a, q)
  }

  lemma ScanKeeps(cfg: Config, roots: set<Path>, a: State, b: State, q: Path)
    requires IsScanOf(cfg, roots, a, b) && forall root | root in roots :: !(root.parts <= q.parts)
    ensures Kept(cfg, a, b, q)
  {
    hide Scanning, Held;
    var root, files: seq<Listed>, all :|
      root in roots && AllUnder(root, files) && b == Scanning(cfg, a, root, files, all).state;
    ScanningTouches(cfg, a, root, files, all);
    assert Untouched(cfg, a, b, q);
  }

  /** A path under none of the roots ever scanned keeps its row and its copies. */
  lemma {:induction false} OutsideEveryRoot(cfg: Config, roots: set<Path>, states: seq<State>, i: nat, q: Path)
    requires ScansOnly(cfg, roots, states) && i < |states|
    requires forall root | root in roots :: !(root.parts <= q.parts)
    ensures Kept(cfg, states[0], states[i], q)
  {
    hide IsScanOf, Held;
    if i > 0 {
      OutsideEveryRoot(cfg, roots, states, i - 1, q);
      if IsScanOf(cfg, roots, states[i - 1], states[i]) {
        ScanKeeps(cfg, roots, states[i - 1], states[i], q);
      }
    }
  }

  // ----- what a scan achieves -----

  /** The visit lost no request and no local write. */
  predicate Completed(r: Visit) {
    r == SkippedMtime || r == Unreadable || r == HashUnchanged || r == Indexed
  }

  /** Nothing of the path is queued, and it is whole, or due for a delete, or has only `body` begun. */
  predicate Healable(cfg: Config, st: State, p: Path, body: Content) {
    && Pending(cfg, st, p) == {}
    && (p !in st.torn || (p in st.rows && st.rows[p].content != body) || (p !in st.rows && st.torn[p] <= {body}))
  }

  /** What a completed visit leaves: an untouched path, or the file's row and, from a healable start, exactly
      its storable chunks acknowledged. */
  ghost predicate Mirrors(cfg: Config, a: State, b: State, f: Listed) {
    if (f.path in a.rows && a.rows[f.path].mtime == f.mtime) || f.body.None? then Untouched(cfg, a, b, f.path)
    else
      && f.path in b.rows && b.rows[f.path] == Row(f.body.value, f.mtime)
      && (Healable(cfg, a, f.path, f.body.value) ==> Held(cfg, b, f.path) == Storable(cfg, f.path, f.body.value))
  }

  lemma HealableSurvivors(cfg: Config, st: State, p: Path, body: Content)
    requires AgreesAt(cfg, st, p) && Healable(cfg, st, p, body)
    requires p in st.rows ==> st.rows[p].content != body
    ensures Survivors(cfg, st, p) <= Storable(cfg, p, body)
  {
    hide Acked, Deleting, Storable, Queued;
    if p in st.rows {
      NothingQueuedNothingSurvives(cfg, st, p);
    }
  }

  lemma IndexedRow(cfg: Config, st: State, f: Listed)
    requires Visiting(cfg, st, f).1 == Indexed
    ensures f.body.Some? && (f.path in st.rows ==> st.rows[f.path].content != f.body.value)
    ensures Visiting(cfg, st, f).0.rows == st.rows[f.path := Row(f.body.value, f.mtime)]
  {
    hide Clearing, Reindexing, Moves, Storable, Held;
    var read := st.(ops := st.ops + 1);
    if f.body.Some? {
      if f.path in st.rows {
        ClearingFacts(cfg, read, f.path);
        ReindexingFacts(cfg, Clearing(cfg, read, f.path).0, f.path, f.body.value, f.mtime);
      } else {
        ReindexingFacts(cfg, read, f.path, f.body.value, f.mtime);
      }
    }
  }

  lemma Skipped(cfg: Config, st: State, f: Listed)
    requires Visiting(cfg, st, f).1 == SkippedMtime || Visiting(cfg, st, f).1 == Unreadable
    ensures (f.path in st.rows && st.rows[f.path].mtime == f.mtime) || f.body.None?
    ensures Visiting(cfg, st, f).0 == st.(ops := st.ops + 1)
  {
    hide Clearing, Reindexing, Moves, Storable, Held;
    var read := st.(ops := st.ops + 1);
    if f.body.Some? {
      if f.path in st.rows {
        ReindexingFacts(cfg, Clearing(cfg, read, f.path).0, f.path, f.body.value, f.mtime);
      } else {
        ReindexingFacts(cfg, read, f.path, f.body.value, f.mtime);
      }
    }
  }

  lemma NotSkipped(cfg: Config, st: State, f: Listed)
    requires Visiting(cfg, st, f).1 == HashUnchanged || Visiting(cfg, st, f).1 == Indexed
    ensures f.body.Some? && !(f.path in st.rows && st.rows[f.path].mtime == f.mtime)
  {
    hide Clearing, Reindexing;
  }

  lemma VisitMirrors(cfg: Config, st: State, f: Listed)
    requires AgreesAt(cfg, st, f.path) && Completed(Visiting(cfg, st, f).1)
    ensures Mirrors(cfg, st, Visiting(cfg, st, f).0, f)
  {
    hide Visiting, Storable, Acked, Survivors, Queued;
    var (after, r) := Visiting(cfg, st, f);
    match r
    case HashUnchanged =>
      NotSkipped(cfg, st, f);
      UnchangedExactly(cfg, st, f);
    case Indexed =>
      NotSkipped(cfg, st, f);
      IndexedRow(cfg, st, f);
      IndexedExactly(cfg, st, f);
      if Healable(cfg, st, f.path, f.body.value) { HealableSurvivors(cfg, st, f.path, f.body.value); }
    case _ =>
      Skipped(cfg, st, f);
  }

  lemma MirrorsBetween(cfg: Config, a: State, b: State, c: State, d: State, f: Listed)
    requires Untouched(cfg, a, b, f.path) && Mirrors(cfg, b, c, f) && Untouched(cfg, c, d, f.path)
    ensures Mirrors(cfg, a, d, f)
  {
    hide Held, Pending, Storable;
  }

  ghost predicate DistinctPaths(files: seq<Listed>) {
    forall i, j | 0 <= i < j < |files| :: files[i].path != files[j].path
  }

  /** Whatever failed around it, each file whose visit completed is mirrored. */
  lemma {:induction false} VisitsMirror(cfg: Config, st: State, files: seq<Listed>, n: nat, i: nat)
    requires n <= |files| && DistinctPaths(files) && Agrees(cfg, st)
    ensures |VisitingUpTo(cfg, st, files, n).1| <= n
    ensures Halted(VisitingUpTo(cfg, st, files, n).1) || |VisitingUpTo(cfg, st, files, n).1| == n
    ensures i < |VisitingUpTo(cfg, st, files, n).1| && Completed(VisitingUpTo(cfg, st, files, n).1[i]) ==>
              Mirrors(cfg, st, VisitingUpTo(cfg, st, files, n).0, files[i])
  {
    hide Visiting, Agrees, Mirrors, Untouched, AgreesAt, Moves;
    if n > 0 {
      VisitsMirror(cfg, st, files, n - 1, i);
      var (before, visits) := VisitingUpTo(cfg, st, files, n - 1);
      if !Halted(visits) {
        var f := files[n - 1];
        var (after, r) := Visiting(cfg, before, f);
        VisitingMoves(cfg, before, f);
        Still(cfg, after);
        if i == n - 1 && Completed(r) {
          VisitingUpToKeeps(cfg, st, files, n - 1);
          AgreesFor(cfg, before, f.path);
          VisitMirrors(cfg, before, f);
          VisitingUpToTouches(cfg, st, files, n - 1, f.path);
          MirrorsBetween(cfg, st, before, after, after, f);
        } else if i < n - 1 && Completed(visits[i]) {
          MovesElsewhere(cfg, before, after, f.path, files[i].path);
          Still(cfg, st);
          MirrorsBetween(cfg, st, st, before, after, files[i]);
        }
      }
    }
  }

  lemma Still(cfg: Config, st: State)
    ensures forall q: Path :: Untouched(cfg, st, st, q)
  {
  }

  /** And stays so to the end of the scan, since the prune leaves listed files alone. */
  lemma ScanMirrors(cfg: Config, st: State, root: Path, files: seq<Listed>, all: seq<Path>, i: nat)
    requires DistinctPaths(files) && Agrees(cfg, st)
    ensures var o := Scanning(cfg, st, root, files, all);
            && (Halted(o.visits) || |o.visits| == |files|) && |o.visits| <= |files|
            && (i < |o.visits| && Completed(o.visits[i]) ==> Mirrors(cfg, st, o.state, files[i]))
  {
    hide VisitingUpTo, PruningUpTo, Halted, Mirrors, Untouched, Agrees;
    VisitsMirror(cfg, st, files, |files|, i);
    var (visited, visits) := VisitingUpTo(cfg, st, files, |files|);
    var listed := visited.(ops := visited.ops + 1);
    var pruned := PruningUpTo(cfg, listed, root, SeenIn(files), all, |all|).0;
    if i < |visits| && Completed(visits[i]) {
      OpsAgree(cfg, visited, listed);
      Still(cfg, st);
      MirrorsBetween(cfg, st, st, visited, listed, files[i]);
      PruningUpToTouches(cfg, listed, root, SeenIn(files), all, |all|);
      assert files[i].path in SeenIn(files);
      MirrorsBetween(cfg, st, st, listed, pruned, files[i]);
    }
  }

  /** Every request is served and every local write goes through. */
  ghost predicate Quiet(env: Env) { forall n: nat :: env.replies(n).fate == Served && env.disk(n) }

  lemma QuietPublishing(env: Env, w: World, k: Key, c: Chunk)
    requires Quiet(env)
    ensures Publishing(env, w, k, c, 1).1 == Accepted || Publishing(env, w, k, c, 1).1 == TooLarge
  {
  }

  lemma {:induction false} QuietOffering(cfg: Config, w: World, p: Path, chunks: seq<Chunk>, n: nat)
    requires n <= |chunks| && Quiet(cfg.env)
    ensures !Offering(cfg, w, p, chunks, n).failed && !Offering(cfg, w, p, chunks, n).died
  {
    hide Publishing;
    if n > 0 {
      QuietOffering(cfg, w, p, chunks, n - 1);
      QuietPublishing(cfg.env, Offering(cfg, w, p, chunks, n - 1).world, Key(cfg.host, p), chunks[n - 1]);
    }
  }

  lemma QuietVisit(cfg: Config, st: State, f: Listed)
    requires Quiet(cfg.env)
    ensures Completed(Visiting(cfg, st, f).1)
  {
    hide Offering, Deleting, Queued;
    if f.body.Some? {
      var chunks := cfg.chunksOf(f.path, f.body.value);
      QuietOffering(cfg, st.world, f.path, chunks, |chunks|);
      QuietOffering(cfg, Deleting(cfg.env, st.world, Key(cfg.host, f.path)), f.path, chunks, |chunks|);
    }
  }

  lemma {:induction false} QuietVisits(cfg: Config, st: State, files: seq<Listed>, n: nat)
    requires n <= |files| && Quiet(cfg.env)
    ensures var visits := VisitingUpTo(cfg, st, files, n).1;
            |visits| == n && !Halted(visits) && forall i | 0 <= i < n :: Completed(visits[i])
  {
    hide Visiting, Quiet;
    if n > 0 {
      QuietVisits(cfg, st, files, n - 1);
      QuietVisit(cfg, VisitingUpTo(cfg, st, files, n - 1).0, files[n - 1]);
    }
  }

  lemma PruningRow(cfg: Config, st: State, p: Path)
    requires p in st.rows
    ensures var (after, alive) := PruningOne(cfg, st, p);
            && after.rows.Keys <= st.rows.Keys
            && (forall q | q != p :: (q in after.rows <==> q in st.rows) && (q in after.torn <==> q in st.torn))
            && (p in after.rows ==> p in after.torn)
            && (Quiet(cfg.env) ==> alive && p !in after.rows)
  {
    hide Deleting, Queued;
  }

  /** A prune that gets through leaves no unlisted row under the root, but for torn ones whose delete failed. */
  lemma {:induction false} PrunedUpTo(cfg: Config, st: State, root: Path, seen: set<Path>, all: seq<Path>, n: nat)
    requires n <= |all| && Lists(all, st.rows.Keys)
    ensures var (after, alive) := PruningUpTo(cfg, st, root, seen, all, n);
            && after.rows.Keys <= st.rows.Keys
            && (forall i | n <= i < |all| :: all[i] in after.rows)
            && (alive ==>
                  forall i | 0 <= i < n && all[i] !in seen && root.parts <= all[i].parts && all[i] in after.rows ::
                  all[i] in after.torn)
            && (Quiet(cfg.env) ==> alive)
            && (Quiet(cfg.env) ==> forall i | 0 <= i < n && all[i] !in seen && root.parts <= all[i].parts ::
                  all[i] !in after.rows)
  {
    hide PruningOne, Quiet;
    if n > 0 {
      PrunedUpTo(cfg, st, root, seen, all, n - 1);
      var (before, alive) := PruningUpTo(cfg, st, root, seen, all, n - 1);
      if !(!alive || all[n - 1] in seen || !(root.parts <= all[n - 1].parts) || all[n - 1] !in before.rows) {
        PruningRow(cfg, before, all[n - 1]);
      }
    }
  }

  /** A scan that is not stopped leaves under its root only listed files and torn ones; with every request served,
      every visit completes and only listed files are left. */
  lemma ScanCompletes(cfg: Config, st: State, root: Path, files: seq<Listed>, all: seq<Path>, q: Path)
    requires Lists(all, VisitingUpTo(cfg, st, files, |files|).0.rows.Keys)
    ensures var o := Scanning(cfg, st, root, files, all);
            && (o.alive && q in o.state.rows && root.parts <= q.parts && q !in SeenIn(files) ==> q in o.state.torn)
            && (Quiet(cfg.env) ==> o.alive && |o.visits| == |files|)
            && (Quiet(cfg.env) ==> forall i | 0 <= i < |files| :: Completed(o.visits[i]))
            && (Quiet(cfg.env) && q in o.state.rows && root.parts <= q.parts ==> q in SeenIn(files))
  {
    hide VisitingUpTo, PruningUpTo, SeenIn, Completed;
    var (visited, visits) := VisitingUpTo(cfg, st, files, |files|);
    var listed := visited.(ops := visited.ops + 1);
    PrunedUpTo(cfg, listed, root, SeenIn(files), all, |all|);
    if Quiet(cfg.env) { QuietVisits(cfg, st, files, |files|); }
    if q in PruningUpTo(cfg, listed, root, SeenIn(files), all, |all|).0.rows {
      assert q in all;
      var i :| 0 <= i < |all| && all[i] == q;
    }
  }
}
