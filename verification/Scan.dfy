/** Scanning a root: each visit as a function of the state and the outside world, the scanner that performs it,
    and what every history of scans keeps about the cursor and the store. */
module Scan {
  import opened Options
  import opened ScanStore

  /** Whose files are scanned, how a file is cut into chunks, and the world around. */
  datatype Config = Config(host: string, chunksOf: (Path, Content) -> seq<Chunk>, env: Env)

  /** `torn` holds the paths whose last delete or publish was begun and not completed, or whose delete had
      queued writes to overtake, each with the contents whose chunks the service may still hold. */
  datatype State = State(rows: map<Path, Row>, ops: nat, world: World, torn: map<Path, set<Content>>)

  const INITIAL: State := State(map[], 0, World(EMPTY_SERVICE, 0), map[])

  function Storable(cfg: Config, p: Path, c: Content): set<Chunk> {
    set k | k in cfg.chunksOf(p, c) && cfg.env.accepts(k)
  }

  function Lookup<K, V>(m: map<K, V>, k: K): Option<V> {
    if k in m then Some(m[k]) else None
  }

  function Contents(torn: Option<set<Content>>): set<Content> {
    if torn.Some? then torn.value else {}
  }

  /** What the service has acknowledged for `p` on this host. */
  function Held(cfg: Config, st: State, p: Path): set<Chunk> {
    Acked(st.world.service, Key(cfg.host, p))
  }

  // ----- what a visit does -----

  function Tear(st: State, p: Path, c: Content): State {
    st.(torn := st.torn[p := Contents(Lookup(st.torn, p)) + {c}])
  }

  /** Delete before reindexing or pruning. Until the new chunks are all in, the path is torn; if the delete
      succeeds with nothing of the path queued, nothing old can come back. */
  function Clearing(cfg: Config, st: State, p: Path): (State, Status)
    requires p in st.rows
  {
    var k := Key(cfg.host, p);
    var torn := Tear(st, p, st.rows[p].content);
    var w := Deleting(cfg.env, st.world, k);
    var s := DeleteStatus(cfg.env.replies(st.world.clock).fate);
    (torn.(world := w, torn := if s == Ok && Queued(w.service, k) == {} then torn.torn[p := {}] else torn.torn), s)
  }

  datatype Progress = Progress(world: World, failed: bool, died: bool)

  /** The first `n` chunks offered in turn; a failed one does not stop the others, a crash does. */
  function Offering(cfg: Config, w: World, p: Path, chunks: seq<Chunk>, n: nat): Progress
    requires n <= |chunks|
  {
    if n == 0 then Progress(w, false, false)
    else
      var before := Offering(cfg, w, p, chunks, n - 1);
      if before.died then before
      else
        var (w1, outcome) := Publishing(cfg.env, before.world, Key(cfg.host, p), chunks[n - 1], 1);
        Progress(w1, before.failed || outcome == Error, outcome == Dead)
  }

  /** A file as the walk listed it and as it read back: nothing, when it was unreadable or not text. */
  datatype Listed = Listed(path: Path, mtime: int, body: Option<Content>)

  datatype Visit = SkippedMtime | Unreadable | HashUnchanged | DeleteFailed | PublishFailed | Indexed | Stopped

  /** Publish the new content and, only when all of it was acknowledged, advance the cursor. */
  function Reindexing(cfg: Config, st: State, p: Path, body: Content, mtime: int): (State, Visit) {
    var chunks := cfg.chunksOf(p, body);
    var begun := Tear(st, p, body);
    var offered := Offering(cfg, begun.world, p, chunks, |chunks|);
    var after := begun.(world := offered.world);
    if offered.died then (after, Stopped)
    else if offered.failed then (after, PublishFailed)
    else if !cfg.env.disk(st.ops) then (after.(ops := st.ops + 1), Stopped)
    else
      (after.(ops := st.ops + 1, rows := st.rows[p := Row(body, mtime)],
              torn := if begun.torn[p] == {body} then begun.torn - {p} else begun.torn), Indexed)
  }

  /** One file: skip it, refresh its row, or delete its old copies and publish the new ones. */
  function Visiting(cfg: Config, st: State, f: Listed): (State, Visit) {
    var p := f.path;
    var read := st.(ops := st.ops + 1);
    if !cfg.env.disk(st.ops) then (read, Stopped)
    else if p in st.rows && st.rows[p].mtime == f.mtime then (read, SkippedMtime)
    else if f.body.None? then (read, Unreadable)
    else if p in st.rows && st.rows[p].content == f.body.value then
      if cfg.env.disk(read.ops)
      then (read.(ops := read.ops + 1, rows := st.rows[p := Row(f.body.value, f.mtime)]), HashUnchanged)
      else (read.(ops := read.ops + 1), Stopped)
    else if p in st.rows then
      var (cleared, s) := Clearing(cfg, read, p);
      if s == Ok then Reindexing(cfg, cleared, p, f.body.value, f.mtime)
      else (cleared, if s == Failed then DeleteFailed else Stopped)
    else Reindexing(cfg, read, p, f.body.value, f.mtime)
  }

  /** The first `n` files in turn, whatever becomes of each, until one visit stops the scan. */
  function VisitingUpTo(cfg: Config, st: State, files: seq<Listed>, n: nat): (State, seq<Visit>)
    requires n <= |files|
  {
    if n == 0 then (st, [])
    else
      var (before, visits) := VisitingUpTo(cfg, st, files, n - 1);
      if Halted(visits) then (before, visits)
      else
        var (after, r) := Visiting(cfg, before, files[n - 1]);
        (after, visits + [r])
  }

  predicate Halted(visits: seq<Visit>) { visits != [] && visits[|visits| - 1] == Stopped }

  /** A vanished file loses its copies, then its row. */
  function PruningOne(cfg: Config, st: State, p: Path): (State, bool)
    requires p in st.rows
  {
    var (cleared, s) := Clearing(cfg, st, p);
    if s == Ok then
      if cfg.env.disk(st.ops) then
        (cleared.(ops := st.ops + 1, rows := st.rows - {p},
                  torn := if cleared.torn[p] == {} then cleared.torn - {p} else cleared.torn), true)
      else (cleared.(ops := st.ops + 1), false)
    else (cleared, s != Died)
  }

  /** The first `n` cursor rows of a listing: unlisted ones under the root are pruned. */
  function PruningUpTo(cfg: Config, st: State, root: Path, seen: set<Path>, all: seq<Path>, n: nat): (State, bool)
    requires n <= |all|
  {
    if n == 0 then (st, true)
    else
      var (before, alive) := PruningUpTo(cfg, st, root, seen, all, n - 1);
      var p := all[n - 1];
      if !alive || p in seen || !Under(root, p) || p !in before.rows then (before, alive)
      else PruningOne(cfg, before, p)
  }

  function SeenIn(files: seq<Listed>): set<Path> {
    set f | f in files :: f.path
  }

  datatype Outcome = Outcome(state: State, visits: seq<Visit>, alive: bool)

  /** One scan of one root, when the cursor lists its rows in the order `all` after the visits. */
  function Scanning(cfg: Config, st: State, root: Path, files: seq<Listed>, all: seq<Path>): Outcome {
    var (visited, visits) := VisitingUpTo(cfg, st, files, |files|);
    if Halted(visits) then Outcome(visited, visits, false)
    else
      var listed := visited.(ops := visited.ops + 1);
      if !cfg.env.disk(visited.ops) then Outcome(listed, visits, false)
      else
        var (pruned, alive) := PruningUpTo(cfg, listed, root, SeenIn(files), all, |all|);
        Outcome(pruned, visits, alive)
  }

  // ----- the scanner -----

  lemma OfferingDied(cfg: Config, w: World, p: Path, chunks: seq<Chunk>, n: nat, m: nat)
    requires n <= m <= |chunks| && Offering(cfg, w, p, chunks, n).died
    ensures Offering(cfg, w, p, chunks, m) == Offering(cfg, w, p, chunks, n)
  {
    if n < m { OfferingDied(cfg, w, p, chunks, n, m - 1); }
  }

  lemma VisitingHalted(cfg: Config, st: State, files: seq<Listed>, n: nat, m: nat)
    requires n <= m <= |files| && Halted(VisitingUpTo(cfg, st, files, n).1)
    ensures VisitingUpTo(cfg, st, files, m) == VisitingUpTo(cfg, st, files, n)
  {
    hide Visiting;
    if n < m { VisitingHalted(cfg, st, files, n, m - 1); }
  }

  lemma PruningHalted(cfg: Config, st: State, root: Path, seen: set<Path>, all: seq<Path>, n: nat, m: nat)
    requires n <= m <= |all| && !PruningUpTo(cfg, st, root, seen, all, n).1
    ensures PruningUpTo(cfg, st, root, seen, all, m) == PruningUpTo(cfg, st, root, seen, all, n)
  {
    hide PruningOne, Under;
    if n < m { PruningHalted(cfg, st, root, seen, all, n, m - 1); }
  }

  class Scanner {
    const cfg: Config
    const cursor: Cursor
    const remote: Remote
    ghost var torn: map<Path, set<Content>>

    constructor (cfg: Config, cursor: Cursor, remote: Remote)
      requires cursor.disk == cfg.env.disk && remote.env == cfg.env
      ensures this.cfg == cfg && this.cursor == cursor && this.remote == remote && torn == map[]
      ensures Valid()
    {
      this.cfg := cfg;
      this.cursor := cursor;
      this.remote := remote;
      torn := map[];
    }

    ghost predicate Valid() { cursor.disk == cfg.env.disk && remote.env == cfg.env }

    ghost function Now(): State
      reads this, cursor, remote
    {
      State(cursor.rows, cursor.ops, remote.Now(), torn)
    }

    method ClearStale(p: Path) returns (s: Status)
      requires Valid() && p in cursor.rows
      modifies this`torn, remote
      ensures (Now(), s) == Clearing(cfg, old(Now()), p)
    {
      hide Deleting;
      torn := torn[p := Contents(Lookup(torn, p)) + {cursor.rows[p].content}];
      s := remote.Delete(Key(cfg.host, p));
      if s == Ok && Queued(remote.service, Key(cfg.host, p)) == {} {
        torn := torn[p := {}];
      }
    }

    method OfferAll(p: Path, chunks: seq<Chunk>) returns (failed: bool, died: bool)
      requires Valid()
      modifies remote
      ensures Progress(remote.Now(), failed, died) == Offering(cfg, old(remote.Now()), p, chunks, |chunks|)
    {
      hide Publishing;
      failed, died := false, false;
      for i := 0 to |chunks|
        invariant !died && Progress(remote.Now(), failed, died) == Offering(cfg, old(remote.Now()), p, chunks, i)
      {
        var outcome, slept := PublishChunk(remote, Key(cfg.host, p), chunks[i]);
        if outcome == Dead {
          died := true;
          OfferingDied(cfg, old(remote.Now()), p, chunks, i + 1, |chunks|);
          return;
        }
        if outcome == Error { failed := true; }
      }
    }

    method Reindex(p: Path, body: Content, mtime: int) returns (r: Visit)
      requires Valid()
      modifies this`torn, cursor, remote
      ensures (Now(), r) == Reindexing(cfg, old(Now()), p, body, mtime)
    {
      hide Offering;
      torn := torn[p := Contents(Lookup(torn, p)) + {body}];
      var failed, died := OfferAll(p, cfg.chunksOf(p, body));
      if died { return Stopped; }
      if failed { return PublishFailed; }
      var ok := cursor.Upsert(p, Row(body, mtime));
      if !ok { return Stopped; }
      if torn[p] == {body} { torn := torn - {p}; }
      r := Indexed;
    }

    method ScanFile(f: Listed) returns (r: Visit)
      requires Valid()
      modifies this`torn, cursor, remote
      ensures (Now(), r) == Visiting(cfg, old(Now()), f)
    {
      hide Clearing, Reindexing;
      var p := f.path;
      var ok, prev := cursor.Get(p);
      if !ok { return Stopped; }
      if prev.Some? && prev.value.mtime == f.mtime { return SkippedMtime; }
      if f.body.None? { return Unreadable; }
      var body := f.body.value;
      if prev.Some? && prev.value.content == body {
        ok := cursor.Upsert(p, Row(body, f.mtime));
        return if ok then HashUnchanged else Stopped;
      }
      if prev.Some? {
        var s := ClearStale(p);
        if s == Failed { return DeleteFailed; }
        if s != Ok { return Stopped; }
      }
      r := Reindex(p, body, f.mtime);
    }

    method ScanFiles(files: seq<Listed>) returns (visits: seq<Visit>, seen: set<Path>)
      requires Valid()
      modifies this`torn, cursor, remote
      ensures (Now(), visits) == VisitingUpTo(cfg, old(Now()), files, |files|)
      ensures !Halted(visits) ==> seen == SeenIn(files)
    {
      hide Visiting;
      visits, seen := [], {};
      assert files[..0] == [];
      for i := 0 to |files|
        invariant (Now(), visits) == VisitingUpTo(cfg, old(Now()), files, i)
        invariant !Halted(visits) && seen == SeenIn(files[..i])
      {
        var r := ScanFile(files[i]);
        visits := visits + [r];
        assert files[..i + 1] == files[..i] + [files[i]];
        seen := seen + {files[i].path};
        if r == Stopped {
          VisitingHalted(cfg, old(Now()), files, i + 1, |files|);
          return;
        }
      }
      assert files[..|files|] == files;
    }

    method PruneOne(p: Path) returns (alive: bool)
      requires Valid() && p in cursor.rows
      modifies this`torn, cursor, remote
      ensures (Now(), alive) == PruningOne(cfg, old(Now()), p)
    {
      hide Deleting;
      var s := ClearStale(p);
      if s != Ok { return s != Died; }
      alive := cursor.Delete(p);
      if alive && torn[p] == {} { torn := torn - {p}; }
    }

    /** The loop over the cursor's rows: skip what this scan saw and what lies under another root. */
    method Prune(root: Path, seen: set<Path>, all: seq<Path>) returns (alive: bool)
      requires Valid() && Lists(all, cursor.rows.Keys)
      modifies this`torn, cursor, remote
      ensures (Now(), alive) == PruningUpTo(cfg, old(Now()), root, seen, all, |all|)
    {
      hide PruningOne, Under;
      alive := true;
      for i := 0 to |all|
        invariant alive && (Now(), alive) == PruningUpTo(cfg, old(Now()), root, seen, all, i)
        invariant forall j | i <= j < |all| :: all[j] in cursor.rows
      {
        var p := all[i];
        if p in seen || !Under(root, p) { continue; }
        ghost var before := Now();
        alive := PruneOne(p);
        PruningRows(cfg, before, p);
        if !alive {
          PruningHalted(cfg, old(Now()), root, seen, all, i + 1, |all|);
          return;
        }
      }
    }

    /** One scan of one root, however it ends. */
    method ScanRoot(root: Path, files: seq<Listed>) returns (visits: seq<Visit>, alive: bool, all: seq<Path>)
      requires Valid()
      modifies this`torn, cursor, remote
      ensures Outcome(Now(), visits, alive) == Scanning(cfg, old(Now()), root, files, all)
      ensures !Halted(visits) ==> Lists(all, VisitingUpTo(cfg, old(Now()), files, |files|).0.rows.Keys)
    {
      hide VisitingUpTo, PruningUpTo, Halted, SeenIn;
      var seen, ok;
      visits, seen := ScanFiles(files);
      if Halted(visits) { return visits, false, []; }
      ok, all := cursor.ListAll();
      if !ok { return visits, false, all; }
      alive := Prune(root, seen, all);
    }
  }

  lemma PruningRows(cfg: Config, st: State, p: Path)
    requires p in st.rows
    ensures st.rows.Keys - {p} <= PruningOne(cfg, st, p).0.rows.Keys <= st.rows.Keys
  {
    hide Deleting;
  }
}
