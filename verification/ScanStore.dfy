/** What a scanner writes to: its own durable cursor, and the service's store behind a queue and a network.
    File hashes are taken to identify contents. */
module ScanStore {
  import opened Options

  datatype Path = Path(parts: seq<string>)

  /** A file's text; two texts are the same value exactly when their hashes agree. */
  datatype Content = Content(text: string)

  datatype Chunk = Chunk(text: string)

  datatype Row = Row(content: Content, mtime: int)

  /** Which host holds a copy, and under which path. */
  datatype Key = Key(host: string, path: Path)

  /** Component by component, as a path prefix rather than a string prefix. */
  predicate Under(root: Path, p: Path) { root.parts <= p.parts }

  // ----- the service: stored copies, queued writes, workers -----

  /** An accepted write waiting for a worker to embed and store it. */
  datatype Job = Job(key: Key, chunk: Chunk)

  /** `lost` records the accepted writes that a worker gave up on. */
  datatype Service = Service(copies: map<Key, set<Chunk>>, queue: seq<Job>, lost: map<Key, set<Chunk>>)

  const EMPTY_SERVICE: Service := Service(map[], [], map[])

  function At(m: map<Key, set<Chunk>>, k: Key): set<Chunk> {
    if k in m then m[k] else {}
  }

  function Stored(s: Service, k: Key): set<Chunk> { At(s.copies, k) }

  function Lost(s: Service, k: Key): set<Chunk> { At(s.lost, k) }

  function Waiting(queue: seq<Job>, k: Key): set<Chunk> {
    set j | j in queue && j.key == k :: j.chunk
  }

  function Queued(s: Service, k: Key): set<Chunk> { Waiting(s.queue, k) }

  /** Everything the service has said yes to for `k` since its last delete: stored, still queued, or dropped. */
  function Acked(s: Service, k: Key): set<Chunk> {
    Stored(s, k) + Queued(s, k) + Lost(s, k)
  }

  /** A worker finishes the queued job at `i`, one way or the other; several workers finish in any order. */
  datatype Work = Land(i: nat) | Drop(i: nat)

  function WorkStep(s: Service, w: Work): Service {
    if w.i >= |s.queue| then s
    else
      var job := s.queue[w.i];
      var rest := s.queue[..w.i] + s.queue[w.i + 1..];
      match w
      case Land(_) => s.(queue := rest, copies := s.copies[job.key := Stored(s, job.key) + {job.chunk}])
      case Drop(_) => s.(queue := rest, lost := s.lost[job.key := Lost(s, job.key) + {job.chunk}])
  }

  function Worked(s: Service, ws: seq<Work>): Service {
    if ws == [] then s else WorkStep(Worked(s, ws[..|ws| - 1]), ws[|ws| - 1])
  }

  lemma TakenOut(queue: seq<Job>, i: nat, k: Key)
    requires i < |queue|
    ensures Waiting(queue, k) ==
            Waiting(queue[..i] + queue[i + 1..], k) + if queue[i].key == k then {queue[i].chunk} else {}
  {
    var rest := queue[..i] + queue[i + 1..];
    assert queue == queue[..i] + [queue[i]] + queue[i + 1..];
    forall j | j in queue ensures j in rest || j == queue[i] { }
    forall j | j in rest ensures j in queue { }
    assert queue[i] in queue;
  }

  lemma StepMoves(s: Service, w: Work, k: Key)
    ensures Acked(WorkStep(s, w), k) == Acked(s, k)
    ensures Queued(WorkStep(s, w), k) <= Queued(s, k)
    ensures Stored(s, k) <= Stored(WorkStep(s, w), k)
  {
    hide Waiting;
    if w.i < |s.queue| {
      TakenOut(s.queue, w.i, k);
    }
  }

  /** Workers only move what is queued: nothing acknowledged comes or goes, nothing stored is taken away. */
  lemma {:induction false} WorkMoves(s: Service, ws: seq<Work>, k: Key)
    ensures Acked(Worked(s, ws), k) == Acked(s, k)
    ensures Queued(Worked(s, ws), k) <= Queued(s, k)
    ensures Stored(s, k) <= Stored(Worked(s, ws), k)
  {
    hide Acked, Queued, Stored, WorkStep;
    if ws != [] {
      WorkMoves(s, ws[..|ws| - 1], k);
      StepMoves(Worked(s, ws[..|ws| - 1]), ws[|ws| - 1], k);
    }
  }

  // ----- one request -----

  datatype Fate = Served | Busy | Broken | Crash

  /** What becomes of one request. `found` is whether the content already is a point, which then gains the
      copy at once instead of a job being queued. A broken or crashed request may have taken effect: on a
      publish if the chunk is in `part`, on a delete for all copies outside `part`. */
  datatype Reply = Reply(fate: Fate, found: bool, part: set<Chunk>)

  /** The outside world: the model's ceiling, what requests meet, what workers do before each request,
      and which operations on the local cursor go through. */
  datatype Env = Env(accepts: Chunk -> bool, replies: nat -> Reply, work: nat -> seq<Work>, disk: nat -> bool)

  datatype World = World(service: Service, clock: nat)

  datatype Status = Ok | Refused | QueueFull | Failed | Died

  function Take(s: Service, found: bool, k: Key, c: Chunk): Service {
    if found then s.(copies := s.copies[k := Stored(s, k) + {c}]) else s.(queue := s.queue + [Job(k, c)])
  }

  function IndexStatus(fate: Fate, accepted: bool): Status {
    match fate
    case Served => if accepted then Ok else Refused
    case Busy => QueueFull
    case Broken => Failed
    case Crash => Died
  }

  predicate TakesEffect(reply: Reply, c: Chunk) {
    reply.fate == Served || (reply.fate != Busy && c in reply.part)
  }

  /** `POST /memory/knowledge/index`: the answer comes before any worker has stored anything. */
  function Indexing(env: Env, w: World, k: Key, c: Chunk): World {
    var reply := env.replies(w.clock);
    var s := Worked(w.service, env.work(w.clock));
    World(if env.accepts(c) && TakesEffect(reply, c) then Take(s, reply.found, k, c) else s, w.clock + 1)
  }

  /** A delete is not retried: being turned away is a failure like any other. */
  function DeleteStatus(fate: Fate): Status {
    match fate
    case Served => Ok
    case Busy => Failed
    case Broken => Failed
    case Crash => Died
  }

  /** The delete reaches stored copies only; what is queued lands whenever its turn comes. */
  function Deleting(env: Env, w: World, k: Key): World {
    var reply := env.replies(w.clock);
    var s := Worked(w.service, env.work(w.clock));
    World(match reply.fate
          case Served => s.(copies := s.copies[k := {}], lost := s.lost[k := {}])
          case Busy => s
          case Broken => s.(copies := s.copies[k := Stored(s, k) * reply.part])
          case Crash => s.(copies := s.copies[k := Stored(s, k) * reply.part]),
          w.clock + 1)
  }

  /** Only what the service holds for `k` may differ; of the others' writes some may have left the queue. */
  ghost predicate OnlyFor(a: Service, b: Service, k: Key) {
    forall j: Key | j != k :: Acked(b, j) == Acked(a, j) && Queued(b, j) <= Queued(a, j)
  }

  lemma TakeAcks(s: Service, found: bool, k: Key, c: Chunk, j: Key)
    ensures Acked(Take(s, found, k, c), j) == Acked(s, j) + if j == k then {c} else {}
    ensures j != k ==> Queued(Take(s, found, k, c), j) == Queued(s, j)
  {
    hide Waiting;
    if !found { QueueMore(s.queue, Job(k, c), j); }
  }

  lemma QueueMore(queue: seq<Job>, job: Job, k: Key)
    ensures Waiting(queue + [job], k) == Waiting(queue, k) + if job.key == k then {job.chunk} else {}
  {
    var more := queue + [job];
    forall j | j in more ensures j in queue || j == job { }
    forall j | j in queue ensures j in more { }
    assert more[|queue|] in more;
  }

  /** An accepted chunk arrives when it is served, and when the request broke off after its effect. */
  ghost predicate Arrives(env: Env, reply: Reply, c: Chunk) {
    env.accepts(c) && (reply.fate.Served? || ((reply.fate.Broken? || reply.fate.Crash?) && c in reply.part))
  }

  /** An index request acknowledges at most its own chunk, and an `Ok` acknowledges it. */
  lemma IndexingFacts(env: Env, w: World, k: Key, c: Chunk)
    ensures var w1 := Indexing(env, w, k, c);
            && OnlyFor(w.service, w1.service, k)
            && Acked(w.service, k) <= Acked(w1.service, k) <= Acked(w.service, k) + (if env.accepts(c) then {c} else {})
            && Acked(w1.service, k) == Acked(w.service, k) + (if Arrives(env, env.replies(w.clock), c) then {c} else {})
            && (IndexStatus(env.replies(w.clock).fate, env.accepts(c)) == Ok ==> c in Acked(w1.service, k))
  {
    hide Acked, Queued, Worked, Take;
    var s := Worked(w.service, env.work(w.clock));
    forall j: Key
      ensures Acked(s, j) == Acked(w.service, j) && Queued(s, j) <= Queued(w.service, j)
      ensures j != k ==> Queued(Take(s, env.replies(w.clock).found, k, c), j) == Queued(s, j)
      ensures Acked(Take(s, env.replies(w.clock).found, k, c), j) == Acked(s, j) + if j == k then {c} else {}
    {
      WorkMoves(w.service, env.work(w.clock), j);
      TakeAcks(s, env.replies(w.clock).found, k, c, j);
    }
  }

  /** A delete that succeeds leaves of `k` exactly what is queued; otherwise it can only take away. */
  lemma DeletingFacts(env: Env, w: World, k: Key)
    ensures var w1 := Deleting(env, w, k);
            && OnlyFor(w.service, w1.service, k)
            && Acked(w1.service, k) <= Acked(w.service, k)
            && Queued(w1.service, k) <= Queued(w.service, k)
            && (DeleteStatus(env.replies(w.clock).fate) == Ok ==>
                  Stored(w1.service, k) == {} && Acked(w1.service, k) == Queued(w1.service, k))
  {
    hide Worked, Waiting;
    forall j: Key { WorkMoves(w.service, env.work(w.clock), j); }
  }

  // ----- publishing one chunk -----

  const RETRY_MAX_ATTEMPTS: nat := 12
  const RETRY_INITIAL_DELAY: nat := 2
  const RETRY_MAX_DELAY: nat := 60

  function Backoff(delay: nat): nat { if delay * 2 < RETRY_MAX_DELAY then delay * 2 else RETRY_MAX_DELAY }

  /** The delay before the retry after `attempt`, and the seconds slept by then. */
  function DelayAt(attempt: nat): nat {
    if attempt <= 1 then RETRY_INITIAL_DELAY else Backoff(DelayAt(attempt - 1))
  }

  function SleptBefore(attempt: nat): nat {
    if attempt <= 1 then 0 else SleptBefore(attempt - 1) + DelayAt(attempt - 1)
  }

  datatype Published = Accepted | TooLarge | Error | Dead

  function Verdict(s: Status): Published {
    match s
    case Ok => Accepted
    case Refused => TooLarge
    case QueueFull => Error
    case Failed => Error
    case Died => Dead
  }

  /** Only a full queue is retried; a refusal is final and any other failure is the caller's. */
  function Publishing(env: Env, w: World, k: Key, c: Chunk, attempt: nat): (World, Published)
    decreases RETRY_MAX_ATTEMPTS - attempt
  {
    var w1 := Indexing(env, w, k, c);
    var s := IndexStatus(env.replies(w.clock).fate, env.accepts(c));
    if s == QueueFull && attempt < RETRY_MAX_ATTEMPTS then Publishing(env, w1, k, c, attempt + 1) else (w1, Verdict(s))
  }

  /** Publishing acknowledges at most its own chunk, however often it is tried; `Accepted` means it did. */
  lemma {:induction false} PublishingFacts(env: Env, w: World, k: Key, c: Chunk, attempt: nat)
    ensures var (w1, p) := Publishing(env, w, k, c, attempt);
            && OnlyFor(w.service, w1.service, k)
            && Acked(w.service, k) <= Acked(w1.service, k) <= Acked(w.service, k) + (if env.accepts(c) then {c} else {})
            && (p == Accepted ==> env.accepts(c) && c in Acked(w1.service, k))
            && (p == TooLarge ==> !env.accepts(c))
    decreases RETRY_MAX_ATTEMPTS - attempt
  {
    hide Indexing, Acked, Queued;
    var w1 := Indexing(env, w, k, c);
    var s := IndexStatus(env.replies(w.clock).fate, env.accepts(c));
    IndexingFacts(env, w, k, c);
    if s == QueueFull && attempt < RETRY_MAX_ATTEMPTS {
      PublishingFacts(env, w1, k, c, attempt + 1);
    }
  }

  /** Giving up on a full queue costs 422 seconds of waiting. */
  lemma WorstCaseWait()
    ensures SleptBefore(RETRY_MAX_ATTEMPTS) == 422
  {
    assert DelayAt(1) == 2 && DelayAt(2) == 4 && DelayAt(3) == 8;
    assert DelayAt(4) == 16 && DelayAt(5) == 32 && DelayAt(6) == 60;
    assert DelayAt(7) == 60 && DelayAt(8) == 60 && DelayAt(9) == 60;
    assert DelayAt(10) == 60 && DelayAt(11) == 60;
    assert SleptBefore(4) == 14 && SleptBefore(7) == 122 && SleptBefore(10) == 302;
  }

  // ----- the objects -----

  /** The local table of indexed files. An operation the disk refuses does nothing and ends the scan. */
  class Cursor {
    var rows: map<Path, Row>
    var ops: nat
    const disk: nat -> bool

    constructor (disk: nat -> bool)
      ensures rows == map[] && ops == 0 && this.disk == disk
    {
      rows := map[];
      ops := 0;
      this.disk := disk;
    }

    method Get(p: Path) returns (ok: bool, r: Option<Row>)
      modifies this
      ensures ok == disk(old(ops)) && ops == old(ops) + 1 && rows == old(rows)
      ensures ok ==> r == if p in rows then Some(rows[p]) else None
    {
      ok := disk(ops);
      ops := ops + 1;
      r := if p in rows then Some(rows[p]) else None;
    }

    method Upsert(p: Path, row: Row) returns (ok: bool)
      modifies this
      ensures ok == disk(old(ops)) && ops == old(ops) + 1
      ensures rows == if ok then old(rows)[p := row] else old(rows)
    {
      ok := disk(ops);
      ops := ops + 1;
      if ok { rows := rows[p := row]; }
    }

    method Delete(p: Path) returns (ok: bool)
      modifies this
      ensures ok == disk(old(ops)) && ops == old(ops) + 1
      ensures rows == if ok then old(rows) - {p} else old(rows)
    {
      ok := disk(ops);
      ops := ops + 1;
      if ok { rows := rows - {p}; }
    }

    /** Every row once, in whatever order the table yields them. */
    method ListAll() returns (ok: bool, all: seq<Path>)
      modifies this
      ensures ok == disk(old(ops)) && ops == old(ops) + 1 && rows == old(rows)
      ensures Lists(all, rows.Keys)
    {
      ok := disk(ops);
      ops := ops + 1;
      all := [];
      var left := rows.Keys;
      while left != {}
        invariant left <= rows.Keys && rows == old(rows)
        invariant forall p :: p in all <==> p in rows && p !in left
        invariant forall i, j | 0 <= i < j < |all| :: all[i] != all[j]
        decreases left
      {
        var p :| p in left;
        all := all + [p];
        left := left - {p};
      }
    }
  }

  ghost predicate Lists(all: seq<Path>, paths: set<Path>) {
    (forall p :: p in all <==> p in paths) && forall i, j | 0 <= i < j < |all| :: all[i] != all[j]
  }

  class Remote {
    var service: Service
    var clock: nat
    const env: Env

    constructor (env: Env)
      ensures service == EMPTY_SERVICE && clock == 0 && this.env == env
    {
      service := EMPTY_SERVICE;
      clock := 0;
      this.env := env;
    }

    ghost function Now(): World
      reads this
    {
      World(service, clock)
    }

    /** The workers' share of the time before the next request. */
    method RunWorkers()
      modifies this`service
      ensures service == Worked(old(service), env.work(clock))
    {
      hide WorkStep;
      var ws := env.work(clock);
      assert ws[..0] == [];
      for i := 0 to |ws|
        invariant service == Worked(old(service), ws[..i])
      {
        WorkedSnoc(old(service), ws, i);
        service := WorkStep(service, ws[i]);
      }
      assert ws[..|ws|] == ws;
    }

    method Index(k: Key, c: Chunk) returns (s: Status)
      modifies this
      ensures Now() == Indexing(env, old(Now()), k, c)
      ensures s == IndexStatus(env.replies(old(clock)).fate, env.accepts(c))
    {
      RunWorkers();
      var reply := env.replies(clock);
      if env.accepts(c) && TakesEffect(reply, c) {
        service := Take(service, reply.found, k, c);
      }
      clock := clock + 1;
      s := IndexStatus(reply.fate, env.accepts(c));
    }

    method Delete(k: Key) returns (s: Status)
      modifies this
      ensures Now() == Deleting(env, old(Now()), k)
      ensures s == DeleteStatus(env.replies(old(clock)).fate)
    {
      RunWorkers();
      var reply := env.replies(clock);
      match reply.fate {
        case Served => service := service.(copies := service.copies[k := {}], lost := service.lost[k := {}]);
        case Busy =>
        case Broken => service := service.(copies := service.copies[k := Stored(service, k) * reply.part]);
        case Crash => service := service.(copies := service.copies[k := Stored(service, k) * reply.part]);
      }
      clock := clock + 1;
      s := DeleteStatus(reply.fate);
    }
  }

  lemma WorkedSnoc(s: Service, ws: seq<Work>, i: nat)
    requires i < |ws|
    ensures Worked(s, ws[..i + 1]) == WorkStep(Worked(s, ws[..i]), ws[i])
  {
    assert ws[..i + 1][..i] == ws[..i];
  }

  /** Twelve attempts at most, a growing pause between them. */
  method PublishChunk(remote: Remote, k: Key, c: Chunk) returns (p: Published, slept: nat)
    modifies remote
    ensures (remote.Now(), p) == Publishing(remote.env, old(remote.Now()), k, c, 1)
    ensures 1 <= remote.clock - old(remote.clock) <= RETRY_MAX_ATTEMPTS
    ensures slept == SleptBefore(remote.clock - old(remote.clock))
  {
    hide SleptBefore, DelayAt, Indexing;
    var delay := RETRY_INITIAL_DELAY;
    slept := 0;
    StartOfRetries();
    var attempt := 1;
    while true
      invariant 1 <= attempt <= RETRY_MAX_ATTEMPTS
      invariant remote.clock == old(remote.clock) + attempt - 1
      invariant Publishing(remote.env, remote.Now(), k, c, attempt) ==
                  Publishing(remote.env, old(remote.Now()), k, c, 1)
      invariant delay == DelayAt(attempt) && slept == SleptBefore(attempt)
      decreases RETRY_MAX_ATTEMPTS - attempt
    {
      ghost var before := remote.Now();
      var s := remote.Index(k, c);
      ClockTicks(remote.env, before, k, c);
      match s
      case Ok => return Accepted, slept;
      case Refused => return TooLarge, slept;
      case QueueFull =>
        if attempt == RETRY_MAX_ATTEMPTS { return Error, slept; }
        NextRetry(attempt);
        slept := slept + delay;
        delay := Backoff(delay);
        attempt := attempt + 1;
      case Failed => return Error, slept;
      case Died => return Dead, slept;
    }
  }

  lemma ClockTicks(env: Env, w: World, k: Key, c: Chunk)
    ensures Indexing(env, w, k, c).clock == w.clock + 1
  {
  }

  lemma StartOfRetries()
    ensures DelayAt(1) == RETRY_INITIAL_DELAY && SleptBefore(1) == 0
  {
  }

  lemma NextRetry(attempt: nat)
    requires attempt >= 1
    ensures DelayAt(attempt + 1) == Backoff(DelayAt(attempt))
    ensures SleptBefore(attempt + 1) == SleptBefore(attempt) + DelayAt(attempt)
  {
  }
}
