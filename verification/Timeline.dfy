/**
 The newest-first timeline: three sources paged below one keyset, merged, cut
 to `limit` and continued by the key of the last row shown.
 */
module Timeline {
  import opened Options
  import opened Sorting

  datatype Key = Key(ts: int, id: nat)
  datatype Row = Row(key: Key, body: string)
  type Table = seq<Row>

  datatype Kind = Fact | Event | Knowledge

  /** What each source held, as its own page query saw it. */
  datatype Fetch = Fetch(facts: Table, events: Table, knowledge: Table)

  const MAX_SOURCE_PAGE: nat := 500
  const DEFAULT_LIMIT: nat := 50

  predicate Newer(a: Key, b: Key) {
    a.ts > b.ts || (a.ts == b.ts && a.id > b.id)
  }

  predicate NewestFirst(a: Row, b: Row) {
    !Newer(b.key, a.key)
  }

  predicate Below(keyset: Option<Key>, k: Key) {
    keyset.None? || Newer(keyset.value, k)
  }

  lemma NewestFirstIsTotal()
    ensures TotalPreorder(NewestFirst)
  {
  }

  // ----- one source -----

  function Past(table: Table, keyset: Option<Key>): (r: seq<Row>)
    ensures forall x :: x in r <==> x in table && Below(keyset, x.key)
    ensures |r| <= |table|
  {
    if table == [] then []
    else if Below(keyset, table[0].key) then [table[0]] + Past(table[1..], keyset)
    else Past(table[1..], keyset)
  }

  function Clamp(limit: nat): nat {
    if limit < 1 then 1 else if limit > MAX_SOURCE_PAGE then MAX_SOURCE_PAGE else limit
  }

  /** `WHERE (created_at, id) < keyset ORDER BY created_at DESC, id DESC LIMIT clamp(limit)`. */
  function SourcePage(table: Table, limit: nat, keyset: Option<Key>): seq<Row> {
    var rows := StableSort(Past(table, keyset), NewestFirst);
    if |rows| <= Clamp(limit) then rows else rows[..Clamp(limit)]
  }

  /** A source hands back a cursor exactly when its page is full. */
  predicate Full(page: seq<Row>, limit: nat) {
    |page| == Clamp(limit)
  }

  // ----- which sources a request reads -----

  function Source(f: Fetch, kind: Kind): Table {
    match kind
    case Fact => f.facts
    case Event => f.events
    case Knowledge => f.knowledge
  }

  /** An empty selection wants every kind. */
  predicate Wanted(kind: Kind, kinds: set<Kind>) {
    kinds == {} || kind in kinds
  }

  ghost predicate InWanted(f: Fetch, kinds: set<Kind>, r: Row) {
    exists kind :: Wanted(kind, kinds) && r in Source(f, kind)
  }

  /** Ids are unique across the store: no two rows of the wanted sources share a key. */
  ghost predicate KeyedSources(f: Fetch, kinds: set<Kind>) {
    && (forall kind | Wanted(kind, kinds) :: Keyed(Source(f, kind)))
    && (forall k, l, a, b | k != l && Wanted(k, kinds) && Wanted(l, kinds) && a in Source(f, k) && b in Source(f, l) ::
          a.key != b.key)
  }

  // ----- the merge -----

  function WantedTables(f: Fetch, kinds: set<Kind>): seq<Table> {
    (if kinds == {} || Fact in kinds then [f.facts] else []) +
    (if kinds == {} || Event in kinds then [f.events] else []) +
    (if kinds == {} || Knowledge in kinds then [f.knowledge] else [])
  }

  function Candidates(tables: seq<Table>, limit: nat, keyset: Option<Key>): seq<Row> {
    if tables == [] then []
    else Candidates(tables[..|tables| - 1], limit, keyset) + SourcePage(tables[|tables| - 1], limit, keyset)
  }

  predicate AnyFull(tables: seq<Table>, limit: nat, keyset: Option<Key>) {
    && tables != []
    && (|| AnyFull(tables[..|tables| - 1], limit, keyset)
        || Full(SourcePage(tables[|tables| - 1], limit, keyset), limit))
  }

  datatype Merged = Merged(rows: seq<Row>, next: Option<Key>)

  function MergedPage(cands: seq<Row>, limit: nat, anySaturated: bool): Merged {
    var sorted := StableSort(cands, NewestFirst);
    var emit := if |cands| <= limit then |cands| else limit;
    Merged(sorted[..emit],
           if (|cands| > limit || anySaturated) && emit == limit && emit > 0
           then Some(sorted[emit - 1].key) else None)
  }

  /** Sort, cut, and hand back the last key if there may be more: the page is newest first, and whatever is left
      out is older than the key that continues the walk. */
  method TakeMergedPage(cands: seq<Row>, limit: nat, anySaturated: bool)
    returns (out: seq<Row>, next: Option<Key>)
    ensures Merged(out, next) == MergedPage(cands, limit, anySaturated)
    ensures Keyed(cands) && limit >= 1 ==> ContinuesTheWalk(cands, limit, anySaturated, Merged(out, next))
  {
    var rows := StableSort(cands, NewestFirst);
    var truncated := |rows| > limit;
    var emit := if limit <= |rows| then limit else |rows|;
    next := None;
    if (truncated || anySaturated) && emit == limit && emit > 0 {
      next := Some(rows[emit - 1].key);
    }
    out := rows[..emit];
    if Keyed(cands) && limit >= 1 { MergeFacts(cands, limit, anySaturated); }
  }

  function EffectiveLimit(limit: nat): nat {
    if limit == 0 then DEFAULT_LIMIT else limit
  }

  /** One request of the timeline. */
  function Page(f: Fetch, kinds: set<Kind>, limit: nat, keyset: Option<Key>): Merged {
    var tables := WantedTables(f, kinds);
    MergedPage(Candidates(tables, limit, keyset), limit, AnyFull(tables, limit, keyset))
  }

  /** What reading one more source adds to the candidates and to `saturated`. */
  lemma OneMoreSource(done: seq<Table>, t: Table, limit: nat, keyset: Option<Key>)
    ensures Candidates(done + [t], limit, keyset) == Candidates(done, limit, keyset) + SourcePage(t, limit, keyset)
    ensures AnyFull(done + [t], limit, keyset) <==>
            AnyFull(done, limit, keyset) || Full(SourcePage(t, limit, keyset), limit)
  {
    assert (done + [t])[..|done|] == done;
  }

  method ListMemories(f: Fetch, kinds: set<Kind>, requested: nat, keyset: Option<Key>)
    returns (rows: seq<Row>, next: Option<Key>)
    ensures Merged(rows, next) == Page(f, kinds, EffectiveLimit(requested), keyset)
    ensures Serves(f, kinds, if requested == 0 then 50 else requested, keyset, Merged(rows, next))
  {
    hide *;
    var limit := EffectiveLimit(requested);
    var candidates, saturated := [], false;
    NothingRead(limit, keyset);
    ghost var facts := Section(kinds == {} || Fact in kinds, f.facts);
    ghost var events := Section(kinds == {} || Event in kinds, f.events);
    assert [] + facts == facts;
    candidates, saturated :=
      ReadSource([], kinds == {} || Fact in kinds, f.facts, limit, keyset, candidates, saturated);
    candidates, saturated :=
      ReadSource(facts, kinds == {} || Event in kinds, f.events, limit, keyset, candidates, saturated);
    candidates, saturated :=
      ReadSource(facts + events, kinds == {} || Knowledge in kinds, f.knowledge, limit, keyset, candidates, saturated);
    rows, next := TakeMergedPage(candidates, limit, saturated);
    PageOfSections(f, kinds, limit, keyset);
    RequestIsServed(f, kinds, requested, keyset);
  }

  function Section(wanted: bool, t: Table): seq<Table> {
    if wanted then [t] else []
  }

  lemma NothingRead(limit: nat, keyset: Option<Key>)
    ensures Candidates([], limit, keyset) == [] && !AnyFull([], limit, keyset)
  {
  }

  lemma PageOfSections(f: Fetch, kinds: set<Kind>, limit: nat, keyset: Option<Key>)
    ensures var tables :=
              Section(kinds == {} || Fact in kinds, f.facts) + Section(kinds == {} || Event in kinds, f.events)
              + Section(kinds == {} || Knowledge in kinds, f.knowledge);
            Page(f, kinds, limit, keyset) ==
            MergedPage(Candidates(tables, limit, keyset), limit, AnyFull(tables, limit, keyset))
  {
    hide MergedPage, Candidates, AnyFull;
  }

  /** One source section of the request: if its kind is wanted, push its page and note whether it was full. */
  method ReadSource(ghost done: seq<Table>, wanted: bool, t: Table, limit: nat, keyset: Option<Key>,
                    before: seq<Row>, was: bool)
    returns (candidates: seq<Row>, saturated: bool)
    requires before == Candidates(done, limit, keyset) && was == AnyFull(done, limit, keyset)
    ensures candidates == Candidates(done + Section(wanted, t), limit, keyset)
    ensures saturated == AnyFull(done + Section(wanted, t), limit, keyset)
  {
    candidates, saturated := before, was;
    if wanted {
      var page := SourcePage(t, limit, keyset);
      saturated := was || Full(page, limit);
      candidates := before + page;
      OneMoreSource(done, t, limit, keyset);
    } else {
      assert done + [] == done;
    }
  }

  // ----- what one page guarantees -----

  /** No key twice: the rows are distinct and a key names one row. */
  ghost predicate Keyed(s: seq<Row>) {
    && Distinct(s)
    && forall a, b | a in s && b in s && a.key == b.key :: a == b
  }

  ghost predicate StrictlyNewestFirst(s: seq<Row>) {
    forall i, j | 0 <= i < j < |s| ::
      s[i].key.ts > s[j].key.ts || (s[i].key.ts == s[j].key.ts && s[i].key.id > s[j].key.id)
  }

  ghost predicate AllBelow(s: seq<Row>, keyset: Option<Key>) {
    forall x | x in s :: Below(keyset, x.key)
  }

  /** Ids are unique across the store, so no two rows of a request share a key. */
  ghost predicate KeyedTables(tables: seq<Table>) {
    && (forall i | 0 <= i < |tables| :: Keyed(tables[i]))
    && (forall i, j, a, b | 0 <= i < j < |tables| && a in tables[i] && b in tables[j] :: a.key != b.key)
  }

  lemma KeyedPermutation(s: seq<Row>, t: seq<Row>)
    requires multiset(s) == multiset(t) && Keyed(s)
    ensures Keyed(t)
  {
    PermutationDistinct(s, t);
    SameMembers(s, t);
  }

  lemma KeyedSortIsStrict(s: seq<Row>)
    requires Keyed(s)
    ensures StrictlyNewestFirst(StableSort(s, NewestFirst))
    ensures Keyed(StableSort(s, NewestFirst))
  {
    var t := StableSort(s, NewestFirst);
    NewestFirstIsTotal();
    StableSortSorted(s, NewestFirst);
    StableSortPermutes(s, NewestFirst);
    KeyedPermutation(s, t);
    forall i, j | 0 <= i < j < |t| ensures Newer(t[i].key, t[j].key) {
      assert NewestFirst(t[i], t[j]);
      assert t[i] != t[j];
      assert t[i] in t && t[j] in t;
    }
  }

  lemma PastIsKeyed(table: Table, keyset: Option<Key>)
    requires Keyed(table)
    ensures Keyed(Past(table, keyset))
  {
    if table != [] {
      assert forall a | a in table[1..] :: a in table;
      PastIsKeyed(table[1..], keyset);
    }
  }

  /** Cutting a strictly ordered list leaves out only rows older than every row kept. */
  lemma CutIsNewest(s: seq<Row>, n: nat)
    requires StrictlyNewestFirst(s) && n <= |s|
    ensures forall r, x | r in s && r !in s[..n] && x in s[..n] :: Newer(x.key, r.key)
  {
    forall r, x | r in s && r !in s[..n] && x in s[..n] ensures Newer(x.key, r.key) {
      var i :| 0 <= i < |s| && s[i] == r;
      var j :| 0 <= j < n && s[..n][j] == x;
      assert forall k | 0 <= k < n :: s[k] == s[..n][k] && s[k] in s[..n];
    }
  }

  lemma KeyedPrefix(s: seq<Row>, n: nat)
    requires Keyed(s) && n <= |s|
    ensures Keyed(s[..n])
  {
    assert forall x | x in s[..n] :: x in s;
  }

  lemma SourcePageFacts(table: Table, limit: nat, keyset: Option<Key>)
    requires Keyed(table)
    ensures var p := SourcePage(table, limit, keyset);
            && Keyed(p) && AllBelow(p, keyset) && (forall x | x in p :: x in table)
            && (forall r | r in table && Below(keyset, r.key) && r !in p ::
                  Full(p, limit) && forall x | x in p :: Newer(x.key, r.key))
  {
    var past := Past(table, keyset);
    var s := StableSort(past, NewestFirst);
    PastIsKeyed(table, keyset);
    KeyedSortIsStrict(past);
    StableSortPermutes(past, NewestFirst);
    SameMembers(past, s);
    var n := if |s| <= Clamp(limit) then |s| else Clamp(limit);
    assert SourcePage(table, limit, keyset) == s[..n];
    KeyedPrefix(s, n);
    CutIsNewest(s, n);
    assert forall x | x in s[..n] :: x in s;
  }

  ghost predicate InTables(tables: seq<Table>, x: Row) {
    exists i | 0 <= i < |tables| :: x in tables[i]
  }

  lemma InTablesSplit(tables: seq<Table>, x: Row)
    requires tables != []
    ensures InTables(tables, x) <==> InTables(tables[..|tables| - 1], x) || x in tables[|tables| - 1]
  {
    var front := tables[..|tables| - 1];
    if InTables(front, x) {
      var i :| 0 <= i < |front| && x in front[i];
      assert x in tables[i];
    }
    if InTables(tables, x) && x !in tables[|tables| - 1] {
      var i :| 0 <= i < |tables| && x in tables[i];
      assert x in front[i];
    }
  }

  lemma KeyedFront(tables: seq<Table>)
    requires KeyedTables(tables) && tables != []
    ensures KeyedTables(tables[..|tables| - 1]) && Keyed(tables[|tables| - 1])
    ensures forall a, b | InTables(tables[..|tables| - 1], a) && b in tables[|tables| - 1] :: a.key != b.key
  {
  }

  lemma KeyedConcat(c: seq<Row>, p: seq<Row>)
    requires Keyed(c) && Keyed(p)
    requires forall a, b | a in c && b in p :: a.key != b.key
    ensures Keyed(c + p)
  {
    var all := c + p;
    assert forall i | 0 <= i < |all| :: if i < |c| then all[i] in c else all[i] in p;
  }

  lemma CandidateFacts(tables: seq<Table>, limit: nat, keyset: Option<Key>)
    requires KeyedTables(tables)
    ensures var c := Candidates(tables, limit, keyset);
            && Keyed(c) && AllBelow(c, keyset)
            && (forall x | x in c :: InTables(tables, x))
            && (AnyFull(tables, limit, keyset) ==> |c| >= Clamp(limit))
  {
    if tables != [] {
      var front, last := tables[..|tables| - 1], tables[|tables| - 1];
      KeyedFront(tables);
      CandidateFacts(front, limit, keyset);
      SourcePageFacts(last, limit, keyset);
      var c, p := Candidates(front, limit, keyset), SourcePage(last, limit, keyset);
      KeyedConcat(c, p);
      forall x | x in c + p ensures InTables(tables, x) {
        InTablesSplit(tables, x);
      }
    }
  }

  lemma PageIsCandidate(tables: seq<Table>, i: nat, limit: nat, keyset: Option<Key>)
    requires i < |tables|
    ensures forall x | x in SourcePage(tables[i], limit, keyset) :: x in Candidates(tables, limit, keyset)
  {
    if i < |tables| - 1 {
      PageIsCandidate(tables[..|tables| - 1], i, limit, keyset);
    }
  }

  lemma FullMeansAnyFull(tables: seq<Table>, i: nat, limit: nat, keyset: Option<Key>)
    requires i < |tables| && Full(SourcePage(tables[i], limit, keyset), limit)
    ensures AnyFull(tables, limit, keyset)
  {
    if i < |tables| - 1 {
      FullMeansAnyFull(tables[..|tables| - 1], i, limit, keyset);
    }
  }

  /** Strictly newest first, only candidates, `next` only on a full page and then its last key, everything left
      out strictly below it, and never missing when a cut-off source leaves a full page. */
  ghost predicate ContinuesTheWalk(c: seq<Row>, limit: nat, full: bool, m: Merged) {
    && StrictlyNewestFirst(m.rows)
    && (forall x | x in m.rows :: x in c)
    && (m.next.Some? ==> |m.rows| == limit >= 1 && m.rows[limit - 1].key == m.next.value)
    && (forall r | r in c :: r in m.rows || (m.next.Some? && Newer(m.next.value, r.key)))
    && (full && |c| >= limit ==> m.next.Some?)
  }

  lemma MergeCuts(s: seq<Row>, m: Merged, limit: nat, full: bool)
    requires StrictlyNewestFirst(s) && limit >= 1
    requires m.rows == s[..if |s| <= limit then |s| else limit]
    requires m.next == if (|s| > limit || full) && |s| >= limit then Some(s[limit - 1].key) else None
    ensures ContinuesTheWalk(s, limit, full, m)
  {
    CutIsNewest(s, |m.rows|);
    assert forall i | 0 <= i < |m.rows| :: m.rows[i] == s[i] && s[i] in s;
    if m.next.Some? {
      assert m.rows[limit - 1] in m.rows;
    } else {
      assert m.rows == s;
    }
  }

  /** The merge on its own: what `rows` and `next` say about the candidates. */
  lemma MergeFacts(c: seq<Row>, limit: nat, full: bool)
    requires Keyed(c) && limit >= 1
    ensures ContinuesTheWalk(c, limit, full, MergedPage(c, limit, full))
  {
    hide StableSort, Keyed, StrictlyNewestFirst;
    var s := StableSort(c, NewestFirst);
    KeyedSortIsStrict(c);
    StableSortPermutes(c, NewestFirst);
    SameMembers(c, s);
    MergeCuts(s, MergedPage(c, limit, full), limit, full);
  }

  /** The page is the newest `limit` rows below the keyset, and `next` says what is left. */
  lemma PageFacts(tables: seq<Table>, limit: nat, keyset: Option<Key>)
    requires KeyedTables(tables) && 1 <= limit <= MAX_SOURCE_PAGE
    ensures var m := MergedPage(Candidates(tables, limit, keyset), limit, AnyFull(tables, limit, keyset));
            && StrictlyNewestFirst(m.rows) && AllBelow(m.rows, keyset)
            && (forall x | x in m.rows :: InTables(tables, x))
            && (m.next.Some? ==> |m.rows| == limit && m.rows[limit - 1].key == m.next.value)
            && (forall r | InTables(tables, r) && Below(keyset, r.key) ::
                  r in m.rows || (m.next.Some? && Below(m.next, r.key)))
  {
    var c, full := Candidates(tables, limit, keyset), AnyFull(tables, limit, keyset);
    CandidateFacts(tables, limit, keyset);
    MergeFacts(c, limit, full);
    var m := MergedPage(c, limit, full);
    forall r | InTables(tables, r) && Below(keyset, r.key)
      ensures r in m.rows || (m.next.Some? && Below(m.next, r.key))
    {
      if r !in c {
        var i :| 0 <= i < |tables| && r in tables[i];
        LeftBehind(tables, i, limit, keyset, r, StableSort(c, NewestFirst));
      }
    }
  }

  /** The wanted kinds in reading order. */
  function WantedKinds(kinds: set<Kind>): seq<Kind> {
    (if Wanted(Fact, kinds) then [Fact] else []) +
    (if Wanted(Event, kinds) then [Event] else []) +
    (if Wanted(Knowledge, kinds) then [Knowledge] else [])
  }

  lemma TablesOfKinds(f: Fetch, kinds: set<Kind>)
    ensures var ks, ts := WantedKinds(kinds), WantedTables(f, kinds);
            && |ts| == |ks| && (forall i | 0 <= i < |ks| :: ts[i] == Source(f, ks[i]))
            && (forall kind :: Wanted(kind, kinds) <==> kind in ks)
            && (forall i, j | 0 <= i < j < |ks| :: ks[i] != ks[j])
  {
    var ks := WantedKinds(kinds);
    forall kind ensures Wanted(kind, kinds) <==> kind in ks {
      match kind
      case Fact =>
      case Event =>
      case Knowledge =>
    }
    var facts := if Wanted(Fact, kinds) then 1 else 0;
    var events := if Wanted(Event, kinds) then 1 else 0;
    assert Wanted(Fact, kinds) ==> ks[0] == Fact;
    assert Wanted(Event, kinds) ==> ks[facts] == Event;
    assert Wanted(Knowledge, kinds) ==> ks[facts + events] == Knowledge;
  }

  /** What a request reads is exactly the wanted sources. */
  lemma ReadsTheWanted(f: Fetch, kinds: set<Kind>)
    ensures forall r :: InTables(WantedTables(f, kinds), r) <==> InWanted(f, kinds, r)
    ensures KeyedSources(f, kinds) ==> KeyedTables(WantedTables(f, kinds))
  {
    hide WantedTables, WantedKinds, Source, Wanted, Keyed;
    TablesOfKinds(f, kinds);
    var ks, ts := WantedKinds(kinds), WantedTables(f, kinds);
    forall r ensures InTables(ts, r) <==> InWanted(f, kinds, r) {
      if InTables(ts, r) {
        var i :| 0 <= i < |ts| && r in ts[i];
        assert ks[i] in ks && Wanted(ks[i], kinds);
      }
      if InWanted(f, kinds, r) {
        var kind :| Wanted(kind, kinds) && r in Source(f, kind);
        var i :| 0 <= i < |ks| && ks[i] == kind;
        assert r in ts[i];
      }
    }
    if KeyedSources(f, kinds) {
      forall i | 0 <= i < |ts| ensures Keyed(ts[i]) { assert ks[i] in ks; }
      forall i, j, a: Row, b: Row | 0 <= i < j < |ts| && a in ts[i] && b in ts[j] ensures a.key != b.key {
        assert ks[i] in ks && ks[j] in ks && ks[i] != ks[j];
      }
    }
  }

  lemma PageIsFromSource(table: Table, limit: nat, keyset: Option<Key>)
    ensures forall x | x in SourcePage(table, limit, keyset) :: x in table && Below(keyset, x.key)
  {
    var past := Past(table, keyset);
    StableSortPermutes(past, NewestFirst);
    SameMembers(past, StableSort(past, NewestFirst));
  }

  lemma {:induction false} CandidatesAreStored(tables: seq<Table>, limit: nat, keyset: Option<Key>)
    ensures forall x | x in Candidates(tables, limit, keyset) :: InTables(tables, x) && Below(keyset, x.key)
  {
    hide SourcePage, InTables;
    if tables != [] {
      CandidatesAreStored(tables[..|tables| - 1], limit, keyset);
      PageIsFromSource(tables[|tables| - 1], limit, keyset);
      forall x | x in Candidates(tables, limit, keyset) ensures InTables(tables, x) { InTablesSplit(tables, x); }
    }
  }

  lemma MergeShowsCandidates(c: seq<Row>, limit: nat, full: bool)
    ensures |MergedPage(c, limit, full).rows| <= limit
    ensures forall x | x in MergedPage(c, limit, full).rows :: x in c
  {
    StableSortPermutes(c, NewestFirst);
    SameMembers(c, StableSort(c, NewestFirst));
    hide StableSort;
  }

  /** Any request shows at most `limit` rows, all of wanted sources and below the keyset. */
  lemma RequestShowsWanted(f: Fetch, kinds: set<Kind>, limit: nat, keyset: Option<Key>)
    ensures var m := Page(f, kinds, limit, keyset);
            |m.rows| <= limit && forall x | x in m.rows :: InWanted(f, kinds, x) && Below(keyset, x.key)
  {
    hide WantedTables, Candidates, AnyFull, MergedPage, InWanted, InTables;
    var tables := WantedTables(f, kinds);
    ReadsTheWanted(f, kinds);
    CandidatesAreStored(tables, limit, keyset);
    MergeShowsCandidates(Candidates(tables, limit, keyset), limit, AnyFull(tables, limit, keyset));
  }

  /** One answered request: newest first, only wanted rows below the keyset, `next` only on a full page and then its
      last key, and every wanted row below the keyset on the page or strictly below `next`. */
  ghost predicate AnswersRequest(f: Fetch, kinds: set<Kind>, limit: nat, keyset: Option<Key>, m: Merged) {
    && StrictlyNewestFirst(m.rows) && AllBelow(m.rows, keyset)
    && (forall x | x in m.rows :: InWanted(f, kinds, x))
    && (m.next.Some? ==> |m.rows| == limit >= 1 && m.rows[limit - 1].key == m.next.value)
    && (forall r | InWanted(f, kinds, r) && Below(keyset, r.key) ::
          r in m.rows || (m.next.Some? && Below(m.next, r.key)))
  }

  /** At most `limit` rows, all wanted and below the keyset; up to the sources' own bound, a complete answer. */
  ghost predicate Serves(f: Fetch, kinds: set<Kind>, limit: nat, keyset: Option<Key>, m: Merged) {
    && |m.rows| <= limit && (forall x | x in m.rows :: InWanted(f, kinds, x) && Below(keyset, x.key))
    && (KeyedSources(f, kinds) && limit <= 500 ==> AnswersRequest(f, kinds, limit, keyset, m))
  }

  lemma RequestIsServed(f: Fetch, kinds: set<Kind>, requested: nat, keyset: Option<Key>)
    ensures Serves(f, kinds, if requested == 0 then 50 else requested, keyset,
                   Page(f, kinds, EffectiveLimit(requested), keyset))
  {
    hide AnswersRequest, KeyedSources, InWanted, Page;
    RequestShowsWanted(f, kinds, EffectiveLimit(requested), keyset);
    if KeyedSources(f, kinds) && EffectiveLimit(requested) <= MAX_SOURCE_PAGE {
      RequestFacts(f, kinds, EffectiveLimit(requested), keyset);
    }
  }

  lemma RequestFacts(f: Fetch, kinds: set<Kind>, limit: nat, keyset: Option<Key>)
    requires KeyedSources(f, kinds) && 1 <= limit <= MAX_SOURCE_PAGE
    ensures AnswersRequest(f, kinds, limit, keyset, Page(f, kinds, limit, keyset))
  {
    hide Candidates, MergedPage, AnyFull, WantedTables, KeyedSources, KeyedTables, InWanted, InTables;
    hide StrictlyNewestFirst;
    ReadsTheWanted(f, kinds);
    PageFacts(WantedTables(f, kinds), limit, keyset);
  }

  /** A row its own source cut off is older than the last row of the merged page. */
  lemma LeftBehind(tables: seq<Table>, i: nat, limit: nat, keyset: Option<Key>, r: Row, s: seq<Row>)
    requires KeyedTables(tables) && 1 <= limit <= MAX_SOURCE_PAGE && i < |tables|
    requires r in tables[i] && Below(keyset, r.key)
    requires r !in Candidates(tables, limit, keyset)
    requires s == StableSort(Candidates(tables, limit, keyset), NewestFirst)
    ensures |s| >= limit && AnyFull(tables, limit, keyset) && Newer(s[limit - 1].key, r.key)
  {
    var c, p := Candidates(tables, limit, keyset), SourcePage(tables[i], limit, keyset);
    PageIsCandidate(tables, i, limit, keyset);
    SourcePageFacts(tables[i], limit, keyset);
    FullMeansAnyFull(tables, i, limit, keyset);
    CandidateFacts(tables, limit, keyset);
    KeyedSortIsStrict(c);
    StableSortPermutes(c, NewestFirst);
    SameMembers(c, s);
    NewerThanManyIsPast(s, p, limit, r);
  }

  lemma NewerThanManyIsPast(s: seq<Row>, p: seq<Row>, limit: nat, r: Row)
    requires StrictlyNewestFirst(s) && Distinct(p) && |p| == limit >= 1
    requires forall x | x in p :: x in s && Newer(x.key, r.key)
    ensures |s| >= limit && Newer(s[limit - 1].key, r.key)
  {
    Pigeonhole(p, s);
    if !Newer(s[limit - 1].key, r.key) {
      forall x | x in p ensures x in s[..limit - 1] {
        var j :| 0 <= j < |s| && s[j] == x;
        assert j < limit - 1;
        assert s[..limit - 1][j] == x;
      }
      Pigeonhole(p, s[..limit - 1]);
      assert false;
    }
  }
}
