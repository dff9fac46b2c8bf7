/**
 Whole walks over the timeline: a client follows `next` from page to page while
 rows come and go between the single source reads.
 */
module Walks {
  import opened Options
  import opened Sorting
  import opened Timeline

  /** The pages shown, and whether the walk reached a page without `next`. */
  datatype Walk = Walk(pages: seq<seq<Row>>, finished: bool)

  /** One fetch per request; what the sources hold may differ in every fetch. */
  function RunWalk(fetches: seq<Fetch>, kinds: set<Kind>, limit: nat, keyset: Option<Key>): Walk {
    if fetches == [] then Walk([], false)
    else
      var m := Page(fetches[0], kinds, limit, keyset);
      if m.next.None? then Walk([m.rows], true)
      else
        var rest := RunWalk(fetches[1..], kinds, limit, m.next);
        Walk([m.rows] + rest.pages, rest.finished)
  }

  /** Row ids are unique in every fetch. Nothing relates one fetch to the next. */
  ghost predicate KeyedFetches(fetches: seq<Fetch>, kinds: set<Kind>) {
    forall i | 0 <= i < |fetches| :: KeyedSources(fetches[i], kinds)
  }

  ghost predicate Holds(t: Table, k: Key) {
    exists r | r in t :: r.key == k
  }

  function Keys(rows: seq<Row>): seq<Key> {
    seq(|rows|, i requires 0 <= i < |rows| => rows[i].key)
  }

  lemma WalkUnfolds(fetches: seq<Fetch>, kinds: set<Kind>, limit: nat, keyset: Option<Key>)
    ensures fetches == [] ==> RunWalk(fetches, kinds, limit, keyset).pages == []
    ensures fetches != [] ==>
              var m := Page(fetches[0], kinds, limit, keyset);
              RunWalk(fetches, kinds, limit, keyset).pages ==
              [m.rows] + if m.next.None? then [] else RunWalk(fetches[1..], kinds, limit, m.next).pages
  {
    hide Page;
  }

  /** Emitted keys strictly decrease over the whole walk, so nothing is shown twice. */
  lemma {:induction false} WalkIsStrictlyNewestFirst(fetches: seq<Fetch>, kinds: set<Kind>, limit: nat,
                                                     keyset: Option<Key>)
    requires KeyedFetches(fetches, kinds) && 1 <= limit <= MAX_SOURCE_PAGE
    ensures var shown := Flatten(RunWalk(fetches, kinds, limit, keyset).pages);
            StrictlyNewestFirst(shown) && AllBelow(shown, keyset)
  {
    hide Page, KeyedSources, InWanted, RunWalk, StrictlyNewestFirst;
    WalkUnfolds(fetches, kinds, limit, keyset);
    if fetches == [] {
      NothingShown(keyset);
    } else {
      var m := Page(fetches[0], kinds, limit, keyset);
      RequestFacts(fetches[0], kinds, limit, keyset);
      if m.next.None? {
        assert Flatten([m.rows]) == m.rows + Flatten([]) == m.rows;
      } else {
        var rest := RunWalk(fetches[1..], kinds, limit, m.next).pages;
        WalkIsStrictlyNewestFirst(fetches[1..], kinds, limit, m.next);
        assert m.rows[limit - 1] in m.rows;
        OlderTail(m.rows, Flatten(rest), m.next.value);
        assert ([m.rows] + rest)[1..] == rest;
        assert Flatten([m.rows] + rest) == m.rows + Flatten(rest);
        OlderIsBelow(m.next.value, keyset, Flatten(rest));
      }
    }
  }

  lemma NothingShown(keyset: Option<Key>)
    ensures var shown: seq<Row> := Flatten([]); StrictlyNewestFirst(shown) && AllBelow(shown, keyset)
  {
  }

  lemma OlderIsBelow(k: Key, keyset: Option<Key>, rows: seq<Row>)
    requires Below(keyset, k) && AllBelow(rows, Some(k))
    ensures AllBelow(rows, keyset)
  {
  }

  lemma OlderTail(a: seq<Row>, b: seq<Row>, k: Key)
    requires StrictlyNewestFirst(a) && StrictlyNewestFirst(b)
    requires a != [] && a[|a| - 1].key == k && AllBelow(b, Some(k))
    ensures StrictlyNewestFirst(a + b)
  {
    var s := a + b;
    forall i, j | 0 <= i < j < |s| ensures Newer(s[i].key, s[j].key) {
      if i < |a| <= j {
        assert s[j] in b;
        assert i < |a| - 1 ==> Newer(a[i].key, k);
      }
    }
  }

  /** Every row shown was in one of the fetches of this walk. */
  lemma {:induction false} WalkShowsOnlyStoredRows(fetches: seq<Fetch>, kinds: set<Kind>, limit: nat,
                                                   keyset: Option<Key>)
    requires KeyedFetches(fetches, kinds) && 1 <= limit <= MAX_SOURCE_PAGE
    ensures var w := RunWalk(fetches, kinds, limit, keyset);
            && |w.pages| <= |fetches|
            && forall p, x | 0 <= p < |w.pages| && x in w.pages[p] :: InWanted(fetches[p], kinds, x)
  {
    hide Page;
    hide WantedTables;
    if fetches != [] {
      var m := Page(fetches[0], kinds, limit, keyset);
      RequestFacts(fetches[0], kinds, limit, keyset);
      if m.next.Some? {
        WalkShowsOnlyStoredRows(fetches[1..], kinds, limit, m.next);
        var w, rest := RunWalk(fetches, kinds, limit, keyset), RunWalk(fetches[1..], kinds, limit, m.next);
        forall p, x | 0 <= p < |w.pages| && x in w.pages[p]
          ensures InWanted(fetches[p], kinds, x)
        {
          if p > 0 {
            assert w.pages[p] == rest.pages[p - 1] && fetches[p] == fetches[1..][p - 1];
          }
        }
      }
    }
  }

  lemma StrictMeansOnce(s: seq<Row>, k: Key)
    requires StrictlyNewestFirst(s) && Holds(s, k)
    ensures multiset(Keys(s))[k] == 1
  {
    var i :| 0 <= i < |s| && s[i].key == k;
    var ks := Keys(s);
    assert ks[i] == k;
    assert Distinct(ks);
    DistinctCount(ks, k);
  }

  /**
   Whatever is inserted or deleted between the reads: a key some wanted source
   held at every read of a finished walk is shown exactly once.
   */
  lemma WalkShowsStableRowsOnce(fetches: seq<Fetch>, kinds: set<Kind>, limit: nat, keyset: Option<Key>, kind: Kind,
                                k: Key)
    requires KeyedFetches(fetches, kinds) && 1 <= limit <= MAX_SOURCE_PAGE
    requires RunWalk(fetches, kinds, limit, keyset).finished
    requires Wanted(kind, kinds) && Below(keyset, k)
    requires forall i | 0 <= i < |fetches| :: Holds(Source(fetches[i], kind), k)
    ensures multiset(Keys(Flatten(RunWalk(fetches, kinds, limit, keyset).pages)))[k] == 1
  {
    WalkIsStrictlyNewestFirst(fetches, kinds, limit, keyset);
    WalkShowsStableRow(fetches, kinds, limit, keyset, kind, k);
    StrictMeansOnce(Flatten(RunWalk(fetches, kinds, limit, keyset).pages), k);
  }

  lemma {:induction false} WalkShowsStableRow(fetches: seq<Fetch>, kinds: set<Kind>, limit: nat, keyset: Option<Key>,
                                              kind: Kind, k: Key)
    requires KeyedFetches(fetches, kinds) && 1 <= limit <= MAX_SOURCE_PAGE
    requires RunWalk(fetches, kinds, limit, keyset).finished
    requires Wanted(kind, kinds) && Below(keyset, k)
    requires forall i | 0 <= i < |fetches| :: Holds(Source(fetches[i], kind), k)
    ensures Holds(Flatten(RunWalk(fetches, kinds, limit, keyset).pages), k)
  {
    hide Page, StrictlyNewestFirst, KeyedSources;
    var w := RunWalk(fetches, kinds, limit, keyset);
    var m := Page(fetches[0], kinds, limit, keyset);
    assert Holds(Source(fetches[0], kind), k);
    var r :| r in Source(fetches[0], kind) && r.key == k;
    assert InWanted(fetches[0], kinds, r);
    RequestFacts(fetches[0], kinds, limit, keyset);
    assert w.pages[0] == m.rows;
    assert Flatten(w.pages) == m.rows + Flatten(w.pages[1..]);
    if r in m.rows {
      assert r in Flatten(w.pages);
    } else {
      var rest := RunWalk(fetches[1..], kinds, limit, m.next);
      assert w.pages[1..] == rest.pages;
      WalkShowsStableRow(fetches[1..], kinds, limit, m.next, kind, k);
      var x :| x in Flatten(rest.pages) && x.key == k;
      assert x in Flatten(w.pages);
    }
  }

  // ----- a table that does not change -----

  function Repeat(f: Fetch, n: nat): (r: seq<Fetch>)
    ensures |r| == n && forall i | 0 <= i < n :: r[i] == f
  {
    seq(n, _ => f)
  }

  /** All rows a walk from `keyset` may show. */
  function Matching(f: Fetch, kinds: set<Kind>, keyset: Option<Key>): seq<Row> {
    Past(Flatten(WantedTables(f, kinds)), keyset)
  }

  lemma FlattenMembers<T>(ss: seq<seq<T>>, x: T)
    ensures x in Flatten(ss) <==> exists i | 0 <= i < |ss| :: x in ss[i]
  {
    if ss != [] {
      var rest := ss[1..];
      FlattenMembers(rest, x);
      assert forall i | 0 <= i < |rest| :: rest[i] == ss[i + 1];
      if x in Flatten(rest) {
        var i :| 0 <= i < |rest| && x in rest[i];
        assert x in ss[i + 1];
      }
      if i :| 0 <= i < |ss| && x in ss[i] && x !in ss[0] {
        assert x in rest[i - 1];
      }
    }
  }

  lemma KeyedUnion(tables: seq<Table>)
    requires KeyedTables(tables)
    ensures Keyed(Flatten(tables))
  {
    if tables != [] {
      var rest := tables[1..];
      assert KeyedTables(rest) by {
        assert forall i | 0 <= i < |rest| :: rest[i] == tables[i + 1];
      }
      KeyedUnion(rest);
      forall a, b | a in tables[0] && b in Flatten(rest) ensures a.key != b.key {
        FlattenMembers(rest, b);
        var i :| 0 <= i < |rest| && b in rest[i];
        assert b in tables[i + 1];
      }
      KeyedConcat(tables[0], Flatten(rest));
    }
  }

  lemma MatchingFacts(f: Fetch, kinds: set<Kind>, keyset: Option<Key>)
    requires KeyedSources(f, kinds)
    ensures Keyed(Matching(f, kinds, keyset))
    ensures forall x :: x in Matching(f, kinds, keyset) <==> InWanted(f, kinds, x) && Below(keyset, x.key)
  {
    var ts := WantedTables(f, kinds);
    ReadsTheWanted(f, kinds);
    KeyedUnion(ts);
    forall x ensures x in Flatten(ts) <==> InTables(ts, x) { FlattenMembers(ts, x); }
    PastIsKeyed(Flatten(ts), keyset);
  }

  /** A page with `next` uses up exactly `limit` of the rows that were left. */
  lemma PageProgress(f: Fetch, kinds: set<Kind>, limit: nat, keyset: Option<Key>)
    requires KeyedSources(f, kinds) && 1 <= limit <= MAX_SOURCE_PAGE
    requires Page(f, kinds, limit, keyset).next.Some?
    ensures |Matching(f, kinds, Page(f, kinds, limit, keyset).next)| + limit <= |Matching(f, kinds, keyset)|
  {
    hide Page, Matching, KeyedSources, InWanted, StrictlyNewestFirst;
    var m := Page(f, kinds, limit, keyset);
    RequestFacts(f, kinds, limit, keyset);
    MatchingFacts(f, kinds, keyset);
    MatchingFacts(f, kinds, m.next);
    LastIsOldest(m.rows);
    assert m.rows[limit - 1] in m.rows;
    PageAndRest(m.rows, Matching(f, kinds, m.next), Matching(f, kinds, keyset), m.next.value);
  }

  /** A page and what is below its last key are disjoint parts of what was left. */
  lemma PageAndRest(page: seq<Row>, left: seq<Row>, all: seq<Row>, k: Key)
    requires StrictlyNewestFirst(page) && Distinct(left)
    requires forall x | x in page :: x in all && !Newer(k, x.key)
    requires forall x | x in left :: x in all && Newer(k, x.key)
    ensures |left| + |page| <= |all|
  {
    hide StrictlyNewestFirst;
    PageIsDistinct(page);
    var both := page + left;
    forall i, j | 0 <= i < j < |both| ensures both[i] != both[j] {
      if i < |page| <= j { assert both[i] in page && both[j] in left; }
    }
    Pigeonhole(both, all);
  }

  lemma PageIsDistinct(s: seq<Row>)
    requires StrictlyNewestFirst(s)
    ensures Distinct(s)
  {
  }

  lemma LastIsOldest(s: seq<Row>)
    requires StrictlyNewestFirst(s) && s != []
    ensures forall x | x in s :: !Newer(s[|s| - 1].key, x.key)
  {
  }

  function MaxPages(rows: nat, limit: nat): nat
    requires limit >= 1
  {
    rows / limit + 1
  }

  lemma DivStep(a: nat, b: nat, limit: nat)
    requires limit >= 1 && a + limit <= b
    ensures MaxPages(a, limit) + 1 <= MaxPages(b, limit)
  {
    var qa, qb := a / limit, b / limit;
    assert limit * qa <= a && b < limit * (qb + 1);
    assert limit * (qa + 1) < limit * (qb + 1);
    if qa + 1 > qb {
      MulMonotone(limit, qb + 1, qa + 1);
    }
  }

  lemma FixedWalkStep(f: Fetch, kinds: set<Kind>, limit: nat, keyset: Option<Key>, n: nat)
    requires n >= 1
    ensures var m := Page(f, kinds, limit, keyset);
            RunWalk(Repeat(f, n), kinds, limit, keyset) ==
            if m.next.None? then Walk([m.rows], true)
            else
              var rest := RunWalk(Repeat(f, n - 1), kinds, limit, m.next);
              Walk([m.rows] + rest.pages, rest.finished)
  {
    hide Page;
    assert Repeat(f, n)[1..] == Repeat(f, n - 1);
  }

  ghost predicate ShortOnlyAtTheEnd(pages: seq<seq<Row>>, limit: nat) {
    forall p | 0 <= p < |pages| - 1 :: |pages[p]| == limit
  }

  lemma {:induction false} FixedWalkSteps(f: Fetch, kinds: set<Kind>, limit: nat, keyset: Option<Key>, n: nat)
    requires KeyedSources(f, kinds) && 1 <= limit <= MAX_SOURCE_PAGE
    requires n >= MaxPages(|Matching(f, kinds, keyset)|, limit)
    ensures var w := RunWalk(Repeat(f, n), kinds, limit, keyset);
            && w.finished
            && 1 <= |w.pages| <= MaxPages(|Matching(f, kinds, keyset)|, limit)
            && ShortOnlyAtTheEnd(w.pages, limit)
    decreases n
  {
    hide *;
    AtLeastOnePage(|Matching(f, kinds, keyset)|, limit);
    var m := Page(f, kinds, limit, keyset);
    FixedWalkStep(f, kinds, limit, keyset, n);
    if m.next.Some? {
      PageProgress(f, kinds, limit, keyset);
      DivStep(|Matching(f, kinds, m.next)|, |Matching(f, kinds, keyset)|, limit);
      FixedWalkSteps(f, kinds, limit, m.next, n - 1);
      PageIsFull(f, kinds, limit, keyset);
      ShortAfterFull(m.rows, RunWalk(Repeat(f, n - 1), kinds, limit, m.next).pages, limit);
    } else {
      OnePageIsShortAtTheEnd(m.rows, limit);
    }
  }

  /** The walk over N fixed rows ends within N/limit + 1 pages, and only its last page may be short. */
  lemma FixedWalkEnds(f: Fetch, kinds: set<Kind>, limit: nat, keyset: Option<Key>, n: nat)
    requires KeyedSources(f, kinds) && 1 <= limit <= MAX_SOURCE_PAGE
    requires n > |Matching(f, kinds, keyset)| / limit
    ensures var w := RunWalk(Repeat(f, n), kinds, limit, keyset);
            && w.finished
            && 1 <= |w.pages| <= |Matching(f, kinds, keyset)| / limit + 1
            && ShortOnlyAtTheEnd(w.pages, limit)
  {
    hide RunWalk, Matching, Repeat, ShortOnlyAtTheEnd, KeyedSources;
    FixedWalkSteps(f, kinds, limit, keyset, n);
  }

  lemma AtLeastOnePage(rows: nat, limit: nat)
    requires limit >= 1
    ensures MaxPages(rows, limit) >= 1
  {
  }

  lemma OnePageIsShortAtTheEnd(page: seq<Row>, limit: nat)
    ensures ShortOnlyAtTheEnd([page], limit)
  {
  }

  lemma PageIsFull(f: Fetch, kinds: set<Kind>, limit: nat, keyset: Option<Key>)
    requires KeyedSources(f, kinds) && 1 <= limit <= MAX_SOURCE_PAGE
    requires Page(f, kinds, limit, keyset).next.Some?
    ensures |Page(f, kinds, limit, keyset).rows| == limit
  {
    RequestFacts(f, kinds, limit, keyset);
  }

  lemma ShortAfterFull(page: seq<Row>, rest: seq<seq<Row>>, limit: nat)
    requires |page| == limit && ShortOnlyAtTheEnd(rest, limit)
    ensures ShortOnlyAtTheEnd([page] + rest, limit)
  {
    var pages := [page] + rest;
    forall p | 0 <= p < |pages| - 1 ensures |pages[p]| == limit {
      assert p > 0 ==> pages[p] == rest[p - 1];
    }
  }

  lemma MulMonotone(m: nat, x: nat, y: nat)
    requires x <= y
    ensures m * x <= m * y
  {
  }

  /** On a fixed table the pages, end to end, are the sorted union of the sources. */
  lemma FixedWalkIsTheSortedUnion(f: Fetch, kinds: set<Kind>, limit: nat, keyset: Option<Key>, n: nat)
    requires KeyedSources(f, kinds) && 1 <= limit <= MAX_SOURCE_PAGE
    requires n > |Matching(f, kinds, keyset)| / limit
    ensures Flatten(RunWalk(Repeat(f, n), kinds, limit, keyset).pages)
         == StableSort(Matching(f, kinds, keyset), NewestFirst)
    ensures var shown := Flatten(RunWalk(Repeat(f, n), kinds, limit, keyset).pages);
            && StrictlyNewestFirst(shown)
            && forall x :: x in shown <==> InWanted(f, kinds, x) && Below(keyset, x.key)
  {
    hide RunWalk, Matching, Insert, StableSort;
    var w := RunWalk(Repeat(f, n), kinds, limit, keyset);
    var shown, all := Flatten(w.pages), Matching(f, kinds, keyset);
    FixedWalkEnds(f, kinds, limit, keyset, n);
    WalkIsStrictlyNewestFirst(Repeat(f, n), kinds, limit, keyset);
    FixedWalkMembers(f, kinds, limit, keyset, n);
    MatchingFacts(f, kinds, keyset);
    KeyedSortIsStrict(all);
    StableSortPermutes(all, NewestFirst);
    SameMembers(all, StableSort(all, NewestFirst));
    StrictListsAgree(shown, StableSort(all, NewestFirst));
  }

  lemma StrictListsAgree(a: seq<Row>, b: seq<Row>)
    requires StrictlyNewestFirst(a) && StrictlyNewestFirst(b)
    requires forall x :: x in a <==> x in b
    ensures a == b
  {
    PageIsDistinct(a);
    PageIsDistinct(b);
    forall x ensures multiset(a)[x] == multiset(b)[x] {
      DistinctCount(a, x);
      DistinctCount(b, x);
    }
    assert multiset(a) == multiset(b);
    SortedUnique(a, b, NewestFirst);
  }

  lemma FixedWalkMembers(f: Fetch, kinds: set<Kind>, limit: nat, keyset: Option<Key>, n: nat)
    requires KeyedSources(f, kinds) && 1 <= limit <= MAX_SOURCE_PAGE
    requires RunWalk(Repeat(f, n), kinds, limit, keyset).finished
    ensures forall x :: x in Flatten(RunWalk(Repeat(f, n), kinds, limit, keyset).pages)
                   <==> x in Matching(f, kinds, keyset)
    decreases n
  {
    hide Page, WantedTables, Matching, StrictlyNewestFirst;
    var w := RunWalk(Repeat(f, n), kinds, limit, keyset);
    var m := Page(f, kinds, limit, keyset);
    assert Repeat(f, n)[1..] == Repeat(f, n - 1);
    RequestFacts(f, kinds, limit, keyset);
    MatchingFacts(f, kinds, keyset);
    assert w.pages[0] == m.rows && Flatten(w.pages) == m.rows + Flatten(w.pages[1..]);
    if m.next.Some? {
      assert w.pages[1..] == RunWalk(Repeat(f, n - 1), kinds, limit, m.next).pages;
      FixedWalkMembers(f, kinds, limit, m.next, n - 1);
      MatchingFacts(f, kinds, m.next);
      LastIsOldest(m.rows);
      assert forall x | x in m.rows :: x in Matching(f, kinds, keyset);
      assert m.rows[limit - 1] in m.rows;
      assert forall k | Below(m.next, k) :: Below(keyset, k);
    } else {
      assert w.pages[1..] == [];
    }
  }

  // ----- limits the sources do not honour -----

  /** A page without `next` shows every row that was left. */
  ghost predicate EndIsTheEnd(f: Fetch, kinds: set<Kind>, limit: nat, keyset: Option<Key>) {
    Page(f, kinds, limit, keyset).next.None? ==>
      forall r | r in Matching(f, kinds, keyset) :: r in Page(f, kinds, limit, keyset).rows
  }

  /** 501 facts, one per nanosecond. */
  function CrowdedFacts(): Table {
    seq(MAX_SOURCE_PAGE + 1, (i: nat) => Row(Key(i, i), ""))
  }

  lemma PastNothing(t: Table)
    ensures Past(t, None) == t
  {
    if t != [] {
      PastNothing(t[1..]);
      assert t == [t[0]] + t[1..];
    }
  }

  const CROWDED: Fetch := Fetch(CrowdedFacts(), [], [])

  lemma CrowdedIsKeyed()
    ensures WantedTables(CROWDED, {Fact}) == [CrowdedFacts()]
    ensures Keyed(CrowdedFacts()) && KeyedSources(CROWDED, {Fact})
  {
    var t := CrowdedFacts();
    assert forall i | 0 <= i < |t| :: t[i] == Row(Key(i, i), "");
  }

  lemma CrowdedIsLong()
    ensures |CrowdedFacts()| == MAX_SOURCE_PAGE + 1 && Distinct(CrowdedFacts())
  {
  }

  lemma CrowdedMatching()
    ensures Matching(CROWDED, {Fact}, None) == CrowdedFacts()
  {
    var t := CrowdedFacts();
    CrowdedIsKeyed();
    assert Flatten([t]) == t + Flatten([]) == t;
    PastNothing(t);
  }

  lemma CrowdedCandidates(limit: nat)
    requires limit > MAX_SOURCE_PAGE
    ensures |Candidates([CrowdedFacts()], limit, None)| == MAX_SOURCE_PAGE
  {
    var t := CrowdedFacts();
    PastNothing(t);
    assert [t][..0] == [];
    assert |SourcePage(t, limit, None)| == MAX_SOURCE_PAGE by {
      hide CrowdedFacts;
      assert |StableSort(Past(t, None), NewestFirst)| == |t|;
    }
    hide SourcePage;
  }

  lemma ShortMergeEnds(c: seq<Row>, limit: nat, full: bool)
    requires |c| < limit
    ensures MergedPage(c, limit, full).next.None? && |MergedPage(c, limit, full).rows| == |c|
  {
  }

  /** Each source stops at 500 rows but the merge compares with the caller's own limit. */
  lemma LongLimitLosesRows(limit: nat)
    requires limit > 500
    ensures KeyedSources(CROWDED, {Fact})
    ensures !EndIsTheEnd(CROWDED, {Fact}, limit, None)
  {
    hide Candidates, AnyFull, MergedPage, Matching, KeyedSources, Keyed, Distinct, CrowdedFacts, Past;
    var t := CrowdedFacts();
    CrowdedIsKeyed();
    CrowdedMatching();
    CrowdedCandidates(limit);
    CrowdedIsLong();
    ShortMergeEnds(Candidates([t], limit, None), limit, AnyFull([t], limit, None));
    var rows := Page(CROWDED, {Fact}, limit, None).rows;
    NotAllFit(t, rows);
  }

  lemma NotAllFit(s: seq<Row>, t: seq<Row>)
    requires Distinct(s) && |s| > |t|
    ensures exists r | r in s :: r !in t
  {
    if forall r | r in s :: r in t {
      Pigeonhole(s, t);
    }
  }

  lemma ShortLimitLosesNothing(f: Fetch, kinds: set<Kind>, limit: nat, keyset: Option<Key>)
    requires KeyedSources(f, kinds) && 1 <= limit <= MAX_SOURCE_PAGE
    ensures EndIsTheEnd(f, kinds, limit, keyset)
  {
    hide Page;
    hide WantedTables;
    hide Matching;
    RequestFacts(f, kinds, limit, keyset);
    MatchingFacts(f, kinds, keyset);
  }

  /** The walk is complete for every table exactly when the limit is one the sources honour. */
  lemma LimitBoundIsExact(limit: nat)
    requires limit >= 1
    ensures (forall f, kinds, keyset | KeyedSources(f, kinds) :: EndIsTheEnd(f, kinds, limit, keyset))
        <==> limit <= 500
  {
    if limit > MAX_SOURCE_PAGE {
      LongLimitLosesRows(limit);
    } else {
      hide EndIsTheEnd;
      hide KeyedTables;
      hide WantedTables;
      forall f, kinds, keyset | KeyedSources(f, kinds)
        ensures EndIsTheEnd(f, kinds, limit, keyset)
      {
        ShortLimitLosesNothing(f, kinds, limit, keyset);
      }
    }
  }
}
