/** A search's ranked list as it is rewritten in place, stage after stage. */
module Search {
  import opened Options
  import opened Sorting
  import opened Collapse
  import opened Candidates
  import opened SearchPage
  import opened SearchScore
  import Fusion
  import Reranker
  import KnowledgePage

  function HasTags(want: seq<string>): Entry -> bool {
    (e: Entry) => forall t | t in want :: t in e.mem.tags
  }

  /** Exactly the memories with every wanted tag, in their order. */
  ghost predicate Tagged(before: seq<Entry>, want: seq<string>, after: seq<Entry>) {
    && (forall e :: e in after <==> e in before && forall tag | tag in want :: tag in e.mem.tags)
    && (forall i, j | 0 <= i < j < |after| :: exists p, q ::
          0 <= p < q < |before| && before[p] == after[i] && before[q] == after[j])
  }

  lemma TagsAreKept(before: seq<Entry>, want: seq<string>)
    ensures Tagged(before, want, Filter(before, HasTags(want)))
  {
    var after := Filter(before, HasTags(want));
    forall e ensures e in after <==> e in before && forall tag | tag in want :: tag in e.mem.tags {
      assert HasTags(want)(e) <==> forall tag | tag in want :: tag in e.mem.tags;
    }
    hide Filter, HasTags;
    forall i, j | 0 <= i < j < |after|
      ensures exists p, q :: 0 <= p < q < |before| && before[p] == after[i] && before[q] == after[j]
    {
      var p, q := FilterOrder(before, HasTags(want), i, j);
    }
  }

  function LiveIds(entries: seq<Entry>): set<nat> {
    set e | e in entries :: e.mem.id
  }

  function IsLive(entries: seq<Entry>): nat -> bool {
    var live := LiveIds(entries);
    (id: nat) => id in live
  }

  ghost predicate OnPage(entries: seq<Entry>, id: nat) {
    exists p | 0 <= p < |entries| :: entries[p].mem.id == id
  }

  /** Every id is still on the page, and the ids on the page stand in `after` as often as before, in the same order. */
  ghost predicate GhostsDropped(entries: seq<Entry>, before: seq<nat>, after: seq<nat>) {
    && (forall i | 0 <= i < |after| :: OnPage(entries, after[i]))
    && (forall id :: OnPage(entries, id) ==> multiset(after)[id] == multiset(before)[id])
    && (forall i, j | 0 <= i < j < |after| :: StandInOrder(before, after[i], after[j]))
  }

  ghost predicate StandInOrder(order: seq<nat>, a: nat, b: nat) {
    exists p, q | 0 <= p < q < |order| :: order[p] == a && order[q] == b
  }

  lemma LiveIsOnPage(entries: seq<Entry>, id: nat)
    ensures IsLive(entries)(id) <==> OnPage(entries, id)
  {
    if IsLive(entries)(id) {
      var e :| e in entries && e.mem.id == id;
      var p :| 0 <= p < |entries| && entries[p] == e;
    }
    if OnPage(entries, id) {
      var p :| 0 <= p < |entries| && entries[p].mem.id == id;
      assert entries[p] in entries;
    }
  }

  lemma GhostsAreDropped(entries: seq<Entry>, order: seq<nat>)
    ensures GhostsDropped(entries, order, Filter(order, IsLive(entries)))
  {
    hide Filter, IsLive, OnPage;
    var kept := Filter(order, IsLive(entries));
    forall i | 0 <= i < |kept| ensures OnPage(entries, kept[i]) { LiveIsOnPage(entries, kept[i]); }
    forall id | OnPage(entries, id) ensures multiset(kept)[id] == multiset(order)[id] {
      LiveIsOnPage(entries, id);
      FilterCount(order, IsLive(entries), id);
    }
    forall i, j | 0 <= i < j < |kept| ensures StandInOrder(order, kept[i], kept[j]) {
      var p, q := FilterOrder(order, IsLive(entries), i, j);
    }
  }

  function Min(a: nat, b: nat): nat { if a <= b then a else b }

  class Ranking {
    var scored: seq<Entry>
    var weights: map<nat, real>
    var curated: seq<nat>
    var lexical: seq<nat>

    constructor (scored: seq<Entry>, weights: map<nat, real>, curated: seq<nat>, lexical: seq<nat>)
      ensures this.scored == scored && this.weights == weights && this.curated == curated && this.lexical == lexical
    {
      this.scored := scored;
      this.weights := weights;
      this.curated := curated;
      this.lexical := lexical;
    }

    /** Keeps the memories that carry every wanted tag. */
    method RetainTags(want: seq<string>)
      modifies this`scored
      ensures scored == Filter(old(scored), HasTags(want))
      ensures Tagged(old(scored), want, scored)
    {
      TagsAreKept(scored, want);
      if want != [] {
        scored := Filter(scored, HasTags(want));
      } else {
        NoTagsKeepsAll(scored);
      }
    }

    method CollapseDuplicatesInPlace()
      modifies this`scored
      ensures CollapsedPage(old(scored), scored) && CollapsesTo(old(scored), scored)
      ensures NoCopiesYet(old(scored)) ==> StandsFor(Mems(scored)) == StandsFor(Mems(old(scored)))
    {
      hide CollapsedPage, CollapsesTo, NoCopiesYet, StandsFor, WithCopies, Conserves, Collapsed;
      ghost var before := scored;
      var out := CollapseDuplicates(scored, EntryHash, EntryCopy);
      scored := MapSeq(out, WithCopies);
      AfterCollapse(before, out, scored);
      CollapseTells(before, scored);
    }

    /** A rank list must not name what the page no longer holds. */
    method DropGhosts()
      modifies this`curated, this`lexical
      ensures curated == Filter(old(curated), IsLive(scored)) && lexical == Filter(old(lexical), IsLive(scored))
      ensures GhostsDropped(scored, old(curated), curated) && GhostsDropped(scored, old(lexical), lexical)
    {
      GhostsAreDropped(scored, curated);
      GhostsAreDropped(scored, lexical);
      curated := Filter(curated, IsLive(scored));
      lexical := Filter(lexical, IsLive(scored));
    }

    method RenumberSourceRanks()
      modifies this`scored
      ensures Renumbered(old(scored), scored)
    {
      hide KindCount, KindOf;
      ghost var before := scored;
      var next := new nat[3](_ => 0);
      NothingCounted(before);
      for p := 0 to |scored|
        modifies this`scored, next
        invariant |scored| == |before|
        invariant next[0] == KindCount(before[..p], Kind.Knowledge)
        invariant next[1] == KindCount(before[..p], Fact) && next[2] == KindCount(before[..p], Event)
        invariant forall i | 0 <= i < p ::
                    scored[i] == before[i].(rank := KindCount(before[..i], KindOf(before[i].mem)))
        invariant forall i | p <= i < |scored| :: scored[i] == before[i]
      {
        var kind := KindOf(scored[p].mem);
        var idx := match kind case Knowledge => 0 case Fact => 1 case Event => 2;
        KindCountSnoc(before, p, Kind.Knowledge);
        KindCountSnoc(before, p, Fact);
        KindCountSnoc(before, p, Event);
        scored := scored[p := scored[p].(rank := next[idx])];
        next[idx] := next[idx] + 1;
      }
    }

    /** The window's knowledge leads in scorer order, then the rest of the knowledge in its prior order,
        ranked from zero; everything else follows untouched. */
    method ApplyRerankOrder(windowIds: seq<nat>, hits: seq<Reranker.Hit>)
      requires DistinctIds(Mems(scored)) && |scored| <= USIZE_MAX
      requires |windowIds| == |hits| <= |Filter(scored, IsKnowledge)|
      requires forall t | 0 <= t < |windowIds| :: windowIds[t] == Filter(scored, IsKnowledge)[t].mem.id
      requires Reranker.ScoresEachOnce(hits, |hits|) && forall h | h in hits :: h.index < |hits|
      modifies this`scored, this`curated, this`lexical
      ensures scored == RerankedKnowledge(Filter(old(scored), IsKnowledge), hits) + Filter(old(scored), IsOther)
      ensures multiset(Mems(scored)) == multiset(Mems(old(scored)))
      ensures Reordered(old(curated), curated, RerankedKnowledge(Filter(old(scored), IsKnowledge), hits))
      ensures Reordered(old(lexical), lexical, RerankedKnowledge(Filter(old(scored), IsKnowledge), hits))
    {
      hide *;
      ghost var before := scored;
      FilterDistinctIds(scored, IsKnowledge);
      var rank := RankMap(scored, windowIds, hits);
      var knowledge, others := Partition(scored);
      ghost var original := knowledge;
      HandedOut(original, hits, rank);
      SortedKnowledge(original, hits, rank);
      knowledge := StableSort(knowledge, EntriesByRank(rank));
      for p := 0 to |knowledge|
        invariant |knowledge| == |original|
        invariant forall i | 0 <= i < p :: knowledge[i] == RerankedKnowledge(original, hits)[i]
        invariant forall i | p <= i < |knowledge| :: knowledge[i] == Leaders(original, hits)[i]
      {
        knowledge := knowledge[p := knowledge[p].(rank := RankU32(p))];
      }
      assert knowledge == RerankedKnowledge(original, hits);
      scored := knowledge + others;
      curated := SortOrder(curated, original, hits, rank);
      lexical := SortOrder(lexical, original, hits, rank);
      RerankKeepsMems(before, hits, rank);
    }

    /** Best effort: a refused answer, or fewer than two candidates, changes nothing. */
    method RerankStage(window: nat, items: seq<Reranker.Hit>)
      requires DistinctIds(Mems(scored)) && |scored| <= USIZE_MAX
      modifies this`scored, this`curated, this`lexical
      ensures Reranked(old(scored), old(curated), old(lexical), window, Some(items), scored, curated, lexical)
      ensures multiset(Mems(scored)) == multiset(Mems(old(scored)))
      ensures multiset(curated) == multiset(old(curated)) && multiset(lexical) == multiset(old(lexical))
    {
      hide *;
      ghost var before, curated0, lexical0 := scored, curated, lexical;
      var knowledge, _ := Partition(scored);
      var n := if window <= |knowledge| then window else |knowledge|;
      MinOf(window, |knowledge|);
      if n < 2 {
        NotReranked(before, curated, lexical, window, Some(items));
        return;
      }
      var answer := Reranker.Rerank(n, items);
      if answer.Ok? {
        var hits := answer.hits;
        ScorerOrder(items, hits, n);
        var windowIds := MapSeq(knowledge[..n], IdOf);
        WindowIds(knowledge, n);
        ApplyRerankOrder(windowIds, hits);
        ReorderedKeeps(curated0, curated, RerankedKnowledge(Filter(before, IsKnowledge), hits));
        ReorderedKeeps(lexical0, lexical, RerankedKnowledge(Filter(before, IsKnowledge), hits));
        RerankedBy(before, curated0, lexical0, window, items, hits, scored, curated, lexical);
      } else {
        NotReranked(before, curated, lexical, window, Some(items));
      }
    }

    /** Rank fusion over one list per kind plus the curated and lexical orders. */
    method FuseInPlace(k: nat)
      requires DistinctIds(Mems(scored))
      modifies this`scored
      ensures FusedPage(old(scored), Sources(old(scored), weights, curated, lexical), Fusion.Cap(k), scored)
      ensures ScoredByPlace(old(scored), weights, curated, lexical, if k < 65535 then k else 65535, scored)
    {
      hide *;
      ghost var before := scored;
      var sources := FusionSources(scored, weights, curated, lexical);
      var fused := Fusion.Rrf(sources, k);
      Fusion.IsFusedIds(sources, Fusion.Cap(k), fused);
      var order: map<nat, nat> := map[];
      for pos := 0 to |fused|
        invariant forall p | 0 <= p < pos :: fused[p].id in order && order[fused[p].id] == p
        invariant forall id | id in order :: order[id] < pos && fused[order[id]].id == id
      {
        order := order[fused[pos].id := pos];
      }
      for i := 0 to |scored|
        modifies this`scored
        invariant |scored| == |before|
        invariant forall j | 0 <= j < i :: scored[j] == Rescored(before[j], fused, order)
        invariant forall j | i <= j < |scored| :: scored[j] == before[j]
      {
        var e := scored[i];
        RescoredIs(e, fused, order);
        if e.mem.id in order {
          scored := scored[i := e.(score := fused[order[e.mem.id]].score)];
        }
      }
      var rescored := scored;
      scored := StableSort(scored, EntriesByRank(order));
      FusedPageHolds(before, weights, curated, lexical, Fusion.Cap(k), fused, order, rescored, scored);
      FusedIsPlaced(before, weights, curated, lexical, Fusion.Cap(k), scored);
      CapIs(k);
    }

    method Truncate(topK: nat)
      modifies this`scored
      ensures scored == if topK < |old(scored)| then old(scored)[..topK] else old(scored)
    {
      if topK < |scored| {
        scored := scored[..topK];
      }
    }
  }

  lemma CapIs(k: nat)
    ensures Fusion.Cap(k) == if k < 65535 then k else 65535
  {
  }

  lemma NoTagsKeepsAll(entries: seq<Entry>)
    ensures Filter(entries, HasTags([])) == entries
  {
  }

  lemma AfterCollapse(before: seq<Entry>, out: seq<(Entry, seq<Copy>)>, after: seq<Entry>)
    requires Collapsed(before, EntryHash, EntryCopy, out) && Conserves(before, EntryCopy, out)
    requires after == MapSeq(out, WithCopies)
    ensures CollapsedPage(before, after)
    ensures NoCopiesYet(before) ==> StandsFor(Mems(after)) == StandsFor(Mems(before))
  {
    hide Firsts, Absorbed, WithCopies, Conserves, StandsFor, NoCopiesYet;
    forall p | 0 <= p < |out|
      ensures after[p] ==
                WithCopies((Firsts(before, EntryHash)[p],
                  Absorbed(before, EntryHash, EntryCopy, Firsts(before, EntryHash)[p])))
    {
      assert out[p] == (out[p].0, out[p].1);
    }
    if NoCopiesYet(before) { CollapseConserves(before, out, after); }
  }

  lemma NothingCounted(entries: seq<Entry>)
    ensures forall kind :: KindCount(entries[..0], kind) == 0
  {
  }

  lemma HandedOut(knowledge: seq<Entry>, hits: seq<Reranker.Hit>, rank: map<nat, nat>)
    requires |hits| <= |knowledge| && forall h | h in hits :: h.index < |knowledge|
    requires RanksUpTo(knowledge, hits, rank, |knowledge|)
    ensures NewRanks(knowledge, hits, rank)
    ensures forall id | id in rank :: rank[id] < |knowledge| && Leading(knowledge, hits, rank[id]).mem.id == id
  {
  }

  method SortOrder(order: seq<nat>, ghost knowledge: seq<Entry>, ghost hits: seq<Reranker.Hit>, rank: map<nat, nat>)
    returns (sorted: seq<nat>)
    requires |hits| <= |knowledge| <= USIZE_MAX && forall h | h in hits :: h.index < |knowledge|
    requires NewRanks(knowledge, hits, rank)
    requires forall id | id in rank :: rank[id] < |knowledge| && Leading(knowledge, hits, rank[id]).mem.id == id
    ensures Reordered(order, sorted, RerankedKnowledge(knowledge, hits))
  {
    hide *;
    sorted := StableSort(order, ByRank(rank));
    RankOrdersAreTotal(rank);
    StableSortPermutes(order, ByRank(rank));
    StableSortSorted(order, ByRank(rank));
    SortedOrderFollows(sorted, knowledge, hits, rank);
    RestKeepsOrder(order, knowledge, hits, rank);
    IsReordered(order, sorted, RerankedKnowledge(knowledge, hits));
  }

  /** The same ids: those the page shows in its order, the others after them as they stood. */
  ghost predicate Reordered(before: seq<nat>, after: seq<nat>, page: seq<Entry>) {
    multiset(after) == multiset(before) && FollowsPage(after, page) && RestInOrder(before, after, page)
  }

  ghost predicate RestInOrder(before: seq<nat>, after: seq<nat>, page: seq<Entry>) {
    forall i, j | 0 <= i < j < |after| && !OnPage(page, after[i]) && !OnPage(page, after[j]) ::
      StandInOrder(before, after[i], after[j])
  }

  lemma IsReordered(before: seq<nat>, after: seq<nat>, page: seq<Entry>)
    requires multiset(after) == multiset(before) && FollowsPage(after, page) && RestInOrder(before, after, page)
    ensures Reordered(before, after, page)
  {
  }

  lemma ReorderedKeeps(before: seq<nat>, after: seq<nat>, page: seq<Entry>)
    requires Reordered(before, after, page)
    ensures multiset(after) == multiset(before)
  {
  }

  /** Ids the page does not show tie with one another, and ties keep their order. */
  lemma RestKeepsOrder(order: seq<nat>, knowledge: seq<Entry>, hits: seq<Reranker.Hit>, rank: map<nat, nat>)
    requires |hits| <= |knowledge| && forall h | h in hits :: h.index < |knowledge|
    requires forall id | id in rank :: rank[id] < |knowledge| && Leading(knowledge, hits, rank[id]).mem.id == id
    ensures RestInOrder(order, StableSort(order, ByRank(rank)), RerankedKnowledge(knowledge, hits))
  {
    hide StableSort, Leading;
    var page, sorted := RerankedKnowledge(knowledge, hits), StableSort(order, ByRank(rank));
    RankOrdersAreTotal(rank);
    forall i, j | 0 <= i < j < |sorted| && !OnPage(page, sorted[i]) && !OnPage(page, sorted[j])
      ensures StandInOrder(order, sorted[i], sorted[j])
    {
      RankedIsOnPage(knowledge, hits, rank, sorted[i]);
      RankedIsOnPage(knowledge, hits, rank, sorted[j]);
      var p, q := TiesKeepOrder(order, ByRank(rank), i, j);
    }
  }

  lemma RankedIsOnPage(knowledge: seq<Entry>, hits: seq<Reranker.Hit>, rank: map<nat, nat>, id: nat)
    requires |hits| <= |knowledge| && forall h | h in hits :: h.index < |knowledge|
    requires forall id | id in rank :: rank[id] < |knowledge| && Leading(knowledge, hits, rank[id]).mem.id == id
    ensures id in rank ==> OnPage(RerankedKnowledge(knowledge, hits), id)
  {
    hide Leading;
    if id in rank {
      assert RerankedKnowledge(knowledge, hits)[rank[id]].mem.id == id;
    }
  }

  lemma MinOf(a: nat, b: nat)
    ensures Min(a, b) == if a <= b then a else b
  {
  }

  /** The scorer's items, best score first, ties by index. */
  ghost predicate IsScorerOrder(hits: seq<Reranker.Hit>, items: seq<Reranker.Hit>) {
    && multiset(hits) == multiset(items)
    && (forall i, j | 0 <= i < j < |hits| ::
          hits[i].score > hits[j].score || (hits[i].score == hits[j].score && hits[i].index <= hits[j].index))
  }

  /** What the rerank stage does: with two candidates or more and a usable answer, the window leads in the
      scorer's order and the auxiliary orders follow; otherwise nothing moves. */
  ghost predicate Reranked(before: seq<Entry>, curated0: seq<nat>, lexical0: seq<nat>,
                           window: nat, items: Option<seq<Reranker.Hit>>,
                           after: seq<Entry>, curated: seq<nat>, lexical: seq<nat>) {
    var knowledge, others := Filter(before, IsKnowledge), Filter(before, IsOther);
    var n := Min(window, |knowledge|);
    if n >= 2 && items.Some? && Reranker.ScoresEachOnce(items.value, n)
    then exists hits: seq<Reranker.Hit> ::
           && IsScorerOrder(hits, items.value)
           && |hits| <= |knowledge| && (forall h | h in hits :: h.index < |knowledge|)
           && after == RerankedKnowledge(knowledge, hits) + others
           && Reordered(curated0, curated, RerankedKnowledge(knowledge, hits))
           && Reordered(lexical0, lexical, RerankedKnowledge(knowledge, hits))
    else after == before && curated == curated0 && lexical == lexical0
  }

  lemma NotReranked(before: seq<Entry>, curated: seq<nat>, lexical: seq<nat>, window: nat,
                    items: Option<seq<Reranker.Hit>>)
    requires var n := Min(window, |Filter(before, IsKnowledge)|);
             n < 2 || items.None? || !Reranker.ScoresEachOnce(items.value, n)
    ensures Reranked(before, curated, lexical, window, items, before, curated, lexical)
  {
  }

  lemma RerankedBy(before: seq<Entry>, curated0: seq<nat>, lexical0: seq<nat>, window: nat,
                   items: seq<Reranker.Hit>, hits: seq<Reranker.Hit>,
                   after: seq<Entry>, curated: seq<nat>, lexical: seq<nat>)
    requires var n := Min(window, |Filter(before, IsKnowledge)|);
             n >= 2 && Reranker.ScoresEachOnce(items, n) && |hits| == n
    requires IsScorerOrder(hits, items) && forall h | h in hits :: h.index < |hits|
    requires after == RerankedKnowledge(Filter(before, IsKnowledge), hits) + Filter(before, IsOther)
    requires Reordered(curated0, curated, RerankedKnowledge(Filter(before, IsKnowledge), hits))
    requires Reordered(lexical0, lexical, RerankedKnowledge(Filter(before, IsKnowledge), hits))
    ensures Reranked(before, curated0, lexical0, window, Some(items), after, curated, lexical)
  {
    hide IsScorerOrder, Filter, Reranker.ScoresEachOnce, Reordered, Leading;
  }

  lemma ScorerOrder(items: seq<Reranker.Hit>, hits: seq<Reranker.Hit>, n: nat)
    requires Reranker.ScoresEachOnce(items, n) && multiset(hits) == multiset(items) && SortedBy(hits, Reranker.Ahead)
    ensures IsScorerOrder(hits, items) && |hits| == n
    ensures Reranker.ScoresEachOnce(hits, |hits|) && forall h | h in hits :: h.index < |hits|
  {
    Reranker.SortedStillScoresEachOnce(items, hits, n);
  }

  lemma WindowIds(knowledge: seq<Entry>, n: nat)
    requires n <= |knowledge|
    ensures forall t | 0 <= t < n :: MapSeq(knowledge[..n], IdOf)[t] == knowledge[t].mem.id
  {
  }

  /** The per-kind lists are filled in one pass over the page. */
  method FusionSources(entries: seq<Entry>, weights: map<nat, real>, curated: seq<nat>, lexical: seq<nat>)
    returns (sources: seq<seq<Fusion.RankedRow>>)
    ensures sources == Sources(entries, weights, curated, lexical)
  {
    hide KindRows, RankList, KindOf, RowFor, SourceFor;
    var byKind := new seq<Fusion.RankedRow>[3](_ => []);
    NoRows(entries, weights);
    for i := 0 to |entries|
      invariant byKind[0] == KindRows(entries[..i], Kind.Knowledge, weights)
      invariant byKind[1] == KindRows(entries[..i], Fact, weights)
                  && byKind[2] == KindRows(entries[..i], Event, weights)
    {
      var kind := KindOf(entries[i].mem);
      var idx := match kind case Knowledge => 0 case Fact => 1 case Event => 2;
      KindRowsSnoc(entries, i, Kind.Knowledge, weights);
      KindRowsSnoc(entries, i, Fact, weights);
      KindRowsSnoc(entries, i, Event, weights);
      byKind[idx] := byKind[idx] + [RowFor(weights, SourceFor(kind), entries[i].mem.id)];
    }
    assert entries[..|entries|] == entries;
    sources := [byKind[0], byKind[1], byKind[2]];
    if curated != [] {
      sources := sources + [RankList(curated, weights)];
    }
    if lexical != [] {
      sources := sources + [RankList(lexical, weights)];
    }
  }

  lemma NoRows(entries: seq<Entry>, weights: map<nat, real>)
    ensures forall kind :: KindRows(entries[..0], kind, weights) == []
  {
  }

  function Rescored(e: Entry, fused: seq<Fusion.RankedRow>, order: map<nat, nat>): Entry {
    if e.mem.id in order && order[e.mem.id] < |fused| then e.(score := fused[order[e.mem.id]].score) else e
  }

  lemma RescoredIs(e: Entry, fused: seq<Fusion.RankedRow>, order: map<nat, nat>)
    requires forall id | id in order :: order[id] < |fused|
    ensures Rescored(e, fused, order) == if e.mem.id in order then e.(score := fused[order[e.mem.id]].score) else e
  {
  }

  /** Every entry takes its own fused row's score. */
  lemma EntryTakesItsScore(before: seq<Entry>, weights: map<nat, real>, curated: seq<nat>, lexical: seq<nat>, k: nat,
                           fused: seq<Fusion.RankedRow>, order: map<nat, nat>, e: Entry)
    requires DistinctIds(Mems(before)) && e in before
    requires Fusion.IsFused(Sources(before, weights, curated, lexical), k, fused)
    requires forall p | 0 <= p < |fused| :: fused[p].id in order && order[fused[p].id] == p
    ensures e.mem.id in order && order[e.mem.id] < |fused| && fused[order[e.mem.id]].id == e.mem.id
    ensures fused[order[e.mem.id]].source == SourceFor(KindOf(e.mem))
    ensures fused[order[e.mem.id]].score == Fusion.TotalScore(Sources(before, weights, curated, lexical), k, e.mem.id)
  {
    hide Fusion.AllRows, Fusion.TotalScore, Fusion.First, KindOf, SourceFor, Sources, DistinctIds, Fusion.FusedRow,
      Fusion.Before;
    FusedSource(before, weights, curated, lexical, e);
    assert Fusion.Has(fused, e.mem.id);
    var r :| r in fused && r.id == e.mem.id;
    var p :| 0 <= p < |fused| && fused[p] == r;
    assert order[fused[p].id] == p;
    assert fused[p] == Fusion.FusedRow(Sources(before, weights, curated, lexical), k, e.mem.id);
  }

  lemma RowsToEntries(a: Entry, b: Entry, x: Fusion.RankedRow, y: Fusion.RankedRow)
    requires Fusion.Before(x, y)
    requires x.id == a.mem.id && x.score == a.score && x.source == SourceFor(KindOf(a.mem))
    requires y.id == b.mem.id && y.score == b.score && y.source == SourceFor(KindOf(b.mem))
    ensures EntryBefore(a, b)
  {
  }

  ghost predicate RescoredFrom(e: Entry, before: seq<Entry>, fused: seq<Fusion.RankedRow>, order: map<nat, nat>,
                               sources: seq<seq<Fusion.RankedRow>>, k: nat) {
    && e.mem.id in order && order[e.mem.id] < |fused|
    && fused[order[e.mem.id]].id == e.mem.id && fused[order[e.mem.id]].score == e.score
    && fused[order[e.mem.id]].source == SourceFor(KindOf(e.mem))
    && e.score == Fusion.TotalScore(sources, k, e.mem.id)
    && IsRescored(e, before)
  }

  lemma RescoredFacts(before: seq<Entry>, weights: map<nat, real>, curated: seq<nat>, lexical: seq<nat>, k: nat,
                      fused: seq<Fusion.RankedRow>, order: map<nat, nat>, rescored: seq<Entry>)
    requires DistinctIds(Mems(before))
    requires Fusion.IsFused(Sources(before, weights, curated, lexical), k, fused)
    requires forall p | 0 <= p < |fused| :: fused[p].id in order && order[fused[p].id] == p
    requires |rescored| == |before| && forall j | 0 <= j < |before| :: rescored[j] == Rescored(before[j], fused, order)
    ensures forall e | e in rescored ::
              RescoredFrom(e, before, fused, order, Sources(before, weights, curated, lexical), k)
    ensures Mems(rescored) == Mems(before)
  {
    hide KindOf, SourceFor, Sources, DistinctIds, Fusion.IsFused, Fusion.TotalScore, Mems;
    forall j | 0 <= j < |before|
      ensures rescored[j].mem == before[j].mem
      ensures RescoredFrom(rescored[j], before, fused, order, Sources(before, weights, curated, lexical), k)
    {
      EntryTakesItsScore(before, weights, curated, lexical, k, fused, order, before[j]);
      assert before[j] in before && rescored[j] == before[j].(score := rescored[j].score);
    }
    assert Mems(rescored) == Mems(before);
  }

  lemma FusedPageHolds(before: seq<Entry>, weights: map<nat, real>, curated: seq<nat>, lexical: seq<nat>, k: nat,
                       fused: seq<Fusion.RankedRow>, order: map<nat, nat>, rescored: seq<Entry>, after: seq<Entry>)
    requires DistinctIds(Mems(before))
    requires Fusion.IsFused(Sources(before, weights, curated, lexical), k, fused)
    requires forall p | 0 <= p < |fused| :: fused[p].id in order && order[fused[p].id] == p
    requires |rescored| == |before| && forall j | 0 <= j < |before| :: rescored[j] == Rescored(before[j], fused, order)
    requires after == StableSort(rescored, EntriesByRank(order))
    ensures FusedPage(before, Sources(before, weights, curated, lexical), k, after)
  {
    hide *;
    RescoredFacts(before, weights, curated, lexical, k, fused, order, rescored);
    StableSortPermutes(rescored, EntriesByRank(order));
    SameMembers(rescored, after);
    MapPermuted(after, rescored, MemOf);
    MemsIsMap(after);
    MemsIsMap(rescored);
    DistinctIdsPermuted(Mems(before), Mems(after));
    RankOrdersAreTotal(order);
    StableSortSorted(rescored, EntriesByRank(order));
    FusedPageParts(before, Sources(before, weights, curated, lexical), k, fused, order, after);
  }

  lemma FusedPageParts(before: seq<Entry>, sources: seq<seq<Fusion.RankedRow>>, k: nat,
                       fused: seq<Fusion.RankedRow>, order: map<nat, nat>, after: seq<Entry>)
    requires multiset(Mems(after)) == multiset(Mems(before)) && DistinctIds(Mems(after))
    requires Fusion.IsFused(sources, k, fused) && SortedBy(after, EntriesByRank(order))
    requires forall e | e in after :: RescoredFrom(e, before, fused, order, sources, k)
    ensures FusedPage(before, sources, k, after)
  {
    hide KindOf, SourceFor, DistinctIds, Fusion.TotalScore, Mems, Fusion.FusedRow, Fusion.AllRows, Fusion.Before,
      EntryBefore, Fusion.Has;
    forall p | 0 <= p < |after| ensures RescoredFrom(after[p], before, fused, order, sources, k) {
      assert after[p] in after;
    }
    forall p, q | 0 <= p < q < |after| ensures EntryBefore(after[p], after[q]) {
      DistinctAt(after, p, q);
      assert EntriesByRank(order)(after[p], after[q]);
      var i, j := order[after[p].mem.id], order[after[q].mem.id];
      assert i < j;
      RowsToEntries(after[p], after[q], fused[i], fused[j]);
    }
  }

  lemma MemsIsMap(entries: seq<Entry>)
    ensures Mems(entries) == MapSeq(entries, MemOf)
  {
  }

  lemma DistinctAt(entries: seq<Entry>, p: nat, q: nat)
    requires DistinctIds(Mems(entries)) && p < q < |entries|
    ensures entries[p].mem.id != entries[q].mem.id
  {
    assert Mems(entries)[p].id != Mems(entries)[q].id;
  }

  // ----- the whole search -----

  /** `m` is the first candidate of its content: nothing with its hash stands before it. */
  ghost predicate FirstOfItsContent(candidates: seq<Entry>, id: nat) {
    exists i | 0 <= i < |candidates| ::
      candidates[i].mem.id == id && FirstOfContent(candidates, i)
  }

  /** What a full ranked list promises about the candidates it came from. */
  ghost predicate RankedFrom(candidates: seq<Entry>, full: seq<Entry>) {
    && DistinctIds(Mems(full))
    && DistinctHashes(Mems(full))
    && StandsFor(Mems(full)) == StandsFor(Mems(candidates))
    && (forall m | m in Mems(full) :: FirstOfItsContent(candidates, m.id))
  }

  lemma SurvivorsAreFirst(tagged: seq<Entry>, survivors: seq<Entry>)
    requires CollapsesTo(tagged, survivors)
    ensures forall m | m in Mems(survivors) :: FirstOfItsContent(tagged, m.id)
  {
    hide FirstOfContent, Repeats;
    var places: seq<nat> :| SurvivorsAt(tagged, places, survivors);
    forall p | 0 <= p < |survivors| ensures FirstOfItsContent(tagged, survivors[p].mem.id) {
      assert places[p] in places;
      assert SurvivesAs(tagged, places[p], survivors[p]);
    }
  }

  lemma {:induction false} FirstsAreFewer(entries: seq<Entry>)
    ensures |Firsts(entries, EntryHash)| <= |entries|
  {
    if entries != [] {
      FirstsAreFewer(entries[..|entries| - 1]);
    }
  }

  lemma SurvivorCount(candidates: seq<Entry>, keep: Entry -> bool, survivors: seq<Entry>)
    requires CollapsedPage(Filter(candidates, keep), survivors)
    ensures |survivors| <= |candidates|
  {
    FirstsAreFewer(Filter(candidates, keep));
  }

  lemma FilterKeepsNoCopies(candidates: seq<Entry>, keep: Entry -> bool)
    requires NoCopiesYet(candidates)
    ensures NoCopiesYet(Filter(candidates, keep))
  {
  }

  lemma RenumberedMems(before: seq<Entry>, after: seq<Entry>)
    requires Renumbered(before, after)
    ensures Mems(after) == Mems(before) && |after| == |before|
  {
    hide KindCount, KindOf;
  }

  lemma FusedFacts(before: seq<Entry>, sources: seq<seq<Fusion.RankedRow>>, k: nat, after: seq<Entry>)
    requires FusedPage(before, sources, k, after)
    ensures multiset(Mems(after)) == multiset(Mems(before))
    ensures forall p, q | 0 <= p < q < |after| :: EntryBefore(after[p], after[q])
  {
  }

  lemma RankedFromSurvivors(tagged: seq<Entry>, survivors: seq<Entry>, full: seq<Entry>)
    requires DistinctIds(Mems(survivors)) && DistinctHashes(Mems(survivors))
    requires StandsFor(Mems(survivors)) == StandsFor(Mems(tagged))
    requires forall m | m in Mems(survivors) :: FirstOfItsContent(tagged, m.id)
    requires multiset(Mems(full)) == multiset(Mems(survivors))
    ensures RankedFrom(tagged, full)
  {
    hide DistinctIds, DistinctHashes, StandsFor, FirstOfItsContent, Mems;
    DistinctIdsPermuted(Mems(survivors), Mems(full));
    DistinctIdsAreDistinct(Mems(survivors));
    DistinctHashesPermuted(Mems(survivors), Mems(full));
    StandsForPermuted(Mems(survivors), Mems(full));
    SameMembers(Mems(survivors), Mems(full));
  }

  lemma PrefixRepeatsNothing(tagged: seq<Entry>, full: seq<Entry>, n: nat)
    requires RankedFrom(tagged, full) && n <= |full|
    ensures DistinctIds(Mems(full[..n])) && DistinctHashes(Mems(full[..n]))
  {
    hide SameContent, StandsFor, FirstOfItsContent;
    var page := full[..n];
    forall i, j | 0 <= i < j < n ensures Mems(page)[i].id != Mems(page)[j].id {
      assert Mems(full)[i].id != Mems(full)[j].id;
    }
    forall i, j | 0 <= i < j < n ensures !SameContent(Mems(page)[i], Mems(page)[j]) {
      assert !SameContent(Mems(full)[i], Mems(full)[j]);
    }
  }

  /** The list after each stage, with the auxiliary orders fusion saw. */
  datatype Trace = Trace(tagged: seq<Entry>, survivors: seq<Entry>, numbered: seq<Entry>,
                         ranked: seq<Entry>, curated: seq<nat>, lexical: seq<nat>, full: seq<Entry>)

  /** Tag filter, collapse, ghost removal, renumber, rerank, fuse: each stage on what the previous one left. */
  ghost predicate Staged(candidates: seq<Entry>, weights: map<nat, real>, curated: seq<nat>, lexical: seq<nat>,
                         want: seq<string>,
                         window: nat, items: Option<seq<Reranker.Hit>>, k: nat, t: Trace) {
    && t.tagged == Filter(candidates, HasTags(want))
    && CollapsedPage(t.tagged, t.survivors)
    && Renumbered(t.survivors, t.numbered)
    && Reranked(t.numbered, Filter(curated, IsLive(t.survivors)), Filter(lexical, IsLive(t.survivors)), window, items,
                t.ranked, t.curated, t.lexical)
    && FusedPage(t.ranked, Sources(t.ranked, weights, t.curated, t.lexical), Fusion.Cap(k), t.full)
  }

  lemma StagedHolds(candidates: seq<Entry>, weights: map<nat, real>, curated: seq<nat>, lexical: seq<nat>,
                    want: seq<string>,
                    window: nat, items: Option<seq<Reranker.Hit>>, k: nat, t: Trace)
    requires t.tagged == Filter(candidates, HasTags(want)) && CollapsedPage(t.tagged, t.survivors)
               && Renumbered(t.survivors, t.numbered)
    requires Reranked(t.numbered, Filter(curated, IsLive(t.survivors)), Filter(lexical, IsLive(t.survivors)),
                      window, items, t.ranked, t.curated, t.lexical)
    requires FusedPage(t.ranked, Sources(t.ranked, weights, t.curated, t.lexical), Fusion.Cap(k), t.full)
    ensures Staged(candidates, weights, curated, lexical, want, window, items, k, t)
  {
    hide Filter, CollapsedPage, Renumbered, Reranked, FusedPage;
  }

  /** Each memory is a candidate's, give or take its copies. */
  ghost predicate CameFrom(candidates: seq<Entry>, ms: seq<Memory>) {
    forall m | m in ms :: exists c | c in candidates :: c.mem.id == m.id && KindOf(c.mem) == KindOf(m)
  }

  lemma SurvivorsCameFrom(candidates: seq<Entry>, keep: Entry -> bool, survivors: seq<Entry>)
    requires CollapsedPage(Filter(candidates, keep), survivors)
    ensures CameFrom(candidates, Mems(survivors))
  {
    hide Firsts, Absorbed, WithCopies, KindOf, HashOf;
    var tagged := Filter(candidates, keep);
    FirstsFacts(tagged, EntryHash);
    forall m | m in Mems(survivors)
      ensures exists c | c in candidates :: c.mem.id == m.id && KindOf(c.mem) == KindOf(m)
    {
      var p :| 0 <= p < |survivors| && Mems(survivors)[p] == m;
      var first := Firsts(tagged, EntryHash)[p];
      WithCopiesKeeps((first, Absorbed(tagged, EntryHash, EntryCopy, first)));
      assert first in tagged && first in candidates;
    }
  }

  lemma StillNamesKnowledge(candidates: seq<Entry>, entries: seq<Entry>, live: seq<Entry>, before: seq<nat>,
                            after: seq<nat>)
    requires NamesKnowledge(candidates, before) && CameFrom(candidates, Mems(entries))
    requires multiset(after) == multiset(Filter(before, IsLive(live)))
    ensures NamesKnowledge(entries, after)
  {
    hide IsLive;
    SameMembers(after, Filter(before, IsLive(live)));
    forall e | e in entries && e.mem.id in after ensures IsKnowledge(e) {
      var p :| 0 <= p < |entries| && entries[p] == e;
      assert Mems(entries)[p] in Mems(entries);
      var c :| c in candidates && c.mem.id == e.mem.id && KindOf(c.mem) == KindOf(e.mem);
    }
  }

  /** The lists handed to fusion keep every id under one source if the auxiliary lists named knowledge only. */
  lemma OneSourceAfterRerank(candidates: seq<Entry>, survivors: seq<Entry>, curated: seq<nat>, lexical: seq<nat>,
                             weights: map<nat, real>, ranked: seq<Entry>, curated1: seq<nat>, lexical1: seq<nat>)
    requires NamesKnowledge(candidates, curated) && NamesKnowledge(candidates, lexical)
    requires CameFrom(candidates, Mems(survivors)) && DistinctIds(Mems(ranked))
    requires multiset(Mems(ranked)) == multiset(Mems(survivors))
    requires multiset(curated1) == multiset(Filter(curated, IsLive(survivors)))
    requires multiset(lexical1) == multiset(Filter(lexical, IsLive(survivors)))
    ensures Fusion.OneSourcePerId(Fusion.AllRows(Sources(ranked, weights, curated1, lexical1)))
  {
    hide *;
    CameFromPermuted(candidates, Mems(survivors), Mems(ranked));
    StillNamesKnowledge(candidates, ranked, survivors, curated, curated1);
    StillNamesKnowledge(candidates, ranked, survivors, lexical, lexical1);
    SearchSourcesAreOnePerId(ranked, weights, curated1, lexical1);
  }

  lemma CameFromPermuted(candidates: seq<Entry>, a: seq<Memory>, b: seq<Memory>)
    requires CameFrom(candidates, a) && multiset(b) == multiset(a)
    ensures CameFrom(candidates, b)
  {
    SameMembers(a, b);
  }

  /** `page` is what the caller gets, `t.full` the ranking it was cut from. Candidates arrive with distinct
      ids and no copies recorded; `items` is the reranker's answer, if one is configured. */
  method RankPage(candidates: seq<Entry>, weights: map<nat, real>, curated: seq<nat>, lexical: seq<nat>,
                  want: seq<string>,
                  window: nat, items: Option<seq<Reranker.Hit>>, k: nat, topK: nat)
    returns (page: seq<Entry>, ghost t: Trace)
    requires DistinctIds(Mems(candidates)) && NoCopiesYet(candidates) && |candidates| <= USIZE_MAX
    ensures page == if topK < |t.full| then t.full[..topK] else t.full
    ensures DistinctIds(Mems(page)) && DistinctHashes(Mems(page))
    ensures RankedFrom(Filter(candidates, HasTags(want)), t.full)
    ensures forall p, q | 0 <= p < q < |t.full| :: EntryBefore(t.full[p], t.full[q])
    ensures Staged(candidates, weights, curated, lexical, want, window, items, k, t)
    ensures Tagged(candidates, want, t.tagged) && CollapsesTo(t.tagged, t.survivors)
    ensures ScoredByPlace(t.ranked, weights, t.curated, t.lexical, if k < 65535 then k else 65535, t.full)
    ensures NamesKnowledge(candidates, curated) && NamesKnowledge(candidates, lexical) ==>
              Fusion.OneSourcePerId(Fusion.AllRows(Sources(t.ranked, weights, t.curated, t.lexical)))
  {
    hide *;
    var r := new Ranking(candidates, weights, curated, lexical);
    r.RetainTags(want);
    ghost var tagged := r.scored;
    FilterDistinctIds(candidates, HasTags(want));
    FilterKeepsNoCopies(candidates, HasTags(want));
    r.CollapseDuplicatesInPlace();
    ghost var survivors := r.scored;
    CollapsedIsDistinct(tagged, survivors);
    SurvivorsAreFirst(tagged, survivors);
    r.DropGhosts();
    r.RenumberSourceRanks();
    ghost var numbered := r.scored;
    RenumberedMems(survivors, numbered);
    SurvivorCount(candidates, HasTags(want), survivors);
    if items.Some? {
      r.RerankStage(window, items.value);
    } else {
      NotReranked(numbered, r.curated, r.lexical, window, None);
    }
    ghost var ranked := r.scored;
    DistinctIdsPermuted(Mems(survivors), Mems(ranked));
    if NamesKnowledge(candidates, curated) && NamesKnowledge(candidates, lexical) {
      SurvivorsCameFrom(candidates, HasTags(want), survivors);
      OneSourceAfterRerank(candidates, survivors, curated, lexical, weights, ranked, r.curated, r.lexical);
    }
    r.FuseInPlace(k);
    t := Trace(tagged, survivors, numbered, ranked, r.curated, r.lexical, r.scored);
    FusedFacts(ranked, Sources(ranked, weights, r.curated, r.lexical), Fusion.Cap(k), t.full);
    RankedFromSurvivors(tagged, survivors, t.full);
    StagedHolds(candidates, weights, curated, lexical, want, window, items, k, t);
    r.Truncate(topK);
    page := r.scored;
    assert t.full[..|t.full|] == t.full;
    PrefixRepeatsNothing(tagged, t.full, if topK < |t.full| then topK else |t.full|);
  }

  ghost predicate BareHits(hits: seq<KnowledgePage.Hit>) {
    forall h | h in hits :: CopiesOf(h.0.mem) == []
  }

  lemma {:induction false} NewcomersAreHits(hits: seq<KnowledgePage.Hit>, present: set<nat>, from: nat)
    requires BareHits(hits)
    ensures |KnowledgePage.Newcomers(hits, present)| <= |hits|
    ensures NoCopiesYet(KnowledgePage.AsEntries(KnowledgePage.Newcomers(hits, present), from))
  {
    hide CopiesOf;
    if hits != [] {
      var last := |hits| - 1;
      NewcomersAreHits(hits[..last], present, from);
      var before := KnowledgePage.Newcomers(hits[..last], present);
      KnowledgePage.AsEntriesSnoc(before, hits[last], from);
      assert hits[last] in hits;
    }
  }

  lemma GlobalHitsAreBare(hits: seq<KnowledgePage.Hit>)
    requires BareHits(hits)
    ensures NoCopiesYet(KnowledgePage.AsEntries(hits, 0))
  {
    hide CopiesOf;
    forall i | 0 <= i < |hits| ensures CopiesOf(hits[i].0.mem) == [] { assert hits[i] in hits; }
  }

  lemma PageIsBare(hits: seq<KnowledgePage.Hit>, curated: seq<KnowledgePage.Hit>, lexical: seq<KnowledgePage.Hit>)
    requires BareHits(hits) && BareHits(curated) && BareHits(lexical)
    ensures NoCopiesYet(KnowledgePage.PageEntries(hits, curated, lexical))
    ensures |KnowledgePage.PageEntries(hits, curated, lexical)| <= |hits| + |curated| + |lexical|
  {
    hide CopiesOf, BareHits, KnowledgePage.Newcomers, KnowledgePage.AsEntries, KnowledgePage.HitIds;
    var known := Members(KnowledgePage.HitIds(hits));
    var both := known + Members(KnowledgePage.HitIds(curated));
    GlobalHitsAreBare(hits);
    NewcomersAreHits(curated, known, |hits|);
    NewcomersAreHits(lexical, both, |hits| + |KnowledgePage.Newcomers(curated, known)|);
  }

  /** The hits are knowledge points. */
  ghost predicate KnowledgeHits(hits: seq<KnowledgePage.Hit>) {
    forall h | h in hits :: h.0.mem.content.Knowledge?
  }

  lemma {:induction false} NewcomersAreKnowledge(hits: seq<KnowledgePage.Hit>, present: set<nat>)
    requires KnowledgeHits(hits)
    ensures KnowledgeHits(KnowledgePage.Newcomers(hits, present))
  {
    if hits != [] {
      NewcomersAreKnowledge(hits[..|hits| - 1], present);
      assert hits[|hits| - 1] in hits;
    }
  }

  lemma EntriesAreKnowledge(hits: seq<KnowledgePage.Hit>, from: nat)
    requires KnowledgeHits(hits)
    ensures forall e | e in KnowledgePage.AsEntries(hits, from) :: IsKnowledge(e)
  {
    var entries := KnowledgePage.AsEntries(hits, from);
    forall e | e in entries ensures IsKnowledge(e) {
      var i :| 0 <= i < |entries| && entries[i] == e;
      assert hits[i] in hits;
    }
  }

  /** With knowledge points in every list, an id of a list belongs to knowledge on the page. */
  lemma ListsNameKnowledge(hits: seq<KnowledgePage.Hit>, curated: seq<KnowledgePage.Hit>,
                           lexical: seq<KnowledgePage.Hit>,
                           rows: seq<Entry>, order: seq<nat>)
    requires KnowledgeHits(hits) && KnowledgeHits(curated) && KnowledgeHits(lexical)
    requires Members(KnowledgePage.Ids(rows)) !! Members(order)
    ensures NamesKnowledge(KnowledgePage.PageEntries(hits, curated, lexical) + rows, order)
  {
    hide KnowledgePage.Newcomers, KnowledgePage.AsEntries, KnowledgePage.HitIds, KnowledgeHits, IsKnowledge;
    var known := Members(KnowledgePage.HitIds(hits));
    var joined := KnowledgePage.Newcomers(curated, known);
    var last := KnowledgePage.Newcomers(lexical, known + Members(KnowledgePage.HitIds(curated)));
    NewcomersAreKnowledge(curated, known);
    NewcomersAreKnowledge(lexical, known + Members(KnowledgePage.HitIds(curated)));
    EntriesAreKnowledge(hits, 0);
    EntriesAreKnowledge(joined, |hits|);
    EntriesAreKnowledge(last, |hits| + |joined|);
    forall e | e in rows ensures e.mem.id !in order {
      var i :| 0 <= i < |rows| && rows[i] == e;
      assert KnowledgePage.Ids(rows)[i] in Members(KnowledgePage.Ids(rows));
      KnowledgePage.MembersHas(order, e.mem.id);
    }
  }

  lemma CandidatesAreDistinct(knowledge: seq<Entry>, rest: seq<Entry>)
    requires Distinct(KnowledgePage.Ids(knowledge)) && Distinct(KnowledgePage.Ids(rest))
    requires Members(KnowledgePage.Ids(knowledge)) !! Members(KnowledgePage.Ids(rest))
    ensures DistinctIds(Mems(knowledge + rest))
    ensures Members(KnowledgePage.Ids(knowledge + rest)) ==
              Members(KnowledgePage.Ids(knowledge)) + Members(KnowledgePage.Ids(rest))
  {
    hide Members;
    assert KnowledgePage.Ids(knowledge + rest) == KnowledgePage.Ids(knowledge) + KnowledgePage.Ids(rest);
    KnowledgePage.DistinctConcat(KnowledgePage.Ids(knowledge), KnowledgePage.Ids(rest));
    KnowledgePage.MembersConcat(KnowledgePage.Ids(knowledge), KnowledgePage.Ids(rest));
    KnowledgePage.DistinctMems(knowledge + rest);
  }

  /** What a search ranks: the knowledge page, then the fact and event rows. */
  function SearchCandidates(hits: seq<KnowledgePage.Hit>, curated: seq<KnowledgePage.Hit>,
                            lexical: seq<KnowledgePage.Hit>,
                            rows: seq<Entry>): seq<Entry> {
    KnowledgePage.PageEntries(hits, curated, lexical) + rows
  }

  /** The lists fusion sees. */
  ghost function FusedLists(t: Trace, weights: map<nat, real>): seq<seq<Fusion.RankedRow>> {
    Sources(t.ranked, weights, t.curated, t.lexical)
  }

  /** The search from its sources' hits to the page: the global knowledge hits (without repeats), the curated and
      lexical lists (repeats allowed, between them and with the global hits), and the fact and event rows. */
  method RunSearch(hits: seq<KnowledgePage.Hit>, curated: seq<KnowledgePage.Hit>, lexical: seq<KnowledgePage.Hit>,
                   threshold: real, rows: seq<Entry>, want: seq<string>,
                   window: nat, items: Option<seq<Reranker.Hit>>, k: nat, topK: nat)
    returns (page: seq<Entry>, ghost t: Trace, ghost weights: map<nat, real>)
    requires Distinct(KnowledgePage.HitIds(hits)) && BareHits(hits) && BareHits(curated) && BareHits(lexical)
    requires Distinct(KnowledgePage.Ids(rows)) && NoCopiesYet(rows)
    requires Members(KnowledgePage.Ids(rows)) !!
             Members(KnowledgePage.HitIds(hits)) + Members(KnowledgePage.HitIds(curated))
               + Members(KnowledgePage.HitIds(lexical))
    requires |hits| + |curated| + |lexical| + |rows| <= USIZE_MAX
    ensures page == if topK < |t.full| then t.full[..topK] else t.full
    ensures KnowledgePage.PageWeights(hits, curated, lexical, threshold, weights)
    ensures Staged(SearchCandidates(hits, curated, lexical, rows), weights, KnowledgePage.HitIds(curated),
                   KnowledgePage.HitIds(lexical), want, window, items, k, t)
    ensures Tagged(SearchCandidates(hits, curated, lexical, rows), want, t.tagged)
    ensures CollapsesTo(t.tagged, t.survivors)
    ensures ScoredByPlace(t.ranked, weights, t.curated, t.lexical, if k < 65535 then k else 65535, t.full)
    ensures DistinctIds(Mems(page)) && DistinctHashes(Mems(page))
    ensures RankedFrom(Filter(SearchCandidates(hits, curated, lexical, rows), HasTags(want)), t.full)
    ensures forall p, q | 0 <= p < q < |t.full| :: EntryBefore(t.full[p], t.full[q])
    ensures KnowledgeHits(hits) && KnowledgeHits(curated) && KnowledgeHits(lexical) ==>
              Fusion.OneSourcePerId(Fusion.AllRows(FusedLists(t, weights)))
  {
    hide *;
    var knowledge, curatedOrder, lexicalOrder := KnowledgePage.KnowledgeCandidates(hits, curated, lexical, threshold);
    PageParts(knowledge);
    PageIsBare(hits, curated, lexical);
    assert SearchCandidates(hits, curated, lexical, rows) == knowledge.scored + rows by {
      PageThenRows(hits, curated, lexical, rows);
    }
    CandidatesAreDistinct(knowledge.scored, rows);
    BothBare(knowledge.scored, rows);
    weights := knowledge.weights;
    if KnowledgeHits(hits) && KnowledgeHits(curated) && KnowledgeHits(lexical) {
      ListsNameKnowledge(hits, curated, lexical, rows, curatedOrder);
      ListsNameKnowledge(hits, curated, lexical, rows, lexicalOrder);
    }
    page, t := RankPage(knowledge.scored + rows, knowledge.weights, curatedOrder, lexicalOrder,
                        want, window, items, k, topK);
    ListsOf(t, weights);
  }

  lemma PageThenRows(hits: seq<KnowledgePage.Hit>, curated: seq<KnowledgePage.Hit>, lexical: seq<KnowledgePage.Hit>,
                     rows: seq<Entry>)
    ensures SearchCandidates(hits, curated, lexical, rows) == KnowledgePage.PageEntries(hits, curated, lexical) + rows
  {
  }

  lemma ListsOf(t: Trace, weights: map<nat, real>)
    ensures FusedLists(t, weights) == Sources(t.ranked, weights, t.curated, t.lexical)
  {
  }

  lemma PageParts(page: KnowledgePage.KnowledgePage)
    requires page.Valid()
    ensures page.present == Members(KnowledgePage.Ids(page.scored)) && Distinct(KnowledgePage.Ids(page.scored))
  {
  }

  lemma BothBare(a: seq<Entry>, b: seq<Entry>)
    requires NoCopiesYet(a) && NoCopiesYet(b)
    ensures NoCopiesYet(a + b)
  {
  }
}
