/** The stages a search's candidates go through: tag filter, collapse, renumber, rerank, fuse, truncate. */
module SearchPage {
  import opened Options
  import opened Sorting
  import opened Collapse
  import opened Candidates
  import Fusion
  import Reranker

  datatype Kind = Knowledge | Fact | Event

  function KindOf(m: Memory): Kind {
    match m.content
    case Knowledge(_, _, _, _) => Kind.Knowledge
    case FactBody => Fact
    case EventBody => Event
  }

  // ----- collapse in place -----

  function EntryHash(e: Entry): Option<string> { HashOf(e.mem) }

  function EntryCopy(e: Entry): Copy { CopyOf(e.mem) }

  /** A survivor keeps its own copies list unless it absorbed something. */
  function WithCopies(x: (Entry, seq<Copy>)): Entry {
    if x.1 == [] then x.0 else x.0.(mem := SetCopies(x.0.mem, x.1))
  }

  ghost predicate NoCopiesYet(entries: seq<Entry>) {
    forall e | e in entries :: CopiesOf(e.mem) == []
  }

  /** The first entry of each hash, carrying the later ones; everything else untouched. */
  ghost predicate CollapsedPage(before: seq<Entry>, after: seq<Entry>) {
    && |after| == |Firsts(before, EntryHash)|
    && forall p | 0 <= p < |after| ::
         after[p] ==
           WithCopies((Firsts(before, EntryHash)[p],
             Absorbed(before, EntryHash, EntryCopy, Firsts(before, EntryHash)[p])))
  }

  lemma WithCopiesKeeps(x: (Entry, seq<Copy>))
    ensures IdOf(WithCopies(x)) == IdOf(x.0) && HashOf(WithCopies(x).mem) == HashOf(x.0.mem)
    ensures CopyOf(WithCopies(x).mem) == CopyOf(x.0.mem) && KindOf(WithCopies(x).mem) == KindOf(x.0.mem)
    ensures HashOf(x.0.mem).Some? && CopiesOf(x.0.mem) == [] ==> CopiesOf(WithCopies(x).mem) == x.1
    ensures x.1 == [] ==> CopiesOf(WithCopies(x).mem) == CopiesOf(x.0.mem)
  {
  }

  lemma CollapsedIsDistinct(before: seq<Entry>, after: seq<Entry>)
    requires CollapsedPage(before, after) && DistinctIds(Mems(before))
    ensures DistinctIds(Mems(after)) && DistinctHashes(Mems(after))
  {
    hide Firsts, Absorbed, WithCopies, HashOf, CopyOf, KindOf, CopiesOf;
    FirstsFacts(before, EntryHash);
    var firsts := Firsts(before, EntryHash);
    forall p | 0 <= p < |after|
      ensures after[p].mem.id == firsts[p].mem.id && HashOf(after[p].mem) == HashOf(firsts[p].mem)
    {
      WithCopiesKeeps((firsts[p], Absorbed(before, EntryHash, EntryCopy, firsts[p])));
    }
    forall p, q | 0 <= p < q < |after| ensures Mems(after)[p].id != Mems(after)[q].id {
      FirstsAreInOrder(before, EntryHash, p, q);
      var i, j :| 0 <= i < j < |before| && before[i] == firsts[p] && before[j] == firsts[q];
      assert Mems(before)[i].id != Mems(before)[j].id;
    }
    forall p, q | 0 <= p < q < |after| ensures !SameContent(Mems(after)[p], Mems(after)[q]) {
      SameContentIsHash(Mems(after)[p], Mems(after)[q]);
      assert EntryHash(firsts[p]).Some? ==> EntryHash(firsts[p]) != EntryHash(firsts[q]);
    }
  }

  /** No candidate before `i` has its content. */
  ghost predicate FirstOfContent(before: seq<Entry>, i: nat)
    requires i < |before|
  {
    forall j | 0 <= j < i :: !SameContent(before[j].mem, before[i].mem)
  }

  /** The candidates after `i` that repeat its content, in order. */
  ghost predicate Repeats(before: seq<Entry>, i: nat, js: seq<nat>)
    requires i < |before|
  {
    && Ascends(js)
    && (forall q | 0 <= q < |js| :: i < js[q] < |before|)
    && (forall j: nat | i < j < |before| :: SameContent(before[j].mem, before[i].mem) <==> j in js)
  }

  /** `copy` names candidate `j`: its id, and the host and path it has if it is knowledge. */
  ghost predicate NamesCandidate(copy: Copy, e: Entry) {
    && copy.id == e.mem.id
    && (e.mem.content.Knowledge? ==> copy.host == e.mem.content.host && copy.file == e.mem.content.sourcePath)
  }

  /** Candidate `i` as it comes out: untouched without repeats, otherwise with one copy for each. */
  ghost predicate ComesOutAs(before: seq<Entry>, i: nat, js: seq<nat>, out: Entry)
    requires i < |before| && Repeats(before, i, js)
  {
    if js == [] then out == before[i]
    else
      && before[i].mem.content.Knowledge? && out.mem.content.Knowledge?
      && out == before[i].(mem := before[i].mem.(content := before[i].mem.content.(copies := out.mem.content.copies)))
      && |out.mem.content.copies| == |js|
      && forall q | 0 <= q < |js| :: NamesCandidate(out.mem.content.copies[q], before[js[q]])
  }

  ghost predicate SurvivesAs(before: seq<Entry>, i: nat, out: Entry)
    requires i < |before|
  {
    exists js: seq<nat> :: Repeats(before, i, js) && ComesOutAs(before, i, js, out)
  }

  ghost predicate SurvivorsAt(before: seq<Entry>, places: seq<nat>, after: seq<Entry>) {
    && Ascends(places) && |places| == |after|
    && (forall p | 0 <= p < |places| :: places[p] < |before| && SurvivesAs(before, places[p], after[p]))
    && (forall i: nat | i < |before| :: FirstOfContent(before, i) <==> i in places)
  }

  /** The first candidate of each content survives, in order, and records every later one in order. */
  ghost predicate CollapsesTo(before: seq<Entry>, after: seq<Entry>) {
    exists places: seq<nat> :: SurvivorsAt(before, places, after)
  }

  lemma FirstIsFirst(before: seq<Entry>, i: nat)
    requires i < |before|
    ensures IsFirst(before, EntryHash, i) <==> FirstOfContent(before, i)
  {
    hide SameContent, HashOf;
    forall j | 0 <= j < i
      ensures SameContent(before[j].mem, before[i].mem) <==>
              EntryHash(before[i]).Some? && EntryHash(before[j]) == EntryHash(before[i])
    {
      SameContentIsHash(before[j].mem, before[i].mem);
    }
  }

  /** The places of a survivor's run are its own and those of its repeats. */
  lemma RunIsRepeats(before: seq<Entry>, i: nat, k: string) returns (js: seq<nat>)
    requires i < |before| && IsFirst(before, EntryHash, i) && EntryHash(before[i]) == Some(k)
    ensures Repeats(before, i, js)
    ensures var copies := Absorbed(before, EntryHash, EntryCopy, before[i]);
            |copies| == |js| && forall q | 0 <= q < |js| :: copies[q] == CopyOf(before[js[q]].mem)
  {
    hide SameContent, HashOf, CopyOf, KeyRun;
    var places := RunPlaces(before, EntryHash, k);
    assert i in places;
    assert places[0] in places;
    assert EntryHash(before[places[0]]) == Some(k);
    assert places[0] == i;
    js := places[1..];
    forall j: nat | i < j < |before| ensures SameContent(before[j].mem, before[i].mem) <==> j in js {
      SameContentIsHash(before[j].mem, before[i].mem);
      assert j in places <==> j in js by {
        assert places == [places[0]] + js;
      }
    }
  }

  lemma CopyNames(e: Entry)
    ensures NamesCandidate(CopyOf(e.mem), e)
  {
  }

  lemma KeylessRepeatsNothing(before: seq<Entry>, i: nat)
    requires i < |before| && EntryHash(before[i]).None?
    ensures Repeats(before, i, [])
  {
    forall j: nat | i < j < |before| ensures !SameContent(before[j].mem, before[i].mem) {
      SameContentIsHash(before[j].mem, before[i].mem);
    }
  }

  lemma FirstSurvives(before: seq<Entry>, i: nat)
    requires i < |before| && IsFirst(before, EntryHash, i)
    ensures SurvivesAs(before, i, WithCopies((before[i], Absorbed(before, EntryHash, EntryCopy, before[i]))))
  {
    hide Absorbed, CopyOf, SameContent, Repeats, NamesCandidate, IsFirst;
    var copies := Absorbed(before, EntryHash, EntryCopy, before[i]);
    var out := WithCopies((before[i], copies));
    if EntryHash(before[i]).None? {
      AbsorbedNone(before, EntryHash, EntryCopy, before[i]);
      KeylessRepeatsNothing(before, i);
      assert ComesOutAs(before, i, [], out);
    } else {
      var js := RunIsRepeats(before, i, EntryHash(before[i]).value);
      RepeatsStand(before, i, js);
      forall q | 0 <= q < |js| ensures NamesCandidate(copies[q], before[js[q]]) {
        CopyNames(before[js[q]]);
      }
      assert ComesOutAs(before, i, js, out);
    }
  }

  lemma RepeatsStand(before: seq<Entry>, i: nat, js: seq<nat>)
    requires i < |before| && Repeats(before, i, js)
    ensures forall q | 0 <= q < |js| :: js[q] < |before|
  {
  }

  lemma CollapseTells(before: seq<Entry>, after: seq<Entry>)
    requires CollapsedPage(before, after)
    ensures CollapsesTo(before, after)
  {
    hide Firsts, Absorbed, WithCopies, IsFirst, FirstOfContent, SurvivesAs;
    var places := FirstPlaces(before, EntryHash);
    forall i: nat | i < |before| ensures FirstOfContent(before, i) <==> i in places {
      FirstIsFirst(before, i);
    }
    forall p | 0 <= p < |places| ensures SurvivesAs(before, places[p], after[p]) {
      assert places[p] in places;
      FirstSurvives(before, places[p]);
    }
    assert SurvivorsAt(before, places, after);
  }

  lemma {:induction false} CarriedIsCopies(out: seq<(Entry, seq<Copy>)>, after: seq<Entry>)
    requires |after| == |out| && forall p | 0 <= p < |out| ::
               after[p] == WithCopies(out[p]) && CopiesOf(out[p].0.mem) == []
                 && (HashOf(out[p].0.mem).None? ==> out[p].1 == [])
    ensures Carried(Mems(after)) == Copies(out)
  {
    hide WithCopies, HashOf, CopiesOf;
    if out != [] {
      var last := |out| - 1;
      CarriedIsCopies(out[..last], after[..last]);
      WithCopiesKeeps(out[last]);
      assert Mems(after)[..last] == Mems(after[..last]);
    } else {
      assert Mems(after) == [];
    }
  }

  lemma {:induction false} NothingCarried(entries: seq<Entry>)
    requires NoCopiesYet(entries)
    ensures Carried(Mems(entries)) == []
  {
    hide CopiesOf;
    if entries != [] {
      var last := |entries| - 1;
      NothingCarried(entries[..last]);
      assert Mems(entries)[..last] == Mems(entries[..last]);
      assert entries[last] in entries;
    }
  }

  /** Survivors plus what they recorded are the candidates, nothing more and nothing less. */
  lemma CollapseConserves(before: seq<Entry>, out: seq<(Entry, seq<Copy>)>, after: seq<Entry>)
    requires Collapsed(before, EntryHash, EntryCopy, out) && Conserves(before, EntryCopy, out)
    requires NoCopiesYet(before)
    requires |after| == |out| && forall p | 0 <= p < |out| :: after[p] == WithCopies(out[p])
    ensures CollapsedPage(before, after)
    ensures StandsFor(Mems(after)) == StandsFor(Mems(before))
  {
    hide Firsts, Absorbed, WithCopies, Carried, Copies, HashOf, CopyOf, CopiesOf, KindOf;
    FirstsFacts(before, EntryHash);
    forall p | 0 <= p < |out| ensures CopiesOf(out[p].0.mem) == [] && (HashOf(out[p].0.mem).None? ==> out[p].1 == []) {
      assert out[p].0 == Firsts(before, EntryHash)[p];
      assert out[p].0 in before;
      if HashOf(out[p].0.mem).None? { AbsorbedNone(before, EntryHash, EntryCopy, out[p].0); }
    }
    forall p | 0 <= p < |out|
      ensures after[p] ==
                WithCopies((Firsts(before, EntryHash)[p],
                  Absorbed(before, EntryHash, EntryCopy, Firsts(before, EntryHash)[p])))
    {
      assert out[p] == (out[p].0, out[p].1);
    }
    CarriedIsCopies(out, after);
    NothingCarried(before);
    CopiesAgree(before, MapSeq(before, EntryCopy));
    forall p | 0 <= p < |out| ensures CopyOf(after[p].mem) == EntryCopy(Survivors(out)[p]) { WithCopiesKeeps(out[p]); }
    assert MapSeq(Mems(after), CopyOf) == MapSeq(Survivors(out), EntryCopy);
  }

  lemma CopiesAgree(entries: seq<Entry>, copies: seq<Copy>)
    requires copies == MapSeq(entries, EntryCopy)
    ensures MapSeq(Mems(entries), CopyOf) == copies
  {
  }

  // ----- renumber -----

  function KindCount(entries: seq<Entry>, kind: Kind): nat {
    if entries == [] then 0
    else
      KindCount(entries[..|entries| - 1], kind) + if KindOf(entries[|entries| - 1].mem) == kind then 1 else 0
  }

  /** Each entry's rank is how many of its kind stand before it. */
  ghost predicate Renumbered(before: seq<Entry>, after: seq<Entry>) {
    && |after| == |before|
    && forall p | 0 <= p < |after| :: after[p] == before[p].(rank := KindCount(before[..p], KindOf(before[p].mem)))
  }

  lemma KindCountSnoc(entries: seq<Entry>, n: nat, kind: Kind)
    requires n < |entries|
    ensures KindCount(entries[..n + 1], kind) ==
            KindCount(entries[..n], kind) + if KindOf(entries[n].mem) == kind then 1 else 0
  {
    assert entries[..n + 1][..n] == entries[..n];
  }

  lemma {:induction false} KindCountGrows(entries: seq<Entry>, p: nat, q: nat, kind: Kind)
    requires p <= q <= |entries|
    ensures KindCount(entries[..p], kind) <= KindCount(entries[..q], kind)
  {
    if p < q {
      KindCountGrows(entries, p, q - 1, kind);
      KindCountSnoc(entries, q - 1, kind);
    }
  }

  /** Within a kind the ranks climb with the list and stay below the kind's count ... */
  lemma RanksClimb(before: seq<Entry>, after: seq<Entry>, p: nat, q: nat)
    requires Renumbered(before, after)
    requires p < q < |after| && KindOf(after[p].mem) == KindOf(after[q].mem)
    ensures after[p].rank < after[q].rank < KindCount(before, KindOf(after[q].mem))
  {
    hide KindOf, KindCount;
    var kind := KindOf(after[q].mem);
    KindOfRanked(before[p].mem, before, after, p);
    KindOfRanked(before[q].mem, before, after, q);
    KindCountSnoc(before, p, kind);
    KindCountGrows(before, p + 1, q, kind);
    KindCountSnoc(before, q, kind);
    KindCountGrows(before, q + 1, |before|, kind);
    assert before[..|before|] == before;
  }

  lemma KindOfRanked(m: Memory, before: seq<Entry>, after: seq<Entry>, p: nat)
    requires Renumbered(before, after) && p < |after| && m == before[p].mem
    ensures after[p].mem == m && after[p].rank == KindCount(before[..p], KindOf(m))
  {
  }

  /** ... and every rank below that count is taken: 0, 1, 2, ... without a hole. */
  lemma EveryRankIsTaken(before: seq<Entry>, after: seq<Entry>, kind: Kind, r: nat)
    requires Renumbered(before, after)
    requires r < KindCount(before, kind)
    ensures exists p | 0 <= p < |after| :: KindOf(after[p].mem) == kind && after[p].rank == r
  {
    assert before[..|before|] == before;
    var p := FindRank(before, |before|, kind, r);
    assert KindOf(after[p].mem) == kind && after[p].rank == r;
  }

  lemma {:induction false} FindRank(entries: seq<Entry>, n: nat, kind: Kind, r: nat) returns (p: nat)
    requires n <= |entries| && r < KindCount(entries[..n], kind)
    ensures p < n && KindOf(entries[p].mem) == kind && KindCount(entries[..p], kind) == r
  {
    KindCountSnoc(entries, n - 1, kind);
    if r < KindCount(entries[..n - 1], kind) {
      p := FindRank(entries, n - 1, kind, r);
    } else {
      p := n - 1;
    }
  }

  // ----- rerank -----

  /** The knowledge list after a rerank: the window in scorer order, then the tail, ranked from zero. */
  function RerankedKnowledge(knowledge: seq<Entry>, hits: seq<Reranker.Hit>): (r: seq<Entry>)
    requires |hits| <= |knowledge| && forall h | h in hits :: h.index < |knowledge|
    ensures |r| == |knowledge|
    ensures forall p | 0 <= p < |r| :: r[p] == Leading(knowledge, hits, p).(rank := RankU32(p))
  {
    seq(|knowledge|, p requires 0 <= p < |knowledge| => Leading(knowledge, hits, p).(rank := RankU32(p)))
  }

  function Leading(knowledge: seq<Entry>, hits: seq<Reranker.Hit>, p: nat): Entry
    requires p < |knowledge| && |hits| <= |knowledge| && forall h | h in hits :: h.index < |knowledge|
  {
    if p < |hits| then knowledge[hits[p].index] else knowledge[p]
  }

  const USIZE_MAX: nat := 0xFFFF_FFFF_FFFF_FFFF

  function RankOf(rank: map<nat, nat>, id: nat): nat {
    if id in rank then rank[id] else USIZE_MAX
  }

  function ByRank(rank: map<nat, nat>): (nat, nat) -> bool {
    (a: nat, b: nat) => RankOf(rank, a) <= RankOf(rank, b)
  }

  function EntriesByRank(rank: map<nat, nat>): (Entry, Entry) -> bool {
    (a: Entry, b: Entry) => RankOf(rank, a.mem.id) <= RankOf(rank, b.mem.id)
  }

  lemma RankOrdersAreTotal(rank: map<nat, nat>)
    ensures TotalPreorder(ByRank(rank)) && TotalPreorder(EntriesByRank(rank))
  {
  }

  /** `rank` numbers the knowledge list as reranked. */
  ghost predicate NewRanks(knowledge: seq<Entry>, hits: seq<Reranker.Hit>, rank: map<nat, nat>)
    requires |hits| <= |knowledge| && forall h | h in hits :: h.index < |knowledge|
  {
    forall p | 0 <= p < |knowledge| ::
      Leading(knowledge, hits, p).mem.id in rank && rank[Leading(knowledge, hits, p).mem.id] == p
  }

  function Leaders(knowledge: seq<Entry>, hits: seq<Reranker.Hit>): (r: seq<Entry>)
    requires |hits| <= |knowledge| && forall h | h in hits :: h.index < |knowledge|
    ensures |r| == |knowledge|
    ensures forall p | 0 <= p < |r| :: r[p] == Leading(knowledge, hits, p)
  {
    seq(|knowledge|, p requires 0 <= p < |knowledge| => Leading(knowledge, hits, p))
  }

  /** Reordering by the window's indices loses no entry. */
  lemma LeadersArePermuted(knowledge: seq<Entry>, hits: seq<Reranker.Hit>, rank: map<nat, nat>)
    requires Reranker.ScoresEachOnce(hits, |hits|) && |hits| <= |knowledge| && DistinctIds(Mems(knowledge))
    requires forall h | h in hits :: h.index < |knowledge|
    requires NewRanks(knowledge, hits, rank)
    ensures multiset(Leaders(knowledge, hits)) == multiset(knowledge)
    ensures SortedBy(Leaders(knowledge, hits), EntriesByRank(rank))
              && NoTies(Leaders(knowledge, hits), EntriesByRank(rank))
  {
    var leaders := Leaders(knowledge, hits);
    assert forall p | 0 <= p < |leaders| :: RankOf(rank, leaders[p].mem.id) == p by {
      forall p | 0 <= p < |leaders| ensures RankOf(rank, leaders[p].mem.id) == p {
        assert leaders[p] == Leading(knowledge, hits, p);
      }
    }
    assert Distinct(knowledge) by {
      forall i, j | 0 <= i < j < |knowledge| ensures knowledge[i] != knowledge[j] {
        assert Mems(knowledge)[i].id != Mems(knowledge)[j].id;
      }
    }
    assert Distinct(leaders);
    forall x | x in knowledge ensures x in leaders {
      var t :| 0 <= t < |knowledge| && knowledge[t] == x;
      if t < |hits| {
        Reranker.EveryTextIsScored(hits, |hits|, t);
        var p :| 0 <= p < |hits| && hits[p].index == t;
        assert leaders[p] == x;
      } else {
        assert leaders[t] == x;
      }
    }
    forall x | x in leaders ensures x in knowledge {
      var p :| 0 <= p < |leaders| && leaders[p] == x;
      if p < |hits| { assert knowledge[hits[p].index] == x; }
    }
    SameSetSameMultiset(leaders, knowledge);
  }

  /** Sorting by the new ranks puts the leaders in line. */
  lemma SortedKnowledge(knowledge: seq<Entry>, hits: seq<Reranker.Hit>, rank: map<nat, nat>)
    requires Reranker.ScoresEachOnce(hits, |hits|) && |hits| <= |knowledge| && DistinctIds(Mems(knowledge))
    requires forall h | h in hits :: h.index < |knowledge|
    requires NewRanks(knowledge, hits, rank)
    ensures StableSort(knowledge, EntriesByRank(rank)) == Leaders(knowledge, hits)
  {
    hide *;
    LeadersArePermuted(knowledge, hits, rank);
    RankOrdersAreTotal(rank);
    StableSortPermutes(knowledge, EntriesByRank(rank));
    StableSortSorted(knowledge, EntriesByRank(rank));
    SortedUnique(Leaders(knowledge, hits), StableSort(knowledge, EntriesByRank(rank)), EntriesByRank(rank));
  }

  /** `order` names ids in the order the knowledge list shows them; ids it does not show go last. */
  ghost predicate FollowsPage(order: seq<nat>, knowledge: seq<Entry>) {
    forall i, j, q | 0 <= i < j < |order| && 0 <= q < |knowledge| && knowledge[q].mem.id == order[j] ::
      exists p :: 0 <= p <= q && knowledge[p].mem.id == order[i]
  }

  lemma SortedOrderFollows(order: seq<nat>, knowledge: seq<Entry>, hits: seq<Reranker.Hit>, rank: map<nat, nat>)
    requires |hits| <= |knowledge| <= USIZE_MAX && forall h | h in hits :: h.index < |knowledge|
    requires NewRanks(knowledge, hits, rank)
    requires forall id | id in rank :: rank[id] < |knowledge| && Leading(knowledge, hits, rank[id]).mem.id == id
    requires SortedBy(order, ByRank(rank))
    ensures FollowsPage(order, RerankedKnowledge(knowledge, hits))
  {
    var page := RerankedKnowledge(knowledge, hits);
    forall i, j, q | 0 <= i < j < |order| && 0 <= q < |page| && page[q].mem.id == order[j]
      ensures exists p :: 0 <= p <= q && page[p].mem.id == order[i]
    {
      assert page[q] == Leading(knowledge, hits, q).(rank := RankU32(q));
      assert rank[order[j]] == q;
      assert ByRank(rank)(order[i], order[j]);
      var p := RankOf(rank, order[i]);
      assert order[i] in rank;
      assert page[p] == Leading(knowledge, hits, p).(rank := RankU32(p));
    }
  }

  lemma LeadingDistinct(knowledge: seq<Entry>, hits: seq<Reranker.Hit>, p: nat, q: nat)
    requires Reranker.ScoresEachOnce(hits, |hits|) && |hits| <= |knowledge| && DistinctIds(Mems(knowledge))
    requires forall h | h in hits :: h.index < |knowledge|
    requires p < q < |knowledge|
    ensures Leading(knowledge, hits, p).mem.id != Leading(knowledge, hits, q).mem.id
  {
    var i := if p < |hits| then hits[p].index else p;
    var j := if q < |hits| then hits[q].index else q;
    if i < j { assert Mems(knowledge)[i].id != Mems(knowledge)[j].id; }
    else { assert Mems(knowledge)[j].id != Mems(knowledge)[i].id; }
  }

  lemma FilterOne(e: Entry, keep: Entry -> bool)
    ensures Filter([e], keep) == if keep(e) then [e] else []
  {
  }

  lemma FilterAdd(entries: seq<Entry>, e: Entry, keep: Entry -> bool)
    ensures Filter(entries + [e], keep) == Filter(entries, keep) + if keep(e) then [e] else []
  {
    hide *;
    FilterConcat(entries, [e], keep);
    FilterOne(e, keep);
  }

  lemma FilterSnoc(entries: seq<Entry>, n: nat, keep: Entry -> bool)
    requires n < |entries|
    ensures Filter(entries[..n + 1], keep) == Filter(entries[..n], keep) + if keep(entries[n]) then [entries[n]] else []
  {
    hide *;
    var before := entries[..n];
    assert entries[..n + 1] == before + [entries[n]];
    FilterAdd(before, entries[n], keep);
  }

  lemma FilterPrefix(entries: seq<Entry>, n: nat, keep: Entry -> bool)
    requires n <= |entries|
    ensures Filter(entries[..n], keep) <= Filter(entries, keep)
  {
    hide *;
    var front, back := entries[..n], entries[n..];
    assert entries == front + back;
    FilterFront(front, back, keep);
  }

  lemma FilterFront(front: seq<Entry>, back: seq<Entry>, keep: Entry -> bool)
    ensures Filter(front, keep) <= Filter(front + back, keep)
  {
    hide *;
    FilterConcat(front, back, keep);
  }

  /** The first `n` new ranks are handed out, and nothing else. */
  ghost predicate RanksUpTo(knowledge: seq<Entry>, hits: seq<Reranker.Hit>, rank: map<nat, nat>, n: nat)
    requires |hits| <= |knowledge| && forall h | h in hits :: h.index < |knowledge|
    requires n <= |knowledge|
  {
    && (forall p | 0 <= p < n ::
          Leading(knowledge, hits, p).mem.id in rank && rank[Leading(knowledge, hits, p).mem.id] == p)
    && (forall id | id in rank :: rank[id] < n && Leading(knowledge, hits, rank[id]).mem.id == id)
  }

  lemma NextRank(knowledge: seq<Entry>, hits: seq<Reranker.Hit>, rank: map<nat, nat>, n: nat)
    requires Reranker.ScoresEachOnce(hits, |hits|) && |hits| <= |knowledge| && DistinctIds(Mems(knowledge))
    requires forall h | h in hits :: h.index < |knowledge|
    requires n < |knowledge| && RanksUpTo(knowledge, hits, rank, n)
    ensures Leading(knowledge, hits, n).mem.id !in rank
    ensures RanksUpTo(knowledge, hits, rank[Leading(knowledge, hits, n).mem.id := n], n + 1)
  {
    hide Leading, Reranker.ScoresEachOnce, DistinctIds;
    var id := Leading(knowledge, hits, n).mem.id;
    forall p | 0 <= p < n ensures Leading(knowledge, hits, p).mem.id != id { LeadingDistinct(knowledge, hits, p, n); }
    assert id !in rank;
  }

  /** id -> new knowledge rank: the scored window first, then the tail in its prior order. */
  method RankMap(scored: seq<Entry>, windowIds: seq<nat>, hits: seq<Reranker.Hit>) returns (rank: map<nat, nat>)
    requires DistinctIds(Mems(Filter(scored, IsKnowledge)))
    requires |windowIds| == |hits| <= |Filter(scored, IsKnowledge)|
    requires forall t | 0 <= t < |windowIds| :: windowIds[t] == Filter(scored, IsKnowledge)[t].mem.id
    requires Reranker.ScoresEachOnce(hits, |hits|) && forall h | h in hits :: h.index < |hits|
    ensures RanksUpTo(Filter(scored, IsKnowledge), hits, rank, |Filter(scored, IsKnowledge)|)
  {
    hide RanksUpTo, DistinctIds, Filter, Reranker.ScoresEachOnce;
    ghost var knowledge := Filter(scored, IsKnowledge);
    rank := map[];
    assert RanksUpTo(knowledge, hits, rank, 0) by { NoRanksYet(knowledge, hits); }
    for r := 0 to |hits|
      invariant RanksUpTo(knowledge, hits, rank, r) && |rank| == r
    {
      assert hits[r] in hits;
      NextRank(knowledge, hits, rank, r);
      assert windowIds[hits[r].index] == Leading(knowledge, hits, r).mem.id;
      rank := rank[windowIds[hits[r].index] := r];
    }
    var next := |rank|;
    assert Filter(scored[..0], IsKnowledge) == [] by { FilterNothing(scored); }
    for i := 0 to |scored|
      invariant Filter(scored[..i], IsKnowledge) <= knowledge
      invariant next == if |Filter(scored[..i], IsKnowledge)| < |hits|
                  then |hits| else |Filter(scored[..i], IsKnowledge)|
      invariant RanksUpTo(knowledge, hits, rank, next)
    {
      var e := scored[i];
      ghost var c := |Filter(scored[..i], IsKnowledge)|;
      FilterSnoc(scored, i, IsKnowledge);
      FilterPrefix(scored, i + 1, IsKnowledge);
      if IsKnowledge(e) {
        assert knowledge[c] == e;
        if c < |hits| {
          WindowIsRanked(knowledge, hits, rank, c);
        } else {
          NextRank(knowledge, hits, rank, c);
          assert Leading(knowledge, hits, c) == e;
        }
        if e.mem.id !in rank {
          rank := rank[e.mem.id := next];
          next := next + 1;
        }
      }
    }
    assert scored[..|scored|] == scored;
  }

  lemma NoRanksYet(knowledge: seq<Entry>, hits: seq<Reranker.Hit>)
    requires |hits| <= |knowledge| && forall h | h in hits :: h.index < |knowledge|
    ensures RanksUpTo(knowledge, hits, map[], 0)
  {
  }

  lemma FilterNothing(scored: seq<Entry>)
    ensures Filter(scored[..0], IsKnowledge) == [] && Filter(scored[..0], IsOther) == []
  {
  }

  lemma WindowIsRanked(knowledge: seq<Entry>, hits: seq<Reranker.Hit>, rank: map<nat, nat>, t: nat)
    requires Reranker.ScoresEachOnce(hits, |hits|) && |hits| <= |knowledge|
    requires forall h | h in hits :: h.index < |knowledge|
    requires RanksUpTo(knowledge, hits, rank, |hits|) && t < |hits|
    ensures knowledge[t].mem.id in rank
  {
    Reranker.EveryTextIsScored(hits, |hits|, t);
    var p :| 0 <= p < |hits| && hits[p].index == t;
    assert Leading(knowledge, hits, p) == knowledge[t];
  }

  method Partition(scored: seq<Entry>) returns (knowledge: seq<Entry>, others: seq<Entry>)
    ensures knowledge == Filter(scored, IsKnowledge) && others == Filter(scored, IsOther)
  {
    knowledge, others := [], [];
    for i := 0 to |scored|
      invariant knowledge == Filter(scored[..i], IsKnowledge) && others == Filter(scored[..i], IsOther)
    {
      hide Filter;
      FilterSnoc(scored, i, IsKnowledge);
      FilterSnoc(scored, i, IsOther);
      if IsKnowledge(scored[i]) {
        knowledge := knowledge + [scored[i]];
      } else {
        others := others + [scored[i]];
      }
    }
    assert scored[..|scored|] == scored;
  }

  /** The reranked list holds the same memories. */
  lemma RerankKeepsMems(scored: seq<Entry>, hits: seq<Reranker.Hit>, rank: map<nat, nat>)
    requires DistinctIds(Mems(Filter(scored, IsKnowledge)))
    requires Reranker.ScoresEachOnce(hits, |hits|) && |hits| <= |Filter(scored, IsKnowledge)|
    requires forall h | h in hits :: h.index < |Filter(scored, IsKnowledge)|
    requires NewRanks(Filter(scored, IsKnowledge), hits, rank)
    ensures multiset(Mems(RerankedKnowledge(Filter(scored, IsKnowledge), hits) + Filter(scored, IsOther))) ==
              multiset(Mems(scored))
  {
    hide Filter, DistinctIds, Reranker.ScoresEachOnce, NewRanks, Leading;
    var knowledge, others := Filter(scored, IsKnowledge), Filter(scored, IsOther);
    LeadersArePermuted(knowledge, hits, rank);
    KindsSplit(scored);
    var leaders := Leaders(knowledge, hits);
    assert multiset(leaders + others) == multiset(scored);
    MapPermuted(leaders + others, scored, MemOf);
    assert Mems(RerankedKnowledge(knowledge, hits) + others) == Mems(leaders + others);
  }

  // ----- fuse -----

  function SourceFor(kind: Kind): Fusion.RetrievalSource {
    if kind == Kind.Knowledge then Fusion.Vector else Fusion.Fts
  }

  function WeightOf(weights: map<nat, real>, id: nat): real {
    if id in weights then weights[id] else 1.0
  }

  function RowFor(weights: map<nat, real>, source: Fusion.RetrievalSource, id: nat): Fusion.RankedRow {
    Fusion.RankedRow(source, id, 0.0, Fusion.Null, WeightOf(weights, id))
  }

  /** One kind's entries as a ranked list. */
  function KindRows(entries: seq<Entry>, kind: Kind, weights: map<nat, real>): seq<Fusion.RankedRow> {
    if entries == [] then []
    else
      var last := |entries| - 1;
      if KindOf(entries[last].mem) == kind
      then KindRows(entries[..last], kind, weights) + [RowFor(weights, SourceFor(kind), entries[last].mem.id)]
      else KindRows(entries[..last], kind, weights)
  }

  function RankList(order: seq<nat>, weights: map<nat, real>): seq<Fusion.RankedRow> {
    seq(|order|, i requires 0 <= i < |order| => RowFor(weights, Fusion.Vector, order[i]))
  }

  /** The lists that are fused: one a kind, then the curated and the lexical order when there is one. */
  function Sources(entries: seq<Entry>, weights: map<nat, real>, curated: seq<nat>,
                   lexical: seq<nat>): seq<seq<Fusion.RankedRow>> {
    [KindRows(entries, Kind.Knowledge, weights), KindRows(entries, Fact, weights), KindRows(entries, Event, weights)]
    + (if curated == [] then [] else [RankList(curated, weights)])
    + (if lexical == [] then [] else [RankList(lexical, weights)])
  }

  lemma KindRowsSnoc(entries: seq<Entry>, n: nat, kind: Kind, weights: map<nat, real>)
    requires n < |entries|
    ensures KindRows(entries[..n + 1], kind, weights) == KindRows(entries[..n], kind, weights)
              + if KindOf(entries[n].mem) == kind then [RowFor(weights, SourceFor(kind), entries[n].mem.id)] else []
  {
    assert entries[..n + 1][..n] == entries[..n];
  }

  lemma {:induction false} KindRowsFacts(entries: seq<Entry>, kind: Kind, weights: map<nat, real>)
    ensures forall r | r in KindRows(entries, kind, weights) ::
              r.source == SourceFor(kind) && exists e | e in entries :: e.mem.id == r.id && KindOf(e.mem) == kind
    ensures forall e | e in entries && KindOf(e.mem) == kind ::
              RowFor(weights, SourceFor(kind), e.mem.id) in KindRows(entries, kind, weights)
  {
    if entries != [] {
      hide KindOf, SourceFor;
      var last := |entries| - 1;
      KindRowsFacts(entries[..last], kind, weights);
      assert entries == entries[..last] + [entries[last]];
      forall r | r in KindRows(entries, kind, weights)
        ensures r.source == SourceFor(kind) && exists e | e in entries :: e.mem.id == r.id && KindOf(e.mem) == kind
      {
        if r in KindRows(entries[..last], kind, weights) {
          var e :| e in entries[..last] && e.mem.id == r.id && KindOf(e.mem) == kind;
          assert e in entries;
        } else {
          assert entries[last] in entries;
        }
      }
    }
  }

  lemma FirstOfConcat(a: seq<Fusion.RankedRow>, b: seq<Fusion.RankedRow>, id: nat)
    requires Fusion.Has(a, id)
    ensures Fusion.Has(a + b, id) && Fusion.First(a + b, id) == Fusion.First(a, id)
  {
    var r :| r in a && r.id == id;
    assert r in a + b;
    if a[0].id != id {
      assert r in a[1..];
      FirstOfConcat(a[1..], b, id);
      assert (a + b)[1..] == a[1..] + b;
    }
  }

  lemma ThreeLists(k: seq<Fusion.RankedRow>, f: seq<Fusion.RankedRow>, e: seq<Fusion.RankedRow>)
    ensures Fusion.AllRows([k, f, e]) == k + f + e
  {
    Fusion.SourcesSnoc([], k, 0);
    Fusion.SourcesSnoc([k], f, 0);
    Fusion.SourcesSnoc([k, f], e, 0);
    assert [k, f, e] == [k, f] + [e] && [k, f] == [k] + [f] && [k] == [] + [k];
    assert [] + k == k;
  }

  /** A list that is only there when it holds something. */
  lemma OptionalList(sources: seq<seq<Fusion.RankedRow>>, order: seq<nat>, weights: map<nat, real>)
    ensures Fusion.AllRows(sources + if order == [] then [] else [RankList(order, weights)]) ==
            Fusion.AllRows(sources) + RankList(order, weights)
  {
    if order == [] {
      assert RankList(order, weights) == [] && sources + [] == sources;
    } else {
      Fusion.SourcesSnoc(sources, RankList(order, weights), 0);
    }
  }

  lemma SourcesAllRows(entries: seq<Entry>, weights: map<nat, real>, curated: seq<nat>, lexical: seq<nat>)
    ensures Fusion.AllRows(Sources(entries, weights, curated, lexical)) ==
            KindRows(entries, Kind.Knowledge, weights) + KindRows(entries, Fact, weights)
              + KindRows(entries, Event, weights)
            + (RankList(curated, weights) + RankList(lexical, weights))
  {
    hide KindRows, RankList, Fusion.AllRows;
    var k, f, e :=
      KindRows(entries, Kind.Knowledge, weights), KindRows(entries, Fact, weights), KindRows(entries, Event, weights);
    ThreeLists(k, f, e);
    OptionalList([k, f, e], curated, weights);
    OptionalList([k, f, e] + (if curated == [] then [] else [RankList(curated, weights)]), lexical, weights);
  }

  /** An entry's fused row keeps the source of the entry's own kind. */
  lemma FusedSource(entries: seq<Entry>, weights: map<nat, real>, curated: seq<nat>, lexical: seq<nat>, e: Entry)
    requires e in entries && DistinctIds(Mems(entries))
    ensures Fusion.Has(Fusion.AllRows(Sources(entries, weights, curated, lexical)), e.mem.id)
    ensures Fusion.First(Fusion.AllRows(Sources(entries, weights, curated, lexical)), e.mem.id).source ==
              SourceFor(KindOf(e.mem))
  {
    hide *;
    var own := KindRows(entries, Kind.Knowledge, weights) + KindRows(entries, Fact, weights)
      + KindRows(entries, Event, weights);
    OwnRows(entries, weights, e);
    SourcesAllRows(entries, weights, curated, lexical);
    FirstOfConcat(own, RankList(curated, weights) + RankList(lexical, weights), e.mem.id);
  }

  /** No entry but knowledge is named by `order`. */
  ghost predicate NamesKnowledge(entries: seq<Entry>, order: seq<nat>) {
    forall e | e in entries && e.mem.id in order :: IsKnowledge(e)
  }

  lemma OwnRowSource(entries: seq<Entry>, weights: map<nat, real>, r: Fusion.RankedRow)
    requires DistinctIds(Mems(entries))
    requires r in KindRows(entries, Kind.Knowledge, weights) + KindRows(entries, Fact, weights)
               + KindRows(entries, Event, weights)
    ensures exists e | e in entries :: e.mem.id == r.id && r.source == SourceFor(KindOf(e.mem))
  {
    hide KindRows, SourceFor, KindOf, DistinctIds, Mems;
    var kind := if r in KindRows(entries, Kind.Knowledge, weights) then Kind.Knowledge
                else if r in KindRows(entries, Fact, weights) then Fact else Event;
    KindRowsFacts(entries, kind, weights);
    var e :| e in entries && e.mem.id == r.id && KindOf(e.mem) == kind;
    RowOf(entries, kind, weights, r, e);
  }

  lemma RankRow(order: seq<nat>, weights: map<nat, real>, id: nat)
    ensures forall r | r in RankList(order, weights) :: r.id in order && r.source == Fusion.Vector
    ensures id in order ==> RowFor(weights, Fusion.Vector, id) in RankList(order, weights)
  {
    if id in order {
      var i :| 0 <= i < |order| && order[i] == id;
      assert RankList(order, weights)[i] == RowFor(weights, Fusion.Vector, id);
    }
  }

  lemma SourceIsKind(e: Entry)
    ensures SourceFor(KindOf(e.mem)) == if IsKnowledge(e) then Fusion.Vector else Fusion.Fts
  {
  }

  /** Where a row of a search comes from: an entry of the source's kind, or an auxiliary order. */
  lemma SearchRowSource(entries: seq<Entry>, weights: map<nat, real>, curated: seq<nat>, lexical: seq<nat>,
                        r: Fusion.RankedRow)
    requires DistinctIds(Mems(entries)) && r in Fusion.AllRows(Sources(entries, weights, curated, lexical))
    ensures || (exists e | e in entries :: e.mem.id == r.id && r.source == SourceFor(KindOf(e.mem)))
            || ((r.id in curated || r.id in lexical) && r.source == Fusion.Vector)
  {
    hide *;
    SourcesAllRows(entries, weights, curated, lexical);
    RankRow(curated, weights, r.id);
    RankRow(lexical, weights, r.id);
    if r in KindRows(entries, Kind.Knowledge, weights) + KindRows(entries, Fact, weights)
      + KindRows(entries, Event, weights) {
      OwnRowSource(entries, weights, r);
    }
  }

  /** A search's lists put every id under one source exactly when the auxiliary orders name no fact or event. */
  lemma SearchSourcesAreOnePerId(entries: seq<Entry>, weights: map<nat, real>, curated: seq<nat>, lexical: seq<nat>)
    requires DistinctIds(Mems(entries))
    ensures Fusion.OneSourcePerId(Fusion.AllRows(Sources(entries, weights, curated, lexical))) <==>
            NamesKnowledge(entries, curated) && NamesKnowledge(entries, lexical)
  {
    hide DistinctIds, Mems, Sources, SourceFor, KindOf, Fusion.AllRows;
    var rows := Fusion.AllRows(Sources(entries, weights, curated, lexical));
    if NamesKnowledge(entries, curated) && NamesKnowledge(entries, lexical) {
      forall a, b | a in rows && b in rows && a.id == b.id ensures a.source == b.source {
        AgreeingRows(entries, weights, curated, lexical, a, b);
      }
    }
    if Fusion.OneSourcePerId(rows) {
      forall e | e in entries && (e.mem.id in curated || e.mem.id in lexical) ensures IsKnowledge(e) {
        OwnAndAuxRows(entries, weights, curated, lexical, e);
        SourceIsKind(e);
      }
    }
  }

  lemma AgreeingRows(entries: seq<Entry>, weights: map<nat, real>, curated: seq<nat>, lexical: seq<nat>,
                     a: Fusion.RankedRow, b: Fusion.RankedRow)
    requires DistinctIds(Mems(entries)) && NamesKnowledge(entries, curated) && NamesKnowledge(entries, lexical)
    requires a in Fusion.AllRows(Sources(entries, weights, curated, lexical))
    requires b in Fusion.AllRows(Sources(entries, weights, curated, lexical))
    requires a.id == b.id
    ensures a.source == b.source
  {
    hide DistinctIds, Mems, Sources, SourceFor, KindOf, Fusion.AllRows, IsKnowledge;
    SearchRowSource(entries, weights, curated, lexical, a);
    SearchRowSource(entries, weights, curated, lexical, b);
    if e :| e in entries && e.mem.id == a.id && a.source == SourceFor(KindOf(e.mem)) {
      SourceIsKind(e);
      if f :| f in entries && f.mem.id == b.id && b.source == SourceFor(KindOf(f.mem)) {
        SameIdSameEntry(entries, e, f);
      }
    } else if f :| f in entries && f.mem.id == b.id && b.source == SourceFor(KindOf(f.mem)) {
      SourceIsKind(f);
    }
  }

  lemma OwnAndAuxRows(entries: seq<Entry>, weights: map<nat, real>, curated: seq<nat>, lexical: seq<nat>, e: Entry)
    requires DistinctIds(Mems(entries)) && e in entries && (e.mem.id in curated || e.mem.id in lexical)
    ensures var own := RowFor(weights, SourceFor(KindOf(e.mem)), e.mem.id);
            own in Fusion.AllRows(Sources(entries, weights, curated, lexical))
    ensures RowFor(weights, Fusion.Vector, e.mem.id) in Fusion.AllRows(Sources(entries, weights, curated, lexical))
  {
    hide *;
    SourcesAllRows(entries, weights, curated, lexical);
    OwnRow(entries, KindOf(e.mem), weights, e);
    RankRow(curated, weights, e.mem.id);
    RankRow(lexical, weights, e.mem.id);
  }

  lemma OwnRows(entries: seq<Entry>, weights: map<nat, real>, e: Entry)
    requires e in entries && DistinctIds(Mems(entries))
    ensures var own :=
              KindRows(entries, Kind.Knowledge, weights) + KindRows(entries, Fact, weights)
                + KindRows(entries, Event, weights);
            Fusion.Has(own, e.mem.id) && Fusion.First(own, e.mem.id).source == SourceFor(KindOf(e.mem))
  {
    hide KindRows, RowFor, SourceFor, KindOf, Fusion.First, DistinctIds, Mems;
    var k, f, v :=
      KindRows(entries, Kind.Knowledge, weights), KindRows(entries, Fact, weights), KindRows(entries, Event, weights);
    OwnRow(entries, KindOf(e.mem), weights, e);
    var row := RowFor(weights, SourceFor(KindOf(e.mem)), e.mem.id);
    assert row in k + f + v;
    var r := Fusion.First(k + f + v, e.mem.id);
    if r in k { RowOf(entries, Kind.Knowledge, weights, r, e); }
    else if r in f { RowOf(entries, Fact, weights, r, e); }
    else { RowOf(entries, Event, weights, r, e); }
  }

  lemma OwnRow(entries: seq<Entry>, kind: Kind, weights: map<nat, real>, e: Entry)
    requires e in entries && KindOf(e.mem) == kind
    ensures RowFor(weights, SourceFor(kind), e.mem.id) in KindRows(entries, kind, weights)
    ensures RowFor(weights, SourceFor(kind), e.mem.id).id == e.mem.id
  {
    KindRowsFacts(entries, kind, weights);
  }

  /** A row in a kind's list with this entry's id comes from this entry. */
  lemma RowOf(entries: seq<Entry>, kind: Kind, weights: map<nat, real>, r: Fusion.RankedRow, e: Entry)
    requires r in KindRows(entries, kind, weights) && r.id == e.mem.id
    requires e in entries && DistinctIds(Mems(entries))
    ensures r.source == SourceFor(KindOf(e.mem))
  {
    hide KindRows, SourceFor, KindOf, DistinctIds, Mems;
    KindRowsFacts(entries, kind, weights);
    var other :| other in entries && other.mem.id == r.id && KindOf(other.mem) == kind;
    SameIdSameEntry(entries, e, other);
  }

  lemma SameIdSameEntry(entries: seq<Entry>, a: Entry, b: Entry)
    requires DistinctIds(Mems(entries)) && a in entries && b in entries && a.mem.id == b.mem.id
    ensures a == b
  {
    forall i, j | 0 <= i < |entries| && 0 <= j < |entries| && i != j ensures entries[i].mem.id != entries[j].mem.id {
      assert Mems(entries)[if i < j then i else j].id != Mems(entries)[if i < j then j else i].id;
    }
  }

  /** Score first, then knowledge before the rest, then id. */
  predicate EntryBefore(a: Entry, b: Entry) {
    || a.score > b.score
    || (a.score == b.score && a.mem.content.Knowledge? && !b.mem.content.Knowledge?)
    || (a.score == b.score && a.mem.content.Knowledge? == b.mem.content.Knowledge? && a.mem.id < b.mem.id)
  }

  ghost predicate IsRescored(e: Entry, before: seq<Entry>) {
    exists o | o in before :: e == o.(score := e.score)
  }

  /** The fused page: the same entries, each with exactly its fused score, in strict order. */
  ghost predicate FusedPage(before: seq<Entry>, sources: seq<seq<Fusion.RankedRow>>, k: nat, after: seq<Entry>) {
    && multiset(Mems(after)) == multiset(Mems(before))
    && (forall p | 0 <= p < |after| :: after[p].score == Fusion.TotalScore(sources, k, after[p].mem.id))
    && (forall p | 0 <= p < |after| :: IsRescored(after[p], before))
    && (forall p, q | 0 <= p < q < |after| :: EntryBefore(after[p], after[q]))
  }
}
