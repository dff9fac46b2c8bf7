/** What a fused score is worth, read off the page and the auxiliary orders, with no list of rows in between. */
module SearchScore {
  import opened Options
  import opened Sorting
  import opened Candidates
  import opened SearchPage
  import Fusion

  predicate SameKind(a: Memory, b: Memory) {
    && (a.content.Knowledge? <==> b.content.Knowledge?)
    && (a.content.FactBody? <==> b.content.FactBody?)
    && (a.content.EventBody? <==> b.content.EventBody?)
  }

  /** The ids of the page's memories of one kind, in page order. */
  function IdsLike(entries: seq<Entry>, m: Memory): seq<nat> {
    if entries == [] then []
    else
      var last := |entries| - 1;
      IdsLike(entries[..last], m) + if SameKind(entries[last].mem, m) then [entries[last].mem.id] else []
  }

  /** One over `k` and the one-based place, for every place `id` has in the order. */
  function PlaceSum(order: seq<nat>, k: nat, id: nat): real {
    if order == [] then 0.0
    else
      var last := |order| - 1;
      PlaceSum(order[..last], k, id) + if order[last] == id then 1.0 / (k + last + 1) as real else 0.0
  }

  /** The recorded weight, or one, times what the places in its own kind and in the two auxiliary lists add up to. */
  function PlacedScore(entries: seq<Entry>, weights: map<nat, real>, curated: seq<nat>, lexical: seq<nat>, k: nat,
                       m: Memory): real {
    (if m.id in weights then weights[m.id] else 1.0)
    * (PlaceSum(IdsLike(entries, m), k, m.id) + PlaceSum(curated, k, m.id) + PlaceSum(lexical, k, m.id))
  }

  /** Every entry of `after` has the score its places on `before` give it. */
  ghost predicate ScoredByPlace(before: seq<Entry>, weights: map<nat, real>, curated: seq<nat>, lexical: seq<nat>,
                                k: nat, after: seq<Entry>) {
    forall p | 0 <= p < |after| :: after[p].score == PlacedScore(before, weights, curated, lexical, k, after[p].mem)
  }

  // ----- one list -----

  function Weighted(order: seq<nat>, weights: map<nat, real>, source: Fusion.RetrievalSource): seq<Fusion.RankedRow> {
    seq(|order|, i requires 0 <= i < |order| => RowFor(weights, source, order[i]))
  }

  lemma Distributes(w: real, a: real, b: real)
    ensures w * (a + b) == w * a + w * b
  {
  }

  function WeightFor(weights: map<nat, real>, id: nat): real {
    if id in weights then weights[id] else 1.0
  }

  lemma OneMorePlace(w: real, sum: real, d: real, here: bool)
    requires d > 0.0
    ensures w * sum + (if here then w / d else 0.0) == w * (sum + if here then 1.0 / d else 0.0)
  {
    if here {
      assert w / d == w * (1.0 / d);
      Distributes(w, sum, 1.0 / d);
    }
  }

  lemma PlaceSumSnoc(order: seq<nat>, last: nat, k: nat, id: nat)
    ensures PlaceSum(order + [last], k, id) ==
            PlaceSum(order, k, id) + if last == id then 1.0 / (k + |order| + 1) as real else 0.0
  {
    assert (order + [last])[..|order|] == order;
  }

  lemma WeightedSnoc(order: seq<nat>, last: nat, weights: map<nat, real>, source: Fusion.RetrievalSource, k: nat,
                     id: nat)
    ensures Fusion.ListScore(Weighted(order + [last], weights, source), k, id) ==
            Fusion.ListScore(Weighted(order, weights, source), k, id)
            + if last == id then WeightFor(weights, id) / (k + |order| + 1) as real else 0.0
  {
    hide Fusion.ListScore;
    var rest, row := Weighted(order, weights, source), RowFor(weights, source, last);
    assert Weighted(order + [last], weights, source) == rest + [row];
    Fusion.ListScoreSnoc(rest, row, k, id);
  }

  lemma NoPlaces(weights: map<nat, real>, source: Fusion.RetrievalSource, k: nat, id: nat)
    ensures Fusion.ListScore(Weighted([], weights, source), k, id) == 0.0 && PlaceSum([], k, id) == 0.0
  {
  }

  lemma {:induction false} WeightedScore(order: seq<nat>, weights: map<nat, real>, source: Fusion.RetrievalSource,
                                         k: nat, id: nat)
    ensures Fusion.ListScore(Weighted(order, weights, source), k, id) == WeightFor(weights, id) * PlaceSum(order, k, id)
  {
    hide Fusion.ListScore, Weighted, PlaceSum, WeightFor;
    if order == [] {
      NoPlaces(weights, source, k, id);
    } else {
      var rest, last := order[..|order| - 1], order[|order| - 1];
      assert order == rest + [last];
      WeightedScore(rest, weights, source, k, id);
      WeightedSnoc(rest, last, weights, source, k, id);
      PlaceSumSnoc(rest, last, k, id);
      OneMorePlace(WeightFor(weights, id), PlaceSum(rest, k, id), (k + |rest| + 1) as real, last == id);
    }
  }

  lemma KindIsSameKind(a: Memory, b: Memory)
    ensures SameKind(a, b) <==> KindOf(a) == KindOf(b)
  {
  }

  lemma {:induction false} KindRowsAreWeighted(entries: seq<Entry>, m: Memory, weights: map<nat, real>)
    ensures KindRows(entries, KindOf(m), weights) == Weighted(IdsLike(entries, m), weights, SourceFor(KindOf(m)))
  {
    hide KindOf, SourceFor, RowFor, SameKind;
    if entries != [] {
      var last := |entries| - 1;
      KindRowsAreWeighted(entries[..last], m, weights);
      KindIsSameKind(entries[last].mem, m);
    }
  }

  lemma {:induction false} NoRowOfOtherKind(entries: seq<Entry>, kind: Kind, weights: map<nat, real>, k: nat, e: Entry)
    requires e in entries && DistinctIds(Mems(entries)) && kind != KindOf(e.mem)
    ensures Fusion.ListScore(KindRows(entries, kind, weights), k, e.mem.id) == 0.0
  {
    hide KindOf, KindRows, DistinctIds, Mems, RowFor, SourceFor;
    KindRowsFacts(entries, kind, weights);
    forall r | r in KindRows(entries, kind, weights) ensures r.id != e.mem.id {
      var other :| other in entries && other.mem.id == r.id && KindOf(other.mem) == kind;
      if r.id == e.mem.id { SameIdSameEntry(entries, e, other); }
    }
    NoRowNoScore(KindRows(entries, kind, weights), k, e.mem.id);
  }

  lemma {:induction false} NoRowNoScore(rows: seq<Fusion.RankedRow>, k: nat, id: nat)
    requires forall r | r in rows :: r.id != id
    ensures Fusion.ListScore(rows, k, id) == 0.0
  {
    if rows != [] {
      assert rows[|rows| - 1] in rows;
      forall r | r in rows[..|rows| - 1] ensures r.id != id { assert r in rows; }
      NoRowNoScore(rows[..|rows| - 1], k, id);
    }
  }

  // ----- all lists -----

  lemma OptionalScore(sources: seq<seq<Fusion.RankedRow>>, order: seq<nat>, weights: map<nat, real>, k: nat, id: nat)
    ensures Fusion.TotalScore(sources + if order == [] then [] else [RankList(order, weights)], k, id) ==
            Fusion.TotalScore(sources, k, id) + WeightFor(weights, id) * PlaceSum(order, k, id)
  {
    hide Fusion.TotalScore, Fusion.ListScore;
    if order == [] {
      assert sources + [] == sources;
    } else {
      Fusion.SourcesSnoc(sources, RankList(order, weights), k);
      WeightedScore(order, weights, Fusion.Vector, k, id);
      assert RankList(order, weights) == Weighted(order, weights, Fusion.Vector);
    }
  }

  lemma ThreeScores(a: seq<Fusion.RankedRow>, b: seq<Fusion.RankedRow>, c: seq<Fusion.RankedRow>, k: nat, id: nat)
    ensures Fusion.TotalScore([a, b, c], k, id) ==
            Fusion.ListScore(a, k, id) + Fusion.ListScore(b, k, id) + Fusion.ListScore(c, k, id)
  {
    hide Fusion.ListScore;
    Fusion.SourcesSnoc([], a, k);
    Fusion.SourcesSnoc([a], b, k);
    Fusion.SourcesSnoc([a, b], c, k);
    assert [a, b, c] == [a, b] + [c] && [a, b] == [a] + [b] && [a] == [] + [a];
  }

  lemma OwnKindScore(entries: seq<Entry>, weights: map<nat, real>, k: nat, e: Entry)
    requires e in entries && DistinctIds(Mems(entries))
    ensures Fusion.TotalScore([KindRows(entries, Kind.Knowledge, weights), KindRows(entries, Fact, weights),
                               KindRows(entries, Event, weights)], k, e.mem.id) ==
            WeightFor(weights, e.mem.id) * PlaceSum(IdsLike(entries, e.mem), k, e.mem.id)
  {
    hide KindRows, IdsLike, DistinctIds, Mems, Fusion.TotalScore, Fusion.ListScore, PlaceSum, SourceFor;
    ThreeScores(KindRows(entries, Kind.Knowledge, weights), KindRows(entries, Fact, weights),
                KindRows(entries, Event, weights), k, e.mem.id);
    KindRowsAreWeighted(entries, e.mem, weights);
    WeightedScore(IdsLike(entries, e.mem), weights, SourceFor(KindOf(e.mem)), k, e.mem.id);
    if KindOf(e.mem) != Kind.Knowledge { NoRowOfOtherKind(entries, Kind.Knowledge, weights, k, e); }
    if KindOf(e.mem) != Fact { NoRowOfOtherKind(entries, Fact, weights, k, e); }
    if KindOf(e.mem) != Event { NoRowOfOtherKind(entries, Event, weights, k, e); }
  }

  /** What the rows of all lists add up to for an entry of the page. */
  lemma TotalIsPlaced(entries: seq<Entry>, weights: map<nat, real>, curated: seq<nat>, lexical: seq<nat>, k: nat,
                      e: Entry)
    requires e in entries && DistinctIds(Mems(entries))
    ensures Fusion.TotalScore(Sources(entries, weights, curated, lexical), k, e.mem.id) ==
            PlacedScore(entries, weights, curated, lexical, k, e.mem)
  {
    hide KindRows, RankList, IdsLike, DistinctIds, Mems, Fusion.TotalScore, PlaceSum;
    var kinds := [KindRows(entries, Kind.Knowledge, weights), KindRows(entries, Fact, weights),
                  KindRows(entries, Event, weights)];
    var id, w := e.mem.id, WeightFor(weights, e.mem.id);
    OwnKindScore(entries, weights, k, e);
    OptionalScore(kinds, curated, weights, k, id);
    OptionalScore(kinds + (if curated == [] then [] else [RankList(curated, weights)]), lexical, weights, k, id);
    var own, c, l := PlaceSum(IdsLike(entries, e.mem), k, id), PlaceSum(curated, k, id), PlaceSum(lexical, k, id);
    Distributes(w, own, c);
    Distributes(w, own + c, l);
  }

  /** So a fused page is scored by place. */
  lemma FusedIsPlaced(before: seq<Entry>, weights: map<nat, real>, curated: seq<nat>, lexical: seq<nat>, k: nat,
                      after: seq<Entry>)
    requires DistinctIds(Mems(before)) && FusedPage(before, Sources(before, weights, curated, lexical), k, after)
    ensures ScoredByPlace(before, weights, curated, lexical, k, after)
  {
    hide Sources, PlacedScore, DistinctIds, Mems, Fusion.TotalScore, EntryBefore;
    forall p | 0 <= p < |after|
      ensures after[p].score == PlacedScore(before, weights, curated, lexical, k, after[p].mem)
    {
      assert IsRescored(after[p], before);
      var o :| o in before && after[p] == o.(score := after[p].score);
      TotalIsPlaced(before, weights, curated, lexical, k, o);
    }
  }
}
