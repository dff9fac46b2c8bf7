/** The knowledge page under construction: global hits first, then the auxiliary lists' newcomers. */
module KnowledgePage {
  import opened Sorting
  import opened Candidates

  /** A stored item already projected, with the inputs of its fusion weight. */
  datatype Item = Item(mem: Memory, tierWeight: real, demotion: real)

  type Hit = (Item, real)

  function HitId(h: Hit): nat { h.0.mem.id }

  /** The provenance tier counts only for competitive hits; the age demotion always does. */
  function Weight(item: Item, boosted: bool): real {
    (if boosted then item.tierWeight else 1.0) * item.demotion
  }

  function HitIds(hits: seq<Hit>): (r: seq<nat>)
    ensures |r| == |hits|
    ensures forall i | 0 <= i < |hits| :: r[i] == HitId(hits[i])
  {
    seq(|hits|, i requires 0 <= i < |hits| => HitId(hits[i]))
  }

  /** The hits that join: the first of each id the page does not hold yet. */
  function Newcomers(hits: seq<Hit>, present: set<nat>): seq<Hit> {
    if hits == [] then []
    else
      var last := |hits| - 1;
      if HitId(hits[last]) in present || HitId(hits[last]) in HitIds(hits[..last]) then Newcomers(hits[..last], present)
      else Newcomers(hits[..last], present) + [hits[last]]
  }

  function AsEntries(hits: seq<Hit>, from: nat): (r: seq<Entry>)
    ensures |r| == |hits|
    ensures forall i | 0 <= i < |hits| :: r[i] == Entry(hits[i].1, RankU32(from + i), hits[i].0.mem)
  {
    seq(|hits|, i requires 0 <= i < |hits| => Entry(hits[i].1, RankU32(from + i), hits[i].0.mem))
  }

  function Ids(entries: seq<Entry>): (r: seq<nat>)
    ensures |r| == |entries|
    ensures forall i | 0 <= i < |entries| :: r[i] == entries[i].mem.id
  {
    seq(|entries|, i requires 0 <= i < |entries| => entries[i].mem.id)
  }

  /** Exactly the ids the page lacks join, each once. */
  lemma {:induction false} NewcomerFacts(hits: seq<Hit>, present: set<nat>)
    ensures Members(HitIds(Newcomers(hits, present))) == Members(HitIds(hits)) - present
    ensures Distinct(HitIds(Newcomers(hits, present)))
  {
    hide *;
    if hits == [] {
      NoNewcomers(present);
    } else {
      var before, hit := hits[..|hits| - 1], hits[|hits| - 1];
      assert hits == before + [hit];
      NewcomerFacts(before, present);
      NewcomerStep(before, hit, present);
    }
  }

  /** And each is the first hit of its id in the list ... */
  lemma {:induction false} NewcomerIsFirst(hits: seq<Hit>, present: set<nat>, j: nat) returns (q: nat)
    requires j < |Newcomers(hits, present)|
    ensures q < |hits| && hits[q] == Newcomers(hits, present)[j]
    ensures forall r | 0 <= r < q :: HitId(hits[r]) != HitId(hits[q])
  {
    var last := |hits| - 1;
    if j < |Newcomers(hits[..last], present)| {
      q := NewcomerIsFirst(hits[..last], present, j);
      assert forall r | 0 <= r < last :: hits[..last][r] == hits[r];
    } else {
      q := last;
      forall r | 0 <= r < last ensures HitId(hits[r]) != HitId(hits[last]) {
        assert HitIds(hits[..last])[r] == HitId(hits[r]);
      }
    }
  }

  /** ... in list order. */
  lemma {:induction false} NewcomersInOrder(hits: seq<Hit>, present: set<nat>, i: nat, j: nat) returns (p: nat, q: nat)
    requires i < j < |Newcomers(hits, present)|
    ensures p < q < |hits| && hits[p] == Newcomers(hits, present)[i] && hits[q] == Newcomers(hits, present)[j]
  {
    var last := |hits| - 1;
    if j < |Newcomers(hits[..last], present)| {
      p, q := NewcomersInOrder(hits[..last], present, i, j);
    } else {
      p := NewcomerIsFirst(hits[..last], present, i);
      q := last;
    }
  }

  lemma NoNewcomers(present: set<nat>)
    ensures Newcomers([], present) == [] && HitIds([]) == [] && Members(HitIds([])) == {} && Distinct(HitIds([]))
  {
  }

  lemma NewcomerStep(before: seq<Hit>, hit: Hit, present: set<nat>)
    requires Members(HitIds(Newcomers(before, present))) == Members(HitIds(before)) - present
    requires Distinct(HitIds(Newcomers(before, present)))
    ensures Members(HitIds(Newcomers(before + [hit], present))) == Members(HitIds(before + [hit])) - present
    ensures Distinct(HitIds(Newcomers(before + [hit], present)))
  {
    hide *;
    NewcomersSnoc(before, hit, present);
    HitIdsSnoc(before, hit);
    MembersSnoc(HitIds(before), HitId(hit));
    MembersHas(HitIds(before), HitId(hit));
    if !(HitId(hit) in present || HitId(hit) in HitIds(before)) {
      HitIdsSnoc(Newcomers(before, present), hit);
      MembersSnoc(HitIds(Newcomers(before, present)), HitId(hit));
      DistinctSnoc(HitIds(Newcomers(before, present)), HitId(hit));
    }
  }

  lemma MembersHas(s: seq<nat>, x: nat)
    ensures x in Members(s) <==> x in s
  {
  }

  lemma DistinctSnoc(s: seq<nat>, x: nat)
    ensures Distinct(s) && x !in Members(s) ==> Distinct(s + [x])
  {
  }

  lemma MembersConcat(s: seq<nat>, t: seq<nat>)
    ensures Members(s + t) == Members(s) + Members(t)
  {
  }

  lemma DistinctConcat(s: seq<nat>, t: seq<nat>)
    requires Distinct(s) && Distinct(t) && Members(s) !! Members(t)
    ensures Distinct(s + t)
  {
    var all := s + t;
    forall i, j | 0 <= i < j < |all| ensures all[i] != all[j] {
      if i < |s| <= j { assert all[i] in Members(s) && all[j] in Members(t); }
    }
  }

  lemma NewcomersSnoc(hits: seq<Hit>, hit: Hit, present: set<nat>)
    ensures Newcomers(hits + [hit], present) ==
            if HitId(hit) in present || HitId(hit) in HitIds(hits) then Newcomers(hits, present)
            else Newcomers(hits, present) + [hit]
  {
    assert (hits + [hit])[..|hits|] == hits;
  }

  /** Each of these hits has its own weight recorded. */
  ghost predicate Carries(hits: seq<Hit>, boosted: real -> bool, weights: map<nat, real>) {
    forall h | h in hits ::
      && HitId(h) in weights
      && weights[HitId(h)] == if boosted(h.1) then h.0.tierWeight * h.0.demotion else h.0.demotion
  }

  class KnowledgePage {
    var present: set<nat>
    var nextRank: nat
    var weights: map<nat, real>
    var scored: seq<Entry>

    /** One entry per id, ranked from zero without holes, each with a weight. */
    ghost predicate Valid()
      reads this
    {
      && present == Members(Ids(scored))
      && weights.Keys == present
      && Distinct(Ids(scored))
      && nextRank == |scored|
      && forall i | 0 <= i < |scored| :: scored[i].rank == RankU32(i)
    }

    constructor (present: set<nat>, nextRank: nat, weights: map<nat, real>, scored: seq<Entry>)
      requires present == Members(Ids(scored)) && weights.Keys == present && Distinct(Ids(scored))
                 && nextRank == |scored|
      requires forall i | 0 <= i < |scored| :: scored[i].rank == RankU32(i)
      ensures Valid()
      ensures this.present == present && this.weights == weights && this.scored == scored
    {
      this.present := present;
      this.nextRank := nextRank;
      this.weights := weights;
      this.scored := scored;
    }

    /** Records the list's own order and appends what the page does not hold. */
    method AppendAuxList(hits: seq<Hit>, boosted: real -> bool) returns (order: seq<nat>)
      requires Valid()
      modifies this
      ensures Valid()
      ensures order == HitIds(hits)
      ensures scored == old(scored) + AsEntries(Newcomers(hits, old(present)), |old(scored)|)
      ensures present == old(present) + Members(order)
      ensures forall id | id in old(weights) :: weights[id] == old(weights)[id]
      ensures Carries(Newcomers(hits, old(present)), boosted, weights)
    {
      hide Newcomers, AsEntries, HitIds, Weight, Members, Ids, RankU32, Joining;
      ghost var present0, weights0, scored0 := present, weights, scored;
      order := [];
      assert hits[..0] == [];
      NothingJoined(boosted, present, weights, scored);
      for n := 0 to |hits|
        invariant Joining(hits[..n], boosted, present0, weights0, scored0, order, present, weights, scored)
        invariant nextRank == |scored|
      {
        var hit := hits[n];
        assert hits[..n + 1] == hits[..n] + [hit];
        JoinOne(hits[..n], hit, boosted, present0, weights0, scored0, order, present, weights, scored);
        order := order + [HitId(hit)];
        if HitId(hit) in present {
          continue;
        }
        present := present + {HitId(hit)};
        weights := weights[HitId(hit) := Weight(hit.0, boosted(hit.1))];
        scored := scored + [Entry(hit.1, RankU32(nextRank), hit.0.mem)];
        nextRank := nextRank + 1;
      }
      assert hits[..|hits|] == hits;
      AllJoined(hits, boosted, present0, weights0, scored0, order, present, weights, scored);
      Joined(scored0, hits, present0, scored);
    }
  }

  /** The page after the first of a list's hits. */
  ghost predicate Joining(hits: seq<Hit>, boosted: real -> bool, present0: set<nat>, weights0: map<nat, real>,
                          scored0: seq<Entry>, order: seq<nat>, present: set<nat>, weights: map<nat, real>,
                          scored: seq<Entry>) {
    && order == HitIds(hits)
    && present == present0 + Members(order)
    && scored == scored0 + AsEntries(Newcomers(hits, present0), |scored0|)
    && weights.Keys == present
    && (forall id | id in weights0 :: id in weights && weights[id] == weights0[id])
    && Carries(Newcomers(hits, present0), boosted, weights)
  }

  lemma NothingJoined(boosted: real -> bool, present: set<nat>, weights: map<nat, real>, scored: seq<Entry>)
    requires weights.Keys == present
    ensures Joining([], boosted, present, weights, scored, [], present, weights, scored)
  {
    assert HitIds([]) == [] && AsEntries([], |scored|) == [];
    assert scored + [] == scored;
  }

  lemma AllJoined(hits: seq<Hit>, boosted: real -> bool, present0: set<nat>, weights0: map<nat, real>,
                  scored0: seq<Entry>, order: seq<nat>, present: set<nat>, weights: map<nat, real>, scored: seq<Entry>)
    requires Joining(hits, boosted, present0, weights0, scored0, order, present, weights, scored)
    ensures order == HitIds(hits) && present == present0 + Members(order) && weights.Keys == present
    ensures scored == scored0 + AsEntries(Newcomers(hits, present0), |scored0|)
    ensures forall id | id in weights0 :: id in weights && weights[id] == weights0[id]
    ensures Carries(Newcomers(hits, present0), boosted, weights)
  {
    hide HitIds, Members, AsEntries, Newcomers, Carries;
  }

  /** One more hit: known already, or a newcomer with its weight. */
  lemma JoinOne(hits: seq<Hit>, hit: Hit, boosted: real -> bool, present0: set<nat>, weights0: map<nat, real>,
                scored0: seq<Entry>, order: seq<nat>, present: set<nat>, weights: map<nat, real>, scored: seq<Entry>)
    requires Joining(hits, boosted, present0, weights0, scored0, order, present, weights, scored)
    requires weights0.Keys == present0
    ensures var id := HitId(hit);
            if id in present then
              Joining(hits + [hit], boosted, present0, weights0, scored0, order + [id], present, weights, scored)
            else
              Joining(hits + [hit], boosted, present0, weights0, scored0, order + [id], present + {id},
                      weights[id := Weight(hit.0, boosted(hit.1))],
                      scored + [Entry(hit.1, RankU32(|scored|), hit.0.mem)])
  {
    hide HitIds, Members, AsEntries, Newcomers, Weight, RankU32, Carries;
    HitIdsSnoc(hits, hit);
    MembersSnoc(order, HitId(hit));
    KnownIsSeen(hits, hit, present0);
    NewcomersSnoc(hits, hit, present0);
    if HitId(hit) !in present {
      var joined := AsEntries(Newcomers(hits, present0), |scored0|);
      AsEntriesSnoc(Newcomers(hits, present0), hit, |scored0|);
      CarriesOneMore(Newcomers(hits, present0), hit, boosted, weights);
      assert |scored| == |scored0| + |Newcomers(hits, present0)|;
      assert scored0 + joined + [Entry(hit.1, RankU32(|scored|), hit.0.mem)] ==
             scored0 + (joined + [Entry(hit.1, RankU32(|scored|), hit.0.mem)]);
    }
  }

  lemma KnownIsSeen(hits: seq<Hit>, hit: Hit, present: set<nat>)
    ensures HitId(hit) in present + Members(HitIds(hits)) <==> HitId(hit) in present || HitId(hit) in HitIds(hits)
  {
    hide HitIds;
    MembersHas(HitIds(hits), HitId(hit));
  }

  lemma CarriesOneMore(hits: seq<Hit>, hit: Hit, boosted: real -> bool, weights: map<nat, real>)
    requires Carries(hits, boosted, weights) && HitId(hit) !in weights
    ensures Carries(hits + [hit], boosted, weights[HitId(hit) := Weight(hit.0, boosted(hit.1))])
  {
  }

  lemma MembersSnoc(s: seq<nat>, x: nat)
    ensures Members(s + [x]) == Members(s) + {x}
  {
  }

  lemma HitIdsSnoc(hits: seq<Hit>, hit: Hit)
    ensures HitIds(hits + [hit]) == HitIds(hits) + [HitId(hit)]
  {
  }

  lemma AsEntriesSnoc(hits: seq<Hit>, hit: Hit, from: nat)
    ensures AsEntries(hits + [hit], from) == AsEntries(hits, from) + [Entry(hit.1, RankU32(from + |hits|), hit.0.mem)]
  {
  }

  /** The page with its newcomers still holds each id once, ranked from zero without holes. */
  lemma Joined(page: seq<Entry>, hits: seq<Hit>, present: set<nat>, scored: seq<Entry>)
    requires present == Members(Ids(page)) && Distinct(Ids(page))
    requires forall i | 0 <= i < |page| :: page[i].rank == RankU32(i)
    requires scored == page + AsEntries(Newcomers(hits, present), |page|)
    ensures Distinct(Ids(scored))
    ensures forall i | 0 <= i < |scored| :: scored[i].rank == RankU32(i)
    ensures Members(Ids(scored)) == present + Members(HitIds(hits))
  {
    hide Newcomers, Members, RankU32;
    NewcomerFacts(hits, present);
    var joined := HitIds(Newcomers(hits, present));
    assert Ids(scored) == Ids(page) + joined;
    MembersConcat(Ids(page), joined);
    DistinctConcat(Ids(page), joined);
  }

  ghost predicate Weighed(hits: seq<Hit>, threshold: real, weights: map<nat, real>) {
    && weights.Keys == Members(HitIds(hits))
    && forall i | 0 <= i < |hits| ::
         HitId(hits[i]) in weights && weights[HitId(hits[i])] == Weight(hits[i].0, hits[i].1 >= threshold)
  }

  lemma WeighedSnoc(hits: seq<Hit>, hit: Hit, threshold: real, weights: map<nat, real>)
    requires Weighed(hits, threshold, weights) && Distinct(HitIds(hits + [hit]))
    ensures Weighed(hits + [hit], threshold, weights[HitId(hit) := Weight(hit.0, hit.1 >= threshold)])
  {
    hide Members, Weight;
    HitIdsSnoc(hits, hit);
    MembersSnoc(HitIds(hits), HitId(hit));
    var ids := HitIds(hits + [hit]);
    forall i | 0 <= i < |hits| ensures HitId(hits[i]) != HitId(hit) { assert ids[i] != ids[|hits|]; }
  }

  /** The global hits, best first: they make up the page before the auxiliary lists are looked at. */
  method GlobalPage(hits: seq<Hit>, threshold: real) returns (scored: seq<Entry>, weights: map<nat, real>)
    requires Distinct(HitIds(hits))
    ensures scored == AsEntries(hits, 0)
    ensures Weighed(hits, threshold, weights)
  {
    hide Weighed, Weight, HitIds, AsEntries;
    scored := [];
    weights := map[];
    assert hits[..0] == [];
    assert AsEntries([], 0) == [] && Weighed([], threshold, weights) by { NothingWeighed(threshold); }
    for rank := 0 to |hits|
      invariant scored == AsEntries(hits[..rank], 0)
      invariant Weighed(hits[..rank], threshold, weights)
    {
      var (item, score) := hits[rank];
      assert hits[..rank + 1] == hits[..rank] + [hits[rank]];
      AsEntriesSnoc(hits[..rank], hits[rank], 0);
      DistinctPrefix(hits, rank + 1);
      WeighedSnoc(hits[..rank], hits[rank], threshold, weights);
      weights := weights[item.mem.id := Weight(item, score >= threshold)];
      scored := scored + [Entry(score, RankU32(rank), item.mem)];
    }
    assert hits[..|hits|] == hits;
  }

  lemma NothingWeighed(threshold: real)
    ensures AsEntries([], 0) == [] && Weighed([], threshold, map[])
  {
  }

  lemma DistinctPrefix(hits: seq<Hit>, n: nat)
    requires n <= |hits| && Distinct(HitIds(hits))
    ensures Distinct(HitIds(hits[..n]))
  {
    var ids, all := HitIds(hits[..n]), HitIds(hits);
    forall i, j | 0 <= i < j < n ensures ids[i] != ids[j] { assert all[i] != all[j]; }
  }

  /** The finished page: the global hits, then the curated hits they lacked, then the lexical hits both lacked. */
  function PageEntries(hits: seq<Hit>, curated: seq<Hit>, lexical: seq<Hit>): seq<Entry> {
    var known := Members(HitIds(hits));
    var joined := Newcomers(curated, known);
    AsEntries(hits, 0) + AsEntries(joined, |hits|)
    + AsEntries(Newcomers(lexical, known + Members(HitIds(curated))), |hits| + |joined|)
  }

  function Competitive(threshold: real): real -> bool { (score: real) => score >= threshold }

  function Always(): real -> bool { (score: real) => true }

  /** Every id of the page is weighed by the hit that brought it: a curated newcomer always gets its provenance
      boost, the others when their score clears the bar. */
  ghost predicate PageWeights(hits: seq<Hit>, curated: seq<Hit>, lexical: seq<Hit>, threshold: real,
                              weights: map<nat, real>) {
    var known := Members(HitIds(hits));
    var both := known + Members(HitIds(curated));
    && weights.Keys == both + Members(HitIds(lexical))
    && Carries(hits, Competitive(threshold), weights)
    && Carries(Newcomers(curated, known), Always(), weights)
    && Carries(Newcomers(lexical, both), Competitive(threshold), weights)
  }

  lemma CarriesOn(hits: seq<Hit>, boosted: real -> bool, before: map<nat, real>, after: map<nat, real>)
    requires Carries(hits, boosted, before)
    requires forall id | id in before :: id in after && after[id] == before[id]
    ensures Carries(hits, boosted, after)
  {
    hide Weight;
  }

  lemma WeighedCarries(hits: seq<Hit>, threshold: real, weights: map<nat, real>)
    requires Weighed(hits, threshold, weights)
    ensures weights.Keys == Members(HitIds(hits)) && Carries(hits, Competitive(threshold), weights)
  {
  }

  lemma PageWeightsHold(hits: seq<Hit>, curated: seq<Hit>, lexical: seq<Hit>, threshold: real,
                        first: map<nat, real>, second: map<nat, real>, third: map<nat, real>)
    requires var known := Members(HitIds(hits));
             && Carries(hits, Competitive(threshold), first)
             && Carries(Newcomers(curated, known), Always(), second)
             && Carries(Newcomers(lexical, known + Members(HitIds(curated))), Competitive(threshold), third)
             && third.Keys == known + Members(HitIds(curated)) + Members(HitIds(lexical))
    requires forall id | id in first :: id in second && second[id] == first[id]
    requires forall id | id in second :: id in third && third[id] == second[id]
    ensures PageWeights(hits, curated, lexical, threshold, third)
  {
    hide Weight, Newcomers, Members, HitIds, Carries;
    CarriesOn(hits, Competitive(threshold), first, third);
    CarriesOn(Newcomers(curated, Members(HitIds(hits))), Always(), second, third);
  }

  /** The whole knowledge stage. `threshold` is the query's own bar for a provenance boost; the curated
      hits have already cleared it. */
  method KnowledgeCandidates(hits: seq<Hit>, curated: seq<Hit>, lexical: seq<Hit>, threshold: real)
    returns (page: KnowledgePage, curatedOrder: seq<nat>, lexicalOrder: seq<nat>)
    requires Distinct(HitIds(hits))
    ensures fresh(page) && page.Valid()
    ensures curatedOrder == HitIds(curated) && lexicalOrder == HitIds(lexical)
    ensures page.present == Members(HitIds(hits)) + Members(curatedOrder) + Members(lexicalOrder)
    ensures page.scored == PageEntries(hits, curated, lexical)
    ensures PageWeights(hits, curated, lexical, threshold, page.weights)
  {
    hide Newcomers, Members, HitIds, AsEntries, RankU32, Weight, Carries, Weighed, PageWeights;
    hide Distinct, Ids, Competitive, Always, PageEntries;
    var scored, weights := GlobalPage(hits, threshold);
    IdsOfEntries(hits);
    WeighedCarries(hits, threshold, weights);
    RankedFromZero(hits);
    EntriesInTurn(hits, curated, lexical);
    page := new KnowledgePage(Members(HitIds(hits)), |hits|, weights, scored);
    curatedOrder := page.AppendAuxList(curated, Always());
    ghost var second := page.weights;
    lexicalOrder := page.AppendAuxList(lexical, Competitive(threshold));
    PageWeightsHold(hits, curated, lexical, threshold, weights, second, page.weights);
  }

  lemma EntriesInTurn(hits: seq<Hit>, curated: seq<Hit>, lexical: seq<Hit>)
    ensures var known := Members(HitIds(hits));
            var first := AsEntries(hits, 0);
            var second := first + AsEntries(Newcomers(curated, known), |first|);
            PageEntries(hits, curated, lexical) ==
            second + AsEntries(Newcomers(lexical, known + Members(HitIds(curated))), |second|)
  {
    hide Newcomers, Members, HitIds;
  }

  lemma RankedFromZero(hits: seq<Hit>)
    ensures |AsEntries(hits, 0)| == |hits|
    ensures forall i | 0 <= i < |hits| :: AsEntries(hits, 0)[i].rank == RankU32(i)
  {
  }

  lemma IdsOfEntries(hits: seq<Hit>)
    ensures Ids(AsEntries(hits, 0)) == HitIds(hits)
  {
  }

  /** Distinct ids, read off the memories. */
  lemma DistinctMems(entries: seq<Entry>)
    ensures DistinctIds(Mems(entries)) <==> Distinct(Ids(entries))
  {
    var ms, ids := Mems(entries), Ids(entries);
    if DistinctIds(ms) {
      forall i, j | 0 <= i < j < |ids| ensures ids[i] != ids[j] { assert ms[i].id != ms[j].id; }
    }
    if Distinct(ids) {
      forall i, j | 0 <= i < j < |ms| ensures ms[i].id != ms[j].id { assert ids[i] != ids[j]; }
    }
  }
}
