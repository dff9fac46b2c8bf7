/** Validation and ordering of a cross-encoder's answer. */
module Reranker {
  import opened Sorting

  datatype Hit = Hit(index: nat, score: real)

  datatype Answer = Ok(hits: seq<Hit>) | BadIndex(index: nat) | WrongCount(got: nat)

  /** Each of the `n` texts is scored exactly once. */
  ghost predicate ScoresEachOnce(items: seq<Hit>, n: nat) {
    && |items| == n
    && (forall i | 0 <= i < |items| :: items[i].index < n)
    && (forall i, j | 0 <= i < j < |items| :: items[i].index != items[j].index)
  }

  /** Item `i` names a text that does not exist or one already scored. */
  ghost predicate Refused(items: seq<Hit>, n: nat, i: nat)
    requires i < |items|
  {
    items[i].index >= n || exists j | 0 <= j < i :: items[j].index == items[i].index
  }

  /** With as many scores as texts, one pass looking back is enough. */
  lemma NoneRefused(items: seq<Hit>, n: nat)
    ensures ScoresEachOnce(items, n) <==> |items| == n && forall i | 0 <= i < |items| :: !Refused(items, n, i)
  {
    if forall i | 0 <= i < |items| :: !Refused(items, n, i) {
      forall i, j | 0 <= i < j < |items| ensures items[i].index != items[j].index { assert !Refused(items, n, j); }
      forall i | 0 <= i < |items| ensures items[i].index < n { assert !Refused(items, n, i); }
    }
  }

  predicate Ahead(a: Hit, b: Hit) {
    a.score > b.score || (a.score == b.score && a.index <= b.index)
  }

  lemma AheadIsTotal()
    ensures TotalPreorder(Ahead)
  {
  }

  /** Below `n` there are only `n` indices to hand out. */
  lemma {:induction false} IndicesFit(items: seq<Hit>, n: nat)
    requires forall i | 0 <= i < |items| :: items[i].index < n
    requires forall i, j | 0 <= i < j < |items| :: items[i].index != items[j].index
    ensures |items| <= n
  {
    var indices := seq(|items|, i requires 0 <= i < |items| => items[i].index as int);
    var all := seq(n, i => i);
    forall x | x in indices ensures x in all { assert all[x] == x; }
    Pigeonhole(indices, all);
  }

  /** And if all are scored, every text is. */
  lemma EveryTextIsScored(items: seq<Hit>, n: nat, t: nat)
    requires ScoresEachOnce(items, n) && t < n
    ensures exists i | 0 <= i < |items| :: items[i].index == t
  {
    if !exists i | 0 <= i < |items| :: items[i].index == t {
      var more := items + [Hit(t, 0.0)];
      IndicesFit(more, n);
      assert false;
    }
  }

  /** `texts` is how many texts were sent; `items` is what came back. Nothing is sent for no texts. */
  method Rerank(texts: nat, items: seq<Hit>) returns (r: Answer)
    ensures texts == 0 ==> r == Ok([])
    ensures texts > 0 ==> (r.Ok? <==> ScoresEachOnce(items, texts))
    ensures texts > 0 && r.Ok? ==> multiset(r.hits) == multiset(items) && SortedBy(r.hits, Ahead)
    ensures texts > 0 && r.Ok? ==>
              forall i, j | 0 <= i < j < |r.hits| ::
                r.hits[i].score > r.hits[j].score
                  || (r.hits[i].score == r.hits[j].score && r.hits[i].index < r.hits[j].index)
    ensures r.BadIndex? ==> exists i | 0 <= i < |items| ::
              r.index == items[i].index && Refused(items, texts, i) && forall j | 0 <= j < i ::
                !Refused(items, texts, j)
    ensures r.WrongCount? ==> r.got == |items| != texts && forall i | 0 <= i < |items| :: !Refused(items, texts, i)
  {
    if texts == 0 { return Ok([]); }
    NoneRefused(items, texts);
    var seen := new bool[texts](_ => false);
    for i := 0 to |items|
      invariant forall j | 0 <= j < i :: !Refused(items, texts, j)
      invariant forall t | 0 <= t < texts :: seen[t] <==> exists j | 0 <= j < i :: items[j].index == t
    {
      var index := items[i].index;
      if index >= texts || seen[index] {
        assert Refused(items, texts, i);
        return BadIndex(index);
      }
      assert !Refused(items, texts, i);
      seen[index] := true;
    }
    if |items| != texts {
      return WrongCount(|items|);
    }
    r := Ok(StableSort(items, Ahead));
    AheadIsTotal();
    StableSortPermutes(items, Ahead);
    StableSortSorted(items, Ahead);
    SortedStillScoresEachOnce(items, r.hits, texts);
  }

  /** Scoring each text once survives the sort, so the order can be applied as a permutation. */
  lemma SortedStillScoresEachOnce(items: seq<Hit>, hits: seq<Hit>, n: nat)
    requires ScoresEachOnce(items, n) && multiset(hits) == multiset(items)
    ensures ScoresEachOnce(hits, n)
  {
    SameMembers(items, hits);
    PermutationDistinct(items, hits);
    forall i | 0 <= i < |hits| ensures hits[i].index < n { assert hits[i] in items; }
    forall i, j | 0 <= i < j < |hits| ensures hits[i].index != hits[j].index {
      assert hits[i] in hits && hits[j] in hits && hits[i] != hits[j];
      var a :| 0 <= a < |items| && items[a] == hits[i];
      var b :| 0 <= b < |items| && items[b] == hits[j];
    }
  }
}
