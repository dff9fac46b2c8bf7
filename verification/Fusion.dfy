/** Weighted Reciprocal Rank Fusion of ranked lists, over exact scores. */
module Fusion {
  import opened Sorting

  datatype RetrievalSource = Vector | Fts | MetadataOnly

  datatype Payload = Null | Body(text: string)

  datatype RankedRow = RankedRow(source: RetrievalSource, id: nat, score: real, payload: Payload, weight: real)

  function SourceOrder(s: RetrievalSource): nat {
    match s
    case Vector => 0
    case Fts => 1
    case MetadataOnly => 2
  }

  const MAX_K: nat := 65535

  /** The constant is clamped to 16 bits before it becomes a float. */
  function Cap(k: nat): nat { if k < MAX_K then k else MAX_K }

  // ----- what fusion should return -----

  /** What standing at 0-based `rank` of a list is worth. */
  function Contribution(row: RankedRow, rank: nat, k: nat): real {
    row.weight / (k + rank + 1) as real
  }

  /** What one list gives `id`: its weight over `k` plus its 1-based rank, wherever it stands. */
  function ListScore(rows: seq<RankedRow>, k: nat, id: nat): real {
    if rows == [] then 0.0
    else
      var last := |rows| - 1;
      ListScore(rows[..last], k, id) + if rows[last].id == id then Contribution(rows[last], last, k) else 0.0
  }

  function TotalScore(sources: seq<seq<RankedRow>>, k: nat, id: nat): real {
    if sources == [] then 0.0
    else
      var last := |sources| - 1;
      TotalScore(sources[..last], k, id) + ListScore(sources[last], k, id)
  }

  /** Every row of every list, list after list. */
  function AllRows(sources: seq<seq<RankedRow>>): seq<RankedRow> {
    if sources == [] then [] else AllRows(sources[..|sources| - 1]) + sources[|sources| - 1]
  }

  predicate Has(rows: seq<RankedRow>, id: nat) { exists r | r in rows :: r.id == id }

  /** The first row with `id`; its source and payload are the ones kept. */
  function First(rows: seq<RankedRow>, id: nat): (r: RankedRow)
    requires Has(rows, id)
    ensures r in rows && r.id == id
  {
    if rows[0].id == id then rows[0] else First(rows[1..], id)
  }

  /** Highest score first, then source, then id: a strict order on rows with distinct ids. */
  predicate Before(a: RankedRow, b: RankedRow) {
    || a.score > b.score
    || (a.score == b.score && SourceOrder(a.source) < SourceOrder(b.source))
    || (a.score == b.score && SourceOrder(a.source) == SourceOrder(b.source) && a.id < b.id)
  }

  predicate NotAfter(a: RankedRow, b: RankedRow) { !Before(b, a) }

  /** The row `id` should come out as. */
  function FusedRow(sources: seq<seq<RankedRow>>, k: nat, id: nat): (r: RankedRow)
    requires Has(AllRows(sources), id)
    ensures r.id == id && r.score == TotalScore(sources, k, id) && r.source == First(AllRows(sources), id).source
  {
    First(AllRows(sources), id).(score := TotalScore(sources, k, id))
  }

  /** `out` holds each id of the lists once, as its fused row, in the strict order. */
  ghost predicate IsFused(sources: seq<seq<RankedRow>>, k: nat, out: seq<RankedRow>) {
    && (forall p | 0 <= p < |out| :: Has(AllRows(sources), out[p].id) && out[p] == FusedRow(sources, k, out[p].id))
    && (forall id | Has(AllRows(sources), id) :: Has(out, id))
    && (forall p, q | 0 <= p < q < |out| :: Before(out[p], out[q]))
  }

  // ----- the accumulation loop -----

  lemma ListScoreSnoc(rows: seq<RankedRow>, row: RankedRow, k: nat, id: nat)
    ensures ListScore(rows + [row], k, id) ==
            ListScore(rows, k, id) + if row.id == id then Contribution(row, |rows|, k) else 0.0
  {
    assert (rows + [row])[..|rows|] == rows;
  }

  lemma SourcesSnoc(sources: seq<seq<RankedRow>>, rows: seq<RankedRow>, k: nat)
    ensures AllRows(sources + [rows]) == AllRows(sources) + rows
    ensures forall id :: TotalScore(sources + [rows], k, id) == TotalScore(sources, k, id) + ListScore(rows, k, id)
  {
    assert (sources + [rows])[..|sources|] == sources;
  }

  lemma FirstSnoc(rows: seq<RankedRow>, row: RankedRow, id: nat)
    requires Has(rows, id)
    ensures Has(rows + [row], id) && First(rows + [row], id) == First(rows, id)
  {
    var r :| r in rows && r.id == id;
    assert r in rows + [row];
    if rows[0].id != id {
      assert r in rows[1..];
      FirstSnoc(rows[1..], row, id);
      assert (rows + [row])[1..] == rows[1..] + [row];
    }
  }

  lemma FirstIsNew(rows: seq<RankedRow>, row: RankedRow)
    requires !Has(rows, row.id)
    ensures Has(rows + [row], row.id) && First(rows + [row], row.id) == row
  {
    assert row in rows + [row];
    if rows != [] {
      assert rows[0] in rows;
      forall r | r in rows[1..] ensures r.id != row.id { assert r in rows; }
      FirstIsNew(rows[1..], row);
      assert (rows + [row])[1..] == rows[1..] + [row];
    }
  }

  lemma HasSnoc(rows: seq<RankedRow>, row: RankedRow, id: nat)
    ensures Has(rows + [row], id) <==> (Has(rows, id) || row.id == id)
  {
    assert row in rows + [row];
    if Has(rows, id) {
      var r :| r in rows && r.id == id;
      assert r in rows + [row];
    }
  }

  function Scored(score: map<nat, real>, id: nat): real {
    if id in score then score[id] else 0.0
  }

  /** `acc` keeps the first row of each id, give or take its score. */
  ghost predicate KeepsFirst(acc: map<nat, RankedRow>, rows: seq<RankedRow>) {
    && (forall id :: id in acc <==> Has(rows, id))
    && (forall id | id in acc :: Has(rows, id) && acc[id] == First(rows, id).(score := acc[id].score))
  }

  lemma KeepsFirstStep(acc: map<nat, RankedRow>, rows: seq<RankedRow>, row: RankedRow)
    requires KeepsFirst(acc, rows)
    ensures KeepsFirst(if row.id in acc then acc[row.id := acc[row.id].(score := 0.0)] else acc[row.id := row],
                       rows + [row])
  {
    hide First, Has;
    var next := if row.id in acc then acc[row.id := acc[row.id].(score := 0.0)] else acc[row.id := row];
    forall id ensures id in next <==> Has(rows + [row], id) { HasSnoc(rows, row, id); }
    forall id | id in next
      ensures Has(rows + [row], id) && next[id] == First(rows + [row], id).(score := next[id].score)
    {
      HasSnoc(rows, row, id);
      if id in acc { FirstSnoc(rows, row, id); } else { FirstIsNew(rows, row); }
    }
  }

  ghost predicate Tallied(score: map<nat, real>, acc: map<nat, RankedRow>, done: seq<seq<RankedRow>>,
                          part: seq<RankedRow>, k: nat) {
    && score.Keys == acc.Keys
    && KeepsFirst(acc, AllRows(done) + part)
    && forall id :: Scored(score, id) == TotalScore(done, k, id) + ListScore(part, k, id)
  }

  lemma TalliedStep(score: map<nat, real>, acc: map<nat, RankedRow>, done: seq<seq<RankedRow>>, part: seq<RankedRow>,
                    row: RankedRow, k: nat)
    requires Tallied(score, acc, done, part, k)
    ensures Tallied(score[row.id := Scored(score, row.id) + Contribution(row, |part|, k)],
                    if row.id in acc then acc[row.id := acc[row.id].(score := 0.0)] else acc[row.id := row],
                    done, part + [row], k)
  {
    hide Contribution, TotalScore, ListScore, KeepsFirst, AllRows;
    KeepsFirstStep(acc, AllRows(done) + part, row);
    assert AllRows(done) + part + [row] == AllRows(done) + (part + [row]);
    forall id { ListScoreSnoc(part, row, k, id); }
  }

  lemma TalliedStart(k: nat)
    ensures Tallied(map[], map[], [], [], k)
  {
  }

  lemma TalliedNextList(score: map<nat, real>, acc: map<nat, RankedRow>, done: seq<seq<RankedRow>>,
                        rows: seq<RankedRow>, k: nat)
    requires Tallied(score, acc, done, rows, k)
    ensures Tallied(score, acc, done + [rows], [], k)
  {
    hide KeepsFirst, First, Has;
    SourcesSnoc(done, rows, k);
    assert AllRows(done + [rows]) + [] == AllRows(done) + rows;
  }

  // ----- writing the scores back and sorting -----

  lemma OrderIsTotal()
    ensures TotalPreorder(NotAfter)
  {
  }

  /** The maps are read in whatever order they iterate; the sort settles the result. */
  method Finalize(acc0: map<nat, RankedRow>, score: map<nat, real>) returns (out: seq<RankedRow>)
    requires score.Keys == acc0.Keys
    requires forall id | id in acc0 :: acc0[id].id == id
    ensures forall p | 0 <= p < |out| :: out[p].id in acc0 && out[p] == acc0[out[p].id].(score := score[out[p].id])
    ensures forall id | id in acc0 :: Has(out, id)
    ensures forall p, q | 0 <= p < q < |out| :: Before(out[p], out[q])
  {
    var acc := acc0;
    var ids := score.Keys;
    while ids != {}
      invariant ids <= score.Keys == acc.Keys
      invariant forall id | id in acc :: acc[id] == if id in ids then acc0[id] else acc0[id].(score := score[id])
      decreases ids
    {
      var id :| id in ids;
      acc := acc[id := acc[id].(score := score[id])];
      ids := ids - {id};
    }
    var values: seq<RankedRow> := [];
    var left := acc.Keys;
    while left != {}
      invariant left <= acc.Keys
      invariant forall r | r in values :: r.id in acc && r.id !in left && r == acc[r.id]
      invariant forall id | id in acc && id !in left :: acc[id] in values
      invariant Distinct(values)
      decreases left
    {
      var id :| id in left;
      values := values + [acc[id]];
      left := left - {id};
    }
    out := StableSort(values, NotAfter);
    SortedWithoutTies(values, out);
    forall id | id in acc0 ensures Has(out, id) { assert acc[id] in values; assert acc[id] in out; }
    forall p | 0 <= p < |out| ensures out[p].id in acc0 && out[p] == acc0[out[p].id].(score := score[out[p].id]) {
      assert out[p] in out;
      assert out[p] in values;
    }
  }

  /** Rows with distinct ids never tie, so sorting them gives a strict order. */
  lemma SortedWithoutTies(values: seq<RankedRow>, out: seq<RankedRow>)
    requires out == StableSort(values, NotAfter)
    requires Distinct(values)
    requires forall a, b | a in values && b in values && a.id == b.id :: a == b
    ensures forall r | r in values :: r in out
    ensures forall r | r in out :: r in values
    ensures forall p, q | 0 <= p < q < |out| :: Before(out[p], out[q])
  {
    hide StableSort;
    OrderIsTotal();
    StableSortPermutes(values, NotAfter);
    StableSortSorted(values, NotAfter);
    SameMembers(values, out);
    PermutationDistinct(values, out);
    forall p, q | 0 <= p < q < |out| ensures Before(out[p], out[q]) {
      assert NotAfter(out[p], out[q]);
      assert out[p] in out && out[q] in out;
      assert out[p].id != out[q].id;
    }
  }

  method Rrf(sources: seq<seq<RankedRow>>, k: nat) returns (out: seq<RankedRow>)
    ensures IsFused(sources, Cap(k), out)
  {
    hide KeepsFirst, Tallied, IsFused, TotalScore, ListScore, AllRows, Contribution, FusedRow;
    var kf := Cap(k);
    var acc: map<nat, RankedRow> := map[];
    var score: map<nat, real> := map[];
    TalliedStart(kf);
    assert sources[..0] == [];
    for n := 0 to |sources|
      invariant Tallied(score, acc, sources[..n], [], kf)
    {
      var rows := sources[n];
      assert rows[..0] == [];
      for rank := 0 to |rows|
        invariant Tallied(score, acc, sources[..n], rows[..rank], kf)
      {
        var row := rows[rank];
        TalliedStep(score, acc, sources[..n], rows[..rank], row, kf);
        assert rows[..rank + 1] == rows[..rank] + [row];
        score := score[row.id := Scored(score, row.id) + Contribution(row, rank, kf)];
        acc := if row.id in acc then acc[row.id := acc[row.id].(score := 0.0)] else acc[row.id := row];
      }
      assert rows[..|rows|] == rows;
      TalliedNextList(score, acc, sources[..n], rows, kf);
      assert sources[..n + 1] == sources[..n] + [rows];
    }
    assert sources[..|sources|] == sources;
    TalliedIds(score, acc, sources, kf);
    out := Finalize(acc, score);
    TalliedIsFused(score, acc, sources, kf, out);
  }

  lemma TalliedIds(score: map<nat, real>, acc: map<nat, RankedRow>, sources: seq<seq<RankedRow>>, k: nat)
    requires Tallied(score, acc, sources, [], k)
    ensures score.Keys == acc.Keys
    ensures forall id | id in acc :: acc[id].id == id
  {
    hide First, Has;
    forall id | id in acc ensures acc[id].id == id {
      FirstHasId(AllRows(sources) + [], id);
    }
  }

  lemma FirstHasId(rows: seq<RankedRow>, id: nat)
    ensures Has(rows, id) ==> First(rows, id).id == id
  {
  }

  lemma TalliedIsFused(score: map<nat, real>, acc: map<nat, RankedRow>, sources: seq<seq<RankedRow>>, k: nat,
                       out: seq<RankedRow>)
    requires Tallied(score, acc, sources, [], k) && score.Keys == acc.Keys
    requires forall p | 0 <= p < |out| :: out[p].id in acc && out[p] == acc[out[p].id].(score := score[out[p].id])
    requires forall id | id in acc :: Has(out, id)
    requires forall p, q | 0 <= p < q < |out| :: Before(out[p], out[q])
    ensures IsFused(sources, k, out)
  {
    hide First, Has, Before, TotalScore, AllRows;
    assert AllRows(sources) + [] == AllRows(sources);
    assert ListScore([], k, 0) == 0.0;
    forall p | 0 <= p < |out| ensures Has(AllRows(sources), out[p].id) && out[p] == FusedRow(sources, k, out[p].id) {
      var id := out[p].id;
      assert Scored(score, id) == TotalScore(sources, k, id) + ListScore([], k, id);
    }
  }

  // ----- the result does not depend on iteration order -----

  lemma IsFusedIds(sources: seq<seq<RankedRow>>, k: nat, out: seq<RankedRow>)
    requires IsFused(sources, k, out)
    ensures forall p, q | 0 <= p < q < |out| :: out[p].id != out[q].id
    ensures forall id :: Has(AllRows(sources), id) <==> Has(out, id)
  {
    hide First, AllRows, TotalScore;
    forall p, q | 0 <= p < q < |out| ensures out[p].id != out[q].id {
      assert out[p] == FusedRow(sources, k, out[p].id) && out[q] == FusedRow(sources, k, out[q].id);
      assert Before(out[p], out[q]);
    }
    forall id | Has(out, id) ensures Has(AllRows(sources), id) {
      var r :| r in out && r.id == id;
      var p :| 0 <= p < |out| && out[p] == r;
    }
  }

  /** Whatever order the hash maps yield their entries in, there is one possible answer. */
  lemma FusedIsUnique(sources: seq<seq<RankedRow>>, k: nat, a: seq<RankedRow>, b: seq<RankedRow>)
    requires IsFused(sources, k, a) && IsFused(sources, k, b)
    ensures a == b
  {
    FusedMembers(sources, k, a, b);
    FusedMembers(sources, k, b, a);
    StrictlySorted(a);
    StrictlySorted(b);
    SameSetSameMultiset(a, b);
    SortedUnique(a, b, NotAfter);
  }

  lemma FusedMembers(sources: seq<seq<RankedRow>>, k: nat, a: seq<RankedRow>, b: seq<RankedRow>)
    requires IsFused(sources, k, a) && IsFused(sources, k, b)
    ensures forall r | r in a :: r in b
  {
    hide First, AllRows, TotalScore, FusedRow;
    forall r | r in a ensures r in b {
      var p :| 0 <= p < |a| && a[p] == r;
      assert Has(b, r.id);
      var s :| s in b && s.id == r.id;
      var q :| 0 <= q < |b| && b[q] == s;
    }
  }

  lemma StrictlySorted(out: seq<RankedRow>)
    requires forall p, q | 0 <= p < q < |out| :: Before(out[p], out[q])
    ensures SortedBy(out, NotAfter) && Distinct(out) && NoTies(out, NotAfter)
  {
    forall i, j | 0 <= i < |out| && 0 <= j < |out| && i != j ensures Before(out[i], out[j]) || Before(out[j], out[i]) {
    }
  }

  // ----- who stands before whom -----

  /** `p` is listed before `q`. */
  ghost predicate Precedes(out: seq<RankedRow>, p: nat, q: nat) {
    exists i, j | 0 <= i < j < |out| :: out[i].id == p && out[j].id == q
  }

  /** Positions follow the fused rows' order and nothing else. */
  lemma PrecedesIsBefore(sources: seq<seq<RankedRow>>, k: nat, out: seq<RankedRow>, p: nat, q: nat)
    requires IsFused(sources, k, out)
    requires Has(AllRows(sources), p) && Has(AllRows(sources), q)
    ensures Precedes(out, p, q) <==> Before(FusedRow(sources, k, p), FusedRow(sources, k, q))
  {
    hide First, AllRows, TotalScore, FusedRow, SourceOrder;
    assert Has(out, p) && Has(out, q);
    var r :| r in out && r.id == p;
    var s :| s in out && s.id == q;
    var i :| 0 <= i < |out| && out[i] == r;
    var j :| 0 <= j < |out| && out[j] == s;
    IsFusedIds(sources, k, out);
    if i < j { assert out[i].id == p && out[j].id == q; }
    else if j < i { assert Before(out[j], out[i]); }
  }

  // ----- the order the lists are given in does not matter -----

  /** An id's rows all come from one source, as in a search: knowledge in vector lists, the rest in text lists. */
  ghost predicate OneSourcePerId(rows: seq<RankedRow>) {
    forall a, b | a in rows && b in rows && a.id == b.id :: a.source == b.source
  }

  lemma {:induction false} TotalScoreWithout(sources: seq<seq<RankedRow>>, n: nat, k: nat, id: nat)
    requires n < |sources|
    ensures TotalScore(sources, k, id) ==
              TotalScore(sources[..n] + sources[n + 1..], k, id) + ListScore(sources[n], k, id)
  {
    hide ListScore, TotalScore;
    var last := |sources| - 1;
    var rest := sources[..n] + sources[n + 1..];
    assert sources == sources[..last] + [sources[last]];
    TotalScoreSnoc(sources[..last], sources[last], k, id);
    if n < last {
      var less := sources[..last][..n] + sources[..last][n + 1..];
      TotalScoreWithout(sources[..last], n, k, id);
      TotalScoreSnoc(less, sources[last], k, id);
      assert rest == less + [sources[last]];
    } else {
      assert rest == sources[..last];
    }
  }

  lemma TotalScoreSnoc(sources: seq<seq<RankedRow>>, list: seq<RankedRow>, k: nat, id: nat)
    ensures TotalScore(sources + [list], k, id) == TotalScore(sources, k, id) + ListScore(list, k, id)
  {
    hide ListScore;
    assert (sources + [list])[..|sources|] == sources;
  }

  lemma {:induction false} TotalScoreOfPermuted(a: seq<seq<RankedRow>>, b: seq<seq<RankedRow>>, k: nat, id: nat)
    requires multiset(a) == multiset(b)
    ensures TotalScore(a, k, id) == TotalScore(b, k, id)
  {
    hide ListScore;
    SameMembers(a, b);
    if a != [] {
      hide TotalScore;
      var last := |a| - 1;
      assert a[last] in b;
      var n :| 0 <= n < |b| && b[n] == a[last];
      MultisetWithout(a, last);
      MultisetWithout(b, n);
      assert a[..last] + a[last + 1..] == a[..last];
      TotalScoreOfPermuted(a[..last], b[..n] + b[n + 1..], k, id);
      TotalScoreWithout(a, last, k, id);
      TotalScoreWithout(b, n, k, id);
    }
  }

  lemma {:induction false} AllRowsMembers(sources: seq<seq<RankedRow>>, r: RankedRow)
    ensures r in AllRows(sources) <==> exists rows | rows in sources :: r in rows
  {
    if sources != [] {
      var last := |sources| - 1;
      AllRowsMembers(sources[..last], r);
      assert sources == sources[..last] + [sources[last]];
    }
  }

  lemma SameRowsPermuted(a: seq<seq<RankedRow>>, b: seq<seq<RankedRow>>)
    requires multiset(a) == multiset(b)
    ensures forall r :: r in AllRows(a) <==> r in AllRows(b)
  {
    hide AllRows;
    SameMembers(a, b);
    forall r ensures r in AllRows(a) <==> r in AllRows(b) {
      AllRowsMembers(a, r);
      AllRowsMembers(b, r);
    }
  }

  lemma HasPermuted(a: seq<seq<RankedRow>>, b: seq<seq<RankedRow>>, id: nat)
    requires multiset(a) == multiset(b)
    ensures Has(AllRows(a), id) <==> Has(AllRows(b), id)
  {
    SameRowsPermuted(a, b);
  }

  lemma FusedRowPermuted(a: seq<seq<RankedRow>>, b: seq<seq<RankedRow>>, k: nat, id: nat)
    requires multiset(a) == multiset(b) && OneSourcePerId(AllRows(a))
    requires Has(AllRows(a), id) && Has(AllRows(b), id)
    ensures FusedRow(a, k, id).score == FusedRow(b, k, id).score
    ensures FusedRow(a, k, id).source == FusedRow(b, k, id).source
  {
    hide AllRows, TotalScore, First;
    SameRowsPermuted(a, b);
    TotalScoreOfPermuted(a, b, k, id);
    assert First(AllRows(b), id) in AllRows(a);
  }

  /** Handing the lists over in another order changes no position and no score. */
  lemma ListOrderIsIrrelevant(a: seq<seq<RankedRow>>, b: seq<seq<RankedRow>>, k: nat, x: seq<RankedRow>,
                              y: seq<RankedRow>)
    requires multiset(a) == multiset(b) && OneSourcePerId(AllRows(a))
    requires IsFused(a, k, x) && IsFused(b, k, y)
    ensures |x| == |y|
    ensures forall p | 0 <= p < |x| :: x[p].id == y[p].id && x[p].score == y[p].score
  {
    hide *;
    SameStandings(a, b, k, x, y);
    SameMultisetsOfStandings(a, b, k, x, y);
    Standing1(a, k, x);
    Standing1(b, k, y);
    SortedUnique(Standings(x), Standings(y), NotAfter);
    StandingsAt(x);
    StandingsAt(y);
  }

  /** Some list shows `id` under one source, some list under another. */
  ghost predicate TwoSources(rows: seq<RankedRow>, id: nat) {
    exists r, s :: r in rows && s in rows && r.id == id && s.id == id && r.source != s.source
  }

  /** Whatever the lists, only ids tied on score can change places when the lists are handed over in another
      order, and only when one of the two comes under two sources. */
  lemma OnlyTiesCanMove(a: seq<seq<RankedRow>>, b: seq<seq<RankedRow>>, k: nat,
                        x: seq<RankedRow>, y: seq<RankedRow>, p: nat, q: nat)
    requires multiset(a) == multiset(b) && IsFused(a, k, x) && IsFused(b, k, y)
    requires Precedes(x, p, q)
    ensures Precedes(y, p, q) || (TotalScore(a, k, p) == TotalScore(a, k, q)
                                  && (TwoSources(AllRows(a), p) || TwoSources(AllRows(a), q)))
  {
    hide AllRows, First, TotalScore, FusedRow, TwoSources;
    var i, j :| 0 <= i < j < |x| && x[i].id == p && x[j].id == q;
    assert Has(AllRows(a), p) && Has(AllRows(a), q);
    PrecedesIsBefore(a, k, x, p, q);
    HasPermuted(a, b, p);
    HasPermuted(a, b, q);
    PrecedesIsBefore(b, k, y, p, q);
    TotalScoreOfPermuted(a, b, k, p);
    TotalScoreOfPermuted(a, b, k, q);
    if !TwoSources(AllRows(a), p) && !TwoSources(AllRows(a), q) {
      SourcePermuted(a, b, k, p);
      SourcePermuted(a, b, k, q);
    }
  }

  lemma SourcePermuted(a: seq<seq<RankedRow>>, b: seq<seq<RankedRow>>, k: nat, id: nat)
    requires multiset(a) == multiset(b) && !TwoSources(AllRows(a), id)
    requires Has(AllRows(a), id) && Has(AllRows(b), id)
    ensures FusedRow(a, k, id).source == FusedRow(b, k, id).source
  {
    hide AllRows, TotalScore, First;
    SameRowsPermuted(a, b);
    assert First(AllRows(b), id) in AllRows(a);
  }

  // Two lists of two ids, one of which comes under both sources; the scores are equal.

  const TWO_THEN_ONE: seq<RankedRow> := [RankedRow(Vector, 2, 0.0, Null, 1.0), RankedRow(Fts, 1, 0.0, Null, 1.0)]
  const ONE_THEN_TWO: seq<RankedRow> := [RankedRow(Fts, 1, 0.0, Null, 1.0), RankedRow(Fts, 2, 0.0, Null, 1.0)]

  function TiedScore(k: nat): real { 1.0 / (k + 1) as real + 1.0 / (k + 2) as real }

  lemma TiedLists(k: nat)
    ensures ListScore(TWO_THEN_ONE, k, 2) == 1.0 / (k + 1) as real
              && ListScore(TWO_THEN_ONE, k, 1) == 1.0 / (k + 2) as real
    ensures ListScore(ONE_THEN_TWO, k, 1) == 1.0 / (k + 1) as real
              && ListScore(ONE_THEN_TWO, k, 2) == 1.0 / (k + 2) as real
  {
    ListScoreOfTwo(TWO_THEN_ONE[0], TWO_THEN_ONE[1], k, 1);
    ListScoreOfTwo(TWO_THEN_ONE[0], TWO_THEN_ONE[1], k, 2);
    ListScoreOfTwo(ONE_THEN_TWO[0], ONE_THEN_TWO[1], k, 1);
    ListScoreOfTwo(ONE_THEN_TWO[0], ONE_THEN_TWO[1], k, 2);
    assert TWO_THEN_ONE == [TWO_THEN_ONE[0], TWO_THEN_ONE[1]] && ONE_THEN_TWO == [ONE_THEN_TWO[0], ONE_THEN_TWO[1]];
  }

  lemma ListScoreOfTwo(r: RankedRow, s: RankedRow, k: nat, id: nat)
    requires r.weight == 1.0 && s.weight == 1.0
    ensures ListScore([r, s], k, id) ==
            (if r.id == id then 1.0 / (k + 1) as real else 0.0) + if s.id == id then 1.0 / (k + 2) as real else 0.0
  {
    ListScoreSnoc([], r, k, id);
    ListScoreSnoc([r], s, k, id);
    assert [] + [r] == [r] && [r] + [s] == [r, s];
  }

  lemma TwoLists(a: seq<RankedRow>, b: seq<RankedRow>, k: nat, id: nat)
    ensures AllRows([a, b]) == a + b
    ensures TotalScore([a, b], k, id) == ListScore(a, k, id) + ListScore(b, k, id)
  {
    hide ListScore;
    SourcesSnoc([], a, k);
    SourcesSnoc([a], b, k);
    assert [] + [a] == [a] && [a] + [b] == [a, b];
    assert [] + a == a;
  }

  /** With an id under two sources the order of the lists does show: the same two lists, handed over in the
      other order, list the two ids in the other order. */
  lemma ListOrderCanMatter(k: nat)
    ensures var a, b := [TWO_THEN_ONE, ONE_THEN_TWO], [ONE_THEN_TWO, TWO_THEN_ONE];
            var two, one := RankedRow(Vector, 2, TiedScore(k), Null, 1.0), RankedRow(Fts, 1, TiedScore(k), Null, 1.0);
            && multiset(a) == multiset(b)
            && IsFused(a, k, [two, one]) && IsFused(b, k, [one, two.(source := Fts)])
  {
    hide ListScore, TotalScore, AllRows;
    TiedLists(k);
    var a, b := [TWO_THEN_ONE, ONE_THEN_TWO], [ONE_THEN_TWO, TWO_THEN_ONE];
    TwoLists(TWO_THEN_ONE, ONE_THEN_TWO, k, 1);
    TwoLists(TWO_THEN_ONE, ONE_THEN_TWO, k, 2);
    TwoLists(ONE_THEN_TWO, TWO_THEN_ONE, k, 1);
    TwoLists(ONE_THEN_TWO, TWO_THEN_ONE, k, 2);
    assert a == [TWO_THEN_ONE] + [ONE_THEN_TWO] && b == [ONE_THEN_TWO] + [TWO_THEN_ONE];
    var two, one := RankedRow(Vector, 2, TiedScore(k), Null, 1.0), RankedRow(Fts, 1, TiedScore(k), Null, 1.0);
    FusedOfTwo(a, k, two, one);
    FusedOfTwo(b, k, one, two.(source := Fts));
  }

  lemma FusedOfTwo(sources: seq<seq<RankedRow>>, k: nat, r: RankedRow, s: RankedRow)
    requires Before(r, s) && |AllRows(sources)| == 4
    requires var rows := AllRows(sources);
             && rows[0].id == r.id && rows[1].id == s.id && r.id != s.id
             && (forall i | 0 <= i < 4 :: rows[i].id == r.id || rows[i].id == s.id)
             && r == rows[0].(score := TotalScore(sources, k, r.id))
             && s == rows[1].(score := TotalScore(sources, k, s.id))
    ensures IsFused(sources, k, [r, s])
  {
    hide AllRows, TotalScore;
    var rows := AllRows(sources);
    assert rows[0] in rows && rows[1] in rows && rows[1] in rows[1..];
    assert First(rows, r.id) == rows[0] && First(rows, s.id) == First(rows[1..], s.id) == rows[1];
    assert r in [r, s] && s in [r, s];
  }

  /** A row stripped of what the order does not look at. */
  function Standing(r: RankedRow): RankedRow { RankedRow(r.source, r.id, r.score, Null, 0.0) }

  function Standings(out: seq<RankedRow>): (r: seq<RankedRow>)
    ensures |r| == |out|
  {
    seq(|out|, p requires 0 <= p < |out| => Standing(out[p]))
  }

  lemma StandingsAt(out: seq<RankedRow>)
    ensures forall p | 0 <= p < |out| :: Standings(out)[p].id == out[p].id && Standings(out)[p].score == out[p].score
  {
  }

  lemma Standing1(sources: seq<seq<RankedRow>>, k: nat, out: seq<RankedRow>)
    requires IsFused(sources, k, out)
    ensures SortedBy(Standings(out), NotAfter) && Distinct(Standings(out)) && NoTies(Standings(out), NotAfter)
  {
    hide AllRows, FusedRow, Has, First, TotalScore;
    forall p, q | 0 <= p < q < |out| ensures Before(Standings(out)[p], Standings(out)[q]) {
      assert Before(out[p], out[q]);
    }
    StrictlySorted(Standings(out));
  }

  lemma SameStandings(a: seq<seq<RankedRow>>, b: seq<seq<RankedRow>>, k: nat, x: seq<RankedRow>, y: seq<RankedRow>)
    requires multiset(a) == multiset(b) && OneSourcePerId(AllRows(a))
    requires IsFused(a, k, x) && IsFused(b, k, y)
    ensures forall r | r in Standings(x) :: r in Standings(y)
  {
    hide AllRows, First, TotalScore, OneSourcePerId, FusedRow, SourceOrder;
    forall r | r in Standings(x) ensures r in Standings(y) {
      var p :| 0 <= p < |x| && Standings(x)[p] == r;
      var id := x[p].id;
      HasPermuted(a, b, id);
      FusedRowPermuted(a, b, k, id);
      assert Has(y, id);
      var s :| s in y && s.id == id;
      var q :| 0 <= q < |y| && y[q] == s;
      assert Standings(y)[q] == r;
    }
  }

  lemma SameMultisetsOfStandings(a: seq<seq<RankedRow>>, b: seq<seq<RankedRow>>, k: nat, x: seq<RankedRow>,
                                 y: seq<RankedRow>)
    requires multiset(a) == multiset(b) && OneSourcePerId(AllRows(a))
    requires IsFused(a, k, x) && IsFused(b, k, y)
    ensures multiset(Standings(x)) == multiset(Standings(y))
  {
    hide *;
    Standing1(a, k, x);
    Standing1(b, k, y);
    SameStandings(a, b, k, x, y);
    OneSourcePermuted(a, b);
    SameStandings(b, a, k, y, x);
    SameSetSameMultiset(Standings(x), Standings(y));
  }

  lemma OneSourcePermuted(a: seq<seq<RankedRow>>, b: seq<seq<RankedRow>>)
    requires multiset(a) == multiset(b) && OneSourcePerId(AllRows(a))
    ensures OneSourcePerId(AllRows(b))
  {
    hide AllRows;
    SameRowsPermuted(a, b);
  }

  // ----- raising a weight never hurts -----

  /** `b` is `a` with some rows of `id` weighing more. */
  ghost predicate Raised(a: seq<RankedRow>, b: seq<RankedRow>, id: nat) {
    && |a| == |b|
    && forall n | 0 <= n < |a| ::
         b[n] == a[n].(weight := b[n].weight)
           && if a[n].id == id then b[n].weight >= a[n].weight else b[n].weight == a[n].weight
  }

  ghost predicate AllRaised(a: seq<seq<RankedRow>>, b: seq<seq<RankedRow>>, id: nat) {
    |a| == |b| && forall n | 0 <= n < |a| :: Raised(a[n], b[n], id)
  }

  lemma DivisionKeepsOrder(x: real, y: real, d: real)
    requires x <= y && d > 0.0
    ensures x / d <= y / d
  {
  }

  lemma {:induction false} RaisedListScore(a: seq<RankedRow>, b: seq<RankedRow>, id: nat, k: nat, other: nat)
    requires Raised(a, b, id)
    ensures ListScore(a, k, other) <= ListScore(b, k, other)
    ensures other != id ==> ListScore(a, k, other) == ListScore(b, k, other)
  {
    if a != [] {
      var last := |a| - 1;
      RaisedListScore(a[..last], b[..last], id, k, other);
      DivisionKeepsOrder(a[last].weight, b[last].weight, (k + last + 1) as real);
    }
  }

  lemma {:induction false} RaisedTotalScore(a: seq<seq<RankedRow>>, b: seq<seq<RankedRow>>, id: nat, k: nat, other: nat)
    requires AllRaised(a, b, id)
    ensures TotalScore(a, k, other) <= TotalScore(b, k, other)
    ensures other != id ==> TotalScore(a, k, other) == TotalScore(b, k, other)
  {
    hide ListScore, Raised;
    if a != [] {
      var last := |a| - 1;
      RaisedTotalScore(a[..last], b[..last], id, k, other);
      RaisedListScore(a[last], b[last], id, k, other);
    }
  }

  lemma RaisedConcat(a: seq<RankedRow>, b: seq<RankedRow>, c: seq<RankedRow>, d: seq<RankedRow>, id: nat)
    requires Raised(a, b, id) && Raised(c, d, id)
    ensures Raised(a + c, b + d, id)
  {
    forall n | 0 <= n < |a + c| ensures (b + d)[n] == (a + c)[n].(weight := (b + d)[n].weight) {
      if n < |a| {
        assert (a + c)[n] == a[n] && (b + d)[n] == b[n];
      } else {
        assert (a + c)[n] == c[n - |a|] && (b + d)[n] == d[n - |b|];
      }
    }
  }

  lemma {:induction false} RaisedRows(a: seq<seq<RankedRow>>, b: seq<seq<RankedRow>>, id: nat)
    requires AllRaised(a, b, id)
    ensures Raised(AllRows(a), AllRows(b), id)
  {
    if a != [] {
      hide Raised;
      var last := |a| - 1;
      RaisedRows(a[..last], b[..last], id);
      RaisedConcat(AllRows(a[..last]), AllRows(b[..last]), a[last], b[last], id);
    }
  }

  lemma {:induction false} RaisedFirst(a: seq<RankedRow>, b: seq<RankedRow>, id: nat, other: nat)
    requires Raised(a, b, id) && Has(a, other)
    ensures Has(b, other) && First(a, other).source == First(b, other).source
  {
    assert b[0].id == a[0].id;
    if a[0].id == other {
      assert b[0] in b;
    } else {
      var r :| r in a && r.id == other;
      assert r in a[1..];
      RaisedFirst(a[1..], b[1..], id, other);
      var s :| s in b[1..] && s.id == other;
      assert s in b;
    }
  }

  /** Whoever stood before `q` still does, unless it is `q` itself that was raised: the raised hit
      never moves down, and the others keep their order among themselves. */
  lemma RaisingNeverLowers(a: seq<seq<RankedRow>>, b: seq<seq<RankedRow>>, id: nat, k: nat,
                           x: seq<RankedRow>, y: seq<RankedRow>, p: nat, q: nat)
    requires AllRaised(a, b, id)
    requires IsFused(a, k, x) && IsFused(b, k, y)
    requires Precedes(x, p, q) && q != id
    ensures Precedes(y, p, q)
  {
    hide AllRows, First, TotalScore, FusedRow, AllRaised, Raised;
    var i, j :| 0 <= i < j < |x| && x[i].id == p && x[j].id == q;
    assert Has(AllRows(a), p) && Has(AllRows(a), q);
    PrecedesIsBefore(a, k, x, p, q);
    RaisedRows(a, b, id);
    RaisedFirst(AllRows(a), AllRows(b), id, p);
    RaisedFirst(AllRows(a), AllRows(b), id, q);
    RaisedTotalScore(a, b, id, k, p);
    RaisedTotalScore(a, b, id, k, q);
    if p == id { StaysBefore(FusedRow(a, k, p), FusedRow(a, k, q), FusedRow(b, k, p), FusedRow(b, k, q)); }
    PrecedesIsBefore(b, k, y, p, q);
  }

  lemma StaysBefore(p: RankedRow, q: RankedRow, p1: RankedRow, q1: RankedRow)
    requires Before(p, q)
    requires p1.id == p.id && p1.source == p.source && p1.score >= p.score
    requires q1.id == q.id && q1.source == q.source && q1.score == q.score
    ensures Before(p1, q1)
  {
  }
}
