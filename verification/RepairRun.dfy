/** The repair as it runs: tally the buckets, group the writes by new author, write them in chunks. */
module RepairRun {
  import opened Options
  import opened Sorting
  import opened Repair

  const CHUNK: nat := 500

  /** A row id and the author it is to get. */
  type Assignment = (nat, nat)

  datatype PerAuthor = PerAuthor(author: nat, name: string, count: nat)

  datatype Outcome = Outcome(total: nat, recovered: nat, lost: nat, left: nat, perAuthor: seq<PerAuthor>)

  /** Ids of the system's rows, in table order. */
  function SystemIds(rows: seq<Row>): seq<nat> {
    if rows == [] then []
    else
      var last := |rows| - 1;
      SystemIds(rows[..last]) + if rows[last].author == SYSTEM then [rows[last].id] else []
  }

  /** What should be written, in table order. */
  function Assignments(ids: seq<nat>, buckets: nat -> Bucket): seq<Assignment> {
    if ids == [] then []
    else
      var last := |ids| - 1;
      Assignments(ids[..last], buckets)
      + match NewAuthor(buckets(ids[last])) { case Some(a) => [(ids[last], a)] case None => [] }
  }

  predicate InRecovered(b: Bucket) { b.Recovered? }
  predicate InLost(b: Bucket) { b.Lost? }
  predicate InSystem(b: Bucket) { b.LeaveSystem? }

  function CountIn(ids: seq<nat>, buckets: nat -> Bucket, kind: Bucket -> bool): nat {
    if ids == [] then 0
    else CountIn(ids[..|ids| - 1], buckets, kind) + if kind(buckets(ids[|ids| - 1])) then 1 else 0
  }

  function CountTo(assignments: seq<Assignment>, author: nat): nat {
    if assignments == [] then 0
    else CountTo(assignments[..|assignments| - 1], author) + if assignments[|assignments| - 1].1 == author then 1 else 0
  }

  function NameOf(names: map<nat, string>, author: nat): string {
    if author in names then names[author] else ""
  }

  // ----- the report -----

  /** Strings are ordered by their characters, as the report sorts agent names. */
  predicate TextAtMost(a: string, b: string) {
    a == [] || (b != [] && (a[0] < b[0] || (a[0] == b[0] && TextAtMost(a[1..], b[1..]))))
  }

  predicate ReportOrder(a: PerAuthor, b: PerAuthor) {
    a.count > b.count || (a.count == b.count && TextAtMost(a.name, b.name))
  }

  /** `a` is a prefix of `b`, or has the smaller character where they first differ. */
  ghost predicate NotAfter(a: string, b: string) {
    a <= b || exists k :: 0 <= k < |a| && k < |b| && a[..k] == b[..k] && a[k] < b[k]
  }

  /** Biggest count first, then by name. */
  ghost predicate InReportOrder(out: seq<PerAuthor>) {
    forall i, j | 0 <= i < j < |out| ::
      out[i].count > out[j].count || (out[i].count == out[j].count && NotAfter(out[i].name, out[j].name))
  }

  /** One line per author that is given rows, biggest count first, then agent name. */
  ghost predicate PerAuthorReport(assignments: seq<Assignment>, names: map<nat, string>, out: seq<PerAuthor>) {
    && Distinct(out)
    && (forall a | a in out ::
          CountTo(assignments, a.author) > 0
            && a == PerAuthor(a.author, NameOf(names, a.author), CountTo(assignments, a.author)))
    && (forall a: nat | CountTo(assignments, a) > 0 :: PerAuthor(a, NameOf(names, a), CountTo(assignments, a)) in out)
    && InReportOrder(out)
  }

  /** The outcome a table's scan must report. */
  ghost predicate Reports(ids: seq<nat>, buckets: nat -> Bucket, names: map<nat, string>, o: Outcome) {
    && o.total == |ids|
    && o.recovered == CountIn(ids, buckets, InRecovered)
    && o.lost == CountIn(ids, buckets, InLost)
    && o.left == CountIn(ids, buckets, InSystem)
    && PerAuthorReport(Assignments(ids, buckets), names, o.perAuthor)
  }

  lemma {:induction false} TextOrder(a: string, b: string, c: string)
    ensures TextAtMost(a, b) || TextAtMost(b, a)
    ensures TextAtMost(a, b) && TextAtMost(b, c) ==> TextAtMost(a, c)
    ensures TextAtMost(a, b) && TextAtMost(b, a) ==> a == b
    decreases |a| + |b| + |c|
  {
    if a != [] && b != [] {
      if c != [] {
        TextOrder(a[1..], b[1..], c[1..]);
      } else {
        TextOrder(a[1..], b[1..], c);
      }
      assert a == [a[0]] + a[1..] && b == [b[0]] + b[1..];
    }
  }

  lemma {:induction false} TextAtMostForm(a: string, b: string)
    ensures TextAtMost(a, b) <==> NotAfter(a, b)
  {
    if a != [] && b != [] {
      NotAfterSteps(a, b);
      if a[0] == b[0] {
        TextAtMostForm(a[1..], b[1..]);
      }
      hide NotAfter;
    }
  }

  /** The first characters decide unless they are equal. */
  lemma NotAfterSteps(a: string, b: string)
    requires a != [] && b != []
    ensures NotAfter(a, b) <==> a[0] < b[0] || (a[0] == b[0] && NotAfter(a[1..], b[1..]))
  {
    assert a == [a[0]] + a[1..] && b == [b[0]] + b[1..];
    if k :| 0 <= k < |a| && k < |b| && a[..k] == b[..k] && a[k] < b[k] {
      if k > 0 {
        assert a[0] == a[..k][0] == b[..k][0] == b[0];
        assert a[1..][..k - 1] == a[..k][1..] && b[1..][..k - 1] == b[..k][1..];
      }
    }
    if a[0] == b[0] {
      if k :| 0 <= k < |a[1..]| && k < |b[1..]| && a[1..][..k] == b[1..][..k] && a[1..][k] < b[1..][k] {
        assert a[..k + 1] == [a[0]] + a[1..][..k] && b[..k + 1] == [b[0]] + b[1..][..k];
      }
    } else {
      assert a[..0] == b[..0];
    }
  }

  lemma SortedIsInReportOrder(out: seq<PerAuthor>)
    ensures SortedBy(out, ReportOrder) <==> InReportOrder(out)
  {
    forall i, j | 0 <= i < |out| && 0 <= j < |out|
      ensures TextAtMost(out[i].name, out[j].name) <==> NotAfter(out[i].name, out[j].name)
    {
      TextAtMostForm(out[i].name, out[j].name);
    }
    hide NotAfter, TextAtMost;
  }

  lemma ReportOrderIsTotal()
    ensures TotalPreorder(ReportOrder)
  {
    forall a: PerAuthor, b: PerAuthor, c: PerAuthor
      ensures ReportOrder(a, b) || ReportOrder(b, a)
      ensures ReportOrder(a, b) && ReportOrder(b, c) ==> ReportOrder(a, c)
    {
      TextOrder(a.name, b.name, c.name);
    }
  }

  /** The buckets sum to the total, and the lines of the report to what was reassigned. */
  lemma {:induction false} BucketsSum(ids: seq<nat>, buckets: nat -> Bucket)
    ensures CountIn(ids, buckets, InRecovered) + CountIn(ids, buckets, InLost) + CountIn(ids, buckets, InSystem) ==
              |ids|
    ensures CountIn(ids, buckets, InRecovered) + CountIn(ids, buckets, InLost) == |Assignments(ids, buckets)|
  {
    if ids != [] {
      BucketsSum(ids[..|ids| - 1], buckets);
    }
  }

  /** No two lines agree on both count and agent name. */
  ghost predicate NoTwoTie(lines: seq<PerAuthor>) {
    forall a, b | a in lines && b in lines && a.count == b.count && a.name == b.name :: a == b
  }

  /** A dry run's report is an apply's, line for line, unless two authors tie on count and agent name. */
  lemma DryRunPredictsApply(ids: seq<nat>, buckets: nat -> Bucket, names: map<nat, string>, dry: Outcome, wet: Outcome)
    requires Reports(ids, buckets, names, dry) && Reports(ids, buckets, names, wet)
    ensures dry.(perAuthor := []) == wet.(perAuthor := []) && multiset(dry.perAuthor) == multiset(wet.perAuthor)
    ensures NoTwoTie(dry.perAuthor) ==> dry == wet
  {
    hide CountIn, CountTo, Assignments, NameOf;
    var x, y := dry.perAuthor, wet.perAuthor;
    SortedIsInReportOrder(x);
    SortedIsInReportOrder(y);
    hide InReportOrder;
    forall a | a in x ensures a in y { }
    forall a | a in y ensures a in x { }
    SameSetSameMultiset(x, y);
    if NoTwoTie(x) {
      forall i, j | 0 <= i < |x| && 0 <= j < |x| && ReportOrder(x[i], x[j]) && ReportOrder(x[j], x[i])
        ensures x[i] == x[j]
      {
        TextOrder(x[i].name, x[j].name, x[i].name);
        assert x[i] in x && x[j] in x;
      }
      SortedUnique(x, y, ReportOrder);
    }
  }

  // ----- tallying -----

  lemma CountToSnoc(assignments: seq<Assignment>, x: Assignment, author: nat)
    ensures CountTo(assignments + [x], author) == CountTo(assignments, author) + if x.1 == author then 1 else 0
  {
    assert (assignments + [x])[..|assignments|] == assignments;
  }

  lemma TallySnoc(ids: seq<nat>, n: nat, buckets: nat -> Bucket)
    requires n < |ids|
    ensures forall kind: Bucket -> bool ::
              CountIn(ids[..n + 1], buckets, kind) ==
              CountIn(ids[..n], buckets, kind) + if kind(buckets(ids[n])) then 1 else 0
    ensures Assignments(ids[..n + 1], buckets) == Assignments(ids[..n], buckets)
              + match NewAuthor(buckets(ids[n])) { case Some(a) => [(ids[n], a)] case None => [] }
  {
    assert ids[..n + 1][..n] == ids[..n];
  }

  ghost predicate Counted(counts: map<nat, nat>, assignments: seq<Assignment>) {
    && (forall a | a in counts :: counts[a] == CountTo(assignments, a))
    && (forall a: nat :: a in counts <==> CountTo(assignments, a) > 0)
  }

  lemma CountedSnoc(counts: map<nat, nat>, assignments: seq<Assignment>, x: Assignment)
    requires Counted(counts, assignments)
    ensures Counted(counts[x.1 := (if x.1 in counts then counts[x.1] else 0) + 1], assignments + [x])
  {
    hide CountTo;
    forall a: nat { CountToSnoc(assignments, x, a); }
  }

  /** One pass over the system's rows: the three counters, the writes, the count per new author. */
  method Tally(ids: seq<nat>, buckets: nat -> Bucket)
    returns (o: Outcome, assignments: seq<Assignment>, counts: map<nat, nat>)
    ensures o == Outcome(|ids|, CountIn(ids, buckets, InRecovered), CountIn(ids, buckets, InLost),
                         CountIn(ids, buckets, InSystem), [])
    ensures assignments == Assignments(ids, buckets) && Counted(counts, assignments)
  {
    hide CountIn, Assignments, Counted;
    o := Outcome(|ids|, 0, 0, 0, []);
    assignments, counts := [], map[];
    NothingTallied(ids, buckets);
    for n := 0 to |ids|
      invariant o == Outcome(|ids|, CountIn(ids[..n], buckets, InRecovered), CountIn(ids[..n], buckets, InLost),
                             CountIn(ids[..n], buckets, InSystem), [])
      invariant assignments == Assignments(ids[..n], buckets) && Counted(counts, assignments)
    {
      TallySnoc(ids, n, buckets);
      match buckets(ids[n])
      case Recovered(author) =>
        CountedSnoc(counts, assignments, (ids[n], author));
        o := o.(recovered := o.recovered + 1);
        assignments := assignments + [(ids[n], author)];
        counts := counts[author := (if author in counts then counts[author] else 0) + 1];
      case Lost =>
        CountedSnoc(counts, assignments, (ids[n], LOST));
        o := o.(lost := o.lost + 1);
        assignments := assignments + [(ids[n], LOST)];
        counts := counts[LOST := (if LOST in counts then counts[LOST] else 0) + 1];
      case LeaveSystem =>
        o := o.(left := o.left + 1);
    }
    assert ids[..|ids|] == ids;
  }

  lemma NothingTallied(ids: seq<nat>, buckets: nat -> Bucket)
    ensures forall kind: Bucket -> bool :: CountIn(ids[..0], buckets, kind) == 0
    ensures Assignments(ids[..0], buckets) == [] && Counted(map[], [])
  {
  }

  /** The counts are listed in whatever order the map yields them, then sorted. */
  method BuildPerAuthor(counts: map<nat, nat>, names: map<nat, string>, ghost assignments: seq<Assignment>)
    returns (out: seq<PerAuthor>)
    requires Counted(counts, assignments)
    ensures PerAuthorReport(assignments, names, out)
  {
    hide CountTo, NameOf, ReportOrder, StableSort, Distinct, SortedBy, Listed, Counted, PerAuthorReport;
    var lines: seq<PerAuthor> := [];
    var left := counts.Keys;
    NothingListed(counts, names);
    while left != {}
      invariant left <= counts.Keys && Listed(counts, names, left, lines)
      decreases left
    {
      var a :| a in left;
      ListOneMore(counts, names, left, lines, a);
      lines := lines + [PerAuthor(a, NameOf(names, a), counts[a])];
      left := left - {a};
    }
    out := StableSort(lines, ReportOrder);
    ReportOrderIsTotal();
    StableSortPermutes(lines, ReportOrder);
    StableSortSorted(lines, ReportOrder);
    SameMembers(lines, out);
    ListedDistinct(counts, names, lines);
    PermutationDistinct(lines, out);
    ListedIsReport(counts, names, assignments, lines, out);
  }

  /** The authors outside `left` have their lines, each once. */
  ghost predicate Listed(counts: map<nat, nat>, names: map<nat, string>, left: set<nat>, lines: seq<PerAuthor>) {
    && (forall l | l in lines ::
          l.author in counts && l.author !in left
            && l == PerAuthor(l.author, NameOf(names, l.author), counts[l.author]))
    && (forall a | a in counts && a !in left :: PerAuthor(a, NameOf(names, a), counts[a]) in lines)
    && Distinct(lines)
  }

  lemma NothingListed(counts: map<nat, nat>, names: map<nat, string>)
    ensures Listed(counts, names, counts.Keys, [])
  {
  }

  lemma ListOneMore(counts: map<nat, nat>, names: map<nat, string>, left: set<nat>, lines: seq<PerAuthor>, a: nat)
    requires Listed(counts, names, left, lines) && a in left && a in counts
    ensures Listed(counts, names, left - {a}, lines + [PerAuthor(a, NameOf(names, a), counts[a])])
  {
    hide NameOf;
    var line := PerAuthor(a, NameOf(names, a), counts[a]);
    var more := lines + [line];
    assert line !in lines;
    forall b | b in counts && b !in left - {a} ensures PerAuthor(b, NameOf(names, b), counts[b]) in more {
      if b == a { assert more[|lines|] == line; }
    }
  }

  lemma ListedDistinct(counts: map<nat, nat>, names: map<nat, string>, lines: seq<PerAuthor>)
    requires Listed(counts, names, {}, lines)
    ensures Distinct(lines)
  {
  }

  lemma ListedIsReport(counts: map<nat, nat>, names: map<nat, string>, assignments: seq<Assignment>,
                       lines: seq<PerAuthor>, out: seq<PerAuthor>)
    requires Counted(counts, assignments) && Listed(counts, names, {}, lines)
    requires forall l :: l in out <==> l in lines
    requires Distinct(out) && SortedBy(out, ReportOrder)
    ensures PerAuthorReport(assignments, names, out)
  {
    hide CountTo, NameOf, ReportOrder, Distinct, SortedBy, InReportOrder;
    SortedIsInReportOrder(out);
    forall a: nat | CountTo(assignments, a) > 0
      ensures PerAuthor(a, NameOf(names, a), CountTo(assignments, a)) in out
    {
      assert a in counts;
    }
  }

  // ----- writing -----

  /** Grouping keeps every assignment, under its author. */
  ghost predicate Grouped(byAuthor: map<nat, seq<nat>>, target: map<nat, nat>) {
    && (forall a, id | a in byAuthor && id in byAuthor[a] :: id in target && target[id] == a)
    && (forall id | id in target :: target[id] in byAuthor && id in byAuthor[target[id]])
  }

  function TargetOf(assignments: seq<Assignment>): map<nat, nat> {
    if assignments == [] then map[]
    else
      var (id, author) := assignments[|assignments| - 1];
      TargetOf(assignments[..|assignments| - 1])[id := author]
  }

  ghost predicate DistinctRows(assignments: seq<Assignment>) {
    forall i, j | 0 <= i < j < |assignments| :: assignments[i].0 != assignments[j].0
  }

  lemma {:induction false} TargetHas(assignments: seq<Assignment>)
    ensures forall id :: id in TargetOf(assignments) <==> exists i | 0 <= i < |assignments| :: assignments[i].0 == id
    ensures DistinctRows(assignments) ==> forall i | 0 <= i < |assignments| ::
              TargetOf(assignments)[assignments[i].0] == assignments[i].1
  {
    if assignments != [] {
      var last := |assignments| - 1;
      TargetHas(assignments[..last]);
      forall id ensures id in TargetOf(assignments) <==> exists i | 0 <= i < |assignments| :: assignments[i].0 == id {
        if exists i | 0 <= i < |assignments| :: assignments[i].0 == id {
          var i :| 0 <= i < |assignments| && assignments[i].0 == id;
          if i < last { assert assignments[..last][i].0 == id; }
        }
      }
      forall i | 0 <= i < |assignments| && DistinctRows(assignments)
        ensures TargetOf(assignments)[assignments[i].0] == assignments[i].1
      {
        if i < last { assert assignments[..last][i] == assignments[i]; }
      }
    }
  }

  method GroupByAuthor(assignments: seq<Assignment>) returns (byAuthor: map<nat, seq<nat>>)
    requires DistinctRows(assignments)
    ensures Grouped(byAuthor, TargetOf(assignments))
  {
    hide TargetOf;
    byAuthor := map[];
    assert TargetOf(assignments[..0]) == map[] by { NoTarget(assignments); }
    for n := 0 to |assignments|
      invariant Grouped(byAuthor, TargetOf(assignments[..n]))
    {
      var (row, author) := assignments[n];
      TargetSnoc(assignments, n);
      byAuthor := byAuthor[author := (if author in byAuthor then byAuthor[author] else []) + [row]];
    }
    assert assignments[..|assignments|] == assignments;
  }

  lemma NoTarget(assignments: seq<Assignment>)
    ensures TargetOf(assignments[..0]) == map[]
  {
  }

  lemma TargetSnoc(assignments: seq<Assignment>, n: nat)
    requires DistinctRows(assignments) && n < |assignments|
    ensures TargetOf(assignments[..n + 1]) == TargetOf(assignments[..n])[assignments[n].0 := assignments[n].1]
    ensures assignments[n].0 !in TargetOf(assignments[..n])
  {
    assert assignments[..n + 1][..n] == assignments[..n];
    TargetHas(assignments[..n]);
    forall i | 0 <= i < n ensures assignments[..n][i].0 != assignments[n].0 {
      assert assignments[i].0 != assignments[n].0;
    }
  }

  /** One UPDATE statement: the listed rows get `author`. */
  function SetAuthor(rows: seq<Row>, author: nat, ids: seq<nat>): (r: seq<Row>)
    ensures |r| == |rows|
    ensures forall i | 0 <= i < |rows| :: r[i] == if rows[i].id in ids then rows[i].(author := author) else rows[i]
  {
    seq(|rows|, i requires 0 <= i < |rows| => if rows[i].id in ids then rows[i].(author := author) else rows[i])
  }

  /** The rows after the writes for `written` only. */
  ghost predicate Written(before: seq<Row>, target: map<nat, nat>, written: set<nat>, after: seq<Row>) {
    && |after| == |before|
    && forall i | 0 <= i < |before| ::
         after[i] == if before[i].id in written && before[i].id in target
                     then before[i].(author := target[before[i].id]) else before[i]
  }

  lemma WriteChunk(before: seq<Row>, target: map<nat, nat>, written: set<nat>, rows: seq<Row>, author: nat,
                   ids: seq<nat>)
    requires Written(before, target, written, rows)
    requires forall id | id in ids :: id in target && target[id] == author
    ensures Written(before, target, written + Members(ids), SetAuthor(rows, author, ids))
  {
  }

  lemma NothingWritten(before: seq<Row>, target: map<nat, nat>)
    ensures Written(before, target, {}, before)
  {
  }

  lemma MembersSplit(ids: seq<nat>, from: nat, to: nat)
    requires from <= to <= |ids|
    ensures Members(ids[..to]) == Members(ids[..from]) + Members(ids[from..to])
    ensures forall id | id in ids[from..to] :: id in ids
  {
    assert ids[..to] == ids[..from] + ids[from..to];
  }

  lemma AllWritten(byAuthor: map<nat, seq<nat>>, target: map<nat, nat>, written: set<nat>)
    requires Grouped(byAuthor, target) && written <= target.Keys
    requires forall a | a in byAuthor :: Members(byAuthor[a]) <= written
    ensures written == target.Keys
  {
    forall id | id in target ensures id in written { assert id in Members(byAuthor[target[id]]); }
  }

  lemma {:induction false} SystemIdsMembers(rows: seq<Row>)
    ensures forall i | 0 <= i < |rows| && rows[i].author == SYSTEM :: rows[i].id in SystemIds(rows)
    ensures forall id | id in SystemIds(rows) :: exists i | 0 <= i < |rows| ::
              rows[i].id == id && rows[i].author == SYSTEM
  {
    if rows != [] {
      var last := |rows| - 1;
      SystemIdsMembers(rows[..last]);
      forall id | id in SystemIds(rows)
        ensures exists i | 0 <= i < |rows| :: rows[i].id == id && rows[i].author == SYSTEM
      {
        if id in SystemIds(rows[..last]) {
          var i :| 0 <= i < last && rows[..last][i].id == id && rows[..last][i].author == SYSTEM;
          assert rows[i].id == id;
        } else {
          assert rows[last].id == id;
        }
      }
    }
  }

  lemma {:induction false} SystemIdsDistinct(rows: seq<Row>)
    requires UniqueIds(rows)
    ensures Distinct(SystemIds(rows))
  {
    if rows != [] {
      var last := |rows| - 1;
      var before := SystemIds(rows[..last]);
      SystemIdsDistinct(rows[..last]);
      SystemIdsMembers(rows[..last]);
      forall i | 0 <= i < |before| ensures before[i] != rows[last].id {
        assert before[i] in before;
        var k :| 0 <= k < last && rows[..last][k].id == before[i];
        assert rows[k].id != rows[last].id;
      }
    }
  }

  /** Each assigned row once, and with the author its bucket gives it. */
  ghost predicate AssignsOnce(ids: seq<nat>, buckets: nat -> Bucket, all: seq<Assignment>) {
    && DistinctRows(all)
    && (forall i | 0 <= i < |all| :: all[i].0 in ids && NewAuthor(buckets(all[i].0)) == Some(all[i].1))
    && (forall id | id in ids && NewAuthor(buckets(id)).Some? :: exists i | 0 <= i < |all| :: all[i].0 == id)
  }

  lemma AssignOneMore(ids: seq<nat>, buckets: nat -> Bucket, all: seq<Assignment>, id: nat)
    requires AssignsOnce(ids, buckets, all) && id !in ids
    ensures AssignsOnce(ids + [id], buckets,
              all + match NewAuthor(buckets(id)) { case Some(a) => [(id, a)] case None => [] })
  {
    hide NewAuthor;
    var more := all + match NewAuthor(buckets(id)) { case Some(a) => [(id, a)] case None => [] };
    assert forall i | 0 <= i < |all| :: more[i] == all[i];
    forall x | x in ids + [id] && NewAuthor(buckets(x)).Some? ensures exists i | 0 <= i < |more| :: more[i].0 == x {
      if x == id {
        assert more[|all|].0 == x;
      } else {
        assert x in ids;
        var i :| 0 <= i < |all| && all[i].0 == x;
        assert more[i].0 == x;
      }
    }
  }

  lemma NothingAssigned(buckets: nat -> Bucket)
    ensures Assignments([], buckets) == [] && AssignsOnce([], buckets, [])
  {
  }

  lemma {:induction false} AssignmentsFacts(ids: seq<nat>, buckets: nat -> Bucket)
    requires Distinct(ids)
    ensures AssignsOnce(ids, buckets, Assignments(ids, buckets))
  {
    hide NewAuthor, AssignsOnce;
    if ids == [] {
      NothingAssigned(buckets);
    } else {
      var last := |ids| - 1;
      AssignmentsFacts(ids[..last], buckets);
      AssignOneMore(ids[..last], buckets, Assignments(ids[..last], buckets), ids[last]);
      assert ids == ids[..last] + [ids[last]];
    }
  }

  lemma AssignedOnce(rows: seq<Row>, buckets: nat -> Bucket)
    requires UniqueIds(rows)
    ensures DistinctRows(Assignments(SystemIds(rows), buckets))
  {
    hide Assignments, SystemIds, NewAuthor, DistinctRows;
    SystemIdsDistinct(rows);
    AssignmentsFacts(SystemIds(rows), buckets);
  }

  /** What gets written is each system row's own new author. */
  lemma TargetIsOwner(before: seq<Row>, buckets: nat -> Bucket, r: Row)
    requires UniqueIds(before) && r in before
    ensures var target := TargetOf(Assignments(SystemIds(before), buckets));
            && (r.id in target <==> r.author == SYSTEM && NewAuthor(buckets(r.id)).Some?)
            && (r.id in target ==> NewAuthor(buckets(r.id)) == Some(target[r.id]))
  {
    hide TargetOf, Assignments, SystemIds, NewAuthor;
    var ids := SystemIds(before);
    var assignments := Assignments(ids, buckets);
    SystemIdsDistinct(before);
    SystemIdsMembers(before);
    AssignmentsFacts(ids, buckets);
    TargetHas(assignments);
    if r.id in TargetOf(assignments) {
      var k :| 0 <= k < |assignments| && assignments[k].0 == r.id;
      assert assignments[k] == (assignments[k].0, assignments[k].1);
      var i :| 0 <= i < |before| && before[i].id == r.id && before[i].author == SYSTEM;
      SameId(before, r, before[i]);
    } else if r.author == SYSTEM {
      var i :| 0 <= i < |before| && before[i] == r;
      assert r.id in ids;
    }
  }

  function OneOf(ids: set<nat>): nat -> bool { (id: nat) => id in ids }

  /** Grouped, chunked writing is the pointwise repair; stopped half-way, it is a partial one. */
  lemma WrittenIsRepaired(before: seq<Row>, buckets: nat -> Bucket, written: set<nat>, after: seq<Row>)
    requires UniqueIds(before)
    requires Written(before, TargetOf(Assignments(SystemIds(before), buckets)), written, after)
    ensures after == PartlyRepaired(before, buckets, OneOf(written))
    ensures written == TargetOf(Assignments(SystemIds(before), buckets)).Keys ==> after == Repaired(before, buckets)
  {
    hide TargetOf, Assignments, SystemIds, NewAuthor;
    forall r | r in before { TargetIsOwner(before, buckets, r); }
    forall i | 0 <= i < |before| ensures before[i] in before { }
    assert after == PartlyRepaired(before, buckets, OneOf(written));
    if written == TargetOf(Assignments(SystemIds(before), buckets)).Keys {
      assert after == Repaired(before, buckets);
    }
  }

  lemma FactsByBuckets(facts: seq<Row>, events: seq<Row>, authors: set<nat>)
    ensures RepairedFacts(facts, events, authors) == Repaired(facts, FactBuckets(events, authors))
  {
  }

  lemma EventsByBuckets(events: seq<Row>, authors: set<nat>)
    ensures RepairedEvents(events, authors) == Repaired(events, EventBuckets(events, authors))
  {
  }

  lemma FactIdsKept(facts: seq<Row>, events: seq<Row>, authors: set<nat>)
    requires UniqueIds(facts)
    ensures UniqueIds(RepairedFacts(facts, events, authors))
  {
    hide Classify, FactAuthors;
    FactsLength(facts, events, authors);
    forall i | 0 <= i < |facts| ensures RepairedFacts(facts, events, authors)[i].id == facts[i].id {
      FactRowRepaired(facts, events, authors, i);
    }
  }

  lemma EventIdsKept(events: seq<Row>, authors: set<nat>)
    requires UniqueIds(events)
    ensures UniqueIds(RepairedEvents(events, authors))
  {
    hide *;
    WholeIsPartial(events, authors);
    InterruptedRepairCompletes(events, authors, Everything());
  }

  lemma Reported(ids: seq<nat>, buckets: nat -> Bucket, names: map<nat, string>, o: Outcome)
    requires o == Outcome(|ids|, CountIn(ids, buckets, InRecovered), CountIn(ids, buckets, InLost),
                          CountIn(ids, buckets, InSystem), o.perAuthor)
    requires PerAuthorReport(Assignments(ids, buckets), names, o.perAuthor)
    ensures Reports(ids, buckets, names, o)
  {
    hide PerAuthorReport, CountIn, Assignments;
  }

  // ----- knowledge points -----

  const PAGE_SIZE: nat := 256

  /** Only points whose id is a UUID are counted. */
  datatype Point = Point(id: Option<nat>, author: nat)

  predicate IsSystems(p: Point) { p.author == SYSTEM }

  function UuidsOf(points: seq<Point>): seq<nat> {
    if points == [] then []
    else
      var last := |points| - 1;
      UuidsOf(points[..last]) + if points[last].id.Some? then [points[last].id.value] else []
  }

  lemma UuidsSnoc(points: seq<Point>, n: nat)
    requires n < |points|
    ensures UuidsOf(points[..n + 1]) == UuidsOf(points[..n]) + if points[n].id.Some? then [points[n].id.value] else []
  {
    assert points[..n + 1][..n] == points[..n];
  }

  /** One filtered page of points from `offset`, and where the next one starts if there is more. */
  function Scroll(points: seq<Point>, offset: nat): (seq<Point>, Option<nat>) {
    var matching := Filter(points, IsSystems);
    if offset + PAGE_SIZE < |matching| then (matching[offset..offset + PAGE_SIZE], Some(offset + PAGE_SIZE))
    else if offset <= |matching| then (matching[offset..], None)
    else ([], None)
  }

  /** No event mirrors a knowledge point, so nothing says who wrote it. */
  function NoProvenance(): nat -> Bucket { (id: nat) => LeaveSystem }

  lemma {:induction false} NothingReassigned(ids: seq<nat>)
    ensures CountIn(ids, NoProvenance(), InRecovered) == 0 && CountIn(ids, NoProvenance(), InLost) == 0
    ensures CountIn(ids, NoProvenance(), InSystem) == |ids| && Assignments(ids, NoProvenance()) == []
  {
    if ids != [] {
      NothingReassigned(ids[..|ids| - 1]);
    }
  }

  lemma AllLeft(ids: seq<nat>, names: map<nat, string>, lines: seq<PerAuthor>)
    requires PerAuthorReport([], names, lines)
    ensures Reports(ids, NoProvenance(), names, Outcome(|ids|, 0, 0, |ids|, lines)) && lines == []
  {
    NothingReassigned(ids);
    SomeMember(lines);
  }

  lemma SomeMember<T>(s: seq<T>)
    ensures s == [] || exists x :: x in s
  {
    if s != [] { assert s[0] in s; }
  }

  lemma NoUuids()
    ensures UuidsOf([]) == [] && Counted(map[], [])
  {
  }

  lemma ScrollFacts(points: seq<Point>, offset: nat)
    requires offset <= |Filter(points, IsSystems)|
    ensures var all := Filter(points, IsSystems);
            var (page, next) := Scroll(points, offset);
            && offset + |page| <= |all| && page == all[offset..offset + |page|]
            && (page == [] ==> offset == |all|)
            && (next.None? ==> offset + |page| == |all|)
            && (next.Some? ==> next.value == offset + |page| && page != [])
  {
    hide Filter;
  }

  /** Where the system's points with a UUID stand. */
  ghost function SystemPoints(points: seq<Point>): set<nat> {
    set i: nat | i < |points| && points[i].author == SYSTEM && points[i].id.Some?
  }

  lemma SystemPointsSnoc(points: seq<Point>, p: Point)
    ensures SystemPoints([]) == {}
    ensures |SystemPoints(points + [p])| ==
            |SystemPoints(points)| + if p.author == SYSTEM && p.id.Some? then 1 else 0
  {
    assert SystemPoints(points + [p]) ==
           SystemPoints(points) + if p.author == SYSTEM && p.id.Some? then {|points|} else {};
  }

  lemma KeptUuids(kept: seq<Point>, p: Point)
    ensures |UuidsOf(kept + Filter([p], IsSystems))| ==
            |UuidsOf(kept)| + if p.author == SYSTEM && p.id.Some? then 1 else 0
  {
    assert kept + [] == kept;
    assert (kept + [p])[..|kept|] == kept;
  }

  lemma {:induction false} PointsCounted(points: seq<Point>)
    ensures |UuidsOf(Filter(points, IsSystems))| == |SystemPoints(points)|
  {
    hide *;
    if points == [] {
      NoUuids();
      SystemPointsSnoc([], Point(None, 0));
      FilterConcat([], [], IsSystems);
      assert Filter([], IsSystems) == [];
    } else {
      var last := |points| - 1;
      var front, p := points[..last], points[last];
      PointsCounted(front);
      assert points == front + [p];
      FilterConcat(front, [p], IsSystems);
      SystemPointsSnoc(front, p);
      KeptUuids(Filter(front, IsSystems), p);
    }
  }

  class Repository {
    var facts: seq<Row>
    var events: seq<Row>
    var knowledge: seq<Point>
    var authors: map<nat, string>

    constructor (facts: seq<Row>, events: seq<Row>, knowledge: seq<Point>, authors: map<nat, string>)
      ensures this.facts == facts && this.events == events && this.knowledge == knowledge && this.authors == authors
    {
      this.facts := facts;
      this.events := events;
      this.knowledge := knowledge;
      this.authors := authors;
    }

    /** Grouped by author and written in chunks; the outcome is each row's own assignment. */
    method ApplyUpdates(rows0: seq<Row>, assignments: seq<Assignment>) returns (rows: seq<Row>)
      requires DistinctRows(assignments)
      ensures Written(rows0, TargetOf(assignments), TargetOf(assignments).Keys, rows)
    {
      hide Written, TargetOf, SetAuthor;
      rows := rows0;
      ghost var target := TargetOf(assignments);
      var byAuthor := GroupByAuthor(assignments);
      var left := byAuthor.Keys;
      ghost var written: set<nat> := {};
      assert Written(rows0, target, written, rows) by { NothingWritten(rows0, target); }
      while left != {}
        invariant left <= byAuthor.Keys
        invariant Written(rows0, target, written, rows)
        invariant forall a | a in byAuthor && a !in left :: Members(byAuthor[a]) <= written
        invariant written <= target.Keys
        decreases left
      {
        var author :| author in left;
        var ids := byAuthor[author];
        ghost var done := written;
        var from := 0;
        while from < |ids|
          invariant 0 <= from <= |ids|
          invariant Written(rows0, target, written, rows)
          invariant written == done + Members(ids[..from])
        {
          var to := if from + CHUNK < |ids| then from + CHUNK else |ids|;
          var chunk := ids[from..to];
          WriteChunk(rows0, target, written, rows, author, chunk);
          rows := SetAuthor(rows, author, chunk);
          MembersSplit(ids, from, to);
          written := written + Members(chunk);
          from := to;
        }
        assert ids[..|ids|] == ids;
        left := left - {author};
      }
      AllWritten(byAuthor, target, written);
    }

    method RepairFacts(apply: bool) returns (o: Outcome)
      requires UniqueIds(facts) && UniqueIds(events)
      modifies this`facts
      ensures Reports(SystemIds(old(facts)), FactBuckets(events, authors.Keys), authors, o)
      ensures facts == if apply then RepairedFacts(old(facts), events, authors.Keys) else old(facts)
    {
      hide *;
      var ids := SystemIds(facts);
      var buckets := FactBuckets(events, authors.Keys);
      var outcome, assignments, counts := Tally(ids, buckets);
      AssignedOnce(facts, buckets);
      if apply {
        ghost var before := facts;
        facts := ApplyUpdates(facts, assignments);
        WrittenIsRepaired(before, buckets, TargetOf(assignments).Keys, facts);
        FactsByBuckets(before, events, authors.Keys);
      }
      var lines := BuildPerAuthor(counts, authors, assignments);
      o := outcome.(perAuthor := lines);
      Reported(ids, buckets, authors, o);
    }

    method RepairEvents(apply: bool) returns (o: Outcome)
      requires UniqueIds(facts) && UniqueIds(events)
      modifies this`events
      ensures Reports(SystemIds(old(events)), EventBuckets(old(events), authors.Keys), authors, o)
      ensures events == if apply then RepairedEvents(old(events), authors.Keys) else old(events)
    {
      hide *;
      var ids := SystemIds(events);
      var buckets := EventBuckets(events, authors.Keys);
      var outcome, assignments, counts := Tally(ids, buckets);
      AssignedOnce(events, buckets);
      if apply {
        ghost var before := events;
        events := ApplyUpdates(events, assignments);
        WrittenIsRepaired(before, buckets, TargetOf(assignments).Keys, events);
        EventsByBuckets(before, authors.Keys);
      }
      var lines := BuildPerAuthor(counts, authors, assignments);
      o := outcome.(perAuthor := lines);
      Reported(ids, buckets, authors, o);
    }

    /** Page after page, every point of the system is counted once and left where it is, in either mode. */
    method RepairKnowledge() returns (o: Outcome)
      ensures Reports(UuidsOf(Filter(knowledge, IsSystems)), NoProvenance(), authors, o)
      ensures o.left == o.total == |SystemPoints(knowledge)| && o.perAuthor == []
    {
      hide *;
      ghost var all := Filter(knowledge, IsSystems);
      var total, left, offset := 0, 0, 0;
      NoUuids();
      assert all[..0] == [];
      while true
        invariant offset <= |all| && total == left == |UuidsOf(all[..offset])|
        decreases |all| - offset
      {
        var (page, next) := Scroll(knowledge, offset);
        ScrollFacts(knowledge, offset);
        if page == [] {
          break;
        }
        for i := 0 to |page|
          invariant total == left == |UuidsOf(all[..offset + i])|
        {
          UuidsSnoc(all, offset + i);
          if page[i].id.Some? {
            total, left := total + 1, left + 1;
          }
        }
        if next.None? {
          offset := offset + |page|;
          break;
        }
        offset := next.value;
      }
      assert all[..|all|] == all;
      var lines := BuildPerAuthor(map[], authors, []);
      o := Outcome(total, 0, 0, left, lines);
      AllLeft(UuidsOf(all), authors, lines);
      PointsCounted(knowledge);
    }

    /** Facts first, then events, then knowledge. All reports describe the tables as they were, whatever the mode. */
    method ReattributeSystemOwned(apply: bool)
      returns (factsOutcome: Outcome, eventsOutcome: Outcome, knowledgeOutcome: Outcome)
      requires UniqueIds(facts) && UniqueIds(events)
      modifies this`facts, this`events
      ensures Reports(SystemIds(old(facts)), FactBuckets(old(events), authors.Keys), authors, factsOutcome)
      ensures Reports(SystemIds(old(events)), EventBuckets(old(events), authors.Keys), authors, eventsOutcome)
      ensures Reports(UuidsOf(Filter(knowledge, IsSystems)), NoProvenance(), authors, knowledgeOutcome)
      ensures knowledgeOutcome.left == knowledgeOutcome.total == |SystemPoints(knowledge)|
                && knowledgeOutcome.perAuthor == []
      ensures Tables(facts, events) ==
              if apply then Applied(Tables(old(facts), old(events)), authors.Keys) else Tables(old(facts), old(events))
      ensures UniqueIds(facts) && UniqueIds(events)
    {
      hide *;
      ghost var before := Tables(facts, events);
      factsOutcome := RepairFacts(apply);
      FactIdsKept(before.facts, events, authors.Keys);
      eventsOutcome := RepairEvents(apply);
      EventIdsKept(before.events, authors.Keys);
      AppliedParts(before, authors.Keys);
      knowledgeOutcome := RepairKnowledge();
    }
  }
}
