/** What a re-attribution repair does to the rows, stated row by row. */
module Repair {
  import opened Options
  import opened Sorting

  const SYSTEM: nat := 0x0000_0000_0000_7000_8000_0000_0000_0001
  const LOST: nat := 0x0000_0000_0000_7000_8000_0000_0000_0002

  /** A fact, or an event with its task and the fact its payload names, if any. */
  datatype Row =
    | FactRow(id: nat, author: nat)
    | EventRow(id: nat, author: nat, task: Option<nat>, about: Option<nat>)

  datatype Bucket = Recovered(author: nat) | Lost | LeaveSystem

  ghost predicate UniqueIds(rows: seq<Row>) {
    forall i, j | 0 <= i < j < |rows| :: rows[i].id != rows[j].id
  }

  // ----- classification -----

  predicate Names(e: Row, fact: nat) { e.EventRow? && e.about == Some(fact) }

  predicate Sibling(e: Row, task: Option<nat>) { e.EventRow? && task.Some? && e.task == task }

  function TaskOf(r: Row): Option<nat> { if r.EventRow? then r.task else None }

  /** The non-system authors of the events that name a fact. */
  function FactAuthors(events: seq<Row>, fact: nat): set<nat> {
    set e | e in events && Names(e, fact) && e.author != SYSTEM :: e.author
  }

  function TaskAuthors(events: seq<Row>, task: Option<nat>): set<nat> {
    set e | e in events && Sibling(e, task) && e.author != SYSTEM :: e.author
  }

  /** Reads the event back by id and joins it with the events of its task. */
  function EventAuthors(events: seq<Row>, id: nat): set<nat> {
    set e1, e2 | e1 in events && e2 in events && e1.id == id && Sibling(e2, TaskOf(e1)) && e2.author != SYSTEM ::
      e2.author
  }

  lemma HasOne(found: set<nat>)
    requires found != {} && |found| <= 1
    ensures exists a :: a in found && found == {a}
  {
    var a :| a in found;
    OneIsSingleton(found, a);
  }

  /** One known author wins; several, or one that is gone, are lost; none leaves the row alone. */
  function Classify(found: set<nat>, authors: set<nat>): Bucket {
    if found == {} then LeaveSystem
    else if |found| > 1 then Lost
    else
      HasOne(found);
      var a :| a in found && found == {a};
      if a in authors then Recovered(a) else Lost
  }

  lemma ClassifyOne(a: nat, authors: set<nat>)
    ensures Classify({a}, authors) == if a in authors then Recovered(a) else Lost
  {
  }

  function NewAuthor(b: Bucket): Option<nat> {
    match b
    case Recovered(a) => Some(a)
    case Lost => Some(LOST)
    case LeaveSystem => None
  }

  lemma TwoMeansLost(found: set<nat>, a: nat, b: nat, authors: set<nat>)
    requires a in found && b in found && a != b
    ensures Classify(found, authors) == Lost
  {
    assert {a, b} <= found;
    SubsetCard({a, b}, found);
  }

  // ----- the pointwise repair -----

  /** `r` with its new author, if it is the system's and its bucket names one. */
  ghost function RepairedRow(r: Row, buckets: nat -> Bucket): Row {
    if r.author == SYSTEM && NewAuthor(buckets(r.id)).Some? then r.(author := NewAuthor(buckets(r.id)).value) else r
  }

  /** The rows after only those in `touched` were written. */
  ghost function PartlyRepaired(rows: seq<Row>, buckets: nat -> Bucket, touched: nat -> bool): (r: seq<Row>)
    ensures |r| == |rows|
    ensures forall i | 0 <= i < |rows| :: r[i] == if touched(rows[i].id) then RepairedRow(rows[i], buckets) else rows[i]
  {
    seq(|rows|, i requires 0 <= i < |rows| => if touched(rows[i].id) then RepairedRow(rows[i], buckets) else rows[i])
  }

  function Everything(): nat -> bool { (_: nat) => true }

  ghost function Repaired(rows: seq<Row>, buckets: nat -> Bucket): seq<Row> {
    PartlyRepaired(rows, buckets, Everything())
  }

  function FactBuckets(events: seq<Row>, authors: set<nat>): nat -> Bucket {
    (id: nat) => Classify(FactAuthors(events, id), authors)
  }

  function EventBuckets(events: seq<Row>, authors: set<nat>): nat -> Bucket {
    (id: nat) => Classify(EventAuthors(events, id), authors)
  }

  ghost function RepairedFacts(facts: seq<Row>, events: seq<Row>, authors: set<nat>): seq<Row> {
    Repaired(facts, FactBuckets(events, authors))
  }

  ghost function RepairedEvents(events: seq<Row>, authors: set<nat>): seq<Row> {
    Repaired(events, EventBuckets(events, authors))
  }

  // ----- an interrupted or repeated repair of the events -----

  lemma EventAuthorsAreTaskAuthors(events: seq<Row>, e: Row)
    requires UniqueIds(events) && e in events
    ensures EventAuthors(events, e.id) == TaskAuthors(events, TaskOf(e))
  {
    forall e1 | e1 in events && e1.id == e.id ensures e1 == e { SameId(events, e1, e); }
  }

  lemma SameId(rows: seq<Row>, a: Row, b: Row)
    requires UniqueIds(rows) && a in rows && b in rows && a.id == b.id
    ensures a == b
  {
  }

  /** What a system event of this task is given. */
  ghost function TaskOwner(events: seq<Row>, task: Option<nat>, authors: set<nat>): Option<nat> {
    NewAuthor(Classify(TaskAuthors(events, task), authors))
  }

  /** A partial repair adds to a task's authors at most their own new owner. */
  lemma PartialTaskAuthors(events: seq<Row>, authors: set<nat>, touched: nat -> bool, task: Option<nat>)
    requires UniqueIds(events)
    ensures var after := TaskAuthors(PartlyRepaired(events, EventBuckets(events, authors), touched), task);
            var owner := TaskOwner(events, task, authors);
            && TaskAuthors(events, task) <= after
            && forall a | a in after :: a in TaskAuthors(events, task) || owner == Some(a)
  {
    var buckets := EventBuckets(events, authors);
    var partial := PartlyRepaired(events, buckets, touched);
    forall a | a in TaskAuthors(events, task) ensures a in TaskAuthors(partial, task) {
      var e :| e in events && Sibling(e, task) && e.author != SYSTEM && e.author == a;
      var i :| 0 <= i < |events| && events[i] == e;
      assert partial[i] == e;
      assert partial[i] in partial;
    }
    forall a | a in TaskAuthors(partial, task)
      ensures a in TaskAuthors(events, task) || TaskOwner(events, task, authors) == Some(a)
    {
      var p :| p in partial && Sibling(p, task) && p.author != SYSTEM && p.author == a;
      var i :| 0 <= i < |partial| && partial[i] == p;
      PartialRow(events, authors, touched, i);
      assert events[i] in events;
    }
  }

  lemma PartialRow(events: seq<Row>, authors: set<nat>, touched: nat -> bool, i: nat)
    requires UniqueIds(events) && i < |events|
    ensures var p := PartlyRepaired(events, EventBuckets(events, authors), touched)[i];
            var owner := TaskOwner(events, TaskOf(events[i]), authors);
            && p == events[i].(author := p.author) && TaskOf(p) == TaskOf(events[i])
            && (p == events[i] || (events[i].author == SYSTEM && owner == Some(p.author) && touched(events[i].id)))
            && (events[i].author == SYSTEM && owner.Some? && touched(events[i].id) ==> p.author == owner.value)
  {
    assert events[i] in events;
    EventAuthorsAreTaskAuthors(events, events[i]);
  }

  lemma OneIsSingleton(s: set<nat>, a: nat)
    requires a in s && |s| <= 1
    ensures s == {a}
  {
    assert s == {a} + (s - {a});
    assert |s| == 1 + |s - {a}|;
  }

  /** A task keeps its owner, however much of the repair has been written. */
  lemma OwnerIsStable(events: seq<Row>, authors: set<nat>, touched: nat -> bool, task: Option<nat>)
    requires UniqueIds(events)
    ensures TaskOwner(PartlyRepaired(events, EventBuckets(events, authors), touched), task, authors) ==
              TaskOwner(events, task, authors)
  {
    var found := TaskAuthors(events, task);
    var after := TaskAuthors(PartlyRepaired(events, EventBuckets(events, authors), touched), task);
    PartialTaskAuthors(events, authors, touched, task);
    StableOwner(found, after, authors);
  }

  lemma StableOwner(found: set<nat>, after: set<nat>, authors: set<nat>)
    requires found <= after
    requires forall a | a in after :: a in found || NewAuthor(Classify(found, authors)) == Some(a)
    ensures NewAuthor(Classify(after, authors)) == NewAuthor(Classify(found, authors))
  {
    if found == {} {
      assert after == {};
    } else if |found| > 1 {
      SubsetCard(found, after);
    } else {
      var a :| a in found;
      OneIsSingleton(found, a);
      ClassifyOne(a, authors);
      if a in authors {
        assert after == {a};
      } else if after != {a} {
        var b :| b in after && b != a;
        TwoMeansLost(after, a, b, authors);
      }
    }
  }

  /** Running the event repair again after an interruption, wherever it stopped, ends where an
      uninterrupted run would have: in particular a completed repair is not changed by another. */
  lemma InterruptedRepairCompletes(events: seq<Row>, authors: set<nat>, touched: nat -> bool)
    requires UniqueIds(events)
    ensures var partial := PartlyRepaired(events, EventBuckets(events, authors), touched);
            UniqueIds(partial) && RepairedEvents(partial, authors) == RepairedEvents(events, authors)
  {
    hide Classify, NewAuthor, EventAuthors, TaskAuthors, TaskOf;
    var partial := PartlyRepaired(events, EventBuckets(events, authors), touched);
    forall i | 0 <= i < |events| ensures partial[i].id == events[i].id { PartialRow(events, authors, touched, i); }
    assert UniqueIds(partial);
    var again := RepairedEvents(partial, authors);
    var whole := RepairedEvents(events, authors);
    forall i | 0 <= i < |events| ensures again[i] == whole[i] {
      PartialRow(events, authors, touched, i);
      WholeRow(partial, authors, i);
      WholeRow(events, authors, i);
      OwnerIsStable(events, authors, touched, TaskOf(events[i]));
      OwnerIsNotSystem(events, authors, TaskOf(events[i]));
    }
  }

  lemma WholeRow(events: seq<Row>, authors: set<nat>, i: nat)
    requires UniqueIds(events) && i < |events|
    ensures |RepairedEvents(events, authors)| == |events|
    ensures RepairedEvents(events, authors)[i] ==
            if events[i].author == SYSTEM && TaskOwner(events, TaskOf(events[i]), authors).Some?
            then events[i].(author := TaskOwner(events, TaskOf(events[i]), authors).value) else events[i]
  {
    assert events[i] in events;
    EventAuthorsAreTaskAuthors(events, events[i]);
  }

  lemma OwnerIsNotSystem(events: seq<Row>, authors: set<nat>, task: Option<nat>)
    ensures TaskOwner(events, task, authors) != Some(SYSTEM)
  {
    var found := TaskAuthors(events, task);
    if found != {} && |found| <= 1 {
      var a :| a in found;
      OneIsSingleton(found, a);
      ClassifyOne(a, authors);
    }
  }

  // ----- repeated applies -----

  datatype Tables = Tables(facts: seq<Row>, events: seq<Row>)

  /** One apply: facts first, judged by the events as they stand, then events. */
  ghost function Applied(t: Tables, authors: set<nat>): Tables {
    Tables(RepairedFacts(t.facts, t.events, authors), RepairedEvents(t.events, authors))
  }

  lemma WholeIsPartial(events: seq<Row>, authors: set<nat>)
    ensures RepairedEvents(events, authors) == PartlyRepaired(events, EventBuckets(events, authors), Everything())
  {
  }

  /** A second apply changes no event. */
  lemma SecondApplyKeepsEvents(t: Tables, authors: set<nat>)
    requires UniqueIds(t.events)
    ensures UniqueIds(Applied(t, authors).events)
    ensures Applied(Applied(t, authors), authors).events == Applied(t, authors).events
  {
    hide *;
    WholeIsPartial(t.events, authors);
    InterruptedRepairCompletes(t.events, authors, Everything());
    AppliedParts(t, authors);
    AppliedParts(Applied(t, authors), authors);
  }

  lemma AppliedParts(t: Tables, authors: set<nat>)
    ensures Applied(t, authors).events == RepairedEvents(t.events, authors)
    ensures Applied(t, authors).facts == RepairedFacts(t.facts, t.events, authors)
  {
  }

  /** With the events settled, one apply settles the facts. */
  lemma FactsSettle(facts: seq<Row>, events: seq<Row>, authors: set<nat>)
    ensures RepairedFacts(RepairedFacts(facts, events, authors), events, authors) ==
              RepairedFacts(facts, events, authors)
  {
    hide Classify, FactAuthors;
    var once := RepairedFacts(facts, events, authors);
    var twice := RepairedFacts(once, events, authors);
    forall i | 0 <= i < |facts| ensures twice[i] == once[i] { }
  }

  /** A third apply changes nothing at all. */
  lemma ThirdApplyChangesNothing(t: Tables, authors: set<nat>)
    requires UniqueIds(t.events)
    ensures var twice := Applied(Applied(t, authors), authors);
            Applied(twice, authors) == twice
  {
    hide *;
    var once := Applied(t, authors);
    var twice := Applied(once, authors);
    SecondApplyKeepsEvents(t, authors);
    SecondApplyKeepsEvents(once, authors);
    AppliedParts(once, authors);
    AppliedParts(twice, authors);
    FactsSettle(once.facts, once.events, authors);
    var thrice := Applied(twice, authors);
    TablesEqual(thrice, twice);
  }

  lemma TablesEqual(a: Tables, b: Tables)
    requires a.facts == b.facts && a.events == b.events
    ensures a == b
  {
  }

  /** An event this apply takes away from the system. */
  ghost predicate Reassigned(e: Row, events: seq<Row>, authors: set<nat>) {
    e.author == SYSTEM && TaskAuthors(events, TaskOf(e)) != {}
  }

  /** A second apply is needed for a fact exactly when no event named its author yet and the first apply
      reassigns an event that names it. */
  lemma WhenASecondApplyMatters(t: Tables, authors: set<nat>, i: nat)
    requires UniqueIds(t.events) && i < |t.facts|
    ensures |Applied(Applied(t, authors), authors).facts| == |Applied(t, authors).facts| == |t.facts|
    ensures Applied(Applied(t, authors), authors).facts[i] != Applied(t, authors).facts[i] <==>
            && t.facts[i].author == SYSTEM && FactAuthors(t.events, t.facts[i].id) == {}
            && exists e | e in t.events :: Names(e, t.facts[i].id) && Reassigned(e, t.events, authors)
  {
    hide Classify, FactAuthors, TaskAuthors, TaskOf;
    var once := Applied(t, authors);
    var fact := t.facts[i];
    FactRowRepaired(t.facts, t.events, authors, i);
    FactRowRepaired(once.facts, once.events, authors, i);
    NewNamesForFact(t.events, authors, fact.id);
    ClassifyEmpty(FactAuthors(t.events, fact.id), authors);
    ClassifyEmpty(FactAuthors(once.events, fact.id), authors);
    NoSystem(t.events, fact.id, authors);
    NoSystem(once.events, fact.id, authors);
  }

  lemma FactRowRepaired(facts: seq<Row>, events: seq<Row>, authors: set<nat>, i: nat)
    requires i < |facts|
    ensures |RepairedFacts(facts, events, authors)| == |facts|
    ensures RepairedFacts(facts, events, authors)[i] ==
            var owner := NewAuthor(Classify(FactAuthors(events, facts[i].id), authors));
            if facts[i].author == SYSTEM && owner.Some? then facts[i].(author := owner.value) else facts[i]
  {
  }

  lemma ClassifyEmpty(found: set<nat>, authors: set<nat>)
    ensures NewAuthor(Classify(found, authors)).None? <==> found == {}
  {
  }

  lemma NoSystem(events: seq<Row>, fact: nat, authors: set<nat>)
    ensures NewAuthor(Classify(FactAuthors(events, fact), authors)) != Some(SYSTEM)
  {
    var found := FactAuthors(events, fact);
    if found != {} && |found| <= 1 {
      var a :| a in found;
      OneIsSingleton(found, a);
      ClassifyOne(a, authors);
    }
  }

  /** Once the events are repaired, a fact nobody was named for is named exactly by the reassigned ones. */
  lemma NewNamesForFact(events: seq<Row>, authors: set<nat>, fact: nat)
    requires UniqueIds(events)
    ensures FactAuthors(events, fact) == {} ==>
              (FactAuthors(RepairedEvents(events, authors), fact) != {} <==>
               exists e | e in events :: Names(e, fact) && Reassigned(e, events, authors))
  {
    hide Classify, TaskAuthors, TaskOf, RepairedEvents;
    var after := RepairedEvents(events, authors);
    forall i | 0 <= i < |events|
      ensures |after| == |events|
      ensures after[i].author != SYSTEM <==> events[i].author != SYSTEM || Reassigned(events[i], events, authors)
      ensures Names(after[i], fact) <==> Names(events[i], fact)
    {
      WholeRow(events, authors, i);
      OwnerIsNotSystem(events, authors, TaskOf(events[i]));
      ClassifyEmpty(TaskAuthors(events, TaskOf(events[i])), authors);
    }
    WholeLength(events, authors);
    if FactAuthors(events, fact) == {} {
      forall e | e in events && Names(e, fact) ensures e.author == SYSTEM {
        IsFactAuthor(events, fact, e);
      }
      if exists e | e in events :: Names(e, fact) && Reassigned(e, events, authors) {
        var e :| e in events && Names(e, fact) && Reassigned(e, events, authors);
        var i :| 0 <= i < |events| && events[i] == e;
        assert after[i] in after;
        assert after[i].author in FactAuthors(after, fact);
      }
      if FactAuthors(after, fact) != {} {
        var a :| a in FactAuthors(after, fact);
        var p :| p in after && Names(p, fact) && p.author != SYSTEM && p.author == a;
        var i :| 0 <= i < |after| && after[i] == p;
        assert events[i] in events;
      }
    }
  }

  lemma IsFactAuthor(events: seq<Row>, fact: nat, e: Row)
    requires e in events && Names(e, fact)
    ensures e.author != SYSTEM ==> e.author in FactAuthors(events, fact)
  {
  }

  lemma WholeLength(events: seq<Row>, authors: set<nat>)
    ensures |RepairedEvents(events, authors)| == |events|
  {
  }

  /** Only rows the system owns change, only in their author, and never back to the system. */
  lemma OnlySystemRowsChange(t: Tables, authors: set<nat>, i: nat)
    requires UniqueIds(t.events)
    ensures var after := Applied(t, authors);
            && |after.facts| == |t.facts| && |after.events| == |t.events|
            && (i < |t.facts| ==> OnlyAuthorTaken(t.facts[i], after.facts[i]))
            && (i < |t.events| ==> OnlyAuthorTaken(t.events[i], after.events[i]))
  {
    hide Classify, FactAuthors, TaskAuthors, TaskOf, RepairedEvents, RepairedFacts;
    if i < |t.facts| {
      FactRowRepaired(t.facts, t.events, authors, i);
      NoSystem(t.events, t.facts[i].id, authors);
    }
    if i < |t.events| {
      WholeRow(t.events, authors, i);
      OwnerIsNotSystem(t.events, authors, TaskOf(t.events[i]));
    }
    WholeLength(t.events, authors);
    FactsLength(t.facts, t.events, authors);
  }

  /** The author that events with a known author speak for: theirs if they agree and it exists, else the lost one. */
  ghost predicate Awarded(evidence: set<Row>, authors: set<nat>, author: nat) {
    && (evidence == {} ==> author == SYSTEM)
    && (forall e | e in evidence && (forall f | f in evidence :: f.author == e.author) ::
          author == if e.author in authors then e.author else LOST)
    && (forall e, f | e in evidence && f in evidence && e.author != f.author :: author == LOST)
  }

  lemma ClassifyAwards(evidence: set<Row>, found: set<nat>, authors: set<nat>)
    requires found == set e | e in evidence :: e.author
    ensures var owner := NewAuthor(Classify(found, authors));
            Awarded(evidence, authors, if owner.Some? then owner.value else SYSTEM)
  {
    hide Classify;
    ClassifyEmpty(found, authors);
    if e :| e in evidence {
      assert e.author in found;
      if f :| f in evidence && f.author != e.author {
        assert f.author in found;
        TwoMeansLost(found, e.author, f.author, authors);
      } else {
        assert found == {e.author};
        ClassifyOne(e.author, authors);
      }
    }
  }

  /** A system-owned fact goes where the events that name it point, before any of them is repaired itself. */
  lemma FactIsAwarded(t: Tables, authors: set<nat>, i: nat)
    requires i < |t.facts| && t.facts[i].author == SYSTEM
    ensures i < |Applied(t, authors).facts|
    ensures Awarded((set e | e in t.events && e.EventRow? && e.about == Some(t.facts[i].id) && e.author != SYSTEM),
                    authors, Applied(t, authors).facts[i].author)
  {
    var evidence := set e | e in t.events && e.EventRow? && e.about == Some(t.facts[i].id) && e.author != SYSTEM;
    FactRowRepaired(t.facts, t.events, authors, i);
    ClassifyAwards(evidence, FactAuthors(t.events, t.facts[i].id), authors);
    hide Classify, RepairedFacts, RepairedEvents, Awarded;
  }

  /** A system-owned event goes where the other events of its task point. */
  lemma EventIsAwarded(t: Tables, authors: set<nat>, i: nat)
    requires UniqueIds(t.events) && i < |t.events| && t.events[i].author == SYSTEM
    ensures i < |Applied(t, authors).events|
    ensures t.events[i].EventRow? ==>
              Awarded((set e | e in t.events && e.EventRow? && e.task.Some? && e.task == t.events[i].task
                               && e.author != SYSTEM),
                      authors, Applied(t, authors).events[i].author)
  {
    WholeRow(t.events, authors, i);
    hide Classify, RepairedFacts, RepairedEvents, Awarded;
    if t.events[i].EventRow? {
      var task := t.events[i].task;
      var evidence := set e | e in t.events && e.EventRow? && e.task.Some? && e.task == task && e.author != SYSTEM;
      ClassifyAwards(evidence, TaskAuthors(t.events, task), authors);
    }
  }

  predicate OnlyAuthorTaken(before: Row, after: Row) {
    after == before.(author := after.author) && (after != before ==> before.author == SYSTEM && after.author != SYSTEM)
  }

  lemma FactsLength(facts: seq<Row>, events: seq<Row>, authors: set<nat>)
    ensures |RepairedFacts(facts, events, authors)| == |facts|
  {
  }

  /** Such facts exist: one apply is not always enough. */
  lemma OneApplyMayNotSuffice()
    ensures exists t: Tables, authors: set<nat> ::
              UniqueIds(t.events) && Applied(Applied(t, authors), authors) != Applied(t, authors)
  {
    hide Classify, Applied, RepairedEvents, RepairedFacts;
    var e1 := EventRow(1, SYSTEM, Some(9), Some(7));
    var e2 := EventRow(2, 5, Some(9), None);
    var events := [e1, e2];
    var t := Tables([FactRow(7, SYSTEM)], events);
    assert forall e | e in events :: e == e1 || e == e2;
    assert e1 in events && e2 in events;
    assert FactAuthors(events, 7) == {};
    assert 5 in TaskAuthors(events, Some(9));
    assert Names(e1, 7) && Reassigned(e1, events, {5});
    WhenASecondApplyMatters(t, {5}, 0);
    assert t.facts[0].author == SYSTEM;
  }
}
