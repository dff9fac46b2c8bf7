/**
 The four fact operations as the store runs them, one transaction at a time: rows
 change in place, and each call appends the effect it had to the history.
 */
module FactStore {
  import opened Options
  import opened Facts

  datatype Outcome =
    | Persisted(fact: int)
    | Dissented(dissent: int, fact: int)
    | VersionConflict(current: nat)
    | NotFound
    | Gone
    | UniqueViolation

  class Store {
    var facts: map<int, Fact>
    var dissents: map<int, Dissent>
    ghost var log: seq<Effect>

    ghost predicate Valid() reads this {
      Replay(log) == Some(Db(facts, dissents))
    }

    ghost predicate Unchanged(oldFacts: map<int, Fact>, oldDissents: map<int, Dissent>, oldLog: seq<Effect>)
      reads this
    {
      facts == oldFacts && dissents == oldDissents && log == oldLog
    }

    constructor ()
      ensures Valid() && log == []
    {
      facts, dissents, log := map[], map[], [];
    }

    ghost method Record(e: Effect, before: Db)
      requires Replay(log) == Some(before) && Legal(before, e) && Apply(before, e) == Db(facts, dissents)
      modifies this`log
      ensures Valid() && log == old(log) + [e]
    {
      assert (log + [e])[..|log|] == log;
      log := log + [e];
    }

    /** `SELECT id ... WHERE type = $1 AND payload_hash = $2`. */
    method FindSame(kind: FactType, hash: Hash) returns (r: Option<int>)
      ensures r.Some? ==> r.value in facts && facts[r.value].kind == kind && facts[r.value].hash == hash
      ensures r.None? ==> forall f | f in facts :: !(facts[f].kind == kind && facts[f].hash == hash)
    {
      r := None;
      if f :| f in facts && facts[f].kind == kind && facts[f].hash == hash {
        r := Some(f);
      }
    }

    /** The pending dissent an insert would meet, if any. */
    method FindPending(f: int, hash: Hash) returns (r: Option<int>)
      ensures r.Some? ==> r.value in dissents && PendingOn(dissents[r.value], f, hash)
      ensures r.None? ==> forall d | d in dissents :: !PendingOn(dissents[d], f, hash)
    {
      r := None;
      if d :| d in dissents && PendingOn(dissents[d], f, hash) {
        r := Some(d);
      }
    }

    method SubmitDissent(f: int, payload: Json, hash: Hash, source: Source, direct: bool, freshId: int)
      returns (d: int)
      requires Valid() && f in facts && freshId !in dissents && hash.payload == payload
      requires if direct then !facts[f].deleted && source == AgentProposal
               else TrustRank(source) < TrustRank(facts[f].source)
      modifies this
      ensures Valid() && facts == old(facts)
      ensures log == old(log) + [Submit(d, f, payload, hash, source, direct)]
      ensures d in dissents && PendingOn(dissents[d], f, hash)
      ensures d in old(dissents) ==>
                dissents == old(dissents)[d := old(dissents)[d].(count := old(dissents)[d].count + 1)]
      ensures d !in old(dissents) ==>
                d == freshId && dissents == old(dissents)[d := Dissent(f, payload, hash, source, Pending, 1)]
      ensures d in old(dissents) <==> exists x | x in old(dissents) :: PendingOn(old(dissents)[x], f, hash)
    {
      ghost var before := Db(facts, dissents);
      var met := FindPending(f, hash);
      if met.Some? {
        d := met.value;
        dissents := dissents[d := dissents[d].(count := dissents[d].count + 1)];
      } else {
        d := freshId;
        dissents := dissents[d := Dissent(f, payload, hash, source, Pending, 1)];
      }
      Record(Submit(d, f, payload, hash, source, direct), before);
    }

    ghost predicate SameAt(f: int, kind: FactType, payload: Json)
      reads this
    {
      f in facts && facts[f].kind == kind && facts[f].hash == Hash(kind, payload)
    }

    ghost predicate HasSame(kind: FactType, payload: Json)
      reads this
    {
      exists f :: SameAt(f, kind, payload)
    }

    method Upsert(kind: FactType, payload: Json, source: Source, explicitId: Option<int>, expected: Option<nat>,
                  freshFact: int, freshDissent: int)
      returns (out: Outcome)
      requires Valid() && freshFact !in facts && freshDissent !in dissents
      modifies this
      ensures Valid()
      // the payload is already stored: at most a touch, wherever the request pointed
      ensures old(HasSame(kind, payload)) ==>
                facts == old(facts) && dissents == old(dissents)
                && (out.Persisted? ==> log == old(log) + [Touch(out.fact, kind, payload, expected)])
                && (!out.Persisted? ==> log == old(log))
      ensures old(HasSame(kind, payload)) ==>
                exists f | f in old(facts) :: old(SameAt(f, kind, payload)) &&
                  out == if ExpectedOk(expected, old(facts)[f].version) then Persisted(f)
                         else VersionConflict(old(facts)[f].version)
      // a less trusted source never overwrites: it files a dissent, whatever version it expected
      ensures !old(HasSame(kind, payload)) && explicitId.Some? && explicitId.value in old(facts)
              && TrustRank(source) < TrustRank(old(facts)[explicitId.value].source) ==>
                facts == old(facts) && out.Dissented? && out.fact == explicitId.value
                && log == old(log) + [Submit(out.dissent, out.fact, payload, Hash(kind, payload), source, false)]
      // an equally or more trusted source overwrites exactly the version it expected
      ensures !old(HasSame(kind, payload)) && explicitId.Some? && explicitId.value in old(facts)
              && TrustRank(source) >= TrustRank(old(facts)[explicitId.value].source) ==>
                var row := old(facts)[explicitId.value];
                dissents == old(dissents) &&
                if !ExpectedOk(expected, row.version) then
                  out == VersionConflict(row.version) && facts == old(facts) && log == old(log)
                else if Taken(old(facts), row.kind, Hash(kind, payload), explicitId.value) then
                  out == UniqueViolation && facts == old(facts) && log == old(log)
                else
                  && out == Persisted(explicitId.value)
                  && facts == old(facts)[explicitId.value := Overwrite(row, payload, Hash(kind, payload), source)]
                  && log == old(log) + [Amend(explicitId.value, kind, payload, source, expected)]
      // otherwise a new row at version 1
      ensures !old(HasSame(kind, payload)) && (explicitId.None? || explicitId.value !in old(facts)) ==>
                var id := if explicitId.Some? then explicitId.value else freshFact;
                && out == Persisted(id) && dissents == old(dissents)
                && facts == old(facts)[id := Fact(kind, payload, Hash(kind, payload), source, 1, false)]
                && log == old(log) + [Create(id, kind, payload, source)]
    {
      ghost var before := Db(facts, dissents);
      var hash := Hash(kind, payload);
      var same := FindSame(kind, hash);
      if same.Some? {
        var f := same.value;
        assert old(SameAt(f, kind, payload));
        if expected.Some? && expected.value != facts[f].version {
          return VersionConflict(facts[f].version);
        }
        Record(Touch(f, kind, payload, expected), before);
        return Persisted(f);
      }
      if explicitId.Some? && explicitId.value in facts {
        var f := explicitId.value;
        var version, canonical := facts[f].version, facts[f].source;
        if TrustRank(source) < TrustRank(canonical) {
          var d := SubmitDissent(f, payload, hash, source, false, freshDissent);
          return Dissented(d, f);
        }
        if expected.Some? && expected.value != version {
          return VersionConflict(version);
        }
        if Taken(facts, facts[f].kind, hash, f) {
          return UniqueViolation;
        }
        facts := facts[f := Overwrite(facts[f], payload, hash, source)];
        Record(Amend(f, kind, payload, source, expected), before);
        return Persisted(f);
      }
      var id := if explicitId.Some? then explicitId.value else freshFact;
      facts := facts[id := Fact(kind, payload, hash, source, 1, false)];
      Record(Create(id, kind, payload, source), before);
      return Persisted(id);
    }

    /** A missing or soft-deleted fact takes no proposals; `deduped` tells a repeated one. */
    method Propose(f: int, payload: Json, freshId: int) returns (out: Outcome, deduped: bool)
      requires Valid() && freshId !in dissents
      modifies this
      ensures Valid() && facts == old(facts)
      ensures f !in old(facts) || old(facts)[f].deleted ==>
                out == NotFound && Unchanged(old(facts), old(dissents), old(log))
      ensures f in old(facts) && !old(facts)[f].deleted ==>
                var hash := Hash(old(facts)[f].kind, payload);
                && out.Dissented? && out.fact == f && out.dissent in dissents
                && log == old(log) + [Submit(out.dissent, f, payload, hash, AgentProposal, true)]
                && (deduped <==> exists x | x in old(dissents) :: PendingOn(old(dissents)[x], f, hash))
    {
      CountsArePositive(log);
      if f !in facts || facts[f].deleted {
        return NotFound, false;
      }
      var d := SubmitDissent(f, payload, Hash(facts[f].kind, payload), AgentProposal, true, freshId);
      return Dissented(d, f), dissents[d].count > 1;
    }

    method Promote(d: int, caller: Source, expected: nat) returns (out: Outcome)
      requires Valid()
      modifies this
      ensures Valid()
      ensures out.Persisted? <==>
                && d in old(dissents) && old(dissents)[d].status == Pending && old(dissents)[d].fact in old(facts)
                && var row := old(facts)[old(dissents)[d].fact];
                   row.version == expected && !Taken(old(facts), row.kind, old(dissents)[d].hash, old(dissents)[d].fact)
      ensures out.Persisted? ==>
                var row := old(dissents)[d];
                && out.fact == row.fact
                && facts == old(facts)[row.fact := Overwrite(old(facts)[row.fact], row.payload, row.hash, caller)]
                && dissents == old(dissents)[d := row.(status := Promoted)]
                && log == old(log) + [Effect.Promote(d, row.fact, caller, expected)]
      ensures !out.Persisted? ==> Unchanged(old(facts), old(dissents), old(log))
      // otherwise it says why, in this order
      ensures d !in old(dissents) ==> out == NotFound
      ensures d in old(dissents) && old(dissents)[d].status != Pending ==> out == Gone
      ensures d in old(dissents) && old(dissents)[d].status == Pending ==>
                var f := old(dissents)[d].fact;
                && (f !in old(facts) ==> out == NotFound)
                && (f in old(facts) && old(facts)[f].version != expected ==>
                      out == VersionConflict(old(facts)[f].version))
                && (f in old(facts) && old(facts)[f].version == expected && !out.Persisted? ==> out == UniqueViolation)
    {
      ghost var before := Db(facts, dissents);
      if d !in dissents {
        return NotFound;
      }
      if dissents[d].status != Pending {
        return Gone;
      }
      var f := dissents[d].fact;
      if f !in facts {
        return NotFound;
      }
      if facts[f].version != expected {
        return VersionConflict(facts[f].version);
      }
      if Taken(facts, facts[f].kind, dissents[d].hash, f) {
        return UniqueViolation;
      }
      facts := facts[f := Overwrite(facts[f], dissents[d].payload, dissents[d].hash, caller)];
      dissents := dissents[d := dissents[d].(status := Promoted)];
      Record(Effect.Promote(d, f, caller, expected), before);
      return Persisted(f);
    }

    method Discard(d: int) returns (out: Outcome)
      requires Valid()
      modifies this
      ensures Valid() && facts == old(facts)
      ensures if d in old(dissents) && old(dissents)[d].status == Pending
              then && out == Dissented(d, old(dissents)[d].fact)
                   && dissents == old(dissents)[d := old(dissents)[d].(status := Discarded)]
                   && log == old(log) + [Effect.Discard(d)]
              else out == Gone && dissents == old(dissents) && log == old(log)
    {
      ghost var before := Db(facts, dissents);
      if d !in dissents || dissents[d].status != Pending {
        return Gone;
      }
      dissents := dissents[d := dissents[d].(status := Discarded)];
      Record(Effect.Discard(d), before);
      return Dissented(d, dissents[d].fact);
    }
  }
}
