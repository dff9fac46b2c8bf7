/** What a search ranks: scored memories, and what it means for a list of them to repeat nothing. */
module Candidates {
  import opened Options
  import opened Sorting
  import opened Collapse

  datatype Copy = Copy(id: nat, host: Option<string>, file: Option<string>)

  datatype Content =
    | Knowledge(contentHash: Option<string>, host: Option<string>, sourcePath: Option<string>, copies: seq<Copy>)
    | FactBody
    | EventBody

  datatype Memory = Memory(id: nat, content: Content, tags: seq<string>)

  /** `rank` is the 0-based place in the hit's own source list. */
  datatype Entry = Entry(score: real, rank: nat, mem: Memory)

  const U32_MAX: nat := 0xFFFF_FFFF

  function RankU32(rank: nat): nat { if rank <= U32_MAX then rank else U32_MAX }

  predicate IsKnowledge(e: Entry) { e.mem.content.Knowledge? }

  predicate IsOther(e: Entry) { !e.mem.content.Knowledge? }

  function HashOf(m: Memory): Option<string> {
    if m.content.Knowledge? then m.content.contentHash else None
  }

  function CopyOf(m: Memory): Copy {
    if m.content.Knowledge? then Copy(m.id, m.content.host, m.content.sourcePath) else Copy(m.id, None, None)
  }

  function CopiesOf(m: Memory): seq<Copy> {
    if m.content.Knowledge? then m.content.copies else []
  }

  /** Recording copies on anything but knowledge does nothing. */
  function SetCopies(m: Memory, copies: seq<Copy>): Memory {
    if m.content.Knowledge? then m.(content := m.content.(copies := copies)) else m
  }

  function MemOf(e: Entry): Memory { e.mem }

  function IdOf(e: Entry): nat { e.mem.id }

  function Mems(entries: seq<Entry>): (r: seq<Memory>)
    ensures |r| == |entries|
    ensures forall p | 0 <= p < |r| :: r[p] == entries[p].mem
  {
    MapSeq(entries, MemOf)
  }

  ghost predicate DistinctIds(ms: seq<Memory>) {
    forall i, j | 0 <= i < j < |ms| :: ms[i].id != ms[j].id
  }

  /** Two knowledge points of one content hash. */
  ghost predicate SameContent(a: Memory, b: Memory) {
    && a.content.Knowledge? && b.content.Knowledge?
    && a.content.contentHash.Some? && a.content.contentHash == b.content.contentHash
  }

  ghost predicate DistinctHashes(ms: seq<Memory>) {
    forall i, j | 0 <= i < j < |ms| :: !SameContent(ms[i], ms[j])
  }

  lemma SameContentIsHash(a: Memory, b: Memory)
    ensures SameContent(a, b) <==> HashOf(a).Some? && HashOf(a) == HashOf(b)
  {
  }

  /** Every copy recorded anywhere in the list. */
  function Carried(ms: seq<Memory>): seq<Copy> {
    if ms == [] then [] else Carried(ms[..|ms| - 1]) + CopiesOf(ms[|ms| - 1])
  }

  /** The list seen as the copies it stands for: each memory itself plus what it recorded. */
  function StandsFor(ms: seq<Memory>): multiset<Copy> {
    multiset(MapSeq(ms, CopyOf)) + multiset(Carried(ms))
  }

  // ----- all of these survive reordering -----

  function MemId(m: Memory): nat { m.id }

  lemma DistinctIdsAreDistinct(ms: seq<Memory>)
    ensures DistinctIds(ms) <==> Distinct(MapSeq(ms, MemId))
    ensures DistinctIds(ms) ==> Distinct(ms)
  {
    var ids := MapSeq(ms, MemId);
    if Distinct(ids) {
      forall i, j | 0 <= i < j < |ms| ensures ms[i].id != ms[j].id { assert ids[i] != ids[j]; }
    }
  }

  lemma DistinctIdsPermuted(a: seq<Memory>, b: seq<Memory>)
    requires multiset(a) == multiset(b) && DistinctIds(a)
    ensures DistinctIds(b)
  {
    hide *;
    DistinctIdsAreDistinct(a);
    DistinctIdsAreDistinct(b);
    MapPermuted(a, b, MemId);
    PermutationDistinct(MapSeq(a, MemId), MapSeq(b, MemId));
  }

  lemma DistinctHashesPermuted(a: seq<Memory>, b: seq<Memory>)
    requires multiset(a) == multiset(b) && DistinctHashes(a) && Distinct(a)
    ensures DistinctHashes(b)
  {
    SameContentCommutes();
    hide SameContent;
    SameMembers(a, b);
    PermutationDistinct(a, b);
    forall i, j | 0 <= i < j < |b| ensures !SameContent(b[i], b[j]) {
      assert b[i] in a && b[j] in a;
      var p :| 0 <= p < |a| && a[p] == b[i];
      var q :| 0 <= q < |a| && a[q] == b[j];
    }
  }

  lemma SameContentCommutes()
    ensures forall a, b :: SameContent(a, b) <==> SameContent(b, a)
  {
  }

  lemma {:induction false} MapPermuted<A, B>(a: seq<A>, b: seq<A>, f: A -> B)
    requires multiset(a) == multiset(b)
    ensures multiset(MapSeq(a, f)) == multiset(MapSeq(b, f))
  {
    SameMembers(a, b);
    if a != [] {
      var last := |a| - 1;
      assert a[last] in b;
      var n :| 0 <= n < |b| && b[n] == a[last];
      var restA, restB := a[..last] + a[last + 1..], b[..n] + b[n + 1..];
      MultisetWithout(a, last);
      MultisetWithout(b, n);
      MapPermuted(restA, restB, f);
      MapWithout(a, last, f);
      MapWithout(b, n, f);
    }
  }

  lemma MapWithout<A, B>(s: seq<A>, n: nat, f: A -> B)
    requires n < |s|
    ensures multiset(MapSeq(s, f)) == multiset(MapSeq(s[..n] + s[n + 1..], f)) + multiset{f(s[n])}
  {
    var mapped := MapSeq(s, f);
    MultisetWithout(mapped, n);
    assert MapSeq(s[..n] + s[n + 1..], f) == mapped[..n] + mapped[n + 1..];
    assert mapped[n] in mapped;
  }

  lemma CarriedSnoc(ms: seq<Memory>, m: Memory)
    ensures Carried(ms + [m]) == Carried(ms) + CopiesOf(m)
  {
    assert (ms + [m])[..|ms|] == ms;
  }

  lemma {:induction false} CarriedWithout(ms: seq<Memory>, n: nat)
    requires n < |ms|
    ensures multiset(Carried(ms)) == multiset(Carried(ms[..n] + ms[n + 1..])) + multiset(CopiesOf(ms[n]))
  {
    hide *;
    var last := |ms| - 1;
    var front, end := ms[..last], ms[last];
    assert ms == front + [end];
    CarriedSnoc(front, end);
    if n < last {
      var less := front[..n] + front[n + 1..];
      CarriedWithout(front, n);
      CarriedSnoc(less, end);
      assert ms[..n] + ms[n + 1..] == less + [end];
    } else {
      assert ms[..n] + ms[n + 1..] == front;
    }
  }

  lemma {:induction false} CarriedPermuted(a: seq<Memory>, b: seq<Memory>)
    requires multiset(a) == multiset(b)
    ensures multiset(Carried(a)) == multiset(Carried(b))
  {
    SameMembers(a, b);
    if a != [] {
      hide Carried;
      var last := |a| - 1;
      assert a[last] in b;
      var n :| 0 <= n < |b| && b[n] == a[last];
      MultisetWithout(a, last);
      MultisetWithout(b, n);
      CarriedPermuted(a[..last] + a[last + 1..], b[..n] + b[n + 1..]);
      CarriedWithout(a, last);
      CarriedWithout(b, n);
    }
  }

  lemma StandsForPermuted(a: seq<Memory>, b: seq<Memory>)
    requires multiset(a) == multiset(b)
    ensures StandsFor(a) == StandsFor(b)
  {
    MapPermuted(a, b, CopyOf);
    CarriedPermuted(a, b);
  }

  /** Filtering by a predicate and by its opposite splits a list in two. */
  lemma {:induction false} KindsSplit(entries: seq<Entry>)
    ensures multiset(Filter(entries, IsKnowledge)) + multiset(Filter(entries, IsOther)) == multiset(entries)
  {
    if entries != [] {
      var rest := entries[1..];
      KindsSplit(rest);
      ConsMultiset(entries[0], rest);
      assert entries == [entries[0]] + rest;
      ConsMultiset(entries[0], Filter(rest, IsKnowledge));
      ConsMultiset(entries[0], Filter(rest, IsOther));
    }
  }

  lemma ConsMultiset(e: Entry, rest: seq<Entry>)
    ensures multiset([e] + rest) == multiset{e} + multiset(rest)
  {
  }

  lemma FilterDistinctIds(entries: seq<Entry>, keep: Entry -> bool)
    requires DistinctIds(Mems(entries))
    ensures DistinctIds(Mems(Filter(entries, keep)))
  {
    var kept := Filter(entries, keep);
    assert Distinct(entries) by {
      forall i, j | 0 <= i < j < |entries| ensures entries[i] != entries[j] {
        assert Mems(entries)[i].id != Mems(entries)[j].id;
      }
    }
    FilterDistinct(entries, keep);
    forall i, j | 0 <= i < j < |kept| ensures Mems(kept)[i].id != Mems(kept)[j].id {
      assert kept[i] in kept && kept[j] in kept;
      var p :| 0 <= p < |entries| && entries[p] == kept[i];
      var q :| 0 <= q < |entries| && entries[q] == kept[j];
      assert Mems(entries)[p].id != Mems(entries)[q].id;
    }
  }
}
