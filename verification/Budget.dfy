/** The context budget: three floor passes, a pooled greedy fill, and a rescue when nothing fits. */
module Budget {
  import opened Options
  import opened Sorting

  const U32_MAX: nat := 0xFFFF_FFFF

  datatype Item = Item(id: int, score: real, tokens: nat)

  predicate BestFirst(a: Item, b: Item) {
    a.score >= b.score
  }

  predicate PoolBestFirst(a: (nat, Item), b: (nat, Item)) {
    a.1.score >= b.1.score
  }

  function SaturatingAdd(a: nat, b: nat): nat {
    if a + b > U32_MAX then U32_MAX else a + b
  }

  function Tokens(s: seq<Item>): nat {
    if s == [] then 0 else s[0].tokens + Tokens(s[1..])
  }

  /** The saturating guard means "still fits" exactly when the budget is below the largest u32. */
  lemma GuardIsExact(budget: nat)
    requires budget <= U32_MAX
    ensures (forall spent: nat, tokens: nat | spent <= budget && tokens <= U32_MAX ::
               SaturatingAdd(spent, tokens) <= budget <==> spent + tokens <= budget)
        <==> budget < U32_MAX
  {
    if budget == U32_MAX {
      assert SaturatingAdd(budget, 1) <= budget;
    }
  }

  lemma TokensConcat(a: seq<Item>, b: seq<Item>)
    ensures Tokens(a + b) == Tokens(a) + Tokens(b)
  {
    if a == [] {
      assert a + b == b;
    } else {
      assert (a + b)[1..] == a[1..] + b;
      TokensConcat(a[1..], b);
    }
  }

  lemma TokensInsert(x: Item, s: seq<Item>)
    ensures Tokens(Insert(x, s, BestFirst)) == x.tokens + Tokens(s)
  {
    if s != [] && !BestFirst(x, s[0]) {
      TokensInsert(x, s[1..]);
    } else {
      assert ([x] + s)[1..] == s;
    }
  }

  lemma TokensSorted(s: seq<Item>)
    ensures Tokens(StableSort(s, BestFirst)) == Tokens(s)
  {
    if s != [] {
      TokensSorted(s[1..]);
      TokensInsert(s[0], StableSort(s[1..], BestFirst));
    }
  }

  lemma TokenIn(s: seq<Item>, x: Item)
    requires x in s
    ensures x.tokens <= Tokens(s)
  {
    if x != s[0] {
      TokenIn(s[1..], x);
    }
  }

  // ----- the floor pass -----

  /** What a section keeps of its first `n` items: each that still fits while the section is below its floor. */
  function FloorUpTo(section: seq<Item>, n: nat, floor: nat, before: nat, budget: nat): seq<Item>
    requires n <= |section|
  {
    if n == 0 then []
    else
      var keep := FloorUpTo(section, n - 1, floor, before, budget);
      if Tokens(keep) < floor && before + Tokens(keep) + section[n - 1].tokens <= budget
      then keep + [section[n - 1]] else keep
  }

  function FloorOf(section: seq<Item>, floor: nat, before: nat, budget: nat): seq<Item> {
    FloorUpTo(section, |section|, floor, before, budget)
  }

  /** Whether the floor pass keeps item `i` when it comes to it. */
  predicate FloorTakes(section: seq<Item>, i: nat, floor: nat, before: nat, budget: nat)
    requires i < |section|
  {
    var keep := FloorUpTo(section, i, floor, before, budget);
    Tokens(keep) < floor && before + Tokens(keep) + section[i].tokens <= budget
  }

  /** The items it passes over, in order. */
  function RestUpTo(section: seq<Item>, n: nat, floor: nat, before: nat, budget: nat): seq<Item>
    requires n <= |section|
  {
    if n == 0 then []
    else
      var rest := RestUpTo(section, n - 1, floor, before, budget);
      if FloorTakes(section, n - 1, floor, before, budget) then rest else rest + [section[n - 1]]
  }

  function RestOf(section: seq<Item>, floor: nat, before: nat, budget: nat): seq<Item> {
    RestUpTo(section, |section|, floor, before, budget)
  }

  /** With room for two floors and no item above the floor, the pass keeps a prefix worth the floor, or everything. */
  lemma {:induction false} FloorIsPrefix(section: seq<Item>, n: nat, floor: nat, before: nat, budget: nat)
    requires n <= |section| && before + 2 * floor <= budget && forall x | x in section :: x.tokens <= floor
    ensures var keep := FloorUpTo(section, n, floor, before, budget);
            Tokens(keep) <= 2 * floor && keep <= section && (keep == section[..n] || Tokens(keep) >= floor)
  {
    hide FloorUpTo, RestUpTo, Tokens;
    if n == 0 {
      NothingTaken(section, floor, before, budget);
    } else {
      FloorIsPrefix(section, n - 1, floor, before, budget);
      FloorStep(section, n - 1, floor, before, budget);
      TokensOneMore(FloorUpTo(section, n - 1, floor, before, budget), section[n - 1]);
      assert section[n - 1] in section;
      assert section[..n] == section[..n - 1] + [section[n - 1]];
    }
  }

  method TakeFloor(section: seq<Item>, floor: nat, before: nat, budget: nat)
    returns (keep: seq<Item>, rest: seq<Item>, spent: nat)
    requires before <= budget < U32_MAX
    ensures multiset(keep) + multiset(rest) == multiset(section)
    ensures spent == before + Tokens(keep) && spent <= budget
    ensures keep == FloorOf(section, floor, before, budget) && rest == RestOf(section, floor, before, budget)
    // with room for two floors and no item above the floor, the kept items are a prefix worth the floor
    ensures before + 2 * floor <= budget && (forall x | x in section :: x.tokens <= floor) ==>
              spent <= before + 2 * floor && keep <= section && (keep == section || Tokens(keep) >= floor)
  {
    hide FloorUpTo, RestUpTo, Tokens;
    keep, rest, spent := [], [], before;
    var sectionSpent := 0;
    NothingTaken(section, floor, before, budget);
    for i := 0 to |section|
      invariant keep == FloorUpTo(section, i, floor, before, budget)
      invariant rest == RestUpTo(section, i, floor, before, budget)
      invariant sectionSpent == Tokens(keep) && spent == before + sectionSpent <= budget
    {
      var it := section[i];
      FloorStep(section, i, floor, before, budget);
      var would := SaturatingAdd(spent, it.tokens);
      if sectionSpent < floor && would <= budget {
        TokensOneMore(keep, it);
        sectionSpent := sectionSpent + it.tokens;
        spent := would;
        keep := keep + [it];
      } else {
        rest := rest + [it];
      }
    }
    assert section[..|section|] == section;
    FloorSplits(section, |section|, floor, before, budget);
    if before + 2 * floor <= budget && (forall x | x in section :: x.tokens <= floor) {
      FloorIsPrefix(section, |section|, floor, before, budget);
    }
  }

  /** What is taken and what is passed over are the items seen. */
  lemma {:induction false} FloorSplits(section: seq<Item>, n: nat, floor: nat, before: nat, budget: nat)
    requires n <= |section|
    ensures multiset(FloorUpTo(section, n, floor, before, budget)) +
            multiset(RestUpTo(section, n, floor, before, budget)) == multiset(section[..n])
  {
    hide *;
    if n == 0 {
      NothingTaken(section, floor, before, budget);
      assert section[..0] == [];
    } else {
      var keep := FloorUpTo(section, n - 1, floor, before, budget);
      var rest := RestUpTo(section, n - 1, floor, before, budget);
      FloorSplits(section, n - 1, floor, before, budget);
      FloorStep(section, n - 1, floor, before, budget);
      assert section[..n] == section[..n - 1] + [section[n - 1]];
      AddedToEither(keep, rest, section[..n - 1], section[n - 1]);
    }
  }

  lemma AddedToEither(keep: seq<Item>, rest: seq<Item>, seen: seq<Item>, it: Item)
    requires multiset(keep) + multiset(rest) == multiset(seen)
    ensures multiset(keep + [it]) + multiset(rest) == multiset(seen + [it])
    ensures multiset(keep) + multiset(rest + [it]) == multiset(seen + [it])
  {
  }

  lemma NothingTaken(section: seq<Item>, floor: nat, before: nat, budget: nat)
    ensures FloorUpTo(section, 0, floor, before, budget) == [] && Tokens([]) == 0
    ensures RestUpTo(section, 0, floor, before, budget) == []
  {
  }

  lemma FloorStep(section: seq<Item>, n: nat, floor: nat, before: nat, budget: nat)
    requires n < |section|
    ensures var keep := FloorUpTo(section, n, floor, before, budget);
            FloorUpTo(section, n + 1, floor, before, budget) ==
            if Tokens(keep) < floor && before + Tokens(keep) + section[n].tokens <= budget
            then keep + [section[n]] else keep
    ensures var keep, rest := FloorUpTo(section, n, floor, before, budget), RestUpTo(section, n, floor, before, budget);
            RestUpTo(section, n + 1, floor, before, budget) ==
            if Tokens(keep) < floor && before + Tokens(keep) + section[n].tokens <= budget
            then rest else rest + [section[n]]
  {
  }

  lemma TokensOneMore(s: seq<Item>, x: Item)
    ensures Tokens(s + [x]) == Tokens(s) + x.tokens
  {
    TokensConcat(s, [x]);
  }

  // ----- the pool -----

  function Untag(pool: seq<(nat, Item)>, s: nat): seq<Item> {
    if pool == [] then []
    else if pool[0].0 == s then [pool[0].1] + Untag(pool[1..], s)
    else Untag(pool[1..], s)
  }

  function Tag(items: seq<Item>, s: nat): seq<(nat, Item)> {
    seq(|items|, i requires 0 <= i < |items| => (s, items[i]))
  }

  lemma UntagCount(pool: seq<(nat, Item)>, s: nat, x: Item)
    ensures multiset(Untag(pool, s))[x] == multiset(pool)[(s, x)]
  {
    if pool != [] {
      UntagCount(pool[1..], s, x);
      assert pool == [pool[0]] + pool[1..];
    }
  }

  /** Rearranging the pool rearranges each section's part of it. */
  lemma UntagPermutes(a: seq<(nat, Item)>, b: seq<(nat, Item)>, s: nat)
    requires multiset(a) == multiset(b)
    ensures multiset(Untag(a, s)) == multiset(Untag(b, s))
  {
    forall x ensures multiset(Untag(a, s))[x] == multiset(Untag(b, s))[x] {
      UntagCount(a, s, x);
      UntagCount(b, s, x);
    }
  }

  lemma {:induction false} UntagConcat(a: seq<(nat, Item)>, b: seq<(nat, Item)>, s: nat)
    ensures Untag(a + b, s) == Untag(a, s) + Untag(b, s)
  {
    if a == [] {
      assert a + b == b;
    } else {
      assert (a + b)[1..] == a[1..] + b;
      UntagConcat(a[1..], b, s);
    }
  }

  lemma {:induction false} UntagTag(items: seq<Item>, t: nat, s: nat)
    ensures Untag(Tag(items, t), s) == if s == t then items else []
  {
    if items != [] {
      UntagTag(items[1..], t, s);
      assert Tag(items, t)[1..] == Tag(items[1..], t);
      assert items == [items[0]] + items[1..];
    }
  }

  lemma PoolSections(facts: seq<Item>, know: seq<Item>, events: seq<Item>, s: nat)
    requires s <= 2
    ensures Untag(Tag(facts, 0) + Tag(know, 1) + Tag(events, 2), s)
         == if s == 0 then facts else if s == 1 then know else events
  {
    UntagConcat(Tag(facts, 0) + Tag(know, 1), Tag(events, 2), s);
    UntagConcat(Tag(facts, 0), Tag(know, 1), s);
    UntagTag(facts, 0, s);
    UntagTag(know, 1, s);
    UntagTag(events, 2, s);
  }

  datatype Kept = Kept(facts: seq<Item>, know: seq<Item>, events: seq<Item>)

  function Section(k: Kept, s: nat): seq<Item> {
    if s == 0 then k.facts else if s == 1 then k.know else k.events
  }

  function Push(k: Kept, s: nat, it: Item): Kept {
    if s == 0 then k.(facts := k.facts + [it])
    else if s == 1 then k.(know := k.know + [it])
    else k.(events := k.events + [it])
  }

  function Count(k: Kept): nat {
    |k.facts| + |k.know| + |k.events|
  }

  function Spent(k: Kept): nat {
    Tokens(k.facts) + Tokens(k.know) + Tokens(k.events)
  }

  lemma PushSpent(k: Kept, s: nat, it: Item)
    ensures Spent(Push(k, s, it)) == Spent(k) + it.tokens
    ensures Count(Push(k, s, it)) == Count(k) + 1
  {
    TokensConcat(Section(k, s), [it]);
  }

  /** What each section has: items kept so far, items still pooled, items dropped. */
  ghost predicate Conserved(sections: Kept, kept: Kept, pool: seq<(nat, Item)>, drops: Kept) {
    forall s | 0 <= s <= 2 ::
      multiset(Section(kept, s)) + multiset(Untag(pool, s)) + multiset(Section(drops, s)) ==
        multiset(Section(sections, s))
  }

  /** No dropped item would fit beside `spent`. */
  ghost predicate NoneFits(drops: Kept, spent: nat, budget: nat) {
    forall s, x | 0 <= s <= 2 && x in Section(drops, s) :: spent + x.tokens > budget
  }

  ghost predicate Extends(start: Kept, kept: Kept) {
    start.facts <= kept.facts && start.know <= kept.know && start.events <= kept.events
  }

  /** Everything `k` holds beyond `start` scores at least `score`. */
  ghost predicate AddedAbove(start: Kept, k: Kept, score: real) {
    forall s, j | 0 <= s <= 2 && |Section(start, s)| <= j < |Section(k, s)| :: Section(k, s)[j].score >= score
  }

  /** `x` did not fit beside the floors and items at least as good, all of which were kept. */
  ghost predicate Outbid(start: Kept, kept: Kept, x: Item, budget: nat) {
    exists mid ::
      Extends(start, mid) && Extends(mid, kept) && AddedAbove(start, mid, x.score) && Spent(mid) + x.tokens > budget
  }

  ghost predicate AllOutbid(start: Kept, kept: Kept, drops: Kept, budget: nat) {
    forall s, x | 0 <= s <= 2 && x in Section(drops, s) :: Outbid(start, kept, x, budget)
  }

  lemma KeepStep(start: Kept, kept: Kept, drops: Kept, budget: nat, s: nat, item: Item, next: real)
    requires s <= 2 && AllOutbid(start, kept, drops, budget)
    requires Extends(start, kept) && AddedAbove(start, kept, item.score) && item.score >= next
    ensures AllOutbid(start, Push(kept, s, item), drops, budget)
    ensures AddedAbove(start, Push(kept, s, item), next)
  {
    var after := Push(kept, s, item);
    assert Extends(kept, after);
    hide Spent;
    forall t, x | 0 <= t <= 2 && x in Section(drops, t) ensures Outbid(start, after, x, budget) {
      assert Outbid(start, kept, x, budget);
      var mid :| Extends(start, mid) && Extends(mid, kept) && AddedAbove(start, mid, x.score)
        && Spent(mid) + x.tokens > budget;
      assert Extends(mid, after);
    }
    forall t, j | 0 <= t <= 2 && |Section(start, t)| <= j < |Section(after, t)|
      ensures Section(after, t)[j].score >= next
    {
      if j < |Section(kept, t)| {
        assert Section(after, t)[j] == Section(kept, t)[j];
      }
    }
  }

  lemma OutbidStep(start: Kept, kept: Kept, drops: Kept, budget: nat, s: nat, item: Item, next: real)
    requires s <= 2 && AllOutbid(start, kept, drops, budget)
    requires Extends(start, kept) && AddedAbove(start, kept, item.score) && item.score >= next
    requires Spent(kept) + item.tokens > budget
    ensures AllOutbid(start, kept, Push(drops, s, item), budget)
    ensures AddedAbove(start, kept, next)
  {
    assert Extends(kept, kept);
    assert Outbid(start, kept, item, budget);
    hide Spent;
    hide Outbid;
    var after := Push(drops, s, item);
    forall t, x | 0 <= t <= 2 && x in Section(after, t) ensures Outbid(start, kept, x, budget) {
      if x != item {
        assert x in Section(drops, t);
      }
    }
  }

  lemma ConservedStep(sections: Kept, kept: Kept, pool: seq<(nat, Item)>, drops: Kept)
    requires Conserved(sections, kept, pool, drops) && pool != [] && pool[0].0 <= 2
    ensures Conserved(sections, Push(kept, pool[0].0, pool[0].1), pool[1..], drops)
    ensures Conserved(sections, kept, pool[1..], Push(drops, pool[0].0, pool[0].1))
  {
    var (t, item) := pool[0];
    forall s | 0 <= s <= 2
      ensures multiset(Untag(pool, s)) ==
                (if t == s then multiset{item} else multiset{}) + multiset(Untag(pool[1..], s))
    {
    }
    hide Untag;
  }

  lemma DropStep(drops: Kept, s: nat, item: Item, spent: nat, budget: nat)
    requires NoneFits(drops, spent, budget) && spent + item.tokens > budget
    ensures NoneFits(Push(drops, s, item), spent, budget)
  {
    var after := Push(drops, s, item);
    forall t, x | 0 <= t <= 2 && x in Section(after, t) ensures spent + x.tokens > budget {
      if x != item {
        assert x in Section(drops, t);
      }
    }
  }

  lemma SpendStep(drops: Kept, spent: nat, more: nat, budget: nat)
    requires NoneFits(drops, spent, budget)
    ensures NoneFits(drops, spent + more, budget)
  {
  }

  lemma NothingFilled(start: Kept, spent: nat, budget: nat)
    ensures NoneFits(Kept([], [], []), spent, budget) && AllOutbid(start, start, Kept([], [], []), budget)
    ensures forall score :: AddedAbove(start, start, score)
    ensures Extends(start, start) && Count(Kept([], [], [])) == 0
  {
  }

  lemma PushExtends(start: Kept, kept: Kept, s: nat, it: Item)
    requires Extends(start, kept)
    ensures Extends(start, Push(kept, s, it))
  {
  }

  lemma NextInPool(pool: seq<(nat, Item)>, i: nat)
    requires SortedBy(pool, PoolBestFirst) && i < |pool|
    ensures i + 1 < |pool| ==> pool[i].1.score >= pool[i + 1].1.score
  {
    assert i + 1 < |pool| ==> PoolBestFirst(pool[i], pool[i + 1]);
  }

  // ----- the fill, item by item -----

  /** What is kept after the first `n` items of the pool, and what is dropped. */
  function Fill(pool: seq<(nat, Item)>, n: nat, start: Kept, budget: nat): Kept
    requires n <= |pool|
  {
    if n == 0 then start
    else
      var kept := Fill(pool, n - 1, start, budget);
      if Spent(kept) + pool[n - 1].1.tokens <= budget then Push(kept, pool[n - 1].0, pool[n - 1].1) else kept
  }

  function Spill(pool: seq<(nat, Item)>, n: nat, start: Kept, budget: nat): Kept
    requires n <= |pool|
  {
    if n == 0 then Kept([], [], [])
    else
      var drops := Spill(pool, n - 1, start, budget);
      if FillTakes(pool, n - 1, start, budget) then drops else Push(drops, pool[n - 1].0, pool[n - 1].1)
  }

  predicate FillTakes(pool: seq<(nat, Item)>, i: nat, start: Kept, budget: nat)
    requires i < |pool|
  {
    Spent(Fill(pool, i, start, budget)) + pool[i].1.tokens <= budget
  }

  lemma FillStarts(pool: seq<(nat, Item)>, start: Kept, budget: nat)
    ensures Fill(pool, 0, start, budget) == start && Spill(pool, 0, start, budget) == Kept([], [], [])
  {
  }

  lemma FillStep(pool: seq<(nat, Item)>, n: nat, start: Kept, budget: nat)
    requires n < |pool|
    ensures var kept, drops := Fill(pool, n, start, budget), Spill(pool, n, start, budget);
            var (s, item) := pool[n];
            && Fill(pool, n + 1, start, budget) ==
                 (if Spent(kept) + item.tokens <= budget then Push(kept, s, item) else kept)
            && Spill(pool, n + 1, start, budget) ==
                 (if Spent(kept) + item.tokens <= budget then drops else Push(drops, s, item))
  {
    hide Spent;
  }

  /**
   Greedy fill, best score first: an item is kept while it fits, and one that is
   dropped was crowded out by the floors and items at least as good.
   */
  method FillFromPool(pool: seq<(nat, Item)>, start: Kept, before: nat, budget: nat, ghost sections: Kept)
    returns (kept: Kept, spent: nat, dropped: bool, ghost drops: Kept)
    requires before == Spent(start) <= budget < U32_MAX
    requires SortedBy(pool, PoolBestFirst) && forall i | 0 <= i < |pool| :: pool[i].0 <= 2
    requires Conserved(sections, start, pool, Kept([], [], []))
    ensures spent == Spent(kept) <= budget
    ensures Conserved(sections, kept, [], drops)
    ensures NoneFits(drops, spent, budget)
    ensures dropped <==> Count(drops) > 0
    ensures Extends(start, kept) && AllOutbid(start, kept, drops, budget)
    ensures kept == Fill(pool, |pool|, start, budget) && drops == Spill(pool, |pool|, start, budget)
  {
    hide Conserved, NoneFits, Spent, AllOutbid, AddedAbove, Extends, Count, Push, SortedBy, Fill, Spill;
    FillStarts(pool, start, budget);
    kept, spent, dropped := start, before, false;
    drops := Kept([], [], []);
    NothingFilled(start, before, budget);
    assert pool[0..] == pool;
    for i := 0 to |pool|
      invariant spent == Spent(kept) <= budget
      invariant Conserved(sections, kept, pool[i..], drops)
      invariant NoneFits(drops, spent, budget)
      invariant dropped <==> Count(drops) > 0
      invariant Extends(start, kept) && AllOutbid(start, kept, drops, budget)
      invariant i < |pool| ==> AddedAbove(start, kept, pool[i].1.score)
      invariant kept == Fill(pool, i, start, budget) && drops == Spill(pool, i, start, budget)
    {
      var (section, item) := pool[i];
      assert pool[i..][1..] == pool[i + 1..] && pool[i..][0] == pool[i];
      NextInPool(pool, i);
      FillStep(pool, i, start, budget);
      PushExtends(start, kept, section, item);
      ConservedStep(sections, kept, pool[i..], drops);
      PushSpent(kept, section, item);
      PushSpent(drops, section, item);
      ghost var next := if i + 1 < |pool| then pool[i + 1].1.score else item.score;
      if SaturatingAdd(spent, item.tokens) <= budget {
        KeepStep(start, kept, drops, budget, section, item, next);
        SpendStep(drops, spent, item.tokens, budget);
        spent := spent + item.tokens;
        kept := Push(kept, section, item);
      } else {
        OutbidStep(start, kept, drops, budget, section, item, next);
        DropStep(drops, section, item, spent, budget);
        dropped := true;
        drops := Push(drops, section, item);
      }
    }
    assert pool[|pool|..] == [];
  }

  // ----- the whole allocation -----

  /** The three floor passes in turn, each on what the ones before it left of the budget. */
  function Floors(k: Kept, floor: nat, budget: nat): Kept {
    var f := FloorOf(k.facts, floor, 0, budget);
    var n := FloorOf(k.know, floor, Tokens(f), budget);
    Kept(f, n, FloorOf(k.events, floor, Tokens(f) + Tokens(n), budget))
  }

  /** What the floor passes before section `s` have spent. */
  function Before(k: Kept, floor: nat, budget: nat, s: nat): nat {
    var f := Tokens(FloorOf(k.facts, floor, 0, budget));
    if s == 0 then 0 else if s == 1 then f else f + Tokens(FloorOf(k.know, floor, f, budget))
  }

  function PooledFrom(k: Kept, floor: nat, budget: nat, s: nat): seq<Item> {
    RestOf(Section(k, s), floor, Before(k, floor, budget, s), budget)
  }

  /** What the floor passes leave, facts before knowledge before events. */
  function PoolOf(k: Kept, floor: nat, budget: nat): seq<(nat, Item)> {
    Tag(PooledFrom(k, floor, budget, 0), 0) + Tag(PooledFrom(k, floor, budget, 1), 1)
    + Tag(PooledFrom(k, floor, budget, 2), 2)
  }

  ghost predicate Within(a: Kept, b: Kept) {
    forall s | 0 <= s <= 2 :: multiset(Section(a, s)) <= multiset(Section(b, s))
  }

  /** Beside the floors, kept items at least as good as `x` leave no room for it. */
  ghost predicate NoRoomFor(floors: Kept, kept: Kept, x: Item, budget: nat) {
    exists mid ::
      Extends(floors, mid) && Within(mid, kept) && AddedAbove(floors, mid, x.score) && Spent(mid) + x.tokens > budget
  }

  lemma ExtendsWithin(a: Kept, b: Kept)
    requires Extends(a, b)
    ensures Within(a, b)
  {
    assert b.facts == a.facts + b.facts[|a.facts|..];
    assert b.know == a.know + b.know[|a.know|..];
    assert b.events == a.events + b.events[|a.events|..];
  }

  lemma DropsHadNoRoom(floors: Kept, filled: Kept, kept: Kept, drops: Kept, budget: nat)
    requires AllOutbid(floors, filled, drops, budget) && kept == Sorted(filled)
    ensures forall s, x | 0 <= s <= 2 && x in Section(drops, s) :: NoRoomFor(floors, kept, x, budget)
  {
    SortedFacts(filled);
    hide Spent, Sorted, AddedAbove, Extends;
    forall s, x | 0 <= s <= 2 && x in Section(drops, s) ensures NoRoomFor(floors, kept, x, budget) {
      assert Outbid(floors, filled, x, budget);
      var mid :| Extends(floors, mid) && Extends(mid, filled) && AddedAbove(floors, mid, x.score)
        && Spent(mid) + x.tokens > budget;
      ExtendsWithin(mid, filled);
      assert forall t | 0 <= t <= 2 :: multiset(Section(kept, t)) == multiset(Section(filled, t));
    }
  }

  ghost predicate IsIn(k: Kept, x: Item) {
    exists s | 0 <= s <= 2 :: x in Section(k, s)
  }

  /** Some item would fit the budget on its own. */
  ghost predicate SomeFits(input: Kept, budget: nat) {
    exists x :: IsIn(input, x) && x.tokens <= budget
  }

  function Sorted(k: Kept): Kept {
    Kept(StableSort(k.facts, BestFirst), StableSort(k.know, BestFirst), StableSort(k.events, BestFirst))
  }

  /** Kept and dropped items together are the input, section by section. */
  ghost predicate Splits(input: Kept, kept: Kept, drops: Kept) {
    forall s | 0 <= s <= 2 ::
      multiset(Section(kept, s)) + multiset(Section(drops, s)) == multiset(Section(input, s))
  }

  /** One item, of the highest score there is. */
  ghost predicate OnlyTheBest(input: Kept, kept: Kept) {
    && Count(kept) == 1
    && exists best :: IsIn(kept, best) && IsIn(input, best) && forall x | IsIn(input, x) :: best.score >= x.score
  }

  ghost predicate InScoreOrder(k: Kept) {
    forall s | 0 <= s <= 2 :: SortedBy(Section(k, s), BestFirst)
  }

  /** The section is whole, or keeps a best-scored prefix worth at least the floor. */
  ghost predicate FloorMet(section: seq<Item>, kept: seq<Item>, floor: nat) {
    || multiset(kept) == multiset(section)
    || exists n | 0 <= n <= |section| ::
         && Tokens(StableSort(section, BestFirst)[..n]) >= floor
         && multiset(StableSort(section, BestFirst)[..n]) <= multiset(kept)
  }

  ghost predicate SmallItems(input: Kept, floor: nat) {
    forall x | IsIn(input, x) :: x.tokens <= floor
  }

  function First(s: seq<Item>): Option<Item> {
    if s == [] then None else Some(s[0])
  }

  /** `max_by` over the section tops: on equal scores the later section wins. */
  function Better(a: Option<(nat, Item)>, s: nat, b: Option<Item>): Option<(nat, Item)> {
    match (a, b)
    case (_, None) => a
    case (None, Some(y)) => Some((s, y))
    case (Some(x), Some(y)) => if y.score >= x.1.score then Some((s, y)) else a
  }

  function BestTop(input: Kept): Option<(nat, Item)> {
    Better(Better(Better(None, 0, First(input.facts)), 1, First(input.know)), 2, First(input.events))
  }

  lemma BestTopIsBest(input: Kept)
    requires InScoreOrder(input) && Count(input) > 0
    ensures BestTop(input).Some? && BestTop(input).value.0 <= 2
    ensures var (s, best) := BestTop(input).value;
            best in Section(input, s) && forall x | IsIn(input, x) :: best.score >= x.score
  {
    var (s, best) := BestTop(input).value;
    forall t, x | 0 <= t <= 2 && x in Section(input, t) ensures best.score >= x.score {
      var sec := Section(input, t);
      assert x == sec[0] || BestFirst(sec[0], x);
    }
  }

  /** Everything the allocation promises about its result. */
  ghost predicate Allocation(input: Kept, kept: Kept, drops: Kept, spent: nat, truncated: bool, budget: nat) {
    && Splits(input, kept, drops) && spent == Spent(kept)
    && if SomeFits(input, budget) then
         // something fits alone: within budget, and nothing dropped would still fit
         && Count(kept) > 0 && spent <= budget && NoneFits(drops, spent, budget)
         && (truncated <==> Count(drops) > 0)
       else
         // nothing fits alone: exactly one item, the best
         OnlyTheBest(input, kept) && truncated
  }

  // ----- who is preferred -----

  lemma {:induction false} FloorGrows(section: seq<Item>, i: nat, j: nat, floor: nat, before: nat, budget: nat)
    requires i <= j <= |section|
    ensures Tokens(FloorUpTo(section, i, floor, before, budget)) <= Tokens(FloorUpTo(section, j, floor, before, budget))
  {
    hide FloorUpTo, Tokens, RestUpTo;
    if i < j {
      FloorGrows(section, i, j - 1, floor, before, budget);
      FloorStep(section, j - 1, floor, before, budget);
      TokensOneMore(FloorUpTo(section, j - 1, floor, before, budget), section[j - 1]);
    }
  }

  /** A floor pass that refuses an item takes later only smaller ones. */
  lemma FloorPrefers(section: seq<Item>, i: nat, j: nat, floor: nat, before: nat, budget: nat)
    requires i < j < |section|
    requires !FloorTakes(section, i, floor, before, budget) && FloorTakes(section, j, floor, before, budget)
    ensures section[i].tokens > section[j].tokens
  {
    hide FloorUpTo, Tokens;
    FloorGrows(section, i, j, floor, before, budget);
  }

  lemma {:induction false} FloorMember(section: seq<Item>, n: nat, floor: nat, before: nat, budget: nat, x: Item)
    returns (i: nat)
    requires n <= |section| && x in FloorUpTo(section, n, floor, before, budget)
    ensures i < n && section[i] == x && FloorTakes(section, i, floor, before, budget)
  {
    hide Tokens;
    if x in FloorUpTo(section, n - 1, floor, before, budget) {
      i := FloorMember(section, n - 1, floor, before, budget, x);
    } else {
      i := n - 1;
    }
  }

  lemma {:induction false} RestMember(section: seq<Item>, n: nat, floor: nat, before: nat, budget: nat, u: nat)
    returns (i: nat)
    requires n <= |section| && u < |RestUpTo(section, n, floor, before, budget)|
    ensures i < n && section[i] == RestUpTo(section, n, floor, before, budget)[u]
    ensures !FloorTakes(section, i, floor, before, budget)
  {
    hide FloorTakes;
    if u < |RestUpTo(section, n - 1, floor, before, budget)| {
      i := RestMember(section, n - 1, floor, before, budget, u);
    } else {
      i := n - 1;
    }
  }

  lemma {:induction false} RestOrder(section: seq<Item>, n: nat, floor: nat, before: nat, budget: nat, u: nat, v: nat)
    returns (i: nat, j: nat)
    requires n <= |section| && u < v < |RestUpTo(section, n, floor, before, budget)|
    ensures i < j < n && section[i] == RestUpTo(section, n, floor, before, budget)[u]
    ensures section[j] == RestUpTo(section, n, floor, before, budget)[v]
  {
    hide FloorTakes;
    if v < |RestUpTo(section, n - 1, floor, before, budget)| {
      i, j := RestOrder(section, n - 1, floor, before, budget, u, v);
    } else {
      i := RestMember(section, n - 1, floor, before, budget, u);
      j := n - 1;
    }
  }

  lemma {:induction false} FillGrows(pool: seq<(nat, Item)>, i: nat, j: nat, start: Kept, budget: nat)
    requires i <= j <= |pool|
    ensures Spent(Fill(pool, i, start, budget)) <= Spent(Fill(pool, j, start, budget))
  {
    hide Fill, Spill, Spent, Push;
    if i < j {
      FillGrows(pool, i, j - 1, start, budget);
      FillStep(pool, j - 1, start, budget);
      PushSpent(Fill(pool, j - 1, start, budget), pool[j - 1].0, pool[j - 1].1);
    }
  }

  /** So does the fill. */
  lemma FillPrefers(pool: seq<(nat, Item)>, i: nat, j: nat, start: Kept, budget: nat)
    requires i < j < |pool| && !FillTakes(pool, i, start, budget) && FillTakes(pool, j, start, budget)
    ensures pool[i].1.tokens > pool[j].1.tokens
  {
    hide Fill, Spent;
    FillGrows(pool, i, j, start, budget);
  }

  lemma {:induction false} FillMember(pool: seq<(nat, Item)>, n: nat, start: Kept, budget: nat, s: nat, x: Item)
    returns (i: nat)
    requires n <= |pool| && s <= 2 && (forall k | 0 <= k < |pool| :: pool[k].0 <= 2)
    requires x in Section(Fill(pool, n, start, budget), s) && x !in Section(start, s)
    ensures i < n && pool[i] == (s, x) && FillTakes(pool, i, start, budget)
  {
    hide Spent;
    if n > 0 && x in Section(Fill(pool, n - 1, start, budget), s) {
      i := FillMember(pool, n - 1, start, budget, s, x);
    } else {
      i := n - 1;
    }
  }

  lemma {:induction false} SpillMember(pool: seq<(nat, Item)>, n: nat, start: Kept, budget: nat, s: nat, x: Item)
    returns (i: nat)
    requires n <= |pool| && s <= 2 && (forall k | 0 <= k < |pool| :: pool[k].0 <= 2)
    requires x in Section(Spill(pool, n, start, budget), s)
    ensures i < n && pool[i] == (s, x) && !FillTakes(pool, i, start, budget)
  {
    hide FillTakes;
    if n > 0 && x in Section(Spill(pool, n - 1, start, budget), s) {
      i := SpillMember(pool, n - 1, start, budget, s, x);
    } else {
      i := n - 1;
    }
  }

  /** Where a pooled item comes from, and that earlier sections come first. */
  lemma Pooled(k: Kept, floor: nat, budget: nat, i: nat) returns (u: nat)
    requires i < |PoolOf(k, floor, budget)|
    ensures var (s, x) := PoolOf(k, floor, budget)[i];
            s <= 2 && u < |PooledFrom(k, floor, budget, s)| && PooledFrom(k, floor, budget, s)[u] == x
    ensures u == i - (if PoolOf(k, floor, budget)[i].0 == 0 then 0
                      else if PoolOf(k, floor, budget)[i].0 == 1 then |PooledFrom(k, floor, budget, 0)|
                      else |PooledFrom(k, floor, budget, 0)| + |PooledFrom(k, floor, budget, 1)|)
  {
    hide PooledFrom;
    var f, n := |PooledFrom(k, floor, budget, 0)|, |PooledFrom(k, floor, budget, 1)|;
    u := if i < f then i else if i < f + n then i - f else i - f - n;
  }

  lemma PoolInOrder(k: Kept, floor: nat, budget: nat, i: nat, j: nat)
    requires i < j < |PoolOf(k, floor, budget)|
    ensures PoolOf(k, floor, budget)[i].0 <= PoolOf(k, floor, budget)[j].0
  {
    hide PooledFrom;
  }

  /** In the sorted pool a better item stands first, and of equal ones the one pooled first. */
  lemma PoolOrder(unsorted: seq<(nat, Item)>, p: nat, q: nat) returns (u: nat, v: nat)
    requires q < p < |unsorted|
    requires StableSort(unsorted, PoolBestFirst)[p].1.score >= StableSort(unsorted, PoolBestFirst)[q].1.score
    ensures StableSort(unsorted, PoolBestFirst)[p].1.score == StableSort(unsorted, PoolBestFirst)[q].1.score
    ensures v < u < |unsorted|
    ensures unsorted[u] == StableSort(unsorted, PoolBestFirst)[p]
              && unsorted[v] == StableSort(unsorted, PoolBestFirst)[q]
  {
    hide StableSort;
    assert TotalPreorder(PoolBestFirst);
    StableSortSorted(unsorted, PoolBestFirst);
    assert PoolBestFirst(StableSort(unsorted, PoolBestFirst)[q], StableSort(unsorted, PoolBestFirst)[p]);
    v, u := TiesKeepOrder(unsorted, PoolBestFirst, q, p);
  }

  /** Better, or as good and earlier. */
  predicate Ahead(section: seq<Item>, i: nat, j: nat)
    requires i < |section| && j < |section|
  {
    section[i].score > section[j].score || (section[i].score == section[j].score && i < j)
  }

  lemma SectionOrder(section: seq<Item>, i: nat, j: nat) returns (p: nat, q: nat)
    requires i < |section| && j < |section| && Distinct(section) && Ahead(section, i, j)
    ensures p < q < |section| && Distinct(StableSort(section, BestFirst))
    ensures StableSort(section, BestFirst)[p] == section[i] && StableSort(section, BestFirst)[q] == section[j]
  {
    hide StableSort;
    var t := StableSort(section, BestFirst);
    assert TotalPreorder(BestFirst);
    StableSortSorted(section, BestFirst);
    StableSortPermutes(section, BestFirst);
    SameMembers(section, t);
    PermutationDistinct(section, t);
    assert section[i] in section && section[j] in section;
    p :| 0 <= p < |t| && t[p] == section[i];
    q :| 0 <= q < |t| && t[q] == section[j];
    if q < p {
      assert BestFirst(t[q], t[p]);
      var v, u := TiesKeepOrder(section, BestFirst, q, p);
    }
    assert section[i] != section[j];
  }

  /** An item that is dropped while one behind it in its section is kept is the larger of the two. */
  ghost predicate PrefersAhead(section: seq<Item>, kept: seq<Item>, drops: seq<Item>) {
    forall i, j | 0 <= i < |section| && 0 <= j < |section| && Ahead(section, i, j)
                  && section[i] in drops && section[j] in kept :: section[i].tokens > section[j].tokens
  }

  /** So is one that is dropped while a worse item, or one as good of a later section, is kept past the floors. */
  ghost predicate PrefersBetter(floors: Kept, kept: Kept, drops: Kept) {
    forall a, b, x, y | 0 <= a <= 2 && 0 <= b <= 2 && x in Section(drops, a) && y in Section(kept, b)
                        && y !in Section(floors, b) && (x.score > y.score || (x.score == y.score && a < b)) ::
      x.tokens > y.tokens
  }

  lemma FillAcross(k: Kept, floor: nat, budget: nat, a: nat, b: nat, x: Item, y: Item)
    requires a <= 2 && b <= 2 && (x.score > y.score || (x.score == y.score && a < b))
    requires var pool, start := StableSort(PoolOf(k, floor, budget), PoolBestFirst), Floors(k, floor, budget);
             && (forall i | 0 <= i < |pool| :: pool[i].0 <= 2)
             && x in Section(Spill(pool, |pool|, start, budget), a)
             && y in Section(Fill(pool, |pool|, start, budget), b) && y !in Section(start, b)
    ensures x.tokens > y.tokens
  {
    hide Fill, Spill, FillTakes, StableSort, PoolOf, Floors, Section;
    var unsorted, start := PoolOf(k, floor, budget), Floors(k, floor, budget);
    var pool := StableSort(unsorted, PoolBestFirst);
    var p := SpillMember(pool, |pool|, start, budget, a, x);
    var q := FillMember(pool, |pool|, start, budget, b, y);
    if q < p {
      var u, v := PoolOrder(unsorted, p, q);
      PoolInOrder(k, floor, budget, v, u);
    }
    FillPrefers(pool, p, q, start, budget);
  }

  lemma FillWithin(k: Kept, floor: nat, budget: nat, s: nat, i: nat, j: nat)
    requires s <= 2 && i < j < |Section(k, s)| && Distinct(Section(k, s))
    requires Section(k, s)[i].score >= Section(k, s)[j].score
    requires var pool, start := StableSort(PoolOf(k, floor, budget), PoolBestFirst), Floors(k, floor, budget);
             && (forall n | 0 <= n < |pool| :: pool[n].0 <= 2)
             && Section(k, s)[i] in Section(Spill(pool, |pool|, start, budget), s)
             && Section(k, s)[j] in Section(Fill(pool, |pool|, start, budget), s)
    ensures Section(k, s)[i].tokens > Section(k, s)[j].tokens
  {
    hide Fill, Spill, FillTakes, FloorTakes, FloorUpTo, RestUpTo, StableSort, PoolOf, Floors;
    var section, before := Section(k, s), Before(k, floor, budget, s);
    var unsorted, start := PoolOf(k, floor, budget), Floors(k, floor, budget);
    var pool := StableSort(unsorted, PoolBestFirst);
    var p := SpillMember(pool, |pool|, start, budget, s, section[i]);
    FloorsOf(k, floor, budget, s);
    if section[j] in Section(start, s) {
      var at := FloorMember(section, |section|, floor, before, budget, section[j]);
      SameMembersOfPool(unsorted);
      assert pool[p] in pool;
      var w :| 0 <= w < |unsorted| && unsorted[w] == pool[p];
      var u := Pooled(k, floor, budget, w);
      var refused := RestMember(section, |section|, floor, before, budget, u);
      assert at == j && refused == i;
      FloorPrefers(section, i, j, floor, before, budget);
    } else {
      var q := FillMember(pool, |pool|, start, budget, s, section[j]);
      if q < p {
        var u, v := PoolOrder(unsorted, p, q);
        var x := Pooled(k, floor, budget, u);
        var y := Pooled(k, floor, budget, v);
        var b, a := RestOrder(section, |section|, floor, before, budget, y, x);
      }
      FillPrefers(pool, p, q, start, budget);
    }
  }

  lemma FloorsOf(k: Kept, floor: nat, budget: nat, s: nat)
    requires s <= 2
    ensures Section(Floors(k, floor, budget), s) ==
            FloorUpTo(Section(k, s), |Section(k, s)|, floor, Before(k, floor, budget, s), budget)
    ensures PooledFrom(k, floor, budget, s) ==
            RestUpTo(Section(k, s), |Section(k, s)|, floor, Before(k, floor, budget, s), budget)
  {
    hide FloorUpTo, RestUpTo;
  }

  lemma SameMembersOfPool(unsorted: seq<(nat, Item)>)
    ensures forall x :: x in unsorted <==> x in StableSort(unsorted, PoolBestFirst)
  {
    StableSortPermutes(unsorted, PoolBestFirst);
    SameMembers(unsorted, StableSort(unsorted, PoolBestFirst));
  }

  /** Both preferences hold of the fill, on the sections as they came in. */
  lemma FillPrefersAhead(input: Kept, floor: nat, budget: nat, filled: Kept, drops: Kept)
    requires var pool := StableSort(PoolOf(Sorted(input), floor, budget), PoolBestFirst);
             var start := Floors(Sorted(input), floor, budget);
             && (forall i | 0 <= i < |pool| :: pool[i].0 <= 2)
             && filled == Fill(pool, |pool|, start, budget) && drops == Spill(pool, |pool|, start, budget)
    ensures PrefersBetter(Floors(Sorted(input), floor, budget), filled, drops)
    ensures forall s | 0 <= s <= 2 && Distinct(Section(input, s)) ::
              PrefersAhead(Section(input, s), Section(filled, s), Section(drops, s))
  {
    hide Fill, Spill, Floors, PoolOf, StableSort;
    var sorted := Sorted(input);
    forall a, b, x, y | 0 <= a <= 2 && 0 <= b <= 2 && x in Section(drops, a) && y in Section(filled, b)
                        && y !in Section(Floors(sorted, floor, budget), b)
                        && (x.score > y.score || (x.score == y.score && a < b))
      ensures x.tokens > y.tokens
    {
      FillAcross(sorted, floor, budget, a, b, x, y);
    }
    forall s, i, j | 0 <= s <= 2 && Distinct(Section(input, s)) && 0 <= i < |Section(input, s)|
                     && 0 <= j < |Section(input, s)| && Ahead(Section(input, s), i, j)
                     && Section(input, s)[i] in Section(drops, s) && Section(input, s)[j] in Section(filled, s)
      ensures Section(input, s)[i].tokens > Section(input, s)[j].tokens
    {
      var p, q := SectionOrder(Section(input, s), i, j);
      FillWithin(sorted, floor, budget, s, p, q);
    }
  }

  /** Where nothing fits, the item that is surfaced beats every item of the later sections outright. */
  ghost predicate LaterWins(input: Kept, kept: Kept) {
    forall s, t, x, y | 0 <= s < t <= 2 && x in Section(kept, s) && y in Section(input, t) :: x.score > y.score
  }

  /** Who is kept when not everyone can be. */
  ghost predicate Preferred(input: Kept, floor: nat, budget: nat, kept: Kept, drops: Kept) {
    && (forall s | 0 <= s <= 2 && Distinct(Section(input, s)) ::
          PrefersAhead(Section(input, s), Section(kept, s), Section(drops, s)))
    && (if SomeFits(input, budget) then PrefersBetter(Floors(Sorted(input), floor, budget), kept, drops)
        else LaterWins(input, kept))
  }

  ghost predicate SameHolding(a: Kept, b: Kept) {
    forall s, x | 0 <= s <= 2 :: x in Section(a, s) <==> x in Section(b, s)
  }

  lemma PreferredSorted(input: Kept, floor: nat, budget: nat, filled: Kept, drops: Kept)
    requires Preferred(input, floor, budget, filled, drops)
    ensures Preferred(input, floor, budget, Sorted(filled), drops)
  {
    hide Floors, SomeFits, Ahead, Distinct;
    SortedHolds(filled);
    hide Sorted;
    forall s | 0 <= s <= 2 && Distinct(Section(input, s))
      ensures PrefersAhead(Section(input, s), Section(Sorted(filled), s), Section(drops, s))
    {
      assert PrefersAhead(Section(input, s), Section(filled, s), Section(drops, s));
    }
  }

  lemma SortedHolds(k: Kept)
    ensures SameHolding(k, Sorted(k))
  {
    hide StableSort;
    forall s | 0 <= s <= 2 ensures forall x :: x in Section(k, s) <==> x in Section(Sorted(k), s) {
      StableSortPermutes(Section(k, s), BestFirst);
      SameMembers(Section(k, s), StableSort(Section(k, s), BestFirst));
    }
  }

  /** The top of a sorted section has nothing ahead of it. */
  lemma TopHasNoneAhead(section: seq<Item>, i: nat, j: nat)
    requires i < |section| && j < |section| && Distinct(section)
    requires section[j] == StableSort(section, BestFirst)[0]
    ensures !Ahead(section, i, j)
  {
    hide StableSort;
    if Ahead(section, i, j) {
      var p, q := SectionOrder(section, i, j);
    }
  }

  lemma RescuePreferred(input: Kept, floor: nat, budget: nat, drops: Kept)
    requires Count(input) > 0 && !SomeFits(input, budget) && BestTop(Sorted(input)).Some?
    ensures var (s, best) := BestTop(Sorted(input)).value;
            Preferred(input, floor, budget, Push(Kept([], [], []), s, best), drops)
  {
    hide StableSort, Floors, SomeFits, Ahead, Distinct, Sorted, BestTop, Section, InScoreOrder;
    SortedFacts(input);
    SortedHolds(input);
    var (s, best) := BestTop(Sorted(input)).value;
    RescueTop(Sorted(input));
    OnlyIn(s, best);
    SortedSections(input, s);
    forall t, i, j | 0 <= t <= 2 && Distinct(Section(input, t)) && 0 <= i < |Section(input, t)|
                     && 0 <= j < |Section(input, t)|
                     && Section(input, t)[j] in Section(Push(Kept([], [], []), s, best), t)
      ensures !Ahead(Section(input, t), i, j)
    {
      TopHasNoneAhead(Section(input, t), i, j);
    }
  }

  lemma OnlyIn(s: nat, x: Item)
    requires s <= 2
    ensures forall t, y | 0 <= t <= 2 :: y in Section(Push(Kept([], [], []), s, x), t) <==> t == s && y == x
  {
  }

  lemma SortedSections(k: Kept, s: nat)
    ensures Section(Sorted(k), s) == StableSort(Section(k, s), BestFirst)
  {
    hide StableSort;
  }

  /** The candidate to rescue tops its section, and of equal tops the last section's is taken. */
  lemma RescueTop(sorted: Kept)
    requires BestTop(sorted).Some? && InScoreOrder(sorted)
    ensures var (s, best) := BestTop(sorted).value;
            && s <= 2 && Section(sorted, s) != [] && best == Section(sorted, s)[0]
            && forall t, y | s < t <= 2 && y in Section(sorted, t) :: best.score > y.score
  {
    var (s, best) := BestTop(sorted).value;
    forall t, y | s < t <= 2 && y in Section(sorted, t) ensures best.score > y.score {
      var sec := Section(sorted, t);
      assert y == sec[0] || BestFirst(sec[0], y);
    }
  }

  method AllocateBudget(facts: seq<Item>, know: seq<Item>, events: seq<Item>, floor: nat, budget: nat)
    returns (kept: Kept, spent: nat, truncated: bool, ghost drops: Kept)
    requires budget < U32_MAX
    ensures InScoreOrder(kept)
    ensures budget == 0 || |facts| + |know| + |events| == 0 ==>
              kept == Kept([], [], []) && spent == 0 && (truncated <==> |facts| + |know| + |events| > 0)
    ensures budget > 0 && |facts| + |know| + |events| > 0 ==>
              Allocation(Kept(facts, know, events), kept, drops, spent, truncated, budget)
    // a dropped item had no room beside the floors and kept items at least as good
    ensures budget > 0 && SomeFits(Kept(facts, know, events), budget) ==>
              forall s, x | 0 <= s <= 2 && x in Section(drops, s) ::
                NoRoomFor(Floors(Sorted(Kept(facts, know, events)), floor, budget), kept, x, budget)
    // among items as good the earlier goes first, and facts before knowledge before events
    ensures budget > 0 && |facts| + |know| + |events| > 0 ==>
              Preferred(Kept(facts, know, events), floor, budget, kept, drops)
    // no section is starved by the others
    ensures budget > 0 && 6 * floor <= budget && SmallItems(Kept(facts, know, events), floor) ==>
              AllFloorsMet(Kept(facts, know, events), kept, floor)
  {
    hide *;
    var input := Kept(facts, know, events);
    SectionCount(input);
    var sorted := Sorted(input);
    if Count(input) == 0 || budget == 0 {
      kept, spent, truncated := Kept([], [], []), 0, Count(input) > 0;
      drops := input;
      NothingAllocated(input, floor, budget);
      return;
    }
    SortedFacts(input);
    SomeFitsSorted(input, budget);
    ghost var floors := 6 * floor <= budget && SmallItems(input, floor);
    var start, pool, before := TakeFloors(input, floor, budget);
    var filled: Kept;
    filled, spent, truncated, drops := FillFromPool(StableSort(pool, PoolBestFirst), start, before, budget, sorted);
    if Count(filled) == 0 {
      NothingFits(sorted, filled, drops, spent, budget);
      BestTopIsBest(sorted);
      var top := BestTop(sorted).value;
      RescueIsBest(sorted, drops, top.0, top.1, budget);
      RescuePreferred(input, floor, budget, Without(drops, top.0, top.1));
      filled, spent, truncated := Push(filled, top.0, top.1), top.1.tokens, true;
      drops := Without(drops, top.0, top.1);
      if floors {
        SmallItemsFit(input, floor, budget);
      }
    } else {
      SomethingFits(sorted, filled, drops, spent, truncated, budget);
      DropsHadNoRoom(start, filled, Sorted(filled), drops, budget);
      FillPreferred(input, floor, budget, filled, drops);
      if floors {
        FloorsMet(input, sorted, start, filled, drops, floor);
        FloorsTransfer(input, filled, Sorted(filled), floor);
      }
    }
    kept := Sorted(filled);
    PreferredSorted(input, floor, budget, filled, drops);
    SortedFacts(filled);
    Transfer(input, sorted, filled, kept, drops, spent, truncated, budget);
  }

  lemma NothingAllocated(input: Kept, floor: nat, budget: nat)
    ensures InScoreOrder(Kept([], [], []))
    ensures Count(input) == 0 ==> !SomeFits(input, budget) && AllFloorsMet(input, Kept([], [], []), floor)
  {
    if Count(input) == 0 { assert input == Kept([], [], []); }
  }

  lemma SectionCount(input: Kept)
    ensures Count(input) == |input.facts| + |input.know| + |input.events|
  {
  }

  lemma FillPreferred(input: Kept, floor: nat, budget: nat, filled: Kept, drops: Kept)
    requires SomeFits(input, budget)
    requires var pool := StableSort(PoolOf(Sorted(input), floor, budget), PoolBestFirst);
             var start := Floors(Sorted(input), floor, budget);
             && (forall i | 0 <= i < |pool| :: pool[i].0 <= 2)
             && filled == Fill(pool, |pool|, start, budget) && drops == Spill(pool, |pool|, start, budget)
    ensures Preferred(input, floor, budget, filled, drops)
  {
    hide Fill, Spill, Floors, PoolOf, StableSort, PrefersBetter, PrefersAhead, SomeFits, Sorted, Distinct;
    FillPrefersAhead(input, floor, budget, filled, drops);
  }

  lemma SomeFitsSorted(input: Kept, budget: nat)
    ensures SomeFits(Sorted(input), budget) <==> SomeFits(input, budget)
  {
    SortedFacts(input);
    hide Sorted, IsIn;
  }

  /** The three floor passes over the sorted sections, and the pool of what they left. */
  method TakeFloors(input: Kept, floor: nat, budget: nat) returns (start: Kept, pool: seq<(nat, Item)>, spent: nat)
    requires budget < U32_MAX
    ensures spent == Spent(start) <= budget && start == Floors(Sorted(input), floor, budget)
    ensures pool == PoolOf(Sorted(input), floor, budget)
    ensures Conserved(Sorted(input), start, StableSort(pool, PoolBestFirst), Kept([], [], []))
    ensures SortedBy(StableSort(pool, PoolBestFirst), PoolBestFirst)
    ensures forall i | 0 <= i < |StableSort(pool, PoolBestFirst)| :: StableSort(pool, PoolBestFirst)[i].0 <= 2
    ensures 6 * floor <= budget && SmallItems(input, floor) ==> PrefixesMet(Sorted(input), start, floor)
  {
    hide Sorted, SmallItems, FloorOf, RestOf, StableSort, Tokens, PrefixesMet, Conserved;
    var sorted := Sorted(input);
    var keepF, restF, spentF := TakeFloor(sorted.facts, floor, 0, budget);
    var keepK, restK, spentK := TakeFloor(sorted.know, floor, spentF, budget);
    var keepE, restE, spentE := TakeFloor(sorted.events, floor, spentK, budget);
    start := Kept(keepF, keepK, keepE);
    pool := Tag(restF, 0) + Tag(restK, 1) + Tag(restE, 2);
    spent := spentE;
    PoolReady(sorted, start, pool, restF, restK, restE);
    if 6 * floor <= budget && SmallItems(input, floor) { FloorsArePrefixes(input, floor, budget); }
  }

  lemma FloorsArePrefixes(input: Kept, floor: nat, budget: nat)
    requires 6 * floor <= budget && SmallItems(input, floor)
    ensures PrefixesMet(Sorted(input), Floors(Sorted(input), floor, budget), floor)
  {
    hide Sorted, SmallItems, FloorUpTo, Tokens;
    var sorted := Sorted(input);
    SmallInSorted(input, floor);
    FloorIsPrefix(sorted.facts, |sorted.facts|, floor, 0, budget);
    var f := FloorOf(sorted.facts, floor, 0, budget);
    FloorIsPrefix(sorted.know, |sorted.know|, floor, Tokens(f), budget);
    var k := FloorOf(sorted.know, floor, Tokens(f), budget);
    FloorIsPrefix(sorted.events, |sorted.events|, floor, Tokens(f) + Tokens(k), budget);
  }

  lemma SmallInSorted(input: Kept, floor: nat)
    ensures SmallItems(input, floor) ==>
              && (forall x | x in Sorted(input).facts :: x.tokens <= floor)
              && (forall x | x in Sorted(input).know :: x.tokens <= floor)
              && (forall x | x in Sorted(input).events :: x.tokens <= floor)
  {
    SortedFacts(input);
    hide StableSort;
    var sorted := Sorted(input);
    assert forall s, x | 0 <= s <= 2 && x in Section(sorted, s) :: IsIn(sorted, x);
    assert Section(sorted, 0) == sorted.facts && Section(sorted, 1) == sorted.know
      && Section(sorted, 2) == sorted.events;
  }

  ghost predicate FloorPrefix(section: seq<Item>, keep: seq<Item>, floor: nat) {
    keep <= section && (keep == section || Tokens(keep) >= floor)
  }

  /** What the floor passes leave when no item is above the floor and there is room for six. */
  ghost predicate PrefixesMet(sorted: Kept, start: Kept, floor: nat) {
    && FloorPrefix(sorted.facts, start.facts, floor)
    && FloorPrefix(sorted.know, start.know, floor)
    && FloorPrefix(sorted.events, start.events, floor)
  }

  ghost predicate AllFloorsMet(input: Kept, kept: Kept, floor: nat) {
    FloorMet(input.facts, kept.facts, floor) && FloorMet(input.know, kept.know, floor)
      && FloorMet(input.events, kept.events, floor)
  }

  function RemoveFirst(s: seq<Item>, x: Item): seq<Item> {
    if s == [] then [] else if s[0] == x then s[1..] else [s[0]] + RemoveFirst(s[1..], x)
  }

  lemma RemoveFirstCount(s: seq<Item>, x: Item)
    requires x in s
    ensures multiset(RemoveFirst(s, x)) + multiset{x} == multiset(s)
  {
    assert s == [s[0]] + s[1..];
    if s[0] != x {
      RemoveFirstCount(s[1..], x);
    }
  }

  function Without(k: Kept, s: nat, x: Item): Kept {
    if s == 0 then k.(facts := RemoveFirst(k.facts, x))
    else if s == 1 then k.(know := RemoveFirst(k.know, x))
    else k.(events := RemoveFirst(k.events, x))
  }

  lemma ConservedSplits(sorted: Kept, filled: Kept, drops: Kept)
    requires Conserved(sorted, filled, [], drops)
    ensures Splits(sorted, filled, drops)
    ensures forall x :: IsIn(sorted, x) <==> IsIn(filled, x) || IsIn(drops, x)
  {
    forall s | 0 <= s <= 2
      ensures multiset(Section(filled, s)) + multiset(Section(drops, s)) == multiset(Section(sorted, s))
    {
      assert Untag([], s) == [];
    }
    forall s, x | 0 <= s <= 2 ensures x in Section(sorted, s) <==> x in Section(filled, s) || x in Section(drops, s) {
      assert x in Section(sorted, s) <==> x in multiset(Section(sorted, s));
      assert x in multiset(Section(filled, s)) + multiset(Section(drops, s)) <==>
             x in Section(filled, s) || x in Section(drops, s);
    }
  }

  lemma NothingFits(sorted: Kept, filled: Kept, drops: Kept, spent: nat, budget: nat)
    requires Conserved(sorted, filled, [], drops) && NoneFits(drops, spent, budget)
    requires spent == Spent(filled) && Count(filled) == 0
    ensures !SomeFits(sorted, budget) && filled == Kept([], [], []) && Splits(sorted, filled, drops)
  {
    ConservedSplits(sorted, filled, drops);
    hide Splits;
    hide Conserved;
    assert forall x :: !IsIn(filled, x);
  }

  lemma SomethingFits(sorted: Kept, filled: Kept, drops: Kept, spent: nat, truncated: bool, budget: nat)
    requires Conserved(sorted, filled, [], drops) && NoneFits(drops, spent, budget)
    requires spent == Spent(filled) <= budget && Count(filled) > 0 && (truncated <==> Count(drops) > 0)
    ensures Splits(sorted, filled, drops) && Allocation(sorted, filled, drops, spent, truncated, budget)
    ensures SomeFits(sorted, budget)
  {
    ConservedSplits(sorted, filled, drops);
    var s := if |filled.facts| > 0 then 0 else if |filled.know| > 0 then 1 else 2;
    var x := Section(filled, s)[0];
    TokenIn(Section(filled, s), x);
    assert IsIn(filled, x);
    hide Splits;
    hide Conserved;
  }

  lemma RescueIsBest(sorted: Kept, drops: Kept, s: nat, best: Item, budget: nat)
    requires s <= 2 && best in Section(sorted, s) && Splits(sorted, Kept([], [], []), drops)
    requires forall x | IsIn(sorted, x) :: best.score >= x.score
    requires !SomeFits(sorted, budget)
    ensures Allocation(sorted, Push(Kept([], [], []), s, best), Without(drops, s, best), best.tokens, true, budget)
  {
    var none := Kept([], [], []);
    var kept := Push(none, s, best);
    assert best in Section(kept, s) && IsIn(kept, best) && IsIn(sorted, best);
    PushSpent(none, s, best);
    RescueSplits(sorted, drops, s, best);
    hide SomeFits;
    hide Splits;
    hide Without;
  }

  lemma RescueSplits(sorted: Kept, drops: Kept, s: nat, best: Item)
    requires s <= 2 && best in Section(sorted, s) && Splits(sorted, Kept([], [], []), drops)
    ensures Splits(sorted, Push(Kept([], [], []), s, best), Without(drops, s, best))
  {
    var none := Kept([], [], []);
    assert forall t | 0 <= t <= 2 :: Section(none, t) == [];
    assert multiset(Section(none, s)) + multiset(Section(drops, s)) == multiset(Section(sorted, s));
    assert best in multiset(Section(sorted, s));
    RemoveFirstCount(Section(drops, s), best);
    hide RemoveFirst;
    var kept, rest := Push(none, s, best), Without(drops, s, best);
    forall t | 0 <= t <= 2
      ensures multiset(Section(kept, t)) + multiset(Section(rest, t)) == multiset(Section(sorted, t))
    {
      assert multiset(Section(none, t)) + multiset(Section(drops, t)) == multiset(Section(sorted, t));
      if t == s {
        assert Section(kept, t) == [best] && Section(rest, t) == RemoveFirst(Section(drops, s), best);
      } else {
        assert Section(kept, t) == [] && Section(rest, t) == Section(drops, t);
      }
    }
  }

  lemma SmallItemsFit(input: Kept, floor: nat, budget: nat)
    requires Count(input) > 0 && SmallItems(input, floor) && 6 * floor <= budget
    ensures SomeFits(input, budget)
  {
    var s := if |input.facts| > 0 then 0 else if |input.know| > 0 then 1 else 2;
    var x := Section(input, s)[0];
    assert IsIn(input, x);
  }

  lemma OneFloorMet(section: seq<Item>, start: seq<Item>, filled: seq<Item>, drops: seq<Item>, floor: nat)
    requires FloorPrefix(StableSort(section, BestFirst), start, floor) && start <= filled
    requires multiset(filled) + multiset(drops) == multiset(section)
    ensures FloorMet(section, filled, floor)
  {
    var sorted := StableSort(section, BestFirst);
    StableSortPermutes(section, BestFirst);
    assert filled == start + filled[|start|..];
    assert multiset(start) <= multiset(filled);
    assert start == sorted[..|start|];
    if start == sorted {
      assert multiset(filled) == multiset(section);
    }
  }

  lemma FloorsMet(input: Kept, sorted: Kept, start: Kept, filled: Kept, drops: Kept, floor: nat)
    requires sorted == Sorted(input) && PrefixesMet(sorted, start, floor) && Extends(start, filled)
    requires Splits(sorted, filled, drops)
    ensures AllFloorsMet(input, filled, floor)
  {
    SortedFacts(input);
    assert forall s | 0 <= s <= 2 ::
      multiset(Section(filled, s)) + multiset(Section(drops, s)) == multiset(Section(input, s));
    assert Section(filled, 0) == filled.facts && Section(filled, 1) == filled.know
      && Section(filled, 2) == filled.events;
    hide FloorMet;
    hide FloorPrefix;
    hide StableSort;
    OneFloorMet(input.facts, start.facts, filled.facts, drops.facts, floor);
    OneFloorMet(input.know, start.know, filled.know, drops.know, floor);
    OneFloorMet(input.events, start.events, filled.events, drops.events, floor);
  }

  lemma FloorsTransfer(input: Kept, filled: Kept, kept: Kept, floor: nat)
    requires AllFloorsMet(input, filled, floor) && kept == Sorted(filled)
    ensures AllFloorsMet(input, kept, floor)
  {
    SortedFacts(filled);
    assert multiset(Section(kept, 0)) == multiset(Section(filled, 0));
    assert multiset(Section(kept, 1)) == multiset(Section(filled, 1));
    assert multiset(Section(kept, 2)) == multiset(Section(filled, 2));
    hide StableSort;
    hide Tokens;
  }

  /** Sorting the input and the result changes none of the promises. */
  lemma Transfer(input: Kept, sorted: Kept, filled: Kept, kept: Kept, drops: Kept, spent: nat, truncated: bool,
                 budget: nat)
    requires sorted == Sorted(input) && kept == Sorted(filled)
    requires Allocation(sorted, filled, drops, spent, truncated, budget)
    ensures Allocation(input, kept, drops, spent, truncated, budget)
  {
    SortedFacts(input);
    SortedFacts(filled);
    hide Sorted;
    hide Spent;
    hide Count;
    hide NoneFits;
    assert SomeFits(sorted, budget) <==> SomeFits(input, budget);
    assert Splits(input, kept, drops);
    if OnlyTheBest(sorted, filled) {
      var best :| IsIn(filled, best) && IsIn(sorted, best) && forall x | IsIn(sorted, x) :: best.score >= x.score;
      assert IsIn(kept, best) && IsIn(input, best);
    }
  }

  lemma SortedFacts(k: Kept)
    ensures InScoreOrder(Sorted(k)) && Spent(Sorted(k)) == Spent(k) && Count(Sorted(k)) == Count(k)
    ensures forall s | 0 <= s <= 2 :: multiset(Section(Sorted(k), s)) == multiset(Section(k, s))
    ensures forall x :: IsIn(Sorted(k), x) <==> IsIn(k, x)
  {
    hide StableSort, Tokens;
    assert TotalPreorder(BestFirst);
    forall s | 0 <= s <= 2
      ensures SortedBy(Section(Sorted(k), s), BestFirst)
      ensures multiset(Section(Sorted(k), s)) == multiset(Section(k, s))
      ensures Tokens(Section(Sorted(k), s)) == Tokens(Section(k, s))
      ensures forall x :: x in Section(Sorted(k), s) <==> x in Section(k, s)
    {
      var sec := Section(k, s);
      StableSortSorted(sec, BestFirst);
      StableSortPermutes(sec, BestFirst);
      TokensSorted(sec);
      SameMembers(sec, StableSort(sec, BestFirst));
    }
    assert Section(k, 0) == k.facts && Section(k, 1) == k.know && Section(k, 2) == k.events;
  }

  /** The floor passes hand the pool exactly what they did not keep, in whatever order it is sorted. */
  lemma PoolReady(input: Kept, start: Kept, pool: seq<(nat, Item)>, f: seq<Item>, k: seq<Item>, e: seq<Item>)
    requires pool == Tag(f, 0) + Tag(k, 1) + Tag(e, 2)
    requires multiset(start.facts) + multiset(f) == multiset(input.facts)
    requires multiset(start.know) + multiset(k) == multiset(input.know)
    requires multiset(start.events) + multiset(e) == multiset(input.events)
    ensures Conserved(input, start, StableSort(pool, PoolBestFirst), Kept([], [], []))
    ensures SortedBy(StableSort(pool, PoolBestFirst), PoolBestFirst)
    ensures forall i | 0 <= i < |StableSort(pool, PoolBestFirst)| :: StableSort(pool, PoolBestFirst)[i].0 <= 2
  {
    var sorted := StableSort(pool, PoolBestFirst);
    StableSortPermutes(pool, PoolBestFirst);
    assert TotalPreorder(PoolBestFirst);
    StableSortSorted(pool, PoolBestFirst);
    hide StableSort;
    forall s | 0 <= s <= 2
      ensures multiset(Untag(sorted, s)) == multiset(if s == 0 then f else if s == 1 then k else e)
    {
      UntagPermutes(pool, sorted, s);
      PoolSections(f, k, e, s);
    }
    SameMembers(pool, sorted);
    forall i | 0 <= i < |sorted| ensures sorted[i].0 <= 2 {
      assert sorted[i] in sorted;
    }
  }
}
