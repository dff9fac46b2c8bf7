/** Sequence facts shared by every component: a stable sort and distinctness. */
module Sorting {

  ghost predicate TotalPreorder<T(!new)>(le: (T, T) -> bool) {
    && (forall x, y :: le(x, y) || le(y, x))
    && (forall x, y, z :: le(x, y) && le(y, z) ==> le(x, z))
  }

  ghost predicate SortedBy<T>(s: seq<T>, le: (T, T) -> bool) {
    forall i, j | 0 <= i < j < |s| :: le(s[i], s[j])
  }

  ghost predicate Distinct<T>(s: seq<T>) {
    forall i, j | 0 <= i < j < |s| :: s[i] != s[j]
  }

  /** `x` stood before all of `s`, so it also goes before its equals. */
  function Insert<T>(x: T, s: seq<T>, le: (T, T) -> bool): (r: seq<T>)
    ensures |r| == |s| + 1
  {
    if s == [] || le(x, s[0]) then [x] + s
    else [s[0]] + Insert(x, s[1..], le)
  }

  /** The standard library's stable `sort_by`. */
  function StableSort<T>(s: seq<T>, le: (T, T) -> bool): (r: seq<T>)
    ensures |r| == |s|
  {
    if s == [] then [] else Insert(s[0], StableSort(s[1..], le), le)
  }

  lemma InsertKeeps<T>(x: T, s: seq<T>, le: (T, T) -> bool)
    ensures multiset(Insert(x, s, le)) == multiset{x} + multiset(s)
  {
    if s != [] && !le(x, s[0]) {
      InsertKeeps(x, s[1..], le);
      assert s == [s[0]] + s[1..];
    }
  }

  /** Sorting is a rearrangement. */
  lemma StableSortPermutes<T>(s: seq<T>, le: (T, T) -> bool)
    ensures multiset(StableSort(s, le)) == multiset(s)
  {
    if s != [] {
      StableSortPermutes(s[1..], le);
      InsertKeeps(s[0], StableSort(s[1..], le), le);
      assert s == [s[0]] + s[1..];
    }
  }

  lemma InsertMembers<T>(x: T, s: seq<T>, le: (T, T) -> bool)
    ensures forall y | y in Insert(x, s, le) :: y == x || y in s
  {
  }

  lemma InsertSorted<T(!new)>(x: T, s: seq<T>, le: (T, T) -> bool)
    requires TotalPreorder(le) && SortedBy(s, le)
    ensures SortedBy(Insert(x, s, le), le)
  {
    if s != [] && !le(x, s[0]) {
      InsertSorted(x, s[1..], le);
      InsertMembers(x, s[1..], le);
      var r := Insert(x, s[1..], le);
      forall j | 0 <= j < |r| ensures le(s[0], r[j]) {
        assert r[j] in r;
      }
    }
  }

  lemma StableSortSorted<T(!new)>(s: seq<T>, le: (T, T) -> bool)
    requires TotalPreorder(le)
    ensures SortedBy(StableSort(s, le), le)
  {
    if s != [] {
      StableSortSorted(s[1..], le);
      InsertSorted(s[0], StableSort(s[1..], le), le);
    }
  }

  lemma DistinctCount<T>(s: seq<T>, x: T)
    requires Distinct(s)
    ensures multiset(s)[x] == if x in s then 1 else 0
  {
    if s != [] {
      assert s == [s[0]] + s[1..];
      DistinctCount(s[1..], x);
    }
  }

  lemma DistinctFromCounts<T>(s: seq<T>)
    requires forall x | x in s :: multiset(s)[x] <= 1
    ensures Distinct(s)
  {
    if s != [] {
      assert s == [s[0]] + s[1..];
      assert multiset(s) == multiset{s[0]} + multiset(s[1..]);
      forall y | y in s[1..] ensures multiset(s[1..])[y] <= 1 { assert y in s; }
      DistinctFromCounts(s[1..]);
      assert s[0] in s && multiset(s)[s[0]] <= 1;
      assert s[0] !in multiset(s[1..]);
    }
  }

  lemma PermutationDistinct<T>(s: seq<T>, t: seq<T>)
    requires multiset(s) == multiset(t) && Distinct(s)
    ensures Distinct(t)
  {
    forall x | x in t ensures multiset(t)[x] <= 1 { DistinctCount(s, x); }
    DistinctFromCounts(t);
  }

  /** Members of a rearrangement, seen from the rearranged side. */
  lemma SameMembers<T>(s: seq<T>, t: seq<T>)
    requires multiset(s) == multiset(t)
    ensures |s| == |t|
    ensures forall x | x in s :: x in t
    ensures forall x | x in t :: x in s
  {
    assert |multiset(s)| == |s| && |multiset(t)| == |t|;
    forall x | x in s ensures x in t { assert x in multiset(s); assert x in multiset(t); }
    forall x | x in t ensures x in s { assert x in multiset(t); assert x in multiset(s); }
  }

  lemma HeadIsLeast<T>(s: seq<T>, le: (T, T) -> bool, x: T)
    requires SortedBy(s, le) && x in s
    ensures x == s[0] || le(s[0], x)
  {
  }

  lemma TailMultiset<T>(s: seq<T>)
    requires s != []
    ensures multiset(s[1..]) == multiset(s) - multiset{s[0]}
  {
    assert s == [s[0]] + s[1..];
  }

  lemma MultisetWithout<T>(s: seq<T>, n: nat)
    requires n < |s|
    ensures multiset(s[..n] + s[n + 1..]) == multiset(s) - multiset{s[n]}
  {
    assert s == s[..n] + [s[n]] + s[n + 1..];
  }

  ghost predicate NoTies<T>(s: seq<T>, le: (T, T) -> bool) {
    forall i, j | 0 <= i < |s| && 0 <= j < |s| && le(s[i], s[j]) && le(s[j], s[i]) :: s[i] == s[j]
  }

  lemma SortedHeads<T>(s: seq<T>, t: seq<T>, le: (T, T) -> bool)
    requires s != [] && SortedBy(s, le) && SortedBy(t, le) && NoTies(s, le)
    requires multiset(s) == multiset(t)
    ensures t != [] && s[0] == t[0]
  {
    SameMembers(s, t);
    HeadIsLeast(s, le, t[0]);
    HeadIsLeast(t, le, s[0]);
  }

  lemma TailSorted<T>(s: seq<T>, le: (T, T) -> bool)
    requires s != [] && SortedBy(s, le)
    ensures SortedBy(s[1..], le)
    ensures NoTies(s, le) ==> NoTies(s[1..], le)
  {
  }

  /** Two sorted arrangements of the same elements, no two tied, are the same list. */
  lemma {:induction false} SortedUnique<T>(s: seq<T>, t: seq<T>, le: (T, T) -> bool)
    requires SortedBy(s, le) && SortedBy(t, le) && NoTies(s, le)
    requires multiset(s) == multiset(t)
    ensures s == t
  {
    hide *;
    if s == [] {
      assert |multiset(t)| == 0;
    } else {
      SortedHeads(s, t, le);
      TailSorted(s, le);
      TailSorted(t, le);
      assert multiset(s[1..]) == multiset(t[1..]) by {
        TailMultiset(s);
        TailMultiset(t);
      }
      SortedUnique(s[1..], t[1..], le);
      assert s == [s[0]] + s[1..] && t == [t[0]] + t[1..];
    }
  }

  function Members<T>(s: seq<T>): set<T> {
    set x | x in s
  }

  lemma MembersCard<T>(s: seq<T>)
    ensures |Members(s)| <= |s|
    ensures Distinct(s) ==> |Members(s)| == |s|
  {
    if s != [] {
      MembersCard(s[1..]);
      assert s == [s[0]] + s[1..];
      assert Members(s) == {s[0]} + Members(s[1..]);
    }
  }

  /** Pigeonhole: distinct elements all found in `t` are at most |t|. */
  lemma Pigeonhole<T>(s: seq<T>, t: seq<T>)
    requires Distinct(s)
    requires forall x | x in s :: x in t
    ensures |s| <= |t|
  {
    MembersCard(s);
    MembersCard(t);
    SubsetCard(Members(s), Members(t));
  }

  lemma SubsetCard<T>(a: set<T>, b: set<T>)
    requires a <= b
    ensures |a| <= |b|
  {
    if a != {} {
      var x :| x in a;
      SubsetCard(a - {x}, b - {x});
    }
  }

  /** Distinct lists with the same members are rearrangements of each other. */
  lemma SameSetSameMultiset<T>(s: seq<T>, t: seq<T>)
    requires Distinct(s) && Distinct(t)
    requires forall x | x in s :: x in t
    requires forall x | x in t :: x in s
    ensures multiset(s) == multiset(t)
  {
    forall x ensures multiset(s)[x] == multiset(t)[x] {
      DistinctCount(s, x);
      DistinctCount(t, x);
    }
  }

  function Filter<T>(s: seq<T>, keep: T -> bool): (r: seq<T>)
    ensures forall x | x in r :: x in s && keep(x)
    ensures forall x | x in s && keep(x) :: x in r
    ensures |r| <= |s|
  {
    if s == [] then []
    else if keep(s[0]) then [s[0]] + Filter(s[1..], keep)
    else Filter(s[1..], keep)
  }

  lemma FilterDistinct<T>(s: seq<T>, keep: T -> bool)
    requires Distinct(s)
    ensures Distinct(Filter(s, keep))
  {
    if s != [] {
      FilterDistinct(s[1..], keep);
    }
  }

  /** What is kept stays in order. */
  lemma {:induction false} FilterOrder<T>(s: seq<T>, keep: T -> bool, i: nat, j: nat) returns (p: nat, q: nat)
    requires i < j < |Filter(s, keep)|
    ensures p < q < |s| && s[p] == Filter(s, keep)[i] && s[q] == Filter(s, keep)[j]
  {
    if keep(s[0]) {
      if i == 0 {
        assert Filter(s, keep)[j] in s[1..];
        var k :| 0 <= k < |s| - 1 && s[1..][k] == Filter(s, keep)[j];
        p, q := 0, k + 1;
      } else {
        p, q := FilterOrder(s[1..], keep, i - 1, j - 1);
        p, q := p + 1, q + 1;
      }
    } else {
      p, q := FilterOrder(s[1..], keep, i, j);
      p, q := p + 1, q + 1;
    }
  }

  /** As often as before, or not at all. */
  lemma {:induction false} FilterCount<T>(s: seq<T>, keep: T -> bool, x: T)
    ensures multiset(Filter(s, keep))[x] == if keep(x) then multiset(s)[x] else 0
  {
    if s != [] {
      FilterCount(s[1..], keep, x);
      assert s == [s[0]] + s[1..];
    }
  }

  lemma FilterConcat<T>(s: seq<T>, t: seq<T>, keep: T -> bool)
    ensures Filter(s + t, keep) == Filter(s, keep) + Filter(t, keep)
  {
    if s == [] {
      assert s + t == t;
    } else {
      assert (s + t)[1..] == s[1..] + t;
      FilterConcat(s[1..], t, keep);
    }
  }

  /** Items kept together stay in their order among the kept. */
  lemma {:induction false} FilterPlaces<T>(s: seq<T>, keep: T -> bool, i: nat, j: nat) returns (p: nat, q: nat)
    requires i < j < |s| && keep(s[i]) && keep(s[j])
    ensures p < q < |Filter(s, keep)| && Filter(s, keep)[p] == s[i] && Filter(s, keep)[q] == s[j]
  {
    if i > 0 {
      p, q := FilterPlaces(s[1..], keep, i - 1, j - 1);
      if keep(s[0]) { p, q := p + 1, q + 1; }
    } else {
      assert s[1..][j - 1] in Filter(s[1..], keep);
      var k :| 0 <= k < |Filter(s[1..], keep)| && Filter(s[1..], keep)[k] == s[j];
      p, q := 0, k + 1;
    }
  }

  // ----- stability -----

  function Tied<T>(le: (T, T) -> bool, x: T): T -> bool {
    (y: T) => le(x, y) && le(y, x)
  }

  lemma FilterCons<T>(x: T, s: seq<T>, keep: T -> bool)
    ensures Filter([x] + s, keep) == (if keep(x) then [x] else []) + Filter(s, keep)
  {
    assert ([x] + s)[1..] == s;
  }

  lemma {:induction false} InsertStable<T(!new)>(y: T, s: seq<T>, le: (T, T) -> bool, x: T)
    requires TotalPreorder(le)
    ensures Filter(Insert(y, s, le), Tied(le, x)) == Filter([y] + s, Tied(le, x))
  {
    if s != [] && !le(y, s[0]) {
      InsertStable(y, s[1..], le, x);
      FilterCons(s[0], Insert(y, s[1..], le), Tied(le, x));
      FilterCons(y, s[1..], Tied(le, x));
      FilterCons(y, s, Tied(le, x));
      FilterCons(s[0], s[1..], Tied(le, x));
      assert s == [s[0]] + s[1..];
      hide Filter, Insert;
      NotBothTied(y, s[0], le, x);
    }
  }

  lemma NotBothTied<T(!new)>(a: T, b: T, le: (T, T) -> bool, x: T)
    requires TotalPreorder(le) && !le(a, b)
    ensures !(Tied(le, x)(a) && Tied(le, x)(b))
  {
  }

  /** Sorting leaves the elements tied with any given one in their order. */
  lemma {:induction false} SortIsStable<T(!new)>(s: seq<T>, le: (T, T) -> bool, x: T)
    requires TotalPreorder(le)
    ensures Filter(StableSort(s, le), Tied(le, x)) == Filter(s, Tied(le, x))
  {
    if s != [] {
      SortIsStable(s[1..], le, x);
      InsertStable(s[0], StableSort(s[1..], le), le, x);
      FilterCons(s[0], StableSort(s[1..], le), Tied(le, x));
      FilterCons(s[0], s[1..], Tied(le, x));
      assert s == [s[0]] + s[1..];
    }
  }

  /** Of two tied elements the one sorted first stood first. */
  lemma TiesKeepOrder<T(!new)>(s: seq<T>, le: (T, T) -> bool, i: nat, j: nat) returns (p: nat, q: nat)
    requires TotalPreorder(le) && i < j < |s|
    requires le(StableSort(s, le)[i], StableSort(s, le)[j]) && le(StableSort(s, le)[j], StableSort(s, le)[i])
    ensures p < q < |s| && s[p] == StableSort(s, le)[i] && s[q] == StableSort(s, le)[j]
  {
    hide Filter, StableSort;
    var t := StableSort(s, le);
    SortIsStable(s, le, t[i]);
    p, q := FilterPlaces(t, Tied(le, t[i]), i, j);
    p, q := FilterOrder(s, Tied(le, t[i]), p, q);
  }

  ghost predicate SameTies<T(!new)>(a: seq<T>, b: seq<T>, le: (T, T) -> bool) {
    forall x :: Filter(a, Tied(le, x)) == Filter(b, Tied(le, x))
  }

  /** Sorted order and stability leave one possible result. */
  lemma {:induction false} StableUnique<T(!new)>(a: seq<T>, b: seq<T>, le: (T, T) -> bool)
    requires TotalPreorder(le) && SortedBy(a, le) && SortedBy(b, le) && SameTies(a, b, le)
    ensures a == b
  {
    hide Filter, SameTies;
    TiedMembers(a, b, le);
    if a != [] {
      SameHead(a, b, le);
      assert a == [a[0]] + a[1..] && b == [a[0]] + b[1..];
      SameTails(a[0], a[1..], b[1..], le);
      StableUnique(a[1..], b[1..], le);
    }
  }

  /** The sort is the one sorted list that keeps every group of ties in its order. */
  lemma SortIsTheStableOne<T(!new)>(s: seq<T>, le: (T, T) -> bool, t: seq<T>)
    requires TotalPreorder(le)
    ensures SortedBy(t, le) && SameTies(s, t, le) <==> t == StableSort(s, le)
  {
    hide Filter, StableSort, SameTies;
    StableSortSorted(s, le);
    SortKeepsTies(s, le);
    if SortedBy(t, le) && SameTies(s, t, le) {
      TiesChain(StableSort(s, le), s, t, le);
      StableUnique(StableSort(s, le), t, le);
    }
  }

  lemma SortKeepsTies<T(!new)>(s: seq<T>, le: (T, T) -> bool)
    requires TotalPreorder(le)
    ensures SameTies(s, StableSort(s, le), le) && SameTies(StableSort(s, le), s, le)
  {
    hide Filter, StableSort;
    forall x { SortIsStable(s, le, x); }
  }

  lemma TiesChain<T(!new)>(a: seq<T>, b: seq<T>, c: seq<T>, le: (T, T) -> bool)
    requires SameTies(a, b, le) && SameTies(b, c, le)
    ensures SameTies(a, c, le)
  {
    hide Filter;
    forall x ensures Filter(a, Tied(le, x)) == Filter(c, Tied(le, x)) {
      assert Filter(a, Tied(le, x)) == Filter(b, Tied(le, x));
    }
  }

  lemma TiedMembers<T(!new)>(a: seq<T>, b: seq<T>, le: (T, T) -> bool)
    requires TotalPreorder(le) && SameTies(a, b, le)
    ensures forall x :: x in a <==> x in b
    ensures a == [] <==> b == []
  {
    forall x ensures x in a <==> x in b {
      assert x in a <==> x in Filter(a, Tied(le, x));
      assert x in b <==> x in Filter(b, Tied(le, x));
    }
    if a != [] { assert a[0] in b; }
    if b != [] { assert b[0] in a; }
  }

  lemma SameHead<T(!new)>(a: seq<T>, b: seq<T>, le: (T, T) -> bool)
    requires TotalPreorder(le) && SortedBy(a, le) && SortedBy(b, le) && SameTies(a, b, le) && a != [] && b != []
    ensures a[0] == b[0]
  {
    hide Filter;
    SortedHeadsTie(a, b, le);
    FilterCons(a[0], a[1..], Tied(le, a[0]));
    FilterCons(b[0], b[1..], Tied(le, a[0]));
    assert a == [a[0]] + a[1..] && b == [b[0]] + b[1..];
    assert Filter(a, Tied(le, a[0])) == Filter(b, Tied(le, a[0]));
    assert ([a[0]] + Filter(a[1..], Tied(le, a[0])))[0] == ([b[0]] + Filter(b[1..], Tied(le, a[0])))[0];
  }

  lemma SameTails<T(!new)>(x: T, a: seq<T>, b: seq<T>, le: (T, T) -> bool)
    requires SameTies([x] + a, [x] + b, le)
    ensures SameTies(a, b, le)
  {
    hide Filter;
    forall y ensures Filter(a, Tied(le, y)) == Filter(b, Tied(le, y)) {
      FilterCons(x, a, Tied(le, y));
      FilterCons(x, b, Tied(le, y));
      var head := if Tied(le, y)(x) then [x] else [];
      assert (head + Filter(a, Tied(le, y)))[|head|..] == Filter(a, Tied(le, y));
      assert (head + Filter(b, Tied(le, y)))[|head|..] == Filter(b, Tied(le, y));
      assert Filter([x] + a, Tied(le, y)) == Filter([x] + b, Tied(le, y));
    }
  }

  lemma SortedHeadsTie<T(!new)>(a: seq<T>, b: seq<T>, le: (T, T) -> bool)
    requires TotalPreorder(le) && SortedBy(a, le) && SortedBy(b, le) && a != [] && b != []
    requires SameTies(a, b, le)
    ensures le(a[0], b[0]) && le(b[0], a[0])
  {
    hide Filter;
    assert a[0] in Filter(a, Tied(le, a[0])) && a[0] in b;
    assert b[0] in Filter(b, Tied(le, b[0])) && b[0] in a;
    HeadIsLeast(a, le, b[0]);
    HeadIsLeast(b, le, a[0]);
  }

  function Flatten<T>(ss: seq<seq<T>>): seq<T> {
    if ss == [] then [] else ss[0] + Flatten(ss[1..])
  }
}
