/** Query-time duplicate collapse: the first entry of each content key survives and carries the rest. */
module Collapse {
  import opened Options
  import opened Sorting

  /** The entries with key `k`, in order. */
  function KeyRun<T>(items: seq<T>, key: T -> Option<string>, k: string): seq<T> {
    if items == [] then []
    else
      var last := |items| - 1;
      if key(items[last]) == Some(k) then KeyRun(items[..last], key, k) + [items[last]]
      else KeyRun(items[..last], key, k)
  }

  /** Keyless entries, and the first entry of each key, in order. */
  function Firsts<T>(items: seq<T>, key: T -> Option<string>): seq<T> {
    if items == [] then []
    else
      var last := |items| - 1;
      match key(items[last])
      case None => Firsts(items[..last], key) + [items[last]]
      case Some(k) =>
        if KeyRun(items[..last], key, k) == [] then Firsts(items[..last], key) + [items[last]]
        else Firsts(items[..last], key)
  }

  function MapSeq<A, B>(s: seq<A>, f: A -> B): (r: seq<B>)
    ensures |r| == |s|
    ensures forall i | 0 <= i < |s| :: r[i] == f(s[i])
  {
    seq(|s|, i requires 0 <= i < |s| => f(s[i]))
  }

  lemma MapSnoc<A, B>(s: seq<A>, x: A, f: A -> B)
    ensures MapSeq(s + [x], f) == MapSeq(s, f) + [f(x)]
  {
  }

  /** What a survivor should carry: every later entry of its key, in order. */
  function Absorbed<T, C>(items: seq<T>, key: T -> Option<string>, asCopy: T -> C, x: T): seq<C> {
    match key(x)
    case None => []
    case Some(k) =>
      var run := KeyRun(items, key, k);
      if run == [] then [] else MapSeq(run[1..], asCopy)
  }

  ghost predicate Collapsed<T(!new), C>(items: seq<T>, key: T -> Option<string>, asCopy: T -> C,
                                        out: seq<(T, seq<C>)>) {
    && |out| == |Firsts(items, key)|
    && forall p | 0 <= p < |out| ::
         out[p].0 == Firsts(items, key)[p] && out[p].1 == Absorbed(items, key, asCopy, out[p].0)
  }

  /** Survivors have distinct keys, and each is the very first entry of its key. */
  lemma {:induction false} FirstsFacts<T>(items: seq<T>, key: T -> Option<string>)
    ensures forall x | x in Firsts(items, key) :: x in items
    ensures forall p, k | 0 <= p < |Firsts(items, key)| && key(Firsts(items, key)[p]) == Some(k) ::
              KeyRun(items, key, k) != [] && Firsts(items, key)[p] == KeyRun(items, key, k)[0]
    ensures forall p, q | 0 <= p < q < |Firsts(items, key)| && key(Firsts(items, key)[p]).Some? ::
              key(Firsts(items, key)[p]) != key(Firsts(items, key)[q])
  {
    if items != [] {
      FirstsFacts(items[..|items| - 1], key);
    }
  }

  /** Survivors keep their order: they are the entries with nothing of their key before them. */
  lemma {:induction false} FirstsAreInOrder<T(!new)>(items: seq<T>, key: T -> Option<string>, p: nat, q: nat)
    requires p < q < |Firsts(items, key)|
    ensures exists i, j | 0 <= i < j < |items| :: items[i] == Firsts(items, key)[p] && items[j] == Firsts(items, key)[q]
  {
    var last := |items| - 1;
    var before := items[..last];
    FirstsFacts(before, key);
    var firsts := Firsts(before, key);
    if q < |firsts| {
      FirstsAreInOrder(before, key, p, q);
      var i, j :| 0 <= i < j < |before| && before[i] == firsts[p] && before[j] == firsts[q];
      assert items[i] == firsts[p] && items[j] == firsts[q];
    } else {
      assert firsts[p] in before;
      var i :| 0 <= i < |before| && before[i] == firsts[p];
      assert items[i] == firsts[p] && items[last] == Firsts(items, key)[q];
    }
  }

  // ----- which entries these are -----

  ghost predicate Ascends(places: seq<nat>) {
    forall a, b | 0 <= a < b < |places| :: places[a] < places[b]
  }

  /** `found` is the entries at `places`, in list order. */
  ghost predicate StandAt<T>(items: seq<T>, places: seq<nat>, found: seq<T>) {
    && Ascends(places) && |places| == |found|
    && forall q | 0 <= q < |places| :: places[q] < |items| && found[q] == items[places[q]]
  }

  /** Nothing before entry `i` has its key. */
  ghost predicate IsFirst<T>(items: seq<T>, key: T -> Option<string>, i: nat)
    requires i < |items|
  {
    key(items[i]).Some? ==> forall j | 0 <= j < i :: key(items[j]) != key(items[i])
  }

  lemma StandMore<T>(items: seq<T>, places: seq<nat>, found: seq<T>, item: T)
    requires StandAt(items, places, found)
    ensures StandAt(items + [item], places, found)
    ensures StandAt(items + [item], places + [|items|], found + [item])
    ensures forall j :: j in places + [|items|] <==> j in places || j == |items|
    ensures forall j | j in places :: j < |items|
  {
  }

  lemma {:induction false} RunPlaces<T>(items: seq<T>, key: T -> Option<string>, k: string) returns (places: seq<nat>)
    ensures StandAt(items, places, KeyRun(items, key, k))
    ensures forall j: nat | j < |items| :: key(items[j]) == Some(k) <==> j in places
  {
    hide StandAt;
    places := [];
    if items == [] {
      NothingStands(items);
    } else {
      var last := |items| - 1;
      var before := items[..last];
      places := RunPlaces(before, key, k);
      StandMore(before, places, KeyRun(before, key, k), items[last]);
      assert items == before + [items[last]];
      if key(items[last]) == Some(k) {
        places := places + [last];
      }
    }
  }

  lemma NothingStands<T>(items: seq<T>)
    ensures StandAt(items, [], [])
  {
  }

  lemma EmptyStands<T>(items: seq<T>, places: seq<nat>, found: seq<T>)
    requires StandAt(items, places, found)
    ensures found == [] <==> places == []
  {
  }

  lemma FirstSnoc<T>(before: seq<T>, item: T, key: T -> Option<string>)
    ensures forall j: nat | j < |before| :: IsFirst(before, key, j) <==> IsFirst(before + [item], key, j)
    ensures IsFirst(before + [item], key, |before|) <==> key(item).None? || KeyRun(before, key, key(item).value) == []
  {
    hide KeyRun, StandAt;
    var items := before + [item];
    assert forall j | 0 <= j < |before| :: items[j] == before[j];
    if key(item).Some? {
      var run := RunPlaces(before, key, key(item).value);
      EmptyStands(before, run, KeyRun(before, key, key(item).value));
      StandsInside(before, run, KeyRun(before, key, key(item).value));
      if run != [] {
        assert run[0] in run;
        assert key(items[run[0]]) == key(items[|before|]);
      }
    }
  }

  lemma StandsInside<T>(items: seq<T>, places: seq<nat>, found: seq<T>)
    requires StandAt(items, places, found)
    ensures forall q | 0 <= q < |places| :: places[q] < |items|
  {
  }

  lemma {:induction false} FirstPlaces<T>(items: seq<T>, key: T -> Option<string>) returns (places: seq<nat>)
    ensures StandAt(items, places, Firsts(items, key))
    ensures forall j: nat | j < |items| :: IsFirst(items, key, j) <==> j in places
  {
    hide StandAt, IsFirst, KeyRun;
    places := [];
    if items == [] {
      NothingStands(items);
    } else {
      var last := |items| - 1;
      var before := items[..last];
      places := FirstPlaces(before, key);
      assert items == before + [items[last]];
      FirstsSnoc(before, items[last], key);
      FirstSnoc(before, items[last], key);
      StandMore(before, places, Firsts(before, key), items[last]);
      if IsFirst(items, key, last) {
        places := places + [last];
      }
    }
  }

  lemma KeyRunSnoc<T>(items: seq<T>, item: T, key: T -> Option<string>, k: string)
    ensures KeyRun(items + [item], key, k) ==
            if key(item) == Some(k) then KeyRun(items, key, k) + [item] else KeyRun(items, key, k)
  {
    assert (items + [item])[..|items|] == items;
  }

  lemma FirstsSnoc<T>(items: seq<T>, item: T, key: T -> Option<string>)
    ensures Firsts(items + [item], key) ==
            if key(item).Some? && KeyRun(items, key, key(item).value) != [] then Firsts(items, key)
            else Firsts(items, key) + [item]
  {
    assert (items + [item])[..|items|] == items;
  }

  /** One more entry of key `k` is one more copy for the survivor of `k` and for nobody else. */
  lemma AbsorbedSnoc<T, C>(items: seq<T>, item: T, key: T -> Option<string>, asCopy: T -> C, x: T)
    ensures Absorbed(items + [item], key, asCopy, x) ==
            if key(item).None? || key(x) != key(item) then Absorbed(items, key, asCopy, x)
            else if KeyRun(items, key, key(item).value) == [] then []
            else Absorbed(items, key, asCopy, x) + [asCopy(item)]
  {
    hide *;
    if key(x).Some? {
      KeyRunSnoc(items, item, key, key(x).value);
      AbsorbedUnfolds(items, key, asCopy, x, key(x).value);
      AbsorbedUnfolds(items + [item], key, asCopy, x, key(x).value);
      var run := KeyRun(items, key, key(x).value);
      if run != [] {
        assert (run + [item])[1..] == run[1..] + [item];
        MapSnoc(run[1..], item, asCopy);
      }
    } else {
      AbsorbedNone(items, key, asCopy, x);
      AbsorbedNone(items + [item], key, asCopy, x);
    }
  }

  lemma AbsorbedUnfolds<T, C>(items: seq<T>, key: T -> Option<string>, asCopy: T -> C, x: T, k: string)
    requires key(x) == Some(k)
    ensures Absorbed(items, key, asCopy, x) ==
            if KeyRun(items, key, k) == [] then [] else MapSeq(KeyRun(items, key, k)[1..], asCopy)
  {
  }

  lemma AbsorbedNone<T, C>(items: seq<T>, key: T -> Option<string>, asCopy: T -> C, x: T)
    requires key(x).None?
    ensures Absorbed(items, key, asCopy, x) == []
  {
  }

  lemma NewSurvivor<T(!new), C>(items: seq<T>, item: T, key: T -> Option<string>, asCopy: T -> C, out: seq<(T, seq<C>)>)
    requires Collapsed(items, key, asCopy, out)
    requires key(item).Some? ==> KeyRun(items, key, key(item).value) == []
    ensures Collapsed(items + [item], key, asCopy, out + [(item, [])])
  {
    hide KeyRun, Firsts, Absorbed, MapSeq;
    FirstsSnoc(items, item, key);
    FirstsFacts(items, key);
    AbsorbedSnoc(items, item, key, asCopy, item);
    if key(item).None? { AbsorbedNone(items, key, asCopy, item); }
    forall p | 0 <= p < |out| { AbsorbedSnoc(items, item, key, asCopy, out[p].0); }
  }

  lemma OneMoreCopy<T(!new), C>(items: seq<T>, item: T, key: T -> Option<string>, asCopy: T -> C,
                               out: seq<(T, seq<C>)>, pos: nat)
    requires Collapsed(items, key, asCopy, out)
    requires pos < |out| && key(item).Some? && key(out[pos].0) == key(item)
    ensures Collapsed(items + [item], key, asCopy, out[pos := (out[pos].0, out[pos].1 + [asCopy(item)])])
  {
    hide KeyRun, Firsts, Absorbed, MapSeq;
    FirstsFacts(items, key);
    FirstsSnoc(items, item, key);
    assert key(Firsts(items, key)[pos]) == Some(key(item).value);
    assert KeyRun(items, key, key(item).value) != [];
    forall p | 0 <= p < |out|
      ensures Absorbed(items + [item], key, asCopy, out[p].0) ==
              if p == pos then out[p].1 + [asCopy(item)] else out[p].1
    {
      AbsorbedSnoc(items, item, key, asCopy, out[p].0);
    }
  }

  // ----- nothing is lost -----

  /** Every copy the survivors carry. */
  function Copies<T, C>(out: seq<(T, seq<C>)>): seq<C> {
    if out == [] then [] else Copies(out[..|out| - 1]) + out[|out| - 1].1
  }

  function Survivors<T, C>(out: seq<(T, seq<C>)>): (r: seq<T>)
    ensures |r| == |out|
    ensures forall p | 0 <= p < |out| :: r[p] == out[p].0
  {
    seq(|out|, p requires 0 <= p < |out| => out[p].0)
  }

  lemma CopiesSnoc<T, C>(out: seq<(T, seq<C>)>, x: (T, seq<C>))
    ensures Copies(out + [x]) == Copies(out) + x.1
  {
    assert (out + [x])[..|out|] == out;
  }

  lemma {:induction false} CopiesGrow<T, C>(out: seq<(T, seq<C>)>, pos: nat, c: C)
    requires pos < |out|
    ensures multiset(Copies(out[pos := (out[pos].0, out[pos].1 + [c])])) == multiset(Copies(out)) + multiset{c}
  {
    hide Copies;
    var last := |out| - 1;
    var grown := out[pos := (out[pos].0, out[pos].1 + [c])];
    assert out == out[..last] + [out[last]] && grown == grown[..last] + [grown[last]];
    CopiesSnoc(out[..last], out[last]);
    CopiesSnoc(grown[..last], grown[last]);
    if pos < last {
      CopiesGrow(out[..last], pos, c);
      assert grown[..last] == out[..last][pos := (out[pos].0, out[pos].1 + [c])];
    } else {
      assert grown[..last] == out[..last];
    }
  }

  /** The candidates, each written as the copy it would be recorded as, are the survivors plus the recorded copies. */
  ghost predicate Conserves<T, C>(items: seq<T>, asCopy: T -> C, out: seq<(T, seq<C>)>) {
    multiset(MapSeq(items, asCopy)) == multiset(MapSeq(Survivors(out), asCopy)) + multiset(Copies(out))
  }

  lemma ConservesSurvivor<T, C>(items: seq<T>, item: T, asCopy: T -> C, out: seq<(T, seq<C>)>)
    requires Conserves(items, asCopy, out)
    ensures Conserves(items + [item], asCopy, out + [(item, [])])
  {
    hide MapSeq, Copies, Survivors;
    MapSnoc(items, item, asCopy);
    MapSnoc(Survivors(out), item, asCopy);
    assert Survivors(out + [(item, [])]) == Survivors(out) + [item];
    CopiesSnoc(out, (item, []));
  }

  lemma ConservesCopy<T, C>(items: seq<T>, item: T, asCopy: T -> C, out: seq<(T, seq<C>)>, pos: nat)
    requires Conserves(items, asCopy, out) && pos < |out|
    ensures Conserves(items + [item], asCopy, out[pos := (out[pos].0, out[pos].1 + [asCopy(item)])])
  {
    hide MapSeq, Copies, Survivors;
    var grown := out[pos := (out[pos].0, out[pos].1 + [asCopy(item)])];
    MapSnoc(items, item, asCopy);
    assert Survivors(grown) == Survivors(out);
    CopiesGrow(out, pos, asCopy(item));
  }

  method CollapseDuplicates<T(!new), C>(items: seq<T>, key: T -> Option<string>, asCopy: T -> C)
    returns (out: seq<(T, seq<C>)>)
    ensures Collapsed(items, key, asCopy, out)
    ensures Conserves(items, asCopy, out)
  {
    hide KeyRun, Firsts, Absorbed, Collapsed, Conserves;
    var survivorOf: map<string, nat> := map[];
    out := [];
    assert Collapsed(items[..0], key, asCopy, out) && Conserves(items[..0], asCopy, out) by {
      EmptyCollapsed(items, key, asCopy);
    }
    assert forall k :: KeyRun(items[..0], key, k) == [] by { EmptyRuns(items, key); }
    for n := 0 to |items|
      invariant Collapsed(items[..n], key, asCopy, out)
      invariant Conserves(items[..n], asCopy, out)
      invariant forall k | k in survivorOf :: survivorOf[k] < |out| && key(out[survivorOf[k]].0) == Some(k)
      invariant forall k :: k in survivorOf <==> KeyRun(items[..n], key, k) != []
    {
      var item := items[n];
      assert items[..n + 1] == items[..n] + [item];
      forall k { KeyRunSnoc(items[..n], item, key, k); }
      var k := key(item);
      if k.None? {
        NewSurvivor(items[..n], item, key, asCopy, out);
        ConservesSurvivor(items[..n], item, asCopy, out);
        out := out + [(item, [])];
      } else if k.value in survivorOf {
        var pos := survivorOf[k.value];
        OneMoreCopy(items[..n], item, key, asCopy, out, pos);
        ConservesCopy(items[..n], item, asCopy, out, pos);
        out := out[pos := (out[pos].0, out[pos].1 + [asCopy(item)])];
      } else {
        NewSurvivor(items[..n], item, key, asCopy, out);
        ConservesSurvivor(items[..n], item, asCopy, out);
        survivorOf := survivorOf[k.value := |out|];
        out := out + [(item, [])];
      }
    }
    assert items[..|items|] == items;
  }

  lemma EmptyRuns<T>(items: seq<T>, key: T -> Option<string>)
    ensures forall k :: KeyRun(items[..0], key, k) == []
  {
  }

  lemma EmptyCollapsed<T(!new), C>(items: seq<T>, key: T -> Option<string>, asCopy: T -> C)
    ensures Collapsed(items[..0], key, asCopy, []) && Conserves(items[..0], asCopy, [])
  {
  }
}
