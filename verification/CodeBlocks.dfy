/**
 Code chunking: top-level items are gathered into groups of at least 800 bytes,
 each spanning from the end of the group before it, so text between items rides
 with the item after it.
 */
module CodeBlocks {
  import opened Options
  import opened Sorting
  import opened CharText
  import opened Windows

  /** A top-level item: where it ends and the symbol it defines, if any. */
  datatype Item = Item(end: nat, symbol: Option<string>)
  datatype Chunk = Chunk(symbols: seq<string>, text: string)

  /** Items `first..last`, inclusive. */
  datatype Group = Group(first: nat, last: nat)

  /** What the parser promises: items in source order, inside the source. */
  ghost predicate Ordered(src: string, items: seq<Item>) {
    && (forall i, j | 0 <= i < j < |items| :: items[i].end <= items[j].end)
    && (forall i | 0 <= i < |items| :: items[i].end <= |src|)
  }

  function StartOf(items: seq<Item>, i: nat): nat
    requires i <= |items|
  {
    if i == 0 then 0 else items[i - 1].end
  }

  function SpanText(src: string, items: seq<Item>, g: Group): string {
    if g.first <= g.last < |items| && StartOf(items, g.first) <= items[g.last].end <= |src|
    then src[StartOf(items, g.first)..items[g.last].end] else ""
  }

  function SymbolsOf(items: seq<Item>, first: nat, end: nat): seq<string>
    requires first <= end <= |items|
  {
    if first == end then []
    else
      SymbolsOf(items, first, end - 1) +
      match items[end - 1].symbol { case Some(s) => [s] case None => [] }
  }

  /** Closed groups, and the first item of the open one. */
  datatype Scan = Scan(closed: seq<Group>, first: nat)

  predicate Full(src: string, items: seq<Item>, g: Group) {
    ByteLen(SpanText(src, items, g)) >= 800
  }

  predicate Closes(src: string, items: seq<Item>, first: nat, i: nat) {
    Full(src, items, Group(first, i)) || i + 1 == |items|
  }

  function ScanUpTo(src: string, items: seq<Item>, n: nat): (s: Scan)
    requires n <= |items|
    ensures s.first <= n
  {
    if n == 0 then Scan([], 0)
    else
      var s := ScanUpTo(src, items, n - 1);
      if Closes(src, items, s.first, n - 1) then Scan(s.closed + [Group(s.first, n - 1)], n) else s
  }

  function Chunks(texts: seq<string>, symbols: seq<string>): seq<Chunk> {
    seq(|texts|, i requires 0 <= i < |texts| => Chunk(symbols, texts[i]))
  }

  function GroupChunks(src: string, items: seq<Item>, g: Group): seq<Chunk> {
    var text := Trim(SpanText(src, items, g));
    if text == "" || !(g.first <= g.last < |items|) then []
    else Chunks(SplitOnWindow(text, 800), SymbolsOf(items, g.first, g.last + 1))
  }

  function AllChunks(src: string, items: seq<Item>, gs: seq<Group>): seq<Chunk> {
    if gs == [] then []
    else AllChunks(src, items, gs[..|gs| - 1]) + GroupChunks(src, items, gs[|gs| - 1])
  }

  /** Emit one group: nothing for blank text, else its windows, all under the group's symbols. */
  method EmitGroup(text: string, syms: seq<string>) returns (out: seq<Chunk>)
    ensures out == if text == "" then [] else Chunks(SplitOnWindow(text, 800), syms)
  {
    out := [];
    if text != "" {
      var windows := SplitOnCharWindow(text, TARGET_CHARS);
      hide SplitOnWindow;
      for k := 0 to |windows|
        invariant out == Chunks(windows, syms)[..k]
      {
        out := out + [Chunk(syms, windows[k])];
      }
    }
  }

  lemma AllChunksSnoc(src: string, items: seq<Item>, gs: seq<Group>, g: Group)
    ensures AllChunks(src, items, gs + [g]) == AllChunks(src, items, gs) + GroupChunks(src, items, g)
  {
    assert (gs + [g])[..|gs|] == gs;
  }

  lemma SpanIsSlice(src: string, items: seq<Item>, first: nat, i: nat)
    requires Ordered(src, items) && first <= i < |items|
    ensures StartOf(items, first) <= items[i].end <= |src|
    ensures SpanText(src, items, Group(first, i)) == src[StartOf(items, first)..items[i].end]
  {
  }

  method CodeBlocks(src: string, items: seq<Item>) returns (r: Option<seq<Chunk>>)
    requires Ordered(src, items)
    ensures r == var all := AllChunks(src, items, ScanUpTo(src, items, |items|).closed);
                 if all == [] then None else Some(all)
  {
    hide Trim;
    hide ByteLen;
    hide SplitOnWindow;
    hide AllChunks;
    hide SpanText;
    hide Chunks;
    NoGroups(src, items);
    if items == [] {
      return None;
    }
    var out: seq<Chunk> := [];
    var start := 0;
    var syms: seq<string> := [];
    for i := 0 to |items|
      invariant var s := ScanUpTo(src, items, i);
                && out == AllChunks(src, items, s.closed)
                && start == StartOf(items, s.first)
                && syms == SymbolsOf(items, s.first, i)
    {
      ghost var s := ScanUpTo(src, items, i);
      ghost var g := Group(s.first, i);
      if items[i].symbol.Some? {
        syms := syms + [items[i].symbol.value];
      }
      var end := items[i].end;
      SpanIsSlice(src, items, s.first, i);
      AllChunksSnoc(src, items, s.closed, g);
      if ByteLen(src[start..end]) >= TARGET_CHARS || i + 1 == |items| {
        var chunks := EmitGroup(Trim(src[start..end]), syms);
        assert Trim(src[start..end]) == Trim(SpanText(src, items, g));
        assert syms == SymbolsOf(items, g.first, g.last + 1);
        assert chunks == GroupChunks(src, items, g);
        assert Closes(src, items, s.first, i);
        out := out + chunks;
        start := end;
        syms := [];
      }
    }
    if out == [] {
      return None;
    }
    return Some(out);
  }

  lemma NoGroups(src: string, items: seq<Item>)
    ensures AllChunks(src, items, []) == []
  {
  }

  // ----- the groups tile the source -----

  ghost predicate Tiles(gs: seq<Group>, n: nat) {
    && (gs == [] <==> n == 0)
    && (gs != [] ==> gs[0].first == 0 && gs[|gs| - 1].last + 1 == n)
    && (forall k | 0 <= k < |gs| :: gs[k].first <= gs[k].last)
    && (forall k | 0 < k < |gs| :: gs[k].first == gs[k - 1].last + 1)
  }

  lemma TilesSnoc(gs: seq<Group>, g: Group)
    requires Tiles(gs, g.first) && g.first <= g.last
    ensures Tiles(gs + [g], g.last + 1)
  {
    var all := gs + [g];
    assert forall k | 0 <= k < |gs| :: all[k] == gs[k];
  }

  lemma {:induction false} ClosedTiles(src: string, items: seq<Item>, n: nat)
    requires n <= |items|
    ensures Tiles(ScanUpTo(src, items, n).closed, ScanUpTo(src, items, n).first)
    ensures n == |items| ==> ScanUpTo(src, items, n).first == n
  {
    hide Tiles, Full, Closes;
    if n == 0 {
      NothingTiles();
    } else {
      var s := ScanUpTo(src, items, n - 1);
      ClosedTiles(src, items, n - 1);
      TilesSnoc(s.closed, Group(s.first, n - 1));
      LastCloses(src, items, s.first);
    }
  }

  lemma NothingTiles()
    ensures Tiles([], 0)
  {
  }

  lemma LastCloses(src: string, items: seq<Item>, first: nat)
    requires items != []
    ensures Closes(src, items, first, |items| - 1)
  {
    hide Full;
  }

  /** No item from `first` to before `n` fills a group that starts at `first`. */
  ghost predicate ShortBefore(src: string, items: seq<Item>, first: nat, n: nat) {
    forall j: nat | first <= j < n :: ByteLen(SpanText(src, items, Group(first, j))) < 800
  }

  /** A group closes at the first item that fills it; only the last one may stay short. */
  ghost predicate ClosesAsSoonAsFull(src: string, items: seq<Item>, g: Group) {
    && ShortBefore(src, items, g.first, g.last)
    && (ByteLen(SpanText(src, items, g)) >= 800 || g.last + 1 == |items|)
  }

  lemma {:induction false} GroupsCloseAsSoonAsFull(src: string, items: seq<Item>, n: nat)
    requires n <= |items|
    ensures forall k | 0 <= k < |ScanUpTo(src, items, n).closed| ::
              ClosesAsSoonAsFull(src, items, ScanUpTo(src, items, n).closed[k])
    ensures ShortBefore(src, items, ScanUpTo(src, items, n).first, n)
  {
    hide ByteLen, SpanText;
    if n > 0 {
      GroupsCloseAsSoonAsFull(src, items, n - 1);
      var was := ScanUpTo(src, items, n - 1);
      if !Full(src, items, Group(was.first, n - 1)) {
        ShortOneMore(src, items, was.first, n - 1);
      }
      hide ShortBefore;
    }
  }

  lemma ShortOneMore(src: string, items: seq<Item>, first: nat, n: nat)
    requires ShortBefore(src, items, first, n) && first <= n && !Full(src, items, Group(first, n))
    ensures ShortBefore(src, items, first, n + 1)
  {
  }

  function SpanTexts(src: string, items: seq<Item>, gs: seq<Group>): string {
    if gs == [] then ""
    else SpanTexts(src, items, gs[..|gs| - 1]) + SpanText(src, items, gs[|gs| - 1])
  }

  function GroupSymbols(items: seq<Item>, gs: seq<Group>): seq<string> {
    if gs == [] then []
    else
      var g := gs[|gs| - 1];
      GroupSymbols(items, gs[..|gs| - 1])
      + if g.first <= g.last < |items| then SymbolsOf(items, g.first, g.last + 1) else []
  }

  lemma TilesFront(gs: seq<Group>, n: nat)
    requires Tiles(gs, n) && gs != []
    ensures Tiles(gs[..|gs| - 1], gs[|gs| - 1].first)
  {
    if |gs| > 1 {
      assert gs[|gs| - 1].first == gs[|gs| - 2].last + 1;
    }
  }

  lemma {:induction false} SymbolsSplit(items: seq<Item>, a: nat, b: nat, c: nat)
    requires a <= b <= c <= |items|
    ensures SymbolsOf(items, a, c) == SymbolsOf(items, a, b) + SymbolsOf(items, b, c)
  {
    if b < c {
      SymbolsSplit(items, a, b, c - 1);
    }
  }

  /** End to end the groups are the source up to the last item, and hold every symbol once, in order. */
  lemma {:induction false} TilesRebuild(src: string, items: seq<Item>, gs: seq<Group>, n: nat)
    requires Ordered(src, items) && n <= |items| && Tiles(gs, n)
    ensures SpanTexts(src, items, gs) == src[..StartOf(items, n)]
    ensures GroupSymbols(items, gs) == SymbolsOf(items, 0, n)
    decreases |gs|
  {
    hide Ordered, SpanText, SymbolsOf, StartOf, Tiles;
    LastGroup(gs, n);
    if gs == [] {
      StartIsZero(items);
    } else {
      var g := gs[|gs| - 1];
      TilesFront(gs, n);
      TilesRebuild(src, items, gs[..|gs| - 1], g.first);
      SymbolsSplit(items, 0, g.first, n);
      OneMoreSpan(src, items, g);
    }
  }

  lemma LastGroup(gs: seq<Group>, n: nat)
    requires Tiles(gs, n)
    ensures gs == [] ==> n == 0
    ensures gs != [] ==> gs[|gs| - 1].last + 1 == n && gs[|gs| - 1].first <= gs[|gs| - 1].last
  {
  }

  lemma StartIsZero(items: seq<Item>)
    ensures StartOf(items, 0) == 0 && SymbolsOf(items, 0, 0) == []
  {
  }

  lemma OneMoreSpan(src: string, items: seq<Item>, g: Group)
    requires Ordered(src, items) && g.first <= g.last < |items|
    ensures StartOf(items, g.first) <= StartOf(items, g.last + 1) <= |src|
    ensures src[..StartOf(items, g.last + 1)] == src[..StartOf(items, g.first)] + SpanText(src, items, g)
  {
    SpanIsSlice(src, items, g.first, g.last);
    assert StartOf(items, g.last + 1) == items[g.last].end;
  }

  lemma GroupsRebuildTheSource(src: string, items: seq<Item>)
    requires Ordered(src, items) && items != []
    ensures var gs := ScanUpTo(src, items, |items|).closed;
            && SpanTexts(src, items, gs) == src[..items[|items| - 1].end]
            && GroupSymbols(items, gs) == SymbolsOf(items, 0, |items|)
            && forall k | 0 <= k < |gs| :: ClosesAsSoonAsFull(src, items, gs[k])
  {
    ClosedTiles(src, items, |items|);
    GroupsCloseAsSoonAsFull(src, items, |items|);
    TilesRebuild(src, items, ScanUpTo(src, items, |items|).closed, |items|);
  }
}
