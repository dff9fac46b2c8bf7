/** What the markdown sections mean, stated without the stack. */
module MarkdownSpec {
  import opened Options
  import opened Splitting
  import opened CharText
  import opened Markdown

  // ----- heading paths -----

  /** The headings among the first `m` lines that govern position `n`, in order. */
  ghost function Governing(lines: seq<string>, m: nat, n: nat): seq<nat>
    requires m <= n <= |lines|
  {
    if m == 0 then []
    else if Governs(lines, m - 1, n) then Governing(lines, m - 1, n) + [m - 1]
    else Governing(lines, m - 1, n)
  }

  ghost predicate AreHeadings(lines: seq<string>, js: seq<nat>) {
    forall k | 0 <= k < |js| :: js[k] < |lines| && IsHeading(lines, js[k])
  }

  ghost function HeadingsAt(lines: seq<string>, js: seq<nat>): seq<Heading>
    requires AreHeadings(lines, js)
  {
    seq(|js|, k requires 0 <= k < |js| => HeadingAt(lines, js[k]))
  }

  ghost predicate LevelsClimb(stack: seq<Heading>) {
    forall a, b | 0 <= a < b < |stack| :: stack[a].level < stack[b].level
  }

  lemma {:induction false} GoverningMembers(lines: seq<string>, m: nat, n: nat)
    requires m <= n <= |lines|
    ensures forall k | 0 <= k < |Governing(lines, m, n)| ::
              Governing(lines, m, n)[k] < m && Governs(lines, Governing(lines, m, n)[k], n)
    ensures forall a, b | 0 <= a < b < |Governing(lines, m, n)| :: Governing(lines, m, n)[a] < Governing(lines, m, n)[b]
  {
    hide Governs;
    if m > 0 {
      GoverningMembers(lines, m - 1, n);
    }
  }

  lemma GoverningFacts(lines: seq<string>, m: nat, n: nat)
    requires m <= n <= |lines|
    ensures AreHeadings(lines, Governing(lines, m, n))
    ensures LevelsClimb(HeadingsAt(lines, Governing(lines, m, n)))
  {
    hide IsHeading;
    hide HeadingAt;
    hide FenceAt;
    hide Governing;
    GoverningMembers(lines, m, n);
    var js := Governing(lines, m, n);
    forall a, b | 0 <= a < b < |js|
      ensures HeadingAt(lines, js[a]).level < HeadingAt(lines, js[b]).level
    {
      assert Governs(lines, js[a], n) && Governs(lines, js[b], n);
    }
  }

  /** A line that is no heading changes nothing. */
  lemma {:induction false} GoverningPlain(lines: seq<string>, m: nat, n: nat)
    requires m <= n < |lines| && !IsHeading(lines, n)
    ensures Governing(lines, m, n + 1) == Governing(lines, m, n)
  {
    hide IsHeading;
    hide HeadingAt;
    hide FenceAt;
    if m > 0 {
      GoverningPlain(lines, m - 1, n);
      assert Governs(lines, m - 1, n + 1) <==> Governs(lines, m - 1, n);
    }
  }

  lemma PopWhenSmaller(stack: seq<Heading>, level: nat)
    requires forall k | 0 <= k < |stack| :: stack[k].level < level
    ensures Pop(stack, level) == stack
  {
  }

  lemma HeadingsSnoc(lines: seq<string>, js: seq<nat>, j: nat)
    requires AreHeadings(lines, js) && j < |lines| && IsHeading(lines, j)
    ensures AreHeadings(lines, js + [j])
    ensures HeadingsAt(lines, js + [j]) == HeadingsAt(lines, js) + [HeadingAt(lines, j)]
  {
    hide IsHeading;
    hide HeadingAt;
  }

  /** Whether a heading still governs once a new heading has come. */
  lemma GovernsPastHeading(lines: seq<string>, j: nat, n: nat)
    requires j < n < |lines| && IsHeading(lines, n)
    ensures Governs(lines, j, n + 1) <==>
            Governs(lines, j, n) && HeadingAt(lines, j).level < HeadingAt(lines, n).level
  {
    hide IsHeading;
    hide HeadingAt;
  }

  /** Popping a climbing stack that ends in `h`. */
  lemma PopClimbing(stack: seq<Heading>, h: Heading, level: nat)
    requires LevelsClimb(stack + [h])
    ensures h.level < level ==> Pop(stack + [h], level) == stack + [h] && Pop(stack, level) == stack
    ensures h.level >= level ==> Pop(stack + [h], level) == Pop(stack, level)
  {
    var all := stack + [h];
    assert all[..|stack|] == stack;
    assert forall k | 0 <= k < |stack| :: all[k] == stack[k] && all[k].level < all[|stack|].level;
    if h.level < level {
      PopWhenSmaller(stack, level);
    }
  }

  /** A heading leaves, of the headings above it, those of smaller level: what popping leaves. */
  lemma {:induction false} GoverningHeading(lines: seq<string>, m: nat, n: nat)
    requires m <= n < |lines| && IsHeading(lines, n)
    ensures AreHeadings(lines, Governing(lines, m, n)) && AreHeadings(lines, Governing(lines, m, n + 1))
    ensures HeadingsAt(lines, Governing(lines, m, n + 1))
         == Pop(HeadingsAt(lines, Governing(lines, m, n)), HeadingAt(lines, n).level)
  {
    hide IsHeading;
    hide HeadingAt;
    hide FenceAt;
    hide Pop;
    hide LevelsClimb;
    GoverningFacts(lines, m, n);
    GoverningFacts(lines, m, n + 1);
    if m == 0 {
      PopNothing(HeadingAt(lines, n).level);
      assert HeadingsAt(lines, []) == [];
    } else {
      GoverningHeading(lines, m - 1, n);
      GovernsPastHeading(lines, m - 1, n);
      hide Governs;
      if Governs(lines, m - 1, n) {
        HeadingsSnoc(lines, Governing(lines, m - 1, n), m - 1);
        HeadingsSnoc(lines, Governing(lines, m - 1, n + 1), m - 1);
        PopClimbing(HeadingsAt(lines, Governing(lines, m - 1, n)), HeadingAt(lines, m - 1), HeadingAt(lines, n).level);
      }
    }
  }

  lemma PopNothing(level: nat)
    ensures Pop([], level) == []
  {
  }

  /** At every line the stack holds exactly the headings that govern it, levels climbing. */
  lemma {:induction false} StackIsGoverning(lines: seq<string>, n: nat)
    requires n <= |lines|
    ensures AreHeadings(lines, Governing(lines, n, n))
    ensures ScanUpTo(lines, n).open.stack == HeadingsAt(lines, Governing(lines, n, n))
    ensures LevelsClimb(ScanUpTo(lines, n).open.stack)
  {
    hide IsHeading;
    hide HeadingAt;
    hide FenceAt;
    GoverningFacts(lines, n, n);
    if n > 0 {
      StackIsGoverning(lines, n - 1);
      GoverningFacts(lines, n - 1, n);
      if IsHeading(lines, n - 1) {
        GoverningHeading(lines, n - 1, n - 1);
        var js := Governing(lines, n - 1, n);
        assert Governs(lines, n - 1, n);
        assert HeadingsAt(lines, js + [n - 1]) == HeadingsAt(lines, js) + [HeadingAt(lines, n - 1)];
      } else {
        GoverningPlain(lines, n - 1, n - 1);
      }
    }
  }

  /** Line `j` opened the fence and no line since has closed it. */
  ghost predicate OpenedBy(lines: seq<string>, j: nat, i: nat, open: Fence)
    requires i <= |lines|
  {
    && j < i && FenceAt(lines, j).None? && FenceOpen(lines[j]) == Some(open)
    && forall m | j < m < i :: !FenceClose(lines[m], open)
  }

  lemma {:induction false} OpenStays(lines: seq<string>, j: nat, i: nat, open: Fence)
    requires i <= |lines| && OpenedBy(lines, j, i, open)
    ensures FenceAt(lines, i) == Some(open)
  {
    hide FenceAt, FenceOpen, FenceClose;
    FenceStep(lines, i);
    if j < i - 1 {
      OpenStays(lines, j, i - 1, open);
    }
  }

  lemma {:induction false} OpenerOf(lines: seq<string>, i: nat) returns (j: nat)
    requires i <= |lines| && FenceAt(lines, i).Some?
    ensures OpenedBy(lines, j, i, FenceAt(lines, i).value)
  {
    hide FenceAt, FenceOpen, FenceClose;
    FenceStep(lines, i);
    if FenceAt(lines, i - 1).Some? {
      j := OpenerOf(lines, i - 1);
    } else {
      j := i - 1;
    }
  }

  lemma FenceStep(lines: seq<string>, i: nat)
    requires i <= |lines|
    ensures i == 0 ==> FenceAt(lines, i).None?
    ensures i > 0 ==> FenceAt(lines, i) == (match FenceAt(lines, i - 1)
                        case Some(open) => if FenceClose(lines[i - 1], open) then None else Some(open)
                        case None => FenceOpen(lines[i - 1]))
  {
  }

  /** A fence is open exactly from its opener to the first line that closes it, or to the end of the file. */
  lemma FenceRunsToItsClose(lines: seq<string>, i: nat, open: Fence)
    requires i <= |lines|
    ensures FenceAt(lines, i) == Some(open) <==> exists j: nat :: OpenedBy(lines, j, i, open)
  {
    hide FenceAt, FenceOpen, FenceClose, OpenedBy;
    FenceStep(lines, i);
    if FenceAt(lines, i) == Some(open) {
      var j := OpenerOf(lines, i);
    }
    if j: nat :| OpenedBy(lines, j, i, open) {
      OpenStays(lines, j, i, open);
    }
  }

  // ----- bodies -----

  function DropEmpty(ls: seq<string>): seq<string> {
    if ls != [] && ls[0] == "" then DropEmpty(ls[1..]) else ls
  }

  lemma {:induction false} DropEmptySnoc(ls: seq<string>, l: string)
    ensures DropEmpty(ls + [l]) == if DropEmpty(ls) != [] then DropEmpty(ls) + [l] else if l == "" then [] else [l]
  {
    if ls != [] && ls[0] == "" {
      assert (ls + [l])[1..] == ls[1..] + [l];
      DropEmptySnoc(ls[1..], l);
    } else if ls == [] {
      assert ls + [l] == [l] && [l][1..] == [];
    }
  }

  lemma JoinNonEmpty(ls: seq<string>)
    requires ls != [] && ls[0] != ""
    ensures Join(ls, "\n") != ""
  {
  }

  lemma {:induction false} DropEmptyHead(ls: seq<string>)
    ensures DropEmpty(ls) != [] ==> DropEmpty(ls)[0] != ""
  {
    if ls != [] && ls[0] == "" {
      DropEmptyHead(ls[1..]);
    }
  }

  /** A body is its lines joined, without the empty lines it would start with. */
  lemma {:induction false} BodyIsItsLines(lines: seq<string>, start: nat, end: nat)
    requires start <= end <= |lines|
    ensures BodyText(lines, start, end) == Join(DropEmpty(lines[start..end]), "\n")
    decreases end
  {
    if start < end {
      var ls, l := lines[start..end - 1], lines[end - 1];
      BodyIsItsLines(lines, start, end - 1);
      assert lines[start..end] == ls + [l];
      DropEmptySnoc(ls, l);
      DropEmptyHead(ls);
      var kept := DropEmpty(ls);
      if kept != [] {
        JoinNonEmpty(kept);
        JoinAppend(kept, [l], "\n");
      }
    } else {
      assert lines[start..end] == [];
    }
  }

  /** So splitting a non-empty body at newlines gives its lines back, unchanged and in order. */
  lemma BodyLinesComeBack(lines: seq<string>, start: nat, end: nat)
    requires start <= end <= |lines|
    requires forall i | 0 <= i < |lines| :: Lacks(lines[i], '\n')
    requires BodyText(lines, start, end) != ""
    ensures Split(BodyText(lines, start, end), '\n') == DropEmpty(lines[start..end])
  {
    BodyIsItsLines(lines, start, end);
    var kept := DropEmpty(lines[start..end]);
    DropEmptyKeeps(lines[start..end]);
    assert "\n" == ['\n'];
    forall k | 0 <= k < |kept| ensures Lacks(kept[k], '\n') {
      assert kept[k] in kept;
      assert kept[k] in lines;
    }
    SplitJoin(kept, '\n');
  }

  lemma {:induction false} DropEmptyKeeps(ls: seq<string>)
    ensures forall l | l in DropEmpty(ls) :: l in ls
    ensures forall l | l in ls && l != "" :: l in DropEmpty(ls)
  {
    if ls != [] && ls[0] == "" {
      DropEmptyKeeps(ls[1..]);
    }
  }

  lemma {:induction false} BlankBody(lines: seq<string>, start: nat, end: nat)
    requires start <= end <= |lines| && Blank(BodyText(lines, start, end))
    ensures forall l | start <= l < end :: Blank(lines[l])
    decreases end
  {
    if start < end {
      var before, line := BodyText(lines, start, end - 1), lines[end - 1];
      var body := BodyText(lines, start, end);
      if before != "" {
        assert forall i | 0 <= i < |before| :: body[i] == before[i];
        assert forall i | 0 <= i < |line| :: body[|before| + 1 + i] == line[i];
      }
      BlankBody(lines, start, end - 1);
    }
  }

  // ----- sections cover the text -----

  ghost predicate Covers(s: Span, l: nat) {
    s.start <= l < s.end
  }

  /** A section holds no heading, and its stack is the one in force at each of its lines. */
  ghost predicate Uniform(lines: seq<string>, s: Span) {
    && InText(lines, s)
    && (forall l | s.start <= l < s.end :: !IsHeading(lines, l) && ScanUpTo(lines, l).open.stack == s.stack)
  }

  ghost predicate InOrder(spans: seq<Span>) {
    forall a, b | 0 <= a < b < |spans| :: spans[a].end <= spans[b].start
  }

  /** Line `l` belongs to one of the spans. */
  ghost predicate Covered(spans: seq<Span>, l: nat) {
    exists k | 0 <= k < |spans| :: Covers(spans[k], l)
  }

  ghost predicate IsBodyLine(lines: seq<string>, l: nat) {
    l < |lines| && !IsHeading(lines, l) && !Blank(lines[l])
  }

  ghost predicate ScanOk(lines: seq<string>, n: nat, scan: Scan) {
    var all := scan.closed + [scan.open];
    && (forall k | 0 <= k < |all| :: Uniform(lines, all[k]))
    && InOrder(all) && scan.open.end == n
    && (forall l: nat | l < n && IsBodyLine(lines, l) :: Covered(all, l))
    && (forall k | 0 <= k < |scan.closed| ::
          !Blank(SpanBody(lines, scan.closed[k])))
  }

  ghost predicate SectionsOk(lines: seq<string>, n: nat, spans: seq<Span>) {
    && (forall k | 0 <= k < |spans| :: Uniform(lines, spans[k]) && spans[k].end <= n)
    && (forall k | 0 <= k < |spans| :: !Blank(SpanBody(lines, spans[k])))
    && InOrder(spans)
    && (forall l: nat | l < n && IsBodyLine(lines, l) :: Covered(spans, l))
  }

  lemma CoveredWithout(closed: seq<Span>, open: Span, l: nat)
    ensures Covered(closed + [open], l) <==> Covered(closed, l) || Covers(open, l)
  {
    var all := closed + [open];
    if Covered(all, l) && !Covers(open, l) {
      var k :| 0 <= k < |all| && Covers(all[k], l);
      assert closed[k] == all[k];
    }
    if Covered(closed, l) {
      var k :| 0 <= k < |closed| && Covers(closed[k], l);
      assert all[k] == closed[k];
    }
    if Covers(open, l) {
      assert all[|closed|] == open;
    }
  }

  lemma CloseOk(lines: seq<string>, n: nat, scan: Scan)
    requires n <= |lines| && ScanOk(lines, n, scan)
    ensures SectionsOk(lines, n, Close(lines, scan))
  {
    var all := scan.closed + [scan.open];
    assert all[|scan.closed|] == scan.open;
    assert forall k | 0 <= k < |scan.closed| :: all[k] == scan.closed[k];
    var body := SpanBody(lines, scan.open);
    TrimBlank(body);
    if Trim(body) == "" {
      BlankBody(lines, scan.open.start, scan.open.end);
      forall l: nat | l < n && IsBodyLine(lines, l) ensures Covered(scan.closed, l) {
        CoveredWithout(scan.closed, scan.open, l);
      }
    }
    hide Trim;
    hide IsHeading;
    hide ScanUpTo;
    hide BodyText;
  }

  lemma {:induction false} ScanIsOk(lines: seq<string>, n: nat)
    requires n <= |lines|
    ensures ScanOk(lines, n, ScanUpTo(lines, n))
  {
    hide ScanOk;
    hide IsHeading;
    hide HeadingAt;
    hide Close;
    var scan := ScanUpTo(lines, n);
    EmptyScanOk(lines);
    if n > 0 {
      var was := ScanUpTo(lines, n - 1);
      ScanIsOk(lines, n - 1);
      if IsHeading(lines, n - 1) {
        CloseOk(lines, n - 1, was);
        OpenNext(lines, n - 1, Close(lines, was), scan.open);
      } else {
        GrowOpen(lines, n - 1, was);
      }
    }
  }

  lemma EmptyScanOk(lines: seq<string>)
    ensures ScanOk(lines, 0, Scan([], Span([], 0, 0)))
  {
  }

  lemma OpenNext(lines: seq<string>, n: nat, closed: seq<Span>, open: Span)
    requires n < |lines| && SectionsOk(lines, n, closed) && IsHeading(lines, n)
    requires open.start == open.end == n + 1
    ensures ScanOk(lines, n + 1, Scan(closed, open))
  {
    hide IsHeading;
    hide ScanUpTo;
    hide BodyText;
    forall l: nat | l < n + 1 && IsBodyLine(lines, l) ensures Covered(closed + [open], l) {
      CoveredWithout(closed, open, l);
    }
  }

  lemma GrowOpen(lines: seq<string>, n: nat, was: Scan)
    requires n < |lines| && ScanOk(lines, n, was) && !IsHeading(lines, n) && was == ScanUpTo(lines, n)
    ensures ScanOk(lines, n + 1, was.(open := was.open.(end := n + 1)))
  {
    hide IsHeading, SpanBody, ScanUpTo, Uniform, Covered, IsBodyLine, Blank;
    var open := was.open.(end := n + 1);
    var before, all := was.closed + [was.open], was.closed + [open];
    assert before[|was.closed|] == was.open;
    assert forall k | 0 <= k < |was.closed| :: all[k] == was.closed[k] && before[k] == was.closed[k];
    GrowUniform(lines, n, was);
    forall l: nat | l < n + 1 && IsBodyLine(lines, l) ensures Covered(all, l) {
      CoveredWithout(was.closed, was.open, l);
      CoveredWithout(was.closed, open, l);
      assert l == n ==> Covers(open, l);
      assert Covers(was.open, l) ==> Covers(open, l);
    }
  }

  lemma GrowUniform(lines: seq<string>, n: nat, was: Scan)
    requires n < |lines| && !IsHeading(lines, n) && was == ScanUpTo(lines, n)
    requires Uniform(lines, was.open) && was.open.end == n
    ensures Uniform(lines, was.open.(end := n + 1))
  {
    hide IsHeading;
  }

  /**
   The sections are in order and disjoint, hold no heading and no all-blank body,
   carry the path in force at each of their lines, and miss no non-blank body line.
   */
  lemma SectionsPartitionTheBody(lines: seq<string>)
    ensures SectionsOk(lines, |lines|, Sections(lines))
  {
    ScanIsOk(lines, |lines|);
    CloseOk(lines, |lines|, ScanUpTo(lines, |lines|));
    hide ScanUpTo;
    hide SectionsOk;
    hide ScanOk;
  }

  /** Every non-blank line outside headings lies in exactly one section. */
  lemma ExactlyOneSection(lines: seq<string>, l: nat)
    requires IsBodyLine(lines, l)
    ensures exists k | 0 <= k < |Sections(lines)| :: Covers(Sections(lines)[k], l)
    ensures forall a, b | 0 <= a < |Sections(lines)| && 0 <= b < |Sections(lines)|
                       && Covers(Sections(lines)[a], l) && Covers(Sections(lines)[b], l) :: a == b
  {
    SectionsPartitionTheBody(lines);
    assert Covered(Sections(lines), l);
    hide IsHeading;
    hide Sections;
    hide ScanUpTo;
    hide BodyText;
  }

  /** And its block stands under exactly the headings that govern it. */
  lemma SectionPathIsGoverning(lines: seq<string>, k: nat, l: nat)
    requires k < |Sections(lines)| && l < |lines| && Covers(Sections(lines)[k], l)
    ensures AreHeadings(lines, Governing(lines, l, l))
    ensures Sections(lines)[k].stack == HeadingsAt(lines, Governing(lines, l, l))
    ensures LevelsClimb(Sections(lines)[k].stack)
  {
    SectionsPartitionTheBody(lines);
    assert Uniform(lines, Sections(lines)[k]);
    StackIsGoverning(lines, l);
    hide Sections;
    hide SectionsOk;
    hide Governing;
    hide IsHeading;
    hide ScanUpTo;
  }
}
