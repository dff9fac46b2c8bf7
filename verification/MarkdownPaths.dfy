/** The blocks of a markdown text, told by its lines and headings alone. */
module MarkdownPaths {
  import opened Options
  import opened Splitting
  import opened CharText
  import opened Markdown
  import opened MarkdownSpec

  /** Lines `[start, end)`. */
  datatype Run = Run(start: nat, end: nat)

  /** Everything between two headings, or between a heading and an end of the text. */
  ghost predicate TextRun(lines: seq<string>, r: Run) {
    && r.start <= r.end <= |lines|
    && (r.start > 0 ==> IsHeading(lines, r.start - 1))
    && (r.end < |lines| ==> IsHeading(lines, r.end))
    && (forall l | r.start <= l < r.end :: !IsHeading(lines, l))
  }

  /** The titles of the headings at `js`, in that order, joined. */
  ghost function Breadcrumb(lines: seq<string>, js: seq<nat>): string
    requires js != [] && AreHeadings(lines, js)
  {
    var last := |js| - 1;
    var title := HeadingAt(lines, js[last]).title;
    if last == 0 then title else Breadcrumb(lines, js[..last]) + " > " + title
  }

  /** `js` are the headings that govern line `l`, first to last. */
  ghost predicate GovernedBy(lines: seq<string>, l: nat, js: seq<nat>)
    requires l <= |lines|
  {
    && (forall a, b | 0 <= a < b < |js| :: js[a] < js[b])
    && (forall k | 0 <= k < |js| :: Governs(lines, js[k], l))
    && (forall j: nat | Governs(lines, j, l) :: j in js)
  }

  ghost predicate PathThrough(lines: seq<string>, l: nat, js: seq<nat>, path: Option<string>)
    requires l <= |lines|
  {
    && GovernedBy(lines, l, js)
    && path == if js == [] then None else Some(Breadcrumb(lines, js))
  }

  /** No path where no heading governs; otherwise the governing headings in document order. */
  ghost predicate StandsUnder(lines: seq<string>, l: nat, path: Option<string>)
    requires l <= |lines|
  {
    exists js: seq<nat> :: PathThrough(lines, l, js, path)
  }

  /** The lines of the run, joined, without the empty ones it starts with. */
  ghost predicate BodyFrom(lines: seq<string>, r: Run, from: nat, body: string)
    requires TextRun(lines, r)
  {
    && r.start <= from <= r.end
    && (forall l | r.start <= l < from :: lines[l] == "")
    && (from < r.end ==> lines[from] != "")
    && body == Join(lines[from..r.end], "\n")
  }

  ghost predicate IsBlock(lines: seq<string>, r: Run, block: Block) {
    && TextRun(lines, r) && !Blank(block.body)
    && (exists from: nat :: BodyFrom(lines, r, from, block.body))
    && (forall l: nat | r.start <= l < r.end :: StandsUnder(lines, l, block.path))
  }

  ghost predicate BlocksAt(lines: seq<string>, runs: seq<Run>, blocks: seq<Block>) {
    && |runs| == |blocks|
    && (forall k | 0 <= k < |blocks| :: IsBlock(lines, runs[k], blocks[k]))
    && (forall a, b | 0 <= a < b < |runs| :: runs[a].end <= runs[b].start)
    && (forall l: nat | IsBodyLine(lines, l) :: exists k | 0 <= k < |runs| :: runs[k].start <= l < runs[k].end)
  }

  /**
   One block for each stretch of text between headings that is not all blank, in
   order: its lines, under the titles of the headings that govern them.
   */
  ghost predicate AreBlocksOf(lines: seq<string>, blocks: seq<Block>) {
    exists runs: seq<Run> :: BlocksAt(lines, runs, blocks)
  }

  // ----- paths -----

  lemma {:induction false} GoverningIsAll(lines: seq<string>, m: nat, n: nat)
    requires m <= n <= |lines|
    ensures forall j: nat | j < m && Governs(lines, j, n) :: j in Governing(lines, m, n)
  {
    hide Governs;
    if m > 0 {
      GoverningIsAll(lines, m - 1, n);
    }
  }

  lemma GovernedByGoverning(lines: seq<string>, l: nat)
    requires l <= |lines|
    ensures GovernedBy(lines, l, Governing(lines, l, l))
  {
    GoverningIsAll(lines, l, l);
    GoverningMembers(lines, l, l);
    hide Governing;
    assert forall j: nat | Governs(lines, j, l) :: j < l;
    hide Governs;
  }

  lemma {:induction false} BreadcrumbIsJoined(lines: seq<string>, js: seq<nat>)
    requires js != [] && AreHeadings(lines, js)
    ensures Breadcrumb(lines, js) == Join(TitlesOf(HeadingsAt(lines, js)), " > ")
  {
    hide IsHeading, HeadingAt, Join;
    var last := |js| - 1;
    var title := HeadingAt(lines, js[last]).title;
    var titles := TitlesOf(HeadingsAt(lines, js));
    JoinStep([title], " > ");
    if last > 0 {
      BreadcrumbIsJoined(lines, js[..last]);
      assert titles == TitlesOf(HeadingsAt(lines, js[..last])) + [title];
      JoinAppend(TitlesOf(HeadingsAt(lines, js[..last])), [title], " > ");
    } else {
      assert titles == [title];
    }
  }

  lemma SectionStandsUnder(lines: seq<string>, k: nat, l: nat)
    requires k < |Sections(lines)| && l < |lines| && Covers(Sections(lines)[k], l)
    ensures StandsUnder(lines, l, PathOf(Sections(lines)[k].stack))
  {
    SectionPathIsGoverning(lines, k, l);
    var js := Governing(lines, l, l);
    hide Governing, Sections, IsHeading, HeadingAt, Governs;
    GovernedByGoverning(lines, l);
    hide GovernedBy;
    if js != [] {
      BreadcrumbIsJoined(lines, js);
    }
    hide Breadcrumb;
    assert PathThrough(lines, l, js, PathOf(Sections(lines)[k].stack));
  }

  // ----- runs -----

  function RunOf(s: Span): Run {
    Run(s.start, s.end)
  }

  ghost predicate OpensRun(lines: seq<string>, s: Span, n: nat) {
    && s.start <= s.end == n <= |lines|
    && (s.start > 0 ==> IsHeading(lines, s.start - 1))
    && (forall l | s.start <= l < n :: !IsHeading(lines, l))
  }

  /** A section runs from one heading to the next. */
  lemma {:induction false} ScanRuns(lines: seq<string>, n: nat)
    requires n <= |lines|
    ensures OpensRun(lines, ScanUpTo(lines, n).open, n)
    ensures forall k | 0 <= k < |ScanUpTo(lines, n).closed| :: TextRun(lines, RunOf(ScanUpTo(lines, n).closed[k]))
  {
    hide IsHeading, HeadingAt, Trim, SpanBody, Pop;
    if n > 0 {
      ScanRuns(lines, n - 1);
    }
  }

  lemma SectionsAreRuns(lines: seq<string>)
    ensures forall k | 0 <= k < |Sections(lines)| :: TextRun(lines, RunOf(Sections(lines)[k]))
  {
    ScanRuns(lines, |lines|);
    hide IsHeading, Trim, SpanBody, ScanUpTo;
  }

  lemma {:induction false} DropEmptyFrom(ls: seq<string>) returns (from: nat)
    ensures from <= |ls| && DropEmpty(ls) == ls[from..]
    ensures forall i | 0 <= i < from :: ls[i] == ""
    ensures from < |ls| ==> ls[from] != ""
  {
    from := 0;
    if ls != [] && ls[0] == "" {
      var n := DropEmptyFrom(ls[1..]);
      from := n + 1;
      assert forall i | 0 < i < |ls| :: ls[i] == ls[1..][i - 1];
    }
  }

  lemma SpanBodyFrom(lines: seq<string>, s: Span)
    requires TextRun(lines, RunOf(s))
    ensures exists from: nat :: BodyFrom(lines, RunOf(s), from, SpanBody(lines, s))
  {
    hide IsHeading, Join, BodyText;
    BodyIsItsLines(lines, s.start, s.end);
    var ls := lines[s.start..s.end];
    var n := DropEmptyFrom(ls);
    assert forall i | 0 <= i < |ls| :: ls[i] == lines[s.start + i];
    assert forall l | s.start <= l < s.start + n :: lines[l] == ls[l - s.start];
    assert ls[n..] == lines[s.start + n..s.end];
    assert BodyFrom(lines, RunOf(s), s.start + n, SpanBody(lines, s));
  }

  lemma SectionIsBlock(lines: seq<string>, k: nat)
    requires k < |Sections(lines)|
    ensures IsBlock(lines, RunOf(Sections(lines)[k]), BlockOf(lines, Sections(lines)[k]))
  {
    SectionsAreRuns(lines);
    SectionsPartitionTheBody(lines);
    var s := Sections(lines)[k];
    forall l: nat | s.start <= l < s.end ensures StandsUnder(lines, l, PathOf(s.stack)) {
      SectionStandsUnder(lines, k, l);
    }
    SpanBodyFrom(lines, s);
    hide Sections, StandsUnder, BodyFrom, TextRun, SpanBody, Blank, PathOf;
  }

  lemma SectionsStand(lines: seq<string>)
    ensures InOrder(Sections(lines))
    ensures forall l: nat | IsBodyLine(lines, l) :: Covered(Sections(lines), l)
  {
    SectionsPartitionTheBody(lines);
    hide InOrder, IsBodyLine, Covered, Sections, Uniform;
    assert forall l: nat | IsBodyLine(lines, l) :: l < |lines| by {
      forall l: nat | IsBodyLine(lines, l) ensures l < |lines| {
        BodyLineIsInside(lines, l);
      }
    }
  }

  lemma BodyLineIsInside(lines: seq<string>, l: nat)
    requires IsBodyLine(lines, l)
    ensures l < |lines|
  {
  }

  lemma CoveredByRun(spans: seq<Span>, runs: seq<Run>, l: nat)
    requires Covered(spans, l) && |runs| == |spans| && forall k | 0 <= k < |spans| :: runs[k] == RunOf(spans[k])
    ensures exists k | 0 <= k < |runs| :: runs[k].start <= l < runs[k].end
  {
    var k :| 0 <= k < |spans| && Covers(spans[k], l);
    assert runs[k] == RunOf(spans[k]);
  }

  lemma SectionsAreBlocks(lines: seq<string>)
    ensures AreBlocksOf(lines, Render(lines, Sections(lines)))
  {
    var spans := Sections(lines);
    var runs := seq(|spans|, k requires 0 <= k < |spans| => RunOf(spans[k]));
    SectionsStand(lines);
    hide Sections, IsBlock, IsBodyLine, Covered, BlockOf;
    forall k | 0 <= k < |spans| ensures IsBlock(lines, runs[k], Render(lines, spans)[k]) {
      SectionIsBlock(lines, k);
    }
    forall l: nat | IsBodyLine(lines, l) ensures exists k | 0 <= k < |runs| :: runs[k].start <= l < runs[k].end {
      CoveredByRun(spans, runs, l);
    }
    assert BlocksAt(lines, runs, Render(lines, spans));
  }

  // ----- the code's loop -----

  /** The splitter's blocks are exactly the sections, in order, each with its text under the headings above it. */
  method MarkdownBlocks(lines: seq<string>) returns (blocks: seq<Block>)
    ensures blocks == Render(lines, Sections(lines))
    ensures AreBlocksOf(lines, blocks)
  {
    hide Trim;
    hide FenceOpen;
    hide FenceClose;
    hide MdHeading;
    hide Pop;
    hide PathOf;
    blocks := [];
    var stack: seq<Heading> := [];
    var body := "";
    var bodyPath: Option<string> := None;
    var fence: Option<Fence> := None;
    EmptyPath();
    for n := 0 to |lines|
      invariant fence == FenceAt(lines, n)
      invariant var s := ScanUpTo(lines, n);
                && stack == s.open.stack && body == BodyText(lines, s.open.start, n)
                && bodyPath == PathOf(stack)
                && blocks == Render(lines, s.closed)
    {
      var line := lines[n];
      ghost var s := ScanUpTo(lines, n);
      if fence.Some? {
        if FenceClose(line, fence.value) {
          fence := None;
        }
        body := if body == "" then line else body + "\n" + line;
        continue;
      }
      var open := FenceOpen(line);
      if open.Some? {
        fence := open;
        body := if body == "" then line else body + "\n" + line;
        continue;
      }
      var heading := MdHeading(line);
      if heading.Some? {
        if Trim(body) != "" {
          RenderSnoc(lines, s.closed, s.open);
          blocks := blocks + [Block(bodyPath, body)];
        }
        body := "";
        stack := PopDeeper(stack, heading.value.level);
        stack := stack + [heading.value];
        bodyPath := Some(Join(TitlesOf(stack), " > "));
        SomePath(stack);
      } else {
        body := if body == "" then line else body + "\n" + line;
      }
    }
    if Trim(body) != "" {
      RenderSnoc(lines, ScanUpTo(lines, |lines|).closed, ScanUpTo(lines, |lines|).open);
      blocks := blocks + [Block(bodyPath, body)];
    }
    SectionsAreBlocks(lines);
  }
}
