/**
 Splitting normalised markdown into (heading path, body) blocks: headings only
 move a stack, fenced lines are opaque, everything else is body text.
 */
module Markdown {
  import opened Options
  import opened Splitting
  import opened CharText

  /** An open fence: its character and length. */
  datatype Fence = Fence(mark: char, len: nat)
  datatype Heading = Heading(level: nat, title: string)

  // ----- line recognisers -----

  /** Leading spaces and tabs in columns, a tab counting four. */
  function Indent(line: string): nat {
    if line == "" then 0
    else if line[0] == ' ' then 1 + Indent(line[1..])
    else if line[0] == '\t' then 4 + Indent(line[1..])
    else 0
  }

  function RunLength(s: string, c: char): (n: nat)
    ensures n <= |s| && forall i | 0 <= i < n :: s[i] == c
    ensures n < |s| ==> s[n] != c
  {
    if s != "" && s[0] == c then
      var n := RunLength(s[1..], c);
      assert forall i | 0 < i <= n :: s[i] == s[1..][i - 1];
      1 + n
    else 0
  }

  function FenceOpen(line: string): Option<Fence> {
    var t := TrimStart(line);
    if Indent(line) >= 4 || t == "" || (t[0] != '`' && t[0] != '~') then None
    else
      var n := RunLength(t, t[0]);
      if n < 3 || (t[0] == '`' && '`' in t[n..]) then None else Some(Fence(t[0], n))
  }

  predicate FenceClose(line: string, open: Fence) {
    var t := TrimStart(line);
    var n := RunLength(t, open.mark);
    Indent(line) < 4 && n >= open.len && Blank(t[n..])
  }

  function MdHeading(line: string): Option<Heading> {
    var t := TrimStart(line);
    var n := RunLength(t, '#');
    if Indent(line) >= 4 || n == 0 || n > 6 || n == |t| || (t[n] != ' ' && t[n] != '\t') then None
    else Some(Heading(n, Trim(t[n..])))
  }

  // ----- what the lines mean -----

  /** The fence open before line `i`, if any. */
  function FenceAt(lines: seq<string>, i: nat): Option<Fence>
    requires i <= |lines|
  {
    if i == 0 then None
    else match FenceAt(lines, i - 1)
      case Some(open) => if FenceClose(lines[i - 1], open) then None else Some(open)
      case None => FenceOpen(lines[i - 1])
  }

  /** Line `i` is a heading: outside any fence, opening none, and in heading form. */
  predicate IsHeading(lines: seq<string>, i: nat)
    requires i < |lines|
  {
    FenceAt(lines, i).None? && FenceOpen(lines[i]).None? && MdHeading(lines[i]).Some?
  }

  function HeadingAt(lines: seq<string>, i: nat): Heading
    requires i < |lines| && IsHeading(lines, i)
  {
    MdHeading(lines[i]).value
  }

  /** Heading `j` governs position `i`: no later heading before `i` is of its level or above. */
  ghost predicate Governs(lines: seq<string>, j: nat, i: nat)
    requires i <= |lines|
  {
    && j < i && IsHeading(lines, j)
    && forall m | j < m < i && IsHeading(lines, m) :: HeadingAt(lines, m).level > HeadingAt(lines, j).level
  }

  function TitlesOf(stack: seq<Heading>): seq<string> {
    seq(|stack|, k requires 0 <= k < |stack| => stack[k].title)
  }

  /** Nothing before the first heading; afterwards the titles on the stack, joined. */
  function PathOf(stack: seq<Heading>): Option<string> {
    if stack == [] then None else Some(Join(TitlesOf(stack), " > "))
  }

  function Pop(stack: seq<Heading>, level: nat): seq<Heading> {
    if stack != [] && stack[|stack| - 1].level >= level then Pop(stack[..|stack| - 1], level) else stack
  }

  // ----- the sections -----

  /** Lines `[start, end)` under one heading path. */
  datatype Span = Span(stack: seq<Heading>, start: nat, end: nat)

  function BodyText(lines: seq<string>, start: nat, end: nat): string
    requires start <= end <= |lines|
  {
    if start == end then ""
    else
      var before := BodyText(lines, start, end - 1);
      if before == "" then lines[end - 1] else before + "\n" + lines[end - 1]
  }

  /** Closed sections with a body, and the section that is open before line `n`. */
  datatype Scan = Scan(closed: seq<Span>, open: Span)

  predicate InText(lines: seq<string>, s: Span) {
    s.start <= s.end <= |lines|
  }

  function SpanBody(lines: seq<string>, s: Span): string {
    if InText(lines, s) then BodyText(lines, s.start, s.end) else ""
  }

  function Close(lines: seq<string>, scan: Scan): seq<Span> {
    if Trim(SpanBody(lines, scan.open)) == "" then scan.closed else scan.closed + [scan.open]
  }

  function ScanUpTo(lines: seq<string>, n: nat): (s: Scan)
    requires n <= |lines|
    ensures s.open.start <= s.open.end == n
  {
    if n == 0 then Scan([], Span([], 0, 0))
    else
      var s := ScanUpTo(lines, n - 1);
      if IsHeading(lines, n - 1) then
        var h := HeadingAt(lines, n - 1);
        Scan(Close(lines, s), Span(Pop(s.open.stack, h.level) + [h], n, n))
      else
        Scan(s.closed, s.open.(end := n))
  }

  function Sections(lines: seq<string>): seq<Span> {
    Close(lines, ScanUpTo(lines, |lines|))
  }

  function BlockOf(lines: seq<string>, s: Span): Block {
    Block(PathOf(s.stack), SpanBody(lines, s))
  }

  function Render(lines: seq<string>, spans: seq<Span>): seq<Block> {
    seq(|spans|, i requires 0 <= i < |spans| => BlockOf(lines, spans[i]))
  }

  lemma RenderSnoc(lines: seq<string>, spans: seq<Span>, s: Span)
    ensures Render(lines, spans + [s]) == Render(lines, spans) + [BlockOf(lines, s)]
  {
  }

  // ----- the code's loop -----

  method PopDeeper(stack: seq<Heading>, level: nat) returns (r: seq<Heading>)
    ensures r == Pop(stack, level)
  {
    r := stack;
    while r != [] && r[|r| - 1].level >= level
      invariant Pop(r, level) == Pop(stack, level)
      decreases |r|
    {
      r := r[..|r| - 1];
    }
  }

  lemma EmptyPath()
    ensures PathOf([]) == None
  {
  }

  lemma SomePath(stack: seq<Heading>)
    requires stack != []
    ensures PathOf(stack) == Some(Join(TitlesOf(stack), " > "))
  {
  }
}
