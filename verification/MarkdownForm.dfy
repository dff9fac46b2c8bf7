/** The line recognisers, told by the characters of the line. */
module MarkdownForm {
  import opened Options
  import opened CharText
  import opened Markdown

  /** At most three spaces and no tab, then only other white space up to the first visible character at `b`. */
  ghost predicate Lead(line: string, a: nat, b: nat) {
    && a <= 3 && a <= b <= |line|
    && (forall i | 0 <= i < a :: line[i] == ' ')
    && (a < |line| ==> line[a] != ' ' && line[a] != '\t')
    && (forall i | a <= i < b :: IsWhitespace(line[i]))
    && (b < |line| ==> !IsWhitespace(line[b]))
  }

  lemma {:induction false} IndentIs(line: string) returns (a: nat)
    ensures a <= |line| && (forall i | 0 <= i < a :: line[i] == ' ') && (a < |line| ==> line[a] != ' ')
    ensures Indent(line) < 4 <==> a <= 3 && (a < |line| ==> line[a] != '\t')
    ensures Indent(line) >= a
  {
    a := 0;
    if line != "" && line[0] == ' ' {
      var rest := IndentIs(line[1..]);
      assert forall i | 0 < i < |line| :: line[i] == line[1..][i - 1];
      a := 1 + rest;
      ThreeSpaces(line[1..], rest);
    }
  }

  /** Past its leading spaces a line is indented by nothing or by a tab at least. */
  lemma {:induction false} ThreeSpaces(line: string, a: nat)
    requires a <= |line| && (forall i | 0 <= i < a :: line[i] == ' ') && (a < |line| ==> line[a] != ' ')
    ensures Indent(line) == a || (a < |line| && line[a] == '\t' && Indent(line) >= a + 4)
    ensures a < |line| && line[a] == '\t' ==> Indent(line) >= a + 4
  {
    if a > 0 {
      ThreeSpaces(line[1..], a - 1);
    }
  }

  lemma {:induction false} TrimStartIs(line: string) returns (b: nat)
    ensures b <= |line| && TrimStart(line) == line[b..]
    ensures forall i | 0 <= i < b :: IsWhitespace(line[i])
    ensures b < |line| ==> !IsWhitespace(line[b])
  {
    b := 0;
    if line != "" && IsWhitespace(line[0]) {
      b := TrimStartIs(line[1..]);
      b := b + 1;
    }
  }

  /** A line indented less than four columns has one lead, and what follows it is the trimmed line. */
  lemma LeadOf(line: string) returns (a: nat, b: nat)
    ensures b <= |line| && TrimStart(line) == line[b..]
    ensures Indent(line) < 4 ==> Lead(line, a, b)
    ensures forall x: nat, y: nat | Lead(line, x, y) :: Indent(line) < 4 && TrimStart(line) == line[y..]
  {
    a := IndentIs(line);
    b := TrimStartIs(line);
    hide Indent;
    hide TrimStart;
    assert IsWhitespace(' ') && IsWhitespace('\t');
    forall x: nat, y: nat | Lead(line, x, y) ensures x == a && y == b {
      assert x < |line| ==> line[x] != ' ';
      assert a < |line| ==> line[a] != ' ';
      assert y < |line| ==> !IsWhitespace(line[y]);
      assert b < |line| ==> !IsWhitespace(line[b]);
    }
  }

  // ----- headings -----

  ghost predicate HeadingFrom(line: string, a: nat, b: nat, h: Heading) {
    && Lead(line, a, b) && 1 <= h.level <= 6 && b + h.level < |line|
    && (forall i | b <= i < b + h.level :: line[i] == '#')
    && (line[b + h.level] == ' ' || line[b + h.level] == '\t')
    && h.title == Trim(line[b + h.level..])
  }

  /**
   A line is a heading of level `n` exactly when, less than four columns in, it
   has `n` number signs, one to six, and then a space or tab; its title is the rest, trimmed.
   */
  lemma HeadingForm(line: string, h: Heading)
    ensures MdHeading(line) == Some(h) <==> exists a: nat, b: nat :: HeadingFrom(line, a, b, h)
  {
    hide *;
    if MdHeading(line) == Some(h) {
      var a, b := HeadingHasForm(line, h);
    }
    if a: nat, b: nat :| HeadingFrom(line, a, b, h) {
      FormIsHeading(line, a, b, h);
    }
  }

  lemma HeadingHasForm(line: string, h: Heading) returns (a: nat, b: nat)
    requires MdHeading(line) == Some(h)
    ensures HeadingFrom(line, a, b, h)
  {
    a, b := LeadOf(line);
    var t := TrimStart(line);
    hide TrimStart, Trim, Indent, Lead;
    var n := RunLength(t, '#');
    hide RunLength;
    assert line[b..][n..] == line[b + n..];
    assert forall i | b <= i < b + n :: line[i] == t[i - b];
  }

  lemma FormIsHeading(line: string, a: nat, b: nat, h: Heading)
    requires HeadingFrom(line, a, b, h)
    ensures MdHeading(line) == Some(h)
  {
    var x, y := LeadOf(line);
    var t := TrimStart(line);
    hide TrimStart, Trim, Indent, Lead;
    var n := RunLength(t, '#');
    hide RunLength;
    assert line[b..][h.level..] == line[b + h.level..];
    assert forall i | 0 <= i < h.level :: t[i] == line[b + i];
    assert t[h.level] == line[b + h.level];
    assert n == h.level;
  }

  // ----- fences -----

  ghost predicate FenceFrom(line: string, a: nat, b: nat, f: Fence) {
    && Lead(line, a, b) && (f.mark == '`' || f.mark == '~') && 3 <= f.len && b + f.len <= |line|
    && (forall i | b <= i < b + f.len :: line[i] == f.mark)
    && (b + f.len < |line| ==> line[b + f.len] != f.mark)
    && (f.mark == '`' ==> forall i | b + f.len <= i < |line| :: line[i] != '`')
  }

  /**
   A line opens a fence exactly when, less than four columns in, it has three or
   more backticks or tildes and, after backticks, no backtick.
   */
  lemma FenceForm(line: string, f: Fence)
    ensures FenceOpen(line) == Some(f) <==> exists a: nat, b: nat :: FenceFrom(line, a, b, f)
  {
    hide *;
    if FenceOpen(line) == Some(f) {
      var a, b := FenceHasForm(line, f);
    }
    if a: nat, b: nat :| FenceFrom(line, a, b, f) {
      FormIsFence(line, a, b, f);
    }
  }

  lemma FenceHasForm(line: string, f: Fence) returns (a: nat, b: nat)
    requires FenceOpen(line) == Some(f)
    ensures FenceFrom(line, a, b, f)
  {
    a, b := LeadOf(line);
    var t := TrimStart(line);
    hide TrimStart, Indent, Lead;
    var n := RunLength(t, f.mark);
    hide RunLength;
    assert forall i | b <= i < |line| :: line[i] == t[i - b];
    assert forall i | b + f.len <= i < |line| :: line[i] == t[f.len..][i - b - f.len];
  }

  lemma FormIsFence(line: string, a: nat, b: nat, f: Fence)
    requires FenceFrom(line, a, b, f)
    ensures FenceOpen(line) == Some(f)
  {
    var x, y := LeadOf(line);
    var t := TrimStart(line);
    hide TrimStart, Indent, Lead;
    var n := RunLength(t, f.mark);
    hide RunLength;
    assert forall i | 0 <= i < |t| :: t[i] == line[b + i];
    assert t[0] == f.mark;
    assert n == f.len;
    assert forall i | 0 <= i < |t[n..]| :: t[n..][i] == line[b + n + i];
  }

  ghost predicate CloseFrom(line: string, a: nat, b: nat, n: nat, open: Fence) {
    && Lead(line, a, b) && open.len <= n && b + n <= |line|
    && (forall i | b <= i < b + n :: line[i] == open.mark)
    && (forall i | b + n <= i < |line| :: IsWhitespace(line[i]))
  }

  /**
   A line closes a fence exactly when, less than four columns in, it is at least
   as many of the fence's marks as opened it and then only white space.
   */
  lemma CloseForm(line: string, open: Fence)
    ensures FenceClose(line, open) <==> exists a: nat, b: nat, n: nat :: CloseFrom(line, a, b, n, open)
  {
    hide *;
    if FenceClose(line, open) {
      var a, b, n := CloseHasForm(line, open);
    }
    if a: nat, b: nat, n: nat :| CloseFrom(line, a, b, n, open) {
      FormIsClose(line, a, b, n, open);
    }
  }

  lemma CloseHasForm(line: string, open: Fence) returns (a: nat, b: nat, n: nat)
    requires FenceClose(line, open)
    ensures CloseFrom(line, a, b, n, open)
  {
    a, b := LeadOf(line);
    n := RunLength(line[b..], open.mark);
    hide TrimStart, Indent, Lead, RunLength, IsWhitespace, Blank;
    TailOfLine(line, b, n, open.mark);
  }

  lemma TailOfLine(line: string, b: nat, n: nat, mark: char)
    requires b <= |line| && n <= |line[b..]| && Blank(line[b..][n..])
    requires forall i | 0 <= i < n :: line[b..][i] == mark
    ensures forall i | b <= i < b + n :: line[i] == mark
    ensures forall i | b + n <= i < |line| :: IsWhitespace(line[i])
  {
    hide IsWhitespace;
    forall i | b <= i < b + n ensures line[i] == mark {
      assert line[b..][i - b] == line[i];
    }
    forall i | b + n <= i < |line| ensures IsWhitespace(line[i]) {
      assert line[b..][n..][i - b - n] == line[i];
    }
  }

  lemma FormIsClose(line: string, a: nat, b: nat, n: nat, open: Fence)
    requires CloseFrom(line, a, b, n, open)
    ensures FenceClose(line, open)
  {
    var x, y := LeadOf(line);
    hide TrimStart, Indent, Lead, RunLength, IsWhitespace;
    TailIsBlank(line[b..], open.mark, n);
  }

  lemma TailIsBlank(t: string, mark: char, n: nat)
    requires n <= |t| && (forall i | 0 <= i < n :: t[i] == mark) && forall i | n <= i < |t| :: IsWhitespace(t[i])
    ensures RunLength(t, mark) >= n && Blank(t[RunLength(t, mark)..])
  {
    hide IsWhitespace, RunLength;
    var m := RunLength(t, mark);
    assert m < |t| ==> t[m] != mark;
    assert m >= n;
    assert forall i | 0 <= i < |t[m..]| :: t[m..][i] == t[m + i];
  }
}
