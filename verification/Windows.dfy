/** Overlapping character windows, and the halving search for a window that fits the embedder. */
module Windows {
  const TARGET_CHARS: nat := 800
  const OVERLAP_CHARS: nat := 200
  const MIN_CHARS: nat := 64

  function Least(a: nat, b: nat): nat {
    if a <= b then a else b
  }

  function Overlap(window: nat): (o: nat)
    ensures window >= 1 ==> o < window
  {
    Least(OVERLAP_CHARS, window / 4)
  }

  /** Windows of `s` from `start` on, each `overlap` characters into the one before. */
  function WindowsFrom(s: string, start: nat, window: nat, step: nat): seq<string>
    requires step >= 1
    decreases |s| - start
  {
    if start >= |s| then []
    else
      var end := Least(start + window, |s|);
      if end == |s| then [s[start..end]]
      else [s[start..end]] + WindowsFrom(s, start + step, window, step)
  }

  function Step(window: nat): (n: nat)
    ensures n >= 1
  {
    if window - Overlap(window) < 1 then 1 else window - Overlap(window)
  }

  function SplitOnWindow(s: string, window: nat): seq<string> {
    if |s| <= window then [s] else WindowsFrom(s, 0, window, Step(window))
  }

  /** The window from `start`, which does or does not reach the end of the text. */
  ghost predicate IsWindow(s: string, start: nat, piece: string, window: nat) {
    start < |s| && piece == s[start..if start + window < |s| then start + window else |s|]
  }

  ghost predicate Steps(starts: seq<nat>, step: nat) {
    forall k, l | 0 <= k < |starts| && 0 <= l < |starts| && l == k + 1 :: starts[l] == starts[k] + step
  }

  /** Windows from `starts[0]` on, each `step` characters past the one before; only the last reaches the end. */
  ghost predicate WindowsAt(s: string, starts: seq<nat>, pieces: seq<string>, window: nat, step: nat) {
    && |starts| == |pieces| > 0 && Steps(starts, step)
    && (forall k | 0 <= k < |pieces| :: IsWindow(s, starts[k], pieces[k], window))
    && (forall k | 0 <= k < |starts| - 1 :: starts[k] + window < |s|)
  }

  /**
   Each window starts where the one before it ends, less an overlap of 200
   characters or a quarter window, and the first to reach the end of the text is the last.
   */
  ghost predicate WindowsFromZero(s: string, starts: seq<nat>, pieces: seq<string>, window: nat) {
    var overlap := if window / 4 < 200 then window / 4 else 200;
    && WindowsAt(s, starts, pieces, window, if overlap < window then window - overlap else 1)
    && starts[0] == 0
    && (window > 0 ==> starts[|starts| - 1] + window >= |s|)
  }

  /** A text that fits is one piece, any other is cut into windows. */
  ghost predicate AreWindows(s: string, pieces: seq<string>, window: nat) {
    if |s| <= window then pieces == [s] else exists starts: seq<nat> :: WindowsFromZero(s, starts, pieces, window)
  }

  lemma {:induction false} WindowsFromAt(s: string, start: nat, window: nat, step: nat) returns (starts: seq<nat>)
    requires step >= 1 && start < |s| && (window == 0 || step <= window)
    ensures WindowsAt(s, starts, WindowsFrom(s, start, window, step), window, step) && starts[0] == start
    ensures window > 0 ==> starts[|starts| - 1] + window >= |s|
    decreases |s| - start
  {
    hide WindowsFrom, Steps, IsWindow;
    OneMoreWindow(s, start, window, step);
    IsFirstWindow(s, start, window);
    OneStep(start, [], step);
    NoWindows(s, start + step, window, step);
    starts := [start];
    assert [start] + [] == starts;
    var end := Least(start + window, |s|);
    assert [s[start..end]] + [] == [s[start..end]];
    if start + window < |s| && start + step < |s| {
      var rest := WindowsFromAt(s, start + step, window, step);
      OneStep(start, rest, step);
      starts := [start] + rest;
      OneMoreAt(s, start, s[start..end], rest, WindowsFrom(s, start + step, window, step), window, step);
    }
  }

  lemma IsFirstWindow(s: string, start: nat, window: nat)
    requires start < |s|
    ensures IsWindow(s, start, s[start..Least(start + window, |s|)], window)
  {
  }

  lemma OneMoreAt(s: string, start: nat, piece: string, starts: seq<nat>, pieces: seq<string>, window: nat, step: nat)
    requires WindowsAt(s, starts, pieces, window, step) && Steps([start] + starts, step)
    requires IsWindow(s, start, piece, window) && start + window < |s|
    ensures WindowsAt(s, [start] + starts, [piece] + pieces, window, step)
  {
    hide Steps, IsWindow;
    var all := [start] + starts;
    assert forall k | 0 < k < |all| :: all[k] == starts[k - 1];
  }

  lemma OneStep(start: nat, rest: seq<nat>, step: nat)
    requires Steps(rest, step) && (rest != [] ==> rest[0] == start + step)
    ensures Steps([start] + rest, step)
  {
  }

  lemma NoWindows(s: string, start: nat, window: nat, step: nat)
    requires step >= 1
    ensures start >= |s| ==> WindowsFrom(s, start, window, step) == []
    ensures Steps([], step)
  {
  }

  lemma SplitIsWindows(s: string, window: nat)
    ensures AreWindows(s, SplitOnWindow(s, window), window)
  {
    hide WindowsFrom;
    if |s| > window {
      var starts := WindowsFromAt(s, 0, window, Step(window));
      assert WindowsFromZero(s, starts, SplitOnWindow(s, window), window);
    }
  }

  /** The loop shared by the character splitter, the block slider and the code slider. */
  method SplitOnCharWindow(s: string, window: nat) returns (out: seq<string>)
    ensures out == SplitOnWindow(s, window)
  {
    if |s| <= window {
      return [s];
    }
    var step := Step(window);
    out := [];
    var start := 0;
    ghost var all := WindowsFrom(s, 0, window, step);
    while start < |s|
      invariant out + WindowsFrom(s, start, window, step) == all
      decreases |s| - start
    {
      hide WindowsFrom;
      OneMoreWindow(s, start, window, step);
      var end := Least(start + window, |s|);
      out := out + [s[start..end]];
      if end == |s| {
        break;
      }
      start := start + step;
    }
  }

  lemma OneMoreWindow(s: string, start: nat, window: nat, step: nat)
    requires step >= 1 && start < |s|
    ensures var end := Least(start + window, |s|);
            WindowsFrom(s, start, window, step) ==
            [s[start..end]] + if end == |s| then [] else WindowsFrom(s, start + step, window, step)
  {
  }

  // ----- nothing is lost -----

  function Concat(pieces: seq<string>): string {
    if pieces == [] then "" else pieces[0] + Concat(pieces[1..])
  }

  /** Each piece without its first `n` characters. */
  function DropEach(pieces: seq<string>, n: nat): seq<string> {
    seq(|pieces|, i requires 0 <= i < |pieces| => if n <= |pieces[i]| then pieces[i][n..] else "")
  }

  function Rebuild(pieces: seq<string>, overlap: nat): string {
    if pieces == [] then "" else pieces[0] + Concat(DropEach(pieces[1..], overlap))
  }

  lemma DropEachCons(piece: string, rest: seq<string>, n: nat)
    requires n <= |piece|
    ensures Concat(DropEach([piece] + rest, n)) == piece[n..] + Concat(DropEach(rest, n))
  {
    assert ([piece] + rest)[1..] == rest;
    assert DropEach([piece] + rest, n)[1..] == DropEach(rest, n);
  }

  lemma DropEachOne(piece: string, n: nat)
    requires n <= |piece|
    ensures Concat(DropEach([piece], n)) == piece[n..]
  {
    DropEachCons(piece, [], n);
    assert [piece] + [] == [piece];
    assert DropEach([], n) == [];
  }

  /** Windows after the first, without their overlap, are the text from where the overlap ends. */
  lemma {:induction false} LaterWindowsRebuild(s: string, start: nat, window: nat, step: nat)
    requires 1 <= step <= window && start + (window - step) < |s|
    ensures Concat(DropEach(WindowsFrom(s, start, window, step), window - step)) == s[start + (window - step)..]
    decreases |s| - start
  {
    hide Concat;
    hide DropEach;
    var overlap := window - step;
    var end := Least(start + window, |s|);
    var piece := s[start..end];
    assert piece[overlap..] == s[start + overlap..end];
    if end == |s| {
      DropEachOne(piece, overlap);
    } else {
      LaterWindowsRebuild(s, start + step, window, step);
      DropEachCons(piece, WindowsFrom(s, start + step, window, step), overlap);
      assert s[start + overlap..] == s[start + overlap..end] + s[end..];
    }
  }

  /** Dropping the overlap from every later piece gives the text back, for any window of at least one character. */
  lemma SplitIsLossless(s: string, window: nat)
    requires window >= 1
    ensures Rebuild(SplitOnWindow(s, window), Overlap(window)) == s
  {
    hide Concat, DropEach, WindowsFrom;
    if |s| > window {
      var step := Step(window);
      OneMoreWindow(s, 0, window, step);
      LaterWindowsRebuild(s, step, window, step);
      assert s == s[..window] + s[window..];
    } else {
      NothingDropped(s, Overlap(window));
    }
  }

  lemma NothingDropped(s: string, n: nat)
    ensures Concat(DropEach([s][1..], n)) == ""
  {
    assert [s][1..] == [];
  }

  lemma {:induction false} WindowSizes(s: string, start: nat, window: nat, step: nat)
    requires step >= 1
    ensures forall i | 0 <= i < |WindowsFrom(s, start, window, step)| ::
              |WindowsFrom(s, start, window, step)[i]| <= window
    ensures forall i | 0 <= i < |WindowsFrom(s, start, window, step)| - 1 ::
              |WindowsFrom(s, start, window, step)[i]| == window
    decreases |s| - start
  {
    if start < |s| && start + window < |s| {
      WindowSizes(s, start + step, window, step);
    }
  }

  /** No piece is longer than the window, and all but the last fill it. */
  lemma SplitSizes(s: string, window: nat)
    ensures var ps := SplitOnWindow(s, window);
            && (forall i | 0 <= i < |ps| :: |ps[i]| <= window)
            && (forall i | 0 <= i < |ps| - 1 :: |ps[i]| == window)
  {
    WindowSizes(s, 0, window, Step(window));
  }

  /** A window of zero characters cuts any text into empty pieces, so the bound above is exact. */
  lemma LosslessWindows(s: string, window: nat)
    ensures Rebuild(SplitOnWindow(s, window), Overlap(window)) == s <==> window >= 1 || s == ""
  {
    if window >= 1 {
      SplitIsLossless(s, window);
    } else {
      SplitSizes(s, 0);
      var ps := SplitOnWindow(s, 0);
      NothingInEmptyPieces(ps[1..]);
    }
  }

  lemma {:induction false} NothingInEmptyPieces(ps: seq<string>)
    requires forall i | 0 <= i < |ps| :: ps[i] == ""
    ensures Concat(DropEach(ps, 0)) == ""
  {
    if ps != [] {
      NothingInEmptyPieces(ps[1..]);
      assert DropEach(ps, 0)[1..] == DropEach(ps[1..], 0);
    }
  }

  // ----- the embedder's ceiling -----

  predicate AllFit(pieces: seq<string>, fits: string -> bool) {
    forall i | 0 <= i < |pieces| :: fits(pieces[i])
  }

  function Halved(n: nat, times: nat): nat {
    if times == 0 then n else Halved(n / 2, times - 1)
  }

  /**
   The first window among `maxChars`, `maxChars / 2`, ... whose pieces all fit
   wins; when the next one would fall under 64 characters the text is cut at 64.
   */
  method EnforceLimit(text: string, fits: string -> bool, maxChars: nat) returns (out: seq<string>)
    ensures fits(text) ==> out == [text]
    ensures !fits(text) ==> exists k: nat ::
              && (forall j | 0 <= j < k :: exists p | p in SplitOnWindow(text, Halved(maxChars, j)) :: !fits(p))
              && if forall p | p in SplitOnWindow(text, Halved(maxChars, k)) :: fits(p)
                 then (k == 0 || Halved(maxChars, k) >= 64) && out == SplitOnWindow(text, Halved(maxChars, k))
                 else Halved(maxChars, k) / 2 < 64 && out == SplitOnWindow(text, 64)
    ensures (forall p | p in out :: fits(p)) || out == SplitOnWindow(text, 64)
    ensures (forall p | p in SplitOnWindow(text, 64) :: fits(p)) ==> forall p | p in out :: fits(p)
    ensures maxChars >= 1 ==> exists w: nat | w >= 1 :: Rebuild(out, Overlap(w)) == text
  {
    if fits(text) {
      SplitIsLossless(text, |text| + 1);
      return [text];
    }
    var window := maxChars;
    ghost var k: nat := 0;
    HalvedNever(maxChars);
    hide SplitOnWindow, Rebuild, Halved, Overlap;
    while true
      invariant window == Halved(maxChars, k)
      invariant k == 0 || window >= MIN_CHARS
      invariant forall j | 0 <= j < k :: exists p | p in SplitOnWindow(text, Halved(maxChars, j)) :: !fits(p)
      decreases window
    {
      var pieces := SplitOnCharWindow(text, window);
      if AllFit(pieces, fits) {
        if window >= 1 {
          SplitIsLossless(text, window);
        }
        return pieces;
      }
      if window / 2 < MIN_CHARS {
        out := SplitOnCharWindow(text, MIN_CHARS);
        SplitIsLossless(text, MIN_CHARS);
        return out;
      }
      HalvedOnce(maxChars, k);
      window := window / 2;
      k := k + 1;
    }
  }

  lemma HalvedNever(n: nat)
    ensures Halved(n, 0) == n
  {
  }

  lemma HalvedOnce(n: nat, k: nat)
    ensures Halved(n, k + 1) == Halved(n, k) / 2
  {
    if k > 0 {
      HalvedOnce(n / 2, k - 1);
    }
  }
}
