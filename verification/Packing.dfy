/**
 Packing a file's blocks into pieces of about 800 bytes: neighbours of one
 heading path are merged while they fit, an oversized block becomes windows, and
 a scrap may ride on the piece before it.
 */
module Packing {
  import opened Options
  import opened Sorting
  import opened Splitting
  import opened CharText
  import opened Windows

  /** Where a piece of text came from: a whole block, or one window of a block. */
  datatype Part = Whole(i: nat) | Window(i: nat, k: nat)

  datatype Piece = Piece(path: Option<string>, text: string, parts: seq<Part>)

  /** Pieces pushed so far and the piece being filled (`cur.text == ""` when there is none). */
  datatype Packed = Packed(out: seq<Piece>, cur: Piece)

  const GLUE: string := "\n\n"
  const NO_PIECE: Piece := Piece(None, "", [])

  function Glued(a: Piece, b: Piece): Piece {
    Piece(a.path, a.text + GLUE + b.text, a.parts + b.parts)
  }

  function PushPiece(out: seq<Piece>, p: Piece): seq<Piece> {
    if ByteLen(p.text) < MIN_CHARS && out != [] && out[|out| - 1].path == p.path
    then out[..|out| - 1] + [Glued(out[|out| - 1], p)]
    else out + [p]
  }

  function Flush(st: Packed): seq<Piece> {
    if st.cur.text == "" then st.out else PushPiece(st.out, st.cur)
  }

  function WindowPieces(path: Option<string>, windows: seq<string>, i: nat): seq<Piece> {
    seq(|windows|, k requires 0 <= k < |windows| => Piece(path, windows[k], [Window(i, k)]))
  }

  function PackOne(st: Packed, block: Block, i: nat): Packed {
    var body := Trim(block.body);
    if body == "" then st
    else if ByteLen(body) > TARGET_CHARS then
      Packed(Flush(st) + WindowPieces(block.path, SplitOnWindow(body, TARGET_CHARS), i), NO_PIECE)
    else
      var me := Piece(block.path, body, [Whole(i)]);
      if st.cur.text != "" && block.path == st.cur.path && ByteLen(st.cur.text) + ByteLen(body) + 2 <= TARGET_CHARS
      then st.(cur := Glued(st.cur, me))
      else Packed(Flush(st), me)
  }

  function PackUpTo(blocks: seq<Block>, n: nat): Packed
    requires n <= |blocks|
  {
    if n == 0 then Packed([], NO_PIECE) else PackOne(PackUpTo(blocks, n - 1), blocks[n - 1], n - 1)
  }

  function Pack(blocks: seq<Block>): seq<Piece> {
    Flush(PackUpTo(blocks, |blocks|))
  }

  // ----- the code's loop -----

  function Erase(p: Piece): Block {
    Block(p.path, p.text)
  }

  function EraseAll(ps: seq<Piece>): seq<Block> {
    seq(|ps|, i requires 0 <= i < |ps| => Erase(ps[i]))
  }

  method AppendPiece(out: seq<Block>, path: Option<string>, text: string, ghost pieces: seq<Piece>,
                     ghost parts: seq<Part>)
    returns (r: seq<Block>)
    requires out == EraseAll(pieces)
    ensures r == EraseAll(PushPiece(pieces, Piece(path, text, parts)))
  {
    r := out;
    if ByteLen(text) < MIN_CHARS {
      if |r| > 0 {
        var last := r[|r| - 1];
        if last.path == path {
          r := r[|r| - 1 := Block(last.path, last.body + GLUE + text)];
          return;
        }
      }
    }
    r := r + [Block(path, text)];
  }

  method AppendWindows(before: seq<Block>, path: Option<string>, windows: seq<string>, ghost pieces: seq<Piece>,
                       ghost i: nat)
    returns (out: seq<Block>)
    requires before == EraseAll(pieces)
    ensures out == EraseAll(pieces + WindowPieces(path, windows, i))
  {
    out := before;
    ghost var more := WindowPieces(path, windows, i);
    for k := 0 to |windows|
      invariant out == before + EraseAll(more)[..k]
    {
      out := out + [Block(path, windows[k])];
    }
    assert out == EraseAll(pieces + more);
  }

  /** Packing pushes exactly the pieces `Pack` describes, in that order. */
  method PackBlocks(blocks: seq<Block>) returns (out: seq<Block>)
    ensures out == EraseAll(Pack(blocks))
  {
    hide Trim, ByteLen, PushPiece, SplitOnWindow, WindowPieces;
    out := [];
    var cur, curPath := "", None;
    ghost var st := Packed([], NO_PIECE);
    for n := 0 to |blocks|
      invariant st == PackUpTo(blocks, n)
      invariant out == EraseAll(st.out) && cur == st.cur.text
      invariant cur != "" ==> curPath == st.cur.path
    {
      var path, body := blocks[n].path, Trim(blocks[n].body);
      ghost var was := st;
      st := PackOne(st, blocks[n], n);
      if body == "" {
        continue;
      }
      if ByteLen(body) > TARGET_CHARS {
        if cur != "" {
          out := AppendPiece(out, curPath, cur, was.out, was.cur.parts);
        }
        var windows := SplitOnCharWindow(body, TARGET_CHARS);
        out := AppendWindows(out, path, windows, Flush(was), n);
        cur, curPath := "", None;
        continue;
      }
      if cur != "" && path == curPath && ByteLen(cur) + ByteLen(body) + 2 <= TARGET_CHARS {
        cur := cur + GLUE + body;
      } else {
        if cur != "" {
          out := AppendPiece(out, curPath, cur, was.out, was.cur.parts);
        }
        curPath := path;
        cur := body;
      }
    }
    if cur != "" {
      out := AppendPiece(out, curPath, cur, st.out, st.cur.parts);
    }
  }

  // ----- what a piece says about its blocks -----

  predicate Oversized(b: Block) {
    ByteLen(Trim(b.body)) > 800
  }

  predicate PartOk(blocks: seq<Block>, path: Option<string>, part: Part) {
    && part.i < |blocks| && blocks[part.i].path == path && Trim(blocks[part.i].body) != ""
    && match part
       case Whole(i) => !Oversized(blocks[i])
       case Window(i, k) => Oversized(blocks[i]) && k < |SplitOnWindow(Trim(blocks[i].body), 800)|
  }

  function PartText(blocks: seq<Block>, part: Part): string {
    if part.i >= |blocks| then ""
    else
      var body := Trim(blocks[part.i].body);
      match part
      case Whole(_) => body
      case Window(_, k) =>
        var ws := SplitOnWindow(body, 800);
        if k < |ws| then ws[k] else ""
  }

  function PartTexts(blocks: seq<Block>, parts: seq<Part>): seq<string> {
    seq(|parts|, i requires 0 <= i < |parts| => PartText(blocks, parts[i]))
  }

  /** All its parts stand under its own heading path, and its text is theirs and nothing else. */
  ghost predicate Faithful(blocks: seq<Block>, p: Piece) {
    && p.parts != []
    && (forall i | 0 <= i < |p.parts| :: PartOk(blocks, p.path, p.parts[i]))
    && p.text == Join(PartTexts(blocks, p.parts), GLUE)
  }

  ghost predicate AllFaithful(blocks: seq<Block>, ps: seq<Piece>) {
    forall i | 0 <= i < |ps| :: Faithful(blocks, ps[i])
  }

  /** One window, or whole blocks that fit the target together. */
  ghost predicate Plain(p: Piece) {
    || (|p.parts| == 1 && p.parts[0].Window? && |p.text| <= 800)
    || ((forall i | 0 <= i < |p.parts| :: p.parts[i].Whole?) && ByteLen(p.text) <= 800)
  }

  /** A plain piece that took in one scrap of its own path. */
  ghost predicate WithScrap(blocks: seq<Block>, p: Piece) {
    exists a, b :: p == Glued(a, b) && Plain(a) && Plain(b) && ByteLen(b.text) < 64
                   && Faithful(blocks, a) && Faithful(blocks, b) && a.path == b.path
  }

  ghost predicate Shaped(blocks: seq<Block>, p: Piece) {
    Plain(p) || WithScrap(blocks, p)
  }

  function AllParts(ps: seq<Piece>): seq<Part> {
    if ps == [] then [] else AllParts(ps[..|ps| - 1]) + ps[|ps| - 1].parts
  }

  function PartsOfBlock(b: Block, i: nat): seq<Part> {
    var body := Trim(b.body);
    if body == "" then []
    else if ByteLen(body) > 800 then
      WindowParts(|SplitOnWindow(body, 800)|, i)
    else [Whole(i)]
  }

  function WindowParts(n: nat, i: nat): seq<Part> {
    seq(n, k requires 0 <= k < n => Window(i, k))
  }

  /** Every non-blank block in order: itself, or all its windows. */
  function PartsInOrder(blocks: seq<Block>, n: nat): seq<Part>
    requires n <= |blocks|
  {
    if n == 0 then [] else PartsInOrder(blocks, n - 1) + PartsOfBlock(blocks[n - 1], n - 1)
  }

  lemma GluedIsFaithful(blocks: seq<Block>, a: Piece, b: Piece)
    requires Faithful(blocks, a) && Faithful(blocks, b) && a.path == b.path
    ensures Faithful(blocks, Glued(a, b))
  {
    hide Trim;
    hide Join;
    hide PartText;
    hide PartOk;
    var p := Glued(a, b);
    assert PartTexts(blocks, p.parts) == PartTexts(blocks, a.parts) + PartTexts(blocks, b.parts);
    JoinAppend(PartTexts(blocks, a.parts), PartTexts(blocks, b.parts), GLUE);
    assert forall i | 0 <= i < |p.parts| ::
      p.parts[i] == if i < |a.parts| then a.parts[i] else b.parts[i - |a.parts|];
  }

  lemma PushParts(out: seq<Piece>, p: Piece)
    ensures AllParts(PushPiece(out, p)) == AllParts(out) + p.parts
  {
    var r := PushPiece(out, p);
    if |r| == |out| {
      var n := |out| - 1;
      assert r[..n] == out[..n];
      assert AllParts(r) == AllParts(out[..n]) + (out[n].parts + p.parts);
    } else {
      assert r[..|out|] == out;
    }
  }

  lemma AllPartsSnoc(ps: seq<Piece>, p: Piece)
    ensures AllParts(ps + [p]) == AllParts(ps) + p.parts
  {
    assert (ps + [p])[..|ps|] == ps;
  }

  lemma {:induction false} AllPartsConcat(a: seq<Piece>, b: seq<Piece>)
    ensures AllParts(a + b) == AllParts(a) + AllParts(b)
  {
    if b == [] {
      assert a + b == a;
    } else {
      var front, last := b[..|b| - 1], b[|b| - 1];
      assert b == front + [last] && a + b == (a + front) + [last];
      AllPartsConcat(a, front);
      AllPartsSnoc(a + front, last);
      AllPartsSnoc(front, last);
      hide AllParts;
    }
  }

  /** What may be filled so far: nothing, or whole blocks of one path that fit the target. */
  ghost predicate Filling(blocks: seq<Block>, cur: Piece) {
    if cur.text == "" then cur.parts == []
    else Faithful(blocks, cur) && Plain(cur) && forall i | 0 <= i < |cur.parts| :: cur.parts[i].Whole?
  }

  /** A last piece that holds a scrap will not be asked to take another. */
  ghost predicate NoSecondScrap(out: seq<Piece>, cur: Piece) {
    out != [] && !Plain(out[|out| - 1]) ==>
      cur.text != "" && (cur.path != out[|out| - 1].path || ByteLen(cur.text) >= MIN_CHARS)
  }

  ghost predicate Flushed(blocks: seq<Block>, out: seq<Piece>) {
    AllFaithful(blocks, out) && forall i | 0 <= i < |out| :: Shaped(blocks, out[i])
  }

  ghost predicate PackInv(blocks: seq<Block>, st: Packed) {
    Flushed(blocks, st.out) && Filling(blocks, st.cur) && NoSecondScrap(st.out, st.cur)
  }

  lemma FlushedConcat(blocks: seq<Block>, a: seq<Piece>, b: seq<Piece>)
    requires Flushed(blocks, a) && Flushed(blocks, b)
    ensures Flushed(blocks, a + b)
  {
    hide Faithful, Shaped;
  }

  lemma FlushedOne(blocks: seq<Block>, p: Piece)
    requires Faithful(blocks, p) && Shaped(blocks, p)
    ensures Flushed(blocks, [p])
  {
    hide Faithful, Shaped;
  }

  lemma FlushedPrefix(blocks: seq<Block>, out: seq<Piece>, n: nat)
    requires Flushed(blocks, out) && n <= |out|
    ensures Flushed(blocks, out[..n])
    ensures forall i | 0 <= i < |out| :: Faithful(blocks, out[i])
  {
    hide Faithful, Shaped;
  }

  lemma ScrapIsShaped(blocks: seq<Block>, a: Piece, b: Piece)
    requires Faithful(blocks, a) && Faithful(blocks, b) && a.path == b.path
    requires Plain(a) && Plain(b) && ByteLen(b.text) < MIN_CHARS
    ensures Shaped(blocks, Glued(a, b))
  {
    hide Faithful, ByteLen;
    assert WithScrap(blocks, Glued(a, b));
  }

  lemma PushKeeps(blocks: seq<Block>, out: seq<Piece>, p: Piece)
    requires Flushed(blocks, out) && Faithful(blocks, p) && Plain(p) && p.text != "" && NoSecondScrap(out, p)
    ensures var r := PushPiece(out, p);
            && Flushed(blocks, r) && r != []
            && (Plain(r[|r| - 1]) || (ByteLen(p.text) < MIN_CHARS && r[|r| - 1].path == p.path))
  {
    hide ByteLen, Faithful, Plain, Flushed, WithScrap;
    var n := |out| - 1;
    if |PushPiece(out, p)| == |out| {
      FlushedPrefix(blocks, out, n);
      GluedIsFaithful(blocks, out[n], p);
      ScrapIsShaped(blocks, out[n], p);
      FlushedOne(blocks, Glued(out[n], p));
      FlushedConcat(blocks, out[..n], [Glued(out[n], p)]);
    } else {
      FlushedOne(blocks, p);
      FlushedConcat(blocks, out, [p]);
    }
  }

  lemma FlushKeeps(blocks: seq<Block>, st: Packed)
    requires PackInv(blocks, st)
    ensures Flushed(blocks, Flush(st)) && AllParts(Flush(st)) == AllParts(st.out) + st.cur.parts
    ensures st.cur.text != "" && |Flush(st)| > 0 && !Plain(Flush(st)[|Flush(st)| - 1]) ==>
              ByteLen(st.cur.text) < MIN_CHARS && Flush(st)[|Flush(st)| - 1].path == st.cur.path
    ensures st.cur.text == "" ==> Flush(st) == st.out && (st.out != [] ==> Plain(st.out[|st.out| - 1]))
  {
    hide ByteLen, Faithful, Plain, Flushed, PushPiece, AllParts;
    if st.cur.text != "" {
      PushKeeps(blocks, st.out, st.cur);
      PushParts(st.out, st.cur);
    }
  }

  lemma WindowPiecesAre(blocks: seq<Block>, i: nat)
    requires i < |blocks| && Oversized(blocks[i])
    ensures var ps := WindowPieces(blocks[i].path, SplitOnWindow(Trim(blocks[i].body), TARGET_CHARS), i);
            Flushed(blocks, ps) && forall k | 0 <= k < |ps| :: Plain(ps[k])
  {
    hide Trim, SplitOnWindow, Faithful, Plain, WithScrap;
    var ps := WindowPieces(blocks[i].path, SplitOnWindow(Trim(blocks[i].body), TARGET_CHARS), i);
    forall k | 0 <= k < |ps| ensures Faithful(blocks, ps[k]) && Plain(ps[k]) {
      WindowPieceIs(blocks, i, k);
    }
  }

  lemma WindowPieceIs(blocks: seq<Block>, i: nat, k: nat)
    requires i < |blocks| && Oversized(blocks[i]) && k < |SplitOnWindow(Trim(blocks[i].body), TARGET_CHARS)|
    ensures var p := Piece(blocks[i].path, SplitOnWindow(Trim(blocks[i].body), TARGET_CHARS)[k], [Window(i, k)]);
            Faithful(blocks, p) && Plain(p)
  {
    hide Trim, SplitOnWindow, ByteLen;
    var windows := SplitOnWindow(Trim(blocks[i].body), TARGET_CHARS);
    SplitSizes(Trim(blocks[i].body), TARGET_CHARS);
    EmptyIsBlank();
    assert PartTexts(blocks, [Window(i, k)]) == [windows[k]];
  }

  /** So an oversized body is not blank. */
  lemma EmptyIsBlank()
    ensures ByteLen("") == 0
  {
  }

  lemma {:induction false} WindowPiecesParts(path: Option<string>, windows: seq<string>, i: nat)
    ensures AllParts(WindowPieces(path, windows, i)) == WindowParts(|windows|, i)
  {
    if windows != [] {
      var n := |windows| - 1;
      WindowPiecesParts(path, windows[..n], i);
      AllPartsSnoc(WindowPieces(path, windows[..n], i), Piece(path, windows[n], [Window(i, n)]));
      assert WindowPieces(path, windows, i) ==
             WindowPieces(path, windows[..n], i) + [Piece(path, windows[n], [Window(i, n)])];
      assert WindowParts(n + 1, i) == WindowParts(n, i) + [Window(i, n)];
      hide AllParts;
    }
  }

  lemma OnePartIsFaithful(blocks: seq<Block>, i: nat)
    requires i < |blocks| && Trim(blocks[i].body) != "" && !Oversized(blocks[i])
    ensures var me := Piece(blocks[i].path, Trim(blocks[i].body), [Whole(i)]);
            Faithful(blocks, me) && Plain(me)
  {
    hide Trim;
    hide ByteLen;
    var me := Piece(blocks[i].path, Trim(blocks[i].body), [Whole(i)]);
    assert PartTexts(blocks, me.parts) == [me.text];
  }

  lemma GluedIsPlain(a: Piece, b: Piece)
    requires Plain(a) && Plain(b) && ByteLen(a.text) + ByteLen(b.text) + 2 <= TARGET_CHARS
    requires forall i | 0 <= i < |a.parts| :: a.parts[i].Whole?
    requires forall i | 0 <= i < |b.parts| :: b.parts[i].Whole?
    ensures Plain(Glued(a, b)) && ByteLen(Glued(a, b).text) >= ByteLen(a.text) && Glued(a, b).text != ""
    ensures forall i | 0 <= i < |Glued(a, b).parts| :: Glued(a, b).parts[i].Whole?
  {
    ByteLenGlued(a.text, b.text);
    hide ByteLen;
  }

  lemma PackWindowsKeeps(blocks: seq<Block>, st: Packed, i: nat)
    requires i < |blocks| && PackInv(blocks, st) && Oversized(blocks[i])
    ensures PackInv(blocks, Packed(Flush(st) + WindowPieces(blocks[i].path,
              SplitOnWindow(Trim(blocks[i].body), TARGET_CHARS), i), NO_PIECE))
  {
    hide Trim, ByteLen, SplitOnWindow, Faithful, Plain, Flush, Flushed;
    EmptyIsBlank();
    FlushKeeps(blocks, st);
    WindowPiecesAre(blocks, i);
    NonEmptySplit(Trim(blocks[i].body));
    FlushedConcat(blocks, Flush(st),
      WindowPieces(blocks[i].path, SplitOnWindow(Trim(blocks[i].body), TARGET_CHARS), i));
  }

  lemma PackMergeKeeps(blocks: seq<Block>, st: Packed, me: Piece)
    requires PackInv(blocks, st) && Faithful(blocks, me) && Plain(me)
    requires forall k | 0 <= k < |me.parts| :: me.parts[k].Whole?
    requires st.cur.text != "" && me.path == st.cur.path
    requires ByteLen(st.cur.text) + ByteLen(me.text) + 2 <= TARGET_CHARS
    ensures PackInv(blocks, st.(cur := Glued(st.cur, me)))
  {
    hide ByteLen, Faithful, Plain, Flushed;
    GluedIsFaithful(blocks, st.cur, me);
    GluedIsPlain(st.cur, me);
  }

  lemma PackNewKeeps(blocks: seq<Block>, st: Packed, me: Piece)
    requires PackInv(blocks, st) && Faithful(blocks, me) && Plain(me) && me.text != ""
    requires forall k | 0 <= k < |me.parts| :: me.parts[k].Whole?
    requires st.cur.text == "" || me.path != st.cur.path || ByteLen(st.cur.text) + ByteLen(me.text) + 2 > TARGET_CHARS
    ensures PackInv(blocks, Packed(Flush(st), me))
  {
    hide ByteLen, Faithful, Plain, Flushed, Flush;
    FlushKeeps(blocks, st);
  }

  lemma PackOneKeeps(blocks: seq<Block>, st: Packed, i: nat)
    requires i < |blocks| && PackInv(blocks, st)
    ensures PackInv(blocks, PackOne(st, blocks[i], i))
  {
    var body := Trim(blocks[i].body);
    hide Trim;
    hide SplitOnWindow;
    hide Faithful;
    hide Plain;
    hide PackInv;
    hide Flush;
    hide ByteLen;
    if body != "" {
      if ByteLen(body) > TARGET_CHARS {
        PackWindowsKeeps(blocks, st, i);
      } else {
        OnePartIsFaithful(blocks, i);
        var me := Piece(blocks[i].path, body, [Whole(i)]);
        if st.cur.text != "" && me.path == st.cur.path && ByteLen(st.cur.text) + ByteLen(body) + 2 <= TARGET_CHARS {
          PackMergeKeeps(blocks, st, me);
        } else {
          PackNewKeeps(blocks, st, me);
        }
      }
    }
  }

  lemma NonEmptySplit(s: string)
    requires s != ""
    ensures SplitOnWindow(s, TARGET_CHARS) != []
  {
  }

  lemma {:induction false} PackUpToKeeps(blocks: seq<Block>, n: nat)
    requires n <= |blocks|
    ensures PackInv(blocks, PackUpTo(blocks, n))
    ensures AllParts(PackUpTo(blocks, n).out) + PackUpTo(blocks, n).cur.parts == PartsInOrder(blocks, n)
  {
    hide PackOne, PackInv, PartsOfBlock, AllParts;
    if n == 0 {
      NothingPacked(blocks);
    } else {
      PackUpToKeeps(blocks, n - 1);
      PackOneKeeps(blocks, PackUpTo(blocks, n - 1), n - 1);
      PackOneOrder(blocks, PackUpTo(blocks, n - 1), n - 1);
    }
  }

  lemma NothingPacked(blocks: seq<Block>)
    ensures PackInv(blocks, Packed([], NO_PIECE)) && AllParts([]) == []
  {
  }

  /** What one block adds to the parts, whichever branch it takes. */
  lemma PackOneOrder(blocks: seq<Block>, st: Packed, i: nat)
    requires i < |blocks| && PackInv(blocks, st)
    ensures var r := PackOne(st, blocks[i], i);
            AllParts(r.out) + r.cur.parts == AllParts(st.out) + st.cur.parts + PartsOfBlock(blocks[i], i)
  {
    hide Trim, ByteLen, AllParts, SplitOnWindow, PackInv, Flush, WindowPieces, WindowParts;
    var body := Trim(blocks[i].body);
    FlushKeeps(blocks, st);
    if body != "" && ByteLen(body) > TARGET_CHARS {
      var windows := SplitOnWindow(body, TARGET_CHARS);
      WindowsOrder(blocks[i].path, windows, i, Flush(st));
    }
  }

  lemma WindowsOrder(path: Option<string>, windows: seq<string>, i: nat, out: seq<Piece>)
    ensures AllParts(out + WindowPieces(path, windows, i)) == AllParts(out) + WindowParts(|windows|, i)
  {
    hide *;
    AllPartsConcat(out, WindowPieces(path, windows, i));
    WindowPiecesParts(path, windows, i);
  }

  /**
   No piece mislabels its text, nothing is dropped, repeated or reordered, and
   every piece is plain or a plain piece with one scrap.
   */
  lemma PackingIsFaithful(blocks: seq<Block>)
    ensures AllFaithful(blocks, Pack(blocks))
    ensures AllParts(Pack(blocks)) == PartsInOrder(blocks, |blocks|)
    ensures forall i | 0 <= i < |Pack(blocks)| :: Shaped(blocks, Pack(blocks)[i])
  {
    PackUpToKeeps(blocks, |blocks|);
    FlushKeeps(blocks, PackUpTo(blocks, |blocks|));
    hide PackUpTo;
    hide PackInv;
    hide AllParts;
    hide Flush;
    hide Shaped;
    hide Faithful;
  }

  /** The real size bound: 800, a blank line, and a scrap of at most 63. */
  lemma PiecesAreBounded(blocks: seq<Block>, i: nat)
    requires i < |Pack(blocks)|
    ensures |Pack(blocks)[i].text| <= 800 + 2 + 63
  {
    PackingIsFaithful(blocks);
    hide Pack;
    var p := Pack(blocks)[i];
    assert Shaped(blocks, p);
    if !Plain(p) {
      var a, b :| p == Glued(a, b) && Plain(a) && Plain(b) && ByteLen(b.text) < MIN_CHARS
                  && Faithful(blocks, a) && Faithful(blocks, b) && a.path == b.path;
    }
  }

  // ----- nothing that fits is left unmerged -----

  ghost predicate WholeOnly(p: Piece) {
    p.parts != [] && forall i | 0 <= i < |p.parts| :: p.parts[i].Whole?
  }

  /** `p` could not have taken in the block that `q` starts with. */
  ghost predicate Tight(blocks: seq<Block>, p: Piece, q: Piece) {
    WholeOnly(p) && Plain(p) && q.parts != [] && q.parts[0].Whole? && p.path == q.path ==>
      ByteLen(p.text) + 2 + ByteLen(PartText(blocks, q.parts[0])) > 800
  }

  ghost predicate AllTight(blocks: seq<Block>, ps: seq<Piece>) {
    forall i | 0 < i < |ps| :: Tight(blocks, ps[i - 1], ps[i])
  }

  ghost predicate TightInv(blocks: seq<Block>, st: Packed) {
    && AllTight(blocks, st.out)
    && (st.out != [] && st.cur.text != "" ==> Tight(blocks, st.out[|st.out| - 1], st.cur))
    && (st.out != [] && st.cur.text == "" ==> !WholeOnly(st.out[|st.out| - 1]))
  }

  lemma FirstPartFits(blocks: seq<Block>, p: Piece)
    requires Faithful(blocks, p)
    ensures ByteLen(PartText(blocks, p.parts[0])) <= ByteLen(p.text)
  {
    hide PartText;
    hide PartOk;
    var texts := PartTexts(blocks, p.parts);
    if |texts| > 1 {
      ByteLenGlued(texts[0], Join(texts[1..], GLUE));
      assert Join(texts, GLUE) == texts[0] + GLUE + Join(texts[1..], GLUE);
    }
    hide ByteLen;
  }

  /** A scrap is taken in only past the target, so the result is no longer plain. */
  lemma ScrapOverflows(blocks: seq<Block>, last: Piece, scrap: Piece)
    requires Tight(blocks, last, scrap) && last.path == scrap.path && last.parts != []
    requires Faithful(blocks, scrap) && WholeOnly(scrap)
    ensures !(WholeOnly(Glued(last, scrap)) && Plain(Glued(last, scrap))) || !Plain(last)
  {
    var g := Glued(last, scrap);
    FirstPartFits(blocks, scrap);
    ByteLenGlued(last.text, scrap.text);
    hide ByteLen;
    hide PartText;
    hide Faithful;
    if WholeOnly(g) {
      assert forall i | 0 <= i < |last.parts| :: g.parts[i] == last.parts[i];
    }
  }

  lemma GluedKeepsTight(blocks: seq<Block>, p: Piece, a: Piece, b: Piece)
    requires Tight(blocks, p, a) && a.parts != []
    ensures Tight(blocks, p, Glued(a, b))
  {
    hide ByteLen, PartText, Plain, WholeOnly;
    assert Glued(a, b).parts[0] == a.parts[0];
  }

  lemma CurIsWhole(blocks: seq<Block>, st: Packed)
    requires PackInv(blocks, st) && st.cur.text != ""
    ensures Faithful(blocks, st.cur) && WholeOnly(st.cur)
    ensures forall i | 0 <= i < |st.out| :: Faithful(blocks, st.out[i]) && st.out[i].parts != []
    ensures st.out != [] && !Plain(st.out[|st.out| - 1]) ==>
              st.cur.path != st.out[|st.out| - 1].path || ByteLen(st.cur.text) >= MIN_CHARS
  {
    hide ByteLen, PartOk, Join, Shaped, Plain;
  }

  lemma FlushTight(blocks: seq<Block>, st: Packed)
    requires PackInv(blocks, st) && TightInv(blocks, st)
    ensures AllTight(blocks, Flush(st))
    ensures st.cur.text != "" ==>
              var last := Flush(st)[|Flush(st)| - 1];
              last == st.cur || !(WholeOnly(last) && Plain(last))
  {
    hide PackInv, Plain, Faithful, PartText, ByteLen, WholeOnly, Tight, Glued;
    if st.cur.text != "" {
      CurIsWhole(blocks, st);
      var r, n := Flush(st), |st.out| - 1;
      if |r| == |st.out| {
        ScrapOverflows(blocks, st.out[n], st.cur);
        assert forall i | 0 <= i < n :: r[i] == st.out[i];
        if n > 0 { GluedKeepsTight(blocks, st.out[n - 1], st.out[n], st.cur); }
      }
    }
  }

  lemma PushWindowsTight(blocks: seq<Block>, out: seq<Piece>, ps: seq<Piece>)
    requires AllTight(blocks, out)
    requires forall k | 0 <= k < |ps| :: ps[k].parts != [] && ps[k].parts[0].Window?
    ensures AllTight(blocks, out + ps)
  {
    var all := out + ps;
    hide Plain;
    hide ByteLen;
    hide PartText;
    forall i | 0 < i < |all| ensures Tight(blocks, all[i - 1], all[i]) {
      assert i < |out| ==> Tight(blocks, out[i - 1], out[i]);
    }
  }

  lemma MergeTight(blocks: seq<Block>, st: Packed, me: Piece)
    requires TightInv(blocks, st) && st.cur.text != "" && st.cur.parts != []
    ensures TightInv(blocks, st.(cur := Glued(st.cur, me)))
  {
    hide Plain;
    hide ByteLen;
    hide PartText;
    assert Glued(st.cur, me).parts[0] == st.cur.parts[0];
  }

  lemma NewTight(blocks: seq<Block>, st: Packed, me: Piece)
    requires PackInv(blocks, st) && TightInv(blocks, st)
    requires |me.parts| == 1 && me.text == PartText(blocks, me.parts[0])
    requires st.cur.text == "" || me.path != st.cur.path || ByteLen(st.cur.text) + ByteLen(me.text) + 2 > TARGET_CHARS
    ensures TightInv(blocks, Packed(Flush(st), me)) || me.text == ""
  {
    FlushTight(blocks, st);
    assert st.cur.text == "" ==> Flush(st) == st.out;
    hide Plain;
    hide Flush;
    hide ByteLen;
    hide PartText;
    hide Faithful;
  }

  lemma WindowsTight(blocks: seq<Block>, st: Packed, i: nat)
    requires i < |blocks| && PackInv(blocks, st) && TightInv(blocks, st) && Trim(blocks[i].body) != ""
    ensures TightInv(blocks, Packed(Flush(st) + WindowPieces(blocks[i].path,
              SplitOnWindow(Trim(blocks[i].body), TARGET_CHARS), i), NO_PIECE))
  {
    FlushTight(blocks, st);
    NonEmptySplit(Trim(blocks[i].body));
    var ps := WindowPieces(blocks[i].path, SplitOnWindow(Trim(blocks[i].body), TARGET_CHARS), i);
    hide Trim;
    hide SplitOnWindow;
    hide Flush;
    PushWindowsTight(blocks, Flush(st), ps);
    hide AllTight;
    hide Plain;
  }

  lemma PackOneTight(blocks: seq<Block>, st: Packed, i: nat)
    requires i < |blocks| && PackInv(blocks, st) && TightInv(blocks, st)
    ensures TightInv(blocks, PackOne(st, blocks[i], i))
  {
    var body := Trim(blocks[i].body);
    assert st.cur.text != "" ==> st.cur.parts != [];
    hide Trim;
    hide SplitOnWindow;
    hide Flush;
    hide ByteLen;
    hide TightInv;
    hide PackInv;
    hide WindowPieces;
    if body != "" {
      if ByteLen(body) > TARGET_CHARS {
        WindowsTight(blocks, st, i);
      } else {
        var me := Piece(blocks[i].path, body, [Whole(i)]);
        if st.cur.text != "" && me.path == st.cur.path && ByteLen(st.cur.text) + ByteLen(body) + 2 <= TARGET_CHARS {
          MergeTight(blocks, st, me);
        } else {
          NewTight(blocks, st, me);
        }
      }
    }
  }

  lemma {:induction false} PackUpToTight(blocks: seq<Block>, n: nat)
    requires n <= |blocks|
    ensures TightInv(blocks, PackUpTo(blocks, n))
  {
    hide TightInv;
    hide PackInv;
    hide PackOne;
    NothingIsTight(blocks);
    if n > 0 {
      PackUpToTight(blocks, n - 1);
      PackUpToKeeps(blocks, n - 1);
      PackOneTight(blocks, PackUpTo(blocks, n - 1), n - 1);
    }
  }

  lemma NothingIsTight(blocks: seq<Block>)
    ensures TightInv(blocks, Packed([], NO_PIECE))
  {
  }

  /** Neighbouring plain pieces of one path could not have been merged. */
  lemma PackingIsTight(blocks: seq<Block>)
    ensures AllTight(blocks, Pack(blocks))
  {
    PackUpToTight(blocks, |blocks|);
    PackUpToKeeps(blocks, |blocks|);
    FlushTight(blocks, PackUpTo(blocks, |blocks|));
  }

  // ----- no scrap is left standing -----

  ghost predicate FromWindow(p: Piece) {
    p.parts != [] && p.parts[0].Window?
  }

  /** `q` follows `p` under one path only when it has 64 bytes, or begins with a window of an oversized block. */
  ghost predicate Stands(p: Piece, q: Piece) {
    p.path == q.path && !FromWindow(q) ==> ByteLen(q.text) >= 64
  }

  ghost predicate AllStand(ps: seq<Piece>) {
    forall i | 0 < i < |ps| :: Stands(ps[i - 1], ps[i])
  }

  lemma GluedStands(p: Piece, a: Piece, b: Piece)
    requires Stands(p, a)
    ensures Stands(p, Glued(a, b))
  {
    ByteLenGlued(a.text, b.text);
    hide ByteLen;
    assert a.parts != [] ==> Glued(a, b).parts[0] == a.parts[0];
  }

  lemma FlushStands(st: Packed)
    requires AllStand(st.out)
    ensures AllStand(Flush(st))
  {
    hide ByteLen, FromWindow, Glued, Stands;
    if st.cur.text != "" {
      var r, n := Flush(st), |st.out| - 1;
      if |r| == |st.out| {
        assert forall i | 0 <= i < n :: r[i] == st.out[i];
        if n > 0 {
          GluedStands(st.out[n - 1], st.out[n], st.cur);
        }
      } else {
        assert forall i | 0 <= i < |st.out| :: r[i] == st.out[i];
        PushedStands(st.out, st.cur);
      }
    }
  }

  lemma PushedStands(out: seq<Piece>, p: Piece)
    requires |PushPiece(out, p)| == |out| + 1
    ensures out != [] ==> Stands(out[|out| - 1], p)
  {
    hide ByteLen;
  }

  lemma WindowsStand(out: seq<Piece>, path: Option<string>, windows: seq<string>, i: nat)
    requires AllStand(out)
    ensures AllStand(out + WindowPieces(path, windows, i))
  {
    hide ByteLen;
    var all := out + WindowPieces(path, windows, i);
    assert forall k | |out| <= k < |all| :: FromWindow(all[k]);
    assert forall k | 0 <= k < |out| :: all[k] == out[k];
  }

  lemma {:induction false} PackUpToStands(blocks: seq<Block>, n: nat)
    requires n <= |blocks|
    ensures AllStand(PackUpTo(blocks, n).out)
  {
    hide AllStand, Flush, Trim, ByteLen, WindowPieces, SplitOnWindow;
    if n == 0 {
      NothingStands();
    } else {
      var st, block := PackUpTo(blocks, n - 1), blocks[n - 1];
      PackUpToStands(blocks, n - 1);
      FlushStands(st);
      WindowsStand(Flush(st), block.path, SplitOnWindow(Trim(block.body), TARGET_CHARS), n - 1);
    }
  }

  lemma NothingStands()
    ensures AllStand([])
  {
  }

  /** A scrap of under 64 bytes stands alone only where the piece before it has another path. */
  lemma NoScrapIsLeft(blocks: seq<Block>)
    ensures AllStand(Pack(blocks))
  {
    hide AllStand, Flush, PackUpTo;
    PackUpToStands(blocks, |blocks|);
    FlushStands(PackUpTo(blocks, |blocks|));
  }
}
