/** Which texts the cursor's readers take, told by their characters. */
module CursorForm {
  import opened Options
  import opened Base64Url
  import opened CursorText

  const DIGITS: string := "0123456789abcdef"
  const CAPITALS: string := "0123456789ABCDEF"

  /** A digit is read in either case, below its base. */
  lemma DigitForm(c: Byte, base: nat, d: nat)
    requires base == 10 || base == 16
    ensures DigitValue(c, base) == Some(d) <==>
            d < base && (c == DIGITS[d] as int || c == CAPITALS[d] as int)
  {
  }

  // ----- numbers -----

  ghost predicate Spells(s: Text, digits: Text, v: int) {
    && digits != []
    && ((s == digits && v >= 0) || (s == ['+' as int] + digits && v >= 0) || (s == ['-' as int] + digits && v <= 0))
    && ParseDigits(digits, 10) == Some(if v < 0 then -v else v)
  }

  /** A number is one sign or none and then digits, within 128 bits. */
  lemma NumberForm(s: Text, v: int)
    ensures ParseI128(s) == Some(v) <==>
            && -0x8000_0000_0000_0000_0000_0000_0000_0000 <= v < 0x8000_0000_0000_0000_0000_0000_0000_0000
            && exists digits: Text :: Spells(s, digits, v)
  {
    if ParseI128(s) == Some(v) {
      var digits := if s[0] == DASH || s[0] == PLUS then s[1..] else s;
      assert digits != s ==> s == [s[0]] + digits;
      hide ParseDigits;
      assert Spells(s, digits, v);
    }
    if digits: Text :| Spells(s, digits, v) {
      FirstIsDigit(digits, 10);
      hide ParseDigits;
      if s != digits {
        assert s[1..] == digits;
      }
    }
  }

  lemma {:induction false} FirstIsDigit(s: Text, base: nat)
    requires base == 10 || base == 16
    requires s != [] && ParseDigits(s, base).Some?
    ensures DigitValue(s[0], base).Some?
  {
    if |s| > 1 {
      FirstIsDigit(s[..|s| - 1], base);
    }
  }

  // ----- ids -----

  function Bytes(s: string): Text
    requires forall i | 0 <= i < |s| :: s[i] as int < 128
  {
    seq(|s|, i requires 0 <= i < |s| => s[i] as int)
  }

  /** 32 hex digits, plain, in groups of 8, 4, 4, 4 and 12 with hyphens, that in braces, or as a URN. */
  ghost predicate SpellsId(s: Text, h: Text, id: nat) {
    && |h| == 32 && ParseDigits(h, 16) == Some(id)
    && var grouped := h[..8] + Bytes("-") + h[8..12] + Bytes("-") + h[12..16] + Bytes("-") + h[16..20] + Bytes("-")
                      + h[20..];
       || s == h || s == grouped || s == Bytes("{") + grouped + Bytes("}") || s == Bytes("urn:uuid:") + grouped
  }

  lemma GroupedIsHyphenated(h: Text)
    requires |h| == 32
    ensures h[..8] + Bytes("-") + h[8..12] + Bytes("-") + h[12..16] + Bytes("-") + h[16..20] + Bytes("-") + h[20..]
         == Hyphenate(h)
    ensures Bytes("urn:uuid:") == URN
  {
    assert Bytes("-") == [DASH];
  }

  /** Reading a hyphenated id is reading the digits it groups. */
  lemma HyphenatedForm(s: Text, id: nat) returns (h: Text)
    requires |s| == 36
    ensures ParseHyphenated(s) == Some(id) ==> |h| == 32 && s == Hyphenate(h) && ParseDigits(h, 16) == Some(id)
  {
    hide ParseDigits;
    h := s[..8] + s[9..13] + s[14..18] + s[19..23] + s[24..];
    if ParseHyphenated(s) == Some(id) {
      assert h[..8] == s[..8] && h[8..12] == s[9..13] && h[12..16] == s[14..18];
      assert h[16..20] == s[19..23] && h[20..] == s[24..];
      assert s == Hyphenate(h);
    }
  }

  lemma HyphenatedReads(h: Text)
    requires |h| == 32
    ensures ParseHyphenated(Hyphenate(h)) == ParseDigits(h, 16)
  {
    hide ParseDigits;
    GroupsBack(h);
  }

  lemma IdForm(s: Text, id: nat)
    ensures ParseUuid(s) == Some(id) <==> exists h: Text :: SpellsId(s, h, id)
  {
    if ParseUuid(s) == Some(id) {
      var h := SpellingOf(s, id);
    }
    if h: Text :| SpellsId(s, h, id) {
      SpellingReads(s, h, id);
    }
  }

  lemma SpellingOf(s: Text, id: nat) returns (h: Text)
    requires ParseUuid(s) == Some(id)
    ensures SpellsId(s, h, id)
  {
    hide ParseDigits, ParseHyphenated;
    if |s| == 32 {
      h := s;
    } else if |s| == 36 {
      h := HyphenatedForm(s, id);
      GroupedIsHyphenated(h);
    } else if |s| == 38 {
      h := HyphenatedForm(s[1..37], id);
      GroupedIsHyphenated(h);
      assert s == Bytes("{") + s[1..37] + Bytes("}");
    } else {
      h := HyphenatedForm(s[9..], id);
      GroupedIsHyphenated(h);
      assert s == URN + s[9..];
    }
  }

  lemma SpellingReads(s: Text, h: Text, id: nat)
    requires SpellsId(s, h, id)
    ensures ParseUuid(s) == Some(id)
  {
    hide ParseDigits, ParseHyphenated;
    GroupedIsHyphenated(h);
    HyphenatedReads(h);
    var grouped := Hyphenate(h);
    if s == Bytes("{") + grouped + Bytes("}") {
      assert s[1..37] == grouped;
    } else if s == URN + grouped {
      assert s[..9] == URN && s[9..] == grouped;
    }
  }

  // ----- UTF-8, by the byte ranges of section 4 of RFC 3629 -----

  predicate Between(b: Byte, low: int, high: int) {
    low <= b <= high
  }

  ghost predicate Utf8Char(c: Text) {
    || (|c| == 1 && Between(c[0], 0x00, 0x7F))
    || (|c| == 2 && Between(c[0], 0xC2, 0xDF) && Between(c[1], 0x80, 0xBF))
    || (|c| == 3 && Between(c[2], 0x80, 0xBF)
        && (|| (c[0] == 0xE0 && Between(c[1], 0xA0, 0xBF))
            || (Between(c[0], 0xE1, 0xEC) && Between(c[1], 0x80, 0xBF))
            || (c[0] == 0xED && Between(c[1], 0x80, 0x9F))
            || (Between(c[0], 0xEE, 0xEF) && Between(c[1], 0x80, 0xBF))))
    || (|c| == 4 && Between(c[2], 0x80, 0xBF) && Between(c[3], 0x80, 0xBF)
        && (|| (c[0] == 0xF0 && Between(c[1], 0x90, 0xBF))
            || (Between(c[0], 0xF1, 0xF3) && Between(c[1], 0x80, 0xBF))
            || (c[0] == 0xF4 && Between(c[1], 0x80, 0x8F))))
  }

  function Concatenated(cs: seq<Text>): Text {
    if cs == [] then [] else cs[0] + Concatenated(cs[1..])
  }

  ghost predicate IsMadeOf(s: Text, cs: seq<Text>) {
    s == Concatenated(cs) && forall k | 0 <= k < |cs| :: Utf8Char(cs[k])
  }

  lemma CharLenForm(s: Text)
    requires s != []
    ensures CharLen(s) <= |s|
    ensures CharLen(s) > 0 ==> Utf8Char(s[..CharLen(s)])
    ensures forall n | 0 < n <= |s| && Utf8Char(s[..n]) :: CharLen(s) == n
  {
    CharLenFits(s);
  }

  lemma {:induction false} Utf8Splits(s: Text) returns (cs: seq<Text>)
    requires ValidUtf8(s)
    ensures IsMadeOf(s, cs)
    decreases |s|
  {
    hide Utf8Char, CharLen, IsMadeOf;
    cs := [];
    if s == [] {
      NothingIsMade();
    } else {
      CharLenForm(s);
      var n := CharLen(s);
      var rest := Utf8Splits(s[n..]);
      OneMoreChar(s[..n], s[n..], rest);
      cs := [s[..n]] + rest;
      assert s == s[..n] + s[n..];
    }
  }

  lemma NothingIsMade()
    ensures IsMadeOf([], [])
  {
  }

  lemma OneMoreChar(c: Text, s: Text, cs: seq<Text>)
    requires Utf8Char(c) && IsMadeOf(s, cs)
    ensures IsMadeOf(c + s, [c] + cs)
  {
    hide Utf8Char;
    assert ([c] + cs)[1..] == cs;
  }

  lemma {:induction false} Utf8Joins(s: Text, cs: seq<Text>)
    requires IsMadeOf(s, cs)
    ensures ValidUtf8(s)
    decreases |cs|
  {
    hide CharLen;
    if cs != [] {
      var c, rest := cs[0], Concatenated(cs[1..]);
      Utf8Joins(rest, cs[1..]);
      assert s[..|c|] == c && s[|c|..] == rest;
      CharLenForm(s);
    }
  }

  /** A text is accepted exactly when it is a sequence of well-formed characters. */
  lemma Utf8Form(s: Text)
    ensures ValidUtf8(s) <==> exists cs: seq<Text> :: IsMadeOf(s, cs)
  {
    hide IsMadeOf, ValidUtf8;
    if ValidUtf8(s) {
      var cs := Utf8Splits(s);
    }
    if cs: seq<Text> :| IsMadeOf(s, cs) {
      Utf8Joins(s, cs);
    }
  }
}
