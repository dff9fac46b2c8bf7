/** The pieces of cursor text: decimal nanoseconds, UUIDs, `:`-separated parts, UTF-8. */
module CursorText {
  import opened Options
  import opened Base64Url
  import opened Splitting

  type Text = seq<Byte>

  const COLON: Byte := 58
  const DASH: Byte := 45
  const PLUS: Byte := 43
  const I128_BOUND: int := 0x8000_0000_0000_0000_0000_0000_0000_0000
  const UUID_BOUND: nat := 0x1_0000_0000_0000_0000_0000_0000_0000_0000

  // ----- numbers in a base, fixed or free width -----

  function Digit(d: int): Byte
    requires 0 <= d < 16
  {
    if d < 10 then 48 + d else 97 + d - 10
  }

  /** Hex digits are read in either case. */
  function DigitValue(c: Byte, base: nat): Option<nat>
    requires base == 10 || base == 16
  {
    if 48 <= c <= 57 then Some(c - 48)
    else if base == 16 && 97 <= c <= 102 then Some(c - 97 + 10)
    else if base == 16 && 65 <= c <= 70 then Some(c - 65 + 10)
    else None
  }

  function ParseDigits(s: Text, base: nat): Option<nat>
    requires base == 10 || base == 16
  {
    if s == [] then Some(0)
    else match (ParseDigits(s[..|s| - 1], base), DigitValue(s[|s| - 1], base))
      case (Some(hi), Some(lo)) => Some(hi * base + lo)
      case _ => None
  }

  function PrintNat(n: nat): Text {
    if n < 10 then [Digit(n)] else PrintNat(n / 10) + [Digit(n % 10)]
  }

  function HexText(n: nat, width: nat): (s: Text)
    ensures |s| == width
  {
    if width == 0 then [] else HexText(n / 16, width - 1) + [Digit(n % 16)]
  }

  ghost predicate AllDigits(s: Text) {
    forall i | 0 <= i < |s| :: 48 <= s[i] <= 57 || 97 <= s[i] <= 102
  }

  lemma {:induction false} PrintNatReads(n: nat)
    ensures PrintNat(n) != [] && AllDigits(PrintNat(n))
    ensures 48 <= PrintNat(n)[0] <= 57
    ensures ParseDigits(PrintNat(n), 10) == Some(n)
  {
    var s := PrintNat(n);
    if n < 10 {
      assert s[..0] == [];
    } else {
      PrintNatReads(n / 10);
      assert s[..|s| - 1] == PrintNat(n / 10);
    }
  }

  lemma OneMoreDigit(s: Text, c: Byte)
    requires ParseDigits(s, 16).Some? && DigitValue(c, 16).Some?
    ensures ParseDigits(s + [c], 16) == Some(ParseDigits(s, 16).value * 16 + DigitValue(c, 16).value)
  {
    hide DigitValue;
    assert (s + [c])[..|s|] == s;
  }

  lemma DigitReads(d: nat)
    requires d < 16
    ensures DigitValue(Digit(d), 16) == Some(d) && AllDigits([Digit(d)])
  {
  }

  lemma NothingReads()
    ensures AllDigits([]) && ParseDigits([], 16) == Some(0)
  {
  }

  /** Reading one more hex digit. */
  lemma ParseSnoc(s: Text, d: nat)
    requires d < 16 && AllDigits(s) && ParseDigits(s, 16).Some?
    ensures AllDigits(s + [Digit(d)])
    ensures ParseDigits(s + [Digit(d)], 16) == Some(ParseDigits(s, 16).value * 16 + d)
  {
    hide DigitValue, Digit, ParseDigits;
    DigitReads(d);
    OneMoreDigit(s, Digit(d));
    assert [Digit(d)][0] == Digit(d);
  }

  lemma {:induction false} HexTextReads(n: nat, width: nat, bound: nat)
    requires n < bound && bound == Pow16(width)
    ensures AllDigits(HexText(n, width))
    ensures ParseDigits(HexText(n, width), 16) == Some(n)
  {
    hide ParseDigits, Digit, AllDigits;
    if width == 0 {
      NothingReads();
    } else {
      HexTextReads(n / 16, width - 1, Pow16(width - 1));
      ParseSnoc(HexText(n / 16, width - 1), n % 16);
    }
  }

  function Pow16(k: nat): nat {
    if k == 0 then 1 else 16 * Pow16(k - 1)
  }

  lemma UuidBound()
    ensures Pow16(32) == UUID_BOUND
  {
    assert Pow16(4) == 0x1_0000;
    assert Pow16(8) == 0x1_0000_0000;
    assert Pow16(12) == 0x1_0000_0000_0000;
    assert Pow16(16) == 0x1_0000_0000_0000_0000;
    assert Pow16(20) == 0x1_0000_0000_0000_0000_0000;
    assert Pow16(24) == 0x1_0000_0000_0000_0000_0000_0000;
    assert Pow16(28) == 0x1_0000_0000_0000_0000_0000_0000_0000;
  }

  // ----- i128 -----

  function PrintInt(n: int): Text {
    if n < 0 then [DASH] + PrintNat(-n) else PrintNat(n)
  }

  /** `str::parse::<i128>`: an optional sign, at least one digit, in range. */
  function ParseI128(s: Text): Option<int> {
    var signed := s != [] && (s[0] == DASH || s[0] == PLUS);
    var digits := if signed then s[1..] else s;
    if digits == [] then None
    else match ParseDigits(digits, 10)
      case None => None
      case Some(n) =>
        var m: int := n;
        var v := if signed && s[0] == DASH then -m else m;
        if -I128_BOUND <= v < I128_BOUND then Some(v) else None
  }

  lemma PrintIntReads(n: int)
    requires -I128_BOUND <= n < I128_BOUND
    ensures ParseI128(PrintInt(n)) == Some(n)
  {
    hide PrintNat, ParseDigits, AllDigits, I128_BOUND;
    PrintNatReads(if n < 0 then -n else n);
    if n < 0 {
      assert PrintInt(n)[1..] == PrintNat(-n);
    }
  }

  lemma PrintIntPlain(n: int)
    ensures Lacks(PrintInt(n), COLON) && Ascii(PrintInt(n))
    ensures PrintInt(n) != [] && (48 <= PrintInt(n)[0] <= 57 || PrintInt(n)[0] == DASH)
  {
    PrintNatReads(if n < 0 then -n else n);
  }

  // ----- UUID text -----

  function Hyphenate(h: Text): (s: Text)
    requires |h| == 32
    ensures |s| == 36
  {
    h[..8] + [DASH] + h[8..12] + [DASH] + h[12..16] + [DASH] + h[16..20] + [DASH] + h[20..]
  }

  function PrintUuid(id: nat): (s: Text)
    ensures |s| == 36
  {
    Hyphenate(HexText(id, 32))
  }

  function ParseHyphenated(s: Text): Option<nat>
    requires |s| == 36
  {
    if s[8] == DASH && s[13] == DASH && s[18] == DASH && s[23] == DASH
    then ParseDigits(s[..8] + s[9..13] + s[14..18] + s[19..23] + s[24..], 16)
    else None
  }

  const URN: Text := [117, 114, 110, COLON, 117, 117, 105, 100, COLON]

  /** `Uuid::parse_str`: simple, hyphenated, braced or URN spelling. */
  function ParseUuid(s: Text): Option<nat> {
    if |s| == 32 then ParseDigits(s, 16)
    else if |s| == 36 then ParseHyphenated(s)
    else if |s| == 38 && s[0] == 123 && s[37] == 125 then ParseHyphenated(s[1..37])
    else if |s| == 45 && s[..9] == URN then ParseHyphenated(s[9..])
    else None
  }

  lemma PrintUuidReads(id: nat)
    requires id < UUID_BOUND
    ensures ParseHyphenated(PrintUuid(id)) == Some(id)
    ensures ParseUuid(PrintUuid(id)) == Some(id)
    ensures Lacks(PrintUuid(id), COLON) && Ascii(PrintUuid(id))
  {
    UuidBound();
    hide UUID_BOUND;
    HexTextReads(id, 32, Pow16(32));
    HyphensOut(HexText(id, 32));
    hide HexText;
    hide ParseDigits;
  }

  lemma HyphensOut(h: Text)
    requires |h| == 32 && AllDigits(h)
    ensures ParseHyphenated(Hyphenate(h)) == ParseDigits(h, 16)
    ensures Lacks(Hyphenate(h), COLON) && Ascii(Hyphenate(h))
  {
    hide ParseDigits, AllDigits;
    var s := Hyphenate(h);
    GroupsBack(h);
    assert s[8] == DASH && s[13] == DASH && s[18] == DASH && s[23] == DASH;
    HyphensArePlain(h);
  }

  lemma GroupsBack(h: Text)
    requires |h| == 32
    ensures var s := Hyphenate(h); |s| == 36 && s[..8] + s[9..13] + s[14..18] + s[19..23] + s[24..] == h
  {
    var s := Hyphenate(h);
    assert s[..8] == h[..8] && s[9..13] == h[8..12] && s[14..18] == h[12..16];
    assert s[19..23] == h[16..20] && s[24..] == h[20..];
    assert h[..8] + h[8..12] + h[12..16] + h[16..20] + h[20..] == h;
  }

  lemma HyphensArePlain(h: Text)
    requires |h| == 32 && AllDigits(h)
    ensures Lacks(Hyphenate(h), COLON) && Ascii(Hyphenate(h))
  {
    var s := Hyphenate(h);
    assert forall x | x in s :: x == DASH || x in h;
    forall i | 0 <= i < |s| ensures s[i] != COLON && s[i] < 128 {
      assert s[i] in s;
      if s[i] != DASH { var j :| 0 <= j < |h| && h[j] == s[i]; }
    }
  }

  // ----- UTF-8 (RFC 3629) -----

  ghost predicate Ascii(s: Text) {
    forall i | 0 <= i < |s| :: s[i] < 128
  }

  predicate Tail(s: Text, i: nat) {
    i < |s| && 128 <= s[i] < 192
  }

  /** Bytes of the first well-formed character of `s`, or 0 when there is none. */
  function CharLen(s: Text): nat
    requires s != []
  {
    var b := s[0];
    if b < 128 then 1
    else if 194 <= b < 224 && Tail(s, 1) then 2
    else if 224 <= b < 240 && Tail(s, 1) && Tail(s, 2)
            && (b == 224 ==> s[1] >= 160) && (b == 237 ==> s[1] < 160) then 3
    else if 240 <= b < 245 && Tail(s, 1) && Tail(s, 2) && Tail(s, 3)
            && (b == 240 ==> s[1] >= 144) && (b == 244 ==> s[1] < 144) then 4
    else 0
  }

  lemma CharLenFits(s: Text)
    requires s != []
    ensures CharLen(s) <= |s|
  {
  }

  /** What `str::from_utf8` accepts. */
  predicate ValidUtf8(s: Text) {
    s == [] ||
    (CharLenFits(s); CharLen(s) > 0 && ValidUtf8(s[CharLen(s)..]))
  }

  lemma {:induction false} AsciiAfterUtf8(a: Text, b: Text)
    requires ValidUtf8(a) && Ascii(b)
    ensures ValidUtf8(a + b)
    decreases |a| + |b|
  {
    if a == [] {
      assert a + b == b;
      if b != [] {
        assert b[1..] == [] + b[1..];
        AsciiAfterUtf8([], b[1..]);
      }
    } else {
      var n := CharLen(a);
      CharLenFits(a);
      assert CharLen(a + b) == n;
      assert (a + b)[n..] == a[n..] + b;
      AsciiAfterUtf8(a[n..], b);
    }
  }

  lemma {:induction false} DigitsLackColon(s: Text, base: nat)
    requires base == 10 || base == 16
    requires ParseDigits(s, base).Some?
    ensures Lacks(s, COLON)
  {
    if s != [] {
      DigitsLackColon(s[..|s| - 1], base);
      assert s == s[..|s| - 1] + [s[|s| - 1]];
    }
  }

  lemma HyphenatedLacksColon(s: Text)
    requires |s| == 36 && ParseHyphenated(s).Some?
    ensures Lacks(s, COLON)
  {
    var a, b, c, d, e := s[..8], s[9..13], s[14..18], s[19..23], s[24..];
    var h := a + b + c + d + e;
    DigitsLackColon(h, 16);
    hide ParseDigits;
    assert a == h[..8] && b == h[8..12] && c == h[12..16] && d == h[16..20] && e == h[20..];
    assert Lacks(a, COLON) && Lacks(b, COLON) && Lacks(c, COLON) && Lacks(d, COLON) && Lacks(e, COLON);
    assert s == a + [DASH] + b + [DASH] + c + [DASH] + d + [DASH] + e;
  }

  /** A readable UUID text has no colon, or it is a URN and splits in three. */
  lemma ColonsInUuid(s: Text)
    requires ParseUuid(s).Some?
    ensures Split(s, COLON) == [s] || (|s| == 45 && |Split(s, COLON)| == 3)
  {
    if |s| == 45 {
      HyphenatedLacksColon(s[9..]);
      UrnSplits(s[9..]);
      assert s == URN + s[9..];
    } else {
      if |s| == 32 {
        DigitsLackColon(s, 16);
      } else if |s| == 36 {
        HyphenatedLacksColon(s);
      } else {
        HyphenatedLacksColon(s[1..37]);
        assert s == [s[0]] + s[1..37] + [s[37]];
      }
      SplitWhole(s, COLON);
    }
  }

  lemma UrnSplits(h: Text)
    requires Lacks(h, COLON)
    ensures Split(URN + h, COLON) == [[117, 114, 110], [117, 117, 105, 100], h]
  {
    var urn, uuid := [117, 114, 110], [117, 117, 105, 100];
    SplitPrefix(urn, uuid + [COLON] + h, COLON);
    SplitPrefix(uuid, h, COLON);
    SplitWhole(h, COLON);
    assert URN + h == urn + [COLON] + (uuid + [COLON] + h);
  }
}
