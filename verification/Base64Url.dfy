/** URL-safe base64 without padding, as in section 5 of RFC 4648. */
module Base64Url {
  import opened Options

  type Byte = b: int | 0 <= b < 256
  type Sextet = v: int | 0 <= v < 64

  function Letter(v: Sextet): Byte {
    if v < 26 then 65 + v
    else if v < 52 then 97 + (v - 26)
    else if v < 62 then 48 + (v - 52)
    else if v == 62 then 45
    else 95
  }

  function Value(c: Byte): Option<Sextet> {
    if 65 <= c <= 90 then Some(c - 65)
    else if 97 <= c <= 122 then Some(c - 97 + 26)
    else if 48 <= c <= 57 then Some(c - 48 + 52)
    else if c == 45 then Some(62)
    else if c == 95 then Some(63)
    else None
  }

  function Values(cs: seq<Byte>): (r: Option<seq<Sextet>>)
    ensures r.Some? ==> |r.value| == |cs|
  {
    if cs == [] then Some([])
    else match (Value(cs[0]), Values(cs[1..]))
      case (Some(v), Some(vs)) => Some([v] + vs)
      case _ => None
  }

  function Letters(vs: seq<Sextet>): seq<Byte> {
    seq(|vs|, i requires 0 <= i < |vs| => Letter(vs[i]))
  }

  function FirstSextet(a: Byte): Sextet { a / 4 }
  function SecondSextet(a: Byte, b: Byte): Sextet { (a % 4) * 16 + b / 16 }
  function ThirdSextet(b: Byte, c: Byte): Sextet { (b % 16) * 4 + c / 64 }
  function FourthSextet(c: Byte): Sextet { c % 64 }

  /** Bytes to sextets; the last sextet of a short group is filled with zero bits. */
  function Pack(bs: seq<Byte>): seq<Sextet> {
    if |bs| == 0 then []
    else if |bs| == 1 then [FirstSextet(bs[0]), SecondSextet(bs[0], 0)]
    else if |bs| == 2 then [FirstSextet(bs[0]), SecondSextet(bs[0], bs[1]), ThirdSextet(bs[1], 0)]
    else
      [FirstSextet(bs[0]), SecondSextet(bs[0], bs[1]), ThirdSextet(bs[1], bs[2]), FourthSextet(bs[2])]
      + Pack(bs[3..])
  }

  function FirstByte(a: int, b: int): int { a * 4 + b / 16 }
  function SecondByte(b: int, c: int): int { (b % 16) * 16 + c / 4 }
  function ThirdByte(c: int, d: int): int { (c % 4) * 64 + d }

  /** Sextets to bytes; a lone sextet or stray trailing bits are an error. */
  function Unpack(vs: seq<Sextet>): Option<seq<Byte>> {
    if |vs| == 0 then Some([])
    else if |vs| == 1 then None
    else
      var b0 := FirstByte(vs[0], vs[1]);
      if |vs| == 2 then
        if vs[1] % 16 == 0 then Some([b0]) else None
      else
        var b1 := SecondByte(vs[1], vs[2]);
        if |vs| == 3 then
          if vs[2] % 4 == 0 then Some([b0, b1]) else None
        else
          var b2 := ThirdByte(vs[2], vs[3]);
          match Unpack(vs[4..])
          case Some(rest) => Some([b0, b1, b2] + rest)
          case None => None
  }

  function Encode(bs: seq<Byte>): seq<Byte> {
    Letters(Pack(bs))
  }

  function Decode(cs: seq<Byte>): Option<seq<Byte>> {
    match Values(cs)
    case Some(vs) => Unpack(vs)
    case None => None
  }

  lemma ValuesOfLetters(vs: seq<Sextet>)
    ensures Values(Letters(vs)) == Some(vs)
  {
    if vs != [] {
      ValuesOfLetters(vs[1..]);
      assert Letters(vs)[1..] == Letters(vs[1..]);
      assert vs == [vs[0]] + vs[1..];
    }
  }

  lemma LettersCons(v: Sextet, vs: seq<Sextet>)
    ensures Letters([v] + vs) == [Letter(v)] + Letters(vs)
  {
    hide Letter;
  }

  lemma LetterOfValue(c: Byte)
    requires Value(c).Some?
    ensures Letter(Value(c).value) == c
  {
  }

  lemma {:induction false} LettersOfValues(cs: seq<Byte>)
    requires Values(cs).Some?
    ensures Letters(Values(cs).value) == cs
  {
    hide Letter, Value, Letters;
    if cs == [] {
      NoLetters();
    } else {
      LettersOfValues(cs[1..]);
      LettersCons(Value(cs[0]).value, Values(cs[1..]).value);
      LetterOfValue(cs[0]);
      assert cs == [cs[0]] + cs[1..];
    }
  }

  lemma NoLetters()
    ensures Letters([]) == []
  {
  }

  lemma FirstByteBack(a: Byte, b: Byte)
    ensures FirstByte(FirstSextet(a), SecondSextet(a, b)) == a
    ensures SecondSextet(a, 0) % 16 == 0
  {
    assert SecondSextet(a, b) / 16 == a % 4;
  }

  lemma SecondByteBack(a: Byte, b: Byte, c: Byte)
    ensures SecondByte(SecondSextet(a, b), ThirdSextet(b, c)) == b
    ensures ThirdSextet(b, 0) % 4 == 0
  {
    assert SecondSextet(a, b) % 16 == b / 16;
    assert ThirdSextet(b, c) / 4 == b % 16;
  }

  lemma ThirdByteBack(b: Byte, c: Byte)
    ensures ThirdByte(ThirdSextet(b, c), FourthSextet(c)) == c
  {
    assert ThirdSextet(b, c) % 4 == c / 64;
  }

  lemma GroupRoundTrip(a: Byte, b: Byte, c: Byte)
    ensures FirstByte(FirstSextet(a), SecondSextet(a, b)) == a
    ensures SecondByte(SecondSextet(a, b), ThirdSextet(b, c)) == b
    ensures ThirdByte(ThirdSextet(b, c), FourthSextet(c)) == c
    ensures SecondSextet(a, 0) % 16 == 0 && ThirdSextet(b, 0) % 4 == 0
  {
    hide *;
    FirstByteBack(a, b);
    SecondByteBack(a, b, c);
    ThirdByteBack(b, c);
  }

  lemma {:induction false} UnpackPack(bs: seq<Byte>)
    ensures Unpack(Pack(bs)) == Some(bs)
  {
    hide FirstSextet;
    hide SecondSextet;
    hide ThirdSextet;
    hide FourthSextet;
    hide FirstByte;
    hide SecondByte;
    hide ThirdByte;
    var vs := Pack(bs);
    if |bs| >= 3 {
      UnpackPack(bs[3..]);
      assert vs[4..] == Pack(bs[3..]);
      GroupRoundTrip(bs[0], bs[1], bs[2]);
      assert bs == [bs[0], bs[1], bs[2]] + bs[3..];
    } else if |bs| == 2 {
      GroupRoundTrip(bs[0], bs[1], 0);
      assert bs == [bs[0], bs[1]];
    } else if |bs| == 1 {
      GroupRoundTrip(bs[0], 0, 0);
      assert bs == [bs[0]];
    }
  }

  lemma {:induction false} PackUnpack(vs: seq<Sextet>)
    requires Unpack(vs).Some?
    ensures Pack(Unpack(vs).value) == vs
  {
    hide FirstSextet, SecondSextet, ThirdSextet, FourthSextet, FirstByte, SecondByte, ThirdByte;
    var bs := Unpack(vs).value;
    if |vs| >= 4 {
      PackUnpack(vs[4..]);
      SextetsBack(vs[0], vs[1], vs[2], vs[3]);
      assert bs[3..] == Unpack(vs[4..]).value;
      assert vs == [vs[0], vs[1], vs[2], vs[3]] + vs[4..];
    } else if |vs| == 3 {
      SextetsBack(vs[0], vs[1], vs[2], 0);
      assert bs == [FirstByte(vs[0], vs[1]), SecondByte(vs[1], vs[2])];
    } else if |vs| == 2 {
      SextetsBack(vs[0], vs[1], 0, 0);
      assert bs == [FirstByte(vs[0], vs[1])];
    }
  }

  lemma SextetsBack(a: Sextet, b: Sextet, c: Sextet, d: Sextet)
    ensures 0 <= FirstByte(a, b) < 256 && 0 <= SecondByte(b, c) < 256 && 0 <= ThirdByte(c, d) < 256
    ensures FirstSextet(FirstByte(a, b)) == a && FourthSextet(ThirdByte(c, d)) == d
    ensures SecondSextet(FirstByte(a, b), SecondByte(b, c)) == b
    ensures ThirdSextet(SecondByte(b, c), ThirdByte(c, d)) == c
    ensures b % 16 == 0 ==> SecondSextet(FirstByte(a, b), 0) == b
    ensures c % 4 == 0 ==> ThirdSextet(SecondByte(b, c), 0) == c
  {
    FirstBack(a, b);
    SecondBack(a, b, c);
    ThirdBack(b, c, d);
    FourthBack(c, d);
  }

  lemma FirstBack(a: Sextet, b: Sextet)
    ensures 0 <= FirstByte(a, b) < 256 && FirstSextet(FirstByte(a, b)) == a
    ensures b % 16 == 0 ==> SecondSextet(FirstByte(a, b), 0) == b
  {
  }

  lemma In16(hi: int, lo: int)
    requires 0 <= lo < 16
    ensures (hi * 16 + lo) / 16 == hi && (hi * 16 + lo) % 16 == lo
  {
  }

  lemma In4(hi: int, lo: int)
    requires 0 <= lo < 4
    ensures (hi * 4 + lo) / 4 == hi && (hi * 4 + lo) % 4 == lo
  {
  }

  lemma In64(hi: int, lo: int)
    requires 0 <= lo < 64
    ensures (hi * 64 + lo) / 64 == hi && (hi * 64 + lo) % 64 == lo
  {
  }

  lemma SecondBack(a: Sextet, b: Sextet, c: Sextet)
    ensures 0 <= SecondByte(b, c) < 256 && 0 <= FirstByte(a, b) < 256
    ensures SecondSextet(FirstByte(a, b), SecondByte(b, c)) == b
  {
    In4(a, b / 16);
    In16(b % 16, c / 4);
  }

  lemma ThirdBack(b: Sextet, c: Sextet, d: Sextet)
    ensures 0 <= SecondByte(b, c) < 256 && 0 <= ThirdByte(c, d) < 256
    ensures ThirdSextet(SecondByte(b, c), ThirdByte(c, d)) == c
    ensures c % 4 == 0 ==> ThirdSextet(SecondByte(b, c), 0) == c
  {
    In16(b % 16, c / 4);
    In64(c % 4, d);
  }

  lemma FourthBack(c: Sextet, d: Sextet)
    ensures 0 <= ThirdByte(c, d) < 256 && FourthSextet(ThirdByte(c, d)) == d
  {
  }

  /** Printing then reading gives the bytes back. */
  lemma DecodeEncode(bs: seq<Byte>)
    ensures Decode(Encode(bs)) == Some(bs)
  {
    ValuesOfLetters(Pack(bs));
    UnpackPack(bs);
  }

  /** Only the canonical spelling of some bytes is read at all. */
  lemma EncodeDecode(cs: seq<Byte>)
    requires Decode(cs).Some?
    ensures Encode(Decode(cs).value) == cs
  {
    LettersOfValues(cs);
    PackUnpack(Values(cs).value);
  }
}
