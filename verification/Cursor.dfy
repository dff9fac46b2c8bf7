/**
 The walk's cursor strings: base64url text `ns:uuid`, the older
 `section:ns:uuid` text, and the strict check on the author route.
 */
module Cursor {
  import opened Options
  import opened Base64Url
  import opened CursorText
  import opened Splitting
  import opened Timeline

  ghost predicate InRange(k: Key) {
    -I128_BOUND <= k.ts < I128_BOUND && k.id < UUID_BOUND
  }

  function MergedText(k: Key): Text {
    PrintInt(k.ts) + [COLON] + PrintUuid(k.id)
  }

  function EncodeMerged(k: Key): Text {
    Encode(MergedText(k))
  }

  function EncodeSectioned(section: Text, k: Key): Text {
    Encode(section + [COLON] + MergedText(k))
  }

  function KeyOf(ns: Text, id: Text): Option<Key> {
    match (ParseI128(ns), ParseUuid(id))
    case (Some(n), Some(u)) => Some(Key(n, u))
    case _ => None
  }

  function DecodeMerged(raw: Text): Option<Key> {
    match Decode(raw)
    case None => None
    case Some(s) =>
      if !ValidUtf8(s) then None
      else
        var parts := Split(s, COLON);
        if |parts| == 2 then KeyOf(parts[0], parts[1])
        else if |parts| == 3 then KeyOf(parts[1], parts[2])
        else None
  }

  predicate IsTimelineCursor(raw: Text) {
    match Decode(raw)
    case None => false
    case Some(s) =>
      && ValidUtf8(s)
      && var once := SplitOnce(s, COLON);
         once.Some? && ParseI128(once.value.0).Some? && ParseUuid(once.value.1).Some?
  }

  lemma MergedTextParts(k: Key)
    requires InRange(k)
    ensures Split(MergedText(k), COLON) == [PrintInt(k.ts), PrintUuid(k.id)]
    ensures SplitOnce(MergedText(k), COLON) == Some((PrintInt(k.ts), PrintUuid(k.id)))
    ensures KeyOf(PrintInt(k.ts), PrintUuid(k.id)) == Some(k)
    ensures Ascii(MergedText(k)) && ValidUtf8(MergedText(k))
  {
    hide Split;
    hide SplitOnce;
    hide PrintInt;
    hide PrintUuid;
    hide ParseI128;
    hide ParseUuid;
    hide ParseHyphenated;
    PrintIntPlain(k.ts);
    PrintIntReads(k.ts);
    PrintUuidReads(k.id);
    SplitPrefix(PrintInt(k.ts), PrintUuid(k.id), COLON);
    SplitWhole(PrintUuid(k.id), COLON);
    AsciiAfterUtf8([], MergedText(k));
    assert [] + MergedText(k) == MergedText(k);
  }

  /** Every key a page can hand out comes back unchanged, and the strict check lets it in. */
  lemma MergedCursorRoundTrip(k: Key)
    requires InRange(k)
    ensures DecodeMerged(EncodeMerged(k)) == Some(k)
    ensures IsTimelineCursor(EncodeMerged(k))
  {
    MergedTextParts(k);
    DecodeEncode(MergedText(k));
    hide Encode;
    hide Decode;
    hide MergedText;
    hide Split;
    hide SplitOnce;
    hide ValidUtf8;
  }

  /** A sectioned cursor still decodes to its key but the strict check refuses it. */
  lemma SectionedCursorIsTolerated(section: Text, k: Key)
    requires InRange(k) && ValidUtf8(section) && Lacks(section, COLON)
    ensures DecodeMerged(EncodeSectioned(section, k)) == Some(k)
    ensures !IsTimelineCursor(EncodeSectioned(section, k))
  {
    hide MergedText;
    hide Split;
    hide SplitOnce;
    hide ValidUtf8;
    hide ParseUuid;
    hide ParseI128;
    hide PrintInt;
    hide PrintUuid;
    hide Decode;
    hide Encode;
    hide DecodeMerged;
    hide IsTimelineCursor;
    hide KeyOf;
    var s := section + [COLON] + MergedText(k);
    MergedTextParts(k);
    DecodeEncode(s);
    SplitPrefix(section, MergedText(k), COLON);
    assert Ascii([COLON] + MergedText(k));
    AsciiAfterUtf8(section, [COLON] + MergedText(k));
    assert section + ([COLON] + MergedText(k)) == s;
    MergedTextIsNoUuid(k);
    assert EncodeSectioned(section, k) == Encode(s);
    ThreePartsRead(s, section, PrintInt(k.ts), PrintUuid(k.id), MergedText(k));
  }

  lemma ThreePartsRead(s: Text, section: Text, ns: Text, id: Text, rest: Text)
    requires Decode(Encode(s)) == Some(s) && ValidUtf8(s)
    requires SplitOnce(s, COLON) == Some((section, rest)) && Split(s, COLON) == [section, ns, id]
    requires ParseUuid(rest).None?
    ensures DecodeMerged(Encode(s)) == KeyOf(ns, id) && !IsTimelineCursor(Encode(s))
  {
    hide ParseUuid;
    hide ParseI128;
    hide Split;
    hide SplitOnce;
    hide ValidUtf8;
    hide Encode;
    hide Decode;
    hide KeyOf;
  }

  /** `ns:uuid` is never itself a UUID spelling: it has a colon but is no URN. */
  lemma MergedTextIsNoUuid(k: Key)
    requires InRange(k)
    ensures ParseUuid(MergedText(k)).None?
  {
    var s := MergedText(k);
    PrintIntPlain(k.ts);
    var n := |PrintInt(k.ts)|;
    assert s[n] == COLON;
    assert s[0] == PrintInt(k.ts)[0];
    hide PrintInt;
    hide PrintUuid;
    assert |s| == n + 37;
  }

  /**
   Cursors of two parts: the strict check accepts exactly what decodes.
   Of three parts: it accepts nothing.
   */
  lemma StrictCheckByParts(raw: Text)
    requires Decode(raw).Some? && ValidUtf8(Decode(raw).value)
    ensures |Split(Decode(raw).value, COLON)| == 2 ==> (IsTimelineCursor(raw) <==> DecodeMerged(raw).Some?)
    ensures |Split(Decode(raw).value, COLON)| == 3 ==> !IsTimelineCursor(raw)
  {
    var s := Decode(raw).value;
    SplitOnceThenRest(s, COLON);
    if SplitOnce(s, COLON).Some? {
      var id := SplitOnce(s, COLON).value.1;
      SplitOnceThenRest(id, COLON);
      if ParseUuid(id).Some? {
        ColonsInUuid(id);
      }
    }
    hide Split;
    hide SplitOnce;
    hide ValidUtf8;
    hide ParseUuid;
    hide ParseI128;
    hide Decode;
  }

  /**
   Exactly when the two readers agree: a cursor the strict check accepts has two parts or four, and decodes if
   and only if it has two; a cursor that decodes has two parts or three, and is accepted if and only if it has two.
   */
  lemma ReadersAgreeOnTwoParts(raw: Text)
    ensures IsTimelineCursor(raw) || DecodeMerged(raw).Some? ==> Decode(raw).Some?
    ensures IsTimelineCursor(raw) ==>
              var n := |Split(Decode(raw).value, COLON)|;
              (n == 2 || n == 4) && (DecodeMerged(raw).Some? <==> n == 2)
    ensures DecodeMerged(raw).Some? ==>
              var n := |Split(Decode(raw).value, COLON)|;
              (n == 2 || n == 3) && (IsTimelineCursor(raw) <==> n == 2)
  {
    hide Split, SplitOnce, ValidUtf8, ParseUuid, ParseI128, Decode, KeyOf;
    if Decode(raw).Some? && ValidUtf8(Decode(raw).value) {
      StrictCheckByParts(raw);
      if IsTimelineCursor(raw) { AcceptedParts(raw); }
    }
  }

  lemma AcceptedParts(raw: Text)
    requires IsTimelineCursor(raw)
    ensures |Split(Decode(raw).value, COLON)| == 2 || |Split(Decode(raw).value, COLON)| == 4
  {
    hide Split, SplitOnce, ValidUtf8, ParseUuid, ParseI128, Decode;
    var s := Decode(raw).value;
    SplitOnceThenRest(s, COLON);
    var id := SplitOnce(s, COLON).value.1;
    ColonsInUuid(id);
  }

  /**
   The two readers of a cursor part ways on URN spellings: the strict check
   lets `ns:urn:uuid:...` in, the decoder sees four parts and drops the keyset.
   */
  lemma UrnCursorIsAcceptedButNotDecoded(k: Key)
    requires InRange(k)
    ensures var raw := Encode(PrintInt(k.ts) + [COLON] + (URN + PrintUuid(k.id)));
            IsTimelineCursor(raw) && DecodeMerged(raw).None?
  {
    hide Split;
    hide SplitOnce;
    hide ValidUtf8;
    hide ParseUuid;
    hide ParseI128;
    hide PrintInt;
    hide PrintUuid;
    hide Decode;
    hide Encode;
    hide DecodeMerged;
    hide IsTimelineCursor;
    var id := URN + PrintUuid(k.id);
    var s := PrintInt(k.ts) + [COLON] + id;
    DecodeEncode(s);
    PrintIntPlain(k.ts);
    PrintIntReads(k.ts);
    PrintUuidReads(k.id);
    assert id[9..] == PrintUuid(k.id) && id[..9] == URN;
    UrnReads(id);
    SplitPrefix(PrintInt(k.ts), id, COLON);
    UrnSplits(PrintUuid(k.id));
    assert Ascii(s);
    AsciiAfterUtf8([], s);
    assert [] + s == s;
    UrnCursorReads(s, PrintInt(k.ts), id);
  }

  lemma UrnReads(id: Text)
    requires |id| == 45 && id[..9] == URN && ParseHyphenated(id[9..]).Some?
    ensures ParseUuid(id).Some?
  {
  }

  lemma UrnCursorReads(s: Text, ns: Text, id: Text)
    requires Decode(Encode(s)) == Some(s) && ValidUtf8(s)
    requires SplitOnce(s, COLON) == Some((ns, id)) && |Split(s, COLON)| == 4
    requires ParseI128(ns).Some? && ParseUuid(id).Some?
    ensures IsTimelineCursor(Encode(s)) && DecodeMerged(Encode(s)).None?
  {
    hide ParseUuid;
    hide ParseI128;
    hide Split;
    hide SplitOnce;
    hide ValidUtf8;
    hide Encode;
    hide Decode;
  }
}
