/** Loading and serializing undo each other; where they do not, exactly when they do. */
module DocumentRoundTrip {
  import opened Prelude
  import opened Codec
  import opened DocumentBytes

  // --- BOM detection on serialized bytes -----------------------------------------------------

  lemma SniffPair(raw: seq<byte>, a: BomKind, b: BomKind)
    ensures Sniff(raw, [a, b]) == if BomBytes(a) <= raw then a else if BomBytes(b) <= raw then b else NoBom
  {
    assert [a, b][1..] == [b];
    assert Sniff(raw, [b]) == if BomBytes(b) <= raw then b else NoBom;
  }

  lemma SniffOrder(raw: seq<byte>)
    ensures BomOf(raw) ==
      if BomBytes(BomUtf32LE) <= raw then BomUtf32LE
      else if BomBytes(BomUtf32BE) <= raw then BomUtf32BE
      else if BomBytes(BomUtf8) <= raw then BomUtf8
      else if BomBytes(BomUtf16LE) <= raw then BomUtf16LE
      else if BomBytes(BomUtf16BE) <= raw then BomUtf16BE
      else NoBom
  {
    var c1, c2 := CANDIDATES[1..], CANDIDATES[2..];
    assert c1[1..] == c2 && c2[0] == BomUtf8 && c2[1..] == [BomUtf16LE, BomUtf16BE];
    SniffPair(raw, BomUtf16LE, BomUtf16BE);
    assert Sniff(raw, c2) == if BomBytes(BomUtf8) <= raw then BomUtf8 else Sniff(raw, c2[1..]);
    assert Sniff(raw, c1) == if BomBytes(BomUtf32BE) <= raw then BomUtf32BE else Sniff(raw, c2);
  }

  lemma FirstBytes(e: Encoding, s: string)
    requires s != ""
    ensures EncodeChar(e, s[0]) <= Encode(e, s)
    ensures s[0] != '\0' && (e.Utf16LE? || e.Utf16BE?) ==> Encode(e, s)[..2] != [0, 0]
  {
    var first := EncodeChar(e, s[0]);
    assert Encode(e, s)[..|first|] == first;
    if e.Utf16LE? || e.Utf16BE? {
      assert Encode(e, s)[..2] == first[..2];
    }
  }

  /** In UTF-8 no text starts like another BOM, and only U+FEFF is spelled EF BB BF. */
  lemma Utf8Start(s: string)
    requires s != "" && s[0] != '\0'
    ensures var b := Encode(Utf8, s); b[0] != 0 && b[0] != 0xFE && b[0] != 0xFF
    ensures [0xEF, 0xBB, 0xBF] <= Encode(Utf8, s) <==> s[0] == BOM_CHAR
  {
    FirstBytes(Utf8, s);
    var v, b := s[0] as int, Encode(Utf8, s);
    assert b[0] == EncodeChar(Utf8, s[0])[0];
    if [0xEF, 0xBB, 0xBF] <= b {
      assert |EncodeUtf8(v)| == 3;
      assert EncodeUtf8(v) == b[..3] == [0xEF, 0xBB, 0xBF];
      assert EncodeUtf8(v)[1] == 0xBB && EncodeUtf8(v)[2] == 0xBF;
      assert v / 0x1000 == 0xF && v / 0x40 % 0x40 == 0x3B && v % 0x40 == 0x3F;
      Digits(v);
    }
    if s[0] == BOM_CHAR {
      assert EncodeUtf8(0xFEFF) == [0xEF, 0xBB, 0xBF];
    }
  }

  /** The BOM written is the BOM found; NUL is what could turn UTF-16-LE into UTF-32-LE. */
  lemma BomOfSerialized(bom: BomKind, s: string)
    requires '\0' !in s
    ensures BomOf(BomBytes(bom) + Encode(EncodingOf(bom), s))
         == if bom == NoBom && s != "" && s[0] == BOM_CHAR then BomUtf8 else bom
  {
    var payload := Encode(EncodingOf(bom), s);
    var raw := BomBytes(bom) + payload;
    SniffOrder(raw);
    assert BomBytes(bom) <= raw;
    assert bom == BomUtf8 || bom == BomUtf16LE || bom == BomUtf16BE ==> raw[0] == BomBytes(bom)[0] != 0;
    if bom == NoBom {
      assert raw == payload;
      if s != "" { Utf8Start(s); }
    } else if bom == BomUtf16LE && BomBytes(BomUtf32LE) <= raw {
      assert payload[..2] == raw[2..4];
      FirstBytes(Utf16LE, s);
    }
  }

  // --- Line endings --------------------------------------------------------------------------

  lemma UnmixedHasOneKind(t: string)
    requires !EolProfileOf(t).mixed
    ensures Only(t, EolProfileOf(t).dominant)
  {
    EolProfileMeaning(t);
    var d := EolProfileOf(t).dominant;
    forall k | 0 <= k < |t| ensures KindAt(t, k) == NoEnding || KindAt(t, k) == d {
      if KindAt(t, k) != NoEnding && d != NoEnding {
        assert OccursBefore(t, KindAt(t, k), |t|) && OccursBefore(t, d, |t|);
      }
    }
  }

  lemma OneKindIsUnmixed(t: string, d: LineEnding)
    requires d != NoEnding && Only(t, d)
    ensures !EolProfileOf(t).mixed && EolProfileOf(t).dominant == if HasEnding(t) then d else NoEnding
  {
    EolProfileMeaning(t);
  }

  lemma {:induction false} OnePassRemovesCr(s: string)
    ensures '\r' !in OnePass(s)
    ensures '\r' !in s ==> OnePass(s) == s
  {
    if s == "" {
    } else {
      OnePassRemovesCr(s[if "\r\n" <= s then 2 else 1..]);
      assert s == [s[0]] + s[1..];
    }
  }

  lemma {:induction false} ReplaceKeepsAbsent(s: string, sub: string, c: char)
    requires c !in sub
    ensures c != '\n' ==> (c in Replace(s, "\n", sub) <==> c in s)
  {
    if s == "" {
    } else {
      ReplaceKeepsAbsent(s[1..], sub, c);
      assert s == [s[0]] + s[1..];
    }
  }

  // --- Main results --------------------------------------------------------------------------

  lemma {:induction false} OnePassKeepsNul(s: string)
    ensures '\0' in OnePass(s) <==> '\0' in s
  {
    if s == "" {
    } else {
      var m := if "\r\n" <= s then 2 else 1;
      OnePassKeepsNul(s[m..]);
      assert s == s[..m] + s[m..];
    }
  }

  /** Opening and saving unchanged is the identity on bytes, for every unmixed file. */
  lemma ContentNeutral(raw: seq<byte>)
    requires Load(raw).Ok? && !Load(raw).value.meta.eol.mixed
    ensures var d := Load(raw).value; Serialize(d.text, ProfileFor(Some(d.meta)), false) == Ok(raw)
  {
    hide Localize, OnePass, Normalize, Encode, Decode, KindAt, EolProfileOf, BomOf;
    var decoded, d := DecodeBytes(raw).value, Load(raw).value;
    var p := ProfileFor(Some(d.meta));
    NormalizeIsOnePass(decoded);
    OnePassKeepsNul(decoded);
    UnmixedHasOneKind(decoded);
    assert Only(decoded, p.lineEnding);
    LocalizeNormalized(decoded, p.lineEnding);
    var bom := BomBytes(BomOf(raw));
    EncodeDecode(p.encoding, raw[|bom|..]);
    assert raw == bom + raw[|bom|..];
  }

  /** What reading back the bytes of a serialized text yields, for every text and profile. */
  lemma LoadSerialized(text: string, p: Profile, allowMixed: bool)
    requires Supported(p) && Serialize(text, p, allowMixed).Ok?
    ensures
      var raw := Serialize(text, p, allowMixed).value;
      var written := Localize(text, p.lineEnding);
      var swallowed := p.bom == NoBom && written != "" && written[0] == BOM_CHAR;
      var decoded := if swallowed then written[1..] else written;
      && BomOf(raw) == (if swallowed then BomUtf8 else p.bom)
      && Load(raw) == Ok(LoadedText(OnePass(decoded), LoadMetadata(p.encoding, BomOf(raw), EolProfileOf(decoded))))
  {
    hide EolProfileOf, OnePass, Normalize, BomOf, Decode;
    var written := Localize(text, p.lineEnding);
    var payload := Encode(p.encoding, written);
    var raw := BomBytes(p.bom) + payload;
    if Separator(p.lineEnding) != "\n" {
      ReplaceKeepsAbsent(text, Separator(p.lineEnding), '\0');
    }
    BomOfSerialized(p.bom, written);
    if p.bom == NoBom && written != "" && written[0] == BOM_CHAR {
      assert EncodeUtf8(0xFEFF) == [0xEF, 0xBB, 0xBF];
      assert payload == EncodeUtf8(0xFEFF) + Encode(Utf8, written[1..]);
      assert raw[3..] == Encode(Utf8, written[1..]);
      DecodeEncode(Utf8, written[1..]);
      NormalizeIsOnePass(written[1..]);
    } else {
      assert raw[|BomBytes(p.bom)|..] == payload;
      DecodeEncode(p.encoding, written);
      NormalizeIsOnePass(written);
    }
  }

  /** The texts that serialize and load back unchanged. */
  predicate Faithful(text: string, p: Profile) {
    '\r' !in text && !(p.bom == NoBom && text != "" && text[0] == BOM_CHAR)
  }

  lemma LocalizeHead(text: string, d: LineEnding)
    requires text != "" && text[0] != '\n'
    ensures Localize(text, d) == [text[0]] + Localize(text[1..], d)
  {
  }

  /**
    Saving and reopening gives back the text exactly when it is free of CR and does not start with
    U+FEFF under a profile without BOM.  Then encoding, BOM and line ending come back too, the last
    one exactly when the text shows it or it is the default.
   */
  lemma SerializeThenLoad(text: string, p: Profile, allowMixed: bool)
    requires Supported(p) && Serialize(text, p, allowMixed).Ok?
    ensures
      var loaded := Load(Serialize(text, p, allowMixed).value);
      && loaded.Ok?
      && (loaded.value.text == text <==> Faithful(text, p))
      && (Faithful(text, p) ==>
            && loaded.value.meta.encoding == p.encoding && loaded.value.meta.bom == p.bom
            && !loaded.value.meta.eol.mixed
            && (p.lineEnding != NoEnding ==>
                  (ProfileFor(Some(loaded.value.meta)) == p.(mixedSource := false) <==>
                   '\n' in text || p.lineEnding == LF)))
  {
    LoadSerialized(text, p, allowMixed);
    var written := Localize(text, p.lineEnding);
    var loaded := Load(Serialize(text, p, allowMixed).value).value;
    if text == "" {
      assert written == "";
    } else if text[0] != '\n' {
      LocalizeHead(text, p.lineEnding);
      assert ([text[0]] + Localize(text[1..], p.lineEnding))[1..] == Localize(text[1..], p.lineEnding);
    }
    if '\r' !in text {
      NormalizeLocalized(text, p.lineEnding);
      if Faithful(text, p) {
        OneKindIsUnmixed(written, if p.lineEnding == NoEnding then LF else p.lineEnding);
      } else {
        NormalizeLocalized(text[1..], p.lineEnding);
      }
    } else {
      OnePassRemovesCr(if p.bom == NoBom && written != "" && written[0] == BOM_CHAR then written[1..] else written);
    }
  }

  /** Saved without BOM, a text of one U+FEFF comes back empty: its bytes are those of the UTF-8 BOM. */
  lemma LoneBomIsSwallowed()
    ensures
      var p := Profile(Utf8, NoBom, LF, false);
      var saved := Serialize([BOM_CHAR], p, false);
      && saved == Ok([0xEF, 0xBB, 0xBF]) && Load(saved.value).Ok?
      && Load(saved.value).value.text == "" && Load(saved.value).value.meta.bom == BomUtf8
  {
    var p, text := Profile(Utf8, NoBom, LF, false), [BOM_CHAR];
    assert Localize(text, LF) == text && text[0] == BOM_CHAR && text[1..] == [];
    assert EncodeChar(Utf8, BOM_CHAR) == EncodeUtf8(0xFEFF) == [0xEF, 0xBB, 0xBF];
    assert Encode(Utf8, text) == [0xEF, 0xBB, 0xBF];
    var raw: seq<byte> := [0xEF, 0xBB, 0xBF];
    assert BomBytes(NoBom) + Encode(Utf8, Localize(text, LF)) == raw;
    assert Serialize(text, p, false) == Ok(raw);
    LoadSerialized(text, p, false);
    assert OnePass([]) == "";
  }

  /** The line ending of the profile that the saved bytes are loaded with. */
  function EndingRead(text: string, ending: LineEnding): LineEnding {
    var d := EolProfileOf(Localize(text, ending)).dominant;
    if d == NoEnding then LF else d
  }

  /** The baseline's profile writes the text as it was written: no U+FEFF was lost, and every LF is spelled the same. */
  predicate Reproducible(text: string, p: Profile) {
    && !(p.bom == NoBom && text != "" && text[0] == BOM_CHAR)
    && ('\n' in text ==> Separator(EndingRead(text, p.lineEnding)) == Separator(p.lineEnding))
  }

  lemma EncodeInjective(e: Encoding, a: string, b: string)
    ensures Encode(e, a) == Encode(e, b) <==> a == b
  {
    DecodeEncode(e, a);
    DecodeEncode(e, b);
  }

  lemma {:induction false} LocalizeCounts(text: string, d: LineEnding)
    ensures |Localize(text, d)| == |text| + (if Separator(d) == "\r\n" then multiset(text)['\n'] else 0)
    ensures Separator(d) == "\r" ==> '\n' !in Localize(text, d)
    ensures multiset(Localize(text, d))[BOM_CHAR] == multiset(text)[BOM_CHAR]
  {
    if text == "" {
    } else {
      LocalizeCounts(text[1..], d);
      assert text == [text[0]] + text[1..];
      LocalizeCons(text[0], text[1..], d);
    }
  }

  /** Without a line break every line ending writes the same text. */
  lemma {:induction false} SameText(text: string, a: LineEnding, b: LineEnding)
    ensures '\n' !in text ==> Localize(text, a) == text == Localize(text, b)
  {
    if text == "" {
    } else {
      SameText(text[1..], a, b);
      assert text == [text[0]] + text[1..];
    }
  }

  /** Two line endings write a text alike exactly when it has none or their separators are the same. */
  lemma SameWriting(text: string, a: LineEnding, b: LineEnding)
    ensures Localize(text, a) == Localize(text, b) <==> ('\n' in text ==> Separator(a) == Separator(b))
  {
    LocalizeCounts(text, a);
    LocalizeCounts(text, b);
    SameText(text, a, b);
    assert '\n' in text <==> multiset(text)['\n'] > 0;
  }

  lemma PrefixedByBom(text: string, a: LineEnding, b: LineEnding)
    ensures [BOM_CHAR] + Localize(text, a) != Localize(text, b)
  {
    LocalizeCounts(text, a);
    LocalizeCounts(text, b);
    var longer := [BOM_CHAR] + Localize(text, a);
    assert multiset(longer) == multiset{BOM_CHAR} + multiset(Localize(text, a));
  }

  lemma FirstWritten(text: string, d: LineEnding, c: char)
    requires c != '\n' && c != '\r'
    ensures Localize(text, d) != "" && Localize(text, d)[0] == c <==> text != "" && text[0] == c
  {
    if text != "" {
      assert text == [text[0]] + text[1..];
      LocalizeCons(text[0], text[1..], d);
    }
  }

  /** A lost U+FEFF turns into a BOM, and the BOM is then written in front of another one. */
  lemma SwallowedDiffers(text: string, a: LineEnding, b: LineEnding)
    ensures BomBytes(BomUtf8) + Encode(Utf8, Localize(text, a)) != Encode(Utf8, Localize(text, b))
  {
    var longer := [BOM_CHAR] + Localize(text, a);
    assert EncodeUtf8(0xFEFF) == [0xEF, 0xBB, 0xBF] && longer[1..] == Localize(text, a);
    assert Encode(Utf8, longer) == BomBytes(BomUtf8) + Encode(Utf8, Localize(text, a));
    PrefixedByBom(text, a, b);
    EncodeInjective(Utf8, longer, Localize(text, b));
  }

  lemma SamePrefix(prefix: seq<byte>, a: seq<byte>, b: seq<byte>)
    ensures prefix + a == prefix + b <==> a == b
  {
    if prefix + a == prefix + b {
      assert a == (prefix + a)[|prefix|..] == (prefix + b)[|prefix|..] == b;
    }
  }

  /**
    After a save whose bytes were read back as the new baseline, serializing the same text under the
    baseline's profile gives those bytes again exactly when the text is reproducible, and confirmed
    where the baseline reads as mixed.
   */
  lemma ReserializeExact(text: string, p: Profile, allowMixed: bool, confirmed: bool)
    requires Supported(p) && Serialize(text, p, allowMixed).Ok?
    ensures
      var raw := Serialize(text, p, allowMixed).value;
      && Load(raw).Ok?
      && (Serialize(text, ProfileFor(Some(Load(raw).value.meta)), confirmed) == Ok(raw) <==>
            Reproducible(text, p) && (confirmed || !EolProfileOf(Localize(text, p.lineEnding)).mixed))
  {
    hide Localize, EolProfileOf, Encode;
    var raw, written := Serialize(text, p, allowMixed).value, Localize(text, p.lineEnding);
    LoadSerialized(text, p, allowMixed);
    FirstWritten(text, p.lineEnding, BOM_CHAR);
    var again := ProfileFor(Some(Load(raw).value.meta));
    if p.bom == NoBom && text != "" && text[0] == BOM_CHAR {
      SwallowedDiffers(text, again.lineEnding, p.lineEnding);
    } else {
      SameWriting(text, again.lineEnding, p.lineEnding);
      EncodeInjective(p.encoding, Localize(text, again.lineEnding), written);
      SamePrefix(BomBytes(p.bom), Encode(p.encoding, Localize(text, again.lineEnding)), Encode(p.encoding, written));
    }
  }

  /** A pasted CR in front of an LF is read back as one CRLF, and the baseline's profile writes CR CR LF. */
  lemma CrBeforeLfIsNotReproducible()
    ensures EndingRead("\r\n", LF) == CRLF && !Reproducible("\r\n", Profile(Utf8, NoBom, LF, false))
  {
    var text := "\r\n";
    assert Localize(text, LF) == text && text[0] == '\r' && text[1] == '\n';
    assert KindAt(text, 0) == CRLF && KindAt(text, 1) == NoEnding;
    OneKindIsUnmixed(text, CRLF);
  }

  /** A text of lines separated by LF alone is always reproducible, unless its first character is lost. */
  lemma CleanIsReproducible(text: string, p: Profile)
    requires Faithful(text, p)
    ensures Reproducible(text, p) && !EolProfileOf(Localize(text, p.lineEnding)).mixed
  {
    NormalizeLocalized(text, p.lineEnding);
    OneKindIsUnmixed(Localize(text, p.lineEnding), if p.lineEnding == NoEnding then LF else p.lineEnding);
  }

  /** The file that saving under `p` writes is read back with the same text and `p` as its profile. */
  ghost predicate ReadBack(text: string, p: Profile) {
    var saved := Serialize(text, p, true);
    && saved.Ok? && Load(saved.value).Ok? && Load(saved.value).value.text == text
    && ProfileFor(Some(Load(saved.value).value.meta)) == p.(mixedSource := false)
  }

  lemma FaithfulIsReadBack(text: string, p: Profile)
    requires Supported(p) && p.lineEnding != NoEnding && '\0' !in text && '\n' in text && Faithful(text, p)
    ensures ReadBack(text, p)
  {
    hide Load;
    SerializeThenLoad(text, p, true);
  }

  /**
    A chosen encoding or line ending is what the saved file is read back with, and neither choice touches the other;
    a choice is refused exactly when it is no pair of encoding and mark, or no line ending.
   */
  lemma ChoiceSurvivesSaving(text: string, p: Profile, encoding: Encoding, bom: BomKind, ending: LineEnding)
    requires Supported(p) && p.lineEnding != NoEnding && '\0' !in text && '\n' in text
    ensures
      match WithEncoding(p, encoding, bom)
      case None => encoding != EncodingOf(bom)
      case Some(q) =>
        && encoding == EncodingOf(bom) && q == Profile(encoding, bom, p.lineEnding, p.mixedSource)
        && (Faithful(text, q) ==> ReadBack(text, q))
    ensures
      match WithLineEnding(p, ending)
      case None => ending == NoEnding
      case Some(q) =>
        && ending != NoEnding && q == Profile(p.encoding, p.bom, ending, false)
        && Serialize(text, q, false).Ok? && (Faithful(text, p) ==> ReadBack(text, q))
  {
    hide ReadBack;
    if WithEncoding(p, encoding, bom).Some? && Faithful(text, WithEncoding(p, encoding, bom).value) {
      FaithfulIsReadBack(text, WithEncoding(p, encoding, bom).value);
    }
    if WithLineEnding(p, ending).Some? && Faithful(text, p) {
      FaithfulIsReadBack(text, WithLineEnding(p, ending).value);
    }
  }

  /** Profiles reached from a loaded document by the user's choices stay among the six supported. */
  lemma ProfilesStaySupported(raw: seq<byte>, p: Profile, encoding: Encoding, bom: BomKind, ending: LineEnding)
    requires Supported(p)
    ensures Load(raw).Ok? ==> Supported(ProfileFor(Some(Load(raw).value.meta)))
    ensures WithEncoding(p, encoding, bom).Some? ==> Supported(WithEncoding(p, encoding, bom).value)
    ensures WithLineEnding(p, ending).Some? ==> Supported(WithLineEnding(p, ending).value)
  {
  }
}
