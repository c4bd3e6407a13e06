/**
  The byte boundary of a document: loading detects BOM, encoding and line endings and normalizes
  to LF; serializing restores them.
 */
module DocumentBytes {
  import opened Prelude
  import opened Codec

  datatype BomKind = NoBom | BomUtf8 | BomUtf16LE | BomUtf16BE | BomUtf32LE | BomUtf32BE

  datatype LineEnding = NoEnding | LF | CRLF | CR

  datatype EolProfile = EolProfile(dominant: LineEnding, mixed: bool, finalNewline: bool,
                                   lfCount: nat, crlfCount: nat, crCount: nat)

  datatype LoadMetadata = LoadMetadata(encoding: Encoding, bom: BomKind, eol: EolProfile)

  datatype LoadedText = LoadedText(text: string, meta: LoadMetadata)

  datatype LoadError = UnsupportedEncoding | ContainsNul

  datatype Profile = Profile(encoding: Encoding, bom: BomKind, lineEnding: LineEnding, mixedSource: bool)

  datatype SerializeError = NulRefused | MixedNeedsConfirmation

  const BOM_CHAR: char := '\U{FEFF}'

  function BomBytes(kind: BomKind): seq<byte> {
    match kind
    case NoBom => []
    case BomUtf8 => [0xEF, 0xBB, 0xBF]
    case BomUtf16LE => [0xFF, 0xFE]
    case BomUtf16BE => [0xFE, 0xFF]
    case BomUtf32LE => [0xFF, 0xFE, 0, 0]
    case BomUtf32BE => [0, 0, 0xFE, 0xFF]
  }

  function EncodingOf(kind: BomKind): Encoding {
    match kind
    case NoBom => Utf8
    case BomUtf8 => Utf8
    case BomUtf16LE => Utf16LE
    case BomUtf16BE => Utf16BE
    case BomUtf32LE => Utf32LE
    case BomUtf32BE => Utf32BE
  }

  /** The six encoding/BOM pairs a document can have. */
  predicate Supported(p: Profile) {
    p.encoding == EncodingOf(p.bom)
  }

  /** A byte order mark is U+FEFF in the encoding it announces. */
  lemma BomIsEncodedMark(kind: BomKind)
    requires kind != NoBom
    ensures BomBytes(kind) == Encode(EncodingOf(kind), [BOM_CHAR])
  {
    var mark := [BOM_CHAR];
    assert mark[1..] == [] && Encode(EncodingOf(kind), mark) == EncodeChar(EncodingOf(kind), mark[0]) + [];
  }

  // --- Loading -----------------------------------------------------------------------------

  /** The BOM candidates in the order in which they are tried. */
  const CANDIDATES: seq<BomKind> := [BomUtf32LE, BomUtf32BE, BomUtf8, BomUtf16LE, BomUtf16BE]

  function Sniff(raw: seq<byte>, candidates: seq<BomKind>): BomKind {
    if candidates == [] then NoBom
    else if BomBytes(candidates[0]) <= raw then candidates[0]
    else Sniff(raw, candidates[1..])
  }

  lemma SniffIsPrefix(raw: seq<byte>, candidates: seq<BomKind>)
    ensures BomBytes(Sniff(raw, candidates)) <= raw
  {
  }

  function BomOf(raw: seq<byte>): (bom: BomKind)
    ensures BomBytes(bom) <= raw
  {
    assert CANDIDATES[1..] == [BomUtf32BE, BomUtf8, BomUtf16LE, BomUtf16BE];
    SniffIsPrefix(raw, CANDIDATES);
    Sniff(raw, CANDIDATES)
  }

  function DecodeBytes(raw: seq<byte>): Option<string> {
    Decode(EncodingOf(BomOf(raw)), raw[|BomBytes(BomOf(raw))|..])
  }

  method DecodeBytesLoop(raw: seq<byte>) returns (decoded: Option<string>, encoding: Encoding, bom: BomKind)
    ensures bom == BomOf(raw) && encoding == EncodingOf(bom) && decoded == DecodeBytes(raw)
  {
    var payload := raw;
    encoding := Utf8;
    bom := NoBom;
    var i := 0;
    while i < |CANDIDATES|
      invariant 0 <= i <= |CANDIDATES|
      invariant payload == raw && encoding == Utf8 && bom == NoBom
      invariant BomOf(raw) == Sniff(raw, CANDIDATES[i..])
    {
      var marker := BomBytes(CANDIDATES[i]);
      if marker <= raw {
        payload, encoding, bom := raw[|marker|..], EncodingOf(CANDIDATES[i]), CANDIDATES[i];
        break;
      }
      i := i + 1;
    }
    decoded := Decode(encoding, payload);
  }

  /** The line separator that starts at position `k`, if any. */
  function KindAt(t: string, k: int): LineEnding {
    if !(0 <= k < |t|) then NoEnding
    else if t[k] == '\r' then (if k + 1 < |t| && t[k + 1] == '\n' then CRLF else CR)
    else if t[k] == '\n' && !(k > 0 && t[k - 1] == '\r') then LF
    else NoEnding
  }

  /** The number of separators of one kind that start before position `n`. */
  function Count(t: string, kind: LineEnding, n: nat): nat {
    if n == 0 then 0 else Count(t, kind, n - 1) + (if KindAt(t, n - 1) == kind then 1 else 0)
  }

  predicate OccursBefore(t: string, kind: LineEnding, n: int) {
    exists k :: 0 <= k < n && KindAt(t, k) == kind
  }

  /** `d` is the most frequent separator of `t[..n]`, the one met first when counts tie. */
  predicate IsDominant(t: string, d: LineEnding, n: nat) {
    if d == NoEnding then forall k | 0 <= k < n :: KindAt(t, k) == NoEnding
    else exists first: nat | first < n && KindAt(t, first) == d ::
      forall kind | kind != NoEnding && kind != d ::
        || Count(t, kind, n) < Count(t, d, n)
        || (Count(t, kind, n) == Count(t, d, n) && !OccursBefore(t, kind, first))
  }

  predicate IsEolProfile(t: string, p: EolProfile) {
    && p.lfCount == Count(t, LF, |t|) && p.crlfCount == Count(t, CRLF, |t|) && p.crCount == Count(t, CR, |t|)
    && IsDominant(t, p.dominant, |t|)
    && (p.mixed <==>
        exists a, b :: a != b && a != NoEnding && b != NoEnding && OccursBefore(t, a, |t|) && OccursBefore(t, b, |t|))
    && (p.finalNewline <==> t != "" && (t[|t| - 1] == '\n' || t[|t| - 1] == '\r'))
  }

  /** The position of the first separator of one kind before `n`. */
  function First(t: string, kind: LineEnding, n: nat): Option<nat> {
    if n == 0 then None
    else if First(t, kind, n - 1).Some? then First(t, kind, n - 1)
    else if KindAt(t, n - 1) == kind then Some(n - 1)
    else None
  }

  /** The more frequent of two kinds; on a tie the one met first. */
  function Better(t: string, a: LineEnding, b: LineEnding): LineEnding {
    var n := |t|;
    if || Count(t, b, n) > Count(t, a, n)
       || (Count(t, b, n) == Count(t, a, n) && First(t, b, n).Some? && First(t, a, n).Some?
           && First(t, b, n).value < First(t, a, n).value)
    then b else a
  }

  function Dominant(t: string): LineEnding {
    var best := Better(t, Better(t, LF, CRLF), CR);
    if Count(t, best, |t|) == 0 then NoEnding else best
  }

  function EolProfileOf(t: string): EolProfile {
    var lf, crlf, cr := Count(t, LF, |t|), Count(t, CRLF, |t|), Count(t, CR, |t|);
    EolProfile(Dominant(t), (lf > 0 && crlf > 0) || (lf > 0 && cr > 0) || (crlf > 0 && cr > 0),
               t != "" && t[|t| - 1] in "\r\n", lf, crlf, cr)
  }

  lemma {:induction false} CountMeaning(t: string, kind: LineEnding, n: nat)
    ensures Count(t, kind, n) > 0 <==> OccursBefore(t, kind, n)
    ensures First(t, kind, n).Some? <==> OccursBefore(t, kind, n)
    ensures match First(t, kind, n)
            case None => true
            case Some(i) => i < n && KindAt(t, i) == kind && !OccursBefore(t, kind, i)
  {
    if n == 0 {
    } else {
      CountMeaning(t, kind, n - 1);
    }
  }

  lemma DominantBeats(t: string, kind: LineEnding)
    requires Dominant(t) != NoEnding && kind != NoEnding && kind != Dominant(t)
    ensures var n, d := |t|, Dominant(t);
      && First(t, d, n).Some?
      && (Count(t, kind, n) < Count(t, d, n)
          || (Count(t, kind, n) == Count(t, d, n) && !OccursBefore(t, kind, First(t, d, n).value)))
  {
    var n, d := |t|, Dominant(t);
    CountMeaning(t, LF, n);
    CountMeaning(t, CRLF, n);
    CountMeaning(t, CR, n);
    if Count(t, kind, n) == Count(t, d, n) {
      var i, j := First(t, kind, n).value, First(t, d, n).value;
      assert KindAt(t, i) == kind && KindAt(t, j) == d;
      assert j < i;
    }
  }

  /** The computed profile is the declared one. */
  lemma EolProfileMeaning(t: string)
    ensures IsEolProfile(t, EolProfileOf(t))
  {
    var n := |t|;
    CountMeaning(t, LF, n);
    CountMeaning(t, CRLF, n);
    CountMeaning(t, CR, n);
    var d := Dominant(t);
    if d == NoEnding {
      forall k | 0 <= k < n ensures KindAt(t, k) == NoEnding {
        assert !OccursBefore(t, KindAt(t, k), n) || KindAt(t, k) == NoEnding;
      }
    } else {
      var first := First(t, d, n).value;
      forall kind | kind != NoEnding && kind != d
        ensures Count(t, kind, n) < Count(t, d, n)
             || (Count(t, kind, n) == Count(t, d, n) && !OccursBefore(t, kind, first))
      {
        DominantBeats(t, kind);
      }
    }
  }

  lemma PastEnding(t: string, i: nat, kind: LineEnding)
    requires i < |t| && (0 < i && t[i] == '\n' ==> t[i - 1] != '\r') && kind != NoEnding
    ensures
      var j := if KindAt(t, i) == CRLF then i + 2 else i + 1;
      && Count(t, kind, j) == Count(t, kind, i) + (if KindAt(t, i) == kind then 1 else 0)
      && First(t, kind, j) == (if First(t, kind, i).None? && KindAt(t, i) == kind then Some(i) else First(t, kind, i))
      && (j < |t| && t[j] == '\n' ==> t[j - 1] != '\r')
  {
    assert KindAt(t, i) == CRLF ==> KindAt(t, i + 1) == NoEnding;
  }

  method CountEndings(t: string) returns (counts: map<LineEnding, nat>, firstIndex: map<LineEnding, Option<nat>>)
    ensures counts.Keys == firstIndex.Keys == {LF, CRLF, CR}
    ensures forall kind | kind in counts ::
              counts[kind] == Count(t, kind, |t|) && firstIndex[kind] == First(t, kind, |t|)
  {
    counts := map[LF := 0, CRLF := 0, CR := 0];
    firstIndex := map[LF := None, CRLF := None, CR := None];
    var i := 0;
    while i < |t|
      invariant 0 <= i <= |t|
      invariant 0 < i < |t| && t[i] == '\n' ==> t[i - 1] != '\r'
      invariant counts.Keys == firstIndex.Keys == {LF, CRLF, CR}
      invariant forall kind | kind in counts ::
                  counts[kind] == Count(t, kind, i) && firstIndex[kind] == First(t, kind, i)
    {
      var kind := KindAt(t, i);
      forall k | k in counts { PastEnding(t, i, k); }
      if kind != NoEnding {
        counts := counts[kind := counts[kind] + 1];
        if firstIndex[kind].None? {
          firstIndex := firstIndex[kind := Some(i)];
        }
      }
      i := if kind == CRLF then i + 2 else i + 1;
    }
  }

  method LineEndingProfileLoop(t: string) returns (p: EolProfile)
    ensures p == EolProfileOf(t)
  {
    var counts, firstIndex := CountEndings(t);
    var present, dominant := if counts[LF] > 0 then 1 else 0, LF;
    var kinds := [CRLF, CR];
    for j := 0 to |kinds|
      invariant dominant in counts.Keys
      invariant dominant == if j == 0 then LF else if j == 1 then Better(t, LF, CRLF)
                            else Better(t, Better(t, LF, CRLF), CR)
      invariant present == (if counts[LF] > 0 then 1 else 0) + (if j > 0 && counts[CRLF] > 0 then 1 else 0)
                         + (if j > 1 && counts[CR] > 0 then 1 else 0)
    {
      var kind := kinds[j];
      present := if counts[kind] > 0 then present + 1 else present;
      if || counts[kind] > counts[dominant]
         || (counts[kind] == counts[dominant] && firstIndex[kind].Some? && firstIndex[dominant].Some?
             && firstIndex[kind].value < firstIndex[dominant].value) {
        dominant := kind;
      }
    }
    p := EolProfile(if present == 0 then NoEnding else dominant, present > 1,
                    t != "" && t[|t| - 1] in "\r\n", counts[LF], counts[CRLF], counts[CR]);
  }

  /** `s.replace(pat, new)`: left to right, without overlaps. */
  function Replace(s: string, pat: string, sub: string): string
    requires pat != ""
  {
    if s == "" then ""
    else if pat <= s then sub + Replace(s[|pat|..], pat, sub)
    else [s[0]] + Replace(s[1..], pat, sub)
  }

  function Normalize(decoded: string): string {
    Replace(Replace(decoded, "\r\n", "\n"), "\r", "\n")
  }

  function Load(raw: seq<byte>): Result<LoadedText, LoadError> {
    match DecodeBytes(raw)
    case None => Err(UnsupportedEncoding)
    case Some(decoded) =>
      if '\0' in decoded then Err(ContainsNul)
      else Ok(LoadedText(Normalize(decoded), LoadMetadata(EncodingOf(BomOf(raw)), BomOf(raw), EolProfileOf(decoded))))
  }

  // --- Serializing -------------------------------------------------------------------------

  /** The representation policy of an accepted document, or of a new one. */
  function ProfileFor(meta: Option<LoadMetadata>): (p: Profile) {
    match meta
    case None => Profile(Utf8, NoBom, LF, false)
    case Some(m) => Profile(m.encoding, m.bom, if m.eol.dominant == NoEnding then LF else m.eol.dominant, m.eol.mixed)
  }

  /** Selecting an encoding; `None` when the pair is not one of the six supported ones. */
  function WithEncoding(p: Profile, encoding: Encoding, bom: BomKind): Option<Profile> {
    if encoding != EncodingOf(bom) then None else Some(Profile(encoding, bom, p.lineEnding, p.mixedSource))
  }

  /** Selecting a concrete line ending, which resolves a mixed source. */
  function WithLineEnding(p: Profile, ending: LineEnding): Option<Profile> {
    if ending == NoEnding then None else Some(Profile(p.encoding, p.bom, ending, false))
  }

  function Separator(kind: LineEnding): string {
    match kind
    case LF => "\n"
    case CRLF => "\r\n"
    case CR => "\r"
    case NoEnding => "\n"
  }

  function Localize(text: string, kind: LineEnding): string {
    if Separator(kind) == "\n" then text else Replace(text, "\n", Separator(kind))
  }

  function Serialize(text: string, p: Profile, allowMixed: bool): Result<seq<byte>, SerializeError> {
    if '\0' in text then Err(NulRefused)
    else if p.mixedSource && !allowMixed then Err(MixedNeedsConfirmation)
    else Ok(BomBytes(p.bom) + Encode(p.encoding, Localize(text, p.lineEnding)))
  }

  // --- Line endings ------------------------------------------------------------------------

  /** Normalization read in one pass. */
  function OnePass(s: string): string {
    if s == "" then ""
    else if "\r\n" <= s then "\n" + OnePass(s[2..])
    else if s[0] == '\r' then "\n" + OnePass(s[1..])
    else [s[0]] + OnePass(s[1..])
  }

  lemma ReplaceCons(c: char, s: string, pat: string, sub: string)
    requires pat != "" && pat[0] != c
    ensures Replace([c] + s, pat, sub) == [c] + Replace(s, pat, sub)
  {
    assert ([c] + s)[1..] == s;
  }

  lemma ReplaceOne(pat: char, s: string, sub: string)
    ensures Replace([pat] + s, [pat], sub) == sub + Replace(s, [pat], sub)
  {
    assert ([pat] + s)[1..] == s;
  }

  lemma {:induction false} NormalizeIsOnePass(s: string)
    ensures Normalize(s) == OnePass(s)
  {
    if s == "" {
    } else if "\r\n" <= s {
      var rest := Replace(s[2..], "\r\n", "\n");
      NormalizeIsOnePass(s[2..]);
      assert Replace(s, "\r\n", "\n") == ['\n'] + rest;
      ReplaceCons('\n', rest, "\r", "\n");
    } else {
      var rest := Replace(s[1..], "\r\n", "\n");
      NormalizeIsOnePass(s[1..]);
      assert Replace(s, "\r\n", "\n") == [s[0]] + rest;
      if s[0] == '\r' {
        ReplaceOne('\r', rest, "\n");
      } else {
        ReplaceCons(s[0], rest, "\r", "\n");
      }
    }
  }

  /** Every separator of `s` is of kind `d`. */
  predicate Only(s: string, d: LineEnding) {
    forall k | 0 <= k < |s| :: KindAt(s, k) == NoEnding || KindAt(s, k) == d
  }

  /** Dropping a whole token from the front keeps the separators that follow. */
  lemma OnlyDrop(s: string, d: LineEnding, m: nat)
    requires Only(s, d) && m <= |s| && (0 < m < |s| ==> !(s[m - 1] == '\r' && s[m] == '\n'))
    ensures Only(s[m..], d)
  {
    forall k | 0 <= k < |s[m..]| ensures KindAt(s[m..], k) == KindAt(s, k + m) {
      if 0 < k { assert s[m..][k - 1] == s[k + m - 1]; }
    }
  }

  lemma LocalizeCons(c: char, s: string, d: LineEnding)
    ensures Localize([c] + s, d) == (if c == '\n' then Separator(d) else [c]) + Localize(s, d)
  {
    if Separator(d) != "\n" {
      if c == '\n' { ReplaceOne('\n', s, Separator(d)); } else { ReplaceCons(c, s, "\n", Separator(d)); }
    }
  }

  lemma OnePassStep(s: string)
    requires s != ""
    ensures
      var m := if "\r\n" <= s then 2 else 1;
      OnePass(s) == [if s[0] == '\r' then '\n' else s[0]] + OnePass(s[m..])
  {
  }

  lemma FirstToken(s: string, d: LineEnding)
    requires s != "" && Only(s, d)
    ensures s[..if "\r\n" <= s then 2 else 1] == if s[0] == '\r' || s[0] == '\n' then Separator(d) else [s[0]]
  {
    assert KindAt(s, 0) == NoEnding || KindAt(s, 0) == d;
  }

  lemma LocalizeStep(s: string, d: LineEnding)
    requires s != "" && Only(s, d)
    requires var m := if "\r\n" <= s then 2 else 1; Localize(OnePass(s[m..]), d) == s[m..]
    ensures Localize(OnePass(s), d) == s
  {
    hide Localize, OnePass, Only;
    var m := if "\r\n" <= s then 2 else 1;
    OnePassStep(s);
    LocalizeCons(if s[0] == '\r' then '\n' else s[0], OnePass(s[m..]), d);
    FirstToken(s, d);
    assert s == s[..m] + s[m..];
  }

  /** Restoring the only separator of a text undoes its normalization. */
  lemma {:induction false} LocalizeNormalized(s: string, d: LineEnding)
    requires Only(s, d)
    ensures Localize(OnePass(s), d) == s
  {
    if s == "" {
    } else {
      hide Localize, OnePass, Only;
      var m := if "\r\n" <= s then 2 else 1;
      OnlyDrop(s, d, m);
      LocalizeNormalized(s[m..], d);
      LocalizeStep(s, d);
    }
  }

  predicate HasEnding(t: string) {
    exists k :: 0 <= k < |t| && KindAt(t, k) != NoEnding
  }

  /** A separator or an ordinary character in front of a text leaves the separators that follow. */
  lemma UnitKinds(unit: string, rest: string, d: LineEnding)
    requires d != NoEnding && (unit == Separator(d) || (|unit| == 1 && unit[0] != '\r' && unit[0] != '\n'))
    requires Separator(d) == "\r" ==> '\n' !in rest
    ensures KindAt(unit + rest, 0) == if unit == Separator(d) then d else NoEnding
    ensures |unit| == 2 ==> KindAt(unit + rest, 1) == NoEnding
    ensures forall k | 0 <= k < |rest| :: KindAt(unit + rest, k + |unit|) == KindAt(rest, k)
  {
    var t := unit + rest;
    forall k | 0 <= k < |rest| ensures KindAt(t, k + |unit|) == KindAt(rest, k) {
      assert t[k + |unit|] == rest[k];
      if k + 1 < |rest| { assert t[k + 1 + |unit|] == rest[k + 1]; }
    }
  }

  lemma UnitOnePass(unit: string, rest: string, d: LineEnding)
    requires d != NoEnding && (unit == Separator(d) || (|unit| == 1 && unit[0] != '\r' && unit[0] != '\n'))
    requires Separator(d) == "\r" ==> '\n' !in rest
    ensures OnePass(unit + rest) == (if unit == Separator(d) then "\n" else unit) + OnePass(rest)
  {
    var t := unit + rest;
    assert t[|unit|..] == rest;
    OnePassStep(t);
  }

  lemma UnitOnly(unit: string, rest: string, d: LineEnding)
    requires d != NoEnding && (unit == Separator(d) || (|unit| == 1 && unit[0] != '\r' && unit[0] != '\n'))
    requires Separator(d) == "\r" ==> '\n' !in rest
    requires Only(rest, d)
    ensures Only(unit + rest, d)
    ensures HasEnding(unit + rest) <==> unit == Separator(d) || HasEnding(rest)
  {
    UnitKinds(unit, rest, d);
    var t := unit + rest;
    forall k | 0 <= k < |t| ensures KindAt(t, k) == NoEnding || KindAt(t, k) == d {
      if k >= |unit| { assert KindAt(t, k) == KindAt(rest, k - |unit|); }
    }
    if HasEnding(rest) {
      var k :| 0 <= k < |rest| && KindAt(rest, k) != NoEnding;
      assert KindAt(t, k + |unit|) != NoEnding;
    }
    if HasEnding(t) && unit != Separator(d) {
      var k :| 0 <= k < |t| && KindAt(t, k) != NoEnding;
      assert KindAt(rest, k - 1) != NoEnding;
    }
  }

  /** Normalizing undoes any choice of separator in a CR-free text, and the result is not mixed. */
  lemma {:induction false} NormalizeLocalized(s: string, d: LineEnding)
    requires '\r' !in s
    ensures OnePass(Localize(s, d)) == s
    ensures Only(Localize(s, d), if d == NoEnding then LF else d)
    ensures Separator(d) == "\r" ==> '\n' !in Localize(s, d)
    ensures '\n' in s <==> HasEnding(Localize(s, d))
  {
    if s == "" {
    } else {
      hide Localize, OnePass, Only, HasEnding, KindAt;
      var e := if d == NoEnding then LF else d;
      var rest := Localize(s[1..], d);
      NormalizeLocalized(s[1..], d);
      var unit := if s[0] == '\n' then Separator(d) else [s[0]];
      assert s == [s[0]] + s[1..];
      LocalizeCons(s[0], s[1..], d);
      UnitOnePass(unit, rest, e);
      UnitOnly(unit, rest, e);
    }
  }
}
