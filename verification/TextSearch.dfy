/** Literal search in the whole text, line by line over folded lines; refines a naive search over spans. */
module TextSearch {
  import opened Prelude
  import opened FoldedLines

  datatype SearchMatch = SearchMatch(start: nat, end: nat)

  datatype SearchResult = SearchResult(found: Option<SearchMatch>, wrapped: bool)

  datatype SearchError = EmptyQuery | MultiLineQuery | InvalidCap | TooManyMatches

  function ValidateQuery(q: string): Option<SearchError> {
    if q == "" then Some(EmptyQuery)
    else if '\n' in q || '\r' in q then Some(MultiLineQuery)
    else None
  }

  predicate ValidQuery(q: string) { ValidateQuery(q).None? }

  /** Queries are the non-empty pieces of a single line; the empty one and the others are told apart. */
  lemma QueriesAccepted(q: string)
    ensures ValidQuery(q) <==> q != "" && forall c | c in q :: c != '\n' && c != '\r'
    ensures ValidateQuery(q) == Some(EmptyQuery) <==> q == ""
    ensures !ValidQuery(q) ==> ValidateQuery(q).value in {EmptyQuery, MultiLineQuery}
  {}

  /** The naive notion of a match: a non-empty span whose fold is the fold of the query. */
  predicate Matches(f: CharFold, t: string, q: string, m: SearchMatch) {
    m.start < m.end <= |t| && Fold(f, t[m.start..m.end]) == Fold(f, q)
  }

  /** The first match that starts at or after `from`, if there is one. */
  ghost predicate IsNext(f: CharFold, t: string, q: string, from: int, r: Option<SearchMatch>) {
    match r
    case None => forall m | Matches(f, t, q, m) :: m.start < from
    case Some(b) =>
      Matches(f, t, q, b) && from <= b.start && forall m | Matches(f, t, q, m) && from <= m.start :: b.start <= m.start
  }

  /** The last match that ends at or before `to`, if there is one. */
  ghost predicate IsPrevious(f: CharFold, t: string, q: string, to: int, r: Option<SearchMatch>) {
    match r
    case None => forall m | Matches(f, t, q, m) :: to < m.end
    case Some(b) =>
      Matches(f, t, q, b) && b.end <= to && forall m | Matches(f, t, q, m) && m.end <= to :: m.start <= b.start
  }

  lemma {:induction false} FoldKeepsBreaks(f: CharFold, s: string, c: char)
    requires FoldOk(f) && (c == '\n' || c == '\r')
    ensures c in Fold(f, s) <==> c in s
  {
    if s == "" {
    } else {
      FoldKeepsBreaks(f, s[1..], c);
    }
  }

  /** A match never contains a line break. */
  lemma MatchInLine(f: CharFold, t: string, q: string, m: SearchMatch)
    requires FoldOk(f) && ValidQuery(q) && Matches(f, t, q, m)
    ensures forall k | m.start <= k < m.end :: t[k] != '\n' && t[k] != '\r'
  {
    var span := t[m.start..m.end];
    FoldKeepsBreaks(f, span, '\n');
    FoldKeepsBreaks(f, span, '\r');
    FoldKeepsBreaks(f, q, '\n');
    FoldKeepsBreaks(f, q, '\r');
    forall k | m.start <= k < m.end ensures t[k] != '\n' && t[k] != '\r' { assert t[k] == span[k - m.start]; }
  }

  lemma QueryFoldNonEmpty(f: CharFold, q: string)
    requires FoldOk(f) && ValidQuery(q)
    ensures Fold(f, q) != ""
  {
    FoldIsLonger(f, q);
  }

  /** Matches of a line are the occurrences of the folded query at translated offsets. */
  lemma MatchIsOccurrence(f: CharFold, line: string, q: string, m: SearchMatch)
    requires FoldOk(f) && ValidQuery(q) && m.start <= |line| && m.end <= |line|
    ensures Matches(f, line, q, m) <==>
      && At(Fold(f, line), Fold(f, q), FoldedLength(f, line, m.start))
      && FoldedLength(f, line, m.end) == FoldedLength(f, line, m.start) + |Fold(f, q)|
  {
    QueryFoldNonEmpty(f, q);
    if m.start < m.end {
      FoldOfSpan(f, line, m.start, m.end);
    } else {
      FoldOfSpan(f, line, m.end, m.start);
    }
  }

  lemma LengthOrder(f: CharFold, s: string, i: nat, j: nat)
    requires FoldOk(f) && i <= |s| && j <= |s|
    ensures i < j <==> FoldedLength(f, s, i) < FoldedLength(f, s, j)
    ensures i == j <==> FoldedLength(f, s, i) == FoldedLength(f, s, j)
  {
    if i < j { LengthGrows(f, s, i, j); } else { LengthGrows(f, s, j, i); }
  }

  /** Where a match starts decides where it ends, and the order of starts is the order of ends. */
  lemma MatchOrder(f: CharFold, t: string, q: string, a: SearchMatch, b: SearchMatch)
    requires FoldOk(f) && ValidQuery(q) && Matches(f, t, q, a) && Matches(f, t, q, b)
    ensures a.start == b.start <==> a.end == b.end
    ensures a.start < b.start <==> a.end < b.end
  {
    MatchIsOccurrence(f, t, q, a);
    MatchIsOccurrence(f, t, q, b);
    LengthOrder(f, t, a.start, b.start);
    LengthOrder(f, t, a.end, b.end);
  }

  /** Comparing matches by their folded starts is comparing them by their starts. */
  lemma NextByLength(f: CharFold, line: string, q: string, from: nat, found: nat, b: SearchMatch)
    requires FoldOk(f) && ValidQuery(q) && At(Fold(f, line), Fold(f, q), found) && b.start < b.end <= |line|
    requires from <= |line|
    requires FoldedLength(f, line, b.start) == found && FoldedLength(f, line, b.end) == found + |Fold(f, q)|
    requires FoldedLength(f, line, from) <= found
    requires forall m | Matches(f, line, q, m) && from <= m.start :: found <= FoldedLength(f, line, m.start)
    ensures IsNext(f, line, q, from, Some(b))
  {
    MatchIsOccurrence(f, line, q, b);
    LengthOrder(f, line, b.start, from);
    forall m | Matches(f, line, q, m) && from <= m.start ensures b.start <= m.start {
      LengthOrder(f, line, m.start, b.start);
    }
  }

  lemma PreviousByLength(f: CharFold, line: string, q: string, to: nat, found: nat, b: SearchMatch)
    requires FoldOk(f) && ValidQuery(q) && At(Fold(f, line), Fold(f, q), found) && b.start < b.end <= |line|
    requires to <= |line|
    requires FoldedLength(f, line, b.start) == found && FoldedLength(f, line, b.end) == found + |Fold(f, q)|
    requires found + |Fold(f, q)| <= FoldedLength(f, line, to)
    requires forall m | Matches(f, line, q, m) && m.end <= to :: FoldedLength(f, line, m.start) <= found
    ensures IsPrevious(f, line, q, to, Some(b))
  {
    MatchIsOccurrence(f, line, q, b);
    LengthOrder(f, line, to, b.end);
    forall m | Matches(f, line, q, m) && m.end <= to ensures m.start <= b.start {
      LengthOrder(f, line, b.start, m.start);
    }
  }

  /** No match that starts at or after `from` has its folded start before `cursor`. */
  ghost predicate Ahead(f: CharFold, line: string, q: string, from: nat, cursor: int) {
    forall m | Matches(f, line, q, m) && from <= m.start :: cursor <= FoldedLength(f, line, m.start)
  }

  /** No match that ends at or before `to` has its folded end after `high`. */
  ghost predicate Below(f: CharFold, line: string, q: string, to: nat, high: int) {
    forall m | Matches(f, line, q, m) && m.end <= to :: FoldedLength(f, line, m.end) <= high
  }

  lemma AheadAtStart(f: CharFold, line: string, q: string, from: nat)
    requires FoldOk(f) && from <= |line|
    ensures Ahead(f, line, q, from, FoldedLength(f, line, from))
    ensures Below(f, line, q, from, FoldedLength(f, line, from))
  {
    forall m | Matches(f, line, q, m)
      ensures from <= m.start ==> FoldedLength(f, line, from) <= FoldedLength(f, line, m.start)
    {
      LengthOrder(f, line, m.start, from);
    }
    forall m | Matches(f, line, q, m)
      ensures m.end <= from ==> FoldedLength(f, line, m.end) <= FoldedLength(f, line, from)
    {
      LengthOrder(f, line, from, m.end);
    }
  }

  lemma AheadOfHit(f: CharFold, line: string, q: string, from: nat, cursor: nat)
    requires FoldOk(f) && ValidQuery(q) && Ahead(f, line, q, from, cursor)
    ensures
      var found := Find(Fold(f, line), Fold(f, q), cursor);
      if found < 0 then IsNext(f, line, q, from, None) else Ahead(f, line, q, from, found)
  {
    var found := Find(Fold(f, line), Fold(f, q), cursor);
    forall m | Matches(f, line, q, m) && from <= m.start ensures 0 <= found <= FoldedLength(f, line, m.start) {
      MatchIsOccurrence(f, line, q, m);
    }
  }

  lemma BelowHit(f: CharFold, line: string, q: string, to: nat, high: nat)
    requires FoldOk(f) && ValidQuery(q) && Below(f, line, q, to, high)
    ensures
      var found := RFind(Fold(f, line), Fold(f, q), high);
      if found < 0 then IsPrevious(f, line, q, to, None) else Below(f, line, q, to, found + |Fold(f, q)|)
  {
    var found := RFind(Fold(f, line), Fold(f, q), high);
    forall m | Matches(f, line, q, m) && m.end <= to
      ensures FoldedLength(f, line, m.end) <= found + |Fold(f, q)| && 0 <= FoldedLength(f, line, m.start) <= found
    {
      MatchIsOccurrence(f, line, q, m);
    }
  }

  /** The ends of a folded stretch are not both images of source offsets. */
  ghost predicate Unaligned(f: CharFold, line: string, found: nat, size: nat) {
    forall i, j | 0 <= i < j <= |line| ::
      !(FoldedLength(f, line, i) == found && FoldedLength(f, line, j) == found + size)
  }

  /** A hit whose ends do not fall on character boundaries belongs to no match. */
  lemma UnalignedIsNoMatch(f: CharFold, line: string, q: string, found: nat, from: nat)
    requires FoldOk(f) && ValidQuery(q) && Unaligned(f, line, found, |Fold(f, q)|)
    ensures Ahead(f, line, q, from, found) ==> Ahead(f, line, q, from, found + 1)
    ensures Below(f, line, q, from, found + |Fold(f, q)|) ==> Below(f, line, q, from, found + |Fold(f, q)| - 1)
  {
    forall m | Matches(f, line, q, m)
      ensures FoldedLength(f, line, m.start) != found && FoldedLength(f, line, m.end) != found + |Fold(f, q)|
    {
      MatchIsOccurrence(f, line, q, m);
    }
  }

  lemma HitBoundaries(f: CharFold, line: string, fl: FoldedLine, found: nat, size: nat)
    requires FoldOk(f) && Represents(f, line, fl)
    ensures Ascending(fl.foldedStarts)
    ensures Translates(f, line, found, fl.SourceBoundary(found))
              && Translates(f, line, found + size, fl.SourceBoundary(found + size))
  {
    SourceBoundaryExact(f, line, fl, found);
    SourceBoundaryExact(f, line, fl, found + size);
  }

  lemma AlignedIsNext(f: CharFold, line: string, q: string, from: nat, found: nat, b: SearchMatch)
    requires FoldOk(f) && ValidQuery(q) && At(Fold(f, line), Fold(f, q), found) && b.start < b.end && from <= |line|
    requires Translates(f, line, found, Some(b.start)) && Translates(f, line, found + |Fold(f, q)|, Some(b.end))
    requires FoldedLength(f, line, from) <= found && Ahead(f, line, q, from, found)
    ensures IsNext(f, line, q, from, Some(b))
  {
    NextByLength(f, line, q, from, found, b);
  }

  lemma AlignedIsPrevious(f: CharFold, line: string, q: string, to: nat, found: nat, b: SearchMatch)
    requires FoldOk(f) && ValidQuery(q) && At(Fold(f, line), Fold(f, q), found) && b.start < b.end && to <= |line|
    requires Translates(f, line, found, Some(b.start)) && Translates(f, line, found + |Fold(f, q)|, Some(b.end))
    requires found + |Fold(f, q)| <= FoldedLength(f, line, to) && Below(f, line, q, to, found + |Fold(f, q)|)
    ensures IsPrevious(f, line, q, to, Some(b))
  {
    forall m | Matches(f, line, q, m) && m.end <= to ensures FoldedLength(f, line, m.start) <= found {
      MatchIsOccurrence(f, line, q, m);
    }
    PreviousByLength(f, line, q, to, found, b);
  }

  /** The match at a hit of the folded query, if the hit falls on character boundaries. */
  method AlignedMatch(ghost f: CharFold, ghost line: string, fl: FoldedLine, found: nat, size: nat)
    returns (r: Option<SearchMatch>)
    requires FoldOk(f) && Represents(f, line, fl)
    ensures match r
            case Some(b) =>
              && b.start < b.end && Translates(f, line, found, Some(b.start))
              && Translates(f, line, found + size, Some(b.end))
            case None => Unaligned(f, line, found, size)
  {
    HitBoundaries(f, line, fl, found, size);
    var start, end := fl.SourceBoundary(found), fl.SourceBoundary(found + size);
    if start.Some? && end.Some? && end.value > start.value {
      return Some(SearchMatch(start.value, end.value));
    }
    forall i, j | 0 <= i < j <= |line|
      ensures !(FoldedLength(f, line, i) == found && FoldedLength(f, line, j) == found + size)
    {
      if start.Some? { LengthOrder(f, line, i, start.value); }
      if end.Some? { LengthOrder(f, line, j, end.value); }
    }
    r := None;
  }

  method FoldedFindForward(ghost f: CharFold, ghost line: string, ghost q: string, fl: FoldedLine, fq: string,
                           sourceStart: nat)
    returns (r: Option<SearchMatch>)
    requires FoldOk(f) && Represents(f, line, fl) && ValidQuery(q) && fq == Fold(f, q)
    ensures IsNext(f, line, q, sourceStart, r)
  {
    FoldedBoundaryExact(f, line, fl, sourceStart);
    var boundary := fl.FoldedBoundary(sourceStart);
    if boundary.None? {
      return None;
    }
    var cursor := boundary.value;
    AheadAtStart(f, line, q, sourceStart);
    while true
      invariant 0 <= FoldedLength(f, line, sourceStart) <= cursor
      invariant Ahead(f, line, q, sourceStart, cursor)
      decreases |fl.text| - cursor
    {
      var found := Find(fl.text, fq, cursor);
      AheadOfHit(f, line, q, sourceStart, cursor);
      if found < 0 {
        return None;
      }
      r := AlignedMatch(f, line, fl, found, |fq|);
      if r.Some? {
        AlignedIsNext(f, line, q, sourceStart, found, r.value);
        return;
      }
      UnalignedIsNoMatch(f, line, q, found, sourceStart);
      QueryFoldNonEmpty(f, q);
      cursor := found + 1;
    }
  }

  lemma NoneBelow(f: CharFold, line: string, q: string, to: nat, high: int)
    requires FoldOk(f) && ValidQuery(q) && Below(f, line, q, to, high) && high < |Fold(f, q)|
    ensures IsPrevious(f, line, q, to, None)
  {
    forall m | Matches(f, line, q, m) ensures to < m.end {
      MatchIsOccurrence(f, line, q, m);
    }
  }

  method FoldedFindBackward(ghost f: CharFold, ghost line: string, ghost q: string, fl: FoldedLine, fq: string,
                            sourceEnd: nat)
    returns (r: Option<SearchMatch>)
    requires FoldOk(f) && Represents(f, line, fl) && ValidQuery(q) && fq == Fold(f, q) && sourceEnd <= |line|
    ensures IsPrevious(f, line, q, sourceEnd, r)
  {
    FoldedBoundaryExact(f, line, fl, sourceEnd);
    var high := fl.FoldedBoundary(sourceEnd).value;
    AheadAtStart(f, line, q, sourceEnd);
    while high >= |fq|
      invariant high <= FoldedLength(f, line, sourceEnd)
      invariant Below(f, line, q, sourceEnd, high)
      decreases high
    {
      var found := RFind(fl.text, fq, high);
      BelowHit(f, line, q, sourceEnd, high);
      if found < 0 {
        return None;
      }
      r := AlignedMatch(f, line, fl, found, |fq|);
      if r.Some? {
        AlignedIsPrevious(f, line, q, sourceEnd, found, r.value);
        return;
      }
      UnalignedIsNoMatch(f, line, q, found, sourceEnd);
      high := found + |fq| - 1;
    }
    NoneBelow(f, line, q, sourceEnd, high);
    r := None;
  }
}
