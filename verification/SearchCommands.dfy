/** The search commands: enumeration under a cap, and Find Next / Find Previous with wrapping. */
module SearchCommands {
  import opened Prelude
  import opened FoldedLines
  import opened TextSearch
  import opened FindInText
  import opened Renderability

  /** Case-sensitive search is search under the fold that changes nothing. */
  const EXACT: CharFold := (c: char) => [c]

  function FoldFor(f: CharFold, matchCase: bool): CharFold {
    if matchCase then EXACT else f
  }

  lemma {:induction false} ExactFold(s: string)
    ensures Fold(EXACT, s) == s && FoldOk(EXACT)
  {
    if s == "" {
    } else {
      ExactFold(s[1..]);
    }
  }

  lemma ExactMatch(t: string, q: string, m: SearchMatch)
    requires q != ""
    ensures Matches(EXACT, t, q, m) <==> At(t, q, m.start) && m.end == m.start + |q|
  {
    ExactFold(q);
    if m.start < m.end <= |t| { ExactFold(t[m.start..m.end]); }
  }

  lemma ExactNext(t: string, q: string, from: nat)
    requires q != ""
    ensures var k := Find(t, q, from); IsNext(EXACT, t, q, from, if k < 0 then None else Some(SearchMatch(k, k + |q|)))
  {
    var k := Find(t, q, from);
    if k >= 0 { ExactMatch(t, q, SearchMatch(k, k + |q|)); }
    forall m | Matches(EXACT, t, q, m) && from <= m.start ensures 0 <= k <= m.start { ExactMatch(t, q, m); }
  }

  lemma ExactPrevious(t: string, q: string, last: nat)
    requires q != "" && last <= |t|
    ensures var k := RFind(t, q, last);
            IsPrevious(EXACT, t, q, last, if k < 0 then None else Some(SearchMatch(k, k + |q|)))
  {
    var k := RFind(t, q, last);
    if k >= 0 { ExactMatch(t, q, SearchMatch(k, k + |q|)); }
    forall m | Matches(EXACT, t, q, m) && m.end <= last ensures m.start <= k { ExactMatch(t, q, m); }
  }

  // --- Enumeration ---------------------------------------------------------------------------

  /** `_append_bounded`: refuses the match that would exceed the cap. */
  function AppendBounded(ms: seq<SearchMatch>, m: SearchMatch, cap: Option<nat>): Option<seq<SearchMatch>> {
    if cap.Some? && |ms| >= cap.value then None else Some(ms + [m])
  }

  /** What has been collected and what is still to come make up the whole, within the cap. */
  predicate Collected(all: seq<SearchMatch>, ms: seq<SearchMatch>, rest: seq<SearchMatch>, cap: Option<nat>) {
    all == ms + rest && (cap.Some? ==> |ms| <= cap.value)
  }

  lemma CollectNext(all: seq<SearchMatch>, ms: seq<SearchMatch>, m: SearchMatch, rest: seq<SearchMatch>,
                    cap: Option<nat>)
    requires Collected(all, ms, [m] + rest, cap)
    ensures match AppendBounded(ms, m, cap)
            case Some(longer) => Collected(all, longer, rest, cap)
            case None => cap.Some? && |all| > cap.value
  {
    assert ms + ([m] + rest) == (ms + [m]) + rest;
  }

  /** The folded cursor has passed no match of the line that starts at or after `base`. */
  ghost predicate Scanning(f: CharFold, source: string, q: string, base: int, foldedCursor: int) {
    && 0 <= base <= |source| && 0 <= FoldedLength(f, source, base) <= foldedCursor
    && Ahead(f, source, q, base, foldedCursor)
  }

  /** The next hit of the folded query, and the match it stands for if it is aligned. */
  method NextHit(ghost f: CharFold, ghost source: string, ghost q: string, line: FoldedLine, fq: string,
                 ghost base: nat, foldedCursor: nat)
    returns (found: int, m: Option<SearchMatch>)
    requires FoldOk(f) && ValidQuery(q) && fq == Fold(f, q) && Represents(f, source, line)
    requires Scanning(f, source, q, base, foldedCursor)
    ensures found == Find(line.text, fq, foldedCursor)
    ensures found >= 0 ==> foldedCursor < found + 1 <= |line.text|
    ensures found >= 0 && m.None? ==> Scanning(f, source, q, base, found + 1)
    ensures found >= 0 && m.Some? ==> IsNext(f, source, q, base, m) && Scanning(f, source, q, m.value.end, found + |fq|)
                                      && foldedCursor < found + |fq|
  {
    QueryFoldNonEmpty(f, q);
    found := Find(line.text, fq, foldedCursor);
    AheadOfHit(f, source, q, base, foldedCursor);
    if found < 0 {
      return found, None;
    }
    m := AlignedMatch(f, source, line, found, |fq|);
    if m.None? {
      UnalignedIsNoMatch(f, source, q, found, base);
    } else {
      AlignedIsNext(f, source, q, base, found, m.value);
      AheadAtStart(f, source, q, m.value.end);
    }
  }

  lemma TakeNext(f: CharFold, t: string, q: string, cursor: nat, lineEnd: nat, base: nat, m: SearchMatch)
    requires FoldOk(f) && ValidQuery(q) && IsLine(t, cursor, lineEnd) && base <= lineEnd - cursor
    requires IsNext(f, t[cursor..lineEnd], q, base, Some(m))
    ensures Greedy(f, t, q, cursor + base) == [Shifted(m, cursor)] + Greedy(f, t, q, cursor + m.end)
  {
    hide Matches, Greedy, Clear, Fold;
    LineNext(f, t, q, cursor, lineEnd, cursor + base, Some(m));
    GreedyNext(f, t, q, cursor + base, Some(Shifted(m, cursor)));
  }

  lemma NoHitLeft(f: CharFold, source: string, q: string, base: nat, foldedCursor: int)
    requires FoldOk(f) && ValidQuery(q) && Ahead(f, source, q, base, foldedCursor)
    requires foldedCursor > |Fold(f, source)| - |Fold(f, q)|
             || (0 <= foldedCursor && Find(Fold(f, source), Fold(f, q), foldedCursor) < 0)
    ensures IsNext(f, source, q, base, None)
  {
    forall m | Matches(f, source, q, m) ensures m.start < base {
      MatchIsOccurrence(f, source, q, m);
    }
  }

  /** Past the last hit of a line the enumeration goes on in the next line. */
  lemma LeaveLine(f: CharFold, t: string, q: string, cursor: nat, lineEnd: nat, base: nat, foldedCursor: int)
    requires FoldOk(f) && ValidQuery(q) && IsLine(t, cursor, lineEnd) && base <= lineEnd - cursor
    requires
      var source := t[cursor..lineEnd];
      && Ahead(f, source, q, base, foldedCursor)
      && (foldedCursor > |Fold(f, source)| - |Fold(f, q)| || (0 <= foldedCursor
         && Find(Fold(f, source), Fold(f, q), foldedCursor) < 0))
    ensures Greedy(f, t, q, cursor + base) == Greedy(f, t, q, lineEnd + 1)
  {
    NoHitLeft(f, t[cursor..lineEnd], q, base, foldedCursor);
    LineNext(f, t, q, cursor, lineEnd, cursor + base, None);
    GreedySkip(f, t, q, cursor + base, lineEnd + 1);
  }

  /** Half-way through a line: what is collected, and what the folded cursor has left to find. */
  ghost predicate OnLine(f: CharFold, t: string, q: string, cursor: nat, lineEnd: nat, all: seq<SearchMatch>,
                         cap: Option<nat>, ms: seq<SearchMatch>, base: nat, foldedCursor: int)
    requires cursor <= lineEnd <= |t|
  {
    && Scanning(f, t[cursor..lineEnd], q, base, foldedCursor)
    && Collected(all, ms, Greedy(f, t, q, cursor + base), cap)
  }

  lemma TakeMatch(f: CharFold, t: string, q: string, cursor: nat, lineEnd: nat, all: seq<SearchMatch>, cap: Option<nat>,
                  ms: seq<SearchMatch>, base: nat, foldedCursor: int, m: SearchMatch, past: int)
    requires FoldOk(f) && ValidQuery(q) && IsLine(t, cursor, lineEnd)
    requires OnLine(f, t, q, cursor, lineEnd, all, cap, ms, base, foldedCursor)
    requires IsNext(f, t[cursor..lineEnd], q, base, Some(m)) && Scanning(f, t[cursor..lineEnd], q, m.end, past)
    ensures match AppendBounded(ms, Shifted(m, cursor), cap)
            case Some(longer) => OnLine(f, t, q, cursor, lineEnd, all, cap, longer, m.end, past)
            case None => cap.Some? && |all| > cap.value
  {
    TakeNext(f, t, q, cursor, lineEnd, base, m);
    CollectNext(all, ms, Shifted(m, cursor), Greedy(f, t, q, cursor + m.end), cap);
  }

  lemma PassHit(f: CharFold, t: string, q: string, cursor: nat, lineEnd: nat, all: seq<SearchMatch>, cap: Option<nat>,
                ms: seq<SearchMatch>, base: nat, foldedCursor: int, past: int)
    requires cursor <= lineEnd <= |t| && OnLine(f, t, q, cursor, lineEnd, all, cap, ms, base, foldedCursor)
    requires Scanning(f, t[cursor..lineEnd], q, base, past)
    ensures OnLine(f, t, q, cursor, lineEnd, all, cap, ms, base, past)
  {}

  method LineMatches(f: CharFold, t: string, q: string, fq: string, cursor: nat, lineEnd: nat, cap: Option<nat>,
                     before: seq<SearchMatch>)
    returns (r: Option<seq<SearchMatch>>)
    requires FoldOk(f) && ValidQuery(q) && fq == Fold(f, q) && IsLine(t, cursor, lineEnd)
    requires cap.Some? ==> |before| <= cap.value
    ensures match r
            case Some(ms) => Collected(before + Greedy(f, t, q, cursor), ms, Greedy(f, t, q, lineEnd + 1), cap)
            case None => cap.Some? && |before| + |Greedy(f, t, q, cursor)| > cap.value
  {
    var line := FoldLine(f, t[cursor..lineEnd]);
    ghost var source, all := t[cursor..lineEnd], before + Greedy(f, t, q, cursor);
    var ms, foldedCursor := before, 0;
    ghost var base: nat := 0;
    AheadAtStart(f, source, q, 0);
    while foldedCursor <= |line.text| - |fq|
      invariant OnLine(f, t, q, cursor, lineEnd, all, cap, ms, base, foldedCursor)
      decreases |line.text| - foldedCursor
    {
      var found, m := NextHit(f, source, q, line, fq, base, foldedCursor);
      if found < 0 {
        break;
      }
      if m.None? {
        PassHit(f, t, q, cursor, lineEnd, all, cap, ms, base, foldedCursor, found + 1);
        foldedCursor := found + 1;
      } else {
        TakeMatch(f, t, q, cursor, lineEnd, all, cap, ms, base, foldedCursor, m.value, found + |fq|);
        var longer := AppendBounded(ms, Shifted(m.value, cursor), cap);
        if longer.None? {
          return None;
        }
        ms, foldedCursor, base := longer.value, found + |fq|, m.value.end;
      }
    }
    LeaveLine(f, t, q, cursor, lineEnd, base, foldedCursor);
    r := Some(ms);
  }

  /** All matches in order, or the error, exactly when there are more than the cap. */
  ghost predicate Enumerates(f: CharFold, t: string, q: string, cap: Option<nat>,
                             r: Result<seq<SearchMatch>, SearchError>) {
    var all := Greedy(f, t, q, 0);
    r == if cap.Some? && |all| > cap.value then Err(TooManyMatches) else Ok(all)
  }

  method CasefoldMatches(f: CharFold, t: string, q: string, cap: Option<nat>)
    returns (r: Result<seq<SearchMatch>, SearchError>)
    requires FoldOk(f) && ValidQuery(q)
    ensures Enumerates(f, t, q, cap, r)
  {
    var fq, ms, cursor := Fold(f, q), [], 0;
    while cursor <= |t|
      invariant 0 <= cursor <= |t| + 1 && (cursor == 0 || cursor == |t| + 1 || t[cursor - 1] == '\n')
      invariant Collected(Greedy(f, t, q, 0), ms, Greedy(f, t, q, cursor), cap)
      decreases |t| + 1 - cursor
    {
      LineAt(t, cursor);
      var newline := Find(t, "\n", cursor);
      var lineEnd := if newline < 0 then |t| else newline;
      var longer := LineMatches(f, t, q, fq, cursor, lineEnd, cap, ms);
      if longer.None? {
        return Err(TooManyMatches);
      }
      ms := longer.value;
      cursor := lineEnd + 1;
    }
    assert ms + Greedy(f, t, q, cursor) == ms;
    r := Ok(ms);
  }

  lemma ExactStep(t: string, q: string, cursor: nat)
    requires ValidQuery(q)
    ensures var k := Find(t, q, cursor);
            Greedy(EXACT, t, q, cursor)
                    == if k < 0 then [] else [SearchMatch(k, k + |q|)] + Greedy(EXACT, t, q, k + |q|)
  {
    var k := Find(t, q, cursor);
    ExactFold(q);
    ExactNext(t, q, cursor);
    GreedyNext(EXACT, t, q, cursor, if k < 0 then None else Some(SearchMatch(k, k + |q|)));
  }

  method ExactMatches(t: string, q: string, cap: Option<nat>) returns (r: Result<seq<SearchMatch>, SearchError>)
    requires ValidQuery(q)
    ensures Enumerates(EXACT, t, q, cap, r)
  {
    hide Greedy;
    var ms, cursor := [], 0;
    ghost var all := Greedy(EXACT, t, q, 0);
    while cursor <= |t| - |q|
      invariant 0 <= cursor <= |t|
      invariant Collected(all, ms, Greedy(EXACT, t, q, cursor), cap)
      decreases |t| - cursor
    {
      ExactStep(t, q, cursor);
      var found := Find(t, q, cursor);
      if found < 0 {
        break;
      }
      var m := SearchMatch(found, found + |q|);
      CollectNext(all, ms, m, Greedy(EXACT, t, q, m.end), cap);
      var longer := AppendBounded(ms, m, cap);
      if longer.None? {
        return Err(TooManyMatches);
      }
      ms, cursor := longer.value, m.end;
    }
    ExactStep(t, q, cursor);
    assert Find(t, q, cursor) < 0 && ms + [] == ms;
    r := Ok(ms);
  }

  method FindAll(f: CharFold, t: string, q: string, matchCase: bool, cap: Option<nat>)
    returns (r: Result<seq<SearchMatch>, SearchError>)
    requires FoldOk(f)
    ensures match ValidateQuery(q)
            case Some(e) => r == Err(e)
            case None =>
              if cap == Some(0) then r == Err(InvalidCap) else Enumerates(FoldFor(f, matchCase), t, q, cap, r)
  {
    var invalid := ValidateQuery(q);
    if invalid.Some? {
      return Err(invalid.value);
    }
    if cap == Some(0) {
      return Err(InvalidCap);
    }
    if matchCase {
      r := ExactMatches(t, q, cap);
    } else {
      r := CasefoldMatches(f, t, q, cap);
    }
  }

  // --- Find Next and Find Previous -----------------------------------------------------------

  function Clamped(offset: int, t: string): nat { Min(Max(0, offset), |t|) }

  /** No wrap while there is a match ahead; the case-sensitive wrap only looks at matches that end before `from`. */
  ghost predicate NextSpec(g: CharFold, t: string, q: string, from: nat, straddles: bool, wrap: bool, r: SearchResult) {
    if exists m :: Matches(g, t, q, m) && from <= m.start then
      !r.wrapped && r.found.Some? && IsNext(g, t, q, from, r.found)
    else if !wrap || from == 0 then r == SearchResult(None, false)
    else
      && r.wrapped == r.found.Some?
      && match r.found
         case Some(b) => IsNext(g, t, q, 0, r.found) && (straddles || b.end <= from)
         case None => forall m | Matches(g, t, q, m) :: !straddles && m.start < from < m.end
  }

  ghost predicate PreviousSpec(g: CharFold, t: string, q: string, from: nat, straddles: bool, wrap: bool,
                               r: SearchResult) {
    if exists m :: Matches(g, t, q, m) && m.end <= from then
      !r.wrapped && r.found.Some? && IsPrevious(g, t, q, from, r.found)
    else if !wrap || from == |t| then r == SearchResult(None, false)
    else
      && r.wrapped == r.found.Some?
      && match r.found
         case Some(b) => IsPrevious(g, t, q, |t|, r.found) && (straddles || from <= b.start)
         case None => forall m | Matches(g, t, q, m) :: !straddles && m.start < from < m.end
  }

  method FoldedFindNext(f: CharFold, t: string, q: string, from: nat, wrap: bool) returns (r: SearchResult)
    requires FoldOk(f) && ValidQuery(q) && from <= |t|
    ensures NextSpec(f, t, q, from, true, wrap, r)
  {
    var found := CasefoldFindNextNoWrap(f, t, q, from);
    if found.Some? {
      return SearchResult(found, false);
    }
    if wrap && from > 0 {
      var candidate := CasefoldFindNextNoWrap(f, t, q, 0);
      if candidate.Some? && candidate.value.start < from {
        return SearchResult(candidate, true);
      }
    }
    r := SearchResult(None, false);
  }

  lemma AtPrefix(t: string, q: string, from: nat, k: nat)
    requires from <= |t|
    ensures At(t[..from], q, k) <==> At(t, q, k) && k + |q| <= from
  {
    if k + |q| <= from { assert t[..from][k..k + |q|] == t[k..k + |q|]; }
  }

  lemma FirstIsNext(g: CharFold, t: string, q: string, b: SearchMatch)
    requires Matches(g, t, q, b) && forall m | Matches(g, t, q, m) :: b.start <= m.start
    ensures IsNext(g, t, q, 0, Some(b))
  {}

  /** Searching the text before `from` only finds occurrences that end there. */
  lemma PrefixNext(t: string, q: string, from: nat)
    requires ValidQuery(q) && from <= |t|
    ensures
      var j := Find(t[..from], q, 0);
      if j < 0 then forall m | Matches(EXACT, t, q, m) :: from < m.end
      else IsNext(EXACT, t, q, 0, Some(SearchMatch(j, j + |q|))) && j + |q| <= from
  {
    hide At, Matches;
    var j := Find(t[..from], q, 0);
    if j >= 0 {
      AtPrefix(t, q, from, j);
      ExactMatch(t, q, SearchMatch(j, j + |q|));
    }
    forall m | Matches(EXACT, t, q, m) ensures if j < 0 then from < m.end else j <= m.start {
      ExactMatch(t, q, m);
      AtPrefix(t, q, from, m.start);
    }
    if j >= 0 {
      FirstIsNext(EXACT, t, q, SearchMatch(j, j + |q|));
    }
  }

  method ExactFindNext(t: string, q: string, from: nat, wrap: bool) returns (r: SearchResult)
    requires ValidQuery(q) && from <= |t|
    ensures NextSpec(EXACT, t, q, from, false, wrap, r)
  {
    var k := Find(t, q, from);
    ExactNext(t, q, from);
    if k >= 0 {
      return SearchResult(Some(SearchMatch(k, k + |q|)), false);
    }
    if wrap && from > 0 {
      var j := Find(t[..from], q, 0);
      PrefixNext(t, q, from);
      if j >= 0 {
        return SearchResult(Some(SearchMatch(j, j + |q|)), true);
      }
    }
    r := SearchResult(None, false);
  }

  method FindNext(f: CharFold, t: string, q: string, startOffset: int, matchCase: bool, wrap: bool)
    returns (r: Result<SearchResult, SearchError>)
    requires FoldOk(f)
    ensures match ValidateQuery(q)
            case Some(e) => r == Err(e)
            case None =>
              r.Ok? && NextSpec(FoldFor(f, matchCase), t, q, Clamped(startOffset, t), !matchCase, wrap, r.value)
  {
    var invalid := ValidateQuery(q);
    if invalid.Some? {
      return Err(invalid.value);
    }
    var from := Clamped(startOffset, t);
    var result;
    if matchCase {
      result := ExactFindNext(t, q, from, wrap);
    } else {
      result := FoldedFindNext(f, t, q, from, wrap);
    }
    r := Ok(result);
  }

  method FoldedFindPrevious(f: CharFold, t: string, q: string, from: nat, wrap: bool) returns (r: SearchResult)
    requires FoldOk(f) && ValidQuery(q) && from <= |t|
    ensures PreviousSpec(f, t, q, from, true, wrap, r)
  {
    var found := CasefoldFindPreviousNoWrap(f, t, q, from);
    if found.Some? {
      return SearchResult(found, false);
    }
    if wrap && from < |t| {
      var candidate := CasefoldFindPreviousNoWrap(f, t, q, |t|);
      if candidate.Some? && candidate.value.end > from {
        return SearchResult(candidate, true);
      }
    }
    r := SearchResult(None, false);
  }

  /** What the wrapping search backward reports, given the last match of the whole text. */
  lemma WrapPrevious(g: CharFold, t: string, q: string, from: nat, b: Option<SearchMatch>)
    requires from < |t| && IsPrevious(g, t, q, from, None) && IsPrevious(g, t, q, |t|, b)
    ensures PreviousSpec(g, t, q, from, false, true,
                         if b.Some? && b.value.start >= from then SearchResult(b, true) else SearchResult(None, false))
  {}

  lemma PreviousFound(g: CharFold, t: string, q: string, from: nat, straddles: bool, wrap: bool, b: SearchMatch)
    requires IsPrevious(g, t, q, from, Some(b))
    ensures PreviousSpec(g, t, q, from, straddles, wrap, SearchResult(Some(b), false))
  {}

  lemma PreviousNotWrapped(g: CharFold, t: string, q: string, from: nat, straddles: bool, wrap: bool)
    requires IsPrevious(g, t, q, from, None) && (!wrap || from == |t|)
    ensures PreviousSpec(g, t, q, from, straddles, wrap, SearchResult(None, false))
  {}

  method ExactFindPrevious(t: string, q: string, from: nat, wrap: bool) returns (r: SearchResult)
    requires ValidQuery(q) && from <= |t|
    ensures PreviousSpec(EXACT, t, q, from, false, wrap, r)
  {
    hide At, Matches, PreviousSpec;
    var k := RFind(t, q, from);
    ExactPrevious(t, q, from);
    if k >= 0 {
      PreviousFound(EXACT, t, q, from, false, wrap, SearchMatch(k, k + |q|));
      return SearchResult(Some(SearchMatch(k, k + |q|)), false);
    }
    if wrap && from < |t| {
      var j := RFind(t, q, |t|);
      ExactPrevious(t, q, |t|);
      WrapPrevious(EXACT, t, q, from, if j < 0 then None else Some(SearchMatch(j, j + |q|)));
      return if j >= from then SearchResult(Some(SearchMatch(j, j + |q|)), true) else SearchResult(None, false);
    }
    PreviousNotWrapped(EXACT, t, q, from, false, wrap);
    r := SearchResult(None, false);
  }

  method FindPrevious(f: CharFold, t: string, q: string, startOffset: int, matchCase: bool, wrap: bool)
    returns (r: Result<SearchResult, SearchError>)
    requires FoldOk(f)
    ensures match ValidateQuery(q)
            case Some(e) => r == Err(e)
            case None =>
              r.Ok? && PreviousSpec(FoldFor(f, matchCase), t, q, Clamped(startOffset, t), !matchCase, wrap, r.value)
  {
    var invalid := ValidateQuery(q);
    if invalid.Some? {
      return Err(invalid.value);
    }
    var from := Clamped(startOffset, t);
    var result;
    if matchCase {
      result := ExactFindPrevious(t, q, from, wrap);
    } else {
      result := FoldedFindPrevious(f, t, q, from, wrap);
    }
    r := Ok(result);
  }

  /** How far ahead of `from` the match starts, going round the end of the text. */
  function AheadBy(t: string, from: nat, m: SearchMatch): int {
    if from <= m.start then m.start - from else m.start + |t| + 1 - from
  }

  /** Find Next reports the nearest match ahead, round the end only if allowed and needed, and tells which it was. */
  lemma NextIsNearest(g: CharFold, t: string, q: string, from: nat, straddles: bool, wrap: bool, r: SearchResult)
    requires from <= |t| && NextSpec(g, t, q, from, straddles, wrap, r)
    ensures r.wrapped <==> r.found.Some? && r.found.value.start < from
    ensures r.wrapped ==> wrap
    ensures r.found.Some? ==>
              Matches(g, t, q, r.found.value) &&
              forall m | Matches(g, t, q, m) :: AheadBy(t, from, r.found.value) <= AheadBy(t, from, m)
    ensures r.found.None? ==> forall m | Matches(g, t, q, m) :: m.start < from
    ensures straddles && wrap && r.found.None? ==> forall m :: !Matches(g, t, q, m)
  {}

  /** Find Previous likewise: the last match that ends by `from`, else the last one of all. */
  lemma PreviousIsNearest(g: CharFold, t: string, q: string, from: nat, straddles: bool, wrap: bool, r: SearchResult)
    requires from <= |t| && PreviousSpec(g, t, q, from, straddles, wrap, r)
    ensures r.wrapped <==> r.found.Some? && from < r.found.value.end
    ensures r.wrapped ==> wrap
    ensures r.found.Some? ==>
              Matches(g, t, q, r.found.value) &&
              forall m | Matches(g, t, q, m) && (m.end <= from || r.wrapped) ::
                m.start <= r.found.value.start && (m.end <= from ==> !r.wrapped)
    ensures r.found.None? ==> forall m | Matches(g, t, q, m) :: from < m.end
    ensures straddles && wrap && r.found.None? ==> forall m :: !Matches(g, t, q, m)
  {}

  /** With wrapping the folded search finds nothing exactly when the text holds no match. */
  lemma FoldedWrapIsComplete(f: CharFold, t: string, q: string, from: nat, next: SearchResult, previous: SearchResult)
    requires FoldOk(f) && ValidQuery(q) && from <= |t|
    requires NextSpec(f, t, q, from, true, true, next) && PreviousSpec(f, t, q, from, true, true, previous)
    ensures next.found == None <==> !exists m :: Matches(f, t, q, m)
    ensures previous.found == None <==> !exists m :: Matches(f, t, q, m)
  {
  }

  /** With wrapping the case-sensitive search finds nothing exactly when every match straddles the offset. */
  lemma ExactWrapMissesStraddling(t: string, q: string, from: nat, next: SearchResult, previous: SearchResult)
    requires ValidQuery(q) && from <= |t|
    requires NextSpec(EXACT, t, q, from, false, true, next) && PreviousSpec(EXACT, t, q, from, false, true, previous)
    ensures next.found == None <==> forall m | Matches(EXACT, t, q, m) :: m.start < from < m.end
    ensures previous.found == None <==> forall m | Matches(EXACT, t, q, m) :: m.start < from < m.end
  {
  }

  /** An occurrence that a wrapping case-sensitive search from inside it does not report. */
  lemma ExactWrapIsIncomplete(next: SearchResult)
    requires NextSpec(EXACT, "aa", "aa", 1, false, true, next)
    ensures Matches(EXACT, "aa", "aa", SearchMatch(0, 2)) && next.found == None
  {
    ExactFold("aa");
    assert "aa"[0..2] == "aa";
    forall m | Matches(EXACT, "aa", "aa", m) ensures m == SearchMatch(0, 2) { ExactMatch("aa", "aa", m); }
  }

  // --- The selection -------------------------------------------------------------------------

  function IsExactMatch(f: CharFold, t: string, q: string, start: int, end: int, matchCase: bool): Result<bool,
                        SearchError> {
    match ValidateQuery(q)
    case Some(e) => Err(e)
    case None =>
      var s: nat := Max(0, start);
      var e := Min(|t|, Max(s, end));
      if s >= e || '\n' in t[s..e] || '\r' in t[s..e] then Ok(false)
      else if matchCase then Ok(t[s..e] == q)
      else Ok(Fold(f, t[s..e]) == Fold(f, q))
  }

  /** A selection may reach behind the text; this is the part of it in the text. */
  function Within(m: SearchMatch, t: string): SearchMatch {
    SearchMatch(m.start, Min(m.end, |t|))
  }

  /** The selection test accepts exactly the matches of the search. */
  lemma SelectionTestIsMatch(f: CharFold, t: string, q: string, m: SearchMatch, matchCase: bool)
    requires FoldOk(f) && ValidQuery(q)
    ensures IsExactMatch(f, t, q, m.start, m.end, matchCase) == Ok(Matches(FoldFor(f, matchCase), t, q, Within(m, t)))
  {
    var w := Within(m, t);
    ExactFold(q);
    if w.start < w.end {
      var span := t[w.start..w.end];
      ExactFold(span);
      if Matches(FoldFor(f, matchCase), t, q, w) {
        MatchInLine(FoldFor(f, matchCase), t, q, w);
      }
    }
  }
}
