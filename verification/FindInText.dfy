/** Find Next, Find Previous and the enumeration of all matches over the whole text. */
module FindInText {
  import opened Prelude
  import opened FoldedLines
  import opened TextSearch
  import opened Renderability

  function Shifted(m: SearchMatch, offset: nat): SearchMatch {
    SearchMatch(m.start + offset, m.end + offset)
  }

  lemma ShiftedMatches(f: CharFold, t: string, q: string, s: nat, e: nat, m: SearchMatch)
    requires s <= e <= |t| && m.end <= e - s
    ensures Matches(f, t[s..e], q, m) <==> Matches(f, t, q, Shifted(m, s))
  {
    if m.start < m.end { SliceOfSlice(t, s, e, m.start, m.end); }
  }

  /** A match that touches a line lies in it. */
  lemma MatchStaysInLine(f: CharFold, t: string, q: string, s: nat, e: nat, m: SearchMatch)
    requires FoldOk(f) && ValidQuery(q) && IsLine(t, s, e) && Matches(f, t, q, m)
    ensures s <= m.start <= e ==> m.end <= e
    ensures s <= m.end <= e ==> s <= m.start
  {
    MatchInLine(f, t, q, m);
  }

  lemma BoundsAreLine(t: string, pos: nat)
    requires pos <= |t|
    ensures
      var start, end := RFind(t, "\n", pos) + 1, if Find(t, "\n", pos) < 0 then |t| else Find(t, "\n", pos);
      start <= pos <= end && IsLine(t, start, end)
  {
    var start, end := RFind(t, "\n", pos) + 1, if Find(t, "\n", pos) < 0 then |t| else Find(t, "\n", pos);
    forall k | start <= k < end ensures t[k] != '\n' { AtBreak(t, k); }
    AtBreak(t, start - 1);
    AtBreak(t, end);
  }

  /** `str.rfind("\n", 0, pos) + 1` and `str.find("\n", pos)`. */
  function LineBounds(t: string, pos: nat): (r: (nat, nat))
    requires pos <= |t|
    ensures r.0 <= pos <= r.1 && IsLine(t, r.0, r.1)
  {
    var start, end := RFind(t, "\n", pos) + 1, Find(t, "\n", pos);
    BoundsAreLine(t, pos);
    (start, if end < 0 then |t| else end)
  }

  // --- Forward -------------------------------------------------------------------------------

  /** The first match of a line, seen from the text: it decides the search, or the line is done. */
  lemma LineNext(f: CharFold, t: string, q: string, s: nat, e: nat, from: nat, local: Option<SearchMatch>)
    requires FoldOk(f) && ValidQuery(q) && IsLine(t, s, e) && from <= e
    requires IsNext(f, t[s..e], q, Max(from, s) - s, local)
    requires forall m | Matches(f, t, q, m) && from <= m.start :: s <= m.start
    ensures match local
            case Some(m) => IsNext(f, t, q, from, Some(Shifted(m, s)))
            case None => forall m | Matches(f, t, q, m) && from <= m.start :: e < m.start
  {
    if local.Some? {
      ShiftedMatches(f, t, q, s, e, local.value);
    }
    forall m | Matches(f, t, q, m) && from <= m.start
      ensures if local.Some? then s + local.value.start <= m.start else e < m.start
    {
      if m.start <= e {
        MatchStaysInLine(f, t, q, s, e, m);
        ShiftedMatches(f, t, q, s, e, SearchMatch(m.start - s, m.end - s));
      }
    }
  }

  method CasefoldFindNextNoWrap(f: CharFold, t: string, q: string, from: nat) returns (r: Option<SearchMatch>)
    requires FoldOk(f) && ValidQuery(q) && from <= |t|
    ensures IsNext(f, t, q, from, r)
  {
    var fq := Fold(f, q);
    var (lineStart, lineEnd) := LineBounds(t, from);
    var cursor, localStart := lineStart, from - lineStart;
    while cursor <= |t|
      invariant lineStart <= cursor <= |t| && (cursor == 0 || t[cursor - 1] == '\n')
      invariant if cursor == lineStart then IsLine(t, cursor, lineEnd) && from <= lineEnd
                && localStart == from - lineStart else from < cursor
      invariant forall m | Matches(f, t, q, m) && from <= m.start :: cursor <= m.start
      decreases |t| - cursor
    {
      if cursor != lineStart {
        LineAt(t, cursor);
        var newline := Find(t, "\n", cursor);
        lineEnd := if newline < 0 then |t| else newline;
        localStart := 0;
      }
      var line := FoldLine(f, t[cursor..lineEnd]);
      var local := FoldedFindForward(f, t[cursor..lineEnd], q, line, fq, localStart);
      LineNext(f, t, q, cursor, lineEnd, from, local);
      if local.Some? {
        return Some(Shifted(local.value, cursor));
      }
      if lineEnd >= |t| {
        break;
      }
      cursor := lineEnd + 1;
    }
    r := None;
  }

  // --- Backward ------------------------------------------------------------------------------

  lemma LinePrevious(f: CharFold, t: string, q: string, s: nat, e: nat, to: nat, localEnd: nat,
                     local: Option<SearchMatch>)
    requires FoldOk(f) && ValidQuery(q) && IsLine(t, s, e) && localEnd <= e - s && s + localEnd <= to
    requires IsPrevious(f, t[s..e], q, localEnd, local)
    requires forall m | Matches(f, t, q, m) && m.end <= to :: m.end <= s + localEnd
    ensures match local
            case Some(m) => IsPrevious(f, t, q, to, Some(Shifted(m, s)))
            case None => forall m | Matches(f, t, q, m) && m.end <= to :: m.end < s
  {
    if local.Some? {
      ShiftedMatches(f, t, q, s, e, local.value);
    }
    forall m | Matches(f, t, q, m) && m.end <= to
      ensures if local.Some? then m.start <= s + local.value.start else m.end < s
    {
      MatchStaysInLine(f, t, q, s, e, m);
      if s <= m.end {
        ShiftedMatches(f, t, q, s, e, SearchMatch(m.start - s, m.end - s));
      }
    }
  }

  method CasefoldFindPreviousNoWrap(f: CharFold, t: string, q: string, to: nat) returns (r: Option<SearchMatch>)
    requires FoldOk(f) && ValidQuery(q) && to <= |t|
    ensures IsPrevious(f, t, q, to, r)
  {
    var fq := Fold(f, q);
    var (cursorStart, cursorEnd) := LineBounds(t, to);
    var localEnd := to - cursorStart;
    while true
      invariant IsLine(t, cursorStart, cursorEnd) && 0 <= localEnd <= cursorEnd - cursorStart
      invariant cursorStart + localEnd <= to
      invariant forall m | Matches(f, t, q, m) && m.end <= to :: m.end <= cursorStart + localEnd
      decreases cursorStart
    {
      var line := FoldLine(f, t[cursorStart..cursorEnd]);
      var local := FoldedFindBackward(f, t[cursorStart..cursorEnd], q, line, fq, localEnd);
      LinePrevious(f, t, q, cursorStart, cursorEnd, to, localEnd, local);
      if local.Some? {
        return Some(Shifted(local.value, cursorStart));
      }
      if cursorStart == 0 {
        return None;
      }
      cursorEnd := cursorStart - 1;
      BoundsAreLine(t, cursorEnd);
      cursorStart := RFind(t, "\n", cursorEnd) + 1;
      localEnd := cursorEnd - cursorStart;
    }
  }

  // --- All matches ---------------------------------------------------------------------------

  /** Taking the first match, then the first one behind it, and so on: iterated Find Next. */
  ghost function Greedy(f: CharFold, t: string, q: string, from: nat): seq<SearchMatch>
    decreases |t| - from
  {
    if from >= |t| then []
    else if exists end: nat :: Matches(f, t, q, SearchMatch(from, end)) then
      var end: nat :| Matches(f, t, q, SearchMatch(from, end));
      [SearchMatch(from, end)] + Greedy(f, t, q, end)
    else Greedy(f, t, q, from + 1)
  }

  lemma {:induction false} GreedySkip(f: CharFold, t: string, q: string, from: nat, next: nat)
    requires from <= next
    requires forall m | Matches(f, t, q, m) && from <= m.start :: next <= m.start
    ensures Greedy(f, t, q, from) == Greedy(f, t, q, next)
    decreases next - from
  {
    if from == next {
    } else {
      GreedySkip(f, t, q, from + 1, next);
    }
  }

  /** The enumeration is Find Next iterated. */
  lemma GreedyNext(f: CharFold, t: string, q: string, from: nat, r: Option<SearchMatch>)
    requires FoldOk(f) && ValidQuery(q) && IsNext(f, t, q, from, r)
    ensures Greedy(f, t, q, from) == match r case None => [] case Some(b) => [b] + Greedy(f, t, q, b.end)
  {
    match r
    case None =>
      GreedySkip(f, t, q, from, Max(from, |t|));
    case Some(b) =>
      GreedySkip(f, t, q, from, b.start);
      assert Matches(f, t, q, SearchMatch(b.start, b.end));
      var first := Greedy(f, t, q, b.start)[0];
      MatchOrder(f, t, q, first, b);
  }

  /** The enumerated matches are matches, in order and disjoint. */
  ghost predicate Disjoint(f: CharFold, t: string, q: string, from: nat, ms: seq<SearchMatch>)
    decreases |ms|
  {
    ms != [] ==> Matches(f, t, q, ms[0]) && from <= ms[0].start && Disjoint(f, t, q, ms[0].end, ms[1..])
  }

  lemma DisjointFromEarlier(f: CharFold, t: string, q: string, from: nat, to: nat, ms: seq<SearchMatch>)
    requires from <= to && Disjoint(f, t, q, to, ms)
    ensures Disjoint(f, t, q, from, ms)
  {
  }

  lemma {:induction false} GreedyIsDisjoint(f: CharFold, t: string, q: string, from: nat)
    ensures Disjoint(f, t, q, from, Greedy(f, t, q, from))
    decreases |t| - from
  {
    if from >= |t| {
    } else {
      if exists end: nat :: Matches(f, t, q, SearchMatch(from, end)) {
        var ms := Greedy(f, t, q, from);
        assert ms[1..] == Greedy(f, t, q, ms[0].end);
        GreedyIsDisjoint(f, t, q, ms[0].end);
      } else {
        GreedyIsDisjoint(f, t, q, from + 1);
        DisjointFromEarlier(f, t, q, from, from + 1, Greedy(f, t, q, from + 1));
      }
    }
  }

  /** No disjoint choice of matches has more members than the enumeration. */
  lemma {:induction false} GreedyIsLargest(f: CharFold, t: string, q: string, from: nat, ms: seq<SearchMatch>)
    requires FoldOk(f) && ValidQuery(q) && Disjoint(f, t, q, from, ms)
    ensures |ms| <= |Greedy(f, t, q, from)|
    decreases |t| - from
  {
    if ms == [] {
    } else {
      if exists end: nat :: Matches(f, t, q, SearchMatch(from, end)) {
        var b := Greedy(f, t, q, from)[0];
        MatchOrder(f, t, q, b, ms[0]);
        DisjointFromEarlier(f, t, q, b.end, ms[0].end, ms[1..]);
        GreedyIsLargest(f, t, q, b.end, ms[1..]);
      } else {
        assert ms[0] == SearchMatch(ms[0].start, ms[0].end);
        GreedyIsLargest(f, t, q, from + 1, ms);
      }
    }
  }
}
