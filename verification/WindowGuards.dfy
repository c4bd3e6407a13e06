/**
  The two guards the window runs before an edit reaches the buffer.  They measure between the line starts
  and line ends of the buffer, where CR and the paragraph separator U+2029 end a line as LF does; the width
  budget is about lines that end at LF alone.  The theorems say exactly when the verdict is right.
 */
module WindowGuards {
  import opened Prelude
  import opened Renderability
  import opened Lines

  const PARAGRAPH_SEPARATOR: char := '\U{2029}'

  // --- The lines of the buffer ---------------------------------------------------------------

  /** A character that ends a line of the buffer but no line of the budget. */
  predicate IsOdd(c: char) {
    c == '\r' || c == PARAGRAPH_SEPARATOR
  }

  /**
    The LF at `k` and the CR before it are one delimiter.  Which pairs are joined depends on how they came
    into the buffer: together, or one after the other.
   */
  predicate Joined(t: string, k: int, pairs: set<nat>) {
    0 < k < |t| && t[k - 1] == '\r' && t[k] == '\n' && k in pairs
  }

  /** A line of the buffer starts at `k`, behind a delimiter. */
  predicate Opens(t: string, k: int, pairs: set<nat>) {
    0 < k <= |t| && (t[k - 1] == '\n' || IsOdd(t[k - 1])) && !Joined(t, k, pairs)
  }

  /** A delimiter starts at `k`. */
  predicate Closes(t: string, k: int, pairs: set<nat>) {
    0 <= k < |t| && (t[k] == '\n' || IsOdd(t[k])) && !Joined(t, k, pairs)
  }

  /** Where an iterator at `x` lands when its line offset is set to 0. */
  function WindowStart(t: string, x: nat, pairs: set<nat>): (s: nat)
    requires x <= |t|
    ensures s <= x && (s == 0 || Opens(t, s, pairs)) && forall k | s < k <= x :: !Opens(t, k, pairs)
  {
    if x == 0 || Opens(t, x, pairs) then x else WindowStart(t, x - 1, pairs)
  }

  function NextClose(t: string, x: nat, pairs: set<nat>): (e: nat)
    requires x <= |t|
    ensures x <= e <= |t| && (e == |t| || Closes(t, e, pairs)) && forall k | x <= k < e :: !Closes(t, k, pairs)
    decreases |t| - x
  {
    if x == |t| || Closes(t, x, pairs) then x else NextClose(t, x + 1, pairs)
  }

  /**
    Where an iterator at `x` lands when it is moved forward to a line end: the end of its line, and if it is at
    or inside the delimiter already, the end of the next line.
   */
  function ForwardToLineEnd(t: string, x: nat, pairs: set<nat>): (e: nat)
    requires x <= |t|
    ensures x <= e <= |t|
  {
    NextClose(t, if x < |t| && (t[x] == '\n' || IsOdd(t[x])) then x + 1 else x, pairs)
  }

  function WindowPrefix(t: string, x: nat, pairs: set<nat>): nat
    requires x <= |t|
  {
    x - WindowStart(t, x, pairs)
  }

  function WindowSuffix(t: string, x: nat, pairs: set<nat>): nat
    requires x <= |t|
  {
    ForwardToLineEnd(t, x, pairs) - x
  }

  // --- Which characters decide ---------------------------------------------------------------

  /** No line of the buffer starts between the start of the LF line and `x`. */
  predicate ReadsBefore(t: string, x: nat, pairs: set<nat>)
    requires x <= |t|
  {
    forall k | LineStart(t, x) < k <= x :: IsOdd(t[k - 1]) ==> Joined(t, k, pairs)
  }

  /** No CR and no paragraph separator stands between `x` and the end of the LF line; one at `x` does no harm. */
  predicate ReadsBehind(t: string, x: nat)
    requires x <= |t|
  {
    forall k | x < k < PieceEnd(t, x) :: !IsOdd(t[k])
  }

  /** The window starts to measure at an LF, and so behind the end of the LF line. */
  predicate SkipsBreak(t: string, x: nat, pairs: set<nat>)
    requires x <= |t|
  {
    x < |t| && (t[x] == '\n' || Joined(t, x + 1, pairs))
  }

  /** An LF before `x` always ends a line of the buffer. */
  lemma StartOpens(t: string, r: nat, x: nat, pairs: set<nat>)
    requires 0 < r <= x <= |t| && t[r - 1] == '\n'
    ensures Opens(t, r, pairs)
  {}

  lemma WindowStartIs(t: string, x: nat, pairs: set<nat>)
    requires x <= |t|
    ensures LineStart(t, x) <= WindowStart(t, x, pairs)
    ensures WindowStart(t, x, pairs) == LineStart(t, x) <==> ReadsBefore(t, x, pairs)
  {
    var r, s := LineStart(t, x), WindowStart(t, x, pairs);
    assert r > 0 ==> t[r - 1] == '\n';
    forall k | r < k <= x ensures Opens(t, k, pairs) <==> IsOdd(t[k - 1]) && !Joined(t, k, pairs) {
      assert t[k - 1] != '\n';
    }
    if s < r { StartOpens(t, r, x, pairs); }
  }

  lemma ForwardBehind(t: string, x: nat, pairs: set<nat>)
    requires x <= |t|
    ensures ForwardToLineEnd(t, x, pairs) >= PieceEnd(t, x) <==> ReadsBehind(t, x)
  {
    var e, f := ForwardToLineEnd(t, x, pairs), PieceEnd(t, x);
    assert e < f ==> Closes(t, e, pairs) && IsOdd(t[e]);
    if e >= f {
      forall k | x < k < f ensures !IsOdd(t[k]) { assert !Closes(t, k, pairs) && t[k] != '\n'; }
    }
  }

  lemma ForwardWithin(t: string, x: nat, pairs: set<nat>)
    requires x <= |t|
    ensures ForwardToLineEnd(t, x, pairs) <= PieceEnd(t, x) <==> !SkipsBreak(t, x, pairs)
  {
    var e, f := ForwardToLineEnd(t, x, pairs), PieceEnd(t, x);
    if SkipsBreak(t, x, pairs) {
      assert f == if t[x] == '\n' then x else x + 1;
      assert !Closes(t, x + 1, pairs) || t[x] == '\n';
    } else if f < |t| {
      assert t[f] == '\n' && f > x;
      assert Closes(t, f, pairs) || (Joined(t, f, pairs) && f > x + 1 && Closes(t, f - 1, pairs));
    }
  }

  // --- Insertions ----------------------------------------------------------------------------

  /** The window lets an insertion pass. */
  ghost predicate InsertPasses(t: string, offset: nat, inserted: string, limit: nat, pairs: set<nat>)
    requires offset <= |t|
  {
    inserted == "" || InsertFits(WindowPrefix(t, offset, pairs), WindowSuffix(t, offset, pairs), inserted, limit)
  }

  /** Every insertion at `x` that passes leaves the text within the budget. */
  ghost predicate InsertSound(t: string, x: nat, limit: nat, pairs: set<nat>)
    requires x <= |t|
  {
    forall inserted: string | InsertPasses(t, x, inserted, limit, pairs) ::
      Renderable(t[..x] + inserted + t[x..], limit)
  }

  /** Every insertion at `x` that leaves the text within the budget passes. */
  ghost predicate InsertComplete(t: string, x: nat, limit: nat, pairs: set<nat>)
    requires x <= |t|
  {
    forall inserted: string | Renderable(t[..x] + inserted + t[x..], limit) ::
      InsertPasses(t, x, inserted, limit, pairs)
  }

  /** The window sees the whole LF line on both sides of `x`, or so much behind it that nothing passes. */
  predicate InsertReads(t: string, x: nat, limit: nat, pairs: set<nat>)
    requires x <= |t|
  {
    ReadsBehind(t, x) && (ReadsBefore(t, x, pairs) || WindowSuffix(t, x, pairs) > limit)
  }

  /** A run of ordinary characters, for insertions of a given width. */
  function Filler(n: nat): (s: string)
    ensures |s| == n && forall k | 0 <= k < n :: s[k] != '\n'
  {
    seq(n, _ => 'x')
  }

  lemma BreakThenFiller(prefix: nat, suffix: nat, n: nat, limit: nat)
    ensures InsertFits(prefix, suffix, "\n" + Filler(n), limit) <==> prefix <= limit && n + suffix <= limit
  {
    var s := "\n" + Filler(n);
    assert Clear(s, 0, 0) && Width(prefix, suffix, s, 0, 0) == prefix;
    assert Clear(s, 1, n + 1) && Width(prefix, suffix, s, 1, n + 1) == n + suffix;
    forall i, j | 0 <= i <= j <= |s| && Clear(s, i, j) ensures j == 0 || i > 0 { assert s[0] == '\n'; }
  }

  lemma FillerThenBreak(prefix: nat, suffix: nat, n: nat, limit: nat)
    ensures InsertFits(prefix, suffix, Filler(n) + "\n", limit) <==> prefix + n <= limit && suffix <= limit
  {
    var s := Filler(n) + "\n";
    assert Clear(s, 0, n) && Width(prefix, suffix, s, 0, n) == prefix + n;
    assert Clear(s, n + 1, n + 1) && Width(prefix, suffix, s, n + 1, n + 1) == suffix;
    forall i, j | 0 <= i <= j <= |s| && Clear(s, i, j) ensures j <= n || i > n { assert s[n] == '\n'; }
  }

  lemma NarrowerFits(prefix: nat, suffix: nat, prefix': nat, suffix': nat, inserted: string, limit: nat)
    requires InsertFits(prefix, suffix, inserted, limit) && prefix' <= prefix && suffix' <= suffix
    ensures InsertFits(prefix', suffix', inserted, limit)
  {
    forall i, j | 0 <= i <= j <= |inserted| && Clear(inserted, i, j)
      ensures Width(prefix', suffix', inserted, i, j) <= limit
    {
      assert Width(prefix, suffix, inserted, i, j) <= limit;
    }
  }

  /** A suffix over the budget lets no insertion pass. */
  lemma SuffixTooWide(prefix: nat, suffix: nat, inserted: string, limit: nat)
    requires suffix > limit
    ensures !InsertFits(prefix, suffix, inserted, limit)
  {
    var n := |inserted|;
    assert Clear(inserted, n, n) && Width(prefix, suffix, inserted, n, n) > limit;
  }

  lemma LineWidthsFit(t: string, x: nat, limit: nat)
    requires Renderable(t, limit) && x <= |t|
    ensures x - LineStart(t, x) <= limit && PieceEnd(t, x) - x <= limit
  {
    assert Clear(t, LineStart(t, x), x) && Clear(t, x, PieceEnd(t, x));
  }

  lemma SplitVerdict(t: string, s: nat, x: nat, e: nat, inserted: string, limit: nat)
    requires s <= x <= e <= |t| && (s == 0 || t[s - 1] == '\n') && (e == |t| || t[e] == '\n')
    requires Clear(t, s, x) && Clear(t, x, e) && Renderable(t[0..x], limit) && Renderable(t[e..|t|], limit)
    ensures Renderable(t[..x] + inserted + t[x..], limit) <==> InsertFits(x - s, e - x, inserted, limit)
  {
    hide Renderable, InsertFits;
    assert t[0..x] == t[..x] && t[e..|t|] == t[e..];
    InsertGuardExact(t, s, x, e, inserted, limit);
  }

  /** The true verdict: with the widths of the LF line around `x`. */
  lemma TrueVerdict(t: string, x: nat, inserted: string, limit: nat)
    requires Renderable(t, limit) && x <= |t|
    ensures x - LineStart(t, x) <= limit && PieceEnd(t, x) - x <= limit
    ensures Renderable(t[..x] + inserted + t[x..], limit) <==>
              InsertFits(x - LineStart(t, x), PieceEnd(t, x) - x, inserted, limit)
  {
    hide Renderable, InsertFits;
    hide LineStart, PieceEnd;
    LineWidthsFit(t, x, limit);
    NarrowParts(t, 0, x, limit);
    NarrowParts(t, PieceEnd(t, x), |t|, limit);
    SplitVerdict(t, LineStart(t, x), x, PieceEnd(t, x), inserted, limit);
  }

  lemma ReadIsSound(t: string, x: nat, inserted: string, limit: nat, pairs: set<nat>)
    requires Renderable(t, limit) && x <= |t|
    requires InsertReads(t, x, limit, pairs) && InsertPasses(t, x, inserted, limit, pairs)
    ensures Renderable(t[..x] + inserted + t[x..], limit)
  {
    WindowStartIs(t, x, pairs);
    ForwardBehind(t, x, pairs);
    var prefix, suffix := WindowPrefix(t, x, pairs), WindowSuffix(t, x, pairs);
    if inserted == "" {
      assert t[..x] + inserted + t[x..] == t;
    } else if suffix > limit {
      SuffixTooWide(prefix, suffix, inserted, limit);
    } else {
      NarrowerFits(prefix, suffix, x - LineStart(t, x), PieceEnd(t, x) - x, inserted, limit);
      TrueVerdict(t, x, inserted, limit);
    }
  }

  /** What the window overlooks behind `x` an insertion after a line feed can use; what before `x`, one before it. */
  lemma UnreadIsUnsound(t: string, x: nat, limit: nat, pairs: set<nat>) returns (inserted: string)
    requires Renderable(t, limit) && x <= |t| && !InsertReads(t, x, limit, pairs)
    ensures InsertPasses(t, x, inserted, limit, pairs) && !Renderable(t[..x] + inserted + t[x..], limit)
  {
    hide Renderable, InsertFits;
    WindowStartIs(t, x, pairs);
    ForwardBehind(t, x, pairs);
    var prefix, suffix := WindowPrefix(t, x, pairs), WindowSuffix(t, x, pairs);
    TrueVerdict(t, x, "", limit);
    if !ReadsBehind(t, x) {
      inserted := "\n" + Filler(limit - suffix);
      BreakThenFiller(prefix, suffix, limit - suffix, limit);
      BreakThenFiller(x - LineStart(t, x), PieceEnd(t, x) - x, limit - suffix, limit);
    } else {
      inserted := Filler(limit - prefix) + "\n";
      FillerThenBreak(prefix, suffix, limit - prefix, limit);
      FillerThenBreak(x - LineStart(t, x), PieceEnd(t, x) - x, limit - prefix, limit);
    }
    TrueVerdict(t, x, inserted, limit);
  }

  lemma SkippedIsIncomplete(t: string, x: nat, limit: nat, pairs: set<nat>) returns (inserted: string)
    requires Renderable(t, limit) && x <= |t| && SkipsBreak(t, x, pairs)
    ensures Renderable(t[..x] + inserted + t[x..], limit) && !InsertPasses(t, x, inserted, limit, pairs)
  {
    ForwardWithin(t, x, pairs);
    TrueVerdict(t, x, "", limit);
    var suffix := PieceEnd(t, x) - x;
    inserted := "\n" + Filler(limit - suffix);
    BreakThenFiller(x - LineStart(t, x), suffix, limit - suffix, limit);
    BreakThenFiller(WindowPrefix(t, x, pairs), WindowSuffix(t, x, pairs), limit - suffix, limit);
    TrueVerdict(t, x, inserted, limit);
  }

  lemma UnskippedIsComplete(t: string, x: nat, inserted: string, limit: nat, pairs: set<nat>)
    requires Renderable(t, limit) && x <= |t| && !SkipsBreak(t, x, pairs)
    requires Renderable(t[..x] + inserted + t[x..], limit)
    ensures InsertPasses(t, x, inserted, limit, pairs)
  {
    WindowStartIs(t, x, pairs);
    ForwardWithin(t, x, pairs);
    TrueVerdict(t, x, inserted, limit);
    NarrowerFits(x - LineStart(t, x), PieceEnd(t, x) - x, WindowPrefix(t, x, pairs), WindowSuffix(t, x, pairs),
                 inserted, limit);
  }

  /**
    In a text within the budget the guard lets only harmless insertions pass exactly when it reads the whole LF
    line, and lets all of them pass exactly when it does not start to measure at an LF.
   */
  lemma InsertVerdict(t: string, x: nat, limit: nat, pairs: set<nat>)
    requires Renderable(t, limit) && x <= |t|
    ensures InsertSound(t, x, limit, pairs) <==> InsertReads(t, x, limit, pairs)
    ensures InsertComplete(t, x, limit, pairs) <==> !SkipsBreak(t, x, pairs)
  {
    hide InsertReads, SkipsBreak, InsertPasses, Renderable;
    if InsertReads(t, x, limit, pairs) {
      forall inserted: string | InsertPasses(t, x, inserted, limit, pairs)
        ensures Renderable(t[..x] + inserted + t[x..], limit)
      {
        ReadIsSound(t, x, inserted, limit, pairs);
      }
    } else {
      var inserted := UnreadIsUnsound(t, x, limit, pairs);
    }
    if SkipsBreak(t, x, pairs) {
      var inserted := SkippedIsIncomplete(t, x, limit, pairs);
    } else {
      forall inserted: string | Renderable(t[..x] + inserted + t[x..], limit)
        ensures InsertPasses(t, x, inserted, limit, pairs)
      {
        UnskippedIsComplete(t, x, inserted, limit, pairs);
      }
    }
  }

  // --- Deletions -----------------------------------------------------------------------------

  /** The window lets a deletion pass; both ends on one line of the buffer need no check. */
  predicate DeletePasses(t: string, from: nat, end: nat, limit: nat, pairs: set<nat>)
    requires from <= end <= |t|
  {
    WindowStart(t, from, pairs) == WindowStart(t, end, pairs) ||
    EnsureJoinRenderable(WindowPrefix(t, from, pairs), WindowSuffix(t, end, pairs), limit).None?
  }

  /** The width of the LF line that a deletion leaves, when it joins two. */
  function JoinedWidth(t: string, from: nat, end: nat): nat
    requires from <= end <= |t|
  {
    from - LineStart(t, from) + (PieceEnd(t, end) - end)
  }

  /** The width that the window measures for it. */
  function MeasuredWidth(t: string, from: nat, end: nat, pairs: set<nat>): nat
    requires from <= end <= |t|
  {
    WindowPrefix(t, from, pairs) + WindowSuffix(t, end, pairs)
  }

  /** Both ends of the deletion are read as LF lines. */
  predicate DeleteReads(t: string, from: nat, end: nat, pairs: set<nat>)
    requires from <= end <= |t|
  {
    Clear(t, from, end) || (ReadsBefore(t, from, pairs) && ReadsBehind(t, end))
  }

  lemma TrueJoin(t: string, from: nat, end: nat, limit: nat)
    requires Renderable(t, limit) && from <= end <= |t|
    ensures Renderable(t[..from] + t[end..], limit) <==> Clear(t, from, end) || JoinedWidth(t, from, end) <= limit
  {
    if Clear(t, from, end) {
      NarrowParts(t, from, end, limit);
    } else {
      var s, e := LineStart(t, from), PieceEnd(t, end);
      NarrowParts(t, 0, from, limit);
      NarrowParts(t, e, |t|, limit);
      assert t[0..from] == t[..from] && t[e..|t|] == t[e..];
      JoinGuardExact(t, s, from, end, e, limit);
    }
  }

  /** An LF between two offsets puts them on different lines of the buffer. */
  lemma SameWindowLine(t: string, from: nat, end: nat, pairs: set<nat>)
    requires from <= end <= |t| && WindowStart(t, from, pairs) == WindowStart(t, end, pairs)
    ensures Clear(t, from, end)
  {
    forall k | from <= k < end ensures t[k] != '\n' {
      if t[k] == '\n' { StartOpens(t, k + 1, end, pairs); }
    }
  }

  /**
    In a text within the budget the guard lets a harmful deletion pass exactly when an LF is deleted and the
    budget lies between the width it measures and the true one; that cannot be where both ends are read whole.
   */
  lemma DeleteVerdict(t: string, from: nat, end: nat, limit: nat, pairs: set<nat>)
    requires Renderable(t, limit) && from <= end <= |t|
    ensures DeletePasses(t, from, end, limit, pairs) && !Renderable(t[..from] + t[end..], limit) <==>
              !Clear(t, from, end) && MeasuredWidth(t, from, end, pairs) <= limit < JoinedWidth(t, from, end)
    ensures DeleteReads(t, from, end, pairs) && DeletePasses(t, from, end, limit, pairs) ==>
              Renderable(t[..from] + t[end..], limit)
  {
    TrueJoin(t, from, end, limit);
    if WindowStart(t, from, pairs) == WindowStart(t, end, pairs) { SameWindowLine(t, from, end, pairs); }
    WindowStartIs(t, from, pairs);
    ForwardBehind(t, end, pairs);
  }

  // --- Ordinary texts ------------------------------------------------------------------------

  /** Without CR and paragraph separator the window reads every line, whatever is inserted or deleted. */
  lemma OrdinaryReads(t: string, from: nat, end: nat, limit: nat, pairs: set<nat>)
    requires from <= end <= |t| && forall k | LineStart(t, from) <= k < PieceEnd(t, end) :: !IsOdd(t[k])
    ensures InsertReads(t, from, limit, pairs) && DeleteReads(t, from, end, pairs)
  {
    assert PieceEnd(t, from) <= PieceEnd(t, end) && LineStart(t, from) <= from;
  }

  // --- Witnesses -----------------------------------------------------------------------------

  /** Behind a paragraph separator the window measures an empty line: a full line more passes, whatever the budget. */
  lemma GuardOverlooksParagraph(limit: nat, pairs: set<nat>)
    requires limit > 0
    ensures
      var t, inserted := [PARAGRAPH_SEPARATOR], Filler(limit);
      && Renderable(t, limit) && InsertPasses(t, 1, inserted, limit, pairs)
      && !Renderable(t[..1] + inserted + t[1..], limit)
  {
    var t, inserted := [PARAGRAPH_SEPARATOR], Filler(limit);
    assert Opens(t, 1, pairs) && WindowStart(t, 1, pairs) == 1 && ForwardToLineEnd(t, 1, pairs) == 1;
    var u := t[..1] + inserted + t[1..];
    assert Clear(u, 0, |u|) && |u| == limit + 1;
  }

  /** CR and LF that came together are one delimiter; LF typed behind a CR, and LF CR, are two. */
  lemma PairsAreOneDelimiter()
    ensures Closes("a\r\nb", 1, {2}) && !Opens("a\r\nb", 2, {2}) && !Closes("a\r\nb", 2, {2}) && Opens("a\r\nb", 3, {2})
    ensures Closes("a\r\nb", 1, {}) && Opens("a\r\nb", 2, {}) && Closes("a\r\nb", 2, {}) && Opens("a\r\nb", 3, {})
    ensures forall pairs :: Opens("a\n\rb", 2, pairs) && Closes("a\n\rb", 2, pairs) && Opens("a\n\rb", 3, pairs)
  {
    assert "a\r\nb"[1] == '\r' && "a\r\nb"[2] == '\n' && "a\n\rb"[1] == '\n' && "a\n\rb"[2] == '\r';
  }

  /** At a line end the window measures the next line and refuses what would fit. */
  lemma GuardRefusesWhatFits()
    ensures Renderable("a\nbb", 3) && Renderable("a\nbb"[..1] + "c" + "a\nbb"[1..], 3)
    ensures !InsertPasses("a\nbb", 1, "c", 3, {})
  {
    var t, u := "a\nbb", "ac\nbb";
    assert t[..1] + "c" + t[1..] == u;
    FirstLineWidth(t, 1, 3);
    FirstLineWidth(u, 2, 3);
    assert t[2..] == "bb" && u[3..] == "bb";
    WholeLine("bb", 3);
    assert t[0] == 'a' && t[2] == 'b' && t[3] == 'b';
    assert NextClose(t, 2, {}) == 4 && WindowStart(t, 1, {}) == 0;
    assert Clear("c", 0, 1) && Width(1, 3, "c", 0, 1) == 5;
  }
}
