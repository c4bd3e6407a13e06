/**
  Moving the selected lines past the line above or below, by offsets: which two stretches trade places,
  what becomes of the text and of the selection, and when the opposite move takes it back.
 */
module LineMoves {
  import opened Prelude
  import opened Renderability
  import opened EditHistory
  import opened Lines

  function SelectionStart(view: ViewState): nat { Min(view.insert, view.bound) }

  function SelectionEnd(view: ViewState): nat { Max(view.insert, view.bound) }

  lemma LinesInOrder(t: string, x: nat, y: nat)
    requires x <= y < |t|
    ensures LineOf(t, x).start <= LineOf(t, y).start
  {
    var l := LineOf(t, y);
    assert l.start > 0 ==> t[l.start - 1] == '\n';
  }

  /**
    A character of the first and one of the last line the selection touches; the caret behind a final LF
    is on no real line.
   */
  function Anchors(t: string, view: ViewState): (r: Option<(nat, nat)>)
    requires t != "" && view.insert <= |t| && view.bound <= |t|
    ensures r.Some? ==> r.value.0 <= r.value.1 < |t|
  {
    var lo, hi := SelectionStart(view), SelectionEnd(view);
    if lo < hi then Some((lo, hi - 1))
    else if lo < |t| then Some((lo, lo))
    else if t[|t| - 1] == '\n' then None
    else Some((|t| - 1, |t| - 1))
  }

  function BlockOf(t: string, view: ViewState): (r: Option<(Line, Line)>)
    requires t != "" && view.insert <= |t| && view.bound <= |t|
    ensures r.Some? ==> IsRealLine(t, r.value.0) && IsRealLine(t, r.value.1) && r.value.0.start <= r.value.1.start
  {
    match Anchors(t, view)
    case None => None
    case Some((a, b)) =>
      LinesInOrder(t, a, b);
      Some((LineOf(t, a), LineOf(t, b)))
  }

  /** `t[start..mid]`, a line feed and `t[mid + 1..second]` trade places; `t[second..end]` is the final LF, if any. */
  datatype Swap = Swap(start: nat, mid: nat, second: nat, end: nat)

  predicate Swappable(t: string, s: Swap) {
    && s.start <= s.mid < s.mid + 1 <= s.second <= s.end <= |t|
    && (s.start == 0 || t[s.start - 1] == '\n') && t[s.mid] == '\n'
    && if s.end == s.second then s.end == |t| && t[|t| - 1] != '\n' else s.end == s.second + 1 && t[s.second] == '\n'
  }

  /** The line around a line feed ends there; only a text without final LF has a line without one. */
  lemma OneLineEnds(t: string, l: Line, x: nat)
    requires x < |t| && l == LineOf(t, x)
    ensures t[x] == '\n' ==> l.contentEnd == x
    ensures l.fullEnd == l.contentEnd ==> t[|t| - 1] != '\n'
  {}

  /** The block trades places with the line above it, if there is one. */
  function Above(t: string, first: Line, last: Line): (r: Option<Swap>)
    requires IsRealLine(t, first) && IsRealLine(t, last) && first.start <= last.start
    ensures r.Some? ==> Swappable(t, r.value)
  {
    if first.start == 0 then None
    else
      var line := LineOf(t, first.start - 1);
      OneLineEnds(t, line, first.start - 1);
      Some(Swap(line.start, first.start - 1, last.contentEnd, last.fullEnd))
  }

  /** The same with the line below it. */
  function Below(t: string, first: Line, last: Line): (r: Option<Swap>)
    requires IsRealLine(t, first) && IsRealLine(t, last) && first.start <= last.start
    ensures r.Some? ==> Swappable(t, r.value)
  {
    if last.fullEnd == |t| then None
    else
      var line := LineOf(t, last.fullEnd);
      OneLineEnds(t, LineOf(t, last.contentEnd), last.contentEnd);
      Some(Swap(first.start, last.contentEnd, line.contentEnd, line.fullEnd))
  }

  function MoveOf(t: string, view: ViewState, up: bool): (r: Option<Swap>)
    requires view.insert <= |t| && view.bound <= |t|
    ensures r.Some? ==> Swappable(t, r.value)
  {
    if t == "" then None
    else match BlockOf(t, view)
      case None => None
      case Some((first, last)) => if up then Above(t, first, last) else Below(t, first, last)
  }

  function Exchanged(t: string, s: Swap): string
    requires Swappable(t, s)
  {
    t[s.mid + 1..s.second] + "\n" + t[s.start..s.mid] + t[s.second..s.end]
  }

  function Swapped(t: string, s: Swap): string
    requires Swappable(t, s)
  {
    t[..s.start] + Exchanged(t, s) + t[s.end..]
  }

  /** The same two stretches, the other way round. */
  function Back(s: Swap): Swap
    requires s.start <= s.mid < s.second
  {
    s.(mid := s.start + s.second - s.mid - 1)
  }

  function Shift(s: Swap, up: bool): int {
    if up then -(s.mid + 1 - s.start) else s.second - s.mid
  }

  /** An endpoint moves with its line; a selection that ends behind the block ends behind it afterwards. */
  function MovedOffset(s: Swap, up: bool, selecting: bool, x: int): int {
    if up && selecting && x == s.end then s.start + s.second - s.mid
    else if !up && selecting && x == s.mid + 1 then s.end
    else x + Shift(s, up)
  }

  /** The endpoints the planner meets: from the start of the block to behind its last line. */
  predicate InBlock(s: Swap, up: bool, x: int) {
    if up then s.mid + 1 <= x <= s.end else s.start <= x <= s.mid + 1
  }

  lemma ViewInBlockUp(t: string, view: ViewState)
    requires view.insert <= |t| && view.bound <= |t| && MoveOf(t, view, true).Some?
    ensures var s := MoveOf(t, view, true).value; InBlock(s, true, view.insert) && InBlock(s, true, view.bound)
  {}

  lemma ViewInBlockDown(t: string, view: ViewState)
    requires view.insert <= |t| && view.bound <= |t| && MoveOf(t, view, false).Some?
    ensures var s := MoveOf(t, view, false).value; InBlock(s, false, view.insert) && InBlock(s, false, view.bound)
  {}

  lemma ViewInBlock(t: string, view: ViewState, up: bool)
    requires view.insert <= |t| && view.bound <= |t| && MoveOf(t, view, up).Some?
    ensures var s := MoveOf(t, view, up).value; InBlock(s, up, view.insert) && InBlock(s, up, view.bound)
  {
    hide MoveOf, InBlock;
    if up { ViewInBlockUp(t, view); } else { ViewInBlockDown(t, view); }
  }

  lemma MovedInText(t: string, s: Swap, up: bool, selecting: bool, x: int)
    requires Swappable(t, s) && InBlock(s, up, x) && (!selecting ==> if up then x <= s.second else x <= s.mid)
    ensures 0 <= MovedOffset(s, up, selecting, x) <= |t|
  {}

  lemma CaretOnLine(t: string, view: ViewState, up: bool)
    requires view.insert <= |t| && view.bound <= |t| && MoveOf(t, view, up).Some?
    ensures view.insert == view.bound ==>
              var s := MoveOf(t, view, up).value; if up then view.insert <= s.second else view.insert <= s.mid
  {}

  function MovedView(t: string, s: Swap, up: bool, view: ViewState): ViewState
    requires view.insert <= |t| && view.bound <= |t| && MoveOf(t, view, up) == Some(s)
  {
    var selecting := view.insert != view.bound;
    ViewInBlock(t, view, up);
    CaretOnLine(t, view, up);
    MovedInText(t, s, up, selecting, view.insert);
    MovedInText(t, s, up, selecting, view.bound);
    ViewState(MovedOffset(s, up, selecting, view.insert), MovedOffset(s, up, selecting, view.bound))
  }

  // --- The text ------------------------------------------------------------------------------

  predicate ShiftedBy(t: string, u: string, lo: int, hi: int, d: int)
    requires 0 <= lo <= hi <= |t| && 0 <= lo + d && hi + d <= |u|
  {
    forall i {:trigger t[i]} | lo <= i < hi :: u[i + d] == t[i]
  }

  /** `u` is `t` after the exchange: each stretch is shifted as a whole, the rest stays. */
  predicate Traded(t: string, u: string, s: Swap) {
    && Swappable(t, s) && |u| == |t| && u[s.start + s.second - s.mid - 1] == '\n'
    && ShiftedBy(t, u, 0, s.start, 0) && ShiftedBy(t, u, s.second, |t|, 0)
    && ShiftedBy(t, u, s.mid + 1, s.second, Shift(s, true)) && ShiftedBy(t, u, s.start, s.mid, Shift(s, false))
  }

  lemma OuterStays(t: string, s: Swap)
    requires Swappable(t, s)
    ensures |Swapped(t, s)| == |t| && ShiftedBy(t, Swapped(t, s), 0, s.start, 0)
    ensures ShiftedBy(t, Swapped(t, s), s.second, |t|, 0)
  {}

  lemma LowerGoesUp(t: string, s: Swap)
    requires Swappable(t, s)
    ensures |Swapped(t, s)| == |t| && Swapped(t, s)[s.start + s.second - s.mid - 1] == '\n'
    ensures ShiftedBy(t, Swapped(t, s), s.mid + 1, s.second, Shift(s, true))
  {}

  lemma UpperGoesDown(t: string, s: Swap)
    requires Swappable(t, s)
    ensures |Swapped(t, s)| == |t| && ShiftedBy(t, Swapped(t, s), s.start, s.mid, Shift(s, false))
  {}

  lemma SwappedIsTraded(t: string, s: Swap)
    requires Swappable(t, s)
    ensures Traded(t, Swapped(t, s), s) && |Exchanged(t, s)| == s.end - s.start
  {
    OuterStays(t, s);
    LowerGoesUp(t, s);
    UpperGoesDown(t, s);
  }

  /** What comes to stand last is a line of its own, even where nothing ends it. */
  predicate Restorable(t: string, s: Swap)
    requires Swappable(t, s)
  {
    s.end > s.second || (s.start < s.mid && t[s.mid - 1] != '\n')
  }

  lemma BackIsSwappable(t: string, u: string, s: Swap)
    requires Traded(t, u, s) && Restorable(t, s)
    ensures Swappable(u, Back(s)) && Back(Back(s)) == s
  {
    assert s.start > 0 ==> t[s.start - 1] == u[s.start - 1];
    assert s.end > s.second ==> t[s.second] == u[s.second];
    assert s.start < s.mid ==> t[s.mid - 1] == u[s.mid - 1 + Shift(s, false)];
  }

  /** Trading back gives the text back, whatever else is true of the two texts. */
  lemma TradedBack(t: string, u: string, v: string, s: Swap)
    requires Traded(t, u, s) && Traded(u, v, Back(s))
    ensures v == t
  {
    var b := Back(s);
    forall i | 0 <= i < |t| ensures v[i] == t[i] {
      if i < s.start { assert u[i] == t[i]; }
      else if i < s.mid { assert u[i + Shift(s, false)] == t[i]; assert Shift(b, true) == -Shift(s, false); }
      else if i == s.mid { assert b.start + b.second - b.mid - 1 == s.mid; }
      else if i < s.second { assert u[i + Shift(s, true)] == t[i]; assert Shift(b, false) == -Shift(s, true); }
      else { assert u[i] == t[i]; }
    }
  }

  lemma MiddleOf(t: string, s: Swap)
    requires Swappable(t, s)
    ensures |Swapped(t, s)| == |t| && Swapped(t, s)[s.start..s.end] == Exchanged(t, s)
  {
    SwappedIsTraded(t, s);
  }

  lemma SwapBack(t: string, s: Swap)
    requires Swappable(t, s) && Restorable(t, s)
    ensures Swappable(Swapped(t, s), Back(s)) && Swapped(Swapped(t, s), Back(s)) == t
    ensures Exchanged(Swapped(t, s), Back(s)) == t[s.start..s.end]
  {
    var u := Swapped(t, s);
    SwappedIsTraded(t, s);
    BackIsSwappable(t, u, s);
    SwappedIsTraded(u, Back(s));
    TradedBack(t, u, Swapped(u, Back(s)), s);
    MiddleOf(u, Back(s));
  }

  // --- Moving there and back -----------------------------------------------------------------

  /** A stretch that is shifted as a whole between line boundaries keeps its lines. */
  lemma ShiftedLine(t: string, u: string, lo: int, hi: int, d: int, start: int, end: int)
    requires 0 <= lo <= hi <= |t| && 0 <= lo + d && hi + d <= |u| && ShiftedBy(t, u, lo, hi, d)
    requires lo + d == 0 || u[lo + d - 1] == '\n'
    requires hi + d == |u| || u[hi + d] == '\n'
    requires IsLine(t, start, end) && lo <= start <= end <= hi
    ensures IsLine(u, start + d, end + d)
  {
    forall k | start + d <= k < end + d ensures u[k] != '\n' { assert t[k - d] != '\n'; }
    if lo < start { assert t[start - 1] == '\n'; }
    if end < hi { assert t[end] == '\n'; }
  }

  lemma MovedUpBlock(t: string, u: string, s: Swap, line: Line)
    requires Traded(t, u, s) && IsRealLine(t, line) && s.mid + 1 <= line.start && line.contentEnd <= s.second
    ensures IsLine(u, line.start + Shift(s, true), line.contentEnd + Shift(s, true))
  {
    assert s.start > 0 ==> t[s.start - 1] == u[s.start - 1];
    ShiftedLine(t, u, s.mid + 1, s.second, Shift(s, true), line.start, line.contentEnd);
  }

  lemma MovedDownBlock(t: string, u: string, s: Swap, line: Line)
    requires Traded(t, u, s) && IsRealLine(t, line) && s.start <= line.start && line.contentEnd <= s.mid
    ensures IsLine(u, line.start + Shift(s, false), line.contentEnd + Shift(s, false))
  {
    assert s.end > s.second ==> t[s.second] == u[s.second];
    ShiftedLine(t, u, s.start, s.mid, Shift(s, false), line.start, line.contentEnd);
  }

  lemma MovedUpLine(t: string, u: string, s: Swap, x: nat, y: int)
    requires Traded(t, u, s) && x < |t| && s.mid + 1 <= LineOf(t, x).start && LineOf(t, x).contentEnd <= s.second
    requires LineOf(t, x).start + Shift(s, true) <= y <= LineOf(t, x).contentEnd + Shift(s, true)
    ensures 0 <= y < |u| && LineOf(u, y).start == LineOf(t, x).start + Shift(s, true)
    ensures LineOf(u, y).contentEnd == LineOf(t, x).contentEnd + Shift(s, true)
  {
    var line := LineOf(t, x);
    MovedUpBlock(t, u, s, line);
    OneLine(u, y, line.start + Shift(s, true), line.contentEnd + Shift(s, true));
  }

  lemma MovedDownLine(t: string, u: string, s: Swap, x: nat, y: int)
    requires Traded(t, u, s) && x < |t| && s.start <= LineOf(t, x).start && LineOf(t, x).contentEnd <= s.mid
    requires LineOf(t, x).start + Shift(s, false) <= y <= LineOf(t, x).contentEnd + Shift(s, false) && y < |u|
    ensures 0 <= y && LineOf(u, y).start == LineOf(t, x).start + Shift(s, false)
    ensures LineOf(u, y).contentEnd == LineOf(t, x).contentEnd + Shift(s, false)
  {
    var line := LineOf(t, x);
    MovedDownBlock(t, u, s, line);
    OneLine(u, y, line.start + Shift(s, false), line.contentEnd + Shift(s, false));
  }

  lemma LineEndsInOrder(t: string, x: nat, y: nat)
    requires x <= y < |t|
    ensures LineOf(t, x).contentEnd <= LineOf(t, y).contentEnd
  {
    var l := LineOf(t, x);
    assert l.contentEnd < |t| ==> t[l.contentEnd] == '\n';
  }

  predicate OnLine(l: Line, d: int, y: int) {
    l.start + d <= y <= l.contentEnd + d
  }

  /**
    Moving the last but one line below a last line without LF, with only its line feed selected, loses the
    selection.
   */
  predicate Collapses(s: Swap, up: bool, lo: int) {
    !up && s.end == s.second && lo == s.mid
  }

  lemma MovedOrder(t: string, s: Swap, up: bool, lo: int, hi: int)
    requires Swappable(t, s) && InBlock(s, up, lo) && InBlock(s, up, hi) && lo < hi
    ensures MovedOffset(s, up, true, lo) <= MovedOffset(s, up, true, hi)
    ensures MovedOffset(s, up, true, lo) == MovedOffset(s, up, true, hi) <==> Collapses(s, up, lo)
  {}

  /** The selection keeps its direction and order. */
  lemma MovedSelection(t: string, s: Swap, up: bool, view: ViewState, v: ViewState)
    requires view.insert <= |t| && view.bound <= |t| && MoveOf(t, view, up) == Some(s) && v == MovedView(t, s, up, view)
    ensures
      var selecting := view.insert != view.bound;
      && v.insert <= |t| && v.bound <= |t|
      && (v.insert == v.bound <==> !selecting || Collapses(s, up, SelectionStart(view)))
      && SelectionStart(v) == MovedOffset(s, up, selecting, SelectionStart(view))
      && SelectionEnd(v) == MovedOffset(s, up, selecting, SelectionEnd(view))
  {
    ViewInBlock(t, view, up);
    CaretOnLine(t, view, up);
    var lo, hi := SelectionStart(view), SelectionEnd(view);
    if lo < hi { MovedOrder(t, s, up, lo, hi); }
  }

  lemma UpNeighbor(t: string, view: ViewState)
    requires view.insert <= |t| && view.bound <= |t| && MoveOf(t, view, true).Some?
    ensures var s := MoveOf(t, view, true).value; Clear(t, s.start, s.mid)
  {}

  /** The anchors of the moved selection are on the moved lines. */
  lemma AnchorsAfterUp(t: string, u: string, s: Swap, view: ViewState, v: ViewState)
    requires view.insert <= |t| && view.bound <= |t| && MoveOf(t, view, true) == Some(s) && |u| == |t|
    requires v == MovedView(t, s, true, view)
    ensures v.insert <= |u| && v.bound <= |u| && Anchors(u, v).Some?
    ensures OnLine(LineOf(t, Anchors(t, view).value.0), Shift(s, true), Anchors(u, v).value.0)
    ensures OnLine(LineOf(t, Anchors(t, view).value.1), Shift(s, true), Anchors(u, v).value.1)
  {
    hide Clear, IsLine, Find, LineStart, InBlock;
    MovedSelection(t, s, true, view, v);
    LineEndsInOrder(t, Anchors(t, view).value.0, Anchors(t, view).value.1);
  }

  /** After a move up the selection covers the block in its new place. */
  lemma BlockAfterUp(t: string, u: string, s: Swap, view: ViewState, v: ViewState) returns (first: Line, last: Line)
    requires view.insert <= |t| && view.bound <= |t| && MoveOf(t, view, true) == Some(s) && Traded(t, u, s)
    requires v == MovedView(t, s, true, view)
    ensures v.insert <= |u| && v.bound <= |u| && u != "" && BlockOf(u, v) == Some((first, last))
    ensures IsRealLine(u, first) && IsRealLine(u, last) && first.start <= last.start
    ensures first.start == s.start && last.contentEnd == Back(s).mid
  {
    var (a, b) := Anchors(t, view).value;
    AnchorsAfterUp(t, u, s, view, v);
    var (a', b') := Anchors(u, v).value;
    LineEndsInOrder(t, a, b);
    LinesInOrder(t, a, b);
    MovedUpLine(t, u, s, a, a');
    MovedUpLine(t, u, s, b, b');
    first, last := LineOf(u, a'), LineOf(u, b');
    LinesInOrder(u, a', b');
  }

  lemma MoveFromBlock(t: string, view: ViewState, up: bool, first: Line, last: Line)
    requires t != "" && view.insert <= |t| && view.bound <= |t| && BlockOf(t, view) == Some((first, last))
    ensures MoveOf(t, view, up) == if up then Above(t, first, last) else Below(t, first, last)
  {}

  lemma BelowIs(t: string, first: Line, last: Line, s: Swap)
    requires IsRealLine(t, first) && IsRealLine(t, last) && first.start <= last.start
    requires first.start == s.start && last.contentEnd == s.mid && s.mid + 1 < |t|
    requires LineOf(t, s.mid + 1).contentEnd == s.second && LineOf(t, s.mid + 1).fullEnd == s.end
    ensures Below(t, first, last) == Some(s)
  {}

  /** After a move up the line it passed is the one below the block. */
  lemma NeighborBelow(t: string, u: string, s: Swap)
    requires Traded(t, u, s) && Restorable(t, s) && Clear(t, s.start, s.mid)
    ensures Back(s).mid + 1 < |u| && LineOf(u, Back(s).mid + 1).contentEnd == s.second
              && LineOf(u, Back(s).mid + 1).fullEnd == s.end
  {
    var m := Back(s).mid;
    assert s.end > s.second ==> t[s.second] == u[s.second];
    forall k | m + 1 <= k < s.second ensures u[k] != '\n' { assert t[k - Shift(s, false)] != '\n'; }
    OneLine(u, m + 1, m + 1, s.second);
  }

  lemma UpThenDown(t: string, u: string, s: Swap, view: ViewState, v: ViewState)
    requires view.insert <= |t| && view.bound <= |t| && MoveOf(t, view, true) == Some(s) && Traded(t, u, s)
    requires Restorable(t, s)
    requires v == MovedView(t, s, true, view)
    ensures v.insert <= |u| && v.bound <= |u| && MoveOf(u, v, false) == Some(Back(s))
  {
    hide Above, Below, BlockOf, IsLine, Clear, LineStart, Find, MovedOffset, ShiftedBy;
    var first, last := BlockAfterUp(t, u, s, view, v);
    UpNeighbor(t, view);
    NeighborBelow(t, u, s);
    MoveFromBlock(u, v, false, first, last);
    BelowIs(u, first, last, Back(s));
  }

  lemma UpThenDownOffset(t: string, s: Swap, selecting: bool, x: int)
    requires Swappable(t, s) && InBlock(s, true, x) && (selecting || x <= s.second)
    ensures MovedOffset(Back(s), false, selecting, MovedOffset(s, true, selecting, x)) == x
  {}

  lemma UpThenDownView(t: string, u: string, s: Swap, view: ViewState, v: ViewState)
    requires view.insert <= |t| && view.bound <= |t| && MoveOf(t, view, true) == Some(s) && |u| == |t|
    requires v == MovedView(t, s, true, view) && v.insert <= |u| && v.bound <= |u|
    requires MoveOf(u, v, false) == Some(Back(s))
    ensures MovedView(u, Back(s), false, v) == view
  {
    ViewInBlock(t, view, true);
    CaretOnLine(t, view, true);
    UpThenDownOffset(t, s, view.insert != view.bound, view.insert);
    UpThenDownOffset(t, s, view.insert != view.bound, view.bound);
  }

  // The same for a move down.

  lemma LastLineHolds(t: string, view: ViewState, s: Swap)
    requires view.insert <= |t| && view.bound <= |t| && MoveOf(t, view, false) == Some(s) && Restorable(t, s)
    ensures LineOf(t, Anchors(t, view).value.1).contentEnd == s.mid
    ensures s.end == s.second ==> LineOf(t, Anchors(t, view).value.1).start < s.mid
  {}

  lemma AnchorsAfterDown(t: string, u: string, s: Swap, view: ViewState, v: ViewState)
    requires view.insert <= |t| && view.bound <= |t| && MoveOf(t, view, false) == Some(s) && Restorable(t, s)
    requires |u| == |t| && (s.end == s.second ==> u[|u| - 1] != '\n') && v == MovedView(t, s, false, view)
    ensures v.insert <= |u| && v.bound <= |u| && Anchors(u, v).Some?
    ensures OnLine(LineOf(t, Anchors(t, view).value.0), Shift(s, false), Anchors(u, v).value.0)
    ensures OnLine(LineOf(t, Anchors(t, view).value.1), Shift(s, false), Anchors(u, v).value.1)
  {
    hide Clear, IsLine, Find, LineStart, InBlock;
    MovedSelection(t, s, false, view, v);
    var (a, b) := Anchors(t, view).value;
    LineEndsInOrder(t, a, b);
    LastLineHolds(t, view, s);
  }

  lemma LastOfTraded(t: string, u: string, s: Swap)
    requires Traded(t, u, s) && Restorable(t, s) && s.end == s.second
    ensures u[|u| - 1] != '\n'
  {
    assert u[s.mid - 1 + Shift(s, false)] == t[s.mid - 1];
  }

  lemma BlockAfterDown(t: string, u: string, s: Swap, view: ViewState, v: ViewState) returns (first: Line, last: Line)
    requires view.insert <= |t| && view.bound <= |t| && MoveOf(t, view, false) == Some(s) && Traded(t, u, s)
    requires Restorable(t, s)
    requires v == MovedView(t, s, false, view)
    ensures v.insert <= |u| && v.bound <= |u| && u != "" && BlockOf(u, v) == Some((first, last))
    ensures IsRealLine(u, first) && IsRealLine(u, last) && first.start <= last.start
    ensures first.start == Back(s).mid + 1 && last.contentEnd == s.second && last.fullEnd == s.end
  {
    var (a, b) := Anchors(t, view).value;
    if s.end == s.second { LastOfTraded(t, u, s); }
    AnchorsAfterDown(t, u, s, view, v);
    var (a', b') := Anchors(u, v).value;
    LineEndsInOrder(t, a, b);
    LinesInOrder(t, a, b);
    MovedDownLine(t, u, s, a, a');
    MovedDownLine(t, u, s, b, b');
    first, last := LineOf(u, a'), LineOf(u, b');
    LinesInOrder(u, a', b');
  }

  lemma NeighborAbove(t: string, u: string, s: Swap)
    requires Traded(t, u, s) && Clear(t, s.mid + 1, s.second)
    ensures LineOf(u, Back(s).mid).start == s.start
  {
    var m := Back(s).mid;
    assert s.start > 0 ==> t[s.start - 1] == u[s.start - 1];
    forall k | s.start <= k < m ensures u[k] != '\n' { assert t[k - Shift(s, true)] != '\n'; }
    OneLine(u, m, s.start, m);
  }

  lemma DownNeighbor(t: string, view: ViewState)
    requires view.insert <= |t| && view.bound <= |t| && MoveOf(t, view, false).Some?
    ensures var s := MoveOf(t, view, false).value; Clear(t, s.mid + 1, s.second)
  {}

  lemma AboveIs(t: string, first: Line, last: Line, s: Swap)
    requires IsRealLine(t, first) && IsRealLine(t, last) && first.start <= last.start
    requires first.start == s.mid + 1 && last.contentEnd == s.second && last.fullEnd == s.end
    requires LineOf(t, s.mid).start == s.start
    ensures Above(t, first, last) == Some(s)
  {}

  lemma DownThenUp(t: string, u: string, s: Swap, view: ViewState, v: ViewState)
    requires view.insert <= |t| && view.bound <= |t| && MoveOf(t, view, false) == Some(s) && Traded(t, u, s)
    requires Restorable(t, s)
    requires v == MovedView(t, s, false, view)
    ensures v.insert <= |u| && v.bound <= |u| && MoveOf(u, v, true) == Some(Back(s))
  {
    var first, last := BlockAfterDown(t, u, s, view, v);
    DownNeighbor(t, view);
    NeighborAbove(t, u, s);
    MoveFromBlock(u, v, true, first, last);
    AboveIs(u, first, last, Back(s));
  }

  /**
    An endpoint at the end of the block's text, of a selection moved down to a last line without LF, comes
    back off by one.
   */
  predicate OffByOne(s: Swap, up: bool, view: ViewState) {
    !up && s.end == s.second && view.insert != view.bound && (view.insert == s.mid || view.bound == s.mid)
  }

  lemma DownThenUpOffset(t: string, s: Swap, selecting: bool, again: bool, x: int)
    requires Swappable(t, s) && InBlock(s, false, x) && (selecting || x <= s.mid) && (again ==> selecting)
    requires selecting && !again ==> s.end == s.second
    ensures
      var back := MovedOffset(Back(s), true, again, MovedOffset(s, false, selecting, x));
      if s.end == s.second && selecting && again && x == s.mid then back == s.mid + 1
      else if s.end == s.second && selecting && !again && x == s.mid + 1 then back == s.mid
      else back == x
  {}

  lemma DownThenUpView(t: string, u: string, s: Swap, view: ViewState, v: ViewState)
    requires view.insert <= |t| && view.bound <= |t| && MoveOf(t, view, false) == Some(s) && |u| == |t|
    requires v == MovedView(t, s, false, view) && v.insert <= |u| && v.bound <= |u|
    requires MoveOf(u, v, true) == Some(Back(s))
    ensures MovedView(u, Back(s), true, v) == view <==> !OffByOne(s, false, view)
  {
    ViewInBlock(t, view, false);
    CaretOnLine(t, view, false);
    MovedSelection(t, s, false, view, v);
    DownThenUpOffset(t, s, view.insert != view.bound, v.insert != v.bound, view.insert);
    DownThenUpOffset(t, s, view.insert != view.bound, v.insert != v.bound, view.bound);
  }

  // --- The theorem ---------------------------------------------------------------------------

  /** The outcome of a move, limits aside: the new text and the new selection; nothing when nothing would change. */
  function Moved(t: string, view: ViewState, up: bool): (r: (string, ViewState))
    requires view.insert <= |t| && view.bound <= |t|
  {
    match MoveOf(t, view, up)
    case None => (t, view)
    case Some(s) =>
      if Exchanged(t, s) == t[s.start..s.end] then (t, view) else (Swapped(t, s), MovedView(t, s, up, view))
  }

  predicate EndsLine(t: string) {
    t != "" && t[|t| - 1] == '\n'
  }

  /** Once the text ends in LF, no move takes that LF away. */
  lemma MovesKeepFinalBreak(t: string, s: Swap)
    requires Swappable(t, s) && EndsLine(t)
    ensures EndsLine(Swapped(t, s))
  {
    SwappedIsTraded(t, s);
    assert ShiftedBy(t, Swapped(t, s), s.second, |t|, 0);
    assert Swapped(t, s)[|t| - 1] == t[|t| - 1];
  }

  lemma NotRestorableEndsLine(t: string, s: Swap)
    requires Swappable(t, s) && !Restorable(t, s)
    ensures EndsLine(Swapped(t, s)) && !EndsLine(t)
  {
    var u := Swapped(t, s);
    SwappedIsTraded(t, s);
    if s.start < s.mid { assert u[s.mid - 1 + Shift(s, false)] == t[s.mid - 1]; }
  }

  lemma ChangedText(t: string, s: Swap)
    requires Swappable(t, s)
    ensures Swapped(t, s) == t <==> Exchanged(t, s) == t[s.start..s.end]
  {
    MiddleOf(t, s);
    assert t == t[..s.start] + t[s.start..s.end] + t[s.end..];
  }

  lemma OppositeChanges(t: string, s: Swap)
    requires Swappable(t, s) && Restorable(t, s) && Exchanged(t, s) != t[s.start..s.end]
    ensures var u := Swapped(t, s); Swappable(u, Back(s)) && Exchanged(u, Back(s)) != u[s.start..s.end]
  {
    SwapBack(t, s);
    MiddleOf(t, s);
  }

  lemma OppositeMoveOf(t: string, view: ViewState, up: bool, s: Swap, u: string, v: ViewState)
    requires view.insert <= |t| && view.bound <= |t| && MoveOf(t, view, up) == Some(s) && Restorable(t, s)
    requires u == Swapped(t, s) && v == MovedView(t, s, up, view)
    ensures v.insert <= |u| && v.bound <= |u| && MoveOf(u, v, !up) == Some(Back(s))
    ensures MovedView(u, Back(s), !up, v) == view <==> !OffByOne(s, up, view)
  {
    SwappedIsTraded(t, s);
    if up { UpThenDown(t, u, s, view, v); UpThenDownView(t, u, s, view, v); }
    else { DownThenUp(t, u, s, view, v); DownThenUpView(t, u, s, view, v); }
  }

  lemma OppositeOutcome(t: string, u: string, v: ViewState, up: bool, b: Swap)
    requires v.insert <= |u| && v.bound <= |u| && MoveOf(u, v, up) == Some(b)
    requires Swapped(u, b) == t && Exchanged(u, b) != u[b.start..b.end]
    ensures Moved(u, v, up) == (t, MovedView(u, b, up, v))
  {}

  lemma RestoredMove(t: string, view: ViewState, up: bool, s: Swap, u: string, v: ViewState)
    requires view.insert <= |t| && view.bound <= |t| && MoveOf(t, view, up) == Some(s)
    requires Exchanged(t, s) != t[s.start..s.end]
    requires Restorable(t, s) && u == Swapped(t, s) && v == MovedView(t, s, up, view)
    ensures v.insert <= |u| && v.bound <= |u| && Moved(u, v, !up).0 == t
    ensures Moved(u, v, !up).1 == view <==> !OffByOne(s, up, view)
  {
    OppositeMoveOf(t, view, up, s, u, v);
    SwapBack(t, s);
    OppositeChanges(t, s);
    OppositeOutcome(t, u, v, !up, Back(s));
  }

  lemma MovedKeepsFinalBreak(t: string, view: ViewState, up: bool)
    requires view.insert <= |t| && view.bound <= |t| && EndsLine(t)
    ensures EndsLine(Moved(t, view, up).0)
  {
    if MoveOf(t, view, up).Some? { MovesKeepFinalBreak(t, MoveOf(t, view, up).value); }
  }

  lemma LostMove(t: string, view: ViewState, up: bool, s: Swap)
    requires view.insert <= |t| && view.bound <= |t| && MoveOf(t, view, up) == Some(s)
    requires Exchanged(t, s) != t[s.start..s.end]
    requires !Restorable(t, s)
    ensures var (u, v) := Moved(t, view, up); v.insert <= |u| && v.bound <= |u| && Moved(u, v, !up).0 != t
  {
    var u, v := Swapped(t, s), MovedView(t, s, up, view);
    SwappedIsTraded(t, s);
    MovedSelection(t, s, up, view, v);
    NotRestorableEndsLine(t, s);
    MovedKeepsFinalBreak(u, v, !up);
  }

  /**
    A move that changed the text is undone by the opposite move exactly when the line it left last is a
    line of its own; and then the selection comes back too, exactly unless an endpoint was off by one.
   */
  lemma OppositeMove(t: string, view: ViewState, up: bool, s: Swap)
    requires view.insert <= |t| && view.bound <= |t| && MoveOf(t, view, up) == Some(s) && Swapped(t, s) != t
    ensures
      var (u, v) := Moved(t, view, up);
      && v.insert <= |u| && v.bound <= |u|
      && (Moved(u, v, !up).0 == t <==> Restorable(t, s))
      && (Restorable(t, s) ==> (Moved(u, v, !up).1 == view <==> !OffByOne(s, up, view)))
  {
    ChangedText(t, s);
    if Restorable(t, s) {
      RestoredMove(t, view, up, s, Swapped(t, s), MovedView(t, s, up, view));
    } else {
      LostMove(t, view, up, s);
    }
  }

  // --- The lines -----------------------------------------------------------------------------

  function After(t: string, s: Swap): seq<string>
    requires Swappable(t, s)
  {
    if s.end == s.second then [] else Pieces(t[s.end..])
  }

  lemma PiecesAfter(t: string, s: Swap, region: string)
    requires Swappable(t, s)
    ensures Pieces(region + t[s.second..]) == Pieces(region) + After(t, s)
  {
    if s.end > s.second {
      assert t[s.second..] == "\n" + t[s.end..];
      assert region + t[s.second..] == region + "\n" + t[s.end..];
      PiecesJoin(region, t[s.end..]);
    } else {
      assert region + t[s.second..] == region;
    }
  }

  lemma Assoc(a: seq<string>, b: seq<string>, c: seq<string>)
    ensures a + (b + c) == a + b + c
  {}

  /** The pieces of a text that holds `x` and `y`, LF-separated, between `t[..s.start]` and `t[s.second..]`. */
  lemma PiecesAround(t: string, s: Swap, x: string, y: string)
    requires Swappable(t, s)
    ensures Pieces(t[..s.start] + (x + "\n" + y + t[s.second..]))
         == PiecesBefore(t, s.start) + (Pieces(x) + Pieces(y)) + After(t, s)
  {
    var region := x + "\n" + y;
    PiecesJoin(x, y);
    PiecesAfter(t, s, region);
    HeadPieces(t, s.start, region + t[s.second..]);
    Assoc(PiecesBefore(t, s.start), Pieces(x) + Pieces(y), After(t, s));
  }

  lemma TailOf(t: string, s: Swap)
    requires Swappable(t, s)
    ensures Exchanged(t, s) + t[s.end..] == t[s.mid + 1..s.second] + "\n" + t[s.start..s.mid] + t[s.second..]
  {
    assert t[s.second..] == t[s.second..s.end] + t[s.end..];
  }

  lemma AsStretches(t: string, s: Swap)
    requires Swappable(t, s)
    ensures
      var x, y, tail := t[s.start..s.mid], t[s.mid + 1..s.second], t[s.second..];
      && t == t[..s.start] + (x + "\n" + y + tail)
      && Swapped(t, s) == t[..s.start] + (y + "\n" + x + tail)
  {
    var x, y, tail := t[s.start..s.mid], t[s.mid + 1..s.second], t[s.second..];
    TailOf(t, s);
    assert t[s.start..] == x + "\n" + y + tail;
    assert t == t[..s.start] + t[s.start..];
  }

  lemma SameMembers(a: seq<string>, x: seq<string>, y: seq<string>, b: seq<string>)
    ensures multiset(a + (y + x) + b) == multiset(a + (x + y) + b)
  {}

  /** A move takes the pieces of one stretch past those of the other: the lines are permuted, the length is kept. */
  lemma MovePermutesLines(t: string, s: Swap)
    requires Swappable(t, s)
    ensures
      var x, y := Pieces(t[s.start..s.mid]), Pieces(t[s.mid + 1..s.second]);
      && |Swapped(t, s)| == |t|
      && Pieces(t) == PiecesBefore(t, s.start) + (x + y) + After(t, s)
      && Pieces(Swapped(t, s)) == PiecesBefore(t, s.start) + (y + x) + After(t, s)
      && multiset(Pieces(Swapped(t, s))) == multiset(Pieces(t))
  {
    var x, y := t[s.start..s.mid], t[s.mid + 1..s.second];
    AsStretches(t, s);
    OuterStays(t, s);
    PiecesAround(t, s, x, y);
    PiecesAround(t, s, y, x);
    SameMembers(PiecesBefore(t, s.start), Pieces(x), Pieces(y), After(t, s));
  }

  /** So a move never makes a line too wide. */
  lemma MoveKeepsWidth(t: string, s: Swap, limit: nat)
    requires Swappable(t, s)
    ensures Renderable(Swapped(t, s), limit) <==> Renderable(t, limit)
  {
    MovePermutesLines(t, s);
    PiecesDecideWidth(t, limit);
    PiecesDecideWidth(Swapped(t, s), limit);
    var ps, qs := Pieces(t), Pieces(Swapped(t, s));
    assert forall p :: p in ps <==> p in multiset(ps);
    assert forall p :: p in qs <==> p in multiset(qs);
  }

  /** A move passes one line: the stretch beside the block is a single piece. */
  lemma MovePassesOneLine(t: string, view: ViewState, up: bool)
    requires view.insert <= |t| && view.bound <= |t| && MoveOf(t, view, up).Some?
    ensures
      var s := MoveOf(t, view, up).value;
      var neighbor := if up then t[s.start..s.mid] else t[s.mid + 1..s.second];
      Pieces(neighbor) == [neighbor]
  {
    var s := MoveOf(t, view, up).value;
    if up {
      UpNeighbor(t, view);
      ClearSlice(t, s.start, s.mid);
    } else {
      DownNeighbor(t, view);
      ClearSlice(t, s.mid + 1, s.second);
    }
  }
}
