/** The planners of the text transformations, by line index, with a loop for every walk over the lines. */
module TextTransform {
  import opened Prelude
  import opened Renderability
  import opened Edits
  import opened EditHistory
  import opened Patches
  import opened EditPlans
  import opened Lines
  import opened LineMoves

  datatype TransformError =
    | BadStateId
    | OffsetBeyondText
    | TooManySpans(count: nat)
    | PayloadTooLarge(size: nat)
    | LineTooWide(offender: TooWide)

  function ValidateInputs(t: string, id: nat, view: ViewState): Option<TransformError> {
    if id == 0 then Some(BadStateId)
    else if view.insert > |t| || view.bound > |t| then Some(OffsetBeyondText)
    else None
  }

  /** The selection `lo..hi` with the caret at the end it had before. */
  function DirectedView(view: ViewState, lo: nat, hi: nat): ViewState {
    if view.insert > view.bound then ViewState(hi, lo) else ViewState(lo, hi)
  }

  /** Outcome of planning one patch: no plan when nothing changes, then the two limits, then the plan. */
  ghost predicate OnePatchSpec(t: string, id: nat, view: ViewState, p: Patch, target: ViewState, r: Result<EditPlan,
                               TransformError>)
    requires p.start <= p.end <= |t|
  {
    var size := p.end - p.start + |p.text|;
    if !Changes(t, p) then r == Ok(NoOp(id, t, view))
    else if size > MAX_PAYLOAD then r == Err(PayloadTooLarge(size))
    else
      var finalText := t[..p.start] + p.text + t[p.end..];
      if !Renderable(finalText, MAX_LINE_CHARS) then
        r.Err? && r.error.LineTooWide? && FirstOffender(finalText, MAX_LINE_CHARS, r.error.offender)
      else Ordered(t, [p], 0) && r == Ok(PlanFor(id, t, [p], view, target))
  }

  lemma OnePatchSpecIsGood(t: string, id: nat, view: ViewState, p: Patch, target: ViewState, plan: EditPlan)
    requires p.start <= p.end <= |t| && OnePatchSpec(t, id, view, p, target, Ok(plan))
    ensures GoodPlan(plan) && plan.finalText == t[..p.start] + p.text + t[p.end..] && OpsSize(plan.ops) <= MAX_PAYLOAD
  {
    OnePatchPlan(t, p);
    if Changes(t, p) {
      PlanForIsGood(id, t, [p], view, target);
      PatchSizeIsOpsSize(t, [p], 0);
    } else {
      NoOpIsGood(id, t, view);
      assert t == t[..p.start] + t[p.start..p.end] + t[p.end..];
    }
  }

  method PrevalidateFinal(finalText: string, ops: seq<Op>) returns (error: Option<TransformError>)
    ensures OpsSize(ops) > MAX_PAYLOAD ==> error == Some(PayloadTooLarge(OpsSize(ops)))
    ensures OpsSize(ops) <= MAX_PAYLOAD ==>
              if Renderable(finalText, MAX_LINE_CHARS) then error == None
              else
                && error.Some? && error.value.LineTooWide?
                && FirstOffender(finalText, MAX_LINE_CHARS, error.value.offender)
  {
    var payload := OpsSize(ops);
    if payload > MAX_PAYLOAD {
      return Some(PayloadTooLarge(payload));
    }
    var wide := EnsureTextRenderable(finalText, MAX_LINE_CHARS);
    error := if wide.Some? then Some(LineTooWide(wide.value)) else None;
  }

  method ReplaceOps(t: string, start: nat, end: nat, replacement: string) returns (ops: seq<Op>)
    requires start <= end <= |t|
    ensures ops == PatchOps(t, Patch(start, end, replacement))
  {
    ops := [];
    if t[start..end] != "" { ops := [Op(Delete, start, t[start..end])]; }
    if replacement != "" { ops := ops + [Op(Insert, start, replacement)]; }
  }

  method ReplacePlan(t: string, id: nat, view: ViewState, start: nat, end: nat, replacement: string, target: ViewState)
    returns (r: Result<EditPlan, TransformError>)
    requires start <= end <= |t|
    ensures OnePatchSpec(t, id, view, Patch(start, end, replacement), target, r)
  {
    ghost var p := Patch(start, end, replacement);
    var original := t[start..end];
    if original == replacement {
      return Ok(NoOp(id, t, view));
    }
    var ops := ReplaceOps(t, start, end, replacement);
    OnePatchPlan(t, p);
    PatchSizeIsOpsSize(t, [p], 0);
    var finalText := t[..start] + replacement + t[end..];
    var error := PrevalidateFinal(finalText, ops);
    if error.Some? {
      return Err(error.value);
    }
    r := Ok(EditPlan(id, t, finalText, ops, view, target, 1));
  }

  // --- Upper and lower case ------------------------------------------------------------------

  ghost predicate CaseSpec(convert: string -> string, t: string, id: nat, view: ViewState,
                           r: Result<EditPlan, TransformError>) {
    match ValidateInputs(t, id, view)
    case Some(e) => r == Err(e)
    case None =>
      var lo, hi := SelectionStart(view), SelectionEnd(view);
      if lo == hi then r == Ok(NoOp(id, t, view))
      else
        var converted := convert(t[lo..hi]);
        OnePatchSpec(t, id, view, Patch(lo, hi, converted), DirectedView(view, lo, lo + |converted|), r)
  }

  /** A case plan replays; it converts the selection and keeps it selected, from the same side. */
  lemma CasePlanIsGood(convert: string -> string, t: string, id: nat, view: ViewState, plan: EditPlan)
    requires CaseSpec(convert, t, id, view, Ok(plan))
    ensures GoodPlan(plan) && view.insert <= |t| && view.bound <= |t|
    ensures plan.targetView.insert <= |plan.finalText| && plan.targetView.bound <= |plan.finalText|
    ensures
      var lo, hi, u := SelectionStart(view), SelectionEnd(view), plan.finalText;
      var to := SelectionEnd(plan.targetView);
      if lo == hi then u == t && plan.targetView == view
      else
        && u == t[..lo] + convert(t[lo..hi]) + t[hi..]
        && (u != t ==> u[SelectionStart(plan.targetView)..to] == convert(t[lo..hi]))
  {
    var lo, hi := SelectionStart(view), SelectionEnd(view);
    if lo == hi {
      NoOpIsGood(id, t, view);
    } else {
      var converted := convert(t[lo..hi]);
      OnePatchSpecIsGood(t, id, view, Patch(lo, hi, converted), DirectedView(view, lo, lo + |converted|), plan);
    }
  }

  /** `convert` is the case mapping of the language, which may change the length. */
  method PlanCase(convert: string -> string, t: string, id: nat, view: ViewState)
    returns (r: Result<EditPlan, TransformError>)
    ensures CaseSpec(convert, t, id, view, r)
  {
    var invalid := ValidateInputs(t, id, view);
    if invalid.Some? {
      return Err(invalid.value);
    }
    var lo, hi := SelectionStart(view), SelectionEnd(view);
    if lo == hi {
      return Ok(NoOp(id, t, view));
    }
    var replacement := convert(t[lo..hi]);
    r := ReplacePlan(t, id, view, lo, hi, replacement, DirectedView(view, lo, lo + |replacement|));
  }

  // --- The selected lines --------------------------------------------------------------------

  method LineIndexForCaret(t: string, lines: seq<Line>, offset: nat) returns (index: Option<nat>)
    requires AreLines(t, lines) && offset <= |t|
    ensures index.Some? ==> index.value < |lines|
    ensures index.None? <==> EndsLine(t) && offset == |t|
    ensures index.Some? && t != "" ==> lines[index.value] == LineOf(t, if offset < |t| then offset else |t| - 1)
  {
    if EndsLine(t) && offset == |t| {
      return None;
    }
    if t == "" {
      return Some(0);
    }
    if offset == |t| {
      assert IsRealLine(t, lines[|lines| - 1]);
      LineAround(t, lines, |lines| - 1, |t| - 1);
      return Some(|lines| - 1);
    }
    var i := LineIndexForChar(t, lines, offset);
    index := Some(i);
  }

  /** Indices of the first and last line of the block. */
  method SelectedLineScope(t: string, lines: seq<Line>, view: ViewState) returns (scope: Option<(nat, nat)>)
    requires AreLines(t, lines) && view.insert <= |t| && view.bound <= |t|
    ensures scope.Some? ==> scope.value.0 < |lines| && scope.value.1 < |lines|
    ensures t == "" ==> scope == Some((0, 0))
    ensures t != "" ==>
              match BlockOf(t, view)
              case None => scope == None
              case Some((first, last)) => scope.Some? && lines[scope.value.0] == first && lines[scope.value.1] == last
  {
    hide IsRealLine, LineOf, Clear, IsLine;
    var lo, hi := SelectionStart(view), SelectionEnd(view);
    if lo == hi {
      var index := LineIndexForCaret(t, lines, view.insert);
      scope := if index.Some? then Some((index.value, index.value)) else None;
    } else {
      var first := LineIndexForChar(t, lines, lo);
      var last := LineIndexForChar(t, lines, hi - 1);
      scope := Some((first, last));
    }
  }

  // --- Moving lines --------------------------------------------------------------------------

  function Indices(first: nat, last: nat): (r: seq<nat>)
    requires first <= last + 1
    ensures |r| == last + 1 - first && forall k | 0 <= k < |r| :: r[k] == first + k
    decreases last + 1 - first
  {
    if first == last + 1 then [] else [first] + Indices(first + 1, last)
  }

  predicate AllBelow(order: seq<nat>, n: nat) {
    forall k | 0 <= k < |order| :: order[k] < n
  }

  function Content(t: string, lines: seq<Line>, i: nat): string
    requires AreLines(t, lines) && i < |lines|
  {
    assert t != "" ==> IsRealLine(t, lines[i]);
    t[lines[i].start..lines[i].contentEnd]
  }

  function Contents(t: string, lines: seq<Line>, order: seq<nat>): (r: seq<string>)
    requires AreLines(t, lines) && AllBelow(order, |lines|)
    ensures |r| == |order|
    decreases |order|
  {
    if order == [] then [] else [Content(t, lines, order[0])] + Contents(t, lines, order[1..])
  }

  /** The pieces with a line feed between any two. */
  function JoinLines(pieces: seq<string>): string {
    if pieces == [] then "" else if |pieces| == 1 then pieces[0] else pieces[0] + "\n" + JoinLines(pieces[1..])
  }

  lemma {:induction false} JoinSnoc(pieces: seq<string>, last: string)
    requires pieces != []
    ensures JoinLines(pieces + [last]) == JoinLines(pieces) + "\n" + last
    decreases |pieces|
  {
    assert (pieces + [last])[1..] == pieces[1..] + [last];
    if |pieces| == 1 {
    } else {
      JoinSnoc(pieces[1..], last);
    }
  }

  /** A line that another line follows ends in a line feed. */
  lemma NotLast(t: string, lines: seq<Line>, i: int)
    requires t != "" && AreLines(t, lines) && 0 <= i < |lines| - 1
    ensures lines[i].contentEnd < |t| && t[lines[i].contentEnd] == '\n'
              && lines[i].fullEnd == lines[i].contentEnd + 1 == lines[i + 1].start
  {
    assert Follows(lines, i) && IsRealLine(t, lines[i]) && IsRealLine(t, lines[i + 1]);
  }

  lemma ContentsCons(t: string, lines: seq<Line>, i: nat, rest: seq<nat>)
    requires AreLines(t, lines) && i < |lines| && AllBelow(rest, |lines|)
    ensures AllBelow([i] + rest, |lines|)
    ensures Contents(t, lines, [i] + rest) == [Content(t, lines, i)] + Contents(t, lines, rest)
  {
    assert ([i] + rest)[1..] == rest;
  }

  lemma {:induction false} ContentsSnoc(t: string, lines: seq<Line>, order: seq<nat>, i: nat)
    requires AreLines(t, lines) && i < |lines| && AllBelow(order, |lines|)
    ensures AllBelow(order + [i], |lines|)
              && Contents(t, lines, order + [i]) == Contents(t, lines, order) + [Content(t, lines, i)]
    decreases |order|
  {
    if order == [] {
      ContentsCons(t, lines, i, []);
      assert [] + [i] == [i] + [];
    } else {
      ContentsSnoc(t, lines, order[1..], i);
      assert order + [i] == [order[0]] + (order[1..] + [i]);
      ContentsCons(t, lines, order[0], order[1..] + [i]);
    }
  }

  lemma JoinCons(piece: string, pieces: seq<string>)
    ensures JoinLines([piece] + pieces) == if pieces == [] then piece else piece + "\n" + JoinLines(pieces)
  {
    assert ([piece] + pieces)[1..] == pieces;
  }

  lemma JoinStep(t: string, c: string, rest: seq<string>, i: nat, j: nat, k: nat)
    requires i <= j < k <= |t| && t[j] == '\n' && c == t[i..j] && rest != [] && JoinLines(rest) == t[j + 1..k]
    ensures JoinLines([c] + rest) == t[i..k]
  {
    JoinCons(c, rest);
  }

  /** Joined again, consecutive lines give the stretch they cover. */
  lemma {:induction false} JoinBlock(t: string, lines: seq<Line>, first: nat, last: nat)
    requires t != "" && AreLines(t, lines) && first <= last < |lines|
    ensures lines[first].start <= lines[last].contentEnd <= |t|
    ensures JoinLines(Contents(t, lines, Indices(first, last))) == t[lines[first].start..lines[last].contentEnd]
    decreases last - first
  {
    assert IsRealLine(t, lines[first]);
    ContentsCons(t, lines, first, Indices(first + 1, last));
    var c, rest := Content(t, lines, first), Contents(t, lines, Indices(first + 1, last));
    if first == last {
      JoinCons(c, []);
    } else {
      JoinBlock(t, lines, first + 1, last);
      NotLast(t, lines, first);
      JoinStep(t, c, rest, lines[first].start, lines[first].contentEnd, lines[last].contentEnd);
    }
  }

  /** How far behind the start of the region the line at position `p` of the order begins. */
  function SlotAt(lines: seq<Line>, order: seq<nat>, p: nat): int
    requires p <= |order| && AllBelow(order, |lines|)
  {
    if p == 0 then 0
    else SlotAt(lines, order, p - 1) + lines[order[p - 1]].contentEnd - lines[order[p - 1]].start + 1
  }

  predicate Distinct(order: seq<nat>) {
    forall p, q | 0 <= p < q < |order| :: order[p] != order[q]
  }

  predicate PlacedAt(lines: seq<Line>, order: seq<nat>, start: int, newStarts: map<nat, int>, p: nat)
    requires p < |order| && AllBelow(order, |lines|)
  {
    order[p] in newStarts && newStarts[order[p]] == start + SlotAt(lines, order, p)
  }

  /** The first `n` lines of the order have their new starts. */
  predicate Placed(lines: seq<Line>, order: seq<nat>, start: int, newStarts: map<nat, int>, n: nat)
    requires n <= |order| && AllBelow(order, |lines|)
  {
    forall p | 0 <= p < n :: PlacedAt(lines, order, start, newStarts, p)
  }

  lemma PlaceNext(lines: seq<Line>, order: seq<nat>, start: int, newStarts: map<nat, int>, n: nat)
    requires n < |order| && AllBelow(order, |lines|) && Distinct(order) && Placed(lines, order, start, newStarts, n)
    ensures Placed(lines, order, start, newStarts[order[n] := start + SlotAt(lines, order, n)], n + 1)
  {
    var after := newStarts[order[n] := start + SlotAt(lines, order, n)];
    forall p | 0 <= p < n + 1 ensures PlacedAt(lines, order, start, after, p) {
      assert p < n ==> order[p] != order[n] && PlacedAt(lines, order, start, newStarts, p);
    }
  }

  /** Gives every line of the order its new start; the last line gets no separator behind it. */
  method PlaceLines(lines: seq<Line>, order: seq<nat>, start: int) returns (newStarts: map<nat, int>, cursor: int)
    requires order != [] && AllBelow(order, |lines|) && Distinct(order)
    ensures Placed(lines, order, start, newStarts, |order|)
    ensures cursor == start + SlotAt(lines, order, |order|) - 1
  {
    newStarts, cursor := map[], start;
    for p := 0 to |order|
      invariant cursor == start + SlotAt(lines, order, p) - (if p == |order| then 1 else 0)
      invariant Placed(lines, order, start, newStarts, p)
    {
      PlaceNext(lines, order, start, newStarts, p);
      newStarts := newStarts[order[p] := cursor];
      cursor := cursor + lines[order[p]].contentEnd - lines[order[p]].start;
      if p < |order| - 1 {
        cursor := cursor + 1;
      }
    }
  }

  /** The line of the block an endpoint belongs to, and its column there. */
  method LineIdentityForEndpoint(t: string, lines: seq<Line>, first: nat, last: nat, x: nat)
    returns (r: Option<(nat, nat)>)
    requires t != "" && AreLines(t, lines) && first <= last < |lines|
    requires lines[first].start <= x <= lines[last].contentEnd
    ensures r.Some? && first <= r.value.0 <= last && lines[r.value.0].start + r.value.1 == x
  {
    for i := first to last + 1
      invariant i <= last ==> lines[i].start <= x
      invariant i == last + 1 ==> x > lines[last].contentEnd
    {
      if x == lines[i].start {
        return Some((i, 0));
      }
      if lines[i].start < x <= lines[i].contentEnd {
        return Some((i, x - lines[i].start));
      }
      if i < last { NotLast(t, lines, i); }
    }
    assert false;
    r := None;
  }

  /** The block by index: its lines, the neighbour it passes, and the order the lines end up in. */
  datatype Block = Block(first: nat, last: nat, neighbor: nat)

  predicate IsBlock(t: string, lines: seq<Line>, view: ViewState, up: bool, b: Block) {
    && t != "" && AreLines(t, lines) && view.insert <= |t| && view.bound <= |t|
    && b.first <= b.last < |lines| && b.neighbor < |lines|
    && BlockOf(t, view) == Some((lines[b.first], lines[b.last]))
    && (if up then b.neighbor + 1 == b.first else b.neighbor == b.last + 1)
  }

  function Order(b: Block, up: bool): (r: seq<nat>)
    requires b.first <= b.last
    ensures |r| == b.last - b.first + 2
  {
    if up then Indices(b.first, b.last) + [b.neighbor] else [b.neighbor] + Indices(b.first, b.last)
  }

  function SwapByIndex(lines: seq<Line>, b: Block, up: bool): Swap
    requires b.first <= b.last < |lines| && b.neighbor < |lines|
  {
    if up then
      Swap(lines[b.neighbor].start, lines[b.neighbor].contentEnd, lines[b.last].contentEnd, lines[b.last].fullEnd)
    else Swap(lines[b.first].start, lines[b.last].contentEnd, lines[b.neighbor].contentEnd, lines[b.neighbor].fullEnd)
  }

  lemma MoveUpByIndex(t: string, lines: seq<Line>, first: Line, last: Line, b: Block)
    requires t != "" && AreLines(t, lines) && b.first <= b.last < |lines| && b.neighbor + 1 == b.first
    requires first == lines[b.first] && last == lines[b.last] && first.start <= last.start && IsRealLine(t, first)
              && IsRealLine(t, last)
    ensures Above(t, first, last) == Some(SwapByIndex(lines, b, true))
  {
    NotLast(t, lines, b.neighbor);
    assert IsRealLine(t, lines[b.neighbor]);
    LineAround(t, lines, b.neighbor, first.start - 1);
    AboveIs(t, first, last, SwapByIndex(lines, b, true));
  }

  lemma MoveDownByIndex(t: string, lines: seq<Line>, first: Line, last: Line, b: Block)
    requires t != "" && AreLines(t, lines) && b.first <= b.last < |lines| && b.neighbor == b.last + 1 < |lines|
    requires first == lines[b.first] && last == lines[b.last] && first.start <= last.start && IsRealLine(t, first)
              && IsRealLine(t, last)
    ensures Below(t, first, last) == Some(SwapByIndex(lines, b, false))
  {
    NotLast(t, lines, b.last);
    assert IsRealLine(t, lines[b.neighbor]);
    LineAround(t, lines, b.neighbor, last.fullEnd);
    BelowIs(t, first, last, SwapByIndex(lines, b, false));
  }

  /** Indices and offsets describe the same move. */
  lemma MoveByIndex(t: string, lines: seq<Line>, view: ViewState, up: bool, b: Block)
    requires IsBlock(t, lines, view, up, b)
    ensures MoveOf(t, view, up) == Some(SwapByIndex(lines, b, up))
  {
    var first, last := lines[b.first], lines[b.last];
    MoveFromBlock(t, view, up, first, last);
    assert IsRealLine(t, first) && IsRealLine(t, last);
    LinesAscend(t, lines, b.first, b.last);
    if up { MoveUpByIndex(t, lines, first, last, b); } else { MoveDownByIndex(t, lines, first, last, b); }
  }

  lemma NoMoveByIndex(t: string, lines: seq<Line>, view: ViewState, up: bool, first: nat, last: nat)
    requires t != "" && AreLines(t, lines) && view.insert <= |t| && view.bound <= |t| && first < |lines|
    requires last < |lines|
    requires BlockOf(t, view) == Some((lines[first], lines[last]))
    ensures first <= last
    ensures (if up then first == 0 else last == |lines| - 1) ==> MoveOf(t, view, up) == None
  {
    hide Clear, Find, LineOf;
    MoveFromBlock(t, view, up, lines[first], lines[last]);
    assert IsRealLine(t, lines[first]) && IsRealLine(t, lines[last]);
    if last < first { LinesAscend(t, lines, last, first); }
  }

  lemma FinalBreak(t: string, s: Swap)
    requires Swappable(t, s)
    ensures t[s.second..s.end] == if t[s.end - 1] == '\n' then "\n" else ""
  {}

  lemma ContentsOfOrder(t: string, lines: seq<Line>, up: bool, b: Block)
    requires AreLines(t, lines) && b.first <= b.last < |lines| && b.neighbor < |lines|
    ensures AllBelow(Order(b, up), |lines|)
    ensures Contents(t, lines, Order(b, up))
         == if up then Contents(t, lines, Indices(b.first, b.last)) + [Content(t, lines, b.neighbor)]
            else [Content(t, lines, b.neighbor)] + Contents(t, lines, Indices(b.first, b.last))
  {
    if up { ContentsSnoc(t, lines, Indices(b.first, b.last), b.neighbor); }
    else { ContentsCons(t, lines, b.neighbor, Indices(b.first, b.last)); }
  }

  lemma JoinOfOrder(t: string, lines: seq<Line>, up: bool, b: Block)
    requires t != "" && AreLines(t, lines) && b.first <= b.last < |lines| && b.neighbor < |lines|
    ensures AllBelow(Order(b, up), |lines|) && lines[b.first].start <= lines[b.last].contentEnd <= |t|
    ensures
      var block, neighbor := t[lines[b.first].start..lines[b.last].contentEnd], Content(t, lines, b.neighbor);
      JoinLines(Contents(t, lines, Order(b, up))) == if up then block + "\n" + neighbor else neighbor + "\n" + block
  {
    JoinBlock(t, lines, b.first, b.last);
    var block, neighbor := Contents(t, lines, Indices(b.first, b.last)), Content(t, lines, b.neighbor);
    ContentsOfOrder(t, lines, up, b);
    if up { JoinSnoc(block, neighbor); } else { JoinCons(neighbor, block); }
  }

  /** The stretches that trade places begin and end where the block and its neighbour do. */
  lemma StretchesByIndex(t: string, lines: seq<Line>, up: bool, b: Block, s: Swap)
    requires t != "" && AreLines(t, lines) && b.first <= b.last < |lines| && b.neighbor < |lines|
    requires if up then b.neighbor + 1 == b.first else b.neighbor == b.last + 1
    requires s == SwapByIndex(lines, b, up)
    ensures if up then lines[b.neighbor] == Line(s.start, s.mid, s.mid + 1) && lines[b.first].start == s.mid + 1
              && lines[b.last].contentEnd == s.second
            else
              && lines[b.neighbor] == Line(s.mid + 1, s.second, s.end)
              && lines[b.first].start == s.start && lines[b.last].contentEnd == s.mid
  {
    NotLast(t, lines, if up then b.neighbor else b.last);
  }

  lemma ExchangeIs(t: string, s: Swap, x: string, y: string)
    requires Swappable(t, s) && x == t[s.start..s.mid] && y == t[s.mid + 1..s.second]
    ensures Exchanged(t, s) == (y + "\n" + x) + (if t[s.end - 1] == '\n' then "\n" else "")
  {
    FinalBreak(t, s);
  }

  /** Joining the contents in the new order is the exchange. */
  lemma JoinIsExchange(t: string, lines: seq<Line>, up: bool, b: Block, s: Swap)
    requires t != "" && AreLines(t, lines) && b.first <= b.last < |lines| && b.neighbor < |lines|
    requires if up then b.neighbor + 1 == b.first else b.neighbor == b.last + 1
    requires s == SwapByIndex(lines, b, up) && Swappable(t, s)
    ensures AllBelow(Order(b, up), |lines|)
    ensures JoinLines(Contents(t, lines, Order(b, up))) + (if t[s.end - 1] == '\n' then "\n" else "") == Exchanged(t, s)
  {
    JoinOfOrder(t, lines, up, b);
    StretchesByIndex(t, lines, up, b, s);
    ExchangeIs(t, s, t[s.start..s.mid], t[s.mid + 1..s.second]);
  }

  // Where the lines of the block begin afterwards.

  function Position(b: Block, up: bool, k: nat): nat
    requires b.first <= k <= b.last
  {
    if up then k - b.first else k - b.first + 1
  }

  lemma OrderIsPlaceable(lines: seq<Line>, b: Block, up: bool)
    requires b.first <= b.last < |lines| && b.neighbor < |lines|
              && (if up then b.neighbor + 1 == b.first else b.neighbor == b.last + 1)
    ensures AllBelow(Order(b, up), |lines|) && Distinct(Order(b, up))
    ensures forall k | b.first <= k <= b.last :: Order(b, up)[Position(b, up, k)] == k
    ensures Order(b, up)[if up then b.last - b.first + 1 else 0] == b.neighbor
  {}

  predicate RunAt(order: seq<nat>, at: nat, first: nat, k: nat) {
    at + k < |order| && order[at + k] == first + k
  }

  /** A run of consecutive lines keeps its spacing. */
  lemma {:induction false} SlotRun(t: string, lines: seq<Line>, order: seq<nat>, at: nat, first: nat, n: nat)
    requires t != "" && AreLines(t, lines) && AllBelow(order, |lines|) && at + n < |order| && first + n < |lines|
    requires forall k | 0 <= k <= n :: RunAt(order, at, first, k)
    ensures SlotAt(lines, order, at + n) == SlotAt(lines, order, at) + lines[first + n].start - lines[first].start
    decreases n
  {
    if n == 0 {
    } else {
      SlotRun(t, lines, order, at, first, n - 1);
      NotLast(t, lines, first + n - 1);
      assert RunAt(order, at, first, n - 1);
    }
  }

  lemma SlotOne(lines: seq<Line>, order: seq<nat>)
    requires order != [] && AllBelow(order, |lines|)
    ensures SlotAt(lines, order, 1) == lines[order[0]].contentEnd - lines[order[0]].start + 1
  {}

  /** The new start of each line of the block is the old one, shifted. */
  lemma SlotsShift(t: string, lines: seq<Line>, up: bool, b: Block, k: nat)
    requires t != "" && AreLines(t, lines) && b.first <= k <= b.last < |lines| && b.neighbor < |lines|
    requires if up then b.neighbor + 1 == b.first else b.neighbor == b.last + 1
    ensures AllBelow(Order(b, up), |lines|)
    ensures SwapByIndex(lines, b, up).start + SlotAt(lines, Order(b, up), Position(b, up, k))
         == lines[k].start + Shift(SwapByIndex(lines, b, up), up)
  {
    var order := Order(b, up);
    OrderIsPlaceable(lines, b, up);
    var at: nat := if up then 0 else 1;
    forall j | 0 <= j <= k - b.first ensures RunAt(order, at, b.first, j) {
      assert order[Position(b, up, b.first + j)] == b.first + j;
    }
    SlotRun(t, lines, order, at, b.first, k - b.first);
    NotLast(t, lines, if up then b.neighbor else b.last);
    if !up { SlotOne(lines, order); }
  }

  /** The whole order fills the region, its final line feed apart; the passed line follows the block. */
  lemma SlotsFill(t: string, lines: seq<Line>, up: bool, b: Block)
    requires t != "" && AreLines(t, lines) && b.first <= b.last < |lines| && b.neighbor < |lines|
    requires if up then b.neighbor + 1 == b.first else b.neighbor == b.last + 1
    ensures AllBelow(Order(b, up), |lines|)
    ensures var s, order := SwapByIndex(lines, b, up), Order(b, up);
            && s.start + SlotAt(lines, order, |order|) - 1 == s.second
            && (up ==> s.start + SlotAt(lines, order, |order| - 1) == s.start + s.second - s.mid)
  {
    var order := Order(b, up);
    OrderIsPlaceable(lines, b, up);
    SlotsShift(t, lines, up, b, b.last);
    NotLast(t, lines, if up then b.neighbor else b.last);
    assert order[Position(b, up, b.last)] == b.last;
  }

  /**
    The dictionary of new starts holds the shifted start of every line of the block, and where the passed
    line goes.
   */
  predicate StartsShifted(lines: seq<Line>, up: bool, b: Block, newStarts: map<nat, int>)
    requires b.first <= b.last < |lines| && b.neighbor < |lines|
  {
    && (forall k | b.first <= k <= b.last ::
          k in newStarts && newStarts[k] == lines[k].start + Shift(SwapByIndex(lines, b, up), up))
    && b.neighbor in newStarts
    && (up ==>
        newStarts[b.neighbor] == MovedOffset(SwapByIndex(lines, b, up), true, true, SwapByIndex(lines, b, up).end))
  }

  lemma BlockSlots(t: string, lines: seq<Line>, up: bool, b: Block, newStarts: map<nat, int>)
    requires t != "" && AreLines(t, lines) && b.first <= b.last < |lines| && b.neighbor < |lines|
    requires if up then b.neighbor + 1 == b.first else b.neighbor == b.last + 1
    requires AllBelow(Order(b, up), |lines|)
    requires Placed(lines, Order(b, up), SwapByIndex(lines, b, up).start, newStarts, |Order(b, up)|)
    ensures StartsShifted(lines, up, b, newStarts)
  {
    var order, start := Order(b, up), SwapByIndex(lines, b, up).start;
    OrderIsPlaceable(lines, b, up);
    forall k | b.first <= k <= b.last
      ensures k in newStarts && newStarts[k] == lines[k].start + Shift(SwapByIndex(lines, b, up), up)
    {
      assert PlacedAt(lines, order, start, newStarts, Position(b, up, k));
      SlotsShift(t, lines, up, b, k);
    }
    assert PlacedAt(lines, order, start, newStarts, if up then |order| - 1 else 0);
    SlotsFill(t, lines, up, b);
  }

  /** The assertion of `_moved_target_view`, that the lines in their new order fill the region exactly, holds. */
  method NewStarts(t: string, lines: seq<Line>, up: bool, b: Block) returns (newStarts: map<nat, int>)
    requires t != "" && AreLines(t, lines) && b.first <= b.last < |lines| && b.neighbor < |lines|
    requires (if up then b.neighbor + 1 == b.first else b.neighbor == b.last + 1)
    requires Swappable(t, SwapByIndex(lines, b, up))
    ensures StartsShifted(lines, up, b, newStarts)
  {
    OrderIsPlaceable(lines, b, up);
    SlotsFill(t, lines, up, b);
    var regionStart := if up then lines[b.neighbor].start else lines[b.first].start;
    var regionEnd := if up then lines[b.last].fullEnd else lines[b.neighbor].fullEnd;
    var cursor;
    newStarts, cursor := PlaceLines(lines, Order(b, up), regionStart);
    if t[regionEnd - 1] == '\n' {
      cursor := cursor + 1;
    }
    FinalBreak(t, SwapByIndex(lines, b, up));
    assert cursor == regionEnd;
    BlockSlots(t, lines, up, b, newStarts);
  }

  method MapEndpoint(t: string, lines: seq<Line>, up: bool, b: Block, newStarts: map<nat, int>, affinity: int,
                     selecting: bool, x: nat)
    returns (r: int)
    requires t != "" && AreLines(t, lines) && b.first <= b.last < |lines| && b.neighbor < |lines|
    requires if up then b.neighbor + 1 == b.first else b.neighbor == b.last + 1
    requires StartsShifted(lines, up, b, newStarts)
    requires affinity == if up then newStarts[b.neighbor] else lines[b.neighbor].fullEnd
    requires InBlock(SwapByIndex(lines, b, up), up, x) && (!selecting ==> x <= lines[b.last].contentEnd)
    ensures r == MovedOffset(SwapByIndex(lines, b, up), up, selecting, x)
  {
    NotLast(t, lines, if up then b.neighbor else b.last);
    assert IsRealLine(t, lines[b.last]);
    if selecting && x == lines[b.last].fullEnd {
      return affinity;
    }
    var identity := LineIdentityForEndpoint(t, lines, b.first, b.last, x);
    var (index, column) := identity.value;
    r := newStarts[index] + column;
  }

  method MapView(t: string, view: ViewState, lines: seq<Line>, up: bool, b: Block, newStarts: map<nat, int>,
                 regionEnd: int)
    returns (r: ViewState)
    requires IsBlock(t, lines, view, up, b) && MoveOf(t, view, up) == Some(SwapByIndex(lines, b, up))
    requires StartsShifted(lines, up, b, newStarts) && regionEnd == SwapByIndex(lines, b, up).end
    ensures r == MovedView(t, SwapByIndex(lines, b, up), up, view)
  {
    ViewInBlock(t, view, up);
    CaretOnLine(t, view, up);
    var selecting := view.insert != view.bound;
    var affinity := if up then newStarts[b.neighbor] else regionEnd;
    var insert := MapEndpoint(t, lines, up, b, newStarts, affinity, selecting, view.insert);
    var bound := MapEndpoint(t, lines, up, b, newStarts, affinity, selecting, view.bound);
    assert MovedView(t, SwapByIndex(lines, b, up), up, view) == ViewState(insert, bound);
    r := ViewState(insert, bound);
  }

  method MovedTargetView(t: string, view: ViewState, lines: seq<Line>, up: bool, b: Block) returns (r: ViewState)
    requires IsBlock(t, lines, view, up, b)
    ensures MoveOf(t, view, up) == Some(SwapByIndex(lines, b, up))
    ensures r == MovedView(t, SwapByIndex(lines, b, up), up, view)
  {
    MoveByIndex(t, lines, view, up, b);
    var regionEnd := if up then lines[b.last].fullEnd else lines[b.neighbor].fullEnd;
    var newStarts := NewStarts(t, lines, up, b);
    r := MapView(t, view, lines, up, b, newStarts, regionEnd);
  }

  /** The outcome of planning a move, in the order of the checks. */
  ghost predicate MoveSpec(t: string, id: nat, view: ViewState, up: bool, r: Result<EditPlan, TransformError>) {
    match ValidateInputs(t, id, view)
    case Some(e) => r == Err(e)
    case None =>
      match MoveOf(t, view, up)
      case None => r == Ok(NoOp(id, t, view))
      case Some(s) => OnePatchSpec(t, id, view, Patch(s.start, s.end, Exchanged(t, s)), MovedView(t, s, up, view), r)
  }

  method Rejoined(t: string, lines: seq<Line>, up: bool, b: Block) returns (replacement: string)
    requires t != "" && AreLines(t, lines) && b.first <= b.last < |lines| && b.neighbor < |lines|
    requires (if up then b.neighbor + 1 == b.first else b.neighbor == b.last + 1)
    requires Swappable(t, SwapByIndex(lines, b, up))
    ensures replacement == Exchanged(t, SwapByIndex(lines, b, up))
  {
    JoinIsExchange(t, lines, up, b, SwapByIndex(lines, b, up));
    var regionEnd := if up then lines[b.last].fullEnd else lines[b.neighbor].fullEnd;
    replacement := JoinLines(Contents(t, lines, Order(b, up)));
    if t[regionEnd - 1] == '\n' {
      replacement := replacement + "\n";
    } else {
      assert replacement + "" == replacement;
    }
  }

  method PlanBlockMove(t: string, id: nat, view: ViewState, up: bool, lines: seq<Line>, b: Block)
    returns (r: Result<EditPlan, TransformError>)
    requires ValidateInputs(t, id, view).None? && IsBlock(t, lines, view, up, b)
    ensures MoveSpec(t, id, view, up, r)
  {
    MoveByIndex(t, lines, view, up, b);
    var regionStart := if up then lines[b.neighbor].start else lines[b.first].start;
    var regionEnd := if up then lines[b.last].fullEnd else lines[b.neighbor].fullEnd;
    var replacement := Rejoined(t, lines, up, b);
    if t[regionStart..regionEnd] == replacement {
      return Ok(NoOp(id, t, view));
    }
    var target := MovedTargetView(t, view, lines, up, b);
    r := ReplacePlan(t, id, view, regionStart, regionEnd, replacement, target);
  }

  method PlanMove(t: string, id: nat, view: ViewState, up: bool) returns (r: Result<EditPlan, TransformError>)
    ensures MoveSpec(t, id, view, up, r)
  {
    var invalid := ValidateInputs(t, id, view);
    if invalid.Some? {
      return Err(invalid.value);
    }
    var lines := RealLines(t);
    var scope := SelectedLineScope(t, lines, view);
    if scope.None? {
      return Ok(NoOp(id, t, view));
    }
    var (first, last) := scope.value;
    if t != "" { NoMoveByIndex(t, lines, view, up, first, last); }
    if (up && first == 0) || (!up && last >= |lines| - 1) {
      return Ok(NoOp(id, t, view));
    }
    r := PlanBlockMove(t, id, view, up, lines, Block(first, last, if up then first - 1 else last + 1));
  }
}
