/** Duplicating the selection, or the line of the caret with its special cases at the end of the text. */
module DuplicateLines {
  import opened Prelude
  import opened Renderability
  import opened Edits
  import opened EditHistory
  import opened Patches
  import opened EditPlans
  import opened Lines
  import opened LineMoves
  import opened TextTransform

  /** The text with the piece around the caret repeated behind it. */
  function Repeated(t: string, caret: nat): string
    requires caret <= |t|
  {
    t[..PieceEnd(t, caret)] + "\n" + t[LineStart(t, caret)..]
  }

  /** The insertion as the editor makes it, case by case. */
  function DuplicatePatch(t: string, view: ViewState): (p: Patch)
    requires view.insert <= |t| && view.bound <= |t|
    ensures p.start == p.end <= |t| && p.text != ""
  {
    var lo, hi := SelectionStart(view), SelectionEnd(view);
    if lo < hi then Patch(hi, hi, t[lo..hi])
    else if t == "" then Patch(0, 0, "\n")
    else if EndsLine(t) && lo == |t| then Patch(|t|, |t|, "\n")
    else
      var line := LineOf(t, if lo < |t| then lo else |t| - 1);
      if line.fullEnd > line.contentEnd then Patch(line.fullEnd, line.fullEnd, t[line.start..line.fullEnd])
      else Patch(line.fullEnd, line.fullEnd, "\n" + t[line.start..line.contentEnd])
  }

  function DuplicateTarget(t: string, view: ViewState): ViewState
    requires view.insert <= |t| && view.bound <= |t|
  {
    var lo, hi := SelectionStart(view), SelectionEnd(view);
    if lo < hi then DirectedView(view, hi, hi + (hi - lo))
    else
      var caret := lo + PieceEnd(t, lo) - LineStart(t, lo) + 1;
      ViewState(caret, caret)
  }

  function WithPatch(t: string, p: Patch): string
    requires p.start <= p.end <= |t|
  {
    t[..p.start] + p.text + t[p.end..]
  }

  lemma LineOfCaret(t: string, caret: nat)
    requires caret <= |t| && t != "" && !(EndsLine(t) && caret == |t|)
    ensures var line := LineOf(t, if caret < |t| then caret else |t| - 1);
            line.start == LineStart(t, caret) && line.contentEnd == PieceEnd(t, caret)
  {
    var x := if caret < |t| then caret else |t| - 1;
    assert caret == |t| ==> LineStart(t, |t|) == LineStart(t, |t| - 1);
    assert IsLine(t, LineStart(t, caret), PieceEnd(t, caret));
    OneLine(t, x, LineStart(t, caret), PieceEnd(t, caret));
  }

  lemma RepeatsEndedLine(t: string, start: nat, end: nat)
    requires start <= end < |t| && t[end] == '\n'
    ensures t[..end + 1] + t[start..end + 1] + t[end + 1..] == t[..end] + "\n" + t[start..]
  {
    assert t[..end + 1] == t[..end] + "\n";
    assert t[start..end + 1] + t[end + 1..] == t[start..];
  }

  lemma RepeatsLastLine(t: string, start: nat)
    requires start <= |t|
    ensures t[..|t|] + ("\n" + t[start..|t|]) + t[|t|..] == t[..|t|] + "\n" + t[start..]
  {}

  /** All four cases insert the same thing: a line feed and the piece once more. */
  lemma CaretDuplicatesPiece(t: string, view: ViewState)
    requires view.insert == view.bound <= |t|
    ensures WithPatch(t, DuplicatePatch(t, view)) == Repeated(t, view.insert)
  {
    hide Clear, IsLine, Find;
    var caret := view.insert;
    if t != "" && !(EndsLine(t) && caret == |t|) {
      LineOfCaret(t, caret);
      var line := LineOf(t, if caret < |t| then caret else |t| - 1);
      if line.fullEnd > line.contentEnd {
        RepeatsEndedLine(t, line.start, line.contentEnd);
      } else {
        assert line.contentEnd == |t|;
        RepeatsLastLine(t, line.start);
      }
    }
  }

  lemma PiecesUpTo(t: string, start: nat, end: nat)
    requires start <= end <= |t| && Clear(t, start, end) && (start == 0 || t[start - 1] == '\n')
    ensures Pieces(t[..end]) == PiecesBefore(t, start) + [t[start..end]]
  {
    ClearSlice(t, start, end);
    HeadPieces(t, start, t[start..end]);
    assert t[..end] == t[..start] + t[start..end];
  }

  lemma PiecesAroundCaret(t: string, start: nat, end: nat)
    requires start <= end <= |t| && Clear(t, start, end) && (start == 0 || t[start - 1] == '\n')
    requires (end == |t| || t[end] == '\n')
    ensures Pieces(t) == PiecesBefore(t, start) + ([t[start..end]] + PiecesBehind(t, end))
    ensures Pieces(t[..end] + "\n" + t[start..])
         == PiecesBefore(t, start) + [t[start..end]] + ([t[start..end]] + PiecesBehind(t, end))
  {
    hide Pieces, PiecesBefore, PiecesBehind;
    PieceThenTail(t, start, end);
    HeadPieces(t, start, t[start..]);
    assert t == t[..start] + t[start..];
    PiecesUpTo(t, start, end);
    PiecesJoin(t[..end], t[start..]);
  }

  function PieceAt(t: string, caret: nat): string
    requires caret <= |t|
  {
    t[LineStart(t, caret)..PieceEnd(t, caret)]
  }

  /** The piece of the caret is there twice, the others once. */
  lemma RepeatedPieces(t: string, caret: nat)
    requires caret <= |t|
    ensures Pieces(t)
         == PiecesBefore(t, LineStart(t, caret)) + ([PieceAt(t, caret)] + PiecesBehind(t, PieceEnd(t, caret)))
    ensures Pieces(Repeated(t, caret))
         == PiecesBefore(t, LineStart(t, caret)) + [PieceAt(t, caret)]
            + ([PieceAt(t, caret)] + PiecesBehind(t, PieceEnd(t, caret)))
  {
    PiecesAroundCaret(t, LineStart(t, caret), PieceEnd(t, caret));
  }

  lemma {:induction false} LineStartIs(t: string, x: nat, s: nat)
    requires s <= x <= |t| && Clear(t, s, x) && (s == 0 || t[s - 1] == '\n')
    ensures LineStart(t, x) == s
    decreases x
  {
    if s == x {
    } else {
      assert t[x - 1] != '\n';
      LineStartIs(t, x - 1, s);
    }
  }

  /** The caret has moved to the second copy. */
  lemma SecondCopy(t: string, caret: nat)
    requires caret <= |t|
    ensures var start, end := LineStart(t, caret), PieceEnd(t, caret);
            && caret + end - start + 1 <= |Repeated(t, caret)|
            && LineStart(Repeated(t, caret), caret + end - start + 1) == end + 1
  {
    var start, end, u := LineStart(t, caret), PieceEnd(t, caret), Repeated(t, caret);
    assert u[end] == '\n';
    forall k | end + 1 <= k < caret + end - start + 1 ensures u[k] != '\n' { assert u[k] == t[k - end - 1 + start]; }
    LineStartIs(u, caret + end - start + 1, end + 1);
  }

  /** The outcome of planning a duplication. */
  ghost predicate DuplicateSpec(t: string, id: nat, view: ViewState, r: Result<EditPlan, TransformError>) {
    match ValidateInputs(t, id, view)
    case Some(e) => r == Err(e)
    case None => OnePatchSpec(t, id, view, DuplicatePatch(t, view), DuplicateTarget(t, view), r)
  }

  method CaretInsertion(t: string, caret: nat) returns (insertAt: nat, insertion: string, newLineStart: nat, start: nat)
    requires caret <= |t| && !(EndsLine(t) && caret == |t|)
    ensures Patch(insertAt, insertAt, insertion) == DuplicatePatch(t, ViewState(caret, caret))
    ensures start == LineStart(t, caret) && newLineStart == PieceEnd(t, caret) + 1
    ensures newLineStart + (caret - start) <= |t| + |insertion|
  {
    var lines := RealLines(t);
    var index := LineIndexForCaret(t, lines, caret);
    var line := lines[index.value];
    if t != "" { LineOfCaret(t, caret); }
    start := line.start;
    insertAt := line.fullEnd;
    if line.fullEnd > line.contentEnd {
      insertion := t[line.start..line.fullEnd];
      newLineStart := insertAt;
    } else {
      insertion := "\n" + t[line.start..line.contentEnd];
      newLineStart := insertAt + 1;
    }
    if t == "" {
      insertion, insertAt, newLineStart := "\n", 0, 1;
    }
  }

  method InsertPlan(t: string, id: nat, view: ViewState, at: nat, insertion: string, target: ViewState)
    returns (r: Result<EditPlan, TransformError>)
    requires at <= |t| && insertion != ""
    ensures OnePatchSpec(t, id, view, Patch(at, at, insertion), target, r)
  {
    ghost var p := Patch(at, at, insertion);
    var ops := [Op(Insert, at, insertion)];
    OnePatchPlan(t, p);
    PatchSizeIsOpsSize(t, [p], 0);
    assert t[at..at] == "" && [] + ops == ops;
    assert PatchOps(t, p) == ops && Changes(t, p);
    var finalText := t[..at] + insertion + t[at..];
    var error := PrevalidateFinal(finalText, ops);
    if error.Some? {
      return Err(error.value);
    }
    r := Ok(EditPlan(id, t, finalText, ops, view, target, 1));
  }

  method PlanDuplicateLine(t: string, id: nat, view: ViewState) returns (r: Result<EditPlan, TransformError>)
    requires ValidateInputs(t, id, view).None? && view.insert == view.bound
    ensures OnePatchSpec(t, id, view, DuplicatePatch(t, view), DuplicateTarget(t, view), r)
  {
    hide OnePatchSpec, Clear, IsLine, Find;
    var caret := view.insert;
    if EndsLine(t) && caret == |t| {
      r := InsertPlan(t, id, view, |t|, "\n", ViewState(|t| + 1, |t| + 1));
      return;
    }
    var insertAt, insertion, newLineStart, start := CaretInsertion(t, caret);
    var offset := Min(newLineStart + (caret - start), |t| + |insertion|);
    r := InsertPlan(t, id, view, insertAt, insertion, ViewState(offset, offset));
  }

  method PlanDuplicate(t: string, id: nat, view: ViewState) returns (r: Result<EditPlan, TransformError>)
    ensures DuplicateSpec(t, id, view, r)
  {
    var invalid := ValidateInputs(t, id, view);
    if invalid.Some? {
      return Err(invalid.value);
    }
    var lo, hi := SelectionStart(view), SelectionEnd(view);
    if lo != hi {
      var target := DirectedView(view, hi, hi + (hi - lo));
      r := InsertPlan(t, id, view, hi, t[lo..hi], target);
      return;
    }
    r := PlanDuplicateLine(t, id, view);
  }

  lemma DuplicateTargetIs(t: string, id: nat, view: ViewState, plan: EditPlan)
    requires DuplicateSpec(t, id, view, Ok(plan))
    ensures plan.targetView == DuplicateTarget(t, view)
  {}

  lemma DuplicatedText(t: string, view: ViewState)
    requires view.insert <= |t| && view.bound <= |t|
    ensures var lo, hi := SelectionStart(view), SelectionEnd(view);
            WithPatch(t, DuplicatePatch(t, view)) == if lo < hi then t[..hi] + t[lo..] else Repeated(t, lo)
  {
    var lo, hi := SelectionStart(view), SelectionEnd(view);
    if lo < hi {
      assert t[..hi] + t[lo..hi] + t[hi..] == t[..hi] + t[lo..];
    } else {
      CaretDuplicatesPiece(t, view);
    }
  }

  lemma DuplicateTargetInText(t: string, view: ViewState)
    requires view.insert <= |t| && view.bound <= |t|
    ensures var lo, hi, target := SelectionStart(view), SelectionEnd(view), DuplicateTarget(t, view);
            var u := if lo < hi then t[..hi] + t[lo..] else Repeated(t, lo);
            target.insert <= |u| && target.bound <= |u|
  {
    if SelectionStart(view) == SelectionEnd(view) { SecondCopy(t, SelectionStart(view)); }
  }

  lemma SelectedCopy(t: string, view: ViewState)
    requires view.insert <= |t| && view.bound <= |t| && view.insert != view.bound
    ensures
      var lo, hi, target := SelectionStart(view), SelectionEnd(view), DuplicateTarget(t, view);
      && SelectionStart(target) == hi && SelectionEnd(target) == hi + (hi - lo) <= |t[..hi] + t[lo..]|
      && (t[..hi] + t[lo..])[hi..hi + (hi - lo)] == t[lo..hi]
      && (target.insert > target.bound <==> view.insert > view.bound)
  {}

  /** The copy is selected from the same side, or the caret is in the copied line, in its old column. */
  predicate TargetInCopy(t: string, view: ViewState, u: string, target: ViewState)
    requires view.insert <= |t| && view.bound <= |t|
  {
    var lo, hi := SelectionStart(view), SelectionEnd(view);
    if lo < hi then
      && SelectionStart(target) == hi && SelectionEnd(target) <= |u| && u[hi..SelectionEnd(target)] == t[lo..hi]
      && (target.insert > target.bound <==> view.insert > view.bound)
    else
      && target.insert == target.bound <= |u| && LineStart(u, target.insert) == PieceEnd(t, lo) + 1
      && target.insert - LineStart(u, target.insert) == lo - LineStart(t, lo)
  }

  lemma CopyIsTarget(t: string, view: ViewState)
    requires view.insert <= |t| && view.bound <= |t|
    ensures var lo, hi := SelectionStart(view), SelectionEnd(view);
            TargetInCopy(t, view, if lo < hi then t[..hi] + t[lo..] else Repeated(t, lo), DuplicateTarget(t, view))
  {
    if view.insert != view.bound { SelectedCopy(t, view); } else { SecondCopy(t, view.insert); }
    hide LineStart, PieceEnd, Repeated;
  }

  /** A duplication plan replays; it repeats the selected text behind itself, or the piece of the caret. */
  lemma DuplicatePlanIsGood(t: string, id: nat, view: ViewState, plan: EditPlan)
    requires DuplicateSpec(t, id, view, Ok(plan))
    ensures GoodPlan(plan) && view.insert <= |t| && view.bound <= |t|
    ensures var lo, hi := SelectionStart(view), SelectionEnd(view);
            plan.finalText == if lo < hi then t[..hi] + t[lo..] else Repeated(t, lo)
    ensures TargetInCopy(t, view, plan.finalText, plan.targetView)
    ensures plan.targetView.insert <= |plan.finalText| && plan.targetView.bound <= |plan.finalText|
  {
    hide GoodPlan, LineStart, PieceEnd, Repeated, DuplicateTarget, DuplicatePatch, TargetInCopy;
    OnePatchSpecIsGood(t, id, view, DuplicatePatch(t, view), DuplicateTarget(t, view), plan);
    DuplicatedText(t, view);
    DuplicateTargetInText(t, view);
    DuplicateTargetIs(t, id, view, plan);
    CopyIsTarget(t, view);
  }
}
