/** What a plan that moves lines promises, and what the opposite plan makes of its result. */
module MovePlans {
  import opened Prelude
  import opened Renderability
  import opened EditHistory
  import opened Patches
  import opened EditPlans
  import opened Lines
  import opened LineMoves
  import opened TextTransform

  lemma MovePlanReplays(t: string, id: nat, view: ViewState, up: bool, plan: EditPlan)
    requires MoveSpec(t, id, view, up, Ok(plan))
    ensures GoodPlan(plan) && plan.sourceText == t
  {
    match MoveOf(t, view, up)
    case None => NoOpIsGood(id, t, view);
    case Some(s) =>
      OnePatchSpecIsGood(t, id, view, Patch(s.start, s.end, Exchanged(t, s)), MovedView(t, s, up, view), plan);
  }

  lemma MovePlanOutcome(t: string, id: nat, view: ViewState, up: bool, plan: EditPlan)
    requires MoveSpec(t, id, view, up, Ok(plan))
    ensures view.insert <= |t| && view.bound <= |t| && plan.finalText == Moved(t, view, up).0
              && plan.targetView == Moved(t, view, up).1
  {
    hide MoveOf, MovedOffset, LineOf, Anchors, Renderable, FirstOffender;
    if MoveOf(t, view, up).Some? {
      var s := MoveOf(t, view, up).value;
      OnePatchPlan(t, Patch(s.start, s.end, Exchanged(t, s)));
    }
  }

  lemma MovedKeepsLines(t: string, view: ViewState, up: bool)
    requires view.insert <= |t| && view.bound <= |t|
    ensures |Moved(t, view, up).0| == |t| && multiset(Pieces(Moved(t, view, up).0)) == multiset(Pieces(t))
  {
    if MoveOf(t, view, up).Some? { MovePermutesLines(t, MoveOf(t, view, up).value); }
  }

  lemma MovedViewInText(t: string, view: ViewState, up: bool)
    requires view.insert <= |t| && view.bound <= |t|
    ensures Moved(t, view, up).1.insert <= |t| && Moved(t, view, up).1.bound <= |t|
  {
    if MoveOf(t, view, up).Some? {
      var s := MoveOf(t, view, up).value;
      MovedSelection(t, s, up, view, MovedView(t, s, up, view));
    }
  }

  /**
    A move changes the text only by the exchange, keeps its length and permutes its lines, and the
    selection stays in it.
   */
  lemma MovePlanIsGood(t: string, id: nat, view: ViewState, up: bool, plan: EditPlan)
    requires MoveSpec(t, id, view, up, Ok(plan))
    ensures GoodPlan(plan) && plan.sourceText == t && |plan.finalText| == |t|
    ensures multiset(Pieces(plan.finalText)) == multiset(Pieces(t))
    ensures plan.targetView.insert <= |t| && plan.targetView.bound <= |t|
  {
    MovePlanReplays(t, id, view, up, plan);
    MovePlanOutcome(t, id, view, up, plan);
    MovedKeepsLines(t, view, up);
    MovedViewInText(t, view, up);
  }

  /** Planning a move fails on a limit exactly when the region is too long or the text was too wide already. */
  lemma MovePlanFails(t: string, id: nat, view: ViewState, up: bool, s: Swap, r: Result<EditPlan, TransformError>)
    requires MoveSpec(t, id, view, up, r) && ValidateInputs(t, id, view).None? && MoveOf(t, view, up) == Some(s)
    requires Exchanged(t, s) != t[s.start..s.end]
    ensures r.Ok? <==> 2 * (s.end - s.start) <= MAX_PAYLOAD && Renderable(t, MAX_LINE_CHARS)
  {
    hide MoveOf, Traded, Renderable, FirstOffender, LineOf;
    SwappedIsTraded(t, s);
    MoveKeepsWidth(t, s, MAX_LINE_CHARS);
  }

  /** Where the opposite move can restore the text, planning it meets no limit that the first plan did not meet. */
  lemma OppositePlanExists(t: string, id: nat, view: ViewState, up: bool, s: Swap, plan: EditPlan, again: nat,
                           r: Result<EditPlan, TransformError>)
    requires MoveSpec(t, id, view, up, Ok(plan)) && MoveOf(t, view, up) == Some(s)
    requires Exchanged(t, s) != t[s.start..s.end]
    requires Restorable(t, s) && again > 0 && MoveSpec(plan.finalText, again, plan.targetView, !up, r)
    ensures r.Ok?
  {
    hide MoveOf, MovedOffset, Renderable, FirstOffender, Exchanged, LineOf;
    MovePlanOutcome(t, id, view, up, plan);
    var u, v := Swapped(t, s), MovedView(t, s, up, view);
    OppositeMoveOf(t, view, up, s, u, v);
    OppositeChanges(t, s);
    MovePlanFails(t, id, view, up, s, Ok(plan));
    MoveKeepsWidth(t, s, MAX_LINE_CHARS);
    MovePlanFails(u, again, v, !up, Back(s), r);
  }

  lemma ChangedByMove(t: string, id: nat, view: ViewState, up: bool, plan: EditPlan)
    requires MoveSpec(t, id, view, up, Ok(plan)) && plan.finalText != t
    ensures view.insert <= |t| && view.bound <= |t| && MoveOf(t, view, up).Some?
    ensures var s := MoveOf(t, view, up).value; Exchanged(t, s) != t[s.start..s.end] && Swapped(t, s) != t
  {
    MovePlanOutcome(t, id, view, up, plan);
  }

  /**
    The opposite move of a plan that changed the text can always be planned where it can restore it; it then
    restores the text, and the selection too unless an endpoint was off by one.
   */
  lemma OppositePlanRestores(t: string, id: nat, view: ViewState, up: bool, plan: EditPlan, again: nat,
                             r: Result<EditPlan, TransformError>)
    requires MoveSpec(t, id, view, up, Ok(plan)) && plan.finalText != t && again > 0
    requires MoveSpec(plan.finalText, again, plan.targetView, !up, r)
    ensures view.insert <= |t| && view.bound <= |t| && MoveOf(t, view, up).Some?
    ensures var s := MoveOf(t, view, up).value;
            && (r.Ok? && r.value.finalText == t <==> Restorable(t, s))
            && (Restorable(t, s) ==> (r.value.targetView == view <==> !OffByOne(s, up, view)))
  {
    ChangedByMove(t, id, view, up, plan);
    var s := MoveOf(t, view, up).value;
    MovePlanOutcome(t, id, view, up, plan);
    OppositeMove(t, view, up, s);
    if r.Ok? { MovePlanOutcome(plan.finalText, again, plan.targetView, !up, r.value); }
    if Restorable(t, s) { OppositePlanExists(t, id, view, up, s, plan, again, r); }
  }

  /** A region that ends in a line feed is always restored, with its selection. */
  lemma OppositePlanOfEndedRegion(t: string, id: nat, view: ViewState, up: bool, plan: EditPlan, again: nat,
                                  r: Result<EditPlan, TransformError>)
    requires MoveSpec(t, id, view, up, Ok(plan)) && plan.finalText != t && again > 0
    requires MoveSpec(plan.finalText, again, plan.targetView, !up, r)
    requires MoveOf(t, view, up).Some? ==> t[MoveOf(t, view, up).value.end - 1] == '\n'
    ensures r.Ok? && r.value.finalText == t && r.value.targetView == view
  {
    OppositePlanRestores(t, id, view, up, plan, again, r);
    FinalBreak(t, MoveOf(t, view, up).value);
  }

  lemma EmptyLineMovesDown(t: string, u: string)
    requires t == "\nb" && u == "b\n"
    ensures Moved(t, ViewState(1, 1), true) == (u, ViewState(0, 0))
  {
    var view, s := ViewState(1, 1), Swap(0, 0, 2, 2);
    assert t[0] == '\n' && t[1] == 'b';
    OneLine(t, 1, 1, 2);
    OneLine(t, 0, 0, 0);
    MoveFromBlock(t, view, true, Line(1, 2, 2), Line(1, 2, 2));
    AboveIs(t, Line(1, 2, 2), Line(1, 2, 2), s);
    assert Exchanged(t, s) == u && t[0..2] == t && t[0] != u[0];
    assert Swapped(t, s) == t[..0] + u + t[2..] == u;
  }

  lemma LoneLineStays(t: string)
    requires t == "b\n"
    ensures Moved(t, ViewState(0, 0), false) == (t, ViewState(0, 0))
  {
    assert t[0] == 'b' && t[1] == '\n';
    OneLine(t, 0, 0, 1);
    MoveFromBlock(t, ViewState(0, 0), false, Line(0, 1, 2), Line(0, 1, 2));
  }

  /** An empty line above a last line without LF: moved down to the end it is no line any more, and stays there. */
  lemma OppositeMoveCanFail(t: string, u: string)
    requires t == "\nb" && u == "b\n"
    ensures Moved(t, ViewState(1, 1), true) == (u, ViewState(0, 0)) && Moved(u, ViewState(0, 0), false).0 == u != t
  {
    EmptyLineMovesDown(t, u);
    LoneLineStays(u);
    assert t[0] != u[0];
  }

  /** The selection of "a" in "a\nb", moved down and up again: the text comes back, the selection does not. */
  lemma SelectionCanBeOffByOne(t: string, u: string)
    requires t == "a\nb" && u == "b\na"
    ensures
      var view := ViewState(0, 1);
      var (moved, v) := Moved(t, view, false);
      && moved == u && v.insert <= |u| && v.bound <= |u|
      && Moved(u, v, true).0 == t && Moved(u, v, true).1 != view
  {
    var view, s := ViewState(0, 1), Swap(0, 1, 3, 3);
    assert t[0] == 'a' && t[1] == '\n' && t[2] == 'b';
    OneLine(t, 0, 0, 1);
    OneLine(t, 2, 2, 3);
    MoveFromBlock(t, view, false, Line(0, 1, 2), Line(0, 1, 2));
    BelowIs(t, Line(0, 1, 2), Line(0, 1, 2), s);
    assert Exchanged(t, s) == u && t[0..3] == t && t[0] != u[0];
    assert Swapped(t, s) == t[..0] + u + t[3..] == u;
    OppositeMove(t, view, false, s);
  }
}
