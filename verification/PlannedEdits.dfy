/** A planned edit, handed to the editor on the text it was planned for, takes effect as planned and can be undone. */
module PlannedEdits {
  import opened Prelude
  import opened Edits
  import opened Renderability
  import opened EditPlans
  import opened EditorRun
  import opened EditorGuards

  function AsEdit(plan: EditPlan): Edit {
    Edit(plan.ops, plan.sourceId, plan.finalText, plan.beforeView, plan.targetView)
  }

  /** The plan was made for the present state and passes the editor's own checks. */
  ghost predicate Current(w: World, plan: EditPlan) {
    && !w.journal.GroupActive() && w.journal.currentId > 0 && w.session.currentId == Some(w.journal.currentId)
    && plan.sourceText == w.text && plan.sourceId == w.journal.currentId
    && plan.ops != [] && OpsSize(plan.ops) <= w.journal.maxPayload && Renderable(plan.finalText, MAX_LINE_CHARS)
  }

  /** Such a plan is an edit the run theorems allow, and it produces exactly its final text. */
  lemma PlanTakesEffect(w: World, plan: EditPlan)
    requires Inv(w) && GoodPlan(plan) && Current(w, plan)
    ensures Admissible(w, AsEdit(plan)) && Allowed(w, Programmatic(AsEdit(plan), NoFault))
              && Guarded(w, Programmatic(AsEdit(plan), NoFault))
    ensures ProgrammaticStep(w, AsEdit(plan), NoFault).text == plan.finalText
  {}

  /** Undo gives the source text back, unless the edit joined the group before it. */
  lemma PlanIsUndone(w: World, plan: EditPlan)
    requires Inv(w) && GoodPlan(plan) && Current(w, plan)
    requires !Coalesces(w, AsEdit(plan))
    ensures
      var done := ProgrammaticStep(w, AsEdit(plan), NoFault);
      var undone := ReplayStep(done, false);
      undone.text == plan.sourceText && undone.journal.currentId == plan.sourceId
  {
    PlanTakesEffect(w, plan);
    UndoTakesBackExactlyInRange(w, AsEdit(plan));
  }
}
