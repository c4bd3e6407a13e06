/** The controller and the save service, in place: each call performs one step of the editor core. */
module NativeEditor {
  import opened Prelude
  import opened Codec
  import opened DocumentBytes
  import opened DocumentRoundTrip
  import opened Edits
  import opened EditHistory
  import opened DeltaJournal
  import opened DeltaHistoryClass
  import opened DocumentSessionModel
  import opened Renderability
  import opened EditorRun
  import opened EditorSafety

  lemma EraseIsNative(w: World, offset: nat, count: nat, direction: Direction, erased: Op)
    requires w.journal.Usable() && offset + count <= |w.text|
    requires erased == Op(Delete, offset, w.text[offset..offset + count])
    ensures Step(w, EraseText(offset, count, direction)) == Native(w, erased, direction)
  {
  }

  lemma {:induction false} RecordedAppend(ops: seq<Op>, op: Op)
    ensures Recorded(ops + [op]) == Recorded(ops) + [Delta(op, Range)]
  {
  }

  lemma StepIsValid(w: World, a: Action)
    requires Inv(w) && Allowed(w, a)
    ensures Bounded(w.journal) && Inv(Step(w, a))
  {
    StepKeeps(w, a);
  }

  /** The plan that takes the group on top of the stack back, or brings it back. */
  function TopPlan(j: Journal, redo: bool): Option<Plan> {
    if j.GroupActive() || (if redo then j.redo else j.undo) == [] then None
    else if redo then
      var group := j.redo[|j.redo| - 1];
      Some(Plan(RedoOps(group.deltas), group.afterId, group.afterView))
    else
      var group := j.undo[|j.undo| - 1];
      Some(Plan(UndoOps(group.deltas), group.beforeId, group.beforeView))
  }

  /** The plan a replay performs: that of the journal, if there is one and the buffer takes it. */
  function Performed(w: World, redo: bool): Option<Plan> {
    if w.journal.GroupActive() then None
    else match (if redo then w.journal.Redo() else w.journal.Undo()).1
      case Replay(plan) => if Transact(w.text, plan.ops).1 == Applied then Some(plan) else None
      case _ => None
  }

  /** In a sound state nothing keeps a replay from performing the plan on top. */
  lemma TopPlanIsPerformed(w: World, redo: bool)
    requires Inv(w)
    ensures Performed(w, redo) == TopPlan(w.journal, redo)
    ensures TopPlan(w.journal, redo).Some? ==>
              var plan, w' := TopPlan(w.journal, redo).value, ReplayStep(w, redo);
              && w'.journal.currentId == plan.targetId && Replays(w.text, plan.ops, w'.text)
              && plan.targetId in w.texts && w'.text == w.texts[plan.targetId]
  {
    if TopPlan(w.journal, redo).Some? {
      if redo { RedoLeads(w.journal, w.texts); } else { UndoLeads(w.journal, w.texts); }
      ReplayShowsTarget(w, redo);
    }
  }

  lemma SessionAgrees(w: World)
    requires Inv(w)
    ensures w.session.currentId == if w.journal.currentId == 0 then None else Some(w.journal.currentId)
  {}

  class NativeEditorController {
    const session: DocumentSession
    const history: DeltaHistory
    const buffer: TextBuffer
    ghost var texts: map<nat, string>
    ghost var saves: seq<Intent>
    ghost var committed: Option<Committed>

    ghost function State(): World
      reads this, session, history, buffer
    {
      World(buffer.text, history.State(), session.Snapshot(), texts, saves, committed)
    }

    ghost predicate Valid()
      reads this, session, history, buffer
    {
      Inv(State())
    }

    constructor ()
      ensures Valid() && State() == START
      ensures fresh(session) && fresh(history) && fresh(buffer)
    {
      session := new DocumentSession();
      history := new DeltaHistory(MAX_GROUPS, MAX_PAYLOAD);
      buffer := new TextBuffer();
      texts, saves, committed := map[], [], None;
      new;
      StartInv();
    }

    method BeginNativeGroup(view: ViewState) returns (error: Option<HistoryError>)
      requires Valid()
      modifies this, session, history, buffer
      ensures State() == Step(old(State()), BeginNative(view)) && Valid()
      ensures error == if old(history.State().GroupActive()) then Some(GroupOpen)
                       else if old(history.currentStateId) == 0 then Some(NotInitialized) else None
    {
      error := history.BeginGroup(view);
      hide Inv;
      StepIsValid(old(State()), BeginNative(view));
    }

    /** The buffer performs a user's edit and then reports it; outside a group there is none. */
    method NativeEdit(op: Op, direction: Direction)
      requires op.kind.Insert? ==> direction == Range
      modifies history, buffer
      ensures State() == Native(old(State()), op, direction)
    {
      if history.pendingBeforeStateId.Some? && op.text != "" {
        var ok := buffer.ApplyOperation(op);
        if ok && op.kind.Insert? {
          var _ := history.RecordInsert(op.offset, op.text);
        } else if ok {
          var _ := history.RecordDelete(op.offset, op.text, direction);
        }
      }
    }

    method NativeInsert(offset: nat, inserted: string)
      requires Valid()
      modifies history, buffer
      ensures State() == Step(old(State()), TypeText(offset, inserted)) && Valid()
    {
      hide Inv;
      StepIsValid(State(), TypeText(offset, inserted));
      if offset <= |buffer.text| {
        NativeEdit(Op(Insert, offset, inserted), Range);
      }
    }

    method NativeDelete(offset: nat, count: nat, direction: Direction)
      requires Valid()
      modifies history, buffer
      ensures State() == Step(old(State()), EraseText(offset, count, direction)) && Valid()
    {
      hide Inv;
      ghost var w := State();
      StepIsValid(w, EraseText(offset, count, direction));
      if offset + count <= |buffer.text| {
        var erased := Op(Delete, offset, buffer.text[offset..offset + count]);
        EraseIsNative(w, offset, count, direction, erased);
        NativeEdit(erased, direction);
      }
    }

    method EndNativeGroup(view: ViewState) returns (r: Result<nat, HistoryError>)
      requires Valid()
      modifies this, session, history, buffer
      ensures State() == Step(old(State()), EndNative(view)) && Valid()
      ensures r == if old(history.State().GroupActive()) then Ok(history.currentStateId) else Err(NoGroup)
    {
      hide Inv;
      StepIsValid(State(), EndNative(view));
      ghost var edited := history.pendingDeltas != [];
      r := history.EndGroup(view, session.savedEditorStateId);
      if r.Ok? {
        session.AdvanceEditorState(r.value);
        if edited { texts := texts[r.value := buffer.text]; }
      }
      assert State() == EndNativeStep(old(State()), view);
    }

    method PrepareForSave() returns (ok: bool)
      requires Valid()
      modifies this, session, history, buffer
      ensures State() == Step(old(State()), Action.PrepareSave) && Valid()
      ensures ok <==> !old(history.State().GroupActive()) && old(history.currentStateId) > 0
      ensures ok ==> session.Snapshot().TextIsCurrent() && session.text == buffer.text
    {
      hide Inv;
      SessionAgrees(State());
      StepIsValid(State(), Action.PrepareSave);
      ok := history.pendingBeforeStateId.None? && history.currentStateId > 0
            && session.currentEditorStateId == Some(history.currentStateId);
      if ok {
        session.SynchronizeCurrentText(buffer.text);
      }
    }

    /** One replay with its rollback, from any state. */
    method ReplayOne(redo: bool) returns (plan: Option<Plan>)
      requires history.State().Usable()
      modifies session, history, buffer
      ensures State() == ReplayStep(old(State()), redo) && plan == Performed(old(State()), redo)
    {
      if history.pendingBeforeStateId.Some? {
        return None;
      }
      var checkpoint, before := history.State(), session.Snapshot();
      var r;
      if redo { r := history.Redo(); } else { r := history.Undo(); }
      if !r.value.Replay? {
        return None;
      }
      plan := Some(r.value.plan);
      var outcome := buffer.ApplyOperations(plan.value.ops);
      if outcome == Applied {
        session.AdvanceEditorState(plan.value.targetId);
      } else {
        history.RestoreCheckpoint(checkpoint);
        session.RestoreCheckpoint(before);
        plan := None;
      }
    }

    method Undo() returns (plan: Option<Plan>)
      requires Valid()
      modifies session, history, buffer
      ensures State() == Step(old(State()), UndoStep) && Valid()
      ensures plan == TopPlan(old(history.State()), false)
      ensures plan.Some? ==>
                && history.currentStateId == plan.value.targetId && plan.value.targetId in texts
                && buffer.text == texts[plan.value.targetId] && Replays(old(buffer.text), plan.value.ops, buffer.text)
    {
      hide Inv;
      StepIsValid(State(), UndoStep);
      TopPlanIsPerformed(State(), false);
      plan := ReplayOne(false);
    }

    method Redo() returns (plan: Option<Plan>)
      requires Valid()
      modifies session, history, buffer
      ensures State() == Step(old(State()), RedoStep) && Valid()
      ensures plan == TopPlan(old(history.State()), true)
      ensures plan.Some? ==>
                && history.currentStateId == plan.value.targetId && plan.value.targetId in texts
                && buffer.text == texts[plan.value.targetId] && Replays(old(buffer.text), plan.value.ops, buffer.text)
    {
      hide Inv;
      StepIsValid(State(), RedoStep);
      TopPlanIsPerformed(State(), true);
      plan := ReplayOne(true);
    }

    method RecordOne(op: Op) returns (error: Option<HistoryError>)
      requires history.State().GroupActive()
      modifies history
      ensures error.None? <==> op.text != ""
      ensures history.State()
           == if op.text != "" then old(history.State()).(pending := old(history.pendingDeltas) + [Delta(op, Range)])
                                 else old(history.State())
    {
      if op.kind.Insert? {
        error := history.RecordInsert(op.offset, op.text);
      } else {
        error := history.RecordDelete(op.offset, op.text, Range);
      }
    }

    /** Records the operations of a programmatic edit in a fresh group. */
    method RecordAll(e: Edit) returns (ok: bool)
      requires Bounded(history.State()) && !history.State().GroupActive() && history.currentStateId > 0
      modifies history
      ensures ok <==> forall i | 0 <= i < |e.ops| :: e.ops[i].text != ""
      ensures history.State() == if ok then WithPending(old(history.State()), e) else old(history.State())
    {
      var checkpoint := history.State();
      var error := history.BeginGroup(e.beforeView);
      ghost var open := history.State();
      for i := 0 to |e.ops|
        invariant history.State() == open.(pending := Recorded(e.ops[..i]))
        invariant forall k | 0 <= k < i :: e.ops[k].text != ""
      {
        RecordedAppend(e.ops[..i], e.ops[i]);
        assert e.ops[..i + 1] == e.ops[..i] + [e.ops[i]];
        error := RecordOne(e.ops[i]);
        if error.Some? {
          history.RestoreCheckpoint(checkpoint);
          return false;
        }
      }
      assert e.ops[..|e.ops|] == e.ops;
      ok := true;
    }

    /** Everything that is checked before a programmatic edit touches history or buffer. */
    method Refuses(e: Edit) returns (refused: bool)
      requires Valid()
      ensures !refused && (forall i | 0 <= i < |e.ops| :: e.ops[i].text != "") <==> Admissible(State(), e)
      ensures !refused ==> !history.State().GroupActive() && history.currentStateId > 0
    {
      if history.pendingBeforeStateId.Some? || history.currentStateId == 0 || e.sourceId != history.currentStateId
         || session.currentEditorStateId != Some(history.currentStateId) || e.ops == []
         || OpsSize(e.ops) > history.maxPayload {
        return true;
      }
      var tooWide := EnsureTextRenderable(e.finalText, MAX_LINE_CHARS);
      refused := tooWide.Some?;
    }

    /** Closes the group of an applied programmatic edit and advances the session. */
    method CommitGroup(view: ViewState) returns (id: nat)
      requires Bounded(history.State()) && history.State().GroupActive()
      modifies history, session
      ensures
        var j := old(history.State()).EndGroup(view, old(session.savedEditorStateId));
        && State() == old(State()).(journal := j, session := old(session.Snapshot()).Advance(j.currentId))
        && id == j.currentId
    {
      var ended := history.EndGroup(view, session.savedEditorStateId);
      id := ended.value;
      session.AdvanceEditorState(id);
    }

    /** Takes an applied programmatic edit back: buffer by inverse operations, the rest by checkpoint. */
    method RollBack(ops: seq<Op>, checkpoint: Journal, before: Session)
      modifies history, session, buffer
      ensures State() == old(State()).(text := Transact(old(buffer.text), Inverse(ops)).0,
                                       journal := old(history.State()).Restore(checkpoint), session := before)
    {
      var _ := buffer.ApplyOperations(Inverse(ops));
      history.RestoreCheckpoint(checkpoint);
      session.RestoreCheckpoint(before);
    }

    /** The part of a programmatic edit that touches the buffer, once its group is recorded. */
    method PerformRecorded(e: Edit, fault: Fault, checkpoint: Journal, before: Session, ghost w: World)
      returns (r: Option<nat>)
      requires Admissible(w, e) && Bounded(w.journal) && w.journal == checkpoint && w.session == before
      requires State() == w.(journal := WithPending(w.journal, e))
      modifies this`texts, session, history, buffer
      ensures State() == ProgrammaticStep(w, e, fault)
      ensures r == if Transact(w.text, e.ops).1 == Applied && fault == NoFault then Some(history.currentStateId)
                   else None
    {
      r := None;
      var outcome := buffer.ApplyOperations(e.ops);
      if outcome != Applied {
        history.RestoreCheckpoint(checkpoint);
        return;
      }
      if fault.AtCommit? {
        if fault.idUsed { var _ := history.FreshStateId(); }
        RollBack(e.ops, checkpoint, before);
        return;
      }
      var id := CommitGroup(e.targetView);
      if fault == AtListener {
        RollBack(e.ops, checkpoint, before);
        return;
      }
      texts := texts[id := buffer.text];
      r := Some(id);
    }

    method ApplyProgrammaticGroup(e: Edit, fault: Fault) returns (r: Option<nat>)
      requires Valid() && Allowed(State(), Programmatic(e, fault))
      modifies this`texts, session, history, buffer
      ensures State() == Step(old(State()), Programmatic(e, fault)) && Valid()
      ensures r.Some? <==> old(Admissible(State(), e) && Transact(buffer.text, e.ops).1 == Applied) && fault == NoFault
      ensures r.Some? ==> r.value == history.currentStateId
    {
      hide Inv;
      ghost var w := State();
      StepIsValid(w, Programmatic(e, fault));
      var refused := Refuses(e);
      if refused {
        return None;
      }
      var checkpoint, before := history.State(), session.Snapshot();
      var recorded := RecordAll(e);
      if !recorded {
        return None;
      }
      r := PerformRecorded(e, fault, checkpoint, before, w);
    }

    /** Puts history, session and buffer back after a failed replacement of the document. */
    method Abandon(checkpoint: Journal, before: Session, shown: string)
      modifies session, history, buffer
      ensures State()
           == old(State()).(text := shown, journal := old(history.State()).Restore(checkpoint), session := before)
    {
      history.RestoreCheckpoint(checkpoint);
      session.RestoreCheckpoint(before);
      buffer.text := shown;
    }

    method InitializeNewText(t: string, clean: bool, fails: bool) returns (ok: bool)
      requires Valid()
      modifies this, session, history, buffer
      ensures State() == Step(old(State()), OpenNew(t, clean, fails)) && Valid()
      ensures ok <==> !fails && !old(history.State().GroupActive())
    {
      hide Inv;
      StepIsValid(State(), OpenNew(t, clean, fails));
      var checkpoint, before, shown := history.State(), session.Snapshot(), buffer.text;
      buffer.text := t;
      var id := history.Reset();
      if id.Ok? {
        session.EstablishNew(t, id.value, clean);
      }
      ok := id.Ok? && !fails;
      if ok {
        texts, committed := texts[id.value := t], None;
      } else {
        Abandon(checkpoint, before, shown);
      }
    }

    method InitializeOpen(raw: seq<byte>, path: string, stamp: nat, fails: bool) returns (ok: bool)
      requires Valid() && Load(raw).Ok?
      modifies this, session, history, buffer
      ensures State() == Step(old(State()), OpenFile(raw, path, stamp, fails)) && Valid()
      ensures ok <==> !fails && !old(history.State().GroupActive())
    {
      hide Inv;
      StepIsValid(State(), OpenFile(raw, path, stamp, fails));
      var result := Load(raw).value;
      var checkpoint, before, shown := history.State(), session.Snapshot(), buffer.text;
      buffer.text := result.text;
      var id := history.Reset();
      if id.Ok? {
        session.EstablishOpen(result.text, FileState(path, result.meta, stamp), id.value);
      }
      ok := id.Ok? && !fails;
      if ok {
        texts := texts[id.value := result.text];
        committed := if result.meta.eol.mixed then None else Some(Committed(raw, true));
      } else {
        Abandon(checkpoint, before, shown);
      }
    }

    method InstallRecoveredNamed(d: LoadedText, file: FileState, t: string, profile: Profile, fails: bool)
      returns (ok: bool)
      modifies this, session, history, buffer
      ensures ok <==> !fails && !old(history.State().GroupActive())
      ensures State() ==
        var w := old(State());
        if w.journal.GroupActive() then w
        else if fails then w.(journal := w.journal.Reset().Reset().Restore(w.journal))
        else
          var saved, j := w.journal.Reset(), w.journal.Reset().Reset();
          World(t, j, w.session.EstablishRecoveredNamed(t, file, j.currentId, saved.currentId, profile),
                w.texts[saved.currentId := d.text][j.currentId := t], w.saves, None)
    {
      var checkpoint, before, shown := history.State(), session.Snapshot(), buffer.text;
      buffer.text := t;
      var savedId := history.Reset();
      if savedId.Err? {
        Abandon(checkpoint, before, shown);
        return false;
      }
      var id := history.Reset();
      session.EstablishRecoveredNamed(t, file, id.value, savedId.value, profile);
      if fails {
        Abandon(checkpoint, before, shown);
        return false;
      }
      texts, committed := texts[savedId.value := d.text][id.value := t], None;
      ok := true;
    }

    method InitializeRecoveredNamed(raw: seq<byte>, path: string, stamp: nat, t: string, profile: Profile, fails: bool)
      returns (ok: bool)
      requires Valid() && Load(raw).Ok? && Supported(profile)
      modifies this, session, history, buffer
      ensures State() == Step(old(State()), RecoverNamed(raw, path, stamp, t, profile, fails)) && Valid()
      ensures ok <==> !fails && !old(history.State().GroupActive()) && Renderable(t, MAX_LINE_CHARS)
    {
      hide Inv;
      StepIsValid(State(), RecoverNamed(raw, path, stamp, t, profile, fails));
      var tooWide := EnsureTextRenderable(t, MAX_LINE_CHARS);
      if tooWide.Some? {
        return false;
      }
      var result := Load(raw).value;
      ok := InstallRecoveredNamed(result, FileState(path, result.meta, stamp), t, profile, fails);
    }

    method InitializeRecoveredUnbound(t: string, profile: Profile, fails: bool) returns (ok: bool)
      requires Valid() && Supported(profile)
      modifies this, session, history, buffer
      ensures State() == Step(old(State()), RecoverUnbound(t, profile, fails)) && Valid()
      ensures ok <==> !fails && !old(history.State().GroupActive()) && Renderable(t, MAX_LINE_CHARS)
    {
      hide Inv;
      StepIsValid(State(), RecoverUnbound(t, profile, fails));
      var tooWide := EnsureTextRenderable(t, MAX_LINE_CHARS);
      if tooWide.Some? {
        return false;
      }
      var checkpoint, before, shown := history.State(), session.Snapshot(), buffer.text;
      buffer.text := t;
      var id := history.Reset();
      if id.Ok? {
        session.EstablishRecoveredUnbound(t, id.value, profile);
      }
      ok := id.Ok? && !fails;
      if ok {
        texts, committed := texts[id.value := t], None;
      } else {
        Abandon(checkpoint, before, shown);
      }
    }
  }

  class DocumentSaveService {
    const editor: NativeEditorController
    const session: DocumentSession

    ghost predicate Valid()
      reads editor, editor.session, editor.history, editor.buffer
    {
      session == editor.session && editor.Valid()
    }

    constructor (editor: NativeEditorController)
      requires editor.Valid()
      ensures Valid() && this.editor == editor
    {
      this.editor := editor;
      session := editor.session;
    }

    /** Captures and serializes one stable state; nothing is written and nothing in the session moves. */
    method Capture(operation: SaveOperation, path: string, allowMixed: bool) returns (intent: Option<Intent>)
      requires Valid()
      modifies editor
      ensures intent == old(Captured(session.Snapshot(), operation, path, allowMixed))
      ensures editor.State() == Step(old(editor.State()), CaptureSave(operation, path, allowMixed)) && Valid()
      ensures intent.Some? ==> editor.saves == old(editor.saves) + [intent.value]
    {
      hide Inv;
      StepIsValid(editor.State(), CaptureSave(operation, path, allowMixed));
      var snapshot := session.Snapshot();
      if !snapshot.TextIsCurrent() {
        return None;
      }
      if operation.Save? && (snapshot.fileState.None? || snapshot.logicalPath != Some(path)) {
        return None;
      }
      match Serialize(snapshot.text, snapshot.currentProfile, allowMixed) {
        case Err(_) =>
          intent := None;
        case Ok(data) =>
          intent := Some(Intent(snapshot.currentId.value, snapshot.text, snapshot.currentProfile, data));
          editor.saves := editor.saves + [intent.value];
      }
    }

    /** After the namespace commit exactly the captured state becomes the saved one. */
    method Accept(ghost index: nat, intent: Intent, path: string, baseline: Option<nat>)
      requires Valid() && index < |editor.saves| && editor.saves[index] == intent
      modifies editor, session
      ensures editor.State() == Step(old(editor.State()), CommitSave(index, path, baseline)) && Valid()
    {
      hide Inv;
      StepIsValid(editor.State(), CommitSave(index, path, baseline));
      var file := Baseline(intent, path, baseline);
      session.AcceptCommittedSave(intent.stateId, path, file, intent.profile);
      editor.committed := Some(Committed(intent.data, file.None? || Reproducible(intent.text, intent.profile)));
      editor.saves := editor.saves[..index] + editor.saves[index + 1..];
    }
  }
}
