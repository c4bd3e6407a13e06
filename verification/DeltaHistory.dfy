/** The journal as the editor holds it: stacks and counters updated in place. */
module DeltaHistoryClass {
  import opened Prelude
  import opened Edits
  import opened EditHistory
  import opened DeltaJournal

  class DeltaHistory {
    const maxGroups: nat
    const maxPayload: nat
    var undoStack: seq<Group>
    var redoStack: seq<Group>
    var currentStateId: nat
    var nextStateId: nat
    var pendingDeltas: seq<Delta>
    var pendingBeforeStateId: Option<nat>
    var pendingBeforeView: Option<ViewState>

    function State(): Journal
      reads this
    {
      Journal(maxGroups, maxPayload, undoStack, redoStack, currentStateId, nextStateId,
              pendingDeltas, pendingBeforeStateId, pendingBeforeView)
    }

    constructor (maxGroups: nat, maxPayload: nat)
      requires maxGroups > 0 && maxPayload > 0
      ensures State() == EMPTY.(maxGroups := maxGroups, maxPayload := maxPayload)
    {
      this.maxGroups, this.maxPayload := maxGroups, maxPayload;
      undoStack, redoStack := [], [];
      currentStateId, nextStateId := 0, 1;
      pendingDeltas, pendingBeforeStateId, pendingBeforeView := [], None, None;
    }

    method FreshStateId() returns (id: nat)
      modifies this`nextStateId
      ensures id == old(nextStateId) && nextStateId == id + 1
    {
      id := nextStateId;
      nextStateId := nextStateId + 1;
    }

    method Reset() returns (r: Result<nat, HistoryError>)
      modifies this
      ensures if old(State().GroupActive()) then r == Err(GroupOpen) && State() == old(State())
              else State() == old(State().Reset()) && r == Ok(currentStateId)
    {
      if pendingBeforeStateId.Some? {
        return Err(GroupOpen);
      }
      undoStack, redoStack := [], [];
      currentStateId := FreshStateId();
      r := Ok(currentStateId);
    }

    method BeginGroup(view: ViewState) returns (error: Option<HistoryError>)
      modifies this
      ensures match old(State()).BeginGroup(view)
              case Ok(j) => error == None && State() == j
              case Err(e) => error == Some(e) && State() == old(State())
    {
      if pendingBeforeStateId.Some? {
        return Some(GroupOpen);
      }
      if currentStateId == 0 {
        return Some(NotInitialized);
      }
      pendingBeforeStateId := Some(currentStateId);
      pendingBeforeView := Some(view);
      pendingDeltas := [];
      error := None;
    }

    method RecordInsert(offset: nat, text: string) returns (error: Option<HistoryError>)
      modifies this`pendingDeltas
      ensures match old(State()).Record(Delta(Op(Insert, offset, text), Range))
              case Ok(j) => error == None && State() == j
              case Err(e) => error == Some(e) && State() == old(State())
    {
      if pendingBeforeStateId.None? {
        return Some(NoGroup);
      }
      if text == "" {
        return Some(EmptyDelta);
      }
      pendingDeltas := pendingDeltas + [Delta(Op(Insert, offset, text), Range)];
      error := None;
    }

    method RecordDelete(offset: nat, text: string, direction: Direction) returns (error: Option<HistoryError>)
      modifies this`pendingDeltas
      ensures match old(State()).Record(Delta(Op(Delete, offset, text), direction))
              case Ok(j) => error == None && State() == j
              case Err(e) => error == Some(e) && State() == old(State())
    {
      if pendingBeforeStateId.None? {
        return Some(NoGroup);
      }
      if text == "" {
        return Some(EmptyDelta);
      }
      pendingDeltas := pendingDeltas + [Delta(Op(Delete, offset, text), direction)];
      error := None;
    }

    method AbortGroup()
      modifies this
      ensures State() == old(State().AbortGroup())
    {
      pendingDeltas := [];
      pendingBeforeStateId := None;
      pendingBeforeView := None;
    }

    method Trim()
      modifies this`undoStack
      ensures undoStack == Trimmed(old(undoStack), maxGroups, maxPayload)
    {
      TrimCount();
      TrimPayload();
    }

    method TrimCount()
      modifies this`undoStack
      ensures undoStack == DropOverCount(old(undoStack), maxGroups)
    {
      ghost var all, dropped := undoStack, 0;
      while |undoStack| > maxGroups
        invariant dropped <= |all| && undoStack == all[dropped..]
        invariant dropped == 0 || |undoStack| >= maxGroups
      {
        undoStack := undoStack[1..];
        dropped := dropped + 1;
      }
    }

    method TrimPayload()
      modifies this`undoStack
      ensures undoStack == DropOverPayload(old(undoStack), maxPayload)
    {
      var total := Payload(undoStack);
      ghost var all := undoStack;
      while total > maxPayload && |undoStack| > 1
        invariant total == Payload(undoStack)
        invariant DropOverPayload(undoStack, maxPayload) == DropOverPayload(all, maxPayload)
        decreases |undoStack|
      {
        total := total - TextSize(undoStack[0].deltas);
        undoStack := undoStack[1..];
      }
    }

    method Push(group: Group, saved: Option<nat>)
      modifies this`undoStack
      ensures undoStack == Pushed(old(undoStack), group, saved)
    {
      if undoStack != [] {
        var last := |undoStack| - 1;
        match MergedGroup(undoStack[last], group, saved) {
          case Some(merged) => undoStack := undoStack[last := merged];
          case None => undoStack := undoStack + [group];
        }
      } else {
        undoStack := undoStack + [group];
      }
    }

    method EndGroup(view: ViewState, saved: Option<nat>) returns (r: Result<nat, HistoryError>)
      requires State().Usable()
      modifies this
      ensures if !old(State().GroupActive()) then r == Err(NoGroup) && State() == old(State())
              else State() == old(State()).EndGroup(view, saved) && r == Ok(currentStateId)
    {
      hide Pushed, Trimmed, MergedGroup;
      if pendingBeforeStateId.None? {
        return Err(NoGroup);
      }
      var beforeId, beforeView, deltas := pendingBeforeStateId.value, pendingBeforeView.value, pendingDeltas;
      AbortGroup();
      if deltas == [] {
        return Ok(currentStateId);
      }
      var afterId := FreshStateId();
      var group := Group(deltas, beforeId, afterId, beforeView, view);
      Push(group, saved);
      redoStack := [];
      currentStateId := afterId;
      Trim();
      r := Ok(afterId);
    }

    method Undo() returns (r: Result<Reply, HistoryError>)
      modifies this
      ensures if old(State().GroupActive()) then r == Err(GroupOpen) && State() == old(State())
              else (State(), r) == (old(State().Undo().0), Ok(old(State().Undo().1)))
    {
      if pendingBeforeStateId.Some? {
        return Err(GroupOpen);
      }
      if undoStack == [] {
        return Ok(Nothing);
      }
      var group := undoStack[|undoStack| - 1];
      undoStack := undoStack[..|undoStack| - 1];
      if group.afterId != currentStateId {
        return Ok(Broken);
      }
      redoStack := redoStack + [group];
      currentStateId := group.beforeId;
      r := Ok(Replay(Plan(UndoOps(group.deltas), group.beforeId, group.beforeView)));
    }

    method Redo() returns (r: Result<Reply, HistoryError>)
      modifies this
      ensures if old(State().GroupActive()) then r == Err(GroupOpen) && State() == old(State())
              else (State(), r) == (old(State().Redo().0), Ok(old(State().Redo().1)))
    {
      if pendingBeforeStateId.Some? {
        return Err(GroupOpen);
      }
      if redoStack == [] {
        return Ok(Nothing);
      }
      var group := redoStack[|redoStack| - 1];
      redoStack := redoStack[..|redoStack| - 1];
      if group.beforeId != currentStateId {
        return Ok(Broken);
      }
      undoStack := undoStack + [group];
      currentStateId := group.afterId;
      Trim();
      r := Ok(Replay(Plan(RedoOps(group.deltas), group.afterId, group.afterView)));
    }

    method RestoreCheckpoint(checkpoint: Journal)
      modifies this
      ensures State() == old(State()).Restore(checkpoint)
    {
      undoStack, redoStack := checkpoint.undo, checkpoint.redo;
      currentStateId := checkpoint.currentId;
      nextStateId := Max(nextStateId, checkpoint.nextId);
      pendingDeltas := checkpoint.pending;
      pendingBeforeStateId := checkpoint.pendingBeforeId;
      pendingBeforeView := checkpoint.pendingBeforeView;
    }
  }
}
