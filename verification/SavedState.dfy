/** How long the saved state stays within reach of Undo and Redo. */
module SavedState {
  import opened Prelude
  import opened Edits
  import opened EditHistory
  import opened DeltaJournal
  import opened EditorRun
  import opened EditorSafety
  import opened EditorGuards

  ghost predicate OnRedoChain(redo: seq<Group>, id: nat) {
    exists i :: 0 <= i < |redo| && redo[i].afterId == id
  }

  /** Some number of Undo or Redo steps leads to the state. */
  ghost predicate InReach(j: Journal, id: nat) {
    OnUndoChain(j.undo, j.currentId, id) || OnRedoChain(j.redo, id)
  }

  lemma UndoKeepsReach(j: Journal, id: nat)
    requires !j.GroupActive() && UndoChain(j.undo, j.currentId) && InReach(j, id)
    ensures InReach(j.Undo().0, id)
  {
    if j.undo != [] {
      var g, k := j.undo[|j.undo| - 1], j.Undo().0;
      assert k.redo[|j.redo|] == g;
      if OnRedoChain(j.redo, id) {
        var i :| 0 <= i < |j.redo| && j.redo[i].afterId == id;
        assert k.redo[i].afterId == id;
      } else if id != j.currentId {
        var i :| 0 <= i < |j.undo| && j.undo[i].beforeId == id;
        assert i < |j.undo| - 1 ==> k.undo[i].beforeId == id;
      }
    }
  }

  lemma RedoKeepsReach(j: Journal, id: nat)
    requires !j.GroupActive() && Bounded(j) && RedoChain(j.redo, j.currentId) && InReach(j, id)
    ensures InReach(j.Redo().0, id)
  {
    if j.redo != [] {
      var g, k := j.redo[|j.redo| - 1], j.Redo().0;
      RedoKeepsBound(j);
      assert k.undo[|j.undo|] == g;
      if OnUndoChain(j.undo, j.currentId, id) {
        if id != j.currentId {
          var i :| 0 <= i < |j.undo| && j.undo[i].beforeId == id;
          assert k.undo[i].beforeId == id;
        }
      } else {
        var i :| 0 <= i < |j.redo| && j.redo[i].afterId == id;
        assert i < |j.redo| - 1 ==> k.redo[i].afterId == id;
      }
    }
  }

  /** A state behind a committed group stays in reach, unless the stack is then over its limits. */
  lemma CommitKeepsReach(j: Journal, view: ViewState, group: Group, id: nat)
    requires Bounded(j) && j.GroupActive() && j.pending != [] && UndoChain(j.undo, j.currentId)
    requires group == Group(j.pending, j.currentId, j.nextId, j.pendingBeforeView.value, view)
    requires j.pendingBeforeId == Some(j.currentId) && OnUndoChain(j.undo, j.currentId, id)
    requires Fits(Pushed(j.undo, group, Some(id)), j.maxGroups, j.maxPayload)
    ensures InReach(j.EndGroup(view, Some(id)), id)
  {
    CoalescingKeepsSaved(j.undo, j.currentId, group, id);
    TrimOfFitting(Pushed(j.undo, group, Some(id)), j.maxGroups, j.maxPayload);
  }

  // --- Getting there -------------------------------------------------------------------------

  /** `n` steps of Undo, or of Redo. */
  function Replayed(w: World, redo: bool, n: nat): World {
    if n == 0 then w else ReplayStep(Replayed(w, redo, n - 1), redo)
  }

  function Stack(j: Journal, redo: bool): seq<Group> {
    if redo then j.redo else j.undo
  }

  /** The state that `n` steps lead to. */
  function Target(j: Journal, redo: bool, n: nat): nat
    requires n <= |Stack(j, redo)|
  {
    if n == 0 then j.currentId else if redo then j.redo[|j.redo| - n].afterId else j.undo[|j.undo| - n].beforeId
  }

  lemma ReplayPops(w: World, redo: bool)
    requires Inv(w) && !w.journal.GroupActive() && Stack(w.journal, redo) != []
    ensures
      var (w', groups) := (ReplayStep(w, redo), Stack(w.journal, redo));
      && Inv(w') && w'.texts == w.texts && !w'.journal.GroupActive()
      && Stack(w'.journal, redo) == groups[..|groups| - 1] && w'.journal.currentId == Target(w.journal, redo, 1)
      && w'.journal.currentId in w.texts && w'.text == w.texts[w'.journal.currentId]
  {
    hide LiveOk, SessionOk, IntentsOk, CommittedOk, GroupsOk, ReplayStep, Trimmed;
    ReplayKeeps(w, redo);
    ReplayShowsTarget(w, redo);
  }

  /** Each step shows the next state of the chain with the text that was recorded for it. */
  lemma {:induction false} StepsShowChain(w: World, redo: bool, n: nat)
    requires Inv(w) && !w.journal.GroupActive() && n <= |Stack(w.journal, redo)|
    ensures
      var (w', groups) := (Replayed(w, redo, n), Stack(w.journal, redo));
      && Inv(w') && w'.texts == w.texts && !w'.journal.GroupActive()
      && Stack(w'.journal, redo) == groups[..|groups| - n] && w'.journal.currentId == Target(w.journal, redo, n)
      && (n > 0 ==> w'.journal.currentId in w.texts && w'.text == w.texts[w'.journal.currentId])
  {
    hide Inv, ReplayStep;
    if n == 0 {
    } else {
      StepsShowChain(w, redo, n - 1);
      ReplayPops(Replayed(w, redo, n - 1), redo);
    }
  }

  lemma TargetIsInReach(j: Journal, redo: bool, n: nat)
    requires n <= |Stack(j, redo)|
    ensures InReach(j, Target(j, redo, n))
  {}

  lemma ReachIsTarget(j: Journal, id: nat) returns (redo: bool, n: nat)
    requires InReach(j, id)
    ensures n <= |Stack(j, redo)| && Target(j, redo, n) == id
  {
    if id == j.currentId {
      redo, n := false, 0;
    } else if OnRedoChain(j.redo, id) {
      var i :| 0 <= i < |j.redo| && j.redo[i].afterId == id;
      redo, n := true, |j.redo| - i;
    } else {
      var i :| 0 <= i < |j.undo| && j.undo[i].beforeId == id;
      redo, n := false, |j.undo| - i;
    }
  }

  /** `n` Undo or Redo steps show the state, with the text recorded for it. */
  ghost predicate ShownAfter(w: World, redo: bool, n: nat, id: nat) {
    var w' := Replayed(w, redo, n);
    w'.journal.currentId == id && id in w.texts && w'.text == w.texts[id]
  }

  lemma TargetIsShown(w: World, redo: bool, n: nat)
    requires Inv(w) && !w.journal.GroupActive() && w.journal.currentId > 0 && n <= |Stack(w.journal, redo)|
    ensures ShownAfter(w, redo, n, Target(w.journal, redo, n))
  {
    StepsShowChain(w, redo, n);
  }

  /** Exactly the states in reach are shown after some number of Undo or Redo steps, with their recorded text. */
  lemma InReachIsShown(w: World, id: nat)
    requires Inv(w) && !w.journal.GroupActive() && w.journal.currentId > 0
    ensures InReach(w.journal, id) <==>
              exists redo: bool, n: nat :: n <= |Stack(w.journal, redo)| && ShownAfter(w, redo, n, id)
  {
    hide Inv, InReach, Target;
    if InReach(w.journal, id) {
      var redo, n := ReachIsTarget(w.journal, id);
      TargetIsShown(w, redo, n);
    }
    forall redo: bool, n: nat | n <= |Stack(w.journal, redo)| && ShownAfter(w, redo, n, id)
      ensures InReach(w.journal, id)
    {
      TargetIsShown(w, redo, n);
      TargetIsInReach(w.journal, redo, n);
    }
  }

  // --- Runs ----------------------------------------------------------------------------------

  predicate Installs(a: Action) {
    a.OpenNew? || a.OpenFile? || a.RecoverNamed? || a.RecoverUnbound?
  }

  /** The group that the action closes, if it closes one. */
  function Closing(w: World, a: Action): Option<Group>
    requires w.journal.Usable()
  {
    match a
    case EndNative(view) =>
      if w.journal.GroupActive() && w.journal.pending != [] then
        Some(Group(w.journal.pending, w.journal.currentId, w.journal.nextId, w.journal.pendingBeforeView.value, view))
      else None
    case Programmatic(e, _) => Some(EditGroup(w, e))
    case _ => None
  }

  /** The saved state is ahead of the current one when a group is closed, or the stack grows over its limits. */
  ghost predicate Abandons(w: World, a: Action, id: nat)
    requires w.journal.Usable()
  {
    var group := Closing(w, a);
    group.Some? &&
    (!OnUndoChain(w.journal.undo, w.journal.currentId, id) ||
     !Fits(Pushed(w.journal.undo, group.value, Some(id)), w.journal.maxGroups, w.journal.maxPayload))
  }

  lemma SameStacksKeepReach(w: World, w': World, id: nat)
    requires InReach(w.journal, id) && w'.journal.undo == w.journal.undo && w'.journal.redo == w.journal.redo
    requires w'.journal.currentId == w.journal.currentId
    ensures InReach(w'.journal, id)
  {}

  lemma ReplayKeepsReach(w: World, redo: bool, id: nat)
    requires Inv(w) && InReach(w.journal, id)
    ensures InReach(ReplayStep(w, redo).journal, id)
  {
    if !w.journal.GroupActive() && (if redo then w.journal.redo else w.journal.undo) != [] {
      ReplayShowsTarget(w, redo);
      if redo { RedoKeepsReach(w.journal, id); } else { UndoKeepsReach(w.journal, id); }
    }
  }

  lemma EndNativeKeepsReach(w: World, view: ViewState, id: nat)
    requires Inv(w) && InReach(w.journal, id) && w.session.savedId == Some(id) && !Abandons(w, EndNative(view), id)
    ensures InReach(EndNativeStep(w, view).journal, id)
  {
    if Closing(w, EndNative(view)).Some? {
      CommitKeepsReach(w.journal, view, Closing(w, EndNative(view)).value, id);
    }
  }

  lemma ProgrammaticKeepsReach(w: World, e: Edit, fault: Fault, id: nat)
    requires Inv(w) && Allowed(w, Programmatic(e, fault)) && InReach(w.journal, id)
    requires w.session.savedId == Some(id) && !Abandons(w, Programmatic(e, fault), id)
    ensures InReach(ProgrammaticStep(w, e, fault).journal, id)
  {
    if Admissible(w, e) && Transact(w.text, e.ops).1 == Applied && fault == NoFault {
      CommitKeepsReach(WithPending(w.journal, e), e.targetView, EditGroup(w, e), id);
    } else {
      FailedEditLeavesNoTrace(w, e, fault);
      SameStacksKeepReach(w, ProgrammaticStep(w, e, fault), id);
    }
  }

  predicate LeavesHistory(a: Action) {
    || a.BeginNative? || a.TypeText? || a.EraseText? || a.ChooseProfile?
    || a.PrepareSave? || a.CaptureSave? || a.CommitSave?
  }

  lemma HistoryIsLeft(w: World, a: Action)
    requires w.journal.Usable() && LeavesHistory(a)
    ensures var j := Step(w, a).journal;
            j.undo == w.journal.undo && j.redo == w.journal.redo && j.currentId == w.journal.currentId
  {}

  /** What keeps a saved state in reach: every step but installing another document and abandoning it. */
  lemma StepKeepsReach(w: World, a: Action, id: nat)
    requires w.journal.Usable() && Inv(w) && Allowed(w, a) && InReach(w.journal, id) && w.session.savedId == Some(id)
    requires !Installs(a) && !Abandons(w, a, id)
    ensures InReach(Step(w, a).journal, id)
  {
    hide Inv, Allowed, Abandons, InReach, ReplayStep, EndNativeStep, ProgrammaticStep, CommitStep, CaptureStep;
    if a.UndoStep? {
      ReplayKeepsReach(w, false, id);
    } else if a.RedoStep? {
      ReplayKeepsReach(w, true, id);
    } else if a.EndNative? {
      EndNativeKeepsReach(w, a.view, id);
    } else if a.Programmatic? {
      ProgrammaticKeepsReach(w, a.edit, a.fault, id);
    } else {
      HistoryIsLeft(w, a);
      SameStacksKeepReach(w, Step(w, a), id);
    }
  }

  /**
    Over a run in which the saved ID stays the same, the saved state goes out of reach only with another
    document, with a group closed while it lies ahead, or with a group that takes the stack over its limits.
   */
  lemma {:induction false} SavedLeavesReachOnlyBy(states: seq<World>, actions: seq<Action>, i: nat, k: nat, id: nat)
    requires IsRun(states, actions) && i <= k < |states| && InReach(states[i].journal, id)
    requires forall m | i <= m <= k :: states[m].session.savedId == Some(id)
    requires forall m | i <= m < k :: !Installs(actions[m]) && !Abandons(states[m], actions[m], id)
    ensures InReach(states[k].journal, id)
    decreases k - i
  {
    hide Inv, Allowed, Step, InReach, Abandons;
    if i == k {
    } else {
      SavedLeavesReachOnlyBy(states, actions, i, k - 1, id);
      RunStep(states, actions, k - 1);
      StepKeepsReach(states[k - 1], actions[k - 1], id);
    }
  }
}
