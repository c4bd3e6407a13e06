/** What the editor's guards buy over a run: line widths stay bounded, and planned edits can be undone. */
module EditorGuards {
  import opened Prelude
  import opened Codec
  import opened DocumentBytes
  import opened DocumentRoundTrip
  import opened Edits
  import opened EditHistory
  import opened DeltaJournal
  import opened Renderability
  import opened WindowGuards
  import opened EditorRun
  import opened EditorSafety

  // --- Undoing a programmatic edit -----------------------------------------------------------

  /** The group that a committed edit closes. */
  function EditGroup(w: World, e: Edit): Group {
    Group(Recorded(e.ops), w.journal.currentId, w.journal.nextId, e.beforeView, e.targetView)
  }

  /** The group will join the one on top of the undo stack. */
  predicate Coalesces(w: World, e: Edit) {
    w.journal.undo != [] && MergedGroup(w.journal.undo[|w.journal.undo| - 1], EditGroup(w, e), w.session.savedId).Some?
  }

  /** What Undo finds on top of the stack after the edit. */
  function TopGroup(w: World, e: Edit): Group {
    if Coalesces(w, e) then MergedGroup(w.journal.undo[|w.journal.undo| - 1], EditGroup(w, e), w.session.savedId).value
    else EditGroup(w, e)
  }

  lemma TopIsOwn(w: World, e: Edit)
    requires !Coalesces(w, e)
    ensures TopGroup(w, e) == EditGroup(w, e)
  {}

  lemma TrimmedKeepsLast(j: Journal, group: Group, view: ViewState, saved: Option<nat>)
    requires Bounded(j) && j.GroupActive() && j.pending != []
    requires group == Group(j.pending, j.pendingBeforeId.value, j.nextId, j.pendingBeforeView.value, view)
    ensures
      var undo, pushed := j.EndGroup(view, saved).undo, Pushed(j.undo, group, saved);
      undo != [] && undo[|undo| - 1] == pushed[|pushed| - 1]
  {
    var k := TrimKeepsLongestTail(Pushed(j.undo, group, saved), j.maxGroups, j.maxPayload);
  }

  lemma PushedTop(w: World, e: Edit)
    ensures var pushed := Pushed(w.journal.undo, EditGroup(w, e), w.session.savedId);
            pushed != [] && pushed[|pushed| - 1] == TopGroup(w, e) && TopGroup(w, e).afterId == w.journal.nextId
  {}

  lemma CurrentIsIssued(w: World)
    requires Inv(w) && w.journal.currentId > 0
    ensures w.journal.currentId < w.journal.nextId
  {}

  lemma CommittedOnTop(w: World, e: Edit)
    requires Inv(w) && Admissible(w, e) && Transact(w.text, e.ops).1 == Applied
    ensures
      var done := ProgrammaticStep(w, e, NoFault);
      && done.text == Progress(w.text, e.ops).0 && !done.journal.GroupActive()
      && done.journal.currentId == w.journal.nextId && w.journal.currentId < w.journal.nextId
      && TopGroup(w, e).afterId == w.journal.nextId && done.journal.undo != []
      && done.journal.undo[|done.journal.undo| - 1] == TopGroup(w, e)
  {
    hide LiveOk, SessionOk, IntentsOk, CommittedOk, GroupsOk, UndoChain, RedoChain, Trimmed, Pushed, TopGroup, Fits;
    var pending := WithPending(w.journal, e);
    var done := ProgrammaticStep(w, e, NoFault);
    assert done.text == Progress(w.text, e.ops).0 && done.journal == pending.EndGroup(e.targetView, w.session.savedId);
    TrimmedKeepsLast(pending, EditGroup(w, e), e.targetView, w.session.savedId);
    PushedTop(w, e);
    CurrentIsIssued(w);
  }

  /** Undo reaches the state before the group on top, with the text that the inverse operations give, or nothing. */
  lemma UndoOfTop(w: World, group: Group)
    requires !w.journal.GroupActive() && w.journal.undo != [] && w.journal.undo[|w.journal.undo| - 1] == group
    requires w.journal.currentId == group.afterId
    ensures
      var undone := ReplayStep(w, false);
      var (u, n) := Progress(w.text, UndoOps(group.deltas));
      if n == |group.deltas| then undone.text == u && undone.journal.currentId == group.beforeId
      else undone.journal.currentId == group.afterId
  {
    assert w.journal.Undo().1 == Replay(Plan(UndoOps(group.deltas), group.beforeId, group.beforeView));
  }

  lemma UndoOfCoalesced(w: World, e: Edit)
    requires Inv(w) && Admissible(w, e) && Transact(w.text, e.ops).1 == Applied && Coalesces(w, e)
    ensures TopGroup(w, e).beforeId == w.journal.undo[|w.journal.undo| - 1].beforeId != w.journal.currentId
    ensures
      var undone := ReplayStep(ProgrammaticStep(w, e, NoFault), false);
      InRange(w.text, e.ops) ==>
        && undone.journal.currentId == TopGroup(w, e).beforeId && TopGroup(w, e).beforeId in w.texts
        && undone.text == w.texts[TopGroup(w, e).beforeId]
  {
    var top := w.journal.undo[|w.journal.undo| - 1];
    assert GroupOk(top, w.texts);
    if InRange(w.text, e.ops) {
      var done := ProgrammaticStep(w, e, NoFault);
      ProgrammaticKeeps(w, e, NoFault);
      CommittedOnTop(w, e);
      ReplayShowsTarget(done, false);
    }
  }

  /**
    A committed programmatic edit is taken back by the next Undo exactly when its insertions were in range
    and it did not join the group before it: the buffer clamps an insertion past the end but the journal
    does not.  An edit that did join is taken back together with that group.
   */
  lemma UndoTakesBackExactlyInRange(w: World, e: Edit)
    requires Inv(w) && Admissible(w, e) && Transact(w.text, e.ops).1 == Applied
    ensures
      var done := ProgrammaticStep(w, e, NoFault);
      var undone := ReplayStep(done, false);
      && done.journal.undo != [] && done.journal.currentId == w.journal.nextId
      && (undone.journal.currentId == w.journal.currentId <==> InRange(w.text, e.ops) && !Coalesces(w, e))
      && (InRange(w.text, e.ops) && !Coalesces(w, e) ==> undone.text == w.text)
      && (InRange(w.text, e.ops) && Coalesces(w, e) ==>
            var before := w.journal.undo[|w.journal.undo| - 1].beforeId;
            undone.journal.currentId == before && before in w.texts && undone.text == w.texts[before])
  {
    hide Inv, Admissible, Coalesces, ProgrammaticStep, ReplayStep, InRange;
    CommittedOnTop(w, e);
    UndoOfTop(ProgrammaticStep(w, e, NoFault), TopGroup(w, e));
    if Coalesces(w, e) {
      UndoOfCoalesced(w, e);
    } else {
      TopIsOwn(w, e);
      RecordedOps(e.ops);
      InverseExact(w.text, e.ops);
    }
  }

  /** A document into which one group of typing has gone. */
  function Typed(inserted: string): World {
    var view := ViewState(0, 0);
    EndNativeStep(Native(OpenNewStep(START, "", true, false).(journal := EMPTY.Reset().BeginGroup(view).value),
                         Op(Insert, 0, inserted), Range), view)
  }

  lemma TypedIsReached(inserted: string) returns (states: seq<World>, actions: seq<Action>)
    ensures IsRun(states, actions) && |actions| == 4 && states[4] == Typed(inserted)
  {
    hide Inv, EndNativeStep;
    var view := ViewState(0, 0);
    actions := [OpenNew("", true, false), BeginNative(view), TypeText(0, inserted), EndNative(view)];
    var blank := Step(START, actions[0]);
    var begun := Step(blank, actions[1]);
    var typed := Step(begun, actions[2]);
    states := [START, blank, begun, typed, Step(typed, actions[3])];
  }

  lemma TypedMeans(inserted: string)
    requires inserted != ""
    ensures
      var w, view := Typed(inserted), ViewState(0, 0);
      && w.text == inserted && w.journal.undo == [Group([Delta(Op(Insert, 0, inserted), Range)], 1, 2, view, view)]
      && !w.journal.GroupActive() && w.journal.currentId == 2 && w.journal.maxPayload == MAX_PAYLOAD
      && w.session.currentId == Some(2) && w.session.savedId == Some(1)
      && 1 in w.texts && w.texts[1] == ""
  {
    hide Trimmed;
    var view, typed := ViewState(0, 0), Delta(Op(Insert, 0, inserted), Range);
    assert ""[..0] + inserted + ""[0..] == inserted && [] + [typed] == [typed];
    TrimOfFitting([Group([typed], 1, 2, view, view)], MAX_GROUPS, MAX_PAYLOAD);
  }

  lemma JoinsTyped(w: World, e: Edit)
    requires w == Typed("a") && e == Edit([Op(Insert, 1, "b")], 2, "ab", ViewState(0, 0), ViewState(0, 0))
    ensures Admissible(w, e) && Coalesces(w, e)
  {
    hide Typed;
    TypedMeans("a");
    assert OpsSize([Op(Insert, 1, "b")]) == 1;
    assert !IsSpace("a"[0]) && !IsSpace("b"[0]);
    assert ClassOf("a") == ClassOf("b") == Some(Word);
  }

  /** An edit that joins: "a" is typed into a new document, a planned "b" follows it, and Undo takes both back. */
  lemma JoinedEditGoesBackWithTyping()
    ensures
      var w := Typed("a");
      var e := Edit([Op(Insert, 1, "b")], 2, "ab", ViewState(0, 0), ViewState(0, 0));
      var done := ProgrammaticStep(w, e, NoFault);
      && w.text == "a" && Admissible(w, e) && InRange(w.text, e.ops) && Coalesces(w, e)
      && done.text == "ab" && ReplayStep(done, false).text == ""
  {
    hide Inv, Typed, Coalesces, Admissible, EndNativeStep;
    var w, op := Typed("a"), Op(Insert, 1, "b");
    var e := Edit([op], 2, "ab", ViewState(0, 0), ViewState(0, 0));
    TypedMeans("a");
    var states, actions := TypedIsReached("a");
    RunKeeps(states, actions, 4);
    assert "a"[..1] + "b" + "a"[1..] == "ab";
    ProgressOne("a", op);
    JoinsTyped(w, e);
    CommittedOnTop(w, e);
    UndoTakesBackExactlyInRange(w, e);
  }

  /** An insertion past the end of an empty new document: applied by the buffer, lost to Undo. */
  lemma OutOfRangeEditIsLostToUndo()
    ensures
      var w := OpenNewStep(START, "", true, false);
      var e := Edit([Op(Insert, 5, "ab")], w.journal.currentId, "ab", ViewState(0, 0), ViewState(2, 2));
      var done := ProgrammaticStep(w, e, NoFault);
      done.text == "ab" && done.journal.undo != [] && ReplayStep(done, false).journal.currentId != w.journal.currentId
  {
    var w := OpenNewStep(START, "", true, false);
    var op := Op(Insert, 5, "ab");
    var e := Edit([op], w.journal.currentId, "ab", ViewState(0, 0), ViewState(2, 2));
    StartInv();
    OpenNewKeeps(START, "", true, false);
    assert ""[..0] + "ab" + ""[0..] == "ab";
    assert Apply("", op) == Some("ab");
    ProgressOne("", op);
    assert OpsSize([op]) == 2;
    assert w.journal.undo == [] && !Coalesces(w, e);
    UndoTakesBackExactlyInRange(w, e);
  }

  // --- Line widths ---------------------------------------------------------------------------

  ghost predicate Narrow(t: string) { Renderable(t, MAX_LINE_CHARS) }

  ghost predicate GroupsNarrow(groups: seq<Group>, texts: map<nat, string>) {
    forall i | 0 <= i < |groups| ::
      && groups[i].beforeId in texts && Narrow(texts[groups[i].beforeId])
      && groups[i].afterId in texts && Narrow(texts[groups[i].afterId])
  }

  /** The live text and every text that Undo or Redo can bring back are within the width budget. */
  ghost predicate WidthOk(w: World) {
    && Narrow(w.text) && GroupsNarrow(w.journal.undo, w.texts) && GroupsNarrow(w.journal.redo, w.texts)
    && (w.journal.currentId in w.texts ==> Narrow(w.texts[w.journal.currentId]))
  }

  /** The window lets the text pass, and its verdict is sound there (WindowGuards.InsertVerdict). */
  ghost predicate TypingGuarded(t: string, offset: nat, inserted: string)
    requires offset <= |t|
  {
    exists pairs ::
      InsertPasses(t, offset, inserted, MAX_LINE_CHARS, pairs) && InsertReads(t, offset, MAX_LINE_CHARS, pairs)
  }

  ghost predicate ErasingGuarded(t: string, from: nat, end: nat)
    requires from <= end <= |t|
  {
    exists pairs :: DeletePasses(t, from, end, MAX_LINE_CHARS, pairs) && DeleteReads(t, from, end, pairs)
  }

  /**
    What the guards of the editor let pass, the window's for typing where they read the whole LF line, and the
    full check for a whole text.
   */
  ghost predicate Guarded(w: World, a: Action) {
    match a
    case TypeText(offset, inserted) => offset <= |w.text| ==> TypingGuarded(w.text, offset, inserted)
    case EraseText(offset, count, _) => offset + count <= |w.text| ==> ErasingGuarded(w.text, offset, offset + count)
    case OpenNew(t, _, _) => Narrow(t)
    case OpenFile(raw, _, _, _) => Load(raw).Ok? ==> Narrow(Load(raw).value.text)
    case Programmatic(e, _) => e.sourceId in w.texts ==> Replays(w.texts[e.sourceId], e.ops, e.finalText)
    case _ => true
  }

  /** A native edit changes at most the buffer and the edits recorded in the open group. */
  lemma NativeWidth(w: World, op: Op, direction: Direction)
    requires WidthOk(w) && (Apply(w.text, op).Some? ==> Narrow(Apply(w.text, op).value))
    ensures WidthOk(Native(w, op, direction))
  {
    var w' := Native(w, op, direction);
    assert w'.journal.undo == w.journal.undo && w'.journal.redo == w.journal.redo && w'.texts == w.texts;
  }

  lemma WidthOfText(w: World)
    requires WidthOk(w)
    ensures Renderable(w.text, MAX_LINE_CHARS)
  {}

  lemma TypeWidth(w: World, offset: nat, inserted: string)
    requires WidthOk(w) && offset <= |w.text| && TypingGuarded(w.text, offset, inserted)
    ensures WidthOk(Native(w, Op(Insert, offset, inserted), Range))
  {
    hide InsertPasses, InsertReads, WidthOk, Renderable;
    WidthOfText(w);
    var pairs :| InsertPasses(w.text, offset, inserted, MAX_LINE_CHARS, pairs) &&
                 InsertReads(w.text, offset, MAX_LINE_CHARS, pairs);
    ReadIsSound(w.text, offset, inserted, MAX_LINE_CHARS, pairs);
    NativeWidth(w, Op(Insert, offset, inserted), Range);
  }

  lemma EraseWidth(w: World, offset: nat, count: nat, direction: Direction)
    requires WidthOk(w) && offset + count <= |w.text| && ErasingGuarded(w.text, offset, offset + count)
    ensures WidthOk(Native(w, Op(Delete, offset, w.text[offset..offset + count]), direction))
  {
    hide DeletePasses, DeleteReads, WidthOk, Renderable;
    WidthOfText(w);
    var pairs :| DeletePasses(w.text, offset, offset + count, MAX_LINE_CHARS, pairs) &&
                 DeleteReads(w.text, offset, offset + count, pairs);
    DeleteVerdict(w.text, offset, offset + count, MAX_LINE_CHARS, pairs);
    NativeWidth(w, Op(Delete, offset, w.text[offset..offset + count]), direction);
  }

  lemma GroupsStayNarrow(groups: seq<Group>, texts: map<nat, string>, texts': map<nat, string>)
    requires GroupsNarrow(groups, texts) && forall id | id in texts :: id in texts' && texts'[id] == texts[id]
    ensures GroupsNarrow(groups, texts')
  {
  }

  lemma PushedNarrow(undo: seq<Group>, group: Group, saved: Option<nat>, texts: map<nat, string>)
    requires GroupsNarrow(undo, texts) && GroupsNarrow([group], texts)
    ensures GroupsNarrow(Pushed(undo, group, saved), texts)
  {
    hide Narrow;
    assert [group][0] == group;
  }

  lemma TailNarrow(groups: seq<Group>, texts: map<nat, string>, k: nat)
    requires GroupsNarrow(groups, texts) && k <= |groups|
    ensures GroupsNarrow(groups[k..], texts)
  {
    hide Narrow;
    forall i | 0 <= i < |groups| - k ensures groups[k..][i] == groups[k + i] {}
  }

  lemma OneNarrow(group: Group, texts: map<nat, string>, live: string)
    requires group.beforeId in texts && Narrow(texts[group.beforeId]) && Narrow(live) && group.beforeId != group.afterId
    ensures GroupsNarrow([group], texts[group.afterId := live])
  {
    hide Narrow;
  }

  lemma EndGroupNarrow(j: Journal, texts: map<nat, string>, live: string, view: ViewState, saved: Option<nat>)
    requires Sound(j, texts) && j.GroupActive() && j.pending != [] && GroupsNarrow(j.undo, texts)
    requires Narrow(live) && Narrow(texts[j.currentId])
    ensures GroupsNarrow(j.EndGroup(view, saved).undo, texts[j.nextId := live])
  {
    hide Narrow, GroupsNarrow, GroupsOk, UndoChain, RedoChain, Pushed, Trimmed, Fits;
    var group, k := EndGroupStack(j, view, saved);
    var texts' := texts[j.nextId := live];
    GroupsStayNarrow(j.undo, texts, texts');
    OneNarrow(group, texts, live);
    PushedNarrow(j.undo, group, saved, texts');
    TailNarrow(Pushed(j.undo, group, saved), texts', k);
  }

  lemma EndNativeWidth(w: World, view: ViewState)
    requires Inv(w) && WidthOk(w)
    ensures WidthOk(EndNativeStep(w, view))
  {
    if w.journal.GroupActive() && w.journal.pending != [] {
      EndGroupNarrow(w.journal, w.texts, w.text, view, w.session.savedId);
    }
  }

  lemma MoveGroupNarrow(from: seq<Group>, to: seq<Group>, texts: map<nat, string>)
    requires from != [] && GroupsNarrow(from, texts) && GroupsNarrow(to, texts)
    ensures GroupsNarrow(from[..|from| - 1], texts) && GroupsNarrow(to + [from[|from| - 1]], texts)
  {
  }

  lemma RedoWidth(w: World)
    requires Inv(w) && WidthOk(w) && !w.journal.GroupActive() && w.journal.redo != []
    ensures WidthOk(ReplayStep(w, true))
  {
    var j := w.journal;
    ReplayShowsTarget(w, true);
    MoveGroupNarrow(j.redo, j.undo, w.texts);
    RedoKeepsBound(j);
    assert GroupOk(j.redo[|j.redo| - 1], w.texts);
    assert j.Redo().0.currentId == j.redo[|j.redo| - 1].afterId;
  }

  lemma UndoWidth(w: World)
    requires Inv(w) && WidthOk(w) && !w.journal.GroupActive() && w.journal.undo != []
    ensures WidthOk(ReplayStep(w, false))
  {
    var j := w.journal;
    ReplayShowsTarget(w, false);
    MoveGroupNarrow(j.undo, j.redo, w.texts);
    assert GroupOk(j.undo[|j.undo| - 1], w.texts);
    assert j.Undo().0.currentId == j.undo[|j.undo| - 1].beforeId;
  }

  lemma ReplayWidth(w: World, redo: bool)
    requires Inv(w) && WidthOk(w)
    ensures WidthOk(ReplayStep(w, redo))
  {
    if !w.journal.GroupActive() && redo && w.journal.redo != [] { RedoWidth(w); }
    if !w.journal.GroupActive() && !redo && w.journal.undo != [] { UndoWidth(w); }
  }

  lemma ProgrammaticWidth(w: World, e: Edit, fault: Fault)
    requires Inv(w) && WidthOk(w) && Allowed(w, Programmatic(e, fault)) && Guarded(w, Programmatic(e, fault))
    ensures WidthOk(ProgrammaticStep(w, e, fault))
  {
    if Admissible(w, e) && fault == NoFault {
      var pending := WithPending(w.journal, e);
      RecordedOps(e.ops);
      assert Transact(w.text, e.ops) == (e.finalText, Applied);
      EndGroupNarrow(pending, w.texts, e.finalText, e.targetView, w.session.savedId);
    } else {
      FailedEditLeavesNoTrace(w, e, fault);
    }
  }

  /** Either nothing but the ID counter moved, or a narrow text was installed with empty stacks. */
  ghost predicate Installed(w: World, w': World) {
    || w' == w
    || (w' == w.(journal := w'.journal) && w'.journal == w.journal.(nextId := w'.journal.nextId))
    || (Narrow(w'.text) && w'.journal.undo == [] && w'.journal.redo == []
        && (w'.journal.currentId in w'.texts ==> w'.texts[w'.journal.currentId] == w'.text))
  }

  lemma OpenFileInstalls(w: World, raw: seq<byte>, path: string, stamp: nat, fails: bool)
    requires Load(raw).Ok? ==> Narrow(Load(raw).value.text)
    ensures Installed(w, OpenFileStep(w, raw, path, stamp, fails))
  {
    hide Renderable, Load;
  }

  lemma RecoverInstalls(w: World, raw: seq<byte>, path: string, stamp: nat, t: string, p: Profile, fails: bool)
    ensures Installed(w, RecoverNamedStep(w, raw, path, stamp, t, p, fails))
  {
    hide Renderable, Load;
  }

  lemma OpenWidth(w: World, a: Action)
    requires Inv(w) && Guarded(w, a)
    requires a.OpenNew? || a.OpenFile? || a.RecoverNamed? || a.RecoverUnbound?
    ensures Installed(w, Step(w, a))
  {
    hide Renderable, LiveOk, SessionOk, IntentsOk, CommittedOk, GroupsOk, Load;
    if a.OpenFile? { OpenFileInstalls(w, a.raw, a.path, a.stamp, a.fails); }
    if a.RecoverNamed? { RecoverInstalls(w, a.raw, a.path, a.stamp, a.recovered, a.profile, a.fails); }
  }

  lemma InstalledWidth(w: World, w': World)
    requires WidthOk(w) && Installed(w, w')
    ensures WidthOk(w')
  {
  }

  predicate ShowsSame(a: Action) {
    a.BeginNative? || a.ChooseProfile? || a.PrepareSave? || a.CaptureSave? || a.CommitSave?
  }

  /** The other steps change neither the buffer nor the stacks. */
  lemma QuietWidth(w: World, a: Action)
    requires WidthOk(w) && ShowsSame(a) && w.journal.Usable()
    ensures WidthOk(Step(w, a))
  {
    var w' := Step(w, a);
    assert w'.text == w.text && w'.texts == w.texts;
    assert w'.journal.(pending := [], pendingBeforeId := None, pendingBeforeView := None)
        == w.journal.(pending := [], pendingBeforeId := None, pendingBeforeView := None);
  }

  lemma NativeStepWidth(w: World, a: Action)
    requires WidthOk(w) && Guarded(w, a) && w.journal.Usable() && (a.TypeText? || a.EraseText?)
    ensures WidthOk(Step(w, a))
  {
    hide WidthOk, TypingGuarded, ErasingGuarded, Native;
    if a.TypeText? && a.offset <= |w.text| { TypeWidth(w, a.offset, a.inserted); }
    if a.EraseText? && a.offset + a.count <= |w.text| { EraseWidth(w, a.offset, a.count, a.direction); }
  }

  lemma StepWidth(w: World, a: Action)
    requires w.journal.Usable() && Inv(w) && WidthOk(w) && Allowed(w, a) && Guarded(w, a)
    ensures WidthOk(Step(w, a))
  {
    hide Inv, WidthOk, Allowed, Guarded, Installed;
    if a.TypeText? || a.EraseText? {
      NativeStepWidth(w, a);
    } else if a.EndNative? {
      EndNativeWidth(w, a.view);
    } else if a.UndoStep? || a.RedoStep? {
      ReplayWidth(w, a.RedoStep?);
    } else if a.Programmatic? {
      ProgrammaticWidth(w, a.edit, a.fault);
    } else if ShowsSame(a) {
      QuietWidth(w, a);
    } else {
      OpenWidth(w, a);
      InstalledWidth(w, Step(w, a));
    }
  }

  lemma StartIsNarrow()
    ensures WidthOk(START)
  {}

  /**
    With the window's guards before every typed edit where they read the whole line, every opened text checked and
    every plan honest about its result, no run ever shows a line over the budget, not even through Undo and Redo.
   */
  lemma {:induction false} RunStaysRenderable(states: seq<World>, actions: seq<Action>, k: nat)
    requires IsRun(states, actions) && k < |states|
    requires forall i | 0 <= i < k :: Guarded(states[i], actions[i])
    ensures WidthOk(states[k])
  {
    hide Inv, WidthOk, Allowed, Guarded, Step;
    if k == 0 {
      StartIsNarrow();
    } else {
      RunStaysRenderable(states, actions, k - 1);
      RunStep(states, actions, k - 1);
      StepWidth(states[k - 1], actions[k - 1]);
    }
  }

  /** Every text without CR and NUL that does not start with U+FEFF can be read from a file. */
  lemma FileOf(t: string) returns (raw: seq<byte>)
    requires '\r' !in t && '\0' !in t && (t != "" ==> t[0] != BOM_CHAR)
    ensures Load(raw).Ok? && Load(raw).value.text == t
  {
    var profile := Profile(Utf8, NoBom, LF, false);
    raw := Serialize(t, profile, true).value;
    hide Load;
    SerializeThenLoad(t, profile, true);
  }

  /**
    Where the window does not read the whole line, a run can: a file of one paragraph separator is opened and a full
    line typed behind it, with a guard that lets it pass.
   */
  lemma ParagraphBreaksBudget(pairs: set<nat>) returns (states: seq<World>, actions: seq<Action>)
    ensures IsRun(states, actions) && |actions| == 3
    ensures forall i | 0 <= i < 2 :: Guarded(states[i], actions[i])
    ensures actions[2] == TypeText(1, Filler(MAX_LINE_CHARS)) && |states[2].text| == 1
    ensures InsertPasses(states[2].text, 1, Filler(MAX_LINE_CHARS), MAX_LINE_CHARS, pairs)
    ensures !Narrow(states[3].text)
  {
    hide Load, Serialize, Inv, InsertPasses, Renderable;
    var t, full := [PARAGRAPH_SEPARATOR], Filler(MAX_LINE_CHARS);
    GuardOverlooksParagraph(MAX_LINE_CHARS, pairs);
    var raw := FileOf(t);
    actions := [OpenFile(raw, "", 0, false), BeginNative(ViewState(1, 1)), TypeText(1, full)];
    var shown := Step(START, actions[0]);
    assert shown.text == t && shown.journal.Usable() && !shown.journal.GroupActive() && shown.journal.currentId == 1;
    var begun := Step(shown, actions[1]);
    assert begun.text == t && begun.journal.GroupActive();
    states := [START, shown, begun, Step(begun, actions[2])];
  }
}
