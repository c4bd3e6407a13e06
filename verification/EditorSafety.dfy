/** Safety of the editor core over every run: one invariant, and what it means for Saved and for Undo. */
module EditorSafety {
  import opened Prelude
  import opened Codec
  import opened DocumentBytes
  import opened DocumentRoundTrip
  import opened Edits
  import opened EditHistory
  import opened DeltaJournal
  import opened DocumentSessionModel
  import opened Renderability
  import opened EditorRun

  ghost predicate Kept(w: World, w': World) {
    Inv(w') && Extends(w, w')
  }

  lemma IntentsExtend(saves: seq<Intent>, texts: map<nat, string>, texts': map<nat, string>)
    requires IntentsOk(saves, texts) && forall id | id in texts :: id in texts' && texts'[id] == texts[id]
    ensures IntentsOk(saves, texts')
  {
    forall i | 0 <= i < |saves| ensures IntentOk(saves[i], texts') {
      assert IntentOk(saves[i], texts);
    }
  }

  /** The saved baseline is the one it was, or there is none. */
  predicate SameBaseline(w: World, w': World) {
    w'.committed == None ||
    (w'.committed == w.committed && w'.session.savedId == w.session.savedId
     && w'.session.savedProfile == w.session.savedProfile)
  }

  /** Steps that do not touch the saves only have to keep journal, buffer and session together. */
  lemma Assemble(w: World, w': World)
    requires Inv(w) && Extends(w, w') && w'.saves == w.saves && SameBaseline(w, w')
    requires Sound(w'.journal, w'.texts) && LiveOk(w'.text, w'.journal, w'.texts)
    requires SessionOk(w'.session, w'.journal.currentId, w'.texts)
    ensures Kept(w, w')
  {
    IntentsExtend(w.saves, w.texts, w'.texts);
  }

  // --- Native groups -------------------------------------------------------------------------

  lemma {:induction false} RedoOpsAppend(a: seq<Delta>, d: Delta)
    ensures RedoOps(a + [d]) == RedoOps(a) + [d.op]
  {
    if a == [] {
    } else {
      assert (a + [d])[1..] == a[1..] + [d];
      RedoOpsAppend(a[1..], d);
    }
  }

  lemma LeadsOn(deltas: seq<Delta>, d: Delta, t: string, u: string, v: string)
    requires Leads(deltas, t, u) && d.op.text != "" && Apply(u, d.op) == Some(v)
    requires d.op.kind.Insert? ==> d.op.offset <= |u|
    ensures Leads(deltas + [d], t, v)
  {
    RedoOpsAppend(deltas, d);
    ProgressAppend(t, RedoOps(deltas), [d.op]);
    ProgressOne(u, d.op);
    InRangeAppend(t, RedoOps(deltas), [d.op]);
  }

  lemma NativeKeeps(w: World, op: Op, direction: Direction)
    requires Inv(w) && (op.kind.Insert? ==> op.offset <= |w.text|)
    ensures Kept(w, Native(w, op, direction))
  {
    if Apply(w.text, op).Some? && w.journal.GroupActive() && op.text != "" {
      LeadsOn(w.journal.pending, Delta(op, direction), w.texts[w.journal.currentId], w.text, Apply(w.text, op).value);
      var w' := Native(w, op, direction);
      assert w'.journal == w.journal.(pending := w.journal.pending + [Delta(op, direction)]);
      Assemble(w, w');
    } else {
      assert Native(w, op, direction) == w;
    }
  }

  lemma EndNativeAssembles(w: World, view: ViewState)
    requires w.journal.Usable() && Inv(w) && w.journal.GroupActive() && w.journal.pending != []
    requires var j := w.journal.EndGroup(view, w.session.savedId);
             Sound(j, w.texts[w.journal.nextId := w.text]) && j.currentId == w.journal.nextId
             && j.nextId == w.journal.nextId + 1 && !j.GroupActive()
    ensures Kept(w, EndNativeStep(w, view))
  {
    hide Bounded, UndoChain, RedoChain, GroupsOk, Leads, Trimmed, Pushed;
    Assemble(w, EndNativeStep(w, view));
  }

  lemma EndNativeKeeps(w: World, view: ViewState)
    requires Inv(w)
    ensures Kept(w, EndNativeStep(w, view))
  {
    if !w.journal.GroupActive() {
    } else if w.journal.pending == [] {
      Assemble(w, EndNativeStep(w, view));
    } else {
      EndGroupSound(w.journal, w.texts, w.text, view, w.session.savedId);
      EndGroupFields(w.journal, view, w.session.savedId);
      EndNativeAssembles(w, view);
    }
  }

  // --- Undo, Redo and programmatic edits -----------------------------------------------------

  lemma ReplayApplies(w: World, redo: bool, j: Journal, reply: Reply)
    requires Inv(w) && !w.journal.GroupActive() && ReplayLeads(w.journal, w.texts, j, reply)
    requires (j, reply) == if redo then w.journal.Redo() else w.journal.Undo()
    ensures ReplayStep(w, redo)
         == w.(text := w.texts[j.currentId], journal := j, session := w.session.Advance(j.currentId))
  {
    assert Progress(w.text, reply.plan.ops) == (w.texts[j.currentId], |reply.plan.ops|);
    assert Transact(w.text, reply.plan.ops) == (w.texts[j.currentId], Applied);
  }

  /** Undo and Redo never meet a mismatch, and show exactly the text the target state stands for. */
  lemma ReplayShowsTarget(w: World, redo: bool)
    requires Inv(w) && !w.journal.GroupActive()
    requires (if redo then w.journal.redo else w.journal.undo) != []
    ensures
      var j := if redo then w.journal.Redo().0 else w.journal.Undo().0;
      && j.currentId in w.texts
      && ReplayStep(w, redo)
         == w.(text := w.texts[j.currentId], journal := j, session := w.session.Advance(j.currentId))
  {
    if redo {
      RedoLeads(w.journal, w.texts);
      ReplayApplies(w, true, w.journal.Redo().0, w.journal.Redo().1);
    } else {
      UndoLeads(w.journal, w.texts);
      ReplayApplies(w, false, w.journal.Undo().0, w.journal.Undo().1);
    }
  }

  lemma ReplayKeeps(w: World, redo: bool)
    requires Inv(w)
    ensures Kept(w, ReplayStep(w, redo))
  {
    if !w.journal.GroupActive() && (if redo then w.journal.redo else w.journal.undo) != [] {
      ReplayShowsTarget(w, redo);
      if redo { RedoSound(w.journal, w.texts); } else { UndoSound(w.journal, w.texts); }
      Assemble(w, ReplayStep(w, redo));
    }
  }

  lemma {:induction false} RecordedOps(ops: seq<Op>)
    ensures RedoOps(Recorded(ops)) == ops
  {
    if ops == [] {
    } else {
      RecordedOps(ops[1..]);
    }
  }

  lemma ProgrammaticCommitKeeps(w: World, e: Edit, u: string)
    requires Inv(w) && Admissible(w, e) && Replays(w.text, e.ops, u) && InRange(w.text, e.ops)
    ensures
      var j := WithPending(w.journal, e).EndGroup(e.targetView, w.session.savedId);
      Kept(w, w.(text := u, journal := j, session := w.session.Advance(j.currentId),
                 texts := w.texts[j.currentId := u]))
  {
    hide UndoChain, RedoChain, GroupsOk, Fits, Trimmed, Pushed, IntentsOk, CommittedOk;
    RecordedOps(e.ops);
    var pending := WithPending(w.journal, e);
    var j := pending.EndGroup(e.targetView, w.session.savedId);
    EndGroupFields(pending, e.targetView, w.session.savedId);
    EndGroupSound(pending, w.texts, u, e.targetView, w.session.savedId);
    Assemble(w, w.(text := u, journal := j, session := w.session.Advance(j.currentId),
                   texts := w.texts[j.currentId := u]));
  }

  lemma RestoredKeeps(w: World, j: Journal)
    requires Inv(w) && j.maxGroups == w.journal.maxGroups && j.maxPayload == w.journal.maxPayload
    ensures Kept(w, w.(journal := j.Restore(w.journal)))
  {
  }

  /**
    A programmatic edit that fails, at any operation, at the history commit or in the listener, leaves
    text, stacks, current ID and session exactly as before; only the next state ID has moved, if one was issued.
   */
  lemma FailedEditLeavesNoTrace(w: World, e: Edit, fault: Fault)
    requires Inv(w) && Allowed(w, Programmatic(e, fault))
    requires !Admissible(w, e) || Transact(w.text, e.ops).1 != Applied || fault != NoFault
    ensures
      var w' := ProgrammaticStep(w, e, fault);
      && w' == w.(journal := w'.journal) && w'.journal == w.journal.(nextId := w'.journal.nextId)
      && w'.journal.nextId == w.journal.nextId
           + if Admissible(w, e) && Transact(w.text, e.ops).1 == Applied && fault in {AtCommit(true), AtListener} then 1
             else 0
  {
    if Admissible(w, e) {
      TransactionIsAtomic(w.text, e.ops);
      var (u, outcome) := Transact(w.text, e.ops);
      if outcome == Applied {
        InverseExact(w.text, e.ops);
        TransactionIsAtomic(u, Inverse(e.ops));
      }
    }
  }

  lemma ProgrammaticKeeps(w: World, e: Edit, fault: Fault)
    requires Inv(w) && Allowed(w, Programmatic(e, fault))
    ensures Kept(w, ProgrammaticStep(w, e, fault))
  {
    var (u, outcome) := Transact(w.text, e.ops);
    if Admissible(w, e) && outcome == Applied && fault == NoFault {
      TransactionIsAtomic(w.text, e.ops);
      ProgrammaticCommitKeeps(w, e, u);
    } else {
      FailedEditLeavesNoTrace(w, e, fault);
      RestoredKeeps(w, ProgrammaticStep(w, e, fault).journal);
    }
  }

  // --- Opening documents ---------------------------------------------------------------------

  lemma ResetSound(j: Journal, texts: map<nat, string>, t: string)
    requires Sound(j, texts) && !j.GroupActive()
    ensures Sound(j.Reset(), texts[j.nextId := t])
  {
  }

  /** A document installed under a fresh ID, with empty stacks and a session that knows the ID. */
  lemma InstallKeeps(w: World, w': World)
    requires Inv(w) && !w.journal.GroupActive() && w'.saves == w.saves
    requires w'.journal == w.journal.Reset() && w'.texts == w.texts[w.journal.nextId := w'.text]
    requires SessionOk(w'.session, w.journal.nextId, w'.texts) && CommittedOk(w'.session, w'.committed, w'.texts)
    ensures Kept(w, w')
  {
    ResetSound(w.journal, w.texts, w'.text);
    Assemble(w, w'.(committed := None));
  }

  lemma FailedInstallKeeps(w: World, j: Journal)
    requires Inv(w) && !w.journal.GroupActive() && (j == w.journal.Reset() || j == w.journal.Reset().Reset())
    ensures Kept(w, w.(journal := j.Restore(w.journal)))
  {
    Assemble(w, w.(journal := j.Restore(w.journal)));
  }

  lemma OpenNewKeeps(w: World, t: string, clean: bool, fails: bool)
    requires Inv(w)
    ensures Kept(w, OpenNewStep(w, t, clean, fails))
  {
    if w.journal.GroupActive() {
    } else if fails {
      FailedInstallKeeps(w, w.journal.Reset());
    } else {
      InstallKeeps(w, OpenNewStep(w, t, clean, fails));
    }
  }

  /** The baseline of a freshly opened file is the file. */
  lemma OpenedReproduces(raw: seq<byte>)
    requires Load(raw).Ok?
    ensures var d := Load(raw).value;
      && Supported(ProfileFor(Some(d.meta)))
      && (!d.meta.eol.mixed ==> Serialize(d.text, ProfileFor(Some(d.meta)), true) == Ok(raw))
  {
    if !Load(raw).value.meta.eol.mixed { ContentNeutral(raw); }
  }

  lemma OpenFileKeeps(w: World, raw: seq<byte>, path: string, stamp: nat, fails: bool)
    requires Inv(w)
    ensures Kept(w, OpenFileStep(w, raw, path, stamp, fails))
  {
    if Load(raw).Err? || w.journal.GroupActive() {
    } else if fails {
      FailedInstallKeeps(w, w.journal.Reset());
    } else {
      OpenedReproduces(raw);
      InstallKeeps(w, OpenFileStep(w, raw, path, stamp, fails));
    }
  }

  lemma NextIdIsPositive(w: World)
    requires Inv(w)
    ensures 0 < w.journal.nextId
  {}

  lemma NothingKeeps(w: World)
    requires Inv(w)
    ensures Kept(w, w)
  {}

  lemma RecoverNamedKeeps(w: World, raw: seq<byte>, path: string, stamp: nat, t: string, p: Profile, fails: bool)
    requires Inv(w) && Supported(p)
    ensures Kept(w, RecoverNamedStep(w, raw, path, stamp, t, p, fails))
  {
    hide Sound, LiveOk, IntentsOk, Load, Serialize;
    NothingKeeps(w);
    NextIdIsPositive(w);
    if Load(raw).Err? || w.journal.GroupActive() || !Renderable(t, MAX_LINE_CHARS) {
    } else if fails {
      FailedInstallKeeps(w, w.journal.Reset().Reset());
    } else {
      var d, id := Load(raw).value, w.journal.nextId;
      var file := FileState(path, d.meta, stamp);
      OpenedReproduces(raw);
      var loaded := w.session.EstablishOpen(d.text, file, id);
      var between := World(d.text, w.journal.Reset(), loaded, w.texts[id := d.text], w.saves, None);
      InstallKeeps(w, between);
      InstallKeeps(between, RecoverNamedStep(w, raw, path, stamp, t, p, fails));
    }
  }

  lemma RecoverUnboundKeeps(w: World, t: string, p: Profile, fails: bool)
    requires Inv(w) && Supported(p)
    ensures Kept(w, RecoverUnboundStep(w, t, p, fails))
  {
    if w.journal.GroupActive() || !Renderable(t, MAX_LINE_CHARS) {
    } else if fails {
      FailedInstallKeeps(w, w.journal.Reset());
    } else {
      InstallKeeps(w, RecoverUnboundStep(w, t, p, fails));
    }
  }

  // --- Saving --------------------------------------------------------------------------------

  lemma CaptureKeeps(w: World, operation: SaveOperation, path: string, allowMixed: bool)
    requires Inv(w)
    ensures Kept(w, CaptureStep(w, operation, path, allowMixed))
  {
    var captured := Captured(w.session, operation, path, allowMixed);
    if captured.Some? {
      assert IntentOk(captured.value, w.texts);
    }
  }

  /** The accepted profile writes the committed bytes again, when the baseline can reproduce them. */
  lemma CommittedReproduces(i: Intent, path: string, baseline: Option<nat>, texts: map<nat, string>)
    requires IntentOk(i, texts)
    ensures
      var file := Baseline(i, path, baseline);
      var accepted := if file.Some? then ProfileFor(Some(file.value.meta)) else i.profile;
      && Supported(accepted)
      && (file.None? || Reproducible(i.text, i.profile) ==> Serialize(i.text, accepted, true) == Ok(i.data))
  {
    LoadSerialized(i.text, i.profile, true);
    ReserializeExact(i.text, i.profile, true, true);
  }

  lemma IntentsWithout(saves: seq<Intent>, index: nat, texts: map<nat, string>)
    requires IntentsOk(saves, texts) && index < |saves|
    ensures IntentOk(saves[index], texts) && IntentsOk(saves[..index] + saves[index + 1..], texts)
  {
    hide IntentOk;
    var rest := saves[..index] + saves[index + 1..];
    forall i | 0 <= i < |rest| ensures IntentOk(rest[i], texts) {
      assert IntentOk(saves[if i < index then i else i + 1], texts);
    }
  }

  lemma CommitSession(w: World, index: nat, path: string, baseline: Option<nat>)
    requires Inv(w) && index < |w.saves| && IntentOk(w.saves[index], w.texts)
    requires IntentsOk(w.saves[..index] + w.saves[index + 1..], w.texts)
    requires
      var i, file := w.saves[index], Baseline(w.saves[index], path, baseline);
      var accepted := if file.Some? then ProfileFor(Some(file.value.meta)) else i.profile;
      && Supported(accepted)
      && (file.None? || Reproducible(i.text, i.profile) ==> Serialize(i.text, accepted, true) == Ok(i.data))
    ensures Kept(w, CommitStep(w, index, path, baseline))
  {
    hide Sound, LiveOk, Load, Serialize, Reproducible, IntentsOk;
  }

  lemma CommitKeeps(w: World, index: nat, path: string, baseline: Option<nat>)
    requires Inv(w)
    ensures Kept(w, CommitStep(w, index, path, baseline))
  {
    if index < |w.saves| {
      IntentsWithout(w.saves, index, w.texts);
      CommittedReproduces(w.saves[index], path, baseline, w.texts);
      CommitSession(w, index, path, baseline);
    }
  }

  lemma SmallStepKeeps(w: World, a: Action)
    requires w.journal.Usable() && Inv(w) && Allowed(w, a) && (a.BeginNative? || a.ChooseProfile? || a.PrepareSave?)
    ensures Kept(w, Step(w, a))
  {
    if a.BeginNative? && w.journal.BeginGroup(a.view).Ok? {
      assert Leads([], w.text, w.text);
    }
    Assemble(w, Step(w, a));
  }

  // --- Every run -----------------------------------------------------------------------------

  lemma StartInv()
    ensures Inv(START)
  {
  }

  lemma StepKeeps(w: World, a: Action)
    requires w.journal.Usable() && Inv(w) && Allowed(w, a)
    ensures Kept(w, Step(w, a))
  {
    hide Inv, Kept, Native, EndNativeStep, ReplayStep, ProgrammaticStep, OpenNewStep, OpenFileStep, RecoverNamedStep,
         RecoverUnboundStep, PrepareSaveStep, CaptureStep, CommitStep;
    NothingKeeps(w);
    match a
    case BeginNative(view) => SmallStepKeeps(w, a);
    case TypeText(offset, inserted) => if offset <= |w.text| { NativeKeeps(w, Op(Insert, offset, inserted), Range); }
    case EraseText(offset, count, direction) =>
      if offset + count <= |w.text| { NativeKeeps(w, Op(Delete, offset, w.text[offset..offset + count]), direction); }
    case EndNative(view) => EndNativeKeeps(w, view);
    case UndoStep => ReplayKeeps(w, false);
    case RedoStep => ReplayKeeps(w, true);
    case Programmatic(e, fault) => ProgrammaticKeeps(w, e, fault);
    case OpenNew(t, clean, fails) => OpenNewKeeps(w, t, clean, fails);
    case OpenFile(raw, path, stamp, fails) => OpenFileKeeps(w, raw, path, stamp, fails);
    case RecoverNamed(raw, path, stamp, t, p, fails) => RecoverNamedKeeps(w, raw, path, stamp, t, p, fails);
    case RecoverUnbound(t, p, fails) => RecoverUnboundKeeps(w, t, p, fails);
    case ChooseProfile(choice) => SmallStepKeeps(w, a);
    case PrepareSave => SmallStepKeeps(w, a);
    case CaptureSave(operation, path, allowMixed) => CaptureKeeps(w, operation, path, allowMixed);
    case CommitSave(index, path, baseline) => CommitKeeps(w, index, path, baseline);
  }

  /** A run: states and actions in turn, from the start state. */
  ghost predicate IsRun(states: seq<World>, actions: seq<Action>) {
    && |states| == |actions| + 1 && states[0] == START
    && forall k | 0 <= k < |actions| ::
         states[k].journal.Usable() && Allowed(states[k], actions[k]) && states[k + 1] == Step(states[k], actions[k])
  }

  lemma {:induction false} RunKeeps(states: seq<World>, actions: seq<Action>, k: nat)
    requires IsRun(states, actions) && k < |states|
    ensures Inv(states[k])
    ensures forall i | 0 <= i <= k :: Extends(states[i], states[k])
  {
    if k == 0 {
      StartInv();
    } else {
      RunKeeps(states, actions, k - 1);
      assert states[k] == Step(states[k - 1], actions[k - 1]);
      StepKeeps(states[k - 1], actions[k - 1]);
      forall i | 0 <= i <= k ensures Extends(states[i], states[k]) {
        if i < k { assert Extends(states[i], states[k - 1]); }
      }
    }
  }

  /** The facts about one step of a run. */
  lemma RunStep(states: seq<World>, actions: seq<Action>, k: nat)
    requires IsRun(states, actions) && k < |actions|
    ensures states[k].journal.Usable() && Inv(states[k]) && Allowed(states[k], actions[k])
    ensures states[k + 1] == Step(states[k], actions[k])
  {
    hide Inv, Allowed, Step, Extends;
    RunKeeps(states, actions, k);
  }

  /**
    Saved is exact.  Whenever no group is open and the session reports the document as not modified,
    the live buffer shows the text that the saved state ID has stood for since it was issued; and where
    the accepted baseline is exact, writing the buffer now reproduces its bytes.  A baseline is exact when
    it was opened from an unmixed file, when it was not read back after the write, or when the text
    written was reproducible (`ReserializeExact`).
   */
  lemma SavedIsExact(states: seq<World>, actions: seq<Action>, k: nat)
    requires IsRun(states, actions) && k < |states|
    ensures
      var w := states[k];
      !w.journal.GroupActive() && !w.session.Modified() ==>
        && w.session.savedId.value in w.texts && w.text == w.texts[w.session.savedId.value]
        && (forall i | 0 <= i <= k && w.session.savedId.value in states[i].texts ::
              states[i].texts[w.session.savedId.value] == w.text)
        && (w.committed.Some? && w.committed.value.exact ==>
              Serialize(w.text, w.session.currentProfile, true) == Ok(w.committed.value.bytes))
  {
    RunKeeps(states, actions, k);
  }

  /** What a committed save leaves behind in the session. */
  ghost predicate Accepted(w: World, intent: Intent, path: string, baseline: Option<nat>, w': World) {
    && w'.session.savedId == Some(intent.stateId) && IntentOk(intent, w'.texts)
    && w'.text == w.text && w'.journal == w.journal
    && w'.session.logicalPath == Some(path)
    && match (baseline, Load(intent.data))
       case (None, _) => w'.session.fileState == None && w'.session.savedProfile == intent.profile
       case (Some(stamp), Ok(loaded)) =>
         w'.session.fileState == Some(FileState(path, loaded.meta, stamp))
         && w'.session.savedProfile == ProfileFor(Some(loaded.meta))
       case (Some(_), Err(_)) => false
  }

  /** Whether the document is Modified after the commit; an unchanged choice of profile follows the file. */
  predicate StillSaved(w: World, intent: Intent, w': World) {
    w.session.currentId == Some(intent.stateId) && w.session.currentProfile in {intent.profile, w'.session.savedProfile}
  }

  lemma CommitMarks(w: World, index: nat, path: string, baseline: Option<nat>)
    requires Inv(w) && index < |w.saves|
    ensures
      var intent, w' := w.saves[index], CommitStep(w, index, path, baseline);
      Accepted(w, intent, path, baseline, w') && (w'.session.Modified() <==> !StillSaved(w, intent, w'))
  {
    hide Sound, LiveOk, CommittedOk, Load, Serialize;
    var intent := w.saves[index];
    assert IntentOk(intent, w.texts);
    LoadSerialized(intent.text, intent.profile, true);
  }

  /** A plain Save is captured exactly to the path of the last commit, and only over a baseline it has reported. */
  lemma SavesToCommittedPath(w: World, index: nat, path: string, baseline: Option<nat>, to: string, allowMixed: bool)
    requires Inv(w) && index < |w.saves|
    ensures
      var session := CommitStep(w, index, path, baseline).session;
      Captured(session, Save, to, allowMixed).Some? <==>
        && baseline.Some? && to == path && session.TextIsCurrent()
        && Serialize(session.text, session.currentProfile, allowMixed).Ok?
  {
    hide Inv, Load, Serialize, CommitStep;
    CommitMarks(w, index, path, baseline);
  }

  /**
    The commit makes the captured state the saved one, whatever was edited while it was in flight, and the path
    written the path of the document.
   */
  lemma CommitMarksCapturedState(states: seq<World>, actions: seq<Action>, k: nat, to: string, allowMixed: bool)
    requires IsRun(states, actions) && k < |actions| && actions[k].CommitSave? && actions[k].index < |states[k].saves|
    ensures
      var w, w', a := states[k], states[k + 1], actions[k];
      var intent := w.saves[a.index];
      && Accepted(w, intent, a.path, a.baseline, w') && (w'.session.Modified() <==> !StillSaved(w, intent, w'))
      && (Captured(w'.session, Save, to, allowMixed).Some? <==>
            && a.baseline.Some? && to == a.path && w'.session.TextIsCurrent()
            && Serialize(w'.session.text, w'.session.currentProfile, allowMixed).Ok?)
  {
    hide Inv, Allowed, CommitStep, Accepted, StillSaved, Captured;
    RunStep(states, actions, k);
    CommitMarks(states[k], actions[k].index, actions[k].path, actions[k].baseline);
    SavesToCommittedPath(states[k], actions[k].index, actions[k].path, actions[k].baseline, to, allowMixed);
  }

  /** In every reachable state Undo and Redo revisit exactly the text their target state first had. */
  lemma UndoRevisits(states: seq<World>, actions: seq<Action>, k: nat, redo: bool)
    requires IsRun(states, actions) && k < |states| && !states[k].journal.GroupActive()
    requires (if redo then states[k].journal.redo else states[k].journal.undo) != []
    ensures
      var w := states[k];
      var w' := ReplayStep(w, redo);
      var undo, rest := w.journal.undo, w.journal.redo;
      var target := if redo then rest[|rest| - 1].afterId else undo[|undo| - 1].beforeId;
      && w'.journal.currentId == target && target in w.texts && w'.text == w.texts[target]
      && (forall i | 0 <= i <= k && target in states[i].texts :: states[i].texts[target] == w'.text)
      && ReplayStep(w', !redo).text == w.text && ReplayStep(w', !redo).journal == w.journal
  {
    RunKeeps(states, actions, k);
    var w := states[k];
    ReplayShowsTarget(w, redo);
    ReplayKeeps(w, redo);
    UndoRedoInverse(w.journal);
    if redo { RedoLeads(w.journal, w.texts); } else { UndoLeads(w.journal, w.texts); }
    ReplayShowsTarget(ReplayStep(w, redo), !redo);
  }

  lemma OpenStarts(w: World, raw: seq<byte>, path: string, stamp: nat)
    requires Inv(w) && Load(raw).Ok? && !w.journal.GroupActive()
    ensures
      var d, w' := Load(raw).value, OpenFileStep(w, raw, path, stamp, false);
      && !w'.session.Modified() && w'.text == d.text && w'.journal.undo == [] && w'.journal.redo == []
      && w'.session.logicalPath == Some(path) && w'.session.fileState == Some(FileState(path, d.meta, stamp))
      && w'.session.TextIsCurrent() && w'.session.text == d.text && w'.session.savedProfile == ProfileFor(Some(d.meta))
      && w'.journal.currentId !in w.texts && w'.texts[w'.journal.currentId] == d.text
      && (!d.meta.eol.mixed ==> w'.committed == Some(Committed(raw, true)))
  {
    hide LiveOk, IntentsOk, CommittedOk, SessionOk, Load;
  }

  /** Opening a file records its normalized text under the new state ID and starts as not modified. */
  lemma OpenStartsSaved(states: seq<World>, actions: seq<Action>, k: nat)
    requires IsRun(states, actions) && k < |actions| && actions[k].OpenFile? && !actions[k].fails
    requires Load(actions[k].raw).Ok? && !states[k].journal.GroupActive()
    ensures
      var d, w' := Load(actions[k].raw).value, states[k + 1];
      && !w'.session.Modified() && w'.text == d.text && w'.journal.undo == [] && w'.journal.redo == []
      && w'.session.logicalPath == Some(actions[k].path)
      && w'.session.fileState == Some(FileState(actions[k].path, d.meta, actions[k].stamp))
      && w'.session.TextIsCurrent() && w'.session.text == d.text && w'.session.savedProfile == ProfileFor(Some(d.meta))
      && w'.journal.currentId !in states[k].texts && w'.texts[w'.journal.currentId] == d.text
      && (!d.meta.eol.mixed ==> w'.committed == Some(Committed(actions[k].raw, true)))
  {
    hide Inv, Allowed, OpenFileStep;
    RunStep(states, actions, k);
    OpenStarts(states[k], actions[k].raw, actions[k].path, actions[k].stamp);
  }

  lemma RecoverNamedStarts(w: World, raw: seq<byte>, path: string, stamp: nat, t: string, p: Profile)
    requires Inv(w) && Load(raw).Ok? && !w.journal.GroupActive() && Renderable(t, MAX_LINE_CHARS)
    ensures
      var d, w' := Load(raw).value, RecoverNamedStep(w, raw, path, stamp, t, p, false);
      && w'.session.Modified() && w'.text == t && w'.session.currentProfile == p
      && w'.session.savedId.Some? && w'.session.savedId.value !in w.texts && w'.session.savedId.value in w'.texts
      && w'.texts[w'.session.savedId.value] == d.text && w'.session.savedProfile == ProfileFor(Some(d.meta))
      && w'.session.fileState == Some(FileState(path, d.meta, stamp)) && w'.session.logicalPath == Some(path)
      && w'.session.TextIsCurrent() && w'.session.text == t
  {
    hide LiveOk, IntentsOk, CommittedOk, SessionOk, Load, Renderable;
  }

  /** Recovered text is Modified from the start: over the text and the profile of its file, or over nothing. */
  lemma RecoveredStartsModified(states: seq<World>, actions: seq<Action>, k: nat)
    requires IsRun(states, actions) && k < |actions| && !states[k].journal.GroupActive()
    ensures
      var w, w', a := states[k], states[k + 1], actions[k];
      a.RecoverNamed? && !a.fails && Load(a.raw).Ok? && Renderable(a.recovered, MAX_LINE_CHARS) ==>
        var saved := w'.session.savedId;
        && w'.session.Modified() && w'.text == a.recovered && w'.session.currentProfile == a.profile
        && saved.Some? && saved.value !in w.texts && saved.value in w'.texts
        && w'.texts[saved.value] == Load(a.raw).value.text
        && w'.session.savedProfile == ProfileFor(Some(Load(a.raw).value.meta))
        && w'.session.logicalPath == Some(a.path) && w'.session.TextIsCurrent() && w'.session.text == a.recovered
    ensures
      var w', a := states[k + 1], actions[k];
      a.RecoverUnbound? && !a.fails && Renderable(a.recovered, MAX_LINE_CHARS) ==>
        && w'.session.Modified() && w'.text == a.recovered && w'.session.currentProfile == a.profile
        && w'.session.savedId.None? && w'.session.fileState.None? && w'.session.logicalPath.None?
        && w'.session.savedProfile == a.profile && w'.session.TextIsCurrent() && w'.session.text == a.recovered
  {
    hide Inv, Allowed, RecoverNamedStep, Renderable, Load;
    RunStep(states, actions, k);
    var a := actions[k];
    if a.RecoverNamed? && Load(a.raw).Ok? && Renderable(a.recovered, MAX_LINE_CHARS) {
      RecoverNamedStarts(states[k], a.raw, a.path, a.stamp, a.recovered, a.profile);
    }
  }

  /** A new document starts Modified unless it is declared clean. */
  lemma NewStarts(states: seq<World>, actions: seq<Action>, k: nat)
    requires IsRun(states, actions) && k < |actions| && !states[k].journal.GroupActive()
    requires actions[k].OpenNew? && !actions[k].fails
    ensures
      var w' := states[k + 1];
      && (w'.session.Modified() <==> !actions[k].clean) && w'.text == actions[k].newText
      && w'.session.logicalPath.None? && w'.session.fileState.None?
      && w'.session.TextIsCurrent() && w'.session.text == actions[k].newText
      && w'.session.currentProfile == w'.session.savedProfile == Profile(Utf8, NoBom, LF, false)
  {
    hide Inv, Allowed;
    RunStep(states, actions, k);
  }

  /** Not Modified means exactly: at the saved state, under the saved profile. */
  lemma SavedExactlyAtSavedState(states: seq<World>, actions: seq<Action>, k: nat)
    requires IsRun(states, actions) && k < |states|
    ensures
      var w := states[k];
      !w.session.Modified() <==>
        && w.journal.currentId > 0 && w.session.savedId == Some(w.journal.currentId)
        && w.session.currentProfile == w.session.savedProfile
  {
    RunKeeps(states, actions, k);
  }

  lemma AdvanceModified(session: Session, id: nat)
    ensures session.Advance(id).Modified() <==>
              !(session.savedId == Some(id) && session.currentProfile == session.savedProfile)
  {}

  /** Undo and Redo that come back to the saved state make the document Saved again, with its text. */
  lemma BackAtSavedIsSaved(states: seq<World>, actions: seq<Action>, k: nat, redo: bool)
    requires IsRun(states, actions) && k < |states| && !states[k].journal.GroupActive()
    requires (if redo then states[k].journal.redo else states[k].journal.undo) != []
    ensures
      var w, undo, rest := states[k], states[k].journal.undo, states[k].journal.redo;
      var target, w' := if redo then rest[|rest| - 1].afterId else undo[|undo| - 1].beforeId, ReplayStep(w, redo);
      !w'.session.Modified() <==>
        && w.session.savedId == Some(target) && w.session.currentProfile == w.session.savedProfile
        && target in w.texts && w'.text == w.texts[target]
  {
    hide *;
    RunKeeps(states, actions, k);
    UndoRevisits(states, actions, k, redo);
    ReplayShowsTarget(states[k], redo);
    var w := states[k];
    AdvanceModified(w.session, if redo then w.journal.Redo().0.currentId else w.journal.Undo().0.currentId);
  }

  predicate SameLimits(j: Journal, j': Journal) {
    j'.maxGroups == j.maxGroups && j'.maxPayload == j.maxPayload
  }

  lemma ReplayKeepsLimits(w: World, redo: bool)
    ensures SameLimits(w.journal, ReplayStep(w, redo).journal)
  {
    hide Transact;
  }

  lemma ProgrammaticKeepsLimits(w: World, e: Edit, fault: Fault)
    ensures SameLimits(w.journal, ProgrammaticStep(w, e, fault).journal)
  {
    hide Transact, Pushed, Trimmed;
  }

  lemma StepKeepsLimits(w: World, a: Action)
    requires w.journal.Usable()
    ensures SameLimits(w.journal, Step(w, a).journal)
  {
    hide ReplayStep, ProgrammaticStep, Load, Renderable, Captured, Apply, Pushed, Trimmed;
    if a.UndoStep? || a.RedoStep? {
      ReplayKeepsLimits(w, a.RedoStep?);
    } else if a.Programmatic? {
      ProgrammaticKeepsLimits(w, a.edit, a.fault);
    }
  }

  lemma UsableInv(w: World)
    requires Inv(w)
    ensures w.journal.Usable() && Bounded(w.journal)
    ensures w.journal.currentId > 0 ==> w.journal.currentId < w.journal.nextId
  {}

  lemma {:induction false} RunKeepsLimits(states: seq<World>, actions: seq<Action>, k: nat)
    requires IsRun(states, actions) && k < |states|
    ensures SameLimits(EMPTY, states[k].journal)
  {
    hide Inv, Step, Allowed;
    if k > 0 {
      RunKeepsLimits(states, actions, k - 1);
      RunStep(states, actions, k - 1);
      StepKeepsLimits(states[k - 1], actions[k - 1]);
    }
  }

  lemma BoundedInv(w: World)
    requires Inv(w)
    ensures var j := w.journal;
            && |j.undo + j.redo| <= j.maxGroups && (Payload(j.undo + j.redo) <= j.maxPayload || |j.undo + j.redo| <= 1)
  {
    hide LiveOk, SessionOk, IntentsOk, CommittedOk, UndoChain, RedoChain, GroupsOk, Payload;
  }

  /** After every run the journal holds at most 1,000 groups, and 16,000,000 characters or a single group. */
  lemma RunIsBounded(states: seq<World>, actions: seq<Action>, k: nat)
    requires IsRun(states, actions) && k < |states|
    ensures
      var j := states[k].journal;
      |j.undo + j.redo| <= 1_000 && (Payload(j.undo + j.redo) <= 16_000_000 || |j.undo + j.redo| <= 1)
  {
    RunKeeps(states, actions, k);
    RunKeepsLimits(states, actions, k);
    BoundedInv(states[k]);
    hide Inv, IsRun, Payload, Extends;
  }

  /** Saving under a path: the buffer is captured, its bytes are written, and the commit follows at once. */
  ghost function Saved(w: World, path: string, allowMixed: bool, stamp: Option<nat>): World {
    var prepared := PrepareSaveStep(w);
    var captured := CaptureStep(prepared, SaveAs, path, allowMixed);
    CommitStep(captured, |w.saves|, path, stamp)
  }

  lemma CapturedNow(w: World, operation: SaveOperation, path: string, allowMixed: bool)
    requires Inv(w) && !w.journal.GroupActive() && w.journal.currentId > 0
    requires operation.Save? ==> w.session.fileState.Some? && w.session.logicalPath == Some(path)
    ensures
      var w', data := PrepareSaveStep(w), Serialize(w.text, w.session.currentProfile, allowMixed);
      && w'.saves == w.saves && w'.journal == w.journal && w'.texts == w.texts
      && CaptureStep(w', operation, path, allowMixed).saves
         == if data.Err? then w.saves
            else w.saves + [Intent(w.journal.currentId, w.text, w.session.currentProfile, data.value)]
  {
    hide Serialize, IntentsOk, CommittedOk, Sound;
  }

  /**
    A save writes the buffer under the session's profile, and when nothing happens in between the document is Saved
    after it, under the path written; what cannot be serialized is not written.
   */
  lemma SavedAfterSave(w: World, path: string, allowMixed: bool, stamp: Option<nat>)
    requires Inv(w) && !w.journal.GroupActive() && w.journal.currentId > 0
    ensures
      var w', data := Saved(w, path, allowMixed, stamp), Serialize(w.text, w.session.currentProfile, allowMixed);
      if data.Err? then w' == PrepareSaveStep(w)
      else
        && !w'.session.Modified() && w'.session.logicalPath == Some(path) && w'.session.text == w'.text == w.text
        && w'.committed.Some? && w'.committed.value.bytes == data.value && w'.saves == w.saves
  {
    hide Serialize, Load, Inv, Reproducible, IntentOk;
    UsableInv(w);
    CapturedNow(w, SaveAs, path, allowMixed);
    var prepared := PrepareSaveStep(w);
    var captured := CaptureStep(prepared, SaveAs, path, allowMixed);
    SmallStepKeeps(w, PrepareSave);
    CaptureKeeps(prepared, SaveAs, path, allowMixed);
    if Serialize(w.text, w.session.currentProfile, allowMixed).Ok? {
      CommitMarks(captured, |w.saves|, path, stamp);
      assert captured.saves[..|w.saves|] + captured.saves[|w.saves| + 1..] == w.saves;
    }
  }

  /** Choosing a profile makes the document Modified exactly when it then differs from the saved one. */
  lemma ChoiceModifies(w: World, choice: Profile)
    requires w.journal.Usable() && Inv(w)
    ensures
      var w' := Step(w, ChooseProfile(Some(choice)));
      && w'.session.currentProfile == choice && w'.text == w.text && w'.journal == w.journal
      && (w'.session.Modified() <==>
            !(w.journal.currentId > 0 && w.session.savedId == Some(w.journal.currentId)
              && choice == w.session.savedProfile))
      && Step(w, ChooseProfile(None)) == w
  {
    hide Sound, LiveOk, IntentsOk, CommittedOk, Native, EndNativeStep, ReplayStep, ProgrammaticStep, OpenNewStep,
         OpenFileStep, RecoverNamedStep, RecoverUnboundStep, PrepareSaveStep, CaptureStep, CommitStep;
  }
}
