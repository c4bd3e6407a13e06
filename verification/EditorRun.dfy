/**
  The editor core as a state machine: live buffer, delta journal, session and saves in flight.
  `texts` is a ghost record of the text each state ID was issued for; it is never consulted by the
  program, and the theorems below say why it does not have to be.
 */
module EditorRun {
  import opened Prelude
  import opened Codec
  import opened DocumentBytes
  import opened DocumentRoundTrip
  import opened Edits
  import opened EditHistory
  import opened DeltaJournal
  import opened DocumentSessionModel
  import opened Renderability

  /** A save between the capture of the session and the commit of its bytes. */
  datatype Intent = Intent(stateId: nat, text: string, profile: Profile, data: seq<byte>)

  /** The bytes last accepted as the saved baseline, and whether they can be reproduced from it. */
  datatype Committed = Committed(bytes: seq<byte>, exact: bool)

  datatype World = World(text: string, journal: Journal, session: Session, texts: map<nat, string>,
                         saves: seq<Intent>, committed: Option<Committed>)

  datatype Edit = Edit(ops: seq<Op>, sourceId: nat, finalText: string, beforeView: ViewState, targetView: ViewState)

  /** Where a transaction fails after its buffer change, if it does. */
  datatype Fault = NoFault | AtCommit(idUsed: bool) | AtListener

  datatype SaveOperation = Save | SaveAs

  datatype Action =
    | BeginNative(view: ViewState)
    | TypeText(offset: nat, inserted: string)
    | EraseText(offset: nat, count: nat, direction: Direction)
    | EndNative(view: ViewState)
    | UndoStep
    | RedoStep
    | Programmatic(edit: Edit, fault: Fault)
    | OpenNew(newText: string, clean: bool, fails: bool)
    | OpenFile(raw: seq<byte>, path: string, stamp: nat, fails: bool)
    | RecoverNamed(raw: seq<byte>, path: string, stamp: nat, recovered: string, profile: Profile, fails: bool)
    | RecoverUnbound(recovered: string, profile: Profile, fails: bool)
    | ChooseProfile(choice: Option<Profile>)
    | PrepareSave
    | CaptureSave(operation: SaveOperation, path: string, allowMixed: bool)
    | CommitSave(index: nat, path: string, baseline: Option<nat>)

  const START: World := World("", EMPTY, FRESH_SESSION, map[], [], None)

  // --- Steps ---------------------------------------------------------------------------------

  function Native(w: World, inserted: Op, direction: Direction): World {
    match (Apply(w.text, inserted), w.journal.Record(Delta(inserted, direction)))
    case (Some(u), Ok(j)) => w.(text := u, journal := j)
    case _ => w
  }

  function EndNativeStep(w: World, view: ViewState): World
    requires w.journal.Usable()
  {
    if !w.journal.GroupActive() then w
    else
      var j := w.journal.EndGroup(view, w.session.savedId);
      w.(journal := j, session := w.session.Advance(j.currentId),
         texts := if w.journal.pending == [] then w.texts else w.texts[j.currentId := w.text])
  }

  function ReplayStep(w: World, redo: bool): World {
    if w.journal.GroupActive() then w
    else
      var (j, reply) := if redo then w.journal.Redo() else w.journal.Undo();
      match reply
      case Nothing => w
      case Broken => w.(journal := j)
      case Replay(plan) =>
        var (u, outcome) := Transact(w.text, plan.ops);
        if outcome == Applied then w.(text := u, journal := j, session := w.session.Advance(plan.targetId))
        else w.(text := u, journal := j.Restore(w.journal))
  }

  function Recorded(ops: seq<Op>): (r: seq<Delta>)
    ensures |r| == |ops| && forall i | 0 <= i < |r| :: r[i] == Delta(ops[i], Range)
  {
    if ops == [] then [] else [Delta(ops[0], Range)] + Recorded(ops[1..])
  }

  /** What is checked before a programmatic edit touches anything. */
  ghost predicate Admissible(w: World, e: Edit) {
    && !w.journal.GroupActive() && w.journal.currentId > 0
    && e.sourceId == w.journal.currentId && w.session.currentId == Some(w.journal.currentId)
    && e.ops != [] && OpsSize(e.ops) <= w.journal.maxPayload && Renderable(e.finalText, MAX_LINE_CHARS)
    && forall i | 0 <= i < |e.ops| :: e.ops[i].text != ""
  }

  function WithPending(j: Journal, e: Edit): Journal {
    j.(pending := Recorded(e.ops), pendingBeforeId := Some(j.currentId), pendingBeforeView := Some(e.beforeView))
  }

  ghost function ProgrammaticStep(w: World, e: Edit, fault: Fault): World {
    if !Admissible(w, e) then w
    else
      var (u, outcome) := Transact(w.text, e.ops);
      if outcome != Applied then w.(text := u)
      else
        var j := WithPending(w.journal, e).EndGroup(e.targetView, w.session.savedId);
        match fault
        case NoFault =>
          w.(text := u, journal := j, session := w.session.Advance(j.currentId), texts := w.texts[j.currentId := u])
        case AtCommit(idUsed) =>
          w.(text := Transact(u, Inverse(e.ops)).0, journal := if idUsed then j.Restore(w.journal) else w.journal)
        case AtListener => w.(text := Transact(u, Inverse(e.ops)).0, journal := j.Restore(w.journal))
  }

  function OpenNewStep(w: World, t: string, clean: bool, fails: bool): World {
    if w.journal.GroupActive() then w
    else
      var j := w.journal.Reset();
      if fails then w.(journal := j.Restore(w.journal))
      else World(t, j, w.session.EstablishNew(t, j.currentId, clean), w.texts[j.currentId := t], w.saves, None)
  }

  function OpenFileStep(w: World, raw: seq<byte>, path: string, stamp: nat, fails: bool): World {
    match Load(raw)
    case Err(_) => w
    case Ok(d) =>
      if w.journal.GroupActive() then w
      else
        var j := w.journal.Reset();
        if fails then w.(journal := j.Restore(w.journal))
        else World(d.text, j, w.session.EstablishOpen(d.text, FileState(path, d.meta, stamp), j.currentId),
                   w.texts[j.currentId := d.text], w.saves,
                   if d.meta.eol.mixed then None else Some(Committed(raw, true)))
  }

  /** The saved baseline gets an ID of its own, so the recovered text is Modified over it. */
  ghost function RecoverNamedStep(w: World, raw: seq<byte>, path: string, stamp: nat, t: string, p: Profile,
                                  fails: bool): World {
    match Load(raw)
    case Err(_) => w
    case Ok(d) =>
      if w.journal.GroupActive() || !Renderable(t, MAX_LINE_CHARS) then w
      else
        var saved := w.journal.Reset();
        var j := saved.Reset();
        if fails then w.(journal := j.Restore(w.journal))
        else
          var file := FileState(path, d.meta, stamp);
          World(t, j, w.session.EstablishRecoveredNamed(t, file, j.currentId, saved.currentId, p),
                   w.texts[saved.currentId := d.text][j.currentId := t], w.saves, None)
  }

  ghost function RecoverUnboundStep(w: World, t: string, p: Profile, fails: bool): World {
    if w.journal.GroupActive() || !Renderable(t, MAX_LINE_CHARS) then w
    else
      var j := w.journal.Reset();
      if fails then w.(journal := j.Restore(w.journal))
      else World(t, j, w.session.EstablishRecoveredUnbound(t, j.currentId, p), w.texts[j.currentId := t], w.saves, None)
  }

  function PrepareSaveStep(w: World): World {
    if w.journal.GroupActive() || w.journal.currentId == 0 || w.session.currentId != Some(w.journal.currentId) then w
    else w.(session := w.session.Synchronize(w.text))
  }

  /** What the save service captures: one stable state, serialized before anything is written. */
  function Captured(s: Session, operation: SaveOperation, path: string, allowMixed: bool): Option<Intent> {
    if !s.TextIsCurrent() then None
    else if operation.Save? && (s.fileState.None? || s.logicalPath != Some(path)) then None
    else match Serialize(s.text, s.currentProfile, allowMixed)
      case Err(_) => None
      case Ok(data) => Some(Intent(s.currentId.value, s.text, s.currentProfile, data))
  }

  function CaptureStep(w: World, operation: SaveOperation, path: string, allowMixed: bool): World {
    match Captured(w.session, operation, path, allowMixed)
    case None => w
    case Some(intent) => w.(saves := w.saves + [intent])
  }

  /** The baseline the writer reports: the loaded state of the bytes just written, or nothing. */
  function Baseline(intent: Intent, path: string, baseline: Option<nat>): Option<FileState> {
    if baseline.Some? && Load(intent.data).Ok? then Some(FileState(path, Load(intent.data).value.meta, baseline.value))
    else None
  }

  function CommitStep(w: World, index: nat, path: string, baseline: Option<nat>): World {
    if index >= |w.saves| then w
    else
      var intent := w.saves[index];
      var file := Baseline(intent, path, baseline);
      w.(session := w.session.AcceptCommittedSave(intent.stateId, path, file, intent.profile),
         saves := w.saves[..index] + w.saves[index + 1..],
         committed := Some(Committed(intent.data, file.None? || Reproducible(intent.text, intent.profile))))
  }

  ghost function Step(w: World, a: Action): World
    requires w.journal.Usable()
  {
    match a
    case BeginNative(view) => (match w.journal.BeginGroup(view) case Ok(j) => w.(journal := j) case Err(_) => w)
    case TypeText(offset, inserted) => if offset > |w.text| then w else Native(w, Op(Insert, offset, inserted), Range)
    case EraseText(offset, count, direction) =>
      if offset + count > |w.text| then w else Native(w, Op(Delete, offset, w.text[offset..offset + count]), direction)
    case EndNative(view) => EndNativeStep(w, view)
    case UndoStep => ReplayStep(w, false)
    case RedoStep => ReplayStep(w, true)
    case Programmatic(e, fault) => ProgrammaticStep(w, e, fault)
    case OpenNew(t, clean, fails) => OpenNewStep(w, t, clean, fails)
    case OpenFile(raw, path, stamp, fails) => OpenFileStep(w, raw, path, stamp, fails)
    case RecoverNamed(raw, path, stamp, t, p, fails) => RecoverNamedStep(w, raw, path, stamp, t, p, fails)
    case RecoverUnbound(t, p, fails) => RecoverUnboundStep(w, t, p, fails)
    case ChooseProfile(choice) => w.(session := w.session.Select(choice))
    case PrepareSave => PrepareSaveStep(w)
    case CaptureSave(operation, path, allowMixed) => CaptureStep(w, operation, path, allowMixed)
    case CommitSave(index, path, baseline) => CommitStep(w, index, path, baseline)
  }

  // --- The invariant -------------------------------------------------------------------------

  /** Between groups the buffer shows the text of the current state; inside one, the recorded edits lead to it. */
  ghost predicate LiveOk(text: string, j: Journal, texts: map<nat, string>) {
    j.currentId > 0 ==>
      && j.currentId in texts
      && if j.GroupActive() then Leads(j.pending, texts[j.currentId], text) else text == texts[j.currentId]
  }

  ghost predicate SessionOk(s: Session, current: nat, texts: map<nat, string>) {
    && s.currentId == (if current == 0 then None else Some(current))
    && (s.textId.Some? ==> s.textId.value in texts && texts[s.textId.value] == s.text)
    && (s.savedId.Some? ==> s.savedId.value in texts)
    && Supported(s.currentProfile) && Supported(s.savedProfile)
  }

  ghost predicate IntentOk(i: Intent, texts: map<nat, string>) {
    && i.stateId in texts && texts[i.stateId] == i.text && Supported(i.profile)
    && Serialize(i.text, i.profile, true) == Ok(i.data)
  }

  ghost predicate IntentsOk(saves: seq<Intent>, texts: map<nat, string>) {
    forall i | 0 <= i < |saves| :: IntentOk(saves[i], texts)
  }

  ghost predicate CommittedOk(s: Session, committed: Option<Committed>, texts: map<nat, string>) {
    committed.Some? ==>
      && s.savedId.Some? && s.savedId.value in texts
      && (committed.value.exact ==>
          Serialize(texts[s.savedId.value], s.savedProfile, true) == Ok(committed.value.bytes))
  }

  ghost predicate Inv(w: World) {
    && Sound(w.journal, w.texts) && LiveOk(w.text, w.journal, w.texts)
    && SessionOk(w.session, w.journal.currentId, w.texts)
    && IntentsOk(w.saves, w.texts)
    && CommittedOk(w.session, w.committed, w.texts)
  }

  /** Every state ID keeps its text, and no ID is issued twice. */
  ghost predicate Extends(w: World, w': World) {
    && (forall id | id in w.texts :: id in w'.texts && w'.texts[id] == w.texts[id])
    && (forall id | id in w'.texts && id !in w.texts :: w.journal.nextId <= id < w'.journal.nextId)
    && w.journal.nextId <= w'.journal.nextId
  }

  /**
    What callers owe: a programmatic edit was planned in range on the text of the state it names,
    and profiles come from the supported list.
   */
  ghost predicate Allowed(w: World, a: Action) {
    match a
    case Programmatic(e, _) => e.sourceId in w.texts ==> InRange(w.texts[e.sourceId], e.ops)
    case RecoverNamed(_, _, _, _, p, _) => Supported(p)
    case RecoverUnbound(_, p, _) => Supported(p)
    case ChooseProfile(Some(p)) => Supported(p)
    case _ => true
  }
}
