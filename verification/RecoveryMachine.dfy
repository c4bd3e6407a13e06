/**
  Crash recovery as a state machine of two threads.  The main thread runs the controller's callbacks;
  the one worker thread takes jobs in order, each in several steps, so that callbacks can fall between
  staging a record, checking it for publication and finishing the job.  A flag per port call says
  whether that call succeeds.
 */
module RecoveryMachine {
  import opened Prelude

  /** What the controller asks of the session: modified, a stable state ID, and the binding key. */
  datatype Doc = Doc(modified: bool, stable: bool, key: int)

  datatype Phase = Waiting | Staged | Settled

  datatype Job =
    | Persist(uuid: nat, generation: nat, token: nat, phase: Phase)
    | Cleanup(artifact: Option<nat>, lock: Option<nat>, removed: bool)

  /** A finished write whose completion callback has not run yet. */
  datatype Completion = Completion(uuid: nat, generation: nat, token: nat)

  /**
    Published artifacts map to the change serial they hold; `None` is content of an earlier process.
    The last two flags are observations only: a call that the newest change depends on failed since that
    change, and a removal failed at some time.
   */
  datatype Sys = Sys(
    generation: nat, uuid: Option<nat>, ownership: Option<nat>, key: Option<int>,
    timer: bool, inFlight: bool, newer: bool, serial: nat, suppressed: bool, closed: bool,
    doc: Doc, queue: seq<Job>, done: seq<Completion>, workerClosed: bool,
    artifacts: map<nat, Option<nat>>, acquired: multiset<nat>, released: multiset<nat>,
    nextUuid: nat, adopted: Option<nat>, failedSinceChange: bool, cleanupFailed: bool)

  const START: Sys := Sys(0, None, None, None, false, false, false, 0, false, false,
                          Doc(false, false, 0), [], [], false,
                          map[], multiset{}, multiset{}, 0, None, false, false)

  function One(lock: Option<nat>): multiset<nat> {
    if lock.Some? then multiset{lock.value} else multiset{}
  }

  // --- Main thread ---------------------------------------------------------------------------

  function QueueCleanup(s: Sys, artifact: Option<nat>, lock: Option<nat>): Sys {
    if artifact.None? && lock.None? then s
    else if s.workerClosed then
      s.(released := s.released + One(lock), cleanupFailed := s.cleanupFailed || artifact.Some?)
    else s.(queue := s.queue + [Cleanup(artifact, lock, false)])
  }

  /** Cancels the timer and forgets the current generation; its artifact and lock still have to be cleaned up. */
  function Forget(s: Sys): Sys {
    s.(timer := false, generation := s.generation + 1, uuid := None, ownership := None, key := None)
  }

  function InvalidateCurrent(s: Sys): Sys {
    QueueCleanup(Forget(s).(newer := false), s.uuid, s.ownership)
  }

  function Suppressed(s: Sys): Sys {
    s.(serial := s.serial + 1, suppressed := true)
  }

  function Invalidate(s: Sys): Sys {
    if s.closed then s else InvalidateCurrent(Suppressed(s))
  }

  /** The controller's side of a new generation: the next number, and the name `u` with its lock. */
  function Own(s: Sys, u: nat): Sys {
    s.(generation := s.generation + 1, uuid := Some(u), ownership := Some(u), key := Some(s.doc.key))
  }

  function StartGeneration(s: Sys, acquireOk: bool): (Sys, bool) {
    if !acquireOk then (s.(generation := s.generation + 1, failedSinceChange := true), false)
    else
      var u := s.nextUuid;
      (Own(s, u).(nextUuid := u + 1, acquired := s.acquired + multiset{u}), true)
  }

  function EnsureGeneration(s: Sys, acquireOk: bool): (Sys, bool) {
    if s.uuid.Some? && s.key == Some(s.doc.key) then (s, true)
    else StartGeneration(if s.uuid.Some? || s.ownership.Some? then InvalidateCurrent(s) else s, acquireOk)
  }

  function ScheduleIfNeeded(s: Sys, scheduleOk: bool): Sys {
    if s.closed || s.timer || s.inFlight then s
    else if scheduleOk then s.(timer := true) else s.(failedSinceChange := true)
  }

  function Changed(s: Sys, doc: Doc): Sys {
    s.(doc := doc, suppressed := false, serial := s.serial + 1, failedSinceChange := false)
  }

  function ScheduleAfter(ensured: (Sys, bool), scheduleOk: bool): Sys {
    var (s, ok) := ensured;
    if !ok then s else if s.inFlight then s.(newer := true) else ScheduleIfNeeded(s, scheduleOk)
  }

  function Moved(s: Sys, doc: Doc): Sys {
    s.(doc := doc)
  }

  /** There is a stable change to recover. */
  predicate Recoverable(doc: Doc) {
    doc.modified && doc.stable
  }

  /**
    The session moves and the controller is told later: an accepted save shows its warnings first, and the
    main loop runs on meanwhile.  Such a move can clear `modified` and change the binding; it makes no
    change that there was not.
   */
  function MovedUntold(s: Sys, doc: Doc): Sys {
    if Recoverable(doc) && !Recoverable(s.doc) then s else Moved(s, doc)
  }

  /** The session moved to `doc` and tells the controller. */
  function DocumentStateChanged(s: Sys, doc: Doc, acquireOk: bool, scheduleOk: bool): Sys {
    if s.closed then Moved(s, doc)
    else if !doc.modified then InvalidateCurrent(Changed(s, doc))
    else if !doc.stable then Changed(s, doc)
    else ScheduleAfter(EnsureGeneration(Changed(s, doc), acquireOk), scheduleOk)
  }

  function Submit(s: Sys): Sys
    requires s.uuid.Some?
  {
    s.(inFlight := true, newer := false, queue := s.queue + [Persist(s.uuid.value, s.generation, s.serial, Waiting)])
  }

  /** Capture and submission; `disturbed` says that the session moved while the text was captured. */
  function CaptureNow(ensured: (Sys, bool), scheduleOk: bool, disturbed: bool, recordOk: bool, submitOk: bool): Sys {
    var (s, ok) := ensured;
    if !ok || s.uuid.None? then s
    else if disturbed then ScheduleIfNeeded(s.(newer := true), scheduleOk)
    else if !recordOk then s.(failedSinceChange := true)
    else if !submitOk || s.workerClosed then s.(newer := false, failedSinceChange := true)
    else Submit(s)
  }

  function TimerGone(s: Sys): Sys {
    s.(timer := false)
  }

  /** The callback of a timer; it does not ask which timer. */
  function CaptureCallback(s: Sys, acquireOk: bool, scheduleOk: bool, disturbed: bool, recordOk: bool,
                           submitOk: bool): Sys {
    if s.closed then s
    else if !s.doc.modified then InvalidateCurrent(TimerGone(s))
    else if !s.doc.stable then TimerGone(s)
    else CaptureNow(EnsureGeneration(TimerGone(s), acquireOk), scheduleOk, disturbed, recordOk, submitOk)
  }

  /** The timer fires. */
  function CaptureDue(s: Sys, acquireOk: bool, scheduleOk: bool, disturbed: bool, recordOk: bool, submitOk: bool): Sys {
    if !s.timer then s else CaptureCallback(s, acquireOk, scheduleOk, disturbed, recordOk, submitOk)
  }

  function WriteReturned(s: Sys): Sys
    requires s.done != []
  {
    s.(done := s.done[1..], inFlight := false, newer := false)
  }

  /** The completion callback of a write. */
  function Completed(s: Sys, acquireOk: bool, scheduleOk: bool): Sys {
    if s.done == [] then s
    else if s.closed || s.suppressed then WriteReturned(s)
    else if !s.doc.modified then InvalidateCurrent(WriteReturned(s))
    else if s.serial > s.done[0].token || s.newer then
      ScheduleAfter(EnsureGeneration(WriteReturned(s), acquireOk), scheduleOk)
    else WriteReturned(s)
  }

  function Adopt(s: Sys, doc: Doc): Sys {
    var u := s.nextUuid;
    Own(Moved(TimerGone(s), doc), u).(
      serial := s.serial + 1, newer := false, suppressed := false, failedSinceChange := false, nextUuid := u + 1,
      artifacts := s.artifacts[u := None], acquired := s.acquired + multiset{u}, adopted := Some(s.serial + 1))
  }

  /**
    A claimed orphan is adopted while its document is installed; `installed` is the session afterwards,
    or `None` when the installer failed and put the session back.
   */
  function InstallRecovered(s: Sys, installed: Option<Doc>): Sys {
    if s.closed || s.uuid.Some? || s.ownership.Some? then s
    else match installed
      case None => TimerGone(s)
      case Some(doc) => if doc.modified then Adopt(s, doc) else Moved(TimerGone(s), doc)
  }

  function CloseWorker(s: Sys): Sys {
    s.(workerClosed := true)
  }

  function Close(s: Sys): Sys {
    if s.closed then s
    else CloseWorker(QueueCleanup(Forget(s).(closed := true, suppressed := true), s.uuid, s.ownership))
  }

  // --- Worker thread -------------------------------------------------------------------------

  function ReplaceHead(s: Sys, job: Job): Sys
    requires s.queue != []
  {
    s.(queue := [job] + s.queue[1..])
  }

  function FinishPersist(s: Sys): Sys
    requires s.queue != [] && s.queue[0].Persist?
  {
    var p := s.queue[0];
    s.(queue := s.queue[1..], done := s.done + [Completion(p.uuid, p.generation, p.token)])
  }

  /** A failure counts against the newest change only if that change was written; an older one is written again. */
  function StagingFailed(s: Sys): Sys
    requires s.queue != [] && s.queue[0].Persist?
  {
    FinishPersist(s).(failedSinceChange := s.failedSinceChange || s.queue[0].token == s.serial)
  }

  function Remove(s: Sys, artifact: Option<nat>): Sys {
    if artifact.Some? then s.(artifacts := s.artifacts - {artifact.value}) else s
  }

  function RemovalFailed(s: Sys): Sys {
    s.(cleanupFailed := true)
  }

  function FinishCleanup(s: Sys): Sys
    requires s.queue != [] && s.queue[0].Cleanup?
  {
    s.(queue := s.queue[1..], released := s.released + One(s.queue[0].lock))
  }

  /** The write at the head belongs to the generation and the name the controller has now. */
  predicate HeadIsCurrent(s: Sys)
    requires s.queue != [] && s.queue[0].Persist?
  {
    !s.closed && s.generation == s.queue[0].generation && s.uuid == Some(s.queue[0].uuid)
  }

  /** Under the publication lock: a write that is still current is published, any other is discarded. */
  function Settle(s: Sys, portOk: bool): Sys
    requires s.queue != [] && s.queue[0].Persist?
  {
    var p := s.queue[0];
    s.(queue := [p.(phase := Settled)] + s.queue[1..],
       artifacts := if HeadIsCurrent(s) && portOk then s.artifacts[p.uuid := Some(p.token)] else s.artifacts,
       failedSinceChange := s.failedSinceChange || (HeadIsCurrent(s) && !portOk && p.token == s.serial))
  }

  function PersistStep(s: Sys, portOk: bool): Sys
    requires s.queue != [] && s.queue[0].Persist?
  {
    var p := s.queue[0];
    match p.phase
    case Waiting => if portOk then ReplaceHead(s, p.(phase := Staged)) else StagingFailed(s)
    case Staged => Settle(s, portOk)
    case Settled => FinishPersist(s)
  }

  function CleanupStep(s: Sys, portOk: bool): Sys
    requires s.queue != [] && s.queue[0].Cleanup?
  {
    var c := s.queue[0];
    if c.removed then FinishCleanup(s)
    else if c.artifact.Some? && !portOk then ReplaceHead(RemovalFailed(s), c.(removed := true))
    else ReplaceHead(Remove(s, c.artifact), c.(removed := true))
  }

  /** The next step of the job at the head of the queue. */
  function WorkerStep(s: Sys, portOk: bool): Sys {
    if s.queue == [] then s else if s.queue[0].Persist? then PersistStep(s, portOk) else CleanupStep(s, portOk)
  }

  datatype Event =
    | SessionMoves(doc: Doc)
    | DocChanged(doc: Doc, acquireOk: bool, scheduleOk: bool)
    | TimerFires(acquireOk: bool, scheduleOk: bool, disturbed: bool, recordOk: bool, submitOk: bool)
    | WriteCompletes(acquireOk: bool, scheduleOk: bool)
    | Installs(installed: Option<Doc>)
    | Invalidates
    | Closes
    | WorkerMoves(portOk: bool)

  function Next(s: Sys, e: Event): Sys {
    match e
    case SessionMoves(doc) => MovedUntold(s, doc)
    case DocChanged(doc, acquireOk, scheduleOk) => DocumentStateChanged(s, doc, acquireOk, scheduleOk)
    case TimerFires(acquireOk, scheduleOk, disturbed, recordOk, submitOk) =>
      CaptureDue(s, acquireOk, scheduleOk, disturbed, recordOk, submitOk)
    case WriteCompletes(acquireOk, scheduleOk) => Completed(s, acquireOk, scheduleOk)
    case Installs(installed) => InstallRecovered(s, installed)
    case Invalidates => Invalidate(s)
    case Closes => Close(s)
    case WorkerMoves(portOk) => WorkerStep(s, portOk)
  }

  function Run(s: Sys, events: seq<Event>): Sys
    decreases |events|
  {
    if events == [] then s else Run(Next(s, events[0]), events[1..])
  }
}
