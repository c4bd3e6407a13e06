/** What every interleaving of recovery callbacks and worker steps keeps. */
module RecoverySafety {
  import opened Prelude
  import opened RecoveryMachine

  // --- Locks: conservation -------------------------------------------------------------------

  function PendingLocks(queue: seq<Job>): multiset<nat> {
    if queue == [] then multiset{}
    else (if queue[0].Cleanup? then One(queue[0].lock) else multiset{}) + PendingLocks(queue[1..])
  }

  function Writes(queue: seq<Job>): nat {
    if queue == [] then 0 else (if queue[0].Persist? then 1 else 0) + Writes(queue[1..])
  }

  lemma {:induction false} QueueAppend(queue: seq<Job>, job: Job)
    ensures PendingLocks(queue + [job]) == PendingLocks(queue) + (if job.Cleanup? then One(job.lock) else multiset{})
    ensures Writes(queue + [job]) == Writes(queue) + (if job.Persist? then 1 else 0)
  {
    if queue == [] {
    } else {
      assert (queue + [job])[1..] == queue[1..] + [job];
      QueueAppend(queue[1..], job);
    }
  }

  /** Every lock ever acquired is held by the controller, on its way out, or released: each exactly once. */
  predicate LocksConserved(s: Sys) {
    s.acquired == s.released + PendingLocks(s.queue) + One(s.ownership)
  }

  predicate IsRemoval(job: Job, u: nat) {
    job.Cleanup? && job.artifact == Some(u) && !job.removed
  }

  /** A queued removal that has not happened yet. */
  ghost predicate WillRemove(queue: seq<Job>, u: nat) {
    exists job | job in queue :: IsRemoval(job, u)
  }

  /**
    Whatever is handed over for cleanup has its lock released, now or by the worker, and its artifact removed by the
    worker, or left where a worker already closed cannot reach it.
   */
  lemma HandedOver(s: Sys, artifact: Option<nat>, lock: Option<nat>)
    ensures
      var t := QueueCleanup(s, artifact, lock);
      && t.released + PendingLocks(t.queue) == s.released + PendingLocks(s.queue) + One(lock)
      && (artifact.Some? ==> if s.workerClosed then t.cleanupFailed else WillRemove(t.queue, artifact.value))
      && (artifact.None? || !s.workerClosed ==> t.cleanupFailed == s.cleanupFailed)
      && (artifact.None? && lock.None? ==> t == s)
  {
    QueueAppend(s.queue, Cleanup(artifact, lock, false));
    if artifact.Some? && !s.workerClosed {
      var job := Cleanup(artifact, lock, false);
      assert IsRemoval(job, artifact.value) && job in QueueCleanup(s, artifact, lock).queue;
    }
  }

  // --- The invariant -------------------------------------------------------------------------

  /** A queued write is no newer than the controller; of the current generation, it writes the current name. */
  predicate WriteFenced(s: Sys, job: Job)
    requires job.Persist?
  {
    job.uuid < s.nextUuid && job.generation <= s.generation && job.token <= s.serial
    && (job.generation == s.generation ==> s.uuid == Some(job.uuid))
  }

  /** Each generation has its own artifact name; removals never name the current one. */
  predicate Fenced(s: Sys) {
    && s.uuid == s.ownership && (s.uuid.Some? ==> s.uuid.value < s.nextUuid)
    && (forall u | u in s.artifacts :: u < s.nextUuid)
    && (forall job | job in s.queue && job.Persist? :: WriteFenced(s, job))
    && (forall job | job in s.queue && job.Cleanup? && job.artifact.Some? ::
          job.artifact.value < s.nextUuid && s.uuid != job.artifact)
    && (forall write | write in s.done :: write.token <= s.serial)
  }

  /** Only the current artifact, and those with a removal queued, can exist. */
  ghost predicate Contained(s: Sys) {
    !s.cleanupFailed ==> forall u | u in s.artifacts :: s.uuid == Some(u) || WillRemove(s.queue, u)
  }

  predicate OneAtATime(s: Sys) {
    && Writes(s.queue) + |s.done| == (if s.inFlight then 1 else 0)
    && !(s.timer && s.inFlight) && (s.timer ==> s.uuid.Some?)
    && (s.closed ==> !s.timer && s.uuid.None? && s.suppressed)
    && (s.workerClosed ==> s.closed)
  }

  // --- Progress ------------------------------------------------------------------------------

  predicate Published(s: Sys, u: nat) {
    u in s.artifacts && s.artifacts[u] == Some(s.serial)
  }

  /** A write of the current change serial belongs to the current generation, and once settled it is published. */
  predicate WriteIsCurrent(s: Sys) {
    !s.closed && !s.failedSinceChange ==>
      && (forall job | job in s.queue && job.Persist? && job.token == s.serial ::
            job.generation == s.generation && (job.phase == Settled ==> Published(s, job.uuid)))
      && (forall write | write in s.done && write.token == s.serial ::
            s.uuid == Some(write.uuid) && Published(s, write.uuid))
  }

  /** The current change is safe on disk: published, or just adopted. */
  predicate Recorded(s: Sys) {
    && s.uuid.Some? && s.uuid.value in s.artifacts
    && (s.artifacts[s.uuid.value] == Some(s.serial) || s.adopted == Some(s.serial))
  }

  predicate Progress(s: Sys) {
    !s.closed && !s.suppressed && !s.inFlight && !s.failedSinceChange && Recoverable(s.doc) ==> s.timer || Recorded(s)
  }

  ghost predicate Inv(s: Sys) {
    LocksConserved(s) && Fenced(s) && Contained(s) && OneAtATime(s) && WriteIsCurrent(s) && Progress(s)
  }

  /** A controller that was told to forget the document holds nothing of it, until the document changes again. */
  predicate Hushed(s: Sys) {
    s.suppressed ==> s.uuid.None? && s.ownership.None? && !s.timer
  }

  // --- Queue lemmas --------------------------------------------------------------------------

  lemma {:induction false} NoWritesQueued(queue: seq<Job>)
    requires Writes(queue) == 0
    ensures forall job | job in queue :: job.Cleanup?
  {
    if queue == [] {
    } else {
      NoWritesQueued(queue[1..]);
      assert queue == [queue[0]] + queue[1..];
    }
  }

  lemma RemovalsAfterHead(queue: seq<Job>, head: Job, u: nat)
    requires queue != [] && WillRemove(queue, u) && !IsRemoval(queue[0], u)
    ensures WillRemove(queue[1..], u) && WillRemove([head] + queue[1..], u)
  {
    var job :| job in queue && IsRemoval(job, u);
    assert queue == [queue[0]] + queue[1..];
    assert job in queue[1..];
  }

  // --- Preservation: the building blocks -----------------------------------------------------

  /** The part of the invariant that does not speak of progress. */
  ghost predicate Safe(s: Sys) {
    LocksConserved(s) && Fenced(s) && Contained(s) && OneAtATime(s)
  }

  /** No write under way carries the current change serial. */
  predicate Quiet(s: Sys) {
    && (forall job | job in s.queue && job.Persist? :: job.token < s.serial)
    && (forall write | write in s.done :: write.token < s.serial)
  }

  lemma NoWriteIsQuiet(s: Sys)
    requires Writes(s.queue) == 0 && s.done == []
    ensures Quiet(s)
  {
    NoWritesQueued(s.queue);
  }

  /** The state in which the current generation has been given up, its artifact and lock not yet handed over. */
  predicate GaveUp(before: Sys, s: Sys) {
    && s == Forget(before).(newer := s.newer, suppressed := s.suppressed, closed := s.closed)
    && (s.closed ==> s.suppressed) && !before.closed
  }

  lemma DropLocks(before: Sys, s: Sys)
    requires GaveUp(before, s) && LocksConserved(before) && Fenced(before) && OneAtATime(before)
    ensures LocksConserved(QueueCleanup(s, before.uuid, before.ownership))
    ensures OneAtATime(QueueCleanup(s, before.uuid, before.ownership))
  {
    QueueAppend(s.queue, Cleanup(before.uuid, before.ownership, false));
  }

  lemma DropFenced(before: Sys, s: Sys)
    requires GaveUp(before, s) && Fenced(before) && !s.workerClosed
    ensures Fenced(QueueCleanup(s, before.uuid, before.ownership))
  {
    var t := QueueCleanup(s, before.uuid, before.ownership);
    forall job | job in t.queue && job.Persist? ensures WriteFenced(t, job) { assert WriteFenced(before, job); }
  }

  lemma DropContained(before: Sys, s: Sys)
    requires GaveUp(before, s) && Contained(before) && !s.workerClosed
    ensures Contained(QueueCleanup(s, before.uuid, before.ownership))
  {
    var job := Cleanup(before.uuid, before.ownership, false);
    var queue := QueueCleanup(s, before.uuid, before.ownership).queue;
    if before.uuid.Some? { assert IsRemoval(job, before.uuid.value) && job in queue; }
  }

  /** Giving up the current generation hands its artifact and its lock to one cleanup job. */
  lemma DropSafe(before: Sys, s: Sys)
    requires GaveUp(before, s) && Safe(before)
    ensures Safe(QueueCleanup(s, before.uuid, before.ownership))
  {
    DropLocks(before, s);
    DropFenced(before, s);
    DropContained(before, s);
  }

  lemma InvalidateCurrentSafe(s: Sys)
    requires Safe(s) && !s.closed
    ensures Safe(InvalidateCurrent(s))
  {
    DropSafe(s, Forget(s).(newer := false));
  }

  lemma InvalidateCurrentQuiet(s: Sys)
    requires Quiet(s)
    ensures Quiet(InvalidateCurrent(s))
  {}

  /** What starting or keeping a generation leaves alone. */
  predicate SameChange(s: Sys, t: Sys) {
    t.doc == s.doc && t.serial == s.serial && t.closed == s.closed && t.suppressed == s.suppressed
    && t.inFlight == s.inFlight && (t.timer ==> s.timer) && t.workerClosed == s.workerClosed
  }

  lemma StartGenerationSafe(s: Sys, acquireOk: bool)
    requires Safe(s) && !s.closed && s.uuid.None?
    ensures var (t, ok) := StartGeneration(s, acquireOk);
            && Safe(t) && (Quiet(s) ==> Quiet(t)) && SameChange(s, t)
            && (if ok then t.uuid.Some? else t.failedSinceChange)
  {
    var t := StartGeneration(s, acquireOk).0;
    forall u | u in t.artifacts && !t.cleanupFailed ensures WillRemove(t.queue, u) { assert u in s.artifacts; }
  }

  lemma EnsureGenerationSafe(s: Sys, acquireOk: bool)
    requires Safe(s) && !s.closed
    ensures var (t, ok) := EnsureGeneration(s, acquireOk);
            && Safe(t) && (Quiet(s) ==> Quiet(t)) && SameChange(s, t)
            && (if ok then t.uuid.Some? else t.failedSinceChange)
  {
    if !(s.uuid.Some? && s.key == Some(s.doc.key)) {
      if s.uuid.Some? { InvalidateCurrentSafe(s); }
      if s.uuid.Some? && Quiet(s) { InvalidateCurrentQuiet(s); }
      var t := if s.uuid.Some? || s.ownership.Some? then InvalidateCurrent(s) else s;
      assert Safe(t) && t.uuid.None? && !t.timer;
      StartGenerationSafe(t, acquireOk);
    }
  }

  lemma ScheduleSafe(s: Sys, scheduleOk: bool)
    requires Safe(s) && Quiet(s) && s.uuid.Some? && !s.closed
    ensures Inv(ScheduleIfNeeded(s, scheduleOk))
  {}

  lemma ScheduleAfterSafe(ensured: (Sys, bool), scheduleOk: bool)
    requires Safe(ensured.0) && Quiet(ensured.0) && !ensured.0.closed
    requires if ensured.1 then ensured.0.uuid.Some? else ensured.0.failedSinceChange
    ensures Inv(ScheduleAfter(ensured, scheduleOk))
  {
    if ensured.1 && !ensured.0.inFlight { ScheduleSafe(ensured.0, scheduleOk); }
  }

  /** With nothing current on its way, the invariant comes down to safety and progress. */
  lemma QuietInv(s: Sys)
    requires Safe(s) && Quiet(s) && Progress(s)
    ensures Inv(s)
  {}

  // --- Preservation, event by event ----------------------------------------------------------

  lemma ChangedSafe(s: Sys, doc: Doc)
    requires Safe(s) && !s.closed
    ensures Safe(Changed(s, doc)) && Quiet(Changed(s, doc))
  {}

  lemma DocChangedKeeps(s: Sys, doc: Doc, acquireOk: bool, scheduleOk: bool)
    requires Inv(s) && !s.closed
    ensures Inv(DocumentStateChanged(s, doc, acquireOk, scheduleOk))
  {
    var t := Changed(s, doc);
    ChangedSafe(s, doc);
    if !doc.modified {
      InvalidateCurrentSafe(t);
      InvalidateCurrentQuiet(t);
      QuietInv(InvalidateCurrent(t));
    } else if !doc.stable {
      QuietInv(t);
    } else {
      EnsureGenerationSafe(t, acquireOk);
      ScheduleAfterSafe(EnsureGeneration(t, acquireOk), scheduleOk);
    }
  }

  lemma TimerGoneSafe(s: Sys)
    requires Safe(s) && !s.inFlight
    ensures Safe(TimerGone(s)) && Quiet(TimerGone(s))
  {
    NoWriteIsQuiet(s);
  }

  lemma CaptureFailed(s: Sys, newer: bool)
    requires Safe(s) && Quiet(s)
    ensures Inv(s.(newer := newer, failedSinceChange := true))
  {}

  lemma SubmitLocks(s: Sys)
    requires LocksConserved(s) && s.uuid.Some?
    ensures LocksConserved(Submit(s)) && Writes(Submit(s).queue) == Writes(s.queue) + 1
  {
    QueueAppend(s.queue, Persist(s.uuid.value, s.generation, s.serial, Waiting));
  }

  lemma SubmitFenced(s: Sys)
    requires Fenced(s) && Contained(s) && s.uuid.Some?
    ensures Fenced(Submit(s)) && Contained(Submit(s))
  {}

  lemma SubmitSafe(s: Sys)
    requires Safe(s) && !s.closed && !s.timer && !s.inFlight && s.uuid.Some?
    ensures Safe(Submit(s))
  {
    SubmitLocks(s);
    SubmitFenced(s);
  }

  lemma SubmitCurrent(s: Sys)
    requires Safe(s) && !s.closed && !s.timer && !s.inFlight && s.uuid.Some?
    ensures WriteIsCurrent(Submit(s)) && Progress(Submit(s))
  {
    NoWritesQueued(s.queue);
  }

  lemma CaptureNowKeeps(ensured: (Sys, bool), scheduleOk: bool, disturbed: bool, recordOk: bool, submitOk: bool)
    requires Safe(ensured.0) && Quiet(ensured.0) && !ensured.0.closed && !ensured.0.timer && !ensured.0.inFlight
    requires if ensured.1 then ensured.0.uuid.Some? else ensured.0.failedSinceChange
    ensures Inv(CaptureNow(ensured, scheduleOk, disturbed, recordOk, submitOk))
  {
    var s := ensured.0;
    if ensured.1 {
      if disturbed { ScheduleSafe(s.(newer := true), scheduleOk); }
      else if recordOk && submitOk && !s.workerClosed { SubmitSafe(s); SubmitCurrent(s); }
      else { CaptureFailed(s, s.newer); CaptureFailed(s, false); }
    } else {
      QuietInv(s);
    }
  }

  /** The callback of a timer keeps the invariant whenever no write is under way. */
  lemma CaptureCallbackKeeps(s: Sys, acquireOk: bool, scheduleOk: bool, disturbed: bool, recordOk: bool, submitOk: bool)
    requires Inv(s) && !s.closed && !s.inFlight
    ensures Inv(CaptureCallback(s, acquireOk, scheduleOk, disturbed, recordOk, submitOk))
  {
    var t := TimerGone(s);
    TimerGoneSafe(s);
    if !t.doc.modified {
      InvalidateCurrentSafe(t);
      InvalidateCurrentQuiet(t);
      QuietInv(InvalidateCurrent(t));
    } else if !t.doc.stable {
      QuietInv(t);
    } else {
      EnsureGenerationSafe(t, acquireOk);
      CaptureNowKeeps(EnsureGeneration(t, acquireOk), scheduleOk, disturbed, recordOk, submitOk);
    }
  }

  /** The timer fires: its callback runs with no write under way. */
  lemma CaptureDueKeeps(s: Sys, acquireOk: bool, scheduleOk: bool, disturbed: bool, recordOk: bool, submitOk: bool)
    requires Inv(s)
    ensures Inv(CaptureDue(s, acquireOk, scheduleOk, disturbed, recordOk, submitOk))
  {
    if s.timer { CaptureCallbackKeeps(s, acquireOk, scheduleOk, disturbed, recordOk, submitOk); }
  }

  /** The callback gets as far as handing a record to the worker. */
  predicate Submits(s: Sys, acquireOk: bool, disturbed: bool, recordOk: bool, submitOk: bool) {
    && Recoverable(s.doc) && ((s.uuid.Some? && s.key == Some(s.doc.key)) || acquireOk)
    && !disturbed && recordOk && submitOk
  }

  lemma InvalidateKeepsCount(s: Sys)
    requires OneAtATime(s) && !s.closed && !s.timer
    ensures OneAtATime(InvalidateCurrent(s)) && SameChange(s, InvalidateCurrent(s))
  {
    QueueAppend(s.queue, Cleanup(s.uuid, s.ownership, false));
  }

  lemma EnsureKeepsCount(s: Sys, acquireOk: bool)
    requires OneAtATime(s) && s.uuid == s.ownership && !s.closed && !s.timer
    ensures var (t, ok) := EnsureGeneration(s, acquireOk);
            && OneAtATime(t) && SameChange(s, t) && !t.timer && (ok ==> t.uuid.Some?)
            && (ok <==> (s.uuid.Some? && s.key == Some(s.doc.key)) || acquireOk)
  {
    InvalidateKeepsCount(s);
  }

  lemma SecondWrite(s: Sys)
    requires OneAtATime(s) && s.inFlight && s.uuid.Some?
    ensures !OneAtATime(Submit(s))
  {
    QueueAppend(s.queue, Persist(s.uuid.value, s.generation, s.serial, Waiting));
  }

  lemma StaleCaptureWrites(s: Sys, ok: bool, scheduleOk: bool, disturbed: bool, recordOk: bool, submitOk: bool)
    requires OneAtATime(s) && s.inFlight && !s.closed && (ok ==> s.uuid.Some?)
    ensures OneAtATime(CaptureNow((s, ok), scheduleOk, disturbed, recordOk, submitOk)) <==>
              !(ok && !disturbed && recordOk && submitOk)
  {
    if s.uuid.Some? { SecondWrite(s); }
  }

  lemma StaleCallbackWrites(s: Sys, acquireOk: bool, scheduleOk: bool, disturbed: bool, recordOk: bool, submitOk: bool)
    requires Safe(s) && !s.closed && s.inFlight
    ensures OneAtATime(CaptureCallback(s, acquireOk, scheduleOk, disturbed, recordOk, submitOk)) <==>
              !Submits(s, acquireOk, disturbed, recordOk, submitOk)
  {
    assert s.uuid == s.ownership && OneAtATime(s) && TimerGone(s) == s;
    hide LocksConserved, Fenced, Contained, EnsureGeneration, InvalidateCurrent, CaptureNow;
    if !s.doc.modified {
      InvalidateKeepsCount(s);
    } else if s.doc.stable {
      var (t, ok) := EnsureGeneration(s, acquireOk);
      EnsureKeepsCount(s, acquireOk);
      StaleCaptureWrites(t, ok, scheduleOk, disturbed, recordOk, submitOk);
    }
  }

  /**
    A callback that runs although its timer was given up, because the cancellation failed, breaks the rule of
    one write at a time exactly when a write is under way and it gets to submit another.
   */
  lemma StaleCallbackExact(s: Sys, acquireOk: bool, scheduleOk: bool, disturbed: bool, recordOk: bool, submitOk: bool)
    requires Inv(s) && !s.closed
    ensures OneAtATime(CaptureCallback(s, acquireOk, scheduleOk, disturbed, recordOk, submitOk)) <==>
              !(s.inFlight && Submits(s, acquireOk, disturbed, recordOk, submitOk))
  {
    if !s.inFlight {
      CaptureCallbackKeeps(s, acquireOk, scheduleOk, disturbed, recordOk, submitOk);
    } else {
      StaleCallbackWrites(s, acquireOk, scheduleOk, disturbed, recordOk, submitOk);
    }
  }

  /** The callback leaves the generation as it is. */
  predicate KeepsGeneration(s: Sys) {
    s.doc.modified && (s.doc.stable ==> s.uuid.Some? && s.key == Some(s.doc.key))
  }

  lemma SubmitCurrentToo(s: Sys)
    requires s.uuid.Some? && WriteIsCurrent(s)
    ensures WriteIsCurrent(Submit(s))
  {}

  lemma SubmitFlies(s: Sys)
    requires s.uuid.Some?
    ensures Submit(s).inFlight
  {}

  lemma StaleSubmit(s: Sys)
    requires Safe(s) && s.uuid.Some?
    ensures LocksConserved(Submit(s)) && Fenced(Submit(s)) && Contained(Submit(s))
    ensures WriteIsCurrent(s) ==> WriteIsCurrent(Submit(s))
  {
    SubmitLocks(s);
    SubmitFenced(s);
    if WriteIsCurrent(s) { SubmitCurrentToo(s); }
  }

  lemma StaleFlags(s: Sys, newer: bool, failed: bool)
    requires Safe(s) && (s.failedSinceChange ==> failed)
    ensures
      var t := s.(newer := newer, failedSinceChange := failed);
      LocksConserved(t) && Fenced(t) && Contained(t) && (WriteIsCurrent(s) ==> WriteIsCurrent(t))
  {}

  lemma StaleCaptureKeeps(ensured: (Sys, bool), scheduleOk: bool, disturbed: bool, recordOk: bool, submitOk: bool)
    requires Safe(ensured.0) && !ensured.0.closed && ensured.0.inFlight
    ensures
      var t := CaptureNow(ensured, scheduleOk, disturbed, recordOk, submitOk);
      LocksConserved(t) && Fenced(t) && Contained(t) && Progress(t) && (WriteIsCurrent(ensured.0) ==> WriteIsCurrent(t))
  {
    hide LocksConserved, Fenced, Contained, Submit;
    var s := ensured.0;
    assert s.inFlight && CaptureNow(ensured, scheduleOk, disturbed, recordOk, submitOk).inFlight by {
      if s.uuid.Some? { SubmitFlies(s); }
    }
    if ensured.1 && s.uuid.Some? {
      if disturbed { StaleFlags(s, true, s.failedSinceChange); }
      else if recordOk && submitOk && !s.workerClosed { StaleSubmit(s); }
      else { StaleFlags(s, s.newer, true); StaleFlags(s, false, true); }
    }
  }

  /**
    Whatever such a callback does, no lock is lost or released twice, no artifact is overwritten or removed by
    another generation or left behind; and a write of the current change stays one of the current generation unless
    the callback replaces that.
   */
  lemma StaleCallbackKeepsRest(s: Sys, acquireOk: bool, scheduleOk: bool, disturbed: bool, recordOk: bool,
                               submitOk: bool)
    requires Inv(s) && !s.closed
    ensures
      var t := CaptureCallback(s, acquireOk, scheduleOk, disturbed, recordOk, submitOk);
      LocksConserved(t) && Fenced(t) && Contained(t) && Progress(t) && (KeepsGeneration(s) ==> WriteIsCurrent(t))
  {
    hide LocksConserved, Fenced, Contained, WriteIsCurrent, CaptureNow;
    if !s.inFlight {
      CaptureCallbackKeeps(s, acquireOk, scheduleOk, disturbed, recordOk, submitOk);
    } else {
      assert TimerGone(s) == s;
      if !s.doc.modified {
        InvalidateCurrentSafe(s);
      } else if s.doc.stable {
        EnsureGenerationSafe(s, acquireOk);
        StaleCaptureKeeps(EnsureGeneration(s, acquireOk), scheduleOk, disturbed, recordOk, submitOk);
      }
    }
  }

  lemma InvalidateDropsAll(s: Sys)
    ensures var t := InvalidateCurrent(s);
            && t.generation > s.generation && t.uuid.None? && t.ownership.None? && !t.timer
            && t.suppressed == s.suppressed && t.closed == s.closed
  {}

  lemma StartTakesUp(s: Sys, acquireOk: bool)
    ensures var (t, ok) := StartGeneration(s, acquireOk);
            && t.suppressed == s.suppressed && t.closed == s.closed && t.timer == s.timer
            && t.generation > s.generation && ok == acquireOk
            && (if ok then t.uuid.Some? else t.uuid == s.uuid && t.ownership == s.ownership)
  {}

  /** A generation is begun or kept without asking whether anything is to be remembered. */
  lemma EnsureTakesUp(s: Sys, acquireOk: bool)
    ensures var (t, ok) := EnsureGeneration(s, acquireOk);
            && t.suppressed == s.suppressed && t.closed == s.closed && (t.timer ==> s.timer)
            && (if s.uuid.Some? && s.key == Some(s.doc.key) then t == s
                else t.generation > s.generation + (if s.uuid.Some? then 1 else 0))
            && (s.uuid.None? && s.ownership.None? ==>
                  if acquireOk then ok && t.uuid.Some? else !ok && t.uuid.None? && t.ownership.None?)
  {
    hide InvalidateCurrent, StartGeneration;
    InvalidateDropsAll(s);
    StartTakesUp(s, acquireOk);
    StartTakesUp(InvalidateCurrent(s), acquireOk);
  }

  lemma CaptureNowHolds(ensured: (Sys, bool), scheduleOk: bool, disturbed: bool, recordOk: bool, submitOk: bool)
    ensures
      var s, t := ensured.0, CaptureNow(ensured, scheduleOk, disturbed, recordOk, submitOk);
      && t.suppressed == s.suppressed && t.uuid == s.uuid && t.ownership == s.ownership
      && (!ensured.1 ==> t == s)
  {}

  /** Such a callback takes a document up again that was to be forgotten exactly when there is one to recover. */
  lemma StaleCallbackRevives(s: Sys, acquireOk: bool, scheduleOk: bool, disturbed: bool, recordOk: bool, submitOk: bool)
    requires Inv(s) && Hushed(s) && !s.closed
    ensures Hushed(CaptureCallback(s, acquireOk, scheduleOk, disturbed, recordOk, submitOk)) <==>
              !(s.suppressed && Recoverable(s.doc) && acquireOk)
  {
    hide Inv, InvalidateCurrent, EnsureGeneration, CaptureNow;
    InvalidateDropsAll(TimerGone(s));
    EnsureTakesUp(TimerGone(s), acquireOk);
    CaptureNowHolds(EnsureGeneration(TimerGone(s), acquireOk), scheduleOk, disturbed, recordOk, submitOk);
  }

  lemma WriteReturnedSafe(s: Sys)
    requires Inv(s) && s.done != []
    ensures Safe(WriteReturned(s)) && Quiet(WriteReturned(s))
  {
    NoWriteIsQuiet(WriteReturned(s));
  }

  lemma WriteReturnedProgress(s: Sys)
    requires Inv(s) && s.done != [] && !(s.serial > s.done[0].token || s.newer)
    ensures Progress(WriteReturned(s))
  {
    assert s.done[0] in s.done;
  }

  lemma CompletedKeeps(s: Sys, acquireOk: bool, scheduleOk: bool)
    requires Inv(s) && s.done != []
    ensures Inv(Completed(s, acquireOk, scheduleOk))
  {
    var t := WriteReturned(s);
    WriteReturnedSafe(s);
    if s.closed || s.suppressed {
      QuietInv(t);
    } else if !s.doc.modified {
      InvalidateCurrentSafe(t);
      InvalidateCurrentQuiet(t);
      QuietInv(InvalidateCurrent(t));
    } else if s.serial > s.done[0].token || s.newer {
      EnsureGenerationSafe(t, acquireOk);
      ScheduleAfterSafe(EnsureGeneration(t, acquireOk), scheduleOk);
    } else {
      WriteReturnedProgress(s);
      QuietInv(t);
    }
  }

  lemma AdoptSafe(s: Sys, doc: Doc)
    requires Safe(s) && !s.closed && s.uuid.None? && doc.modified
    ensures Safe(Adopt(s, doc))
  {}

  lemma AdoptQuiet(s: Sys, doc: Doc)
    requires Fenced(s)
    ensures Quiet(Adopt(s, doc)) && Progress(Adopt(s, doc))
  {}

  /** A session move that makes no new change asks nothing of the controller, nor does any once it is closed. */
  lemma MovedKeeps(s: Sys, doc: Doc)
    requires Inv(s) && ((Recoverable(doc) ==> Recoverable(s.doc)) || s.closed)
    ensures Inv(Moved(s, doc))
  {}

  lemma InstallKeeps(s: Sys, installed: Option<Doc>)
    requires Inv(s) && !s.closed && s.uuid.None?
    ensures Inv(InstallRecovered(s, installed))
  {
    assert !s.timer;
    if installed.Some? && installed.value.modified {
      AdoptSafe(s, installed.value);
      AdoptQuiet(s, installed.value);
      QuietInv(Adopt(s, installed.value));
    } else {
      assert TimerGone(s) == s;
      if installed.Some? { MovedKeeps(s, installed.value); }
    }
  }

  lemma InvalidateKeeps(s: Sys)
    requires Inv(s) && !s.closed
    ensures Inv(Invalidate(s))
  {
    var t := Suppressed(s);
    assert Safe(t) && Quiet(t);
    InvalidateCurrentSafe(t);
    InvalidateCurrentQuiet(t);
    QuietInv(InvalidateCurrent(t));
  }

  lemma CloseWorkerKeeps(s: Sys)
    requires Safe(s) && s.closed
    ensures Inv(CloseWorker(s))
  {}

  lemma CloseKeeps(s: Sys)
    requires Inv(s) && !s.closed
    ensures Inv(Close(s))
  {
    var t := QueueCleanup(Forget(s).(closed := true, suppressed := true), s.uuid, s.ownership);
    DropSafe(s, Forget(s).(closed := true, suppressed := true));
    CloseWorkerKeeps(t);
  }

  // --- Preservation, worker steps ------------------------------------------------------------

  /** A write at the head is the only one, and nothing is waiting for its callback. */
  lemma OnlyWrite(s: Sys)
    requires OneAtATime(s) && s.queue != [] && s.queue[0].Persist?
    ensures s.inFlight && s.done == [] && Writes(s.queue[1..]) == 0
    ensures forall job | job in s.queue && job.Persist? :: job == s.queue[0]
  {
    NoWritesQueued(s.queue[1..]);
    assert s.queue == [s.queue[0]] + s.queue[1..];
  }

  lemma ReplaceWriteSafe(s: Sys, phase: Phase)
    requires Safe(s) && s.queue != [] && s.queue[0].Persist?
    ensures Safe(ReplaceHead(s, s.queue[0].(phase := phase)))
  {
    var head := s.queue[0].(phase := phase);
    assert s.queue == [s.queue[0]] + s.queue[1..];
    assert ReplaceHead(s, head).queue[1..] == s.queue[1..];
    forall u | WillRemove(s.queue, u)
      ensures WillRemove([head] + s.queue[1..], u)
    {
      RemovalsAfterHead(s.queue, head, u);
    }
  }

  lemma SettleSafe(s: Sys, portOk: bool)
    requires Safe(s) && s.queue != [] && s.queue[0].Persist?
    ensures Safe(Settle(s, portOk))
    ensures !HeadIsCurrent(s) ==> Settle(s, portOk).artifacts == s.artifacts
  {
    assert s.queue[0] in s.queue;
    ReplaceWriteSafe(s, Settled);
  }

  lemma FinishPersistSafe(s: Sys)
    requires Safe(s) && s.queue != [] && s.queue[0].Persist?
    ensures Safe(FinishPersist(s))
  {
    assert s.queue == [s.queue[0]] + s.queue[1..];
    forall u | WillRemove(s.queue, u) ensures WillRemove(s.queue[1..], u) { RemovalsAfterHead(s.queue, s.queue[0], u); }
  }

  lemma StagingFailedSafe(s: Sys)
    requires Safe(s) && s.queue != [] && s.queue[0].Persist?
    ensures Safe(StagingFailed(s))
  {
    FinishPersistSafe(s);
  }

  lemma PersistSafe(s: Sys, portOk: bool)
    requires Safe(s) && s.queue != [] && s.queue[0].Persist?
    ensures Safe(PersistStep(s, portOk))
  {
    var p := s.queue[0];
    match p.phase
    case Waiting =>
      if portOk { ReplaceWriteSafe(s, Staged); } else { StagingFailedSafe(s); }
    case Staged => SettleSafe(s, portOk);
    case Settled => FinishPersistSafe(s);
  }

  lemma PersistProgress(s: Sys, portOk: bool)
    requires OneAtATime(s) && s.queue != [] && s.queue[0].Persist?
    ensures Progress(PersistStep(s, portOk))
  {
    OnlyWrite(s);
  }

  lemma SettleCurrent(s: Sys, portOk: bool)
    requires OneAtATime(s) && Fenced(s) && WriteIsCurrent(s) && s.queue != [] && s.queue[0].Persist?
    requires s.queue[0].phase == Staged
    ensures WriteIsCurrent(Settle(s, portOk))
  {
    OnlyWrite(s);
    assert s.queue[0] in s.queue;
    NoWritesQueued(s.queue[1..]);
  }

  lemma PersistCurrent(s: Sys, portOk: bool)
    requires OneAtATime(s) && Fenced(s) && WriteIsCurrent(s) && s.queue != [] && s.queue[0].Persist?
    requires s.queue[0].phase != Staged
    ensures WriteIsCurrent(PersistStep(s, portOk))
  {
    OnlyWrite(s);
    assert s.queue[0] in s.queue;
    NoWritesQueued(s.queue[1..]);
  }

  lemma RemoveSafe(s: Sys, artifact: Option<nat>)
    requires Safe(s)
    ensures Safe(Remove(s, artifact))
  {}

  lemma RemoveProgress(s: Sys, artifact: Option<nat>)
    requires Progress(s) && (artifact.Some? ==> s.uuid != artifact)
    ensures Progress(Remove(s, artifact))
  {}

  lemma RemoveCurrent(s: Sys, artifact: Option<nat>)
    requires Fenced(s) && WriteIsCurrent(s) && (artifact.Some? ==> s.uuid != artifact)
    ensures WriteIsCurrent(Remove(s, artifact))
  {}

  /** A cleanup whose artifact is gone, or whose removal failed, keeps only the lock to release. */
  lemma RetireSafe(s: Sys)
    requires Safe(s) && s.queue != [] && s.queue[0].Cleanup?
    requires s.cleanupFailed || s.queue[0].artifact.None? || s.queue[0].artifact.value !in s.artifacts
    ensures Safe(ReplaceHead(s, s.queue[0].(removed := true)))
  {
    var head := s.queue[0].(removed := true);
    assert s.queue == [s.queue[0]] + s.queue[1..];
    assert ([head] + s.queue[1..])[1..] == s.queue[1..];
    forall u: nat | WillRemove(s.queue, u) && s.queue[0].artifact != Some(u)
      ensures WillRemove([head] + s.queue[1..], u)
    {
      RemovalsAfterHead(s.queue, head, u);
    }
  }

  lemma RetireCurrent(s: Sys)
    requires WriteIsCurrent(s) && s.queue != [] && s.queue[0].Cleanup?
    ensures WriteIsCurrent(ReplaceHead(s, s.queue[0].(removed := true)))
  {
    assert s.queue == [s.queue[0]] + s.queue[1..];
  }

  lemma RetireKeeps(s: Sys)
    requires Inv(s) && s.queue != [] && s.queue[0].Cleanup?
    requires s.cleanupFailed || s.queue[0].artifact.None? || s.queue[0].artifact.value !in s.artifacts
    ensures Inv(ReplaceHead(s, s.queue[0].(removed := true)))
  {
    RetireSafe(s);
    RetireCurrent(s);
  }

  lemma RemovalFailedKeeps(s: Sys)
    requires Inv(s)
    ensures Inv(RemovalFailed(s))
  {}

  lemma FinishCleanupSafe(s: Sys)
    requires Safe(s) && s.queue != [] && s.queue[0].Cleanup? && s.queue[0].removed
    ensures Safe(FinishCleanup(s))
  {
    assert s.queue == [s.queue[0]] + s.queue[1..];
    forall u | WillRemove(s.queue, u) ensures WillRemove(s.queue[1..], u) { RemovalsAfterHead(s.queue, s.queue[0], u); }
  }

  lemma FinishCleanupKeeps(s: Sys)
    requires Inv(s) && s.queue != [] && s.queue[0].Cleanup? && s.queue[0].removed
    ensures Inv(FinishCleanup(s))
  {
    FinishCleanupSafe(s);
    assert s.queue == [s.queue[0]] + s.queue[1..];
  }

  lemma RemoveKeeps(s: Sys)
    requires Inv(s) && s.queue != [] && s.queue[0].Cleanup?
    ensures Inv(Remove(s, s.queue[0].artifact))
  {
    var artifact := s.queue[0].artifact;
    assert s.queue[0] in s.queue;
    RemoveSafe(s, artifact);
    RemoveProgress(s, artifact);
    RemoveCurrent(s, artifact);
  }

  lemma FailedRetireKeeps(s: Sys)
    requires Inv(s) && s.queue != [] && s.queue[0].Cleanup?
    ensures Inv(ReplaceHead(RemovalFailed(s), s.queue[0].(removed := true)))
  {
    RemovalFailedKeeps(s);
    RetireKeeps(RemovalFailed(s));
  }

  lemma CleanupKeeps(s: Sys, portOk: bool)
    requires Inv(s) && s.queue != [] && s.queue[0].Cleanup?
    ensures Inv(CleanupStep(s, portOk))
  {
    var c := s.queue[0];
    if c.removed {
      FinishCleanupKeeps(s);
    } else if c.artifact.Some? && !portOk {
      FailedRetireKeeps(s);
    } else {
      RemoveKeeps(s);
      RetireKeeps(Remove(s, c.artifact));
    }
  }

  lemma WorkerKeeps(s: Sys, portOk: bool)
    requires Inv(s) && s.queue != []
    ensures Inv(WorkerStep(s, portOk))
  {
    if s.queue[0].Persist? {
      PersistSafe(s, portOk);
      PersistProgress(s, portOk);
      if s.queue[0].phase == Staged { SettleCurrent(s, portOk); } else { PersistCurrent(s, portOk); }
    } else {
      CleanupKeeps(s, portOk);
    }
  }
}
