/**
  The recovery controller in place: each callback updates the fields, takes the step of `RecoveryMachine`,
  keeps the invariant of all interleavings, and says what its caller can rely on.
 */
module RecoveryControllerClass {
  import opened Prelude
  import opened RecoveryMachine
  import opened RecoverySafety
  import opened RecoveryRuns

  // --- What a callback promises --------------------------------------------------------------

  lemma CallbackKeeps(s: Sys, e: Event)
    requires Inv(s) && Hushed(s)
    ensures Inv(Next(s, e)) && Hushed(Next(s, e))
  {
    NextKeeps(s, e);
    NextHushed(s, e);
  }

  lemma GivenUp(s: Sys)
    ensures var t := InvalidateCurrent(s); !t.timer && t.uuid.None? && t.ownership.None? && t.inFlight == s.inFlight
    ensures InvalidateCurrent(s).closed == s.closed && InvalidateCurrent(s).suppressed == s.suppressed
    ensures InvalidateCurrent(s).failedSinceChange == s.failedSinceChange
  {}

  lemma GenerationPromises(s: Sys, acquireOk: bool)
    ensures var (t, ok) := EnsureGeneration(s, acquireOk);
            && (if ok then t.uuid.Some? else t.failedSinceChange)
            && (acquireOk ==> ok && t.failedSinceChange == s.failedSinceChange)
            && t.inFlight == s.inFlight && t.closed == s.closed
  {
    GivenUp(s);
    hide InvalidateCurrent;
  }

  lemma SchedulePromises(ensured: (Sys, bool), scheduleOk: bool)
    requires !ensured.0.closed && if ensured.1 then ensured.0.uuid.Some? else ensured.0.failedSinceChange
    ensures
      var t := ScheduleAfter(ensured, scheduleOk);
      && t.inFlight == ensured.0.inFlight
      && (ensured.1 && scheduleOk ==> t.failedSinceChange == ensured.0.failedSinceChange)
      && (!t.failedSinceChange ==> t.uuid.Some? && (t.timer || (t.inFlight && t.newer)))
  {}

  /** A change is on its way to disk, or nothing of the document is kept any more. */
  lemma ChangePromises(s: Sys, doc: Doc, acquireOk: bool, scheduleOk: bool)
    requires !s.closed
    ensures
      var t := DocumentStateChanged(s, doc, acquireOk, scheduleOk);
      && (!doc.modified ==> !t.timer && t.uuid.None?)
      && (Recoverable(doc) && !t.failedSinceChange ==> t.uuid.Some? && (t.timer || (t.inFlight && t.newer)))
      && (acquireOk && scheduleOk ==> !t.failedSinceChange)
  {
    hide InvalidateCurrent, EnsureGeneration, ScheduleAfter;
    if !doc.modified {
      GivenUp(Changed(s, doc));
    } else if doc.stable {
      GenerationPromises(Changed(s, doc), acquireOk);
      SchedulePromises(EnsureGeneration(Changed(s, doc), acquireOk), scheduleOk);
    }
  }

  /** A timer that runs for the present generation serves the next change too, whatever the scheduler would answer. */
  lemma TimerIsKept(s: Sys, doc: Doc, acquireOk: bool, scheduleOk: bool)
    requires !s.closed && !s.inFlight && s.timer && Recoverable(doc) && s.uuid.Some? && s.key == Some(doc.key)
    ensures DocumentStateChanged(s, doc, acquireOk, scheduleOk) == Changed(s, doc)
  {}

  /** The newest change is with the worker, as a record of the current generation under its current name. */
  predicate SubmittedLast(s: Sys) {
    && s.uuid.Some? && !s.newer && s.queue != []
    && s.queue[|s.queue| - 1] == Persist(s.uuid.value, s.generation, s.serial, Waiting)
  }

  lemma CaptureNowPromises(ensured: (Sys, bool), scheduleOk: bool, disturbed: bool, recordOk: bool, submitOk: bool)
    ensures
      var t := CaptureNow(ensured, scheduleOk, disturbed, recordOk, submitOk);
      t.inFlight && !ensured.0.inFlight ==> SubmittedLast(t)
  {}

  /** A write that the timer starts is that of the newest change. */
  lemma CapturePromises(s: Sys, acquireOk: bool, scheduleOk: bool, disturbed: bool, recordOk: bool, submitOk: bool)
    ensures
      var t := CaptureDue(s, acquireOk, scheduleOk, disturbed, recordOk, submitOk);
      t.inFlight && !s.inFlight ==> SubmittedLast(t)
  {
    hide InvalidateCurrent, EnsureGeneration, CaptureNow;
    GivenUp(TimerGone(s));
    GenerationPromises(TimerGone(s), acquireOk);
    CaptureNowPromises(EnsureGeneration(TimerGone(s), acquireOk), scheduleOk, disturbed, recordOk, submitOk);
  }

  lemma AfterReturnIdle(ensured: (Sys, bool), scheduleOk: bool)
    ensures ScheduleAfter(ensured, scheduleOk).inFlight == ensured.0.inFlight
  {}

  lemma CompletedIsIdle(s: Sys, acquireOk: bool, scheduleOk: bool)
    requires s.done != []
    ensures !Completed(s, acquireOk, scheduleOk).inFlight
  {
    hide InvalidateCurrent, EnsureGeneration, ScheduleAfter;
    GivenUp(WriteReturned(s));
    GenerationPromises(WriteReturned(s), acquireOk);
    AfterReturnIdle(EnsureGeneration(WriteReturned(s), acquireOk), scheduleOk);
  }

  /** Once the write has returned, a change that is left has a timer or its record. */
  ghost predicate CaughtUp(s: Sys) {
    !s.inFlight && (!s.closed && !s.suppressed && !s.failedSinceChange && Recoverable(s.doc) ==> s.timer || Recorded(s))
  }

  lemma CompletedCatchesUp(s: Sys, acquireOk: bool, scheduleOk: bool)
    requires Inv(s) && s.done != []
    ensures CaughtUp(Completed(s, acquireOk, scheduleOk))
  {
    hide Completed, LocksConserved, Fenced, Contained, WriteIsCurrent, Recorded;
    NextKeeps(s, WriteCompletes(acquireOk, scheduleOk));
    CompletedIsIdle(s, acquireOk, scheduleOk);
  }

  /** A write of a document to be forgotten returns to a controller that holds nothing and starts nothing. */
  lemma SuppressedReturns(s: Sys, acquireOk: bool, scheduleOk: bool)
    requires Hushed(s)
    ensures s.suppressed ==>
              var t := Completed(s, acquireOk, scheduleOk);
              t.suppressed && !t.timer && t.uuid.None? && t.ownership.None?
  {
    CompletedHushed(s, acquireOk, scheduleOk);
  }

  lemma LockNamedToo(s: Sys)
    requires Inv(s)
    ensures s.uuid == s.ownership
  {
    LockNamed(s);
  }

  /** An adopted document is on disk under the name it was found with. */
  lemma AdoptRecords(s: Sys, doc: Doc)
    ensures Recorded(Adopt(s, doc)) && !Adopt(s, doc).failedSinceChange && !Adopt(s, doc).newer
    ensures Adopt(Moved(TimerGone(s), doc), doc) == Adopt(s, doc)
  {}

  lemma CloseIsFinal(s: Sys)
    ensures !s.closed ==>
      var t := Close(s); t.closed && !t.timer && t.uuid.None? && t.ownership.None? && t.workerClosed
  {}

  lemma InvalidatePromises(s: Sys)
    requires !s.closed
    ensures var t := Invalidate(s); t.suppressed && !t.timer && t.uuid.None? && t.ownership.None?
  {
    GivenUp(Suppressed(s));
    hide InvalidateCurrent;
  }

  /** What the controller works with: the session, the worker, the store, and the observations of `Sys`. */
  datatype Ports = Ports(
    doc: Doc, queue: seq<Job>, done: seq<Completion>, workerClosed: bool,
    artifacts: map<nat, Option<nat>>, acquired: multiset<nat>, released: multiset<nat>,
    nextUuid: nat, adopted: Option<nat>, failedSinceChange: bool, cleanupFailed: bool)

  class RecoveryController {
    // The controller's own fields.
    var generation: nat
    var artifactUuid: Option<nat>
    var ownership: Option<nat>
    var bindingKey: Option<int>
    var timer: bool
    var writeInFlight: bool
    var newerStatePending: bool
    var changeSerial: nat
    var suppressed: bool
    var closed: bool

    // The session it observes, its worker and its store.
    var ports: Ports

    ghost function State(): Sys
      reads this
    {
      Sys(generation, artifactUuid, ownership, bindingKey, timer, writeInFlight, newerStatePending, changeSerial,
          suppressed, closed,
          ports.doc, ports.queue, ports.done, ports.workerClosed, ports.artifacts, ports.acquired, ports.released,
          ports.nextUuid,
          ports.adopted, ports.failedSinceChange, ports.cleanupFailed)
    }

    ghost predicate Valid()
      reads this
    {
      Inv(State()) && Hushed(State())
    }

    constructor ()
      ensures Valid() && State() == START
    {
      generation, artifactUuid, ownership, bindingKey := 0, None, None, None;
      timer, writeInFlight, newerStatePending, changeSerial, suppressed, closed := false, false, false, 0, false, false;
      ports := Ports(Doc(false, false, 0), [], [], false, map[], multiset{}, multiset{}, 0, None, false, false);
    }

    method QueueOldGenerationCleanup(uuid: Option<nat>, lock: Option<nat>)
      modifies `ports
      ensures State() == QueueCleanup(old(State()), uuid, lock)
    {
      if uuid.None? && lock.None? { return; }
      if ports.workerClosed {
        ports := ports.(released := ports.released + One(lock), cleanupFailed := ports.cleanupFailed || uuid.Some?);
      } else {
        ports := ports.(queue := ports.queue + [Cleanup(uuid, lock, false)]);
      }
    }

    method ForgetGeneration()
      modifies this
      ensures State() == Forget(old(State()))
    {
      timer := false;
      generation := generation + 1;
      artifactUuid, ownership, bindingKey := None, None, None;
    }

    method ClearTimer()
      modifies `timer
      ensures State() == TimerGone(old(State()))
    {
      timer := false;
    }

    method InvalidateCurrentGeneration()
      modifies this
      ensures State() == InvalidateCurrent(old(State()))
    {
      var oldUuid, oldOwnership := artifactUuid, ownership;
      ForgetGeneration();
      newerStatePending := false;
      assert State() == Forget(old(State())).(newer := false);
      QueueOldGenerationCleanup(oldUuid, oldOwnership);
    }

    method InvalidateRecovery()
      requires Valid()
      modifies this
      ensures Valid() && State() == Invalidate(old(State()))
      ensures !old(closed) ==> suppressed && !timer && artifactUuid.None? && ownership.None?
    {
      hide Inv, Hushed, InvalidateCurrent;
      CallbackKeeps(State(), Invalidates);
      if !closed { InvalidatePromises(State()); }
      if closed { return; }
      changeSerial := changeSerial + 1;
      suppressed := true;
      assert State() == Suppressed(old(State()));
      InvalidateCurrentGeneration();
    }

    method TakeOwnership(uuid: nat)
      modifies this
      ensures State() == Own(old(State()), uuid)
    {
      generation := generation + 1;
      artifactUuid, ownership, bindingKey := Some(uuid), Some(uuid), Some(ports.doc.key);
    }

    method StartNewGeneration(acquireOk: bool) returns (ok: bool)
      modifies this
      ensures (State(), ok) == StartGeneration(old(State()), acquireOk)
    {
      if !acquireOk {
        generation := generation + 1;
        ports := ports.(failedSinceChange := true);
        return false;
      }
      var uuid := ports.nextUuid;
      ports := ports.(nextUuid := uuid + 1, acquired := ports.acquired + multiset{uuid});
      TakeOwnership(uuid);
      ok := true;
    }

    method EnsureCurrentGeneration(acquireOk: bool) returns (ok: bool)
      modifies this
      ensures (State(), ok) == EnsureGeneration(old(State()), acquireOk)
    {
      if artifactUuid.Some? && bindingKey == Some(ports.doc.key) { return true; }
      if artifactUuid.Some? || ownership.Some? { InvalidateCurrentGeneration(); }
      ok := StartNewGeneration(acquireOk);
    }

    method Schedule(scheduleOk: bool)
      modifies `timer, `ports
      ensures State() == ScheduleIfNeeded(old(State()), scheduleOk)
    {
      if closed || timer || writeInFlight { return; }
      if scheduleOk { timer := true; } else { ports := ports.(failedSinceChange := true); }
    }

    method NoteChange(now: Doc)
      modifies this
      ensures State() == Changed(old(State()), now)
    {
      ports := ports.(doc := now, failedSinceChange := false);
      suppressed := false;
      changeSerial := changeSerial + 1;
    }

    method FollowUp(scheduleOk: bool)
      modifies this
      ensures State() == ScheduleAfter((old(State()), true), scheduleOk)
    {
      if writeInFlight { newerStatePending := true; } else { Schedule(scheduleOk); }
    }

    /** A generation for the present binding, and a timer or a mark for the change. */
    method SecureChange(acquireOk: bool, scheduleOk: bool)
      modifies this
      ensures State() == ScheduleAfter(EnsureGeneration(old(State()), acquireOk), scheduleOk)
    {
      hide EnsureGeneration, ScheduleIfNeeded;
      var ok := EnsureCurrentGeneration(acquireOk);
      if ok { FollowUp(scheduleOk); }
    }

    /** The session moved; the controller has not been told yet. */
    method SessionMoves(now: Doc)
      requires Valid() && (Recoverable(now) ==> Recoverable(ports.doc))
      modifies `ports
      ensures Valid() && State() == Moved(old(State()), now)
    {
      hide Inv, Hushed;
      CallbackKeeps(State(), Event.SessionMoves(now));
      ports := ports.(doc := now);
    }

    method FollowChange(now: Doc, acquireOk: bool, scheduleOk: bool)
      modifies this
      ensures State() == DocumentStateChanged(old(State()), now, acquireOk, scheduleOk)
    {
      hide EnsureGeneration, InvalidateCurrent, ScheduleAfter;
      if closed {
        ports := ports.(doc := now);
        return;
      }
      NoteChange(now);
      if !ports.doc.modified {
        InvalidateCurrentGeneration();
      } else if ports.doc.stable {
        SecureChange(acquireOk, scheduleOk);
      }
    }

    /** The session moved to `now`, and the controller is told. */
    method ObserveChange(now: Doc, acquireOk: bool, scheduleOk: bool)
      requires Valid()
      modifies this
      ensures Valid() && State() == DocumentStateChanged(old(State()), now, acquireOk, scheduleOk)
      ensures !old(closed) && !now.modified ==> !timer && artifactUuid.None?
      ensures !old(closed) && Recoverable(now) && !ports.failedSinceChange ==>
                timer || (writeInFlight && newerStatePending)
    {
      hide Inv, Hushed, DocumentStateChanged;
      CallbackKeeps(State(), DocChanged(now, acquireOk, scheduleOk));
      if !closed { ChangePromises(State(), now, acquireOk, scheduleOk); }
      FollowChange(now, acquireOk, scheduleOk);
    }

    method SubmitRecord(stateToken: nat, submitOk: bool)
      requires artifactUuid.Some? && stateToken == changeSerial
      modifies this
      ensures State()
           == if !submitOk || old(ports.workerClosed) then old(State()).(newer := false, failedSinceChange := true)
                         else Submit(old(State()))
    {
      newerStatePending := false;
      if submitOk && !ports.workerClosed {
        writeInFlight := true;
        ports := ports.(queue := ports.queue + [Persist(artifactUuid.value, generation, stateToken, Waiting)]);
      } else {
        ports := ports.(failedSinceChange := true);
      }
    }

    method CaptureText(scheduleOk: bool, disturbed: bool, recordOk: bool, submitOk: bool)
      requires artifactUuid.Some?
      modifies this
      ensures State() == CaptureNow((old(State()), true), scheduleOk, disturbed, recordOk, submitOk)
    {
      if disturbed {
        newerStatePending := true;
        assert State() == old(State()).(newer := true);
        Schedule(scheduleOk);
        return;
      }
      var stateToken := changeSerial;
      if !recordOk { ports := ports.(failedSinceChange := true); return; }
      SubmitRecord(stateToken, submitOk);
    }

    /** A generation for the present binding, and the capture for it. */
    method CaptureChange(acquireOk: bool, scheduleOk: bool, disturbed: bool, recordOk: bool, submitOk: bool)
      modifies this
      ensures State()
           == CaptureNow(EnsureGeneration(old(State()), acquireOk), scheduleOk, disturbed, recordOk, submitOk)
    {
      hide EnsureGeneration, ScheduleIfNeeded, Submit;
      var ok := EnsureCurrentGeneration(acquireOk);
      if !ok || artifactUuid.None? { return; }
      CaptureText(scheduleOk, disturbed, recordOk, submitOk);
    }

    /** The callback itself, which does not ask which timer it belongs to. */
    method RunCapture(acquireOk: bool, scheduleOk: bool, disturbed: bool, recordOk: bool, submitOk: bool)
      modifies this
      ensures State() == CaptureCallback(old(State()), acquireOk, scheduleOk, disturbed, recordOk, submitOk)
      ensures old(Valid() && !closed) ==>
                && LocksConserved(State()) && Fenced(State()) && Contained(State())
                && (OneAtATime(State()) <==>
                      !(old(writeInFlight) && old(Submits(State(), acquireOk, disturbed, recordOk, submitOk))))
                && (Hushed(State()) <==> !(old(suppressed && Recoverable(ports.doc)) && acquireOk))
    {
      hide EnsureGeneration, InvalidateCurrent, CaptureNow, Inv, LocksConserved, Fenced, Contained, OneAtATime, Submits;
      if Valid() && !closed {
        StaleCallbackExact(State(), acquireOk, scheduleOk, disturbed, recordOk, submitOk);
        StaleCallbackRevives(State(), acquireOk, scheduleOk, disturbed, recordOk, submitOk);
        StaleCallbackKeepsRest(State(), acquireOk, scheduleOk, disturbed, recordOk, submitOk);
      }
      if closed { return; }
      ClearTimer();
      if !ports.doc.modified {
        InvalidateCurrentGeneration();
      } else if ports.doc.stable {
        CaptureChange(acquireOk, scheduleOk, disturbed, recordOk, submitOk);
      }
    }

    /** The timer fires. */
    method CaptureIsDue(acquireOk: bool, scheduleOk: bool, disturbed: bool, recordOk: bool, submitOk: bool)
      requires Valid()
      modifies this
      ensures Valid() && State() == CaptureDue(old(State()), acquireOk, scheduleOk, disturbed, recordOk, submitOk)
      ensures writeInFlight && !old(writeInFlight) ==> SubmittedLast(State())
    {
      hide Inv, Hushed, CaptureCallback, SubmittedLast;
      CallbackKeeps(State(), TimerFires(acquireOk, scheduleOk, disturbed, recordOk, submitOk));
      CapturePromises(State(), acquireOk, scheduleOk, disturbed, recordOk, submitOk);
      if timer { RunCapture(acquireOk, scheduleOk, disturbed, recordOk, submitOk); }
    }

    /** The write has returned; `newer` says whether the session has moved on since its record was captured. */
    method TakeCompletion() returns (newer: bool)
      requires ports.done != []
      modifies this
      ensures State() == WriteReturned(old(State()))
      ensures newer == (changeSerial > old(ports.done[0].token) || old(newerStatePending))
    {
      var stateToken := ports.done[0].token;
      ports := ports.(done := ports.done[1..]);
      writeInFlight := false;
      newer := changeSerial > stateToken || newerStatePending;
      newerStatePending := false;
    }

    /** The completion callback of a write. */
    method WriteCompleted(acquireOk: bool, scheduleOk: bool)
      requires Valid() && ports.done != []
      modifies this
      ensures Valid() && State() == Completed(old(State()), acquireOk, scheduleOk)
      ensures CaughtUp(State())
      ensures old(suppressed) ==> suppressed && !timer && artifactUuid.None? && ownership.None?
    {
      hide Inv, Hushed, EnsureGeneration, ScheduleIfNeeded, InvalidateCurrent, CaughtUp;
      CallbackKeeps(State(), WriteCompletes(acquireOk, scheduleOk));
      CompletedCatchesUp(State(), acquireOk, scheduleOk);
      SuppressedReturns(State(), acquireOk, scheduleOk);
      var newer := TakeCompletion();
      if closed || suppressed { return; }
      if !ports.doc.modified { InvalidateCurrentGeneration(); return; }
      if newer {
        GenerationPromises(State(), acquireOk);
        var ok := EnsureCurrentGeneration(acquireOk);
        if ok { Schedule(scheduleOk); }
      }
    }

    method InstallRecoveredDocument(installed: Option<Doc>)
      requires Valid()
      modifies this
      ensures Valid() && State() == InstallRecovered(old(State()), installed)
      ensures !old(closed) && old(artifactUuid).None? && installed.Some? && installed.value.modified ==>
                Recorded(State())
    {
      hide Inv, Hushed, Adopt, Recorded;
      CallbackKeeps(State(), Installs(installed));
      LockNamedToo(State());
      if installed.Some? { AdoptRecords(State(), installed.value); }
      if closed || artifactUuid.Some? || ownership.Some? { return; }
      ClearTimer();
      if installed.None? { return; }
      ports := ports.(doc := installed.value);
      if !ports.doc.modified {
        assert State() == Moved(TimerGone(old(State())), installed.value);
        return;
      }
      AdoptDocument();
    }

    method AdoptDocument()
      requires !timer
      modifies this
      ensures State() == Adopt(old(State()), old(ports.doc))
    {
      var uuid := ports.nextUuid;
      TakeOwnership(uuid);
      changeSerial := changeSerial + 1;
      newerStatePending, suppressed := false, false;
      ports := ports.(nextUuid := uuid + 1, acquired := ports.acquired + multiset{uuid},
                      artifacts := ports.artifacts[uuid := None],
                      adopted := Some(changeSerial), failedSinceChange := false);
    }

    method ForgetForGood()
      modifies this
      ensures State() == Forget(old(State())).(closed := true, suppressed := true)
    {
      ForgetGeneration();
      closed, suppressed := true, true;
    }

    method CloseController()
      requires Valid()
      modifies this
      ensures Valid() && State() == Close(old(State()))
      ensures closed && (!old(closed) ==> !timer && artifactUuid.None? && ownership.None? && ports.workerClosed)
    {
      hide Inv, Hushed, QueueCleanup;
      CloseIsFinal(State());
      CallbackKeeps(State(), Closes);
      if closed { return; }
      var oldUuid, oldOwnership := artifactUuid, ownership;
      ForgetForGood();
      QueueOldGenerationCleanup(oldUuid, oldOwnership);
      ports := ports.(workerClosed := true);
    }

    /** The worker takes the next step of the job at the head of its queue. */
    method WorkerTurn(portOk: bool)
      requires Valid()
      modifies `ports
      ensures Valid() && State() == WorkerStep(old(State()), portOk)
    {
      hide Inv, Hushed, PersistStep, CleanupStep;
      CallbackKeeps(State(), WorkerMoves(portOk));
      if ports.queue == [] { return; }
      match ports.queue[0]
      case Persist(uuid, writeGeneration, token, phase) => PersistTurn(portOk);
      case Cleanup(artifact, lock, removed) => CleanupTurn(portOk);
    }

    method SetHead(job: Job)
      requires ports.queue != []
      modifies `ports
      ensures State() == ReplaceHead(old(State()), job)
    {
      ports := ports.(queue := [job] + ports.queue[1..]);
    }

    /** The job is done; its completion callback is posted to the main thread. */
    method ReportWrite()
      requires ports.queue != [] && ports.queue[0].Persist?
      modifies `ports
      ensures State() == FinishPersist(old(State()))
    {
      var write := ports.queue[0];
      ports := ports.(queue := ports.queue[1..],
                      done := ports.done + [Completion(write.uuid, write.generation, write.token)]);
    }

    /** A record that could not be staged; that of an older change is followed by another. */
    method ReportFailure()
      requires ports.queue != [] && ports.queue[0].Persist?
      modifies `ports
      ensures State() == StagingFailed(old(State()))
    {
      var current := ports.queue[0].token == changeSerial;
      ReportWrite();
      ports := ports.(failedSinceChange := ports.failedSinceChange || current);
    }

    /** Under the publication lock: publish a record that is still current, discard any other. */
    method PublishOrDiscard(portOk: bool)
      requires ports.queue != [] && ports.queue[0].Persist?
      modifies `ports
      ensures State() == Settle(old(State()), portOk)
    {
      var write := ports.queue[0];
      ports := ports.(queue := [write.(phase := Settled)] + ports.queue[1..]);
      if !closed && generation == write.generation && artifactUuid == Some(write.uuid) {
        if portOk {
          ports := ports.(artifacts := ports.artifacts[write.uuid := Some(write.token)]);
        } else {
          ports := ports.(failedSinceChange := ports.failedSinceChange || write.token == changeSerial);
        }
      }
    }

    /** Stage, then publish or discard, then report; a record that cannot be staged is reported at once. */
    method PersistTurn(portOk: bool)
      requires ports.queue != [] && ports.queue[0].Persist?
      modifies `ports
      ensures State() == PersistStep(old(State()), portOk)
    {
      hide ReplaceHead, Settle, StagingFailed;
      var write := ports.queue[0];
      match write.phase
      case Waiting =>
        if portOk {
          SetHead(write.(phase := Staged));
        } else {
          ReportFailure();
        }
      case Staged => PublishOrDiscard(portOk);
      case Settled => ReportWrite();
    }

    method ReleaseLock()
      requires ports.queue != [] && ports.queue[0].Cleanup?
      modifies `ports
      ensures State() == FinishCleanup(old(State()))
    {
      ports := ports.(queue := ports.queue[1..], released := ports.released + One(ports.queue[0].lock));
    }

    method RemoveArtifact(artifact: Option<nat>, portOk: bool)
      modifies `ports
      ensures State()
           == if artifact.Some? && !portOk then RemovalFailed(old(State())) else Remove(old(State()), artifact)
    {
      if artifact.None? { return; }
      if portOk {
        ports := ports.(artifacts := ports.artifacts - {artifact.value});
      } else {
        ports := ports.(cleanupFailed := true);
      }
    }

    /** Remove the artifact, then release the lock whether or not that worked. */
    method CleanupTurn(portOk: bool)
      requires ports.queue != [] && ports.queue[0].Cleanup?
      modifies `ports
      ensures State() == CleanupStep(old(State()), portOk)
    {
      hide ReplaceHead, FinishCleanup;
      var job := ports.queue[0];
      if job.removed {
        ReleaseLock();
      } else {
        RemoveArtifact(job.artifact, portOk);
        SetHead(job.(removed := true));
      }
    }
  }
}
