/** What holds after any run of the recovery controller and its worker, whatever the interleaving. */
module RecoveryRuns {
  import opened Prelude
  import opened RecoveryMachine
  import opened RecoverySafety

  lemma LockNamed(s: Sys)
    requires Inv(s)
    ensures s.uuid == s.ownership
  {}

  lemma NextKeeps(s: Sys, e: Event)
    requires Inv(s)
    ensures Inv(Next(s, e))
  {
    hide Inv, EnsureGeneration, InvalidateCurrent, CaptureNow, CaptureCallback, Adopt, PersistStep, CleanupStep;
    match e
    case SessionMoves(doc) => if Recoverable(doc) ==> Recoverable(s.doc) { MovedKeeps(s, doc); }
    case DocChanged(doc, acquireOk, scheduleOk) =>
      if s.closed { MovedKeeps(s, doc); } else { DocChangedKeeps(s, doc, acquireOk, scheduleOk); }
    case TimerFires(acquireOk, scheduleOk, disturbed, recordOk, submitOk) =>
      CaptureDueKeeps(s, acquireOk, scheduleOk, disturbed, recordOk, submitOk);
    case WriteCompletes(acquireOk, scheduleOk) => if s.done != [] { CompletedKeeps(s, acquireOk, scheduleOk); }
    case Installs(installed) =>
      LockNamed(s);
      if !s.closed && s.uuid.None? { InstallKeeps(s, installed); }
    case Invalidates => if !s.closed { InvalidateKeeps(s); }
    case Closes => if !s.closed { CloseKeeps(s); }
    case WorkerMoves(portOk) => if s.queue != [] { WorkerKeeps(s, portOk); }
  }

  lemma {:induction false} RunFrom(s: Sys, events: seq<Event>)
    requires Inv(s)
    ensures Inv(Run(s, events))
    decreases |events|
  {
    if events == [] {
    } else {
      NextKeeps(s, events[0]);
      RunFrom(Next(s, events[0]), events[1..]);
    }
  }

  lemma RunKeeps(events: seq<Event>)
    ensures Inv(Run(START, events))
  {
    RunFrom(START, events);
  }

  // --- A document to be forgotten ------------------------------------------------------------

  lemma ScheduleAfterHolds(ensured: (Sys, bool), scheduleOk: bool)
    ensures ScheduleAfter(ensured, scheduleOk).suppressed == ensured.0.suppressed
  {}

  lemma ChangedHushed(s: Sys, doc: Doc, acquireOk: bool, scheduleOk: bool)
    requires Hushed(s)
    ensures Hushed(DocumentStateChanged(s, doc, acquireOk, scheduleOk))
  {
    hide InvalidateCurrent, EnsureGeneration, ScheduleAfter;
    var t := Changed(s, doc);
    InvalidateDropsAll(t);
    EnsureTakesUp(t, acquireOk);
    ScheduleAfterHolds(EnsureGeneration(t, acquireOk), scheduleOk);
  }

  lemma CaptureHushed(s: Sys, acquireOk: bool, scheduleOk: bool, disturbed: bool, recordOk: bool, submitOk: bool)
    requires Hushed(s)
    ensures Hushed(CaptureDue(s, acquireOk, scheduleOk, disturbed, recordOk, submitOk))
  {
    hide InvalidateCurrent, EnsureGeneration, CaptureNow;
    InvalidateDropsAll(TimerGone(s));
    EnsureTakesUp(TimerGone(s), acquireOk);
    CaptureNowHolds(EnsureGeneration(TimerGone(s), acquireOk), scheduleOk, disturbed, recordOk, submitOk);
  }

  /** The return of a write starts nothing new while nothing is to be remembered. */
  lemma CompletedHushed(s: Sys, acquireOk: bool, scheduleOk: bool)
    requires Hushed(s)
    ensures Hushed(Completed(s, acquireOk, scheduleOk))
    ensures s.suppressed ==> Completed(s, acquireOk, scheduleOk).suppressed
  {
    hide InvalidateCurrent, EnsureGeneration, ScheduleAfter;
    if s.done != [] && !s.suppressed {
      var t := WriteReturned(s);
      InvalidateDropsAll(t);
      EnsureTakesUp(t, acquireOk);
      ScheduleAfterHolds(EnsureGeneration(t, acquireOk), scheduleOk);
    }
  }

  function StepsOf(job: Job): (n: nat)
    ensures 0 < n <= 3
  {
    match job
    case Persist(_, _, _, phase) => if phase == Waiting then 3 else if phase == Staged then 2 else 1
    case Cleanup(_, _, removed) => if removed then 1 else 2
  }

  /** An upper bound on the worker steps that empty the queue. */
  function StepsLeft(queue: seq<Job>): nat {
    if queue == [] then 0 else StepsOf(queue[0]) + 3 * (|queue| - 1)
  }

  /** What the worker never touches. */
  predicate SameController(s: Sys, t: Sys) {
    && t.generation == s.generation && t.uuid == s.uuid && t.ownership == s.ownership && t.key == s.key
    && t.timer == s.timer && t.inFlight == s.inFlight && t.newer == s.newer && t.serial == s.serial
    && t.suppressed == s.suppressed && t.closed == s.closed && t.doc == s.doc && t.workerClosed == s.workerClosed
    && t.acquired == s.acquired && t.nextUuid == s.nextUuid && t.adopted == s.adopted
  }

  /** A worker step brings the queue closer to empty and leaves the controller alone. */
  predicate Works(s: Sys, t: Sys) {
    SameController(s, t) && StepsLeft(t.queue) < StepsLeft(s.queue)
  }

  lemma WriteStepWorks(s: Sys, portOk: bool)
    requires s.queue != [] && s.queue[0].Persist? && s.queue[0].phase == Waiting
    ensures Works(s, PersistStep(s, portOk))
  {}

  lemma SettleWorks(s: Sys, portOk: bool)
    requires s.queue != [] && s.queue[0].Persist? && s.queue[0].phase == Staged
    ensures Works(s, PersistStep(s, portOk))
  {}

  lemma FinishWorks(s: Sys, portOk: bool)
    requires s.queue != [] && s.queue[0].Persist? && s.queue[0].phase == Settled
    ensures Works(s, PersistStep(s, portOk))
  {}

  lemma RetireWorks(s: Sys)
    requires s.queue != [] && s.queue[0].Cleanup? && !s.queue[0].removed
    ensures Works(s, ReplaceHead(s, s.queue[0].(removed := true)))
  {}

  lemma RemoveIsLocal(s: Sys, artifact: Option<nat>)
    ensures SameController(s, Remove(s, artifact)) && Remove(s, artifact).queue == s.queue
  {}

  lemma CleanupWorks(s: Sys, portOk: bool)
    requires s.queue != [] && s.queue[0].Cleanup? && !s.queue[0].removed
    ensures Works(s, CleanupStep(s, portOk))
  {
    var artifact := s.queue[0].artifact;
    if artifact.Some? && !portOk {
      RetireWorks(RemovalFailed(s));
    } else {
      RemoveIsLocal(s, artifact);
      RetireWorks(Remove(s, artifact));
    }
  }

  lemma ReleaseWorks(s: Sys, portOk: bool)
    requires s.queue != [] && s.queue[0].Cleanup? && s.queue[0].removed
    ensures Works(s, CleanupStep(s, portOk))
  {}

  lemma StepWorks(s: Sys, portOk: bool)
    requires s.queue != []
    ensures Works(s, WorkerStep(s, portOk))
  {
    match s.queue[0]
    case Persist(_, _, _, Waiting) => WriteStepWorks(s, portOk);
    case Persist(_, _, _, Staged) => SettleWorks(s, portOk);
    case Persist(_, _, _, Settled) => FinishWorks(s, portOk);
    case Cleanup(_, _, false) => CleanupWorks(s, portOk);
    case Cleanup(_, _, true) => ReleaseWorks(s, portOk);
  }

  lemma NextHushed(s: Sys, e: Event)
    requires Hushed(s)
    ensures Hushed(Next(s, e))
  {
    hide DocumentStateChanged, CaptureDue, Completed, PersistStep, CleanupStep, InvalidateCurrent;
    match e
    case DocChanged(doc, acquireOk, scheduleOk) => ChangedHushed(s, doc, acquireOk, scheduleOk);
    case TimerFires(acquireOk, scheduleOk, disturbed, recordOk, submitOk) =>
      CaptureHushed(s, acquireOk, scheduleOk, disturbed, recordOk, submitOk);
    case WriteCompletes(acquireOk, scheduleOk) => CompletedHushed(s, acquireOk, scheduleOk);
    case WorkerMoves(portOk) => if s.queue != [] { StepWorks(s, portOk); }
    case Invalidates => InvalidateDropsAll(Suppressed(s));
    case SessionMoves(_) =>
    case Installs(_) =>
    case Closes =>
  }

  /** Only a change of the document, or the recovery of another one, makes the controller take it up again. */
  predicate Resumes(e: Event) {
    e.DocChanged? || e.Installs?
  }

  lemma NextStaysSuppressed(s: Sys, e: Event)
    requires s.suppressed && Hushed(s) && !Resumes(e)
    ensures Next(s, e).suppressed
  {
    hide PersistStep, CleanupStep, InvalidateCurrent, Completed;
    if e.WorkerMoves? && s.queue != [] { StepWorks(s, e.portOk); }
    if e.WriteCompletes? { CompletedHushed(s, e.acquireOk, e.scheduleOk); }
    InvalidateDropsAll(Suppressed(s));
  }

  lemma {:induction false} RunHushed(s: Sys, events: seq<Event>)
    requires Inv(s) && Hushed(s)
    ensures Inv(Run(s, events)) && Hushed(Run(s, events))
    ensures s.suppressed && (forall e | e in events :: !Resumes(e)) ==> Run(s, events).suppressed
    decreases |events|
  {
    hide Inv, Next;
    if events == [] {
    } else {
      NextKeeps(s, events[0]);
      NextHushed(s, events[0]);
      if s.suppressed && !Resumes(events[0]) { NextStaysSuppressed(s, events[0]); }
      RunHushed(Next(s, events[0]), events[1..]);
    }
  }

  /** While nothing is to be remembered there is no name, no lock and no timer, after every run. */
  lemma SuppressedHoldsNothing(events: seq<Event>)
    ensures Hushed(Run(START, events))
  {
    RunHushed(START, events);
  }

  // --- One timer or one write ----------------------------------------------------------------

  /** A timer and a write are never outstanding together, and never two writes. */
  lemma TimerXorWrite(events: seq<Event>)
    ensures var s := Run(START, events);
            Writes(s.queue) + |s.done| <= 1 && (s.timer ==> Writes(s.queue) == 0 && s.done == [])
  {
    RunKeeps(events);
  }

  lemma RunCons(s: Sys, e: Event, events: seq<Event>)
    ensures Run(s, [e] + events) == Run(Next(s, e), events)
  {
    assert ([e] + events)[1..] == events;
  }

  const FIRST_EDIT: Event := DocChanged(Doc(true, true, 0), true, true)
  const EDIT_ELSEWHERE: Event := DocChanged(Doc(true, true, 1), true, true)
  const FIRES: Event := TimerFires(true, true, false, true, true)

  /** The state after two edits under different bindings: the first generation is given up, the second has a timer. */
  function TwoEdits(): Sys {
    START.(generation := 3, uuid := Some(1), ownership := Some(1), key := Some(1), timer := true, serial := 2,
           doc := Doc(true, true, 1), queue := [Cleanup(Some(0), Some(0), false)],
           acquired := multiset{0, 1}, nextUuid := 2)
  }

  lemma TwoEditsReached()
    ensures Next(Next(START, FIRST_EDIT), EDIT_ELSEWHERE) == TwoEdits()
  {
    var one := START.(generation := 1, uuid := Some(0), ownership := Some(0), key := Some(0), timer := true,
                      serial := 1,
                      doc := Doc(true, true, 0), acquired := multiset{0}, nextUuid := 1);
    assert Next(START, FIRST_EDIT) == one;
    var given := InvalidateCurrent(Changed(one, Doc(true, true, 1)));
    assert given == one.(generation := 2, uuid := None, ownership := None, key := None, timer := false, serial := 2,
                         doc := Doc(true, true, 1), queue := [Cleanup(Some(0), Some(0), false)]);
    assert multiset{0} + multiset{1} == multiset{0, 1};
    assert StartGeneration(given, true).0 == TwoEdits().(timer := false);
  }

  lemma RunThree(a: Event, b: Event, c: Event)
    ensures Run(START, [a, b, c]) == Next(Next(Next(START, a), b), c)
  {
    hide Next;
    RunCons(Next(Next(START, a), b), c, []);
    RunCons(Next(START, a), b, [c]);
    RunCons(START, a, [b, c]);
    assert [a] + ([b] + ([c] + [])) == [a] + [b, c] == [a, b, c];
  }

  lemma CallbackSubmits(s: Sys)
    requires !s.closed && Recoverable(s.doc) && s.uuid.Some? && s.key == Some(s.doc.key) && !s.workerClosed
    ensures CaptureCallback(s, true, true, false, true, true) == Submit(TimerGone(s))
  {}

  /**
    When cancelling a timer fails, its callback still comes: an edit, an edit under another binding whose timer
    starts a write, and then the callback of the first timer, which starts a second write.
   */
  lemma StaleCallbackStartsSecondWrite()
    ensures
      var s := Run(START, [FIRST_EDIT, EDIT_ELSEWHERE, FIRES]);
      Writes(s.queue) == 1 && Writes(CaptureCallback(s, true, true, false, true, true).queue) == 2
  {
    hide Run, CaptureCallback;
    var edited := TwoEdits();
    var s := Submit(TimerGone(edited));
    RunThree(FIRST_EDIT, EDIT_ELSEWHERE, FIRES);
    TwoEditsReached();
    CallbackSubmits(edited);
    CallbackSubmits(s);
    QueueAppend(edited.queue, Persist(1, 3, 2, Waiting));
    QueueAppend(s.queue, Persist(1, 3, 2, Waiting));
  }

  /** A document saved while its timer runs is not written: the timer gives its recovery data up. */
  lemma SavedDocumentIsNotWritten(events: seq<Event>, doc: Doc, acquireOk: bool, scheduleOk: bool, disturbed: bool,
                                  recordOk: bool, submitOk: bool)
    requires Run(START, events).timer && !doc.modified
    ensures
      var s := MovedUntold(Run(START, events), doc);
      var t := CaptureDue(s, acquireOk, scheduleOk, disturbed, recordOk, submitOk);
      && t.uuid.None? && !t.timer && !t.inFlight && Writes(t.queue) == 0
      && exists u :: s.uuid == Some(u) && WillRemove(t.queue, u)
  {
    RunKeeps(events);
    var s := MovedUntold(Run(START, events), doc);
    MovedKeeps(Run(START, events), doc);
    CaptureDueKeeps(s, acquireOk, scheduleOk, disturbed, recordOk, submitOk);
    var t := CaptureDue(s, acquireOk, scheduleOk, disturbed, recordOk, submitOk);
    assert t == InvalidateCurrent(TimerGone(s));
    assert IsRemoval(t.queue[|t.queue| - 1], s.uuid.value);
  }

  /**
    With no write under way, a modified document of a controller that is neither closed nor suppressed has
    its newest change on the way to disk or there already, unless a call it depended on failed.
   */
  lemma ModifiedIsRecoverable(events: seq<Event>)
    ensures var s := Run(START, events);
            !s.closed && !s.suppressed && !s.inFlight && !s.failedSinceChange && s.doc.modified && s.doc.stable
            ==> s.timer || Recorded(s)
  {
    RunKeeps(events);
  }

  // --- Draining the worker -------------------------------------------------------------------

  function Drain(s: Sys, ports: seq<bool>): Sys
    decreases |ports|
  {
    if ports == [] then s else Drain(WorkerStep(s, ports[0]), ports[1..])
  }

  lemma StepKeeps(s: Sys, portOk: bool)
    requires Inv(s)
    ensures Inv(WorkerStep(s, portOk)) && SameController(s, WorkerStep(s, portOk))
    ensures StepsLeft(s.queue) == 0 || StepsLeft(WorkerStep(s, portOk).queue) < StepsLeft(s.queue)
  {
    if s.queue != [] {
      StepWorks(s, portOk);
      WorkerKeeps(s, portOk);
    }
  }

  /** Whatever the ports answer, enough worker steps finish every job, and they touch no field of the controller. */
  lemma {:induction false} DrainFinishes(s: Sys, ports: seq<bool>)
    requires Inv(s) && |ports| >= StepsLeft(s.queue)
    ensures Inv(Drain(s, ports)) && Drain(s, ports).queue == [] && SameController(s, Drain(s, ports))
    decreases |ports|
  {
    if ports == [] {
    } else {
      var t := WorkerStep(s, ports[0]);
      StepKeeps(s, ports[0]);
      assert s.queue == [] ==> t == s;
      DrainFinishes(t, ports[1..]);
    }
  }

  lemma DrainedState(s: Sys)
    requires Inv(s) && s.queue == []
    ensures !s.cleanupFailed ==> forall u | u in s.artifacts :: s.uuid == Some(u)
    ensures s.acquired == s.released + One(s.ownership) && s.ownership == s.uuid
  {}

  /**
    Once the worker has drained, the only artifact left is that of the current generation, if no removal
    failed; and every lock but the one the controller holds has been released.
   */
  lemma DrainedLeavesNothingBehind(events: seq<Event>, ports: seq<bool>)
    requires |ports| >= StepsLeft(Run(START, events).queue)
    ensures var t := Drain(Run(START, events), ports);
            && (!t.cleanupFailed ==> forall u | u in t.artifacts :: t.uuid == Some(u))
            && t.acquired == t.released + One(t.ownership)
  {
    RunKeeps(events);
    DrainFinishes(Run(START, events), ports);
    DrainedState(Drain(Run(START, events), ports));
  }

  lemma InvalidateGone(s: Sys)
    requires Inv(s)
    ensures Inv(Invalidate(s)) && Invalidate(s).uuid.None?
  {
    hide LocksConserved, Fenced, Contained, WriteIsCurrent, Progress;
    NextKeeps(s, Invalidates);
  }

  lemma CloseGone(s: Sys)
    requires Inv(s)
    ensures Inv(Close(s)) && Close(s).uuid.None?
  {
    hide LocksConserved, Fenced, Contained, WriteIsCurrent, Progress;
    NextKeeps(s, Closes);
  }

  /** The name and the lock of a generation given up are both gone once the worker has drained. */
  lemma InvalidatedLeavesNothingBehind(events: seq<Event>, ports: seq<bool>)
    requires |ports| >= StepsLeft(Invalidate(Run(START, events)).queue)
    ensures var t := Drain(Invalidate(Run(START, events)), ports);
            && (!t.cleanupFailed ==> t.artifacts == map[])
            && t.acquired == t.released
  {
    var s := Run(START, events);
    RunKeeps(events);
    InvalidateGone(s);
    DrainFinishes(Invalidate(s), ports);
    DrainedState(Drain(Invalidate(s), ports));
  }

  lemma InvalidateHushes(s: Sys)
    requires Inv(s)
    ensures Invalidate(s).suppressed && Hushed(Invalidate(s))
  {
    hide LocksConserved, Contained, WriteIsCurrent, Progress;
  }

  /**
    Once the document is to be forgotten, whatever happens then but another change or recovery, the return of a
    write under way included, leaves no artifact and no lock when the worker has drained, and no timer.
   */
  lemma ForgottenStaysForgotten(before: seq<Event>, after: seq<Event>, ports: seq<bool>)
    requires forall e | e in after :: !Resumes(e)
    requires |ports| >= StepsLeft(Run(Invalidate(Run(START, before)), after).queue)
    ensures var t := Drain(Run(Invalidate(Run(START, before)), after), ports);
            && (!t.cleanupFailed ==> t.artifacts == map[])
            && t.acquired == t.released && !t.timer
  {
    hide Inv, Next;
    var s := Invalidate(Run(START, before));
    RunKeeps(before);
    InvalidateGone(Run(START, before));
    InvalidateHushes(Run(START, before));
    RunHushed(s, after);
    DrainFinishes(Run(s, after), ports);
    DrainedState(Drain(Run(s, after), ports));
  }

  lemma ClosedLeavesNothingBehind(events: seq<Event>, ports: seq<bool>)
    requires |ports| >= StepsLeft(Close(Run(START, events)).queue)
    ensures var t := Drain(Close(Run(START, events)), ports);
            && (!t.cleanupFailed ==> t.artifacts == map[])
            && t.acquired == t.released
  {
    var s := Run(START, events);
    RunKeeps(events);
    CloseGone(s);
    DrainFinishes(Close(s), ports);
    DrainedState(Drain(Close(s), ports));
  }

  // --- Locks are released once ---------------------------------------------------------------

  /** Lock names are fresh, so no lock is acquired twice. */
  predicate NamedOnce(s: Sys) {
    forall u | u in s.acquired :: u < s.nextUuid && s.acquired[u] == 1
  }

  predicate SameLocks(s: Sys, t: Sys) {
    t.acquired == s.acquired && t.nextUuid == s.nextUuid
  }

  lemma InvalidateSameLocks(s: Sys)
    ensures SameLocks(s, InvalidateCurrent(s))
  {}

  lemma StartNamedOnce(s: Sys, acquireOk: bool)
    requires NamedOnce(s)
    ensures NamedOnce(StartGeneration(s, acquireOk).0)
  {}

  lemma EnsureNamedOnce(s: Sys, acquireOk: bool)
    requires NamedOnce(s)
    ensures NamedOnce(EnsureGeneration(s, acquireOk).0)
  {
    InvalidateSameLocks(s);
    StartNamedOnce(s, acquireOk);
    StartNamedOnce(InvalidateCurrent(s), acquireOk);
  }

  lemma ScheduleAfterSameLocks(ensured: (Sys, bool), scheduleOk: bool)
    ensures SameLocks(ensured.0, ScheduleAfter(ensured, scheduleOk))
  {}

  lemma DocChangedNamedOnce(s: Sys, doc: Doc, acquireOk: bool, scheduleOk: bool)
    requires NamedOnce(s)
    ensures NamedOnce(DocumentStateChanged(s, doc, acquireOk, scheduleOk))
  {
    EnsureNamedOnce(Changed(s, doc), acquireOk);
    InvalidateSameLocks(Changed(s, doc));
    ScheduleAfterSameLocks(EnsureGeneration(Changed(s, doc), acquireOk), scheduleOk);
  }

  lemma CaptureNowSameLocks(ensured: (Sys, bool), scheduleOk: bool, disturbed: bool, recordOk: bool, submitOk: bool)
    ensures SameLocks(ensured.0, CaptureNow(ensured, scheduleOk, disturbed, recordOk, submitOk))
  {}

  lemma CaptureDueNamedOnce(s: Sys, acquireOk: bool, scheduleOk: bool, disturbed: bool, recordOk: bool, submitOk: bool)
    requires NamedOnce(s)
    ensures NamedOnce(CaptureDue(s, acquireOk, scheduleOk, disturbed, recordOk, submitOk))
  {
    EnsureNamedOnce(TimerGone(s), acquireOk);
    InvalidateSameLocks(TimerGone(s));
    CaptureNowSameLocks(EnsureGeneration(TimerGone(s), acquireOk), scheduleOk, disturbed, recordOk, submitOk);
  }

  lemma CompletedNamedOnce(s: Sys, acquireOk: bool, scheduleOk: bool)
    requires NamedOnce(s) && s.done != []
    ensures NamedOnce(Completed(s, acquireOk, scheduleOk))
  {
    var t := WriteReturned(s);
    EnsureNamedOnce(t, acquireOk);
    InvalidateSameLocks(t);
    ScheduleAfterSameLocks(EnsureGeneration(t, acquireOk), scheduleOk);
  }

  lemma InstallNamedOnce(s: Sys, installed: Option<Doc>)
    requires NamedOnce(s)
    ensures NamedOnce(InstallRecovered(s, installed))
  {}

  lemma CloseSameLocks(s: Sys)
    ensures SameLocks(s, Close(s))
  {}

  lemma NextNamedOnce(s: Sys, e: Event)
    requires NamedOnce(s)
    ensures NamedOnce(Next(s, e))
  {
    match e
    case SessionMoves(_) =>
    case DocChanged(doc, acquireOk, scheduleOk) => DocChangedNamedOnce(s, doc, acquireOk, scheduleOk);
    case TimerFires(acquireOk, scheduleOk, disturbed, recordOk, submitOk) =>
      CaptureDueNamedOnce(s, acquireOk, scheduleOk, disturbed, recordOk, submitOk);
    case WriteCompletes(acquireOk, scheduleOk) => if s.done != [] { CompletedNamedOnce(s, acquireOk, scheduleOk); }
    case Installs(installed) => InstallNamedOnce(s, installed);
    case Invalidates => InvalidateSameLocks(Suppressed(s));
    case Closes => CloseSameLocks(s);
    case WorkerMoves(portOk) => if s.queue != [] { StepWorks(s, portOk); }
  }

  lemma {:induction false} RunNamedOnce(s: Sys, events: seq<Event>)
    requires NamedOnce(s)
    ensures NamedOnce(Run(s, events))
    decreases |events|
  {
    if events == [] {
    } else {
      NextNamedOnce(s, events[0]);
      RunNamedOnce(Next(s, events[0]), events[1..]);
    }
  }

  /** No lock is released twice, nor while the controller still holds it. */
  lemma LocksReleasedOnce(events: seq<Event>, u: nat)
    ensures var s := Run(START, events);
            s.released[u] <= 1 && (s.ownership == Some(u) ==> s.released[u] == 0)
  {
    RunKeeps(events);
    RunNamedOnce(START, events);
    var s := Run(START, events);
    assert s.acquired[u] == s.released[u] + PendingLocks(s.queue)[u] + One(s.ownership)[u];
  }
}
