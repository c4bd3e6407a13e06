/** What every interleaving of file interrupts, timers, observations and deliveries keeps. */
module MonitorSafety {
  import opened Prelude
  import opened MonitorMachine

  /** The slot `inflight` is taken exactly while one observation exists, and the worker counter agrees. */
  predicate OneFlight(m: Monitor) {
    && |m.flights| <= 1
    && m.inflight == (if m.flights == [] then None else Some(m.flights[0].ticket.generation))
    && m.concurrent == (if m.flights != [] && m.flights[0].stage == Observing then 1 else 0)
    && m.maxConcurrent == (if m.started > 0 then 1 else 0)
  }

  /** Timers and marks belong to the current generation; a timer excludes an observation, a mark needs one. */
  predicate Marked(m: Monitor) {
    && (m.debounce.Some? ==> m.debounce.value.generation == m.generation && m.inflight.None? && !m.closed)
    && (m.debounce.Some? ==> m.debounce.value.delay == IMMEDIATE_MS || m.debounce.value.delay == DEBOUNCE_MS)
    && (m.pending.Some? ==> m.pending.value == m.generation && m.inflight.Some? && !m.closed)
    && (m.initial.Some? ==> m.initial.value == m.generation && !m.closed)
    && (m.inflight.Some? ==> m.inflight.value <= m.generation) && (m.closed ==> !m.bound)
  }

  /** A request not yet covered has a timer or a mark; the observation of this generation covers all that are. */
  predicate Covered(m: Monitor) {
    && m.serviced <= m.requests
    && (m.serviced < m.requests <==> m.debounce.Some? || m.pending.Some?)
    && (m.flights != [] && m.flights[0].ticket.generation == m.generation ==> m.flights[0].ticket.seen == m.serviced)
  }

  predicate Inv(m: Monitor) {
    OneFlight(m) && Marked(m) && Covered(m)
  }

  lemma SuspendKeeps(m: Monitor)
    requires Inv(m)
    ensures Inv(Suspend(m)) && Inv(Close(m))
  {}

  lemma BindKeeps(m: Monitor, createOk: bool)
    requires Inv(m)
    ensures Inv(BindCurrent(m, createOk))
  {
    SuspendKeeps(m);
  }

  /** A request that has just been counted is the one the scheduled timer or mark stands for. */
  lemma ScheduleKeeps(m: Monitor, immediate: bool)
    requires Inv(m) && !m.closed
    ensures Inv(ScheduleObservation(m.(requests := m.requests + 1), m.generation, immediate))
  {}

  lemma InitialKeeps(m: Monitor)
    requires Inv(m)
    ensures Inv(InitialCheck(m))
  {
    var s := m.(initial := None);
    assert Inv(s);
    if !s.closed { ScheduleKeeps(s, true); }
  }

  lemma StartKeeps(m: Monitor)
    requires Inv(m)
    ensures Inv(StartObservation(m))
  {}

  lemma WorkerKeeps(m: Monitor, i: nat)
    requires Inv(m)
    ensures Inv(WorkerStep(m, i))
  {}

  lemma DeliverKeeps(m: Monitor)
    requires Inv(m)
    ensures Inv(DeliverResult(m).0)
  {}

  lemma NextKeeps(m: Monitor, e: Event)
    requires Inv(m)
    ensures Inv(Next(m, e))
  {
    match e
    case SessionMoves(session) =>
    case Suspends => SuspendKeeps(m);
    case Closes => SuspendKeeps(m);
    case Binds(createOk) => BindKeeps(m, createOk);
    case Changes(generation, relevant) =>
      if !m.closed && generation == m.generation && relevant { ScheduleKeeps(m, false); }
    case InitialFires => InitialKeeps(m);
    case DebounceFires => StartKeeps(m);
    case WorkerMoves(i) => WorkerKeeps(m, i);
    case Delivers => DeliverKeeps(m);
  }

  lemma {:induction false} RunFrom(m: Monitor, events: seq<Event>)
    requires Inv(m)
    ensures Inv(Run(m, events))
    decreases |events|
  {
    if events == [] {
    } else {
      NextKeeps(m, events[0]);
      RunFrom(Next(m, events[0]), events[1..]);
    }
  }

  /** At most one observation runs, and none is running while the debounce timer is set. */
  lemma OneObservation(session: Session, events: seq<Event>)
    ensures var m := Run(Opened(session), events);
            |m.flights| <= 1 && m.maxConcurrent <= 1 && !(m.debounce.Some? && m.inflight.Some?)
  {
    RunFrom(Opened(session), events);
  }

  /** An interrupt of the current generation that no observation covers has a timer or a pending mark. */
  lemma NoInterruptIsLost(session: Session, events: seq<Event>)
    ensures var m := Run(Opened(session), events);
            m.serviced < m.requests ==> !m.closed && (m.debounce == Some(Timer(m.generation, IMMEDIATE_MS))
                                                      || m.debounce == Some(Timer(m.generation, DEBOUNCE_MS))
                                                      || (m.pending == Some(m.generation) && m.inflight.Some?))
  {
    RunFrom(Opened(session), events);
  }

  /** An interrupt of another generation or of no interest changes nothing, nor does any once the monitor is closed. */
  lemma IdleInterrupts(m: Monitor, generation: nat, relevant: bool)
    ensures Next(m, Changes(generation, relevant)) == m <==> m.closed || generation != m.generation || !relevant
  {}

  /**
    Binding starts a new generation, without the timers and marks of the old one; with an accepted file whose monitor
    could be made it is bound and about to check, otherwise neither.  Suspending only does the former.
   */
  lemma BindingStartsOver(m: Monitor, createOk: bool)
    ensures
      var n, bindable := Next(m, Binds(createOk)), m.session.path.Some? && m.session.accepted.Some? && createOk;
      if m.closed then n == m
      else
        && n.generation == m.generation + 1 && n.debounce.None? && n.pending.None?
        && n.serviced == n.requests == m.requests
        && n.bound == bindable && n.initial == (if bindable then Some(n.generation) else None)
        && n.flights == m.flights && n.inflight == m.inflight && !n.closed
    ensures
      var n := Next(m, Suspends);
      && n.generation == m.generation + 1 && n.debounce.None? && n.pending.None? && n.initial.None? && !n.bound
      && n.flights == m.flights && n.inflight == m.inflight && n.closed == m.closed
  {}

  /** Once closed, the monitor has no timer and no mark, and it shows nothing. */
  predicate Silent(m: Monitor) {
    m.closed && !m.bound && m.debounce.None? && m.initial.None? && m.pending.None? && DeliverResult(m).1.None?
  }

  lemma {:induction false} SilentStays(m: Monitor, events: seq<Event>)
    requires Inv(m) && Silent(m)
    ensures Silent(Run(m, events))
    decreases |events|
  {
    if events == [] {
    } else {
      NextKeeps(m, events[0]);
      SilentStays(Next(m, events[0]), events[1..]);
    }
  }

  /** Closing is for good: whatever comes later, an observation still under way included, nothing is shown. */
  lemma ClosedStaysSilent(session: Session, before: seq<Event>, after: seq<Event>)
    ensures Silent(Run(Next(Run(Opened(session), before), Closes), after))
  {
    RunFrom(Opened(session), before);
    NextKeeps(Run(Opened(session), before), Closes);
    SilentStays(Next(Run(Opened(session), before), Closes), after);
  }

  /** Only binding, suspending and closing touch the binding; only they and the check itself drop the check to come. */
  lemma BindingIsKept(m: Monitor, e: Event)
    requires !e.Suspends? && !e.Closes? && !e.Binds?
    ensures
      var n := Next(m, e);
      && n.generation == m.generation && n.bound == m.bound && n.closed == m.closed
      && (n.initial == m.initial || e.InitialFires?) && (n.session == m.session || e.SessionMoves?)
  {}

  /** Every start is counted, and only starts are. */
  lemma StartsAreCounted(session: Session, events: seq<Event>, e: Event)
    ensures
      var m := Run(Opened(session), events);
      var n := Next(m, e);
      n.started == m.started + (if |n.flights| > |m.flights| then 1 else 0)
  {
    RunFrom(Opened(session), events);
  }

  /**
    A relevant change waits for the debounce time, or for a timer that is set already; the check after binding hardly
    waits, whatever timer is set; and both only leave a mark while an observation runs.
   */
  lemma TimersAreSet(session: Session, events: seq<Event>)
    ensures
      var m := Run(Opened(session), events);
      var n := Next(m, Changes(m.generation, true));
      !m.closed ==>
        && n.requests == m.requests + 1 && n.pending == (if m.inflight.Some? then Some(m.generation) else None)
        && n.debounce == (if m.inflight.Some? then None
                          else if m.debounce.Some? then m.debounce else Some(Timer(m.generation, 120)))
    ensures
      var m := Run(Opened(session), events);
      var n := Next(m, InitialFires);
      m.initial.Some? ==>
        && n.initial.None? && n.requests == m.requests + 1
        && n.pending == (if m.inflight.Some? then Some(m.generation) else None)
        && n.debounce == (if m.inflight.Some? then None else Some(Timer(m.generation, 1)))
    ensures
      var m := Run(Opened(session), events);
      m.pending.Some? && m.flights != [] && m.flights[0].stage == Posted ==>
        Next(m, Delivers).debounce == Some(Timer(m.generation, 120)) && Next(m, Delivers).pending.None?
  {
    RunFrom(Opened(session), events);
  }

  /**
    A result is shown exactly when its observation was made for the current generation, no interrupt came
    after it began, and the session still has the path and the file state it was compared with.
   */
  lemma ShownExactlyWhenCurrent(session: Session, events: seq<Event>)
    requires var m := Run(Opened(session), events); m.flights != [] && m.flights[0].stage == Posted
    ensures var m := Run(Opened(session), events);
            var ticket := m.flights[0].ticket;
            var shown := DeliverResult(m).1;
            && (shown.Some? ==> shown.value == ticket)
            && (shown.Some? <==> !m.closed && ticket.generation == m.generation && ticket.seen == m.requests
                                 && m.session == Session(Some(ticket.path), Some(ticket.accepted)))
  {
    RunFrom(Opened(session), events);
  }

  /**
    An interrupt is given up only by suspending, binding anew or closing, or by a start that finds no
    accepted file.
   */
  lemma OnlyTheseDrop(session: Session, events: seq<Event>, e: Event)
    ensures var m := Run(Opened(session), events);
            var n := Next(m, e);
            n.serviced > m.serviced ==>
              || e.Suspends? || e.Closes? || e.Binds?
              || (e.DebounceFires? && (m.session.path.None? || m.session.accepted.None?))
              || (e.DebounceFires? && n.flights != [] && n.flights[0].ticket.seen == n.requests
                 && n.flights[0].ticket.generation == n.generation)
  {
    RunFrom(Opened(session), events);
  }

  /** The present observation, if any, runs to its delivery. */
  function Landed(m: Monitor): Monitor {
    Next(Next(Next(m, WorkerMoves(0)), WorkerMoves(0)), Delivers)
  }

  /** The timer fires and the observation it starts runs until its result is posted. */
  function Observed(m: Monitor): Monitor {
    Next(Next(Next(m, DebounceFires), WorkerMoves(0)), WorkerMoves(0))
  }

  predicate SameLane(m: Monitor, n: Monitor) {
    n.generation == m.generation && n.requests == m.requests && n.serviced == m.serviced && n.session == m.session
  }

  lemma WorkerIsLocal(m: Monitor)
    requires Inv(m)
    ensures Inv(Next(m, WorkerMoves(0))) && SameLane(m, Next(m, WorkerMoves(0)))
  {
    NextKeeps(m, WorkerMoves(0));
  }

  lemma LandedWaits(m: Monitor)
    requires Inv(m) && m.serviced < m.requests
    ensures var n := Landed(m);
            && Inv(n) && n.debounce.Some?
            && n.requests == m.requests && n.generation == m.generation && n.session == m.session
  {
    var a := Next(m, WorkerMoves(0));
    var b := Next(a, WorkerMoves(0));
    WorkerIsLocal(m);
    WorkerIsLocal(a);
    NextKeeps(b, Delivers);
  }

  lemma ObservedAnswers(m: Monitor)
    requires Inv(m) && m.debounce.Some? && m.session.path.Some? && m.session.accepted.Some?
    ensures var shown := DeliverResult(Observed(m)).1;
            shown.Some? && shown.value.seen == m.requests && shown.value.generation == m.generation
  {
    var started := Next(m, DebounceFires);
    var ticket := Ticket(m.generation, m.session.path.value, m.session.accepted.value, m.requests);
    assert started.flights == [Flight(ticket, Observing)];
    assert Next(started, WorkerMoves(0)).flights == [Flight(ticket, Counted)];
    assert Observed(m).flights == [Flight(ticket, Posted)];
  }

  /**
    An outstanding interrupt is answered: once the present observation, the timer and the observation it
    starts have run, with nothing else happening, a result that covers every interrupt is shown.
   */
  lemma OutstandingInterruptIsAnswered(session: Session, events: seq<Event>)
    requires var m := Run(Opened(session), events);
             m.serviced < m.requests && m.session.path.Some? && m.session.accepted.Some?
    ensures var m := Run(Opened(session), events);
            var shown := DeliverResult(Observed(Landed(m))).1;
            shown.Some? && shown.value.seen == m.requests && shown.value.generation == m.generation
  {
    var m := Run(Opened(session), events);
    RunFrom(Opened(session), events);
    LandedWaits(m);
    ObservedAnswers(Landed(m));
  }
}
