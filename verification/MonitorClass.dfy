/**
  The file monitor in place: each callback updates the fields, takes the step of `MonitorMachine`, keeps the
  invariant of all interleavings, and says what its caller can rely on.
 */
module MonitorClass {
  import opened Prelude
  import opened MonitorMachine
  import opened MonitorSafety

  // --- What a callback promises --------------------------------------------------------------

  lemma OpenedKeeps(session: Session)
    ensures Inv(Opened(session))
  {}

  /** The result covers every interrupt so far, and the session is still the one it was compared with. */
  predicate UpToDate(m: Monitor, ticket: Ticket) {
    && !m.closed && ticket.generation == m.generation && ticket.seen == m.requests
    && m.session == Session(Some(ticket.path), Some(ticket.accepted))
  }

  lemma DeliveryPromises(m: Monitor)
    requires Inv(m) && m.flights != [] && m.flights[0].stage == Posted
    ensures
      var (n, shown) := DeliverResult(m);
      && n.inflight.None? && (shown.Some? <==> UpToDate(m, m.flights[0].ticket))
      && (shown.Some? ==> UpToDate(n, shown.value))
      && (m.pending.Some? ==> shown.None? && n.debounce.Some?)
  {}

  lemma ChangePromises(m: Monitor, generation: nat)
    requires !m.closed && generation == m.generation
    ensures var n := OnChanged(m, generation, true);
            n.requests == m.requests + 1 && (n.debounce.Some? || n.pending.Some?)
  {}

  /** An observation only starts when there is none, and covers every interrupt up to its start. */
  lemma LaunchPromises(m: Monitor)
    requires Inv(m) && m.debounce.Some?
    ensures
      var n := StartObservation(m);
      && n.debounce.None? && m.flights == []
      && (n.flights != m.flights ==> |n.flights| == 1 && n.flights[0].ticket.seen == n.requests)
  {}

  class StrongExternalFileMonitor {
    var generation: nat
    var bound: bool
    var debounce: Option<Timer>
    var initial: Option<nat>
    var inflightGeneration: Option<nat>
    var pendingGeneration: Option<nat>
    var closed: bool
    var observationsStarted: nat
    var concurrent: int
    var maxConcurrent: int

    // The session it watches, the observing threads, and the two counts of `Monitor`.
    var session: Session
    var flights: seq<Flight>
    var requests: nat
    var serviced: nat

    ghost function State(): Monitor
      reads this
    {
      Monitor(generation, bound, debounce, initial, inflightGeneration, pendingGeneration, closed,
              observationsStarted, concurrent, maxConcurrent, session, flights, requests, serviced)
    }

    ghost predicate Valid()
      reads this
    {
      Inv(State())
    }

    constructor (s: Session)
      ensures Valid() && State() == Opened(s)
    {
      generation, bound, debounce, initial := 0, false, None, None;
      inflightGeneration, pendingGeneration, closed := None, None, false;
      observationsStarted, concurrent, maxConcurrent := 0, 0, 0;
      session, flights, requests, serviced := s, [], 0, 0;
      new;
      OpenedKeeps(s);
    }

    /** The session has accepted another path or file state. */
    method SessionMoves(s: Session)
      requires Valid()
      modifies `session
      ensures Valid() && State() == old(State()).(session := s)
    {
      hide Inv;
      NextKeeps(State(), Event.SessionMoves(s));
      session := s;
    }

    method DropTimers()
      modifies this
      ensures State() == Suspend(old(State()))
    {
      generation := generation + 1;
      pendingGeneration, debounce, initial := None, None, None;
      bound := false;
      serviced := requests;
    }

    method SuspendMonitor()
      requires Valid()
      modifies this
      ensures Valid() && State() == Suspend(old(State()))
      ensures debounce.None? && initial.None? && pendingGeneration.None? && generation > old(generation)
    {
      hide Inv;
      NextKeeps(State(), Suspends);
      DropTimers();
    }

    method CloseMonitor()
      requires Valid()
      modifies this
      ensures Valid() && State() == Close(old(State()))
      ensures closed && (!old(closed) ==> debounce.None? && initial.None? && pendingGeneration.None?)
    {
      hide Inv;
      NextKeeps(State(), Closes);
      if closed { return; }
      closed := true;
      DropTimers();
    }

    method BindCurrentDocument(createOk: bool) returns (ok: bool)
      requires Valid()
      modifies this
      ensures Valid() && State() == BindCurrent(old(State()), createOk)
      ensures ok == (bound && !closed)
      ensures (ok ==> initial == Some(generation) && session.path.Some? && session.accepted.Some?)
    {
      hide Inv;
      NextKeeps(State(), Binds(createOk));
      if closed { return false; }
      DropTimers();
      if session.path.None? || session.accepted.None? { return false; }
      if !createOk { return false; }
      bound := true;
      initial := Some(generation);
      ok := true;
    }

    method Schedule(forGeneration: nat, immediate: bool)
      modifies `debounce, `pendingGeneration
      ensures State() == ScheduleObservation(old(State()), forGeneration, immediate)
    {
      if closed || forGeneration != generation { return; }
      if inflightGeneration.Some? { pendingGeneration := Some(forGeneration); return; }
      if debounce.Some? {
        if immediate { debounce := None; } else { return; }
      }
      var delay := if immediate then IMMEDIATE_MS else DEBOUNCE_MS;
      debounce := Some(Timer(forGeneration, delay));
    }

    /** The callback of a file system monitor made for `forGeneration`. */
    method Changed(forGeneration: nat, relevant: bool)
      requires Valid()
      modifies this
      ensures Valid() && State() == OnChanged(old(State()), forGeneration, relevant)
      ensures !closed && forGeneration == generation && relevant ==>
                requests == old(requests) + 1 && (debounce.Some? || pendingGeneration.Some?)
    {
      hide Inv, ScheduleObservation;
      NextKeeps(State(), Changes(forGeneration, relevant));
      if closed || forGeneration != generation { return; }
      if !relevant { return; }
      ChangePromises(State(), forGeneration);
      requests := requests + 1;
      Schedule(forGeneration, false);
    }

    /** The callback of the initial timer. */
    method CheckInitially()
      requires Valid() && initial.Some?
      modifies this
      ensures Valid() && State() == InitialCheck(old(State()))
      ensures initial.None?
    {
      hide Inv;
      NextKeeps(State(), InitialFires);
      var g := initial.value;
      initial := None;
      if !closed && g == generation {
        requests := requests + 1;
        Schedule(g, true);
      }
    }

    method Launch(g: nat)
      requires session.path.Some? && session.accepted.Some?
      modifies this
      ensures State() == Launched(old(State()), g)
    {
      serviced := requests;
      var ticket := Ticket(g, session.path.value, session.accepted.value, requests);
      inflightGeneration := Some(g);
      if pendingGeneration == Some(g) { pendingGeneration := None; }
      observationsStarted := observationsStarted + 1;
      concurrent := concurrent + 1;
      if maxConcurrent < concurrent { maxConcurrent := concurrent; }
      flights := flights + [Flight(ticket, Observing)];
    }

    /** The callback of the debounce timer. */
    method StartObserving()
      requires Valid() && debounce.Some?
      modifies this
      ensures Valid() && State() == StartObservation(old(State()))
      ensures debounce.None? && (flights != old(flights) ==> old(flights) == [] && flights[0].ticket.seen == requests)
    {
      hide Inv, Launched;
      NextKeeps(State(), DebounceFires);
      LaunchPromises(State());
      var g := debounce.value.generation;
      debounce := None;
      if closed || g != generation { return; }
      if session.path.None? || session.accepted.None? { serviced := requests; return; }
      Launch(g);
    }

    /** The observing thread moves on: it leaves the worker counter, then posts its result. */
    method WorkerTurn()
      requires Valid() && flights != [] && flights[0].stage != Posted
      modifies `flights, `concurrent
      ensures Valid() && State() == WorkerStep(old(State()), 0)
    {
      hide Inv;
      NextKeeps(State(), WorkerMoves(0));
      match flights[0].stage
      case Observing =>
        flights := flights[0 := flights[0].(stage := Counted)];
        concurrent := concurrent - 1;
      case Counted => flights := flights[0 := flights[0].(stage := Posted)];
    }

    method PassOn() returns (shown: Option<Ticket>)
      requires flights != [] && flights[0].stage == Posted
      modifies this
      ensures (State(), shown) == DeliverResult(old(State()))
    {
      var ticket := flights[0].ticket;
      flights := flights[1..];
      inflightGeneration := None;
      var pending := pendingGeneration;
      pendingGeneration := None;
      var pendingCurrent := !closed && pending.Some? && pending.value == generation;
      var currentTicket := !closed && ticket.generation == generation;
      shown := None;
      if currentTicket && !pendingCurrent {
        if session.path == Some(ticket.path) && session.accepted == Some(ticket.accepted) { shown := Some(ticket); }
      }
      if pendingCurrent { Schedule(pending.value, false); }
    }

    /** The callback that brings a result to the main thread; `shown` is the ticket whose result is passed on. */
    method Deliver() returns (shown: Option<Ticket>)
      requires Valid() && flights != [] && flights[0].stage == Posted
      modifies this
      ensures Valid() && (State(), shown) == DeliverResult(old(State()))
      ensures shown.Some? <==> UpToDate(old(State()), old(flights[0].ticket))
      ensures shown.Some? ==> UpToDate(State(), shown.value)
      ensures inflightGeneration.None? && (old(pendingGeneration).Some? ==> shown.None? && debounce.Some?)
    {
      hide Inv, UpToDate;
      NextKeeps(State(), Delivers);
      DeliveryPromises(State());
      shown := PassOn();
    }
  }
}
