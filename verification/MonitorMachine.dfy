/**
  The live monitor of the open file: interrupts from the file system, a debounce timer, one observing
  thread and the delivery of its result, in any interleaving.  `requests` counts the accepted interrupts
  and `serviced` those an observation covers or that were dropped; a ticket remembers the count it covers.
 */
module MonitorMachine {
  import opened Prelude

  const DEBOUNCE_MS := 120
  const IMMEDIATE_MS := 1

  /** The document the session has accepted: its logical path and its file state, both opaque here. */
  datatype Session = Session(path: Option<int>, accepted: Option<int>)

  datatype Timer = Timer(generation: nat, delay: nat)

  datatype Ticket = Ticket(generation: nat, path: int, accepted: int, seen: nat)

  /** Where an observation is: still looking, off the worker counter, or posted to the main thread. */
  datatype Stage = Observing | Counted | Posted

  datatype Flight = Flight(ticket: Ticket, stage: Stage)

  datatype Monitor = Monitor(
    generation: nat, bound: bool, debounce: Option<Timer>, initial: Option<nat>,
    inflight: Option<nat>, pending: Option<nat>, closed: bool,
    started: nat, concurrent: int, maxConcurrent: int,
    session: Session, flights: seq<Flight>, requests: nat, serviced: nat)

  function Opened(session: Session): Monitor {
    Monitor(0, false, None, None, None, None, false, 0, 0, 0, session, [], 0, 0)
  }

  function Suspend(m: Monitor): Monitor {
    m.(generation := m.generation + 1, pending := None, debounce := None, initial := None, bound := false,
       serviced := m.requests)
  }

  function Close(m: Monitor): Monitor {
    if m.closed then m else Suspend(m.(closed := true))
  }

  function BindCurrent(m: Monitor, createOk: bool): Monitor {
    if m.closed then m
    else
      var s := Suspend(m);
      if s.session.path.None? || s.session.accepted.None? || !createOk then s
      else s.(bound := true, initial := Some(s.generation))
  }

  function ScheduleObservation(m: Monitor, generation: nat, immediate: bool): Monitor {
    if m.closed || generation != m.generation then m
    else if m.inflight.Some? then m.(pending := Some(generation))
    else if m.debounce.Some? && !immediate then m
    else m.(debounce := Some(Timer(generation, if immediate then IMMEDIATE_MS else DEBOUNCE_MS)))
  }

  /** An interrupt from a monitor made for `generation`; `relevant` is the event and path filter. */
  function OnChanged(m: Monitor, generation: nat, relevant: bool): Monitor {
    if m.closed || generation != m.generation || !relevant then m
    else ScheduleObservation(m.(requests := m.requests + 1), generation, false)
  }

  function InitialCheck(m: Monitor): Monitor {
    if m.initial.None? then m
    else
      var g := m.initial.value;
      var s := m.(initial := None);
      if s.closed || g != s.generation then s else ScheduleObservation(s.(requests := s.requests + 1), g, true)
  }

  /** A new observation of generation `g` takes off. */
  function Launched(s: Monitor, g: nat): Monitor
    requires s.session.path.Some? && s.session.accepted.Some?
  {
    s.(inflight := Some(g), pending := if s.pending == Some(g) then None else s.pending,
       started := s.started + 1, concurrent := s.concurrent + 1,
       maxConcurrent := if s.maxConcurrent < s.concurrent + 1 then s.concurrent + 1 else s.maxConcurrent,
       flights := s.flights
                  + [Flight(Ticket(g, s.session.path.value, s.session.accepted.value, s.requests), Observing)],
       serviced := s.requests)
  }

  /** The debounce timer fires. */
  function StartObservation(m: Monitor): Monitor {
    if m.debounce.None? then m
    else
      var g := m.debounce.value.generation;
      var s := m.(debounce := None);
      if s.closed || g != s.generation then s
      else if s.session.path.None? || s.session.accepted.None? then s.(serviced := s.requests)
      else Launched(s, g)
  }

  /** The observing thread of flight `i` takes its next step. */
  function WorkerStep(m: Monitor, i: nat): Monitor {
    if i >= |m.flights| then m
    else match m.flights[i].stage
      case Observing => m.(flights := m.flights[i := m.flights[i].(stage := Counted)], concurrent := m.concurrent - 1)
      case Counted => m.(flights := m.flights[i := m.flights[i].(stage := Posted)])
      case Posted => m
  }

  /** Delivery of the oldest flight once it is posted, and the ticket whose result is shown, if any. */
  function DeliverResult(m: Monitor): (Monitor, Option<Ticket>) {
    if m.flights == [] || m.flights[0].stage != Posted then (m, None)
    else
      var ticket := m.flights[0].ticket;
      var s := m.(flights := m.flights[1..], inflight := None, pending := None);
      var pendingCurrent := !m.closed && m.pending == Some(m.generation);
      if pendingCurrent then (ScheduleObservation(s, m.generation, false), None)
      else if !m.closed && ticket.generation == m.generation
              && m.session == Session(Some(ticket.path), Some(ticket.accepted)) then
        (s, Some(ticket))
      else (s, None)
  }

  datatype Event =
    | SessionMoves(session: Session)
    | Suspends
    | Closes
    | Binds(createOk: bool)
    | Changes(generation: nat, relevant: bool)
    | InitialFires
    | DebounceFires
    | WorkerMoves(i: nat)
    | Delivers

  function Next(m: Monitor, e: Event): Monitor {
    match e
    case SessionMoves(session) => m.(session := session)
    case Suspends => Suspend(m)
    case Closes => Close(m)
    case Binds(createOk) => BindCurrent(m, createOk)
    case Changes(generation, relevant) => OnChanged(m, generation, relevant)
    case InitialFires => InitialCheck(m)
    case DebounceFires => StartObservation(m)
    case WorkerMoves(i) => WorkerStep(m, i)
    case Delivers => DeliverResult(m).0
  }

  function Run(m: Monitor, events: seq<Event>): Monitor
    decreases |events|
  {
    if events == [] then m else Run(Next(m, events[0]), events[1..])
  }
}
