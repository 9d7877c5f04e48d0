/** The running system: the tables, the sends in flight, and what has been
    transmitted, changed by one transaction or one send at a time. A schedule
    is a list of steps in any order; a step whose guard fails changes nothing. */
module Protocol {
  import opened Domain
  import opened Tables

  /** The configured channels and the fallback each may name. */
  datatype Config = Config(channels: set<Channel>, fallbacks: map<Channel, Channel>)

  /** What the configuration check at startup guarantees. */
  ghost predicate ValidConfig(cfg: Config) {
    forall c :: c in cfg.fallbacks ==> cfg.fallbacks[c] in cfg.channels && cfg.fallbacks[c] != c
  }

  /** How one send ended: accepted, refused, or cut short by a shutdown. */
  datatype Outcome = Delivered | Refused | CutShort

  /** One claim of one row. */
  datatype Token = Token(batch: nat, id: Id)

  /** A worker's private copy of the row it claimed, and how its send ended. */
  datatype Flight = Flight(row: Attempt, outcome: Option<Outcome>)

  /** One message handed to a channel. */
  datatype Transmission = Transmission(id: Id, kind: Kind, recoveryFor: Option<Id>, delivered: bool)

  /** Facts about the past that no table holds.
      - usedEvents, usedAttempts: every identifier ever given out;
      - closedWith: the recovery budget each event was closed with;
      - replayed: attempts an operator replayed since their event was last muted;
      - claims: how often each attempt was claimed;
      - disturbed: attempts taken back, handed back or replayed at least once. */
  datatype History = History(
    usedEvents: set<Id>,
    usedAttempts: set<Id>,
    closedWith: map<Id, nat>,
    replayed: set<Id>,
    claims: map<Id, nat>,
    disturbed: set<Id>,
    batches: nat)

  datatype System = System(db: Db, flights: map<Token, Flight>, log: seq<Transmission>, past: History)

  const INIT: System :=
    System(Db(map[], map[]), map[], [], History({}, {}, map[], {}, map[], {}, 0))

  /** Who asks for a state change: an operator, or the reporting source. */
  datatype Request = Manual(action: Action) | SourceResolve

  function NextState(req: Request, current: EventState): Result<EventState> {
    match req
    case Manual(action) => ApplyAction(current, action)
    case SourceResolve => Ok(Resolved)
  }

  /** The recovery budget of closing an event of type `typ` found in state
      `state`; `notifier` is 0 when notices on resolve are switched off. */
  function AttemptsFor(notifier: nat, typ: EventType, state: EventState): nat {
    if typ != Incident || state == Muted then 0 else notifier
  }

  /** The change committed for a request that read the event in state `from`. */
  function ChangeFor(notifier: nat, typ: EventType, from: EventState, to: EventState, at: Time): StateChange {
    StateChange(from, to, at, if to == Resolved then AttemptsFor(notifier, typ, from) else 0, to == Muted)
  }

  datatype Step =
    /** A new event with alerts `newIds`, from identifier to channel. */
    | Create(id: Id, e: Event, newIds: map<Id, Channel>, maxAttempts: nat)
    | Refresh(id: Id, severity: Severity, at: Time, newIds: map<Id, Channel>, maxAttempts: nat)
    | Change(id: Id, from: EventState, req: Request, notifier: nat, at: Time, links: map<Id, Id>)
    | ClaimDue(taken: set<Id>, now: Time)
    /** A send ends; `outcome` is the channel's answer. */
    | Transmit(token: Token, outcome: Outcome)
    /** The worker records its outcome; `retryAt` is when it would try again. */
    | Record(token: Token, at: Time, retryAt: Time, copyId: Id, recoveryId: Id)
    /** The worker dies, or its write fails: the outcome is never recorded. */
    | Lose(token: Token)
    | ReplayOne(id: Id, at: Time)
    | Reap(staleBefore: Time, at: Time)
    | Expire(batch: set<Id>, cutoff: Time)

  function AlertRows(eventId: Id, newIds: map<Id, Channel>, maxAttempts: nat, at: Time): map<Id, Attempt> {
    map a | a in newIds :: AlertRow(eventId, newIds[a], maxAttempts, at)
  }

  /** What the worker does with the outcome of its send. */
  function ReportFor(x: Attempt, outcome: Outcome, at: Time, retryAt: Time): Report {
    match outcome
    case CutShort => Report(Pending, x.attempts, x.nextRetryAt, at)
    case Delivered => Report(Sent, x.attempts + 1, None, at)
    case Refused =>
      if x.attempts + 1 >= x.maxAttempts then Report(DeadLetter, x.attempts + 1, None, at)
      else Report(Failed, x.attempts + 1, Some(retryAt), at)
  }

  /** The copy for the fallback of the channel that gave up: alerts only, and
      never of a copy. */
  function FallbackFor(cfg: Config, x: Attempt, r: Report, copyId: Id, recoveryId: Id): Option<Copy> {
    if r.state != DeadLetter || !x.IsDirect() || x.channel !in cfg.fallbacks || cfg.fallbacks[x.channel] !in cfg.channels then
      None
    else
      Some(Copy(copyId, AlertRow(x.eventId, cfg.fallbacks[x.channel], x.maxAttempts, r.at), recoveryId))
  }

  function Fallible(r: Result<Db>, before: Db): Db {
    if r.Ok? then r.value else before
  }

  // --- The steps --------------------------------------------------------------------

  function DoCreate(cfg: Config, s: System, id: Id, e: Event, newIds: map<Id, Channel>, maxAttempts: nat): System {
    if id in s.past.usedEvents || !(newIds.Keys !! s.past.usedAttempts) || maxAttempts == 0
       || !(newIds.Values <= cfg.channels) || e.state != New || e.resolvedAt.Some? then s
    else
      var r := CreateEvent(s.db, id, e, AlertRows(id, newIds, maxAttempts, e.createdAt));
      if r.Err? then s
      else s.(db := r.value, past := s.past.(
        usedEvents := s.past.usedEvents + {id}, usedAttempts := s.past.usedAttempts + newIds.Keys))
  }

  function DoRefresh(cfg: Config, s: System, id: Id, severity: Severity, at: Time, newIds: map<Id, Channel>, maxAttempts: nat): System {
    if !(newIds.Keys !! s.past.usedAttempts) || maxAttempts == 0 || !(newIds.Values <= cfg.channels) then s
    else
      var r := RefreshOpenEvent(s.db, id, severity, at, AlertRows(id, newIds, maxAttempts, at));
      if r.Err? then s
      else s.(db := r.value, past := s.past.(usedAttempts := s.past.usedAttempts + newIds.Keys))
  }

  function AttemptsOf(attempts: map<Id, Attempt>, eventId: Id): set<Id> {
    set a | a in attempts && attempts[a].eventId == eventId
  }

  function DoChange(s: System, id: Id, from: EventState, req: Request, notifier: nat, at: Time, newIds: map<Id, Id>): System {
    if id !in s.db.events || (req.Manual? && s.db.events[id].typ != Incident) || !(newIds.Keys !! s.past.usedAttempts) then s
    else
      var to := NextState(req, from);
      if to.Err? || to.value == from then s
      else
        var r := TransitionEvent(s.db, id, ChangeFor(notifier, s.db.events[id].typ, from, to.value, at), newIds);
        if r.Err? then s
        else s.(db := r.value, past := s.past.(
          usedAttempts := s.past.usedAttempts + newIds.Keys,
          closedWith := if to.value == Resolved
            then s.past.closedWith[id := AttemptsFor(notifier, s.db.events[id].typ, from)] else s.past.closedWith,
          replayed := if to.value == Muted then s.past.replayed - AttemptsOf(s.db.attempts, id) else s.past.replayed))
  }

  function ClaimsOf(claims: map<Id, nat>, a: Id): nat {
    if a in claims then claims[a] else 0
  }

  function DoClaim(s: System, taken: set<Id>, now: Time): System {
    if exists a :: a in taken && (a !in s.db.attempts || !Deliverable(s.db.attempts, a, now)) then s
    else
      var db := Claim(s.db, taken, now);
      var n := s.past.batches;
      s.(db := db,
         flights := s.flights + (map a | a in taken && a in db.attempts :: Token(n, a) := Flight(db.attempts[a], None)),
         past := s.past.(
           claims := s.past.claims + (map a | a in taken :: ClaimsOf(s.past.claims, a) + 1),
           batches := n + 1))
  }

  function DoTransmit(s: System, t: Token, outcome: Outcome): System {
    if t !in s.flights || s.flights[t].outcome.Some? then s
    else
      var x := s.flights[t].row;
      s.(flights := s.flights[t := Flight(x, Some(outcome))],
         log := s.log + [Transmission(t.id, x.kind, x.recoveryFor, outcome == Delivered)])
  }

  function DoRecord(cfg: Config, s: System, t: Token, at: Time, retryAt: Time, copyId: Id, recoveryId: Id): System {
    if t !in s.flights || s.flights[t].outcome.None? || copyId == recoveryId
       || copyId in s.past.usedAttempts || recoveryId in s.past.usedAttempts then s
    else
      var x := s.flights[t].row;
      var r := ReportFor(x, s.flights[t].outcome.value, at, retryAt);
      var db := Fallible(MarkResult(s.db, t.id, r, FallbackFor(cfg, x, r, copyId, recoveryId)), s.db);
      s.(db := db, flights := s.flights - {t}, past := s.past.(
        usedAttempts := s.past.usedAttempts + {copyId, recoveryId},
        disturbed := if s.flights[t].outcome.value == CutShort then s.past.disturbed + {t.id} else s.past.disturbed))
  }

  function DoReplay(s: System, id: Id, at: Time): System {
    var r := Replay(s.db, id, at);
    if r.Err? then s
    else s.(db := r.value, past := s.past.(replayed := s.past.replayed + {id}, disturbed := s.past.disturbed + {id}))
  }

  function StuckRows(attempts: map<Id, Attempt>, staleBefore: Time): set<Id> {
    set a | a in attempts && Stuck(attempts[a], staleBefore)
  }

  function Next(cfg: Config, s: System, step: Step): System {
    match step
    case Create(id, e, newIds, maxAttempts) => DoCreate(cfg, s, id, e, newIds, maxAttempts)
    case Refresh(id, severity, at, newIds, maxAttempts) => DoRefresh(cfg, s, id, severity, at, newIds, maxAttempts)
    case Change(id, from, req, notifier, at, newIds) => DoChange(s, id, from, req, notifier, at, newIds)
    case ClaimDue(taken, now) => DoClaim(s, taken, now)
    case Transmit(t, outcome) => DoTransmit(s, t, outcome)
    case Record(t, at, retryAt, copyId, recoveryId) => DoRecord(cfg, s, t, at, retryAt, copyId, recoveryId)
    case Lose(t) => s.(flights := s.flights - {t})
    case ReplayOne(id, at) => DoReplay(s, id, at)
    case Reap(staleBefore, at) =>
      s.(db := RequeueStuckSending(s.db, staleBefore, at),
         past := s.past.(disturbed := s.past.disturbed + StuckRows(s.db.attempts, staleBefore)))
    case Expire(batch, cutoff) => s.(db := DeleteEvents(s.db, batch, cutoff))
  }

  /** Any number of steps, in the order given. */
  function Run(cfg: Config, s: System, steps: seq<Step>): System
    decreases |steps|
  {
    if steps == [] then s else Run(cfg, Next(cfg, s, steps[0]), steps[1..])
  }

  /** A run may be cut in two anywhere. */
  lemma {:induction false} RunInTwo(cfg: Config, s: System, steps: seq<Step>, n: nat)
    requires n <= |steps|
    ensures Run(cfg, s, steps) == Run(cfg, Run(cfg, s, steps[..n]), steps[n..])
    decreases n
  {
    if n == 0 {
      assert steps[0..] == steps;
    } else {
      RunInTwo(cfg, Next(cfg, s, steps[0]), steps[1..], n - 1);
      assert steps[..n][1..] == steps[1..][..n - 1] && steps[1..][n - 1..] == steps[n..];
    }
  }
}
