/** The vocabulary of the service: event and delivery states, severities, the
    manual actions, and the rows of the two tables. */
module Domain {

  datatype Option<+T> = None | Some(value: T)

  datatype Result<+T> = Ok(value: T) | Err(error: Error)

  datatype Error =
    | NotFound
    | NotReplayable
    | StateChanged
    | UniqueViolation
    | InvalidTransition
    | SourceNotAllowed
    | Validation

  /** Rows are named by random identifiers; only their equality matters here. */
  type Id = nat

  /** A point in time, as a number. */
  type Time = int

  type Channel = string

  datatype EventType = Incident | BusinessEvent | Audit

  datatype Severity = Info | Success | Warning | Error | Critical

  /** One severity is more alarming than another: success and info are the least
      alarming, and neither is above the other. */
  predicate Graver(s: Severity, than: Severity) {
    match s
    case Info => false
    case Success => false
    case Warning => than.Info? || than.Success?
    case Error => !than.Error? && !than.Critical?
    case Critical => !than.Critical?
  }

  /** How alarming a severity is: success shares the rank of info. */
  function SeverityRank(s: Severity): nat {
    match s
    case Info => 10
    case Success => 10
    case Warning => 20
    case Error => 30
    case Critical => 40
  }

  /** Ranks order severities as they alarm. */
  lemma RankOrders(s: Severity, than: Severity)
    ensures SeverityRank(s) > SeverityRank(than) <==> Graver(s, than)
  {
  }

  datatype EventState = New | Acknowledged | Resolved | Muted | Escalated

  datatype Action = Ack | Resolve | Mute | Unmute | Escalate

  /** Each action leads to a state of its own. */
  predicate Reaches(action: Action, state: EventState) {
    && (state == Acknowledged <==> action == Ack)
    && (state == Resolved <==> action == Resolve)
    && (state == Muted <==> action == Mute)
    && (state == Escalated <==> action == Escalate)
  }

  /** The state a manual action leads to. Nothing leaves `Resolved`, and
      resolving twice is an error, not a no-op. */
  function ApplyAction(current: EventState, action: Action): (r: Result<EventState>)
    ensures r.Ok? <==> current != Resolved && (action == Unmute ==> current == Muted)
    ensures r.Ok? ==> Reaches(action, r.value)
    ensures r.Err? ==> r.error == InvalidTransition
  {
    match action
    case Ack => if current == Resolved then Err(InvalidTransition) else Ok(Acknowledged)
    case Resolve => if current == Resolved then Err(InvalidTransition) else Ok(Resolved)
    case Mute => if current == Resolved then Err(InvalidTransition) else Ok(Muted)
    case Unmute => if current != Muted then Err(InvalidTransition) else Ok(New)
    case Escalate => if current == Resolved then Err(InvalidTransition) else Ok(Escalated)
  }

  datatype Event = Event(
    typ: EventType,
    severity: Severity,
    state: EventState,
    source: string,
    category: string,
    dedupeKey: string,
    createdAt: Time,
    updatedAt: Time,
    lastSeenAt: Time,
    resolvedAt: Option<Time>)

  datatype DeliveryState = Pending | Sending | Sent | Failed | DeadLetter | Cancelled

  datatype Kind = Alert | Recovery

  /** One delivery job: one channel's copy of one event's alert or recovery. */
  datatype Attempt = Attempt(
    eventId: Id,
    channel: Channel,
    kind: Kind,
    state: DeliveryState,
    attempts: nat,
    maxAttempts: nat,
    nextRetryAt: Option<Time>,
    createdAt: Time,
    updatedAt: Time,
    fallbackOf: Option<Id>,
    recoveryFor: Option<Id>)
  {
    predicate IsFallback() {
      fallbackOf.Some?
    }

    predicate IsAlert() {
      kind == Alert
    }

    /** An alert routing chose, as opposed to a copy of a dead-lettered one. */
    predicate IsDirect() {
      IsAlert() && !IsFallback()
    }

    /** Queued, and nobody has tried it yet. */
    predicate Untried() {
      state == Pending && attempts == 0 && nextRetryAt.None?
    }

    /** The columns no statement ever updates. */
    predicate SameJob(other: Attempt) {
      && eventId == other.eventId
      && channel == other.channel
      && kind == other.kind
      && maxAttempts == other.maxAttempts
      && createdAt == other.createdAt
      && fallbackOf == other.fallbackOf
      && recoveryFor == other.recoveryFor
    }
  }
}
