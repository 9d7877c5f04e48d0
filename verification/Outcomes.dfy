/** What each step does to the rows, read off the two tables alone: which rows
    change, to what, and which are added. */
module Outcomes {
  import opened Domain
  import opened Tables
  import opened Protocol
  import opened Invariants
  import opened Effects
  import opened Finality
  import opened LinkProofs

  // --- Changing a state ----------------------------------------------------------------------

  /** Row `y` is the cancelled form of row `x`. */
  ghost predicate IsCancelled(x: Attempt, y: Attempt) {
    y.SameJob(x) && y.state == Cancelled && y.attempts == x.attempts && y.nextRetryAt.None?
  }

  /** A mute cancels the queued alerts of the event, and nothing else changes a
      row: not a row of another event, a recovery, or a send in progress. */
  ghost predicate CancelsOnMute(before: Db, after: Db, id: Id, muted: bool) {
    forall a :: a in before.attempts ==>
      var x := before.attempts[a];
      a in after.attempts &&
      if muted && x.eventId == id && x.kind == Alert && x.state in {Pending, Failed} then IsCancelled(x, after.attempts[a])
      else after.attempts[a] == x
  }

  /** An untried recovery of alert `a`, with `budget` tries. */
  ghost predicate IsRecoveryOf(y: Attempt, a: Id, alert: Attempt, budget: nat) {
    && y.kind == Recovery && y.Untried() && y.maxAttempts == budget && y.recoveryFor == Some(a) && y.fallbackOf.None?
    && y.eventId == alert.eventId && y.channel == alert.channel
  }

  /** Alert `a` got a recovery that was not there before. */
  ghost predicate Announced(before: Db, after: Db, a: Id, budget: nat)
    requires a in before.attempts
  {
    exists r :: r in after.attempts && r !in before.attempts && IsRecoveryOf(after.attempts[r], a, before.attempts[a], budget)
  }

  /** Each alert of the event that is not cancelled gets a recovery with `budget`
      tries, and nothing else is added. */
  ghost predicate Announces(before: Db, after: Db, id: Id, budget: nat) {
    && (forall a :: a in before.attempts && Owed(before.attempts[a], id) ==> Announced(before, after, a, budget))
    && (forall r :: r in after.attempts && r !in before.attempts ==>
          exists a :: a in before.attempts && Owed(before.attempts[a], id) && IsRecoveryOf(after.attempts[r], a, before.attempts[a], budget))
  }

  /** Closing tells the channels: an incident that is not muted, with notices on. */
  predicate ClosesLoudly(was: Event, to: EventState, notifier: nat) {
    to == Resolved && was.typ == Incident && was.state != Muted && notifier > 0
  }

  /** A committed state change of event `id`: the event, the rows it had, and the
      rows it got. */
  ghost predicate ChangeOutcome(before: Db, after: Db, id: Id, notifier: nat, at: Time) {
    && id in before.events && id in after.events
    && (forall e :: e != id ==> (e in after.events <==> e in before.events))
    && (forall e :: e in before.events && e != id ==> after.events[e] == before.events[e])
    && var was, now := before.events[id], after.events[id];
    && was.state != Resolved && now.state != was.state && SameOrigin(was, now) && now.severity == was.severity && now.lastSeenAt == was.lastSeenAt
    && now.resolvedAt == (if now.state == Resolved then Some(at) else None)
    && CancelsOnMute(before, after, id, now.state == Muted)
    && if ClosesLoudly(was, now.state, notifier) then Announces(before, after, id, notifier)
       else after.attempts.Keys == before.attempts.Keys
  }

  lemma ChangeOutcomeHolds(cfg: Config, s: System, id: Id, from: EventState, req: Request, notifier: nat, at: Time, links: map<Id, Id>)
    requires Known(s) && Links(cfg, s.db) && Exact(s)
    ensures var after := DoChange(s, id, from, req, notifier, at, links);
      after != s ==>
        && ChangeOutcome(s.db, after.db, id, notifier, at) && s.db.events[id].state == from
        && match req { case Manual(action) => Reaches(action, after.db.events[id].state)
                       case SourceResolve => after.db.events[id].state == Resolved }
  {
    var after := DoChange(s, id, from, req, notifier, at, links);
    ChangeEffect(s, id, from, req, notifier, at, links);
    if after != s { ChangedOutcome(cfg, s, after, id, from, req, notifier, at, links); }
  }

  lemma ChangedOutcome(cfg: Config, s: System, after: System, id: Id, from: EventState, req: Request, notifier: nat, at: Time, links: map<Id, Id>)
    requires Links(cfg, s.db) && Exact(s) && Applies(s, id, from, req) && Changed(s, after, id, Committed(s, id, from, req, notifier, at), links)
    ensures ChangeOutcome(s.db, after.db, id, notifier, at)
  {
    var c := Committed(s, id, from, req, notifier, at);
    if ClosesLoudly(s.db.events[id], c.to, notifier) {
      AnnouncesHolds(cfg, s, after, id, c, links);
    } else {
      assert after.db.attempts.Keys == s.db.attempts.Keys;
    }
    assert CancelsOnMute(s.db, after.db, id, c.to == Muted);
  }

  lemma AnnouncesHolds(cfg: Config, s: System, after: System, id: Id, c: StateChange, links: map<Id, Id>)
    requires Links(cfg, s.db) && Exact(s) && Changed(s, after, id, c, links) && c.to == Resolved && !c.cancelAlerts && c.recoveryMaxAttempts > 0
    ensures Announces(s.db, after.db, id, c.recoveryMaxAttempts)
  {
    forall a | a in s.db.attempts && Owed(s.db.attempts[a], id) ensures Announced(s.db, after.db, a, c.recoveryMaxAttempts) {
      OpenHasNoRecovery(cfg, s, a);
      var r :| r in after.db.attempts && after.db.attempts[r].recoveryFor == Some(a);
      assert r !in s.db.attempts;
    }
    forall r | r in after.db.attempts && r !in s.db.attempts
      ensures exists a :: a in s.db.attempts && Owed(s.db.attempts[a], id) && IsRecoveryOf(after.db.attempts[r], a, s.db.attempts[a], c.recoveryMaxAttempts)
    {
      assert NewRecovery(s, after.db, id, c, links, r);
    }
  }

  // --- Claiming ------------------------------------------------------------------------------

  /** A row that waits in the queue and whose time has come; a recovery also
      waits for its own alert to be sent. */
  ghost predicate Due(db: Db, a: Id, now: Time)
    requires a in db.attempts
  {
    var x := db.attempts[a];
    && x.state in {Pending, Failed}
    && (x.nextRetryAt.Some? ==> x.nextRetryAt.value <= now)
    && (x.kind == Recovery ==> AlertIsSent(db, x))
  }

  ghost predicate AlertIsSent(db: Db, x: Attempt) {
    x.recoveryFor.Some? && x.recoveryFor.value in db.attempts && db.attempts[x.recoveryFor.value].state == Sent
  }

  /** A claim takes a row exactly when it is due; the row is then in progress, a
      worker holds it, and every other row is as before. */
  lemma ClaimedIffDue(cfg: Config, s: System, a: Id, now: Time)
    requires Links(cfg, s.db) && a in s.db.attempts
    ensures var after := Next(cfg, s, ClaimDue({a}, now)); var t := Token(s.past.batches, a);
      if Due(s.db, a, now) then
        && after.db.events == s.db.events && after.db.attempts == s.db.attempts[a := after.db.attempts[a]]
        && after.db.attempts[a].SameJob(s.db.attempts[a]) && after.db.attempts[a].attempts == s.db.attempts[a].attempts
        && after.db.attempts[a].state == Sending
        && t in after.flights && after.flights[t] == Flight(after.db.attempts[a], None)
      else
        after == s
  {
    assert LinkOk(cfg, s.db, a);
    assert Due(s.db, a, now) <==> Deliverable(s.db.attempts, a, now);
  }

  /** Each send that ends is logged once, delivered or not, and changes no row. */
  lemma TransmitOutcome(cfg: Config, s: System, t: Token, outcome: Outcome)
    requires t in s.flights && s.flights[t].outcome.None?
    ensures var after := Next(cfg, s, Transmit(t, outcome)); var n := |s.log|;
      && after.db == s.db && after.flights.Keys == s.flights.Keys && after.flights[t].outcome == Some(outcome)
      && |after.log| == n + 1 && after.log[..n] == s.log && after.log[n].id == t.id && after.log[n].kind == s.flights[t].row.kind
      && after.log[n].recoveryFor == s.flights[t].row.recoveryFor && (after.log[n].delivered <==> outcome == Delivered)
  {
  }

  // --- Recording a result -----------------------------------------------------------------------

  /** What a send that ended as `outcome` leaves in row `x` of a worker that had
      counted `tries` before. */
  ghost predicate Settles(x: Attempt, y: Attempt, outcome: Outcome, tries: nat, muted: bool, retryAt: Time) {
    && y.SameJob(x)
    && match outcome
       case Delivered => y.state == Sent && y.attempts == tries + 1 && y.nextRetryAt.None?
       case CutShort => if muted then y.state == Cancelled else y.state == Pending && y.attempts == tries
       case Refused =>
         && y.attempts == tries + 1
         && if muted then y.state == Cancelled
            else if tries + 1 < x.maxAttempts then y.state == Failed && y.nextRetryAt == Some(retryAt)
            else y.state == DeadLetter
  }

  /** An untried copy of the dead letter `a` on the fallback of its channel. */
  ghost predicate IsCopyOf(cfg: Config, y: Attempt, a: Id, x: Attempt)
    requires x.channel in cfg.fallbacks
  {
    && y.kind == Alert && y.Untried() && y.fallbackOf == Some(a) && y.recoveryFor.None?
    && y.eventId == x.eventId && y.maxAttempts == x.maxAttempts && y.channel == cfg.fallbacks[x.channel]
  }

  /** A result that reaches its row is stored; a dead letter without a copy gets
      one on the fallback of its channel; no other row changes. */
  lemma RecordOutcome(cfg: Config, s: System, t: Token, at: Time, retryAt: Time, copyId: Id, recoveryId: Id)
    requires Known(s) && Links(cfg, s.db) && Lands(s, t)
    requires copyId != recoveryId && copyId !in s.past.usedAttempts && recoveryId !in s.past.usedAttempts
    ensures var after := Next(cfg, s, Record(t, at, retryAt, copyId, recoveryId)); var x := s.db.attempts[t.id];
      && t !in after.flights && t.id in after.db.attempts && x.eventId in s.db.events && after.db.events == s.db.events
      && Settles(x, after.db.attempts[t.id], s.flights[t].outcome.value, s.flights[t].row.attempts,
                 x.kind == Alert && s.db.events[x.eventId].state == Muted, retryAt)
      && (forall a :: a in s.db.attempts && a != t.id ==> a in after.db.attempts && after.db.attempts[a] == s.db.attempts[a])
      && (after.db.attempts[t.id].state == DeadLetter && Redirectable(cfg, x) && !HasCopy(s.db.attempts, t.id) ==>
            copyId in after.db.attempts && IsCopyOf(cfg, after.db.attempts[copyId], t.id, x))
  {
    assert FlightOk(s, t) && LinkOk(cfg, s.db, t.id);
    var stored, x := StoredRow(s, t, at, retryAt), s.flights[t].row;
    var marked := s.db.(attempts := s.db.attempts[t.id := stored]);
    var copy := FallbackFor(cfg, x, ReportFor(x, s.flights[t].outcome.value, at, retryAt), copyId, recoveryId);
    if stored.state == DeadLetter && copy.Some? {
      SameLinks(s.db.attempts, t.id, stored, t.id, x.eventId);
      FallbackEffect(marked, t.id, copy.value);
    }
  }

  // --- Replay, the reaper, retention --------------------------------------------------------------

  /** Replay puts exactly a dead letter back, with all its tries, due at once. */
  lemma ReplayOutcome(cfg: Config, s: System, id: Id, at: Time)
    ensures var after := Next(cfg, s, ReplayOne(id, at)).db;
      if id in s.db.attempts && s.db.attempts[id].state == DeadLetter then
        && after.events == s.db.events && after.attempts == s.db.attempts[id := after.attempts[id]]
        && var y := after.attempts[id];
           y.SameJob(s.db.attempts[id]) && y.state == Pending && y.attempts == 0 && y.nextRetryAt == Some(at)
      else
        after == s.db
  {
  }

  /** The reaper takes back exactly the sends older than its limit: into the queue
      with their count, or cancelled when their incident is muted. */
  lemma ReapOutcome(cfg: Config, s: System, staleBefore: Time, at: Time, a: Id)
    requires Links(cfg, s.db) && a in s.db.attempts
    ensures var after := Next(cfg, s, Reap(staleBefore, at)).db;
      && after.events == s.db.events && after.attempts.Keys == s.db.attempts.Keys
      && var x, y := s.db.attempts[a], after.attempts[a];
         if x.state != Sending || x.updatedAt >= staleBefore then y == x
         else if x.kind == Alert && x.eventId in s.db.events && s.db.events[x.eventId].state == Muted then IsCancelled(x, y)
         else y.SameJob(x) && y.state == Pending && y.attempts == x.attempts && y.nextRetryAt == x.nextRetryAt
  {
  }

  /** How long an event has been of no interest: since its close, or, while it is
      open, since it was last reported. */
  ghost predicate IdleSince(e: Event, cutoff: Time) {
    if e.state == Resolved then e.resolvedAt.Some? && e.resolvedAt.value < cutoff else e.lastSeenAt < cutoff
  }

  /** Retention removes exactly the idle events of its batch, each with all its
      attempts, and changes no other row. */
  lemma RetentionOutcome(cfg: Config, s: System, batch: set<Id>, cutoff: Time)
    requires OpenOnce(s.db)
    ensures var after := Next(cfg, s, Expire(batch, cutoff)).db;
      && (forall e :: e in s.db.events ==> (e !in after.events <==> e in batch && IdleSince(s.db.events[e], cutoff)))
      && (forall e :: e in after.events ==> e in s.db.events && after.events[e] == s.db.events[e])
      && (forall a :: a in after.attempts ==> a in s.db.attempts && after.attempts[a] == s.db.attempts[a])
      && (forall a :: a in s.db.attempts && s.db.attempts[a].eventId in s.db.events ==>
            (a in after.attempts <==> s.db.attempts[a].eventId in after.events))
  {
  }

  // --- What the past records ----------------------------------------------------------------------

  /** An attempt is disturbed only by the reaper taking back its stale send, by an
      operator's replay, or by a worker handing it back at shutdown. */
  lemma DisturbedBy(cfg: Config, s: System, step: Step, a: Id)
    requires a !in s.past.disturbed && a in Next(cfg, s, step).past.disturbed
    ensures match step
      case Reap(staleBefore, _) => a in s.db.attempts && s.db.attempts[a].state == Sending && s.db.attempts[a].updatedAt < staleBefore
      case ReplayOne(id, _) => a == id && a in s.db.attempts && s.db.attempts[a].state == DeadLetter
      case Record(t, _, _, _, _) => a == t.id && t in s.flights && s.flights[t].outcome == Some(CutShort)
      case _ => false
  {
  }

  // --- A repeated report -----------------------------------------------------------------------------

  /** Event `id` has an alert on channel `c`, whatever its state. */
  ghost predicate HasAlertOn(attempts: map<Id, Attempt>, id: Id, c: Channel) {
    exists a :: a in attempts && attempts[a].eventId == id && attempts[a].kind == Alert && attempts[a].channel == c
  }

  /** The report alerts the channels offered that have no alert yet, exactly when
      the event is not muted and the severity is graver than the one stored. */
  ghost predicate AlertsOnRise(before: Db, after: Db, id: Id, severity: Severity, newIds: map<Id, Channel>)
    requires id in before.events
  {
    && (forall a :: a in before.attempts ==> a in after.attempts && after.attempts[a] == before.attempts[a])
    && (forall a :: a in after.attempts && a !in before.attempts <==>
          a in newIds && before.events[id].state != Muted && Graver(severity, before.events[id].severity) && !HasAlertOn(before.attempts, id, newIds[a]))
    && (forall a :: a in after.attempts && a !in before.attempts ==>
          after.attempts[a].IsDirect() && after.attempts[a].eventId == id && after.attempts[a].channel == newIds[a])
  }

  /** A repeated report of an open event takes over its severity and time, keeps its
      state, and alerts on a rise; of any other event it changes nothing. */
  lemma RefreshOutcome(cfg: Config, s: System, id: Id, severity: Severity, at: Time, newIds: map<Id, Channel>, maxAttempts: nat)
    requires Known(s) && newIds.Keys !! s.past.usedAttempts && newIds.Values <= cfg.channels && maxAttempts > 0
    ensures var after := Next(cfg, s, Refresh(id, severity, at, newIds, maxAttempts)).db;
      if id in s.db.events && s.db.events[id].state != Resolved then
        && after.events == s.db.events[id := s.db.events[id].(severity := severity, lastSeenAt := at, updatedAt := at)]
        && AlertsOnRise(s.db, after, id, severity, newIds)
      else
        after == s.db
  {
    if id in s.db.events && s.db.events[id].state != Resolved {
      RefreshRows(s.db, id, severity, at, newIds, maxAttempts);
    }
  }

  lemma RefreshRows(db: Db, id: Id, severity: Severity, at: Time, newIds: map<Id, Channel>, maxAttempts: nat)
    requires newIds.Keys !! db.attempts.Keys && id in db.events && db.events[id].state != Resolved
    ensures var r := RefreshOpenEvent(db, id, severity, at, AlertRows(id, newIds, maxAttempts, at));
      && r.Ok? && r.value.events == db.events[id := db.events[id].(severity := severity, lastSeenAt := at, updatedAt := at)]
      && AlertsOnRise(db, r.value, id, severity, newIds)
  {
    RankOrders(severity, db.events[id].severity);
    RiseRows(db, RefreshOpenEvent(db, id, severity, at, AlertRows(id, newIds, maxAttempts, at)).value, id, severity, newIds, maxAttempts, at);
  }

  lemma RiseRows(before: Db, after: Db, id: Id, severity: Severity, newIds: map<Id, Channel>, maxAttempts: nat, at: Time)
    requires id in before.events && newIds.Keys !! before.attempts.Keys
    requires after.attempts ==
      if before.events[id].state != Muted && Graver(severity, before.events[id].severity)
      then before.attempts + MissingAlerts(before.attempts, id, AlertRows(id, newIds, maxAttempts, at)) else before.attempts
    ensures AlertsOnRise(before, after, id, severity, newIds)
  {
    MissingRows(before.attempts, id, newIds, maxAttempts, at);
  }

  lemma MissingRows(attempts: map<Id, Attempt>, id: Id, newIds: map<Id, Channel>, maxAttempts: nat, at: Time)
    ensures var rows := MissingAlerts(attempts, id, AlertRows(id, newIds, maxAttempts, at));
      && (forall a :: a in rows <==> a in newIds && !HasAlertOn(attempts, id, newIds[a]))
      && (forall a :: a in rows ==> rows[a].IsDirect() && rows[a].eventId == id && rows[a].channel == newIds[a])
  {
    forall a | a in newIds ensures HasAlertOn(attempts, id, newIds[a]) <==> newIds[a] in AlertedChannels(attempts, id) {
      AlertedIff(attempts, id, newIds[a]);
    }
  }

  lemma AlertedIff(attempts: map<Id, Attempt>, id: Id, c: Channel)
    ensures HasAlertOn(attempts, id, c) <==> c in AlertedChannels(attempts, id)
  {
    if HasAlertOn(attempts, id, c) {
      var b :| b in attempts && attempts[b].eventId == id && attempts[b].kind == Alert && attempts[b].channel == c;
      assert attempts[b].channel in AlertedChannels(attempts, id);
    }
  }

  // --- A new event --------------------------------------------------------------------------------

  /** A committed report leaves its new alerts due at once, whatever the time. */
  lemma NewAlertsAreDue(cfg: Config, s: System, step: Step, a: Id, now: Time)
    requires Known(s) && (step.Create? || step.Refresh?)
    requires a in Next(cfg, s, step).db.attempts && a !in s.db.attempts
    ensures var after := Next(cfg, s, step).db;
      Due(after, a, now) && after.attempts[a].IsDirect() && after.attempts[a].Untried() && after.attempts[a].maxAttempts == step.maxAttempts
  {
  }
}
