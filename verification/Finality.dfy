/** What no later step changes: sent and cancelled attempts, closed events, and
    who reported an event. */
module Finality {
  import opened Domain
  import opened Tables
  import opened Protocol
  import opened Invariants
  import opened Effects

  /** The columns of an event that no statement updates. */
  ghost predicate SameOrigin(x: Event, y: Event) {
    x.typ == y.typ && x.source == y.source && x.category == y.category && x.dedupeKey == y.dedupeKey && x.createdAt == y.createdAt
  }

  /** An attempt seen before, if it is still there, is the same job and has not
      left `Sent` or `Cancelled`. */
  ghost predicate AttemptsSettle(s: System, later: System) {
    forall a :: a in s.past.usedAttempts && a in later.db.attempts ==>
      a in s.db.attempts && later.db.attempts[a].SameJob(s.db.attempts[a])
      && (s.db.attempts[a].state in {Sent, Cancelled} ==> later.db.attempts[a].state == s.db.attempts[a].state)
  }

  /** An event seen before, if it is still there, has the same origin, and is
      unchanged if it was closed. */
  ghost predicate EventsSettle(s: System, later: System) {
    forall e :: e in s.past.usedEvents && e in later.db.events ==>
      e in s.db.events && SameOrigin(s.db.events[e], later.db.events[e])
      && (s.db.events[e].state == Resolved ==> later.db.events[e] == s.db.events[e])
  }

  ghost predicate ClosesSettle(s: System, later: System) {
    forall e :: e in s.past.closedWith ==> e in later.past.closedWith && later.past.closedWith[e] == s.past.closedWith[e]
  }

  ghost predicate Settled(s: System, later: System) {
    && AttemptsSettle(s, later) && EventsSettle(s, later) && ClosesSettle(s, later)
    && s.past.usedAttempts <= later.past.usedAttempts && s.past.usedEvents <= later.past.usedEvents
  }

  lemma CreateSettles(cfg: Config, s: System, id: Id, e: Event, newIds: map<Id, Channel>, maxAttempts: nat)
    requires Known(s)
    ensures Settled(s, DoCreate(cfg, s, id, e, newIds, maxAttempts))
  {
  }

  lemma RefreshSettles(cfg: Config, s: System, id: Id, severity: Severity, at: Time, newIds: map<Id, Channel>, maxAttempts: nat)
    requires Known(s)
    ensures Settled(s, DoRefresh(cfg, s, id, severity, at, newIds, maxAttempts))
  {
    RefreshEffect(cfg, s, id, severity, at, newIds, maxAttempts);
  }

  lemma ChangedSettles(s: System, after: System, id: Id, c: StateChange, links: map<Id, Id>)
    requires Known(s) && Exact(s) && Changed(s, after, id, c, links)
    ensures Settled(s, after)
  {
  }

  lemma ChangeSettles(s: System, id: Id, from: EventState, req: Request, notifier: nat, at: Time, links: map<Id, Id>)
    requires Known(s) && Exact(s)
    ensures Settled(s, DoChange(s, id, from, req, notifier, at, links))
  {
    var after := DoChange(s, id, from, req, notifier, at, links);
    ChangeEffect(s, id, from, req, notifier, at, links);
    if after != s {
      ChangedSettles(s, after, id, Committed(s, id, from, req, notifier, at), links);
    }
  }

  lemma ClaimSettles(s: System, taken: set<Id>, now: Time)
    requires Known(s)
    ensures Settled(s, DoClaim(s, taken, now))
  {
  }

  lemma RecordSettles(cfg: Config, s: System, t: Token, at: Time, retryAt: Time, copyId: Id, recoveryId: Id)
    requires Known(s)
    ensures Settled(s, DoRecord(cfg, s, t, at, retryAt, copyId, recoveryId))
  {
    RecordEffect(cfg, s, t, at, retryAt, copyId, recoveryId);
  }

  lemma ReapSettles(cfg: Config, s: System, staleBefore: Time, at: Time)
    requires Known(s)
    ensures Settled(s, Next(cfg, s, Reap(staleBefore, at)))
  {
  }

  lemma ReplaySettles(s: System, id: Id, at: Time)
    requires Known(s)
    ensures Settled(s, DoReplay(s, id, at))
  {
  }

  lemma StepSettles(cfg: Config, s: System, step: Step)
    requires Known(s) && Exact(s)
    ensures Settled(s, Next(cfg, s, step))
  {
    match step
    case Create(id, e, newIds, maxAttempts) => CreateSettles(cfg, s, id, e, newIds, maxAttempts);
    case Refresh(id, severity, at, newIds, maxAttempts) => RefreshSettles(cfg, s, id, severity, at, newIds, maxAttempts);
    case Change(id, from, req, notifier, at, links) => ChangeSettles(s, id, from, req, notifier, at, links);
    case ClaimDue(taken, now) => ClaimSettles(s, taken, now);
    case Transmit(_, _) =>
    case Record(t, at, retryAt, copyId, recoveryId) => RecordSettles(cfg, s, t, at, retryAt, copyId, recoveryId);
    case Lose(_) =>
    case ReplayOne(id, at) => ReplaySettles(s, id, at);
    case Reap(staleBefore, at) => ReapSettles(cfg, s, staleBefore, at);
    case Expire(batch, cutoff) =>
  }

  lemma SettledTransitive(s: System, mid: System, later: System)
    requires Known(s) && Known(mid)
    requires Settled(s, mid) && Settled(mid, later)
    ensures Settled(s, later)
  {
  }
}
