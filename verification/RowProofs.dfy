/** Every step keeps the accounts of each attempt, the quiet of a muted event,
    and one open event per key. */
module RowProofs {
  import opened Domain
  import opened Tables
  import opened Protocol
  import opened Invariants
  import opened Effects

  // --- Accounts ------------------------------------------------------------------------

  lemma RefreshKeepsAccounts(cfg: Config, s: System, id: Id, severity: Severity, at: Time, newIds: map<Id, Channel>, maxAttempts: nat)
    requires Accounts(s.db)
    ensures Accounts(DoRefresh(cfg, s, id, severity, at, newIds, maxAttempts).db)
  {
  }

  lemma ChangeKeepsAccounts(s: System, id: Id, from: EventState, req: Request, notifier: nat, at: Time, links: map<Id, Id>)
    requires Accounts(s.db) && Known(s)
    ensures Accounts(DoChange(s, id, from, req, notifier, at, links).db)
  {
    ChangeEffect(s, id, from, req, notifier, at, links);
    var after := DoChange(s, id, from, req, notifier, at, links);
    if after != s {
      var c := Committed(s, id, from, req, notifier, at);
      forall a | a in after.db.attempts ensures AccountOk(after.db.attempts[a]) {
        if a in s.db.attempts { assert AccountOk(s.db.attempts[a]); } else { assert NewRecovery(s, after.db, id, c, links, a); }
      }
    }
  }

  /** A stale writer holds a copy of the row with tries to spare, so what it
      writes over a later claim is still a consistent account. */
  lemma StoredAccountOk(cfg: Config, s: System, t: Token, at: Time, retryAt: Time)
    requires Accounts(s.db) && Known(s) && Lands(s, t)
    ensures AccountOk(StoredRow(s, t, at, retryAt))
  {
  }

  lemma RecordKeepsAccounts(cfg: Config, s: System, t: Token, at: Time, retryAt: Time, copyId: Id, recoveryId: Id)
    requires Links(cfg, s.db) && Accounts(s.db) && Known(s)
    ensures Accounts(DoRecord(cfg, s, t, at, retryAt, copyId, recoveryId).db)
  {
    RecordEffect(cfg, s, t, at, retryAt, copyId, recoveryId);
    var after := DoRecord(cfg, s, t, at, retryAt, copyId, recoveryId).db;
    if after != s.db {
      StoredAccountOk(cfg, s, t, at, retryAt);
      assert FlightOk(s, t);
      forall a | a in after.attempts ensures AccountOk(after.attempts[a]) {
        if a in s.db.attempts { assert AccountOk(s.db.attempts[a]); }
      }
    }
  }

  lemma ReapKeepsAccounts(db: Db, staleBefore: Time, at: Time)
    requires Accounts(db)
    ensures Accounts(RequeueStuckSending(db, staleBefore, at))
  {
  }

  lemma ExpireKeepsAccounts(db: Db, batch: set<Id>, cutoff: Time)
    requires Accounts(db)
    ensures Accounts(DeleteEvents(db, batch, cutoff))
  {
  }

  lemma KeepsAccounts(cfg: Config, s: System, step: Step)
    requires Links(cfg, s.db) && Known(s) && Accounts(s.db)
    ensures Accounts(Next(cfg, s, step).db)
  {
    match step
    case Create(id, e, newIds, maxAttempts) =>
    case Refresh(id, severity, at, newIds, maxAttempts) => RefreshKeepsAccounts(cfg, s, id, severity, at, newIds, maxAttempts);
    case Change(id, from, req, notifier, at, links) => ChangeKeepsAccounts(s, id, from, req, notifier, at, links);
    case ClaimDue(taken, now) =>
    case Transmit(_, _) =>
    case Record(t, at, retryAt, copyId, recoveryId) => RecordKeepsAccounts(cfg, s, t, at, retryAt, copyId, recoveryId);
    case Lose(_) =>
    case ReplayOne(id, at) =>
    case Reap(staleBefore, at) => ReapKeepsAccounts(s.db, staleBefore, at);
    case Expire(batch, cutoff) => ExpireKeepsAccounts(s.db, batch, cutoff);
  }

  // --- Quiet ---------------------------------------------------------------------------

  lemma RefreshKeepsQuiet(cfg: Config, s: System, id: Id, severity: Severity, at: Time, newIds: map<Id, Channel>, maxAttempts: nat)
    requires Quiet(s.db, s.past.replayed)
    ensures Quiet(DoRefresh(cfg, s, id, severity, at, newIds, maxAttempts).db, s.past.replayed)
  {
  }

  /** Muting cancels whatever is queued, so nothing is left to be noisy; any
      other change only ends a mute. */
  lemma ChangeKeepsQuiet(s: System, id: Id, from: EventState, req: Request, notifier: nat, at: Time, links: map<Id, Id>)
    requires Quiet(s.db, s.past.replayed)
    ensures var after := DoChange(s, id, from, req, notifier, at, links); Quiet(after.db, after.past.replayed)
  {
  }

  lemma RecordKeepsQuiet(cfg: Config, s: System, t: Token, at: Time, retryAt: Time, copyId: Id, recoveryId: Id)
    requires Quiet(s.db, s.past.replayed) && Known(s)
    ensures Quiet(DoRecord(cfg, s, t, at, retryAt, copyId, recoveryId).db, s.past.replayed)
  {
  }

  lemma ReapKeepsQuiet(db: Db, staleBefore: Time, at: Time, replayed: set<Id>)
    requires Quiet(db, replayed)
    ensures Quiet(RequeueStuckSending(db, staleBefore, at), replayed)
  {
  }

  lemma KeepsQuiet(cfg: Config, s: System, step: Step)
    requires Known(s) && Quiet(s.db, s.past.replayed)
    ensures var after := Next(cfg, s, step); Quiet(after.db, after.past.replayed)
  {
    match step
    case Create(id, e, newIds, maxAttempts) =>
    case Refresh(id, severity, at, newIds, maxAttempts) => RefreshKeepsQuiet(cfg, s, id, severity, at, newIds, maxAttempts);
    case Change(id, from, req, notifier, at, links) => ChangeKeepsQuiet(s, id, from, req, notifier, at, links);
    case ClaimDue(taken, now) =>
    case Transmit(_, _) =>
    case Record(t, at, retryAt, copyId, recoveryId) => RecordKeepsQuiet(cfg, s, t, at, retryAt, copyId, recoveryId);
    case Lose(_) =>
    case ReplayOne(id, at) =>
    case Reap(staleBefore, at) => ReapKeepsQuiet(s.db, staleBefore, at, s.past.replayed);
    case Expire(batch, cutoff) =>
  }

  // --- Open events -------------------------------------------------------------------------

  /** Replacing one event keeps one open event per key, if the new row is not
      open where the old one was closed. */
  lemma UpdateKeepsOpenOnce(db: Db, after: Db, id: Id, e: Event)
    requires OpenOnce(db) && id in db.events && after.events == db.events[id := e]
    requires e.dedupeKey == db.events[id].dedupeKey && (db.events[id].state == Resolved ==> e.state == Resolved)
    requires e.state == Resolved <==> e.resolvedAt.Some?
    ensures OpenOnce(after)
  {
  }

  lemma CreateKeepsOpenOnce(cfg: Config, s: System, id: Id, e: Event, newIds: map<Id, Channel>, maxAttempts: nat)
    requires OpenOnce(s.db)
    ensures OpenOnce(DoCreate(cfg, s, id, e, newIds, maxAttempts).db)
  {
  }

  lemma RefreshKeepsOpenOnce(cfg: Config, s: System, id: Id, severity: Severity, at: Time, newIds: map<Id, Channel>, maxAttempts: nat)
    requires OpenOnce(s.db)
    ensures OpenOnce(DoRefresh(cfg, s, id, severity, at, newIds, maxAttempts).db)
  {
    var after := DoRefresh(cfg, s, id, severity, at, newIds, maxAttempts);
    if after != s {
      UpdateKeepsOpenOnce(s.db, after.db, id, Refreshed(s.db.events[id], severity, at));
    }
  }

  lemma ChangeKeepsOpenOnce(s: System, id: Id, from: EventState, req: Request, notifier: nat, at: Time, links: map<Id, Id>)
    requires OpenOnce(s.db)
    ensures OpenOnce(DoChange(s, id, from, req, notifier, at, links).db)
  {
  }

  lemma KeepsOpenOnce(cfg: Config, s: System, step: Step)
    requires Known(s) && OpenOnce(s.db)
    ensures OpenOnce(Next(cfg, s, step).db)
  {
    match step
    case Create(id, e, newIds, maxAttempts) => CreateKeepsOpenOnce(cfg, s, id, e, newIds, maxAttempts);
    case Refresh(id, severity, at, newIds, maxAttempts) => RefreshKeepsOpenOnce(cfg, s, id, severity, at, newIds, maxAttempts);
    case Change(id, from, req, notifier, at, links) => ChangeKeepsOpenOnce(s, id, from, req, notifier, at, links);
    case ClaimDue(taken, now) =>
    case Transmit(_, _) =>
    case Record(t, at, retryAt, copyId, recoveryId) => RecordEffect(cfg, s, t, at, retryAt, copyId, recoveryId);
    case Lose(_) =>
    case ReplayOne(id, at) =>
    case Reap(staleBefore, at) =>
    case Expire(batch, cutoff) =>
  }
}
