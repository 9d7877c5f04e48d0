/** Every step keeps recoveries exact: one for each alert of an event closed
    with notices, none anywhere else. */
module RecoveryProofs {
  import opened Domain
  import opened Tables
  import opened Protocol
  import opened Invariants
  import opened Effects
  import opened LinkProofs

  /** Closed events, and what they were closed with, are the same. */
  ghost predicate SameCloses(s: System, after: System) {
    && after.past.closedWith == s.past.closedWith
    && after.db.events.Keys == s.db.events.Keys
    && forall e :: e in s.db.events ==> (after.db.events[e].state == Resolved <==> s.db.events[e].state == Resolved)
  }

  /** Progress of attempts that leaves the alerts of closed events alive. */
  lemma ProgressKeepsExact(s: System, after: System)
    requires Exact(s) && SameCloses(s, after) && SameShape(s.db.attempts, after.db.attempts)
    requires forall a :: a in s.db.attempts && Notifies(s, s.db.attempts[a].eventId) ==>
      (after.db.attempts[a].state == Cancelled <==> s.db.attempts[a].state == Cancelled)
    ensures Exact(after)
  {
  }

  /** The rows of `m` are in `n`, and whatever else `n` holds follows no alert. */
  ghost predicate AddsAlerts(m: map<Id, Attempt>, n: map<Id, Attempt>) {
    && (forall a :: a in m ==> a in n && n[a] == m[a])
    && (forall a :: a in n && a !in m ==> n[a].kind == Alert && n[a].recoveryFor.None?)
  }

  /** New alerts of events that do not notify. */
  lemma NewAlertsKeepExact(cfg: Config, s: System, after: System)
    requires Exact(s) && Links(cfg, s.db) && AddsAlerts(s.db.attempts, after.db.attempts)
    requires forall a :: a in after.db.attempts && a !in s.db.attempts ==> !Notifies(after, after.db.attempts[a].eventId)
    requires forall e :: e in s.db.events ==> (Notifies(after, e) <==> Notifies(s, e))
    requires forall e :: e in after.db.events ==> (e in after.past.closedWith <==> after.db.events[e].state == Resolved)
    ensures Exact(after)
  {
  }

  lemma CreateKeepsExact(cfg: Config, s: System, id: Id, e: Event, newIds: map<Id, Channel>, maxAttempts: nat)
    requires Exact(s) && Links(cfg, s.db) && Known(s)
    ensures Exact(DoCreate(cfg, s, id, e, newIds, maxAttempts))
  {
    var after := DoCreate(cfg, s, id, e, newIds, maxAttempts);
    if after != s { CreatedKeepsExact(cfg, s, after, id, e, AlertRows(id, newIds, maxAttempts, e.createdAt)); }
  }

  lemma CreatedKeepsExact(cfg: Config, s: System, after: System, id: Id, e: Event, rows: map<Id, Attempt>)
    requires Exact(s) && Links(cfg, s.db) && id !in s.db.events && id !in s.past.closedWith && e.state != Resolved
    requires after.db == Db(s.db.events[id := e], s.db.attempts + rows) && after.past.closedWith == s.past.closedWith
    requires rows.Keys !! s.db.attempts.Keys
    requires forall a :: a in rows ==> rows[a].kind == Alert && rows[a].recoveryFor.None? && rows[a].eventId == id
    ensures Exact(after)
  {
    NewAlertsKeepExact(cfg, s, after);
  }

  lemma RefreshKeepsExact(cfg: Config, s: System, id: Id, severity: Severity, at: Time, newIds: map<Id, Channel>, maxAttempts: nat)
    requires Exact(s) && Links(cfg, s.db) && Known(s)
    ensures Exact(DoRefresh(cfg, s, id, severity, at, newIds, maxAttempts))
  {
    var after := DoRefresh(cfg, s, id, severity, at, newIds, maxAttempts);
    RefreshEffect(cfg, s, id, severity, at, newIds, maxAttempts);
    if after != s { RefreshedKeepsExact(cfg, s, after, id, severity, at, newIds, maxAttempts); }
  }

  lemma RefreshedKeepsExact(cfg: Config, s: System, after: System, id: Id, severity: Severity, at: Time, newIds: map<Id, Channel>, maxAttempts: nat)
    requires Exact(s) && Links(cfg, s.db) && id in s.db.events && s.db.events[id].state != Resolved
    requires after.db.events == s.db.events[id := Refreshed(s.db.events[id], severity, at)] && after.past.closedWith == s.past.closedWith
    requires forall a :: a in s.db.attempts ==> a in after.db.attempts && after.db.attempts[a] == s.db.attempts[a]
    requires forall a :: a in after.db.attempts && a !in s.db.attempts ==> NewAlert(s, id, after.db.attempts[a], newIds, maxAttempts, at, a)
    ensures Exact(after)
  {
    assert forall e :: e in s.db.events ==> (Notifies(after, e) <==> Notifies(s, e));
    NewAlertsKeepExact(cfg, s, after);
  }

  /** Closing with notices gives each alert left alive its recovery; any other
      change of an open event gives none. */
  lemma ChangedKeepsExact(cfg: Config, s: System, after: System, id: Id, c: StateChange, links: map<Id, Id>)
    requires Exact(s) && Links(cfg, s.db) && Changed(s, after, id, c, links)
    ensures Exact(after)
  {
    forall a | a in s.db.attempts ensures RecoveryRowOk(after, a) {
      assert RecoveryRowOk(s, a) && LinkOk(cfg, s.db, a);
      if s.db.attempts[a].eventId == id {
        OpenHasNoRecovery(cfg, s, a);
        ChangedRowExact(cfg, s, after, id, c, links, a);
      } else {
        OtherRowExact(cfg, s, after, id, c, links, a);
      }
    }
    forall a | a in after.db.attempts && a !in s.db.attempts ensures RecoveryRowOk(after, a) {
      assert NewRecovery(s, after.db, id, c, links, a);
    }
  }

  lemma ChangeKeepsExact(cfg: Config, s: System, id: Id, from: EventState, req: Request, notifier: nat, at: Time, links: map<Id, Id>)
    requires Exact(s) && Links(cfg, s.db) && Known(s)
    ensures Exact(DoChange(s, id, from, req, notifier, at, links))
  {
    var after := DoChange(s, id, from, req, notifier, at, links);
    ChangeEffect(s, id, from, req, notifier, at, links);
    if after != s {
      ChangedKeepsExact(cfg, s, after, id, Committed(s, id, from, req, notifier, at), links);
    }
  }

  lemma OtherRowExact(cfg: Config, s: System, after: System, id: Id, c: StateChange, links: map<Id, Id>, a: Id)
    requires Links(cfg, s.db) && a in s.db.attempts && s.db.attempts[a].eventId != id
    requires OnlyCancels(s, after.db, id, c)
    requires forall r :: r in after.db.attempts && r !in s.db.attempts ==> NewRecovery(s, after.db, id, c, links, r)
    ensures HasRecovery(after.db.attempts, a) <==> HasRecovery(s.db.attempts, a)
  {
  }

  lemma ChangedRowExact(cfg: Config, s: System, after: System, id: Id, c: StateChange, links: map<Id, Id>, a: Id)
    requires Links(cfg, s.db) && a in s.db.attempts && s.db.attempts[a].eventId == id && !HasRecovery(s.db.attempts, a)
    requires OnlyCancels(s, after.db, id, c)
    requires forall r :: r in after.db.attempts && r !in s.db.attempts ==> NewRecovery(s, after.db, id, c, links, r)
    ensures HasRecovery(after.db.attempts, a) ==> Owed(after.db.attempts[a], id)
  {
  }

  /** A copy queued after the close gets its recovery exactly when the event
      notifies: its source, alive at the close, already has one. */
  lemma RecordKeepsExact(cfg: Config, s: System, t: Token, at: Time, retryAt: Time, copyId: Id, recoveryId: Id)
    requires Exact(s) && Links(cfg, s.db) && Known(s)
    ensures Exact(DoRecord(cfg, s, t, at, retryAt, copyId, recoveryId))
  {
    var after := DoRecord(cfg, s, t, at, retryAt, copyId, recoveryId);
    RecordEffect(cfg, s, t, at, retryAt, copyId, recoveryId);
    if after.db != s.db {
      forall a | a in after.db.attempts ensures RecoveryRowOk(after, a) {
        if a in s.db.attempts {
          OldRowExact(cfg, s, after, t, at, retryAt, copyId, recoveryId, a);
        } else {
          NewRowExact(cfg, s, after, t, at, retryAt, copyId, recoveryId, a);
        }
      }
    } else {
      ProgressKeepsExact(s, after);
    }
  }

  lemma OldRowExact(cfg: Config, s: System, after: System, t: Token, at: Time, retryAt: Time, copyId: Id, recoveryId: Id, a: Id)
    requires Exact(s) && Links(cfg, s.db) && Known(s) && Lands(s, t) && a in s.db.attempts
    requires copyId !in s.db.attempts && recoveryId !in s.db.attempts && copyId != recoveryId
    requires forall x :: x in after.db.attempts ==> x in s.db.attempts || x == copyId || x == recoveryId
    requires OnlyMarks(s, after.db, t, at, retryAt) && CopyAdded(cfg, s, after.db, t, at, retryAt, copyId, recoveryId)
    requires after.db.events == s.db.events && after.past.closedWith == s.past.closedWith
    ensures RecoveryRowOk(after, a)
  {
    assert FlightOk(s, t) && RecoveryRowOk(s, a) && LinkOk(cfg, s.db, a);
    RecordedRowExact(cfg, s, after.db, t, at, retryAt, copyId, recoveryId, a);
  }

  lemma NewRowExact(cfg: Config, s: System, after: System, t: Token, at: Time, retryAt: Time, copyId: Id, recoveryId: Id, a: Id)
    requires Exact(s) && Links(cfg, s.db) && Known(s) && Lands(s, t) && a in after.db.attempts && a !in s.db.attempts
    requires copyId !in s.db.attempts && recoveryId !in s.db.attempts && copyId != recoveryId
    requires forall x :: x in after.db.attempts ==> x in s.db.attempts || x == copyId || x == recoveryId
    requires OnlyMarks(s, after.db, t, at, retryAt) && CopyAdded(cfg, s, after.db, t, at, retryAt, copyId, recoveryId)
    requires after.db.events == s.db.events && after.past.closedWith == s.past.closedWith
    ensures RecoveryRowOk(after, a)
  {
  }

  lemma RecordedRowExact(cfg: Config, s: System, after: Db, t: Token, at: Time, retryAt: Time, copyId: Id, recoveryId: Id, a: Id)
    requires Links(cfg, s.db) && Lands(s, t) && a in s.db.attempts && copyId !in s.db.attempts && copyId != recoveryId
    requires forall x :: x in after.attempts ==> x in s.db.attempts || x == copyId || x == recoveryId
    requires recoveryId !in s.db.attempts
    requires OnlyMarks(s, after, t, at, retryAt) && CopyAdded(cfg, s, after, t, at, retryAt, copyId, recoveryId)
    ensures HasRecovery(after.attempts, a) <==> HasRecovery(s.db.attempts, a)
  {
  }

  lemma ClaimKeepsExact(s: System, taken: set<Id>, now: Time)
    requires Exact(s)
    ensures Exact(DoClaim(s, taken, now))
  {
    ProgressKeepsExact(s, DoClaim(s, taken, now));
  }

  lemma ReplayKeepsExact(s: System, id: Id, at: Time)
    requires Exact(s)
    ensures Exact(DoReplay(s, id, at))
  {
    ProgressKeepsExact(s, DoReplay(s, id, at));
  }

  lemma ReapKeepsExact(cfg: Config, s: System, staleBefore: Time, at: Time)
    requires Exact(s)
    ensures Exact(Next(cfg, s, Reap(staleBefore, at)))
  {
    var after := Next(cfg, s, Reap(staleBefore, at));
    forall a | a in s.db.attempts ensures after.db.attempts[a].SameJob(s.db.attempts[a]) {}
    ProgressKeepsExact(s, after);
  }

  lemma ExpireKeepsExact(cfg: Config, s: System, batch: set<Id>, cutoff: Time)
    requires Exact(s) && Links(cfg, s.db)
    ensures Exact(Next(cfg, s, Expire(batch, cutoff)))
  {
    var after := Next(cfg, s, Expire(batch, cutoff));
    forall a | a in after.db.attempts ensures RecoveryRowOk(after, a) {
      assert RecoveryRowOk(s, a) && LinkOk(cfg, s.db, a);
      KeptWithRecovery(cfg, s.db, batch, cutoff, a);
    }
  }

  /** Retention takes an alert together with its recovery. */
  lemma KeptWithRecovery(cfg: Config, db: Db, batch: set<Id>, cutoff: Time, a: Id)
    requires Links(cfg, db) && a in DeleteEvents(db, batch, cutoff).attempts
    ensures HasRecovery(DeleteEvents(db, batch, cutoff).attempts, a) <==> HasRecovery(db.attempts, a)
  {
    var m, n := db.attempts, DeleteEvents(db, batch, cutoff).attempts;
    if HasRecovery(m, a) {
      var r :| r in m && m[r].recoveryFor == Some(a);
      assert LinkOk(cfg, db, r);
      assert n[r].recoveryFor == Some(a);
    }
    if HasRecovery(n, a) { var r :| r in n && n[r].recoveryFor == Some(a); assert m[r].recoveryFor == Some(a); }
  }

  lemma KeepsExact(cfg: Config, s: System, step: Step)
    requires Links(cfg, s.db) && Known(s) && Exact(s)
    ensures Exact(Next(cfg, s, step))
  {
    match step
    case Create(id, e, newIds, maxAttempts) => CreateKeepsExact(cfg, s, id, e, newIds, maxAttempts);
    case Refresh(id, severity, at, newIds, maxAttempts) => RefreshKeepsExact(cfg, s, id, severity, at, newIds, maxAttempts);
    case Change(id, from, req, notifier, at, links) => ChangeKeepsExact(cfg, s, id, from, req, notifier, at, links);
    case ClaimDue(taken, now) => ClaimKeepsExact(s, taken, now);
    case Transmit(t, outcome) => ProgressKeepsExact(s, DoTransmit(s, t, outcome));
    case Record(t, at, retryAt, copyId, recoveryId) => RecordKeepsExact(cfg, s, t, at, retryAt, copyId, recoveryId);
    case Lose(t) => ProgressKeepsExact(s, Next(cfg, s, step));
    case ReplayOne(id, at) => ReplayKeepsExact(s, id, at);
    case Reap(staleBefore, at) => ReapKeepsExact(cfg, s, staleBefore, at);
    case Expire(batch, cutoff) => ExpireKeepsExact(cfg, s, batch, cutoff);
  }
}
