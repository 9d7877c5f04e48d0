/** What the two largest steps do to the tables, row by row. */
module Effects {
  import opened Domain
  import opened Tables
  import opened Protocol
  import opened Invariants

  /** What recording an outcome stores in the claimed row. */
  function StoredRow(s: System, t: Token, at: Time, retryAt: Time): Attempt
    requires t in s.flights && s.flights[t].outcome.Some? && t.id in s.db.attempts
  {
    Recorded(s.db, s.db.attempts[t.id], ReportFor(s.flights[t].row, s.flights[t].outcome.value, at, retryAt))
  }

  /** The outcome reaches a row that is still `Sending`. */
  predicate Lands(s: System, t: Token) {
    t in s.flights && s.flights[t].outcome.Some? && t.id in s.db.attempts && s.db.attempts[t.id].state == Sending
  }

  /** The copy and its recovery, if recording the outcome added them. */
  ghost predicate CopyAdded(cfg: Config, s: System, after: Db, t: Token, at: Time, retryAt: Time, copyId: Id, recoveryId: Id)
    requires Lands(s, t)
  {
    var x := s.flights[t].row;
    if copyId in after.attempts then
      && StoredRow(s, t, at, retryAt).state == DeadLetter
      && x.IsDirect() && x.channel in cfg.fallbacks && x.eventId in s.db.events
      && !HasCopy(s.db.attempts, t.id)
      && after.attempts[copyId] == AlertRow(x.eventId, cfg.fallbacks[x.channel], x.maxAttempts, at).(fallbackOf := Some(t.id))
      && (recoveryId in after.attempts <==>
            s.db.events[x.eventId].state == Resolved && HasRecoveries(s.db.attempts, x.eventId))
      && (recoveryId in after.attempts ==>
            after.attempts[recoveryId] == RecoveryOf(copyId, after.attempts[copyId], x.maxAttempts, at))
    else
      recoveryId !in after.attempts
  }

  /** The claimed row holds the result, and every other row is as before. */
  ghost predicate OnlyMarks(s: System, after: Db, t: Token, at: Time, retryAt: Time)
    requires Lands(s, t)
  {
    forall a :: a in s.db.attempts ==>
      a in after.attempts && after.attempts[a] == if a == t.id then StoredRow(s, t, at, retryAt) else s.db.attempts[a]
  }

  lemma RecordEffect(cfg: Config, s: System, t: Token, at: Time, retryAt: Time, copyId: Id, recoveryId: Id)
    requires Known(s)
    ensures var after := DoRecord(cfg, s, t, at, retryAt, copyId, recoveryId).db;
      && after.events == s.db.events
      && (after != s.db ==>
        && Lands(s, t)
        && copyId !in s.db.attempts && recoveryId !in s.db.attempts && copyId != recoveryId
        && (forall a :: a in after.attempts ==> a in s.db.attempts || a == copyId || a == recoveryId)
        && OnlyMarks(s, after, t, at, retryAt)
        && CopyAdded(cfg, s, after, t, at, retryAt, copyId, recoveryId))
  {
    var after := DoRecord(cfg, s, t, at, retryAt, copyId, recoveryId).db;
    if after != s.db {
      assert FlightOk(s, t);
      var stored := StoredRow(s, t, at, retryAt);
      var x := s.flights[t].row;
      var marked := s.db.(attempts := s.db.attempts[t.id := stored]);
      var copy := FallbackFor(cfg, x, ReportFor(x, s.flights[t].outcome.value, at, retryAt), copyId, recoveryId);
      if stored.state == DeadLetter && copy.Some? {
        SameLinks(s.db.attempts, t.id, stored, t.id, x.eventId);
        FallbackEffect(marked, t.id, copy.value);
      }
    }
  }

  /** What queuing a copy leaves, if it succeeds: nothing new, or the copy, and its
      recovery exactly when the event closed with recoveries. */
  lemma FallbackEffect(db: Db, source: Id, f: Copy)
    requires f.row.kind == Alert && f.id != f.recoveryId && f.id !in db.attempts && f.recoveryId !in db.attempts
    ensures var r := QueueFallback(db, source, f); var row := f.row.(fallbackOf := Some(source));
      r.Ok? ==>
        && r.value.events == db.events
        && (forall a :: a in db.attempts ==> a in r.value.attempts && r.value.attempts[a] == db.attempts[a])
        && (forall a :: a in r.value.attempts ==> a in db.attempts || a == f.id || a == f.recoveryId)
        && (f.id in r.value.attempts <==> !HasCopy(db.attempts, source))
        && (f.id in r.value.attempts ==> row.eventId in db.events && r.value.attempts[f.id] == row)
        && (f.recoveryId in r.value.attempts <==>
              f.id in r.value.attempts && db.events[row.eventId].state == Resolved && HasRecoveries(db.attempts, row.eventId))
        && (f.recoveryId in r.value.attempts ==>
              r.value.attempts[f.recoveryId] == RecoveryOf(f.id, row, row.maxAttempts, row.createdAt))
  {
    AlertAddsNoRecovery(db.attempts, f.id, f.row.(fallbackOf := Some(source)), f.row.eventId);
  }

  /** Progress on one row changes neither copies nor recoveries. */
  lemma SameLinks(m: map<Id, Attempt>, a: Id, x: Attempt, source: Id, eventId: Id)
    requires a in m && x.SameJob(m[a])
    ensures HasCopy(m[a := x], source) <==> HasCopy(m, source)
    ensures HasRecoveries(m[a := x], eventId) <==> HasRecoveries(m, eventId)
  {
    var n := m[a := x];
    if HasCopy(n, source) { var f :| f in n && n[f].fallbackOf == Some(source); assert m[f].fallbackOf == Some(source); }
    if HasCopy(m, source) { var f :| f in m && m[f].fallbackOf == Some(source); assert n[f].fallbackOf == Some(source); }
    if HasRecoveries(n, eventId) {
      var r :| r in n && n[r].eventId == eventId && n[r].kind == Recovery;
      assert m[r].eventId == eventId && m[r].kind == Recovery;
    }
    if HasRecoveries(m, eventId) {
      var r :| r in m && m[r].eventId == eventId && m[r].kind == Recovery;
      assert n[r].eventId == eventId && n[r].kind == Recovery;
    }
  }

  lemma AlertAddsNoRecovery(m: map<Id, Attempt>, a: Id, x: Attempt, eventId: Id)
    requires a !in m && x.kind == Alert
    ensures HasRecoveries(m[a := x], eventId) <==> HasRecoveries(m, eventId)
  {
    var n := m[a := x];
    if HasRecoveries(n, eventId) {
      var r :| r in n && n[r].eventId == eventId && n[r].kind == Recovery;
      assert r in m && m[r].eventId == eventId && m[r].kind == Recovery;
    }
    if HasRecoveries(m, eventId) {
      var r :| r in m && m[r].eventId == eventId && m[r].kind == Recovery;
      assert n[r].eventId == eventId && n[r].kind == Recovery;
    }
  }

  // --- A repeated report --------------------------------------------------------------------

  /** A row a rise added: a direct alert on a channel the event had none on. */
  ghost predicate NewAlert(s: System, id: Id, x: Attempt, newIds: map<Id, Channel>, maxAttempts: nat, at: Time, a: Id) {
    && id in s.db.events && a in newIds && a !in s.past.usedAttempts && maxAttempts > 0
    && x == AlertRow(id, newIds[a], maxAttempts, at)
    && x.channel !in AlertedChannels(s.db.attempts, id)
    && s.db.events[id].state != Muted
  }

  lemma RefreshEffect(cfg: Config, s: System, id: Id, severity: Severity, at: Time, newIds: map<Id, Channel>, maxAttempts: nat)
    requires Known(s)
    ensures var after := DoRefresh(cfg, s, id, severity, at, newIds, maxAttempts);
      after != s ==>
        && id in s.db.events && s.db.events[id].state != Resolved
        && after.db.events == s.db.events[id := Refreshed(s.db.events[id], severity, at)]
        && (forall a :: a in s.db.attempts ==> a in after.db.attempts && after.db.attempts[a] == s.db.attempts[a])
        && (forall a :: a in after.db.attempts && a !in s.db.attempts ==>
              NewAlert(s, id, after.db.attempts[a], newIds, maxAttempts, at, a))
        && after.flights == s.flights && after.log == s.log
        && after.past == s.past.(usedAttempts := s.past.usedAttempts + newIds.Keys)
  {
  }

  // --- Changing a state --------------------------------------------------------------------

  /** The change is one that `NextState` offers and that found its state. */
  predicate Applies(s: System, id: Id, from: EventState, req: Request) {
    && id in s.db.events && s.db.events[id].state == from
    && NextState(req, from).Ok? && NextState(req, from).value != from
    && (req.Manual? ==> s.db.events[id].typ == Incident)
  }

  function Committed(s: System, id: Id, from: EventState, req: Request, notifier: nat, at: Time): StateChange
    requires Applies(s, id, from, req)
  {
    ChangeFor(notifier, s.db.events[id].typ, from, NextState(req, from).value, at)
  }

  function AfterCancel(x: Attempt, id: Id, c: StateChange): Attempt {
    if c.cancelAlerts && x.eventId == id && x.kind == Alert && Queued(x) then CancelledBy(x, c.at) else x
  }

  /** Closing event `id` owes row `x` a recovery. */
  predicate Owed(x: Attempt, id: Id) {
    x.eventId == id && x.kind == Alert && x.state != Cancelled
  }

  /** A row that a state change added: the recovery of an alert it left alive. */
  ghost predicate NewRecovery(s: System, after: Db, id: Id, c: StateChange, links: map<Id, Id>, r: Id)
    requires r in after.attempts
  {
    && c.recoveryMaxAttempts > 0 && r in links && r !in s.past.usedAttempts
    && links[r] in s.db.attempts
    && var alert := AfterCancel(s.db.attempts[links[r]], id, c);
       Owed(alert, id) && after.attempts[r] == RecoveryOf(links[r], alert, c.recoveryMaxAttempts, c.at)
  }

  ghost predicate OnlyCancels(s: System, after: Db, id: Id, c: StateChange) {
    forall a :: a in s.db.attempts ==> a in after.attempts && after.attempts[a] == AfterCancel(s.db.attempts[a], id, c)
  }

  /** Every alert of the event left alive has a recovery among the new rows. */
  ghost predicate AllRecovered(s: System, after: Db, id: Id, c: StateChange) {
    forall a :: a in s.db.attempts && Owed(AfterCancel(s.db.attempts[a], id, c), id) ==> HasRecovery(after.attempts, a)
  }

  lemma RecoveriesEffect(attempts: map<Id, Attempt>, id: Id, links: map<Id, Id>, maxAttempts: nat, at: Time)
    requires maxAttempts > 0 && AddRecoveries(attempts, id, links, maxAttempts, at).Ok?
    ensures var after := AddRecoveries(attempts, id, links, maxAttempts, at).value;
      && (forall a :: a in attempts ==> a in after && after[a] == attempts[a])
      && (forall r :: r in after && r !in attempts ==>
        r in links && links[r] in attempts && Owed(attempts[links[r]], id)
        && after[r] == RecoveryOf(links[r], attempts[links[r]], maxAttempts, at))
      && (forall a :: a in attempts && Owed(attempts[a], id) ==> HasRecovery(after, a))
  {
    var after := AddRecoveries(attempts, id, links, maxAttempts, at).value;
    forall r | r in links ensures links[r] in AlertsToRecover(attempts, id) {
      assert links[r] in links.Values;
    }
    forall a | a in attempts && Owed(attempts[a], id) ensures HasRecovery(after, a) {
      assert a in AlertsToRecover(attempts, id);
      assert a in links.Values;
      var r :| r in links && links[r] == a;
      assert after[r].recoveryFor == Some(a);
    }
  }

  /** Everything a committed state change does. */
  ghost predicate Changed(s: System, after: System, id: Id, c: StateChange, links: map<Id, Id>) {
    && id in s.db.events && s.db.events[id].state == c.from && c.from != Resolved
    && after.db.events == s.db.events[id := Moved(s.db.events[id], c)]
    && OnlyCancels(s, after.db, id, c)
    && (forall r :: r in after.db.attempts && r !in s.db.attempts ==> NewRecovery(s, after.db, id, c, links, r))
    && (forall r :: r in after.db.attempts && r in s.past.usedAttempts ==> r in s.db.attempts)
    && (c.recoveryMaxAttempts > 0 ==> c.to == Resolved && AllRecovered(s, after.db, id, c))
    && after.past.closedWith == (if c.to == Resolved then s.past.closedWith[id := c.recoveryMaxAttempts] else s.past.closedWith)
    && s.past.usedAttempts <= after.past.usedAttempts && after.past.usedEvents == s.past.usedEvents
  }

  lemma ChangeEffect(s: System, id: Id, from: EventState, req: Request, notifier: nat, at: Time, links: map<Id, Id>)
    requires Known(s)
    ensures var after := DoChange(s, id, from, req, notifier, at, links);
      after != s ==> Applies(s, id, from, req) && Changed(s, after, id, Committed(s, id, from, req, notifier, at), links)
  {
    var after := DoChange(s, id, from, req, notifier, at, links);
    if after != s {
      var c := Committed(s, id, from, req, notifier, at);
      var attempts := if c.cancelAlerts then CancelQueued(s.db.attempts, id, c.at) else s.db.attempts;
      assert forall a :: a in s.db.attempts ==> attempts[a] == AfterCancel(s.db.attempts[a], id, c);
      if c.recoveryMaxAttempts > 0 {
        RecoveriesEffect(attempts, id, links, c.recoveryMaxAttempts, c.at);
      }
    }
  }
}
