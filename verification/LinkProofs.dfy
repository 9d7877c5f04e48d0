/** Every step keeps the links between rows. */
module LinkProofs {
  import opened Domain
  import opened Tables
  import opened Protocol
  import opened Invariants

  /** The rows are the same jobs; only their progress may differ. */
  ghost predicate SameShape(m: map<Id, Attempt>, n: map<Id, Attempt>) {
    m.Keys == n.Keys && forall a :: a in m ==> n[a].SameJob(m[a])
  }

  lemma ShapeKeepsLinks(cfg: Config, db: Db, after: Db)
    requires Links(cfg, db)
    requires SameShape(db.attempts, after.attempts) && db.events.Keys == after.events.Keys
    ensures Links(cfg, after)
  {
  }

  /** Rows that are direct alerts of known events may always be added. */
  lemma NewAlertsKeepLinks(cfg: Config, db: Db, after: Db, rows: map<Id, Attempt>)
    requires Links(cfg, db)
    requires after.attempts == db.attempts + rows && rows.Keys !! db.attempts.Keys
    requires db.events.Keys <= after.events.Keys
    requires forall a :: a in rows ==>
      rows[a].IsDirect() && rows[a].recoveryFor.None? && rows[a].eventId in after.events
      && rows[a].channel in cfg.channels && rows[a].maxAttempts > 0
    ensures Links(cfg, after)
  {
  }

  /** One recovery for each of some alerts that had none. */
  lemma RecoveriesKeepLinks(cfg: Config, db: Db, links: map<Id, Id>, maxAttempts: nat, at: Time)
    requires Links(cfg, db) && maxAttempts > 0
    requires links.Keys !! db.attempts.Keys && links.Values <= db.attempts.Keys
    requires forall i, j :: i in links && j in links && links[i] == links[j] ==> i == j
    requires forall r :: r in links ==> db.attempts[links[r]].kind == Alert && !HasRecovery(db.attempts, links[r])
    ensures Links(cfg, db.(attempts := db.attempts + RecoveryRows(db.attempts, links, maxAttempts, at)))
  {
  }

  /** One copy of a direct alert that had none. */
  lemma CopyKeepsLinks(cfg: Config, db: Db, f: Id, row: Attempt, source: Id)
    requires Links(cfg, db) && f !in db.attempts && !HasCopy(db.attempts, source)
    requires row.kind == Alert && row.fallbackOf == Some(source) && row.recoveryFor.None? && row.maxAttempts > 0
    requires row.channel in cfg.channels && row.eventId in db.events && Redirects(db, row, source)
    ensures Links(cfg, db.(attempts := db.attempts[f := row]))
  {
  }

  lemma ExpireKeepsLinks(cfg: Config, db: Db, batch: set<Id>, cutoff: Time)
    requires Links(cfg, db)
    ensures Links(cfg, DeleteEvents(db, batch, cutoff))
  {
  }

  // --- The steps ---------------------------------------------------------------------

  lemma CreateKeepsLinks(cfg: Config, s: System, id: Id, e: Event, newIds: map<Id, Channel>, maxAttempts: nat)
    requires Links(cfg, s.db)
    ensures Links(cfg, DoCreate(cfg, s, id, e, newIds, maxAttempts).db)
  {
  }

  lemma RefreshKeepsLinks(cfg: Config, s: System, id: Id, severity: Severity, at: Time, newIds: map<Id, Channel>, maxAttempts: nat)
    requires Links(cfg, s.db)
    ensures Links(cfg, DoRefresh(cfg, s, id, severity, at, newIds, maxAttempts).db)
  {
    var after := DoRefresh(cfg, s, id, severity, at, newIds, maxAttempts);
    if after != s {
      forall a | a in newIds ensures newIds[a] in cfg.channels { assert newIds[a] in newIds.Values; }
      var rows := MissingAlerts(s.db.attempts, id, AlertRows(id, newIds, maxAttempts, at));
      if after.db.attempts == s.db.attempts {
        ShapeKeepsLinks(cfg, s.db, after.db);
      } else {
        NewAlertsKeepLinks(cfg, s.db, after.db, rows);
      }
    }
  }

  /** An alert of an event that is not closed has no recovery yet. */
  lemma OpenHasNoRecovery(cfg: Config, s: System, a: Id)
    requires Links(cfg, s.db) && Exact(s)
    requires a in s.db.attempts && s.db.events[s.db.attempts[a].eventId].state != Resolved
    ensures !HasRecovery(s.db.attempts, a)
  {
  }

  lemma AddRecoveriesKeepsLinks(cfg: Config, db: Db, id: Id, links: map<Id, Id>, maxAttempts: nat, at: Time)
    requires Links(cfg, db)
    requires forall a :: a in db.attempts && db.attempts[a].eventId == id ==> !HasRecovery(db.attempts, a)
    ensures var r := AddRecoveries(db.attempts, id, links, maxAttempts, at); r.Ok? ==> Links(cfg, db.(attempts := r.value))
  {
    if maxAttempts > 0 && AddRecoveries(db.attempts, id, links, maxAttempts, at).Ok? {
      forall r | r in links ensures links[r] in AlertsToRecover(db.attempts, id) {
        assert links[r] in links.Values;
      }
      RecoveriesKeepLinks(cfg, db, links, maxAttempts, at);
    }
  }

  lemma TransitionKeepsLinks(cfg: Config, db: Db, id: Id, c: StateChange, links: map<Id, Id>)
    requires Links(cfg, db)
    requires forall a :: a in db.attempts && db.attempts[a].eventId == id ==> !HasRecovery(db.attempts, a)
    ensures var r := TransitionEvent(db, id, c, links); r.Ok? ==> Links(cfg, r.value)
  {
    if TransitionEvent(db, id, c, links).Ok? {
      var events := db.events[id := Moved(db.events[id], c)];
      var attempts := if c.cancelAlerts then CancelQueued(db.attempts, id, c.at) else db.attempts;
      ShapeKeepsLinks(cfg, db, Db(events, attempts));
      forall a | a in attempts && attempts[a].eventId == id ensures !HasRecovery(attempts, a) {
        SameRecoveries(db.attempts, attempts, a);
      }
      AddRecoveriesKeepsLinks(cfg, Db(events, attempts), id, links, c.recoveryMaxAttempts, c.at);
    }
  }

  lemma SameRecoveries(m: map<Id, Attempt>, n: map<Id, Attempt>, a: Id)
    requires SameShape(m, n)
    ensures HasRecovery(m, a) <==> HasRecovery(n, a)
  {
  }

  lemma ChangeKeepsLinks(cfg: Config, s: System, id: Id, from: EventState, req: Request, notifier: nat, at: Time, links: map<Id, Id>)
    requires Links(cfg, s.db) && Exact(s)
    ensures Links(cfg, DoChange(s, id, from, req, notifier, at, links).db)
  {
    var after := DoChange(s, id, from, req, notifier, at, links);
    if after != s {
      assert from != Resolved;
      forall a | a in s.db.attempts && s.db.attempts[a].eventId == id ensures !HasRecovery(s.db.attempts, a) {
        OpenHasNoRecovery(cfg, s, a);
      }
      TransitionKeepsLinks(cfg, s.db, id, ChangeFor(notifier, s.db.events[id].typ, from, NextState(req, from).value, at), links);
    }
  }

  /** A new alert gets its recovery right away. */
  lemma CopyRecoveryKeepsLinks(cfg: Config, db: Db, f: Id, row: Attempt, r: Id)
    requires Links(cfg, db) && f !in db.attempts && r !in db.attempts && r != f
    requires Links(cfg, db.(attempts := db.attempts[f := row]))
    requires row.kind == Alert
    ensures Links(cfg, db.(attempts := db.attempts[f := row][r := RecoveryOf(f, row, row.maxAttempts, row.createdAt)]))
  {
    var copied := db.(attempts := db.attempts[f := row]);
    var after := db.(attempts := copied.attempts[r := RecoveryOf(f, row, row.maxAttempts, row.createdAt)]);
    assert LinkOk(cfg, copied, f);
    forall a | a in after.attempts ensures LinkOk(cfg, after, a) {
      if a != r { assert LinkOk(cfg, copied, a); }
    }
    forall a, b | a in after.attempts && b in after.attempts && a != b
      ensures !SharesLink(after.attempts[a], after.attempts[b])
    {
      if a != r && b != r {
        assert !SharesLink(copied.attempts[a], copied.attempts[b]);
      } else {
        var other := if a == r then b else a;
        if other != f { assert LinkOk(cfg, db, other); }
      }
    }
  }

  lemma QueueFallbackKeepsLinks(cfg: Config, db: Db, source: Id, f: Copy)
    requires Links(cfg, db) && f.id != f.recoveryId
    requires f.row.kind == Alert && f.row.recoveryFor.None? && f.row.maxAttempts > 0 && f.row.channel in cfg.channels
    requires Redirects(db, f.row, source)
    ensures var r := QueueFallback(db, source, f); r.Ok? ==> Links(cfg, r.value)
  {
    var row := f.row.(fallbackOf := Some(source));
    var r := QueueFallback(db, source, f);
    if r.Ok? && !HasCopy(db.attempts, source) {
      CopyKeepsLinks(cfg, db, f.id, row, source);
      var copied := db.(attempts := db.attempts[f.id := row]);
      if r.value != copied {
        CopyRecoveryKeepsLinks(cfg, db, f.id, row, f.recoveryId);
      }
    }
  }

  lemma RecordKeepsLinks(cfg: Config, s: System, t: Token, at: Time, retryAt: Time, copyId: Id, recoveryId: Id)
    requires ValidConfig(cfg) && Links(cfg, s.db) && Known(s)
    ensures Links(cfg, DoRecord(cfg, s, t, at, retryAt, copyId, recoveryId).db)
  {
    var after := DoRecord(cfg, s, t, at, retryAt, copyId, recoveryId);
    if after.db != s.db {
      var x := s.flights[t].row;
      var r := ReportFor(x, s.flights[t].outcome.value, at, retryAt);
      var copy := FallbackFor(cfg, x, r, copyId, recoveryId);
      var stored := Recorded(s.db, s.db.attempts[t.id], r);
      var marked := s.db.(attempts := s.db.attempts[t.id := stored]);
      ShapeKeepsLinks(cfg, s.db, marked);
      if copy.Some? {
        assert FlightOk(s, t);
        QueueFallbackKeepsLinks(cfg, marked, t.id, copy.value);
      }
    }
  }

  lemma ClaimKeepsLinks(cfg: Config, s: System, taken: set<Id>, now: Time)
    requires Links(cfg, s.db)
    ensures Links(cfg, DoClaim(s, taken, now).db)
  {
    ShapeKeepsLinks(cfg, s.db, DoClaim(s, taken, now).db);
  }

  lemma ReplayKeepsLinks(cfg: Config, s: System, id: Id, at: Time)
    requires Links(cfg, s.db)
    ensures Links(cfg, DoReplay(s, id, at).db)
  {
    ShapeKeepsLinks(cfg, s.db, DoReplay(s, id, at).db);
  }

  lemma ReapKeepsLinks(cfg: Config, db: Db, staleBefore: Time, at: Time)
    requires Links(cfg, db)
    ensures Links(cfg, RequeueStuckSending(db, staleBefore, at))
  {
    var after := RequeueStuckSending(db, staleBefore, at);
    forall a | a in db.attempts ensures after.attempts[a].SameJob(db.attempts[a]) {}
    ShapeKeepsLinks(cfg, db, after);
  }

  lemma KeepsLinks(cfg: Config, s: System, step: Step)
    requires ValidConfig(cfg) && Links(cfg, s.db) && Known(s) && Exact(s)
    ensures Links(cfg, Next(cfg, s, step).db)
  {
    match step
    case Create(id, e, newIds, maxAttempts) => CreateKeepsLinks(cfg, s, id, e, newIds, maxAttempts);
    case Refresh(id, severity, at, newIds, maxAttempts) => RefreshKeepsLinks(cfg, s, id, severity, at, newIds, maxAttempts);
    case Change(id, from, req, notifier, at, links) => ChangeKeepsLinks(cfg, s, id, from, req, notifier, at, links);
    case ClaimDue(taken, now) => ClaimKeepsLinks(cfg, s, taken, now);
    case Transmit(_, _) =>
    case Record(t, at, retryAt, copyId, recoveryId) => RecordKeepsLinks(cfg, s, t, at, retryAt, copyId, recoveryId);
    case Lose(_) =>
    case ReplayOne(id, at) => ReplayKeepsLinks(cfg, s, id, at);
    case Reap(staleBefore, at) => ReapKeepsLinks(cfg, s.db, staleBefore, at);
    case Expire(batch, cutoff) => ExpireKeepsLinks(cfg, s.db, batch, cutoff);
  }
}
