/** Every step keeps what is known of identifiers and flights, and "down" before
    "resolved". */
module OrderProofs {
  import opened Domain
  import opened Protocol
  import opened Invariants
  import opened Effects

  // --- What is known of identifiers and flights -----------------------------------------

  lemma RefreshKeepsKnown(cfg: Config, s: System, id: Id, severity: Severity, at: Time, newIds: map<Id, Channel>, maxAttempts: nat)
    requires Known(s)
    ensures Known(DoRefresh(cfg, s, id, severity, at, newIds, maxAttempts))
  {
    var after := DoRefresh(cfg, s, id, severity, at, newIds, maxAttempts);
    RefreshEffect(cfg, s, id, severity, at, newIds, maxAttempts);
    if after != s {
      forall t | t in after.flights ensures FlightOk(after, t) { assert FlightOk(s, t); }
    }
  }

  lemma ChangeKeepsKnown(s: System, id: Id, from: EventState, req: Request, notifier: nat, at: Time, links: map<Id, Id>)
    requires Known(s)
    ensures Known(DoChange(s, id, from, req, notifier, at, links))
  {
    var after := DoChange(s, id, from, req, notifier, at, links);
    ChangeEffect(s, id, from, req, notifier, at, links);
    if after != s {
      var c := Committed(s, id, from, req, notifier, at);
      forall t | t in after.flights ensures FlightOk(after, t) {
        assert FlightOk(s, t);
      }
      forall a | a in after.db.attempts ensures a in after.past.usedAttempts {
        assert a !in s.db.attempts ==> NewRecovery(s, after.db, id, c, links, a);
      }
    }
  }

  lemma ClaimKeepsKnown(s: System, taken: set<Id>, now: Time)
    requires Known(s) && Accounts(s.db)
    ensures Known(DoClaim(s, taken, now))
  {
    var after := DoClaim(s, taken, now);
    if after != s {
      forall t | t in after.flights ensures FlightOk(after, t) {
        if t in s.flights && t.batch != s.past.batches {
          assert FlightOk(s, t);
        } else {
          assert t.id in taken;
        }
      }
    }
  }

  lemma RecordKeepsKnown(cfg: Config, s: System, t: Token, at: Time, retryAt: Time, copyId: Id, recoveryId: Id)
    requires Known(s)
    ensures Known(DoRecord(cfg, s, t, at, retryAt, copyId, recoveryId))
  {
    var after := DoRecord(cfg, s, t, at, retryAt, copyId, recoveryId);
    RecordEffect(cfg, s, t, at, retryAt, copyId, recoveryId);
    if after != s {
      assert FlightOk(s, t);
      forall u | u in after.flights ensures FlightOk(after, u) { assert FlightOk(s, u); }
    }
  }

  lemma FewerKeepKnown(s: System, after: System)
    requires Known(s) && after.past == s.past
    requires after.db.events.Keys <= s.db.events.Keys
    requires forall a :: a in after.db.attempts ==> a in s.db.attempts && after.db.attempts[a] == s.db.attempts[a]
    requires forall t :: t in after.flights ==> t in s.flights && after.flights[t].row == s.flights[t].row
    ensures Known(after)
  {
  }

  lemma KeepsKnown(cfg: Config, s: System, step: Step)
    requires Known(s) && Accounts(s.db)
    ensures Known(Next(cfg, s, step))
  {
    match step
    case Create(id, e, newIds, maxAttempts) =>
    case Refresh(id, severity, at, newIds, maxAttempts) => RefreshKeepsKnown(cfg, s, id, severity, at, newIds, maxAttempts);
    case Change(id, from, req, notifier, at, links) => ChangeKeepsKnown(s, id, from, req, notifier, at, links);
    case ClaimDue(taken, now) => ClaimKeepsKnown(s, taken, now);
    case Transmit(t, outcome) => FewerKeepKnown(s, DoTransmit(s, t, outcome));
    case Record(t, at, retryAt, copyId, recoveryId) => RecordKeepsKnown(cfg, s, t, at, retryAt, copyId, recoveryId);
    case Lose(_) => FewerKeepKnown(s, Next(cfg, s, step));
    case ReplayOne(id, at) =>
    case Reap(staleBefore, at) =>
    case Expire(batch, cutoff) => FewerKeepKnown(s, Next(cfg, s, step));
  }

  // --- "Down" before "resolved" --------------------------------------------------------------

  lemma LaterLog(log: seq<Transmission>, x: Transmission, id: Id, kind: Kind)
    requires DeliveredIn(log, id, kind)
    ensures DeliveredIn(log + [x], id, kind)
  {
    var j :| 0 <= j < |log| && log[j].id == id && log[j].kind == kind && log[j].delivered;
    assert (log + [x])[j] == log[j];
  }

  /** A row whose sent alerts stay sent, and that leaves the queue only with its
      alert sent. */
  ghost predicate OrderedProgress(s: System, after: System, a: Id)
    requires a in s.db.attempts && a in after.db.attempts
  {
    var x, y := s.db.attempts[a], after.db.attempts[a];
    && y.SameJob(x)
    && (x.state == Sent ==> y.state == Sent)
    && (y.state == Sent && x.state != Sent ==> DeliveredIn(s.log, a, y.kind))
    && (y.kind == Recovery && y.state != Pending ==> x.state != Pending || a in after.past.claims)
    && (y.kind == Recovery && a in after.past.claims ==> a in s.past.claims || AlertSent(s.db.attempts, y))
  }

  ghost predicate AlertSent(attempts: map<Id, Attempt>, x: Attempt) {
    x.recoveryFor.Some? && x.recoveryFor.value in attempts && attempts[x.recoveryFor.value].state == Sent
  }

  /** The log is untouched; rows make ordered progress; new rows are pending and
      were never claimed; flights were there before or carry a claim just made. */
  lemma ProgressKeepsOrdered(s: System, after: System)
    requires Ordered(s) && after.log == s.log
    requires forall a :: a in s.db.attempts && a in after.db.attempts ==> OrderedProgress(s, after, a)
    requires forall a :: a in after.db.attempts && a !in s.db.attempts ==>
      after.db.attempts[a].state == Pending && a !in after.past.claims
    requires forall a, b :: a in after.db.attempts && b in s.db.attempts && after.db.attempts[a].recoveryFor == Some(b) ==> b in after.db.attempts
    requires forall t :: t in after.flights ==>
      (t in s.flights && after.flights[t] == s.flights[t]) || OrderedFlight(after, t)
    ensures Ordered(after)
  {
  }

  lemma RefreshKeepsOrdered(cfg: Config, s: System, id: Id, severity: Severity, at: Time, newIds: map<Id, Channel>, maxAttempts: nat)
    requires Ordered(s) && Known(s)
    ensures Ordered(DoRefresh(cfg, s, id, severity, at, newIds, maxAttempts))
  {
    var after := DoRefresh(cfg, s, id, severity, at, newIds, maxAttempts);
    RefreshEffect(cfg, s, id, severity, at, newIds, maxAttempts);
    if after != s { ProgressKeepsOrdered(s, after); }
  }

  lemma ChangeKeepsOrdered(s: System, id: Id, from: EventState, req: Request, notifier: nat, at: Time, links: map<Id, Id>)
    requires Ordered(s) && Known(s)
    ensures Ordered(DoChange(s, id, from, req, notifier, at, links))
  {
    var after := DoChange(s, id, from, req, notifier, at, links);
    ChangeEffect(s, id, from, req, notifier, at, links);
    if after != s {
      var c := Committed(s, id, from, req, notifier, at);
      forall a | a in after.db.attempts && a !in s.db.attempts
        ensures after.db.attempts[a].state == Pending && a !in after.past.claims
      {
        assert NewRecovery(s, after.db, id, c, links, a);
      }
      ProgressKeepsOrdered(s, after);
    }
  }

  lemma ClaimKeepsOrdered(cfg: Config, s: System, taken: set<Id>, now: Time)
    requires Ordered(s) && Known(s) && Links(cfg, s.db)
    ensures Ordered(DoClaim(s, taken, now))
  {
    var after := DoClaim(s, taken, now);
    if after != s {
      forall a | a in s.db.attempts ensures OrderedProgress(s, after, a) {
        assert LinkOk(cfg, s.db, a) && OrderedRow(s, a);
      }
      forall t | t in after.flights ensures (t in s.flights && after.flights[t] == s.flights[t]) || OrderedFlight(after, t) {
        if t in s.flights { assert FlightOk(s, t); } else {
          assert LinkOk(cfg, s.db, t.id);
          var x := s.db.attempts[t.id];
          if x.kind == Recovery { assert OrderedRow(s, x.recoveryFor.value); }
        }
      }
      ProgressKeepsOrdered(s, after);
    }
  }

  /** A transmission of a recovery extends a log that holds its alert. */
  lemma TransmitKeepsOrdered(s: System, t: Token, outcome: Outcome)
    requires Ordered(s)
    ensures Ordered(DoTransmit(s, t, outcome))
  {
    var after := DoTransmit(s, t, outcome);
    if after != s {
      var f := s.flights[t];
      var x := Transmission(t.id, f.row.kind, f.row.recoveryFor, outcome == Delivered);
      assert after.log == s.log + [x] && OrderedFlight(s, t);
      forall i | 0 <= i < |after.log| && after.log[i].kind == Recovery
        ensures after.log[i].recoveryFor.Some? && DeliveredIn(after.log[..i], after.log[i].recoveryFor.value, Alert)
      {
        assert after.log[..i] == s.log[..i];
        if i == |s.log| { assert s.log[..i] == s.log; }
      }
      forall a | a in after.db.attempts ensures OrderedRow(after, a) {
        assert OrderedRow(s, a);
        if s.db.attempts[a].state == Sent { LaterLog(s.log, x, a, s.db.attempts[a].kind); }
      }
      forall u | u in after.flights ensures OrderedFlight(after, u) {
        TransmitKeepsFlight(s, t, outcome, u);
      }
    }
  }

  lemma TransmitKeepsFlight(s: System, t: Token, outcome: Outcome, u: Token)
    requires Ordered(s) && t in s.flights && s.flights[t].outcome.None? && u in s.flights
    ensures OrderedFlight(DoTransmit(s, t, outcome), u)
  {
    var f := s.flights[u];
    var x := Transmission(t.id, s.flights[t].row.kind, s.flights[t].row.recoveryFor, outcome == Delivered);
    assert OrderedFlight(s, u);
    if f.outcome == Some(Delivered) { LaterLog(s.log, x, u.id, f.row.kind); }
    if f.row.kind == Recovery { LaterLog(s.log, x, f.row.recoveryFor.value, Alert); }
    assert (s.log + [x])[|s.log|] == x;
  }

  lemma RecordKeepsOrdered(cfg: Config, s: System, t: Token, at: Time, retryAt: Time, copyId: Id, recoveryId: Id)
    requires Ordered(s) && Known(s) && Links(cfg, s.db)
    ensures Ordered(DoRecord(cfg, s, t, at, retryAt, copyId, recoveryId))
  {
    var after := DoRecord(cfg, s, t, at, retryAt, copyId, recoveryId);
    RecordEffect(cfg, s, t, at, retryAt, copyId, recoveryId);
    if after != s {
      forall a | a in s.db.attempts && a in after.db.attempts ensures OrderedProgress(s, after, a) {
        RecordedProgress(cfg, s, after, t, at, retryAt, a);
      }
      ProgressKeepsOrdered(s, after);
    }
  }

  lemma RecordedProgress(cfg: Config, s: System, after: System, t: Token, at: Time, retryAt: Time, a: Id)
    requires Ordered(s) && Known(s) && Links(cfg, s.db) && t in s.flights && a in s.db.attempts && a in after.db.attempts
    requires after.log == s.log && after.past.claims == s.past.claims
    requires after.db != s.db ==> Lands(s, t) && OnlyMarks(s, after.db, t, at, retryAt)
    ensures OrderedProgress(s, after, a)
  {
    assert FlightOk(s, t) && OrderedFlight(s, t) && LinkOk(cfg, s.db, a) && OrderedRow(s, a);
  }

  lemma ReplayKeepsOrdered(s: System, id: Id, at: Time)
    requires Ordered(s)
    ensures Ordered(DoReplay(s, id, at))
  {
  }

  lemma ReapKeepsOrdered(cfg: Config, s: System, staleBefore: Time, at: Time)
    requires Ordered(s) && Links(cfg, s.db)
    ensures Ordered(Next(cfg, s, Reap(staleBefore, at)))
  {
    var after := Next(cfg, s, Reap(staleBefore, at));
    forall a | a in s.db.attempts ensures OrderedProgress(s, after, a) {
      assert OrderedRow(s, a) && LinkOk(cfg, s.db, a);
    }
    ProgressKeepsOrdered(s, after);
  }

  lemma ExpireKeepsOrdered(cfg: Config, s: System, batch: set<Id>, cutoff: Time)
    requires Ordered(s) && Links(cfg, s.db)
    ensures Ordered(Next(cfg, s, Expire(batch, cutoff)))
  {
  }

  lemma KeepsOrdered(cfg: Config, s: System, step: Step)
    requires Links(cfg, s.db) && Known(s) && Ordered(s)
    ensures Ordered(Next(cfg, s, step))
  {
    match step
    case Create(id, e, newIds, maxAttempts) =>
    case Refresh(id, severity, at, newIds, maxAttempts) => RefreshKeepsOrdered(cfg, s, id, severity, at, newIds, maxAttempts);
    case Change(id, from, req, notifier, at, links) => ChangeKeepsOrdered(s, id, from, req, notifier, at, links);
    case ClaimDue(taken, now) => ClaimKeepsOrdered(cfg, s, taken, now);
    case Transmit(t, outcome) => TransmitKeepsOrdered(s, t, outcome);
    case Record(t, at, retryAt, copyId, recoveryId) => RecordKeepsOrdered(cfg, s, t, at, retryAt, copyId, recoveryId);
    case Lose(t) =>
      forall u | u in s.flights - {t} ensures OrderedFlight(Next(cfg, s, step), u) { assert OrderedFlight(s, u); }
      forall a | a in s.db.attempts ensures OrderedRow(Next(cfg, s, step), a) { assert OrderedRow(s, a); }
    case ReplayOne(id, at) => ReplayKeepsOrdered(s, id, at);
    case Reap(staleBefore, at) => ReapKeepsOrdered(cfg, s, staleBefore, at);
    case Expire(batch, cutoff) => ExpireKeepsOrdered(cfg, s, batch, cutoff);
  }
}
