/** Every step keeps deliveries single: what arrived is not transmitted again,
    unless it was taken back, handed back or replayed. */
module OnceProofs {
  import opened Domain
  import opened Tables
  import opened Protocol
  import opened Invariants
  import opened Effects

  lemma ArrivedLater(log: seq<Transmission>, x: Transmission, id: Id)
    ensures Arrived(log + [x], id) <==> Arrived(log, id) || (x.id == id && x.delivered)
  {
    if Arrived(log, id) {
      var j :| 0 <= j < |log| && log[j].id == id && log[j].delivered;
      assert (log + [x])[j] == log[j];
    }
    assert (log + [x])[|log|] == x;
  }

  /** A row that arrived and is undisturbed has not left `Sending` for the queue. */
  ghost predicate Stays(s: System, after: System, a: Id)
    requires a in s.db.attempts && a in after.db.attempts
  {
    a !in after.past.disturbed && Arrived(s.log, a) && s.db.attempts[a].state in {Sending, Sent} ==>
      after.db.attempts[a].state in {Sending, Sent}
  }

  /** Nothing is transmitted or claimed; rows that arrived stay where they are. */
  lemma IdleKeepsOnce(s: System, after: System)
    requires SentOnce(s) && after.log == s.log
    requires s.past.disturbed <= after.past.disturbed && s.past.usedAttempts <= after.past.usedAttempts
    requires forall a :: a in after.db.attempts && a in s.db.attempts ==> Stays(s, after, a)
    requires forall a :: a in after.db.attempts && a !in s.db.attempts ==> a !in s.past.usedAttempts
    requires forall t :: t in after.flights ==> t in s.flights && after.flights[t] == s.flights[t]
    ensures SentOnce(after)
  {
    forall a | a in after.db.attempts ensures ArrivedRow(after, a) {
      if a in s.db.attempts { assert ArrivedRow(s, a); }
    }
    forall t | t in after.flights ensures ArrivedFlight(after, t) { assert ArrivedFlight(s, t); }
  }

  lemma ChangeKeepsOnceSent(s: System, id: Id, from: EventState, req: Request, notifier: nat, at: Time, links: map<Id, Id>)
    requires SentOnce(s) && Known(s)
    ensures SentOnce(DoChange(s, id, from, req, notifier, at, links))
  {
    var after := DoChange(s, id, from, req, notifier, at, links);
    ChangeEffect(s, id, from, req, notifier, at, links);
    if after != s { IdleKeepsOnce(s, after); }
  }

  /** What is due has not arrived, and no worker holds it. */
  lemma ClaimKeepsOnceSent(s: System, taken: set<Id>, now: Time)
    requires SentOnce(s) && Known(s) && Frugal(s)
    ensures SentOnce(DoClaim(s, taken, now))
  {
    var after := DoClaim(s, taken, now);
    if after != s {
      forall a | a in after.db.attempts ensures ArrivedRow(after, a) { assert ArrivedRow(s, a); }
      forall t | t in after.flights ensures ArrivedFlight(after, t) {
        if t in s.flights { assert ArrivedFlight(s, t) && FlightOk(s, t); } else { assert ArrivedRow(s, t.id); }
      }
      forall t, u | t in after.flights && u in after.flights && t.id == u.id && t.id !in after.past.disturbed ensures t == u {
        OneFlight(s, taken, now, t, u);
      }
    }
  }

  lemma OneFlight(s: System, taken: set<Id>, now: Time, t: Token, u: Token)
    requires SentOnce(s) && Known(s) && Frugal(s) && DoClaim(s, taken, now) != s && t.id == u.id && t.id !in s.past.disturbed
    requires t in DoClaim(s, taken, now).flights && u in DoClaim(s, taken, now).flights
    ensures t == u
  {
    if t in s.flights { assert FrugalFlight(s, t) && FlightOk(s, t); }
    if u in s.flights { assert FrugalFlight(s, u) && FlightOk(s, u); }
  }

  lemma TransmitKeepsOnceSent(s: System, t: Token, outcome: Outcome)
    requires SentOnce(s) && Known(s) && Frugal(s)
    ensures SentOnce(DoTransmit(s, t, outcome))
  {
    var after := DoTransmit(s, t, outcome);
    if after != s {
      var x := Transmission(t.id, s.flights[t].row.kind, s.flights[t].row.recoveryFor, outcome == Delivered);
      assert after.log == s.log + [x] && ArrivedFlight(s, t) && FlightOk(s, t) && FrugalFlight(s, t);
      forall i, j | 0 <= i < j < |after.log| && after.log[i].id == after.log[j].id && after.log[i].delivered
        ensures after.log[i].id in after.past.disturbed
      {
        assert after.log[i] == s.log[i];
      }
      forall a | a in after.db.attempts ensures ArrivedRow(after, a) {
        assert ArrivedRow(s, a);
        ArrivedLater(s.log, x, a);
      }
      forall u | u in after.flights ensures ArrivedFlight(after, u) {
        assert ArrivedFlight(s, u);
        ArrivedLater(s.log, x, u.id);
      }
    }
  }

  /** The worker of an attempt that arrived records it as sent. */
  lemma RecordKeepsOnceSent(cfg: Config, s: System, t: Token, at: Time, retryAt: Time, copyId: Id, recoveryId: Id)
    requires SentOnce(s) && Known(s)
    ensures SentOnce(DoRecord(cfg, s, t, at, retryAt, copyId, recoveryId))
  {
    var after := DoRecord(cfg, s, t, at, retryAt, copyId, recoveryId);
    RecordEffect(cfg, s, t, at, retryAt, copyId, recoveryId);
    if after != s {
      assert ArrivedFlight(s, t);
      IdleKeepsOnce(s, after);
    }
  }

  lemma CreateKeepsOnceSent(cfg: Config, s: System, id: Id, e: Event, newIds: map<Id, Channel>, maxAttempts: nat)
    requires SentOnce(s) && Known(s)
    ensures SentOnce(DoCreate(cfg, s, id, e, newIds, maxAttempts))
  {
    var after := DoCreate(cfg, s, id, e, newIds, maxAttempts);
    if after != s { IdleKeepsOnce(s, after); }
  }

  lemma RefreshKeepsOnceSent(cfg: Config, s: System, id: Id, severity: Severity, at: Time, newIds: map<Id, Channel>, maxAttempts: nat)
    requires SentOnce(s) && Known(s)
    ensures SentOnce(DoRefresh(cfg, s, id, severity, at, newIds, maxAttempts))
  {
    var after := DoRefresh(cfg, s, id, severity, at, newIds, maxAttempts);
    RefreshEffect(cfg, s, id, severity, at, newIds, maxAttempts);
    if after != s { IdleKeepsOnce(s, after); }
  }

  lemma ReapKeepsOnceSent(cfg: Config, s: System, staleBefore: Time, at: Time)
    requires SentOnce(s)
    ensures SentOnce(Next(cfg, s, Reap(staleBefore, at)))
  {
    IdleKeepsOnce(s, Next(cfg, s, Reap(staleBefore, at)));
  }

  lemma ReplayKeepsOnceSent(s: System, id: Id, at: Time)
    requires SentOnce(s)
    ensures SentOnce(DoReplay(s, id, at))
  {
    IdleKeepsOnce(s, DoReplay(s, id, at));
  }

  lemma KeepsSentOnce(cfg: Config, s: System, step: Step)
    requires Known(s) && Frugal(s) && SentOnce(s)
    ensures SentOnce(Next(cfg, s, step))
  {
    match step
    case Create(id, e, newIds, maxAttempts) => CreateKeepsOnceSent(cfg, s, id, e, newIds, maxAttempts);
    case Refresh(id, severity, at, newIds, maxAttempts) => RefreshKeepsOnceSent(cfg, s, id, severity, at, newIds, maxAttempts);
    case Change(id, from, req, notifier, at, links) => ChangeKeepsOnceSent(s, id, from, req, notifier, at, links);
    case ClaimDue(taken, now) => ClaimKeepsOnceSent(s, taken, now);
    case Transmit(t, outcome) => TransmitKeepsOnceSent(s, t, outcome);
    case Record(t, at, retryAt, copyId, recoveryId) => RecordKeepsOnceSent(cfg, s, t, at, retryAt, copyId, recoveryId);
    case Lose(_) => IdleKeepsOnce(s, Next(cfg, s, step));
    case ReplayOne(id, at) => ReplayKeepsOnceSent(s, id, at);
    case Reap(staleBefore, at) => ReapKeepsOnceSent(cfg, s, staleBefore, at);
    case Expire(batch, cutoff) => IdleKeepsOnce(s, Next(cfg, s, step));
  }
}
