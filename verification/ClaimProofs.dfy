/** Every step keeps the count of claims: an attempt that is never taken back,
    handed back or replayed is claimed once per recorded try. */
module ClaimProofs {
  import opened Domain
  import opened Protocol
  import opened Invariants
  import opened Effects

  /** Rows that make no claim and record no try, or were disturbed. */
  ghost predicate SameCount(s: System, after: System, a: Id)
    requires a in s.db.attempts && a in after.db.attempts
  {
    a !in after.past.disturbed ==>
      && after.db.attempts[a].attempts == s.db.attempts[a].attempts
      && (after.db.attempts[a].state == Sending <==> s.db.attempts[a].state == Sending)
  }

  /** No claim is made, and no undisturbed row changes its count. */
  lemma IdleKeepsFrugal(s: System, after: System)
    requires Frugal(s) && after.past.claims == s.past.claims && s.past.disturbed <= after.past.disturbed
    requires forall a :: a in s.db.attempts && a in after.db.attempts ==> SameCount(s, after, a)
    requires forall a :: a in after.db.attempts && a !in s.db.attempts ==>
      after.db.attempts[a].attempts == 0 && after.db.attempts[a].state == Pending && a !in s.past.claims
    requires forall t :: t in after.flights ==> t in s.flights && after.flights[t].row == s.flights[t].row
    requires forall t :: t in after.flights && t.id in after.db.attempts ==> t.id in s.db.attempts
    ensures Frugal(after)
  {
  }

  lemma CreateKeepsFrugal(cfg: Config, s: System, id: Id, e: Event, newIds: map<Id, Channel>, maxAttempts: nat)
    requires Frugal(s) && Known(s)
    ensures Frugal(DoCreate(cfg, s, id, e, newIds, maxAttempts))
  {
  }

  lemma RefreshKeepsFrugal(cfg: Config, s: System, id: Id, severity: Severity, at: Time, newIds: map<Id, Channel>, maxAttempts: nat)
    requires Frugal(s) && Known(s)
    ensures Frugal(DoRefresh(cfg, s, id, severity, at, newIds, maxAttempts))
  {
  }

  lemma ChangeKeepsFrugal(s: System, id: Id, from: EventState, req: Request, notifier: nat, at: Time, links: map<Id, Id>)
    requires Frugal(s) && Known(s)
    ensures Frugal(DoChange(s, id, from, req, notifier, at, links))
  {
    var after := DoChange(s, id, from, req, notifier, at, links);
    ChangeEffect(s, id, from, req, notifier, at, links);
    if after != s {
      var c := Committed(s, id, from, req, notifier, at);
      forall a | a in after.db.attempts && a !in s.db.attempts
        ensures after.db.attempts[a].attempts == 0 && after.db.attempts[a].state == Pending && a !in s.past.usedAttempts
      {
        assert NewRecovery(s, after.db, id, c, links, a);
      }
      forall t | t in after.flights ensures t.id in after.db.attempts ==> t.id in s.db.attempts { assert FlightOk(s, t); }
      IdleKeepsFrugal(s, after);
    }
  }

  lemma ClaimKeepsFrugal(s: System, taken: set<Id>, now: Time)
    requires Frugal(s) && Known(s)
    ensures Frugal(DoClaim(s, taken, now))
  {
    var after := DoClaim(s, taken, now);
    if after != s {
      forall a | a in after.db.attempts ensures FrugalRow(after, a) { assert FrugalRow(s, a); }
      forall t | t in after.flights ensures FrugalFlight(after, t) {
        if t in s.flights { assert FrugalFlight(s, t) && FlightOk(s, t); }
      }
      forall t, u | t in after.flights && u in after.flights && t.id == u.id && t.id in after.db.attempts && t.id !in after.past.disturbed
        ensures t == u
      {
        OneClaim(s, taken, now, t, u);
      }
    }
  }

  /** A row that is due has no worker, so a claim gives it one. */
  lemma OneClaim(s: System, taken: set<Id>, now: Time, t: Token, u: Token)
    requires Frugal(s) && Known(s) && DoClaim(s, taken, now) != s && t.id == u.id && t.id in s.db.attempts && t.id !in s.past.disturbed
    requires t in DoClaim(s, taken, now).flights && u in DoClaim(s, taken, now).flights
    ensures t == u
  {
    if t in s.flights { assert FrugalFlight(s, t) && FlightOk(s, t); }
    if u in s.flights { assert FrugalFlight(s, u) && FlightOk(s, u); }
  }

  lemma RecordKeepsFrugal(cfg: Config, s: System, t: Token, at: Time, retryAt: Time, copyId: Id, recoveryId: Id)
    requires Frugal(s) && Known(s)
    ensures Frugal(DoRecord(cfg, s, t, at, retryAt, copyId, recoveryId))
  {
    var after := DoRecord(cfg, s, t, at, retryAt, copyId, recoveryId);
    RecordEffect(cfg, s, t, at, retryAt, copyId, recoveryId);
    if after != s { RecordedKeepsFrugal(cfg, s, after, t, at, retryAt, copyId, recoveryId); }
  }

  lemma RecordedKeepsFrugal(cfg: Config, s: System, after: System, t: Token, at: Time, retryAt: Time, copyId: Id, recoveryId: Id)
    requires Frugal(s) && Known(s) && t in s.flights && s.flights[t].outcome.Some? && after.flights == s.flights - {t}
    requires after.past.claims == s.past.claims && s.past.disturbed <= after.past.disturbed
    requires s.flights[t].outcome.value == CutShort ==> t.id in after.past.disturbed
    requires copyId !in s.past.usedAttempts && recoveryId !in s.past.usedAttempts
    requires after.db != s.db ==>
      && Lands(s, t) && (forall a :: a in after.db.attempts ==> a in s.db.attempts || a == copyId || a == recoveryId)
      && OnlyMarks(s, after.db, t, at, retryAt) && CopyAdded(cfg, s, after.db, t, at, retryAt, copyId, recoveryId)
    ensures Frugal(after)
  {
    assert FrugalFlight(s, t) && FlightOk(s, t);
    forall a | a in after.db.attempts ensures FrugalRow(after, a) {
      if a in s.db.attempts { assert FrugalRow(s, a); }
    }
    forall u | u in after.flights ensures FrugalFlight(after, u) {
      assert FrugalFlight(s, u) && FlightOk(s, u);
    }
    forall u, v | u in after.flights && v in after.flights && u.id == v.id && u.id in after.db.attempts && u.id !in after.past.disturbed
      ensures u == v
    {
      assert FlightOk(s, u);
    }
  }

  lemma ReapKeepsFrugal(cfg: Config, s: System, staleBefore: Time, at: Time)
    requires Frugal(s)
    ensures Frugal(Next(cfg, s, Reap(staleBefore, at)))
  {
  }

  lemma ReplayKeepsFrugal(s: System, id: Id, at: Time)
    requires Frugal(s)
    ensures Frugal(DoReplay(s, id, at))
  {
  }

  lemma KeepsFrugal(cfg: Config, s: System, step: Step)
    requires Known(s) && Frugal(s)
    ensures Frugal(Next(cfg, s, step))
  {
    match step
    case Create(id, e, newIds, maxAttempts) => CreateKeepsFrugal(cfg, s, id, e, newIds, maxAttempts);
    case Refresh(id, severity, at, newIds, maxAttempts) => RefreshKeepsFrugal(cfg, s, id, severity, at, newIds, maxAttempts);
    case Change(id, from, req, notifier, at, links) => ChangeKeepsFrugal(s, id, from, req, notifier, at, links);
    case ClaimDue(taken, now) => ClaimKeepsFrugal(s, taken, now);
    case Transmit(t, outcome) => IdleKeepsFrugal(s, DoTransmit(s, t, outcome));
    case Record(t, at, retryAt, copyId, recoveryId) => RecordKeepsFrugal(cfg, s, t, at, retryAt, copyId, recoveryId);
    case Lose(_) => IdleKeepsFrugal(s, Next(cfg, s, step));
    case ReplayOne(id, at) => ReplayKeepsFrugal(s, id, at);
    case Reap(staleBefore, at) => ReapKeepsFrugal(cfg, s, staleBefore, at);
    case Expire(batch, cutoff) => IdleKeepsFrugal(s, Next(cfg, s, step));
  }
}
