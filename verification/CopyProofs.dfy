/** Every step keeps a copy for each dead letter that can be redirected. */
module CopyProofs {
  import opened Domain
  import opened Tables
  import opened Protocol
  import opened Invariants
  import opened Effects

  /** Rows keep their jobs, and no row dies. */
  lemma NoneDies(cfg: Config, m: map<Id, Attempt>, db: Db, after: Db)
    requires Redirected(cfg, db) && db.attempts == m
    requires forall a :: a in m ==> a in after.attempts && after.attempts[a].SameJob(m[a])
    requires forall a :: a in after.attempts && after.attempts[a].state == DeadLetter ==> a in m && m[a].state == DeadLetter
    ensures Redirected(cfg, after)
  {
    forall a | a in after.attempts && after.attempts[a].state == DeadLetter && Redirectable(cfg, after.attempts[a])
      ensures HasCopy(after.attempts, a)
    {
      var f :| f in m && m[f].fallbackOf == Some(a);
      assert after.attempts[f].fallbackOf == Some(a);
    }
  }

  lemma CreateKeepsRedirected(cfg: Config, s: System, id: Id, e: Event, newIds: map<Id, Channel>, maxAttempts: nat)
    requires Redirected(cfg, s.db)
    ensures Redirected(cfg, DoCreate(cfg, s, id, e, newIds, maxAttempts).db)
  {
    NoneDies(cfg, s.db.attempts, s.db, DoCreate(cfg, s, id, e, newIds, maxAttempts).db);
  }

  lemma ReapKeepsRedirected(cfg: Config, db: Db, staleBefore: Time, at: Time)
    requires Redirected(cfg, db)
    ensures Redirected(cfg, RequeueStuckSending(db, staleBefore, at))
  {
    NoneDies(cfg, db.attempts, db, RequeueStuckSending(db, staleBefore, at));
  }

  lemma ClaimKeepsRedirected(cfg: Config, s: System, taken: set<Id>, now: Time)
    requires Redirected(cfg, s.db)
    ensures Redirected(cfg, DoClaim(s, taken, now).db)
  {
    NoneDies(cfg, s.db.attempts, s.db, DoClaim(s, taken, now).db);
  }

  lemma ReplayKeepsRedirected(cfg: Config, s: System, id: Id, at: Time)
    requires Redirected(cfg, s.db)
    ensures Redirected(cfg, DoReplay(s, id, at).db)
  {
    NoneDies(cfg, s.db.attempts, s.db, DoReplay(s, id, at).db);
  }

  lemma RefreshKeepsRedirected(cfg: Config, s: System, id: Id, severity: Severity, at: Time, newIds: map<Id, Channel>, maxAttempts: nat)
    requires Redirected(cfg, s.db) && Known(s)
    ensures Redirected(cfg, DoRefresh(cfg, s, id, severity, at, newIds, maxAttempts).db)
  {
    var after := DoRefresh(cfg, s, id, severity, at, newIds, maxAttempts);
    RefreshEffect(cfg, s, id, severity, at, newIds, maxAttempts);
    if after != s { NoneDies(cfg, s.db.attempts, s.db, after.db); }
  }

  lemma ChangeKeepsRedirected(cfg: Config, s: System, id: Id, from: EventState, req: Request, notifier: nat, at: Time, links: map<Id, Id>)
    requires Redirected(cfg, s.db) && Known(s)
    ensures Redirected(cfg, DoChange(s, id, from, req, notifier, at, links).db)
  {
    var after := DoChange(s, id, from, req, notifier, at, links);
    ChangeEffect(s, id, from, req, notifier, at, links);
    if after != s {
      var c := Committed(s, id, from, req, notifier, at);
      forall a | a in after.db.attempts && a !in s.db.attempts ensures after.db.attempts[a].state == Pending {
        assert NewRecovery(s, after.db, id, c, links, a);
      }
      NoneDies(cfg, s.db.attempts, s.db, after.db);
    }
  }

  /** The write of a dead letter brings its copy along. */
  lemma RecordKeepsRedirected(cfg: Config, s: System, t: Token, at: Time, retryAt: Time, copyId: Id, recoveryId: Id)
    requires Redirected(cfg, s.db) && Known(s) && Links(cfg, s.db)
    ensures Redirected(cfg, DoRecord(cfg, s, t, at, retryAt, copyId, recoveryId).db)
  {
    var after := DoRecord(cfg, s, t, at, retryAt, copyId, recoveryId);
    RecordEffect(cfg, s, t, at, retryAt, copyId, recoveryId);
    if after.db != s.db {
      forall a | a in after.db.attempts && after.db.attempts[a].state == DeadLetter && Redirectable(cfg, after.db.attempts[a])
        ensures HasCopy(after.db.attempts, a)
      {
        if a == t.id {
          DeadLetterIsCopied(cfg, s, t, at, retryAt, copyId, recoveryId);
        } else {
          var f :| f in s.db.attempts && s.db.attempts[f].fallbackOf == Some(a);
          assert after.db.attempts[f].fallbackOf == Some(a);
        }
      }
    }
  }

  lemma DeadLetterIsCopied(cfg: Config, s: System, t: Token, at: Time, retryAt: Time, copyId: Id, recoveryId: Id)
    requires Known(s) && Links(cfg, s.db) && Lands(s, t)
    requires DoRecord(cfg, s, t, at, retryAt, copyId, recoveryId).db != s.db
    requires StoredRow(s, t, at, retryAt).state == DeadLetter && Redirectable(cfg, s.db.attempts[t.id])
    ensures HasCopy(DoRecord(cfg, s, t, at, retryAt, copyId, recoveryId).db.attempts, t.id)
  {
    var after := DoRecord(cfg, s, t, at, retryAt, copyId, recoveryId).db;
    assert FlightOk(s, t);
    var stored, x := StoredRow(s, t, at, retryAt), s.flights[t].row;
    var marked := s.db.(attempts := s.db.attempts[t.id := stored]);
    var copy := FallbackFor(cfg, x, ReportFor(x, s.flights[t].outcome.value, at, retryAt), copyId, recoveryId);
    FallbackEffect(marked, t.id, copy.value);
    if HasCopy(marked.attempts, t.id) {
      var f :| f in marked.attempts && marked.attempts[f].fallbackOf == Some(t.id);
      assert after.attempts[f].fallbackOf == Some(t.id);
    } else {
      assert after.attempts[copyId].fallbackOf == Some(t.id);
    }
  }

  /** Retention takes a dead letter together with its copy. */
  lemma ExpireKeepsRedirected(cfg: Config, db: Db, batch: set<Id>, cutoff: Time)
    requires Redirected(cfg, db) && Links(cfg, db)
    ensures Redirected(cfg, DeleteEvents(db, batch, cutoff))
  {
    var m, n := db.attempts, DeleteEvents(db, batch, cutoff).attempts;
    forall a | a in n && n[a].state == DeadLetter && Redirectable(cfg, n[a]) ensures HasCopy(n, a) {
      var f :| f in m && m[f].fallbackOf == Some(a);
      assert LinkOk(cfg, db, f);
      assert n[f].fallbackOf == Some(a);
    }
  }

  lemma KeepsRedirected(cfg: Config, s: System, step: Step)
    requires Links(cfg, s.db) && Known(s) && Redirected(cfg, s.db)
    ensures Redirected(cfg, Next(cfg, s, step).db)
  {
    match step
    case Create(id, e, newIds, maxAttempts) => CreateKeepsRedirected(cfg, s, id, e, newIds, maxAttempts);
    case Refresh(id, severity, at, newIds, maxAttempts) => RefreshKeepsRedirected(cfg, s, id, severity, at, newIds, maxAttempts);
    case Change(id, from, req, notifier, at, links) => ChangeKeepsRedirected(cfg, s, id, from, req, notifier, at, links);
    case ClaimDue(taken, now) => ClaimKeepsRedirected(cfg, s, taken, now);
    case Transmit(_, _) =>
    case Record(t, at, retryAt, copyId, recoveryId) => RecordKeepsRedirected(cfg, s, t, at, retryAt, copyId, recoveryId);
    case Lose(_) =>
    case ReplayOne(id, at) => ReplayKeepsRedirected(cfg, s, id, at);
    case Reap(staleBefore, at) => ReapKeepsRedirected(cfg, s.db, staleBefore, at);
    case Expire(batch, cutoff) => ExpireKeepsRedirected(cfg, s.db, batch, cutoff);
  }
}
