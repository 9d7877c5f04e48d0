/** Nothing gets stuck: whatever has happened, an attempt can still be delivered
    unless it was cancelled. */
module Progress {
  import opened Domain
  import opened Tables
  import opened Protocol
  import opened Invariants
  import opened Effects
  import opened Identifiers
  import opened Outcomes
  import opened Delivery

  /** The steps `more` end with attempt `a` sent. */
  ghost predicate GetsSent(cfg: Config, s: System, a: Id, more: seq<Step>) {
    var m := Run(cfg, s, more).db.attempts;
    a in m && m[a].state == Sent
  }

  /** Row `r` is a recovery that is not cancelled. */
  ghost predicate LiveRecovery(db: Db, r: Id) {
    r in db.attempts && db.attempts[r].kind == Recovery && db.attempts[r].state != Cancelled
  }

  /** No recovery is lost or cancelled, and each still follows the same alert. */
  ghost predicate KeepsRecoveries(db: Db, after: Db) {
    forall r :: LiveRecovery(db, r) ==> LiveRecovery(after, r) && after.attempts[r].recoveryFor == db.attempts[r].recoveryFor
  }

  /** A step, and then a run that ends with the attempt sent. */
  lemma Then(cfg: Config, s: System, step: Step, a: Id, rest: seq<Step>)
    requires var mid := Next(cfg, s, step);
      KeepsRecoveries(s.db, mid.db) && GetsSent(cfg, mid, a, rest) && KeepsRecoveries(mid.db, Run(cfg, mid, rest).db)
    ensures GetsSent(cfg, s, a, [step] + rest) && KeepsRecoveries(s.db, Run(cfg, s, [step] + rest).db)
  {
    assert ([step] + rest)[1..] == rest;
  }

  lemma RecordSends(cfg: Config, s: System, t: Token, copyId: Id)
    requires Known(s) && Links(cfg, s.db) && Lands(s, t) && s.flights[t].outcome == Some(Delivered)
    requires copyId !in s.past.usedAttempts && copyId + 1 !in s.past.usedAttempts
    ensures var after := Next(cfg, s, Record(t, 0, 0, copyId, copyId + 1)).db;
      t.id in after.attempts && after.attempts[t.id].state == Sent && KeepsRecoveries(s.db, after)
  {
    RecordOutcome(cfg, s, t, 0, 0, copyId, copyId + 1);
  }

  /** A result that reaches its row can be recorded. */
  lemma RecordIt(cfg: Config, s: System, t: Token) returns (more: seq<Step>)
    requires Known(s) && Links(cfg, s.db) && Lands(s, t) && s.flights[t].outcome == Some(Delivered)
    ensures GetsSent(cfg, s, t.id, more) && KeepsRecoveries(s.db, Run(cfg, s, more).db)
  {
    var bound := BoundOf(s.past.usedAttempts);
    var record := Record(t, 0, 0, bound, bound + 1);
    RecordSends(cfg, s, t, bound);
    Then(cfg, s, record, t.id, []);
    more := [record] + [];
  }

  lemma TransmitLands(cfg: Config, s: System, t: Token)
    requires t in s.flights && s.flights[t].outcome.None? && t.id in s.db.attempts && s.db.attempts[t.id].state == Sending
    ensures var after := Next(cfg, s, Transmit(t, Delivered)); after.db == s.db && Lands(after, t) && after.flights[t].outcome == Some(Delivered)
  {
  }

  lemma SendClaimed(cfg: Config, s: System, t: Token) returns (more: seq<Step>)
    requires ValidConfig(cfg) && Inv(cfg, s) && t in s.flights && s.flights[t].outcome.None?
    requires t.id in s.db.attempts && s.db.attempts[t.id].state == Sending
    ensures GetsSent(cfg, s, t.id, more) && KeepsRecoveries(s.db, Run(cfg, s, more).db)
  {
    var send := Transmit(t, Delivered);
    TransmitLands(cfg, s, t);
    StepKeepsInv(cfg, s, send);
    var rest := RecordIt(cfg, Next(cfg, s, send), t);
    Then(cfg, s, send, t.id, rest);
    more := [send] + rest;
  }

  lemma ClaimTakes(cfg: Config, s: System, a: Id, now: Time)
    requires Links(cfg, s.db) && a in s.db.attempts && Due(s.db, a, now)
    ensures var after, t := Next(cfg, s, ClaimDue({a}, now)), Token(s.past.batches, a);
      && t in after.flights && after.flights[t].outcome.None? && a in after.db.attempts && after.db.attempts[a].state == Sending
      && KeepsRecoveries(s.db, after.db)
  {
    ClaimedIffDue(cfg, s, a, now);
  }

  /** What is due can be claimed, delivered and recorded as sent. */
  lemma SendDue(cfg: Config, s: System, a: Id, now: Time) returns (more: seq<Step>)
    requires ValidConfig(cfg) && Inv(cfg, s) && a in s.db.attempts && Due(s.db, a, now)
    ensures GetsSent(cfg, s, a, more) && KeepsRecoveries(s.db, Run(cfg, s, more).db)
  {
    var claim := ClaimDue({a}, now);
    ClaimTakes(cfg, s, a, now);
    StepKeepsInv(cfg, s, claim);
    var rest := SendClaimed(cfg, Next(cfg, s, claim), Token(s.past.batches, a));
    Then(cfg, s, claim, a, rest);
    more := [claim] + rest;
  }

  /** The time from which a queued row may be tried. */
  function ReadyAt(x: Attempt): Time {
    if x.nextRetryAt.Some? then x.nextRetryAt.value else 0
  }

  /** A row that needs nothing but its own turn: an alert, or a recovery whose
      alert is sent. */
  ghost predicate Free(db: Db, a: Id) {
    a in db.attempts && (db.attempts[a].kind == Recovery ==> AlertIsSent(db, db.attempts[a]))
  }

  lemma ReplayQueues(cfg: Config, s: System, a: Id)
    requires Free(s.db, a) && s.db.attempts[a].state == DeadLetter
    ensures var after := Next(cfg, s, ReplayOne(a, 0)).db;
      Free(after, a) && after.attempts[a].state == Pending && KeepsRecoveries(s.db, after)
  {
    ReplayOutcome(cfg, s, a, 0);
  }

  lemma ReapKeepsRecoveries(cfg: Config, s: System, staleBefore: Time, at: Time)
    requires Links(cfg, s.db)
    ensures KeepsRecoveries(s.db, Next(cfg, s, Reap(staleBefore, at)).db)
  {
    forall r | LiveRecovery(s.db, r)
      ensures LiveRecovery(Next(cfg, s, Reap(staleBefore, at)).db, r)
      ensures Next(cfg, s, Reap(staleBefore, at)).db.attempts[r].recoveryFor == s.db.attempts[r].recoveryFor
    {
      ReapOutcome(cfg, s, staleBefore, at, r);
    }
  }

  lemma ReapFrees(cfg: Config, s: System, a: Id)
    requires Links(cfg, s.db) && Free(s.db, a) && s.db.attempts[a].state == Sending && !MutedAlert(s.db, s.db.attempts[a])
    ensures var after := Next(cfg, s, Reap(s.db.attempts[a].updatedAt + 1, 0)).db;
      Free(after, a) && after.attempts[a].state == Pending && KeepsRecoveries(s.db, after)
  {
    var limit := s.db.attempts[a].updatedAt + 1;
    ReapOutcome(cfg, s, limit, 0, a);
    ReapKeepsRecoveries(cfg, s, limit, 0);
    if s.db.attempts[a].kind == Recovery { ReapOutcome(cfg, s, limit, 0, s.db.attempts[a].recoveryFor.value); }
  }

  lemma CloseFrees(cfg: Config, s: System, a: Id)
    requires Free(s.db, a) && MutedAlert(s.db, s.db.attempts[a])
    ensures var after := Next(cfg, s, Change(s.db.attempts[a].eventId, Muted, SourceResolve, 0, 0, map[])).db;
      after.attempts == s.db.attempts && !MutedAlert(after, after.attempts[a])
  {
  }

  /** What to do first for a row that is not in the queue: close the incident that
      mutes its send, take back a send nobody will finish, or replay a dead letter. */
  function FirstStep(db: Db, a: Id): Step
    requires a in db.attempts
  {
    var x := db.attempts[a];
    if x.state == DeadLetter then ReplayOne(a, 0)
    else if MutedAlert(db, x) then Change(x.eventId, Muted, SourceResolve, 0, 0, map[])
    else Reap(x.updatedAt + 1, 0)
  }

  /** How many steps a row is away from the queue. */
  function Away(db: Db, a: Id): nat
    requires a in db.attempts
  {
    var x := db.attempts[a];
    if x.state == DeadLetter then 1 else if x.state != Sending then 0 else if MutedAlert(db, x) then 2 else 1
  }

  lemma Nearer(cfg: Config, s: System, a: Id)
    requires Links(cfg, s.db) && Free(s.db, a) && s.db.attempts[a].state in {Sending, DeadLetter}
    ensures var after := Next(cfg, s, FirstStep(s.db, a)).db;
      Free(after, a) && after.attempts[a].state in {Pending, Sending} && Away(after, a) < Away(s.db, a) && KeepsRecoveries(s.db, after)
  {
    if s.db.attempts[a].state == DeadLetter { ReplayQueues(cfg, s, a); }
    else if MutedAlert(s.db, s.db.attempts[a]) { CloseFrees(cfg, s, a); }
    else { ReapFrees(cfg, s, a); }
  }

  lemma {:induction false} SendFree(cfg: Config, s: System, a: Id) returns (more: seq<Step>)
    requires ValidConfig(cfg) && Inv(cfg, s) && Free(s.db, a) && s.db.attempts[a].state != Cancelled
    ensures GetsSent(cfg, s, a, more) && KeepsRecoveries(s.db, Run(cfg, s, more).db)
    decreases Away(s.db, a)
  {
    if s.db.attempts[a].state == Sent {
      more := [];
    } else if s.db.attempts[a].state in {Pending, Failed} {
      more := SendDue(cfg, s, a, ReadyAt(s.db.attempts[a]));
    } else {
      var step := FirstStep(s.db, a);
      Nearer(cfg, s, a);
      StepKeepsInv(cfg, s, step);
      var rest := SendFree(cfg, Next(cfg, s, step), a);
      Then(cfg, s, step, a, rest);
      more := [step] + rest;
    }
  }

  /** A recovery goes out after its alert, which was not cancelled. */
  lemma SendRecovery(cfg: Config, s: System, r: Id) returns (more: seq<Step>)
    requires ValidConfig(cfg) && Inv(cfg, s) && LiveRecovery(s.db, r)
    ensures GetsSent(cfg, s, r, more)
  {
    assert LinkOk(cfg, s.db, r) && RecoveryRowOk(s, r);
    var a := s.db.attempts[r].recoveryFor.value;
    assert RecoveryRowOk(s, a) && HasRecovery(s.db.attempts, a);
    var first := SendFree(cfg, s, a);
    var mid := Run(cfg, s, first);
    RunKeepsInv(cfg, s, first);
    var second := SendFree(cfg, mid, r);
    more := first + second;
    RunInTwo(cfg, s, more, |first|);
    assert more[..|first|] == first && more[|first|..] == second;
  }

  /** In every reachable state, an attempt can still be delivered if and only if
      it is not cancelled: no series of crashes, lost results, dead letters, mutes
      and closes leaves any other attempt without a way out. */
  lemma DeliverableIffNotCancelled(cfg: Config, steps: seq<Step>, a: Id)
    requires ValidConfig(cfg) && a in Run(cfg, INIT, steps).db.attempts
    ensures var s := Run(cfg, INIT, steps);
      (exists more :: GetsSent(cfg, s, a, more)) <==> s.db.attempts[a].state != Cancelled
  {
    Reachable(cfg, steps);
    var s := Run(cfg, INIT, steps);
    if s.db.attempts[a].state != Cancelled {
      var more;
      if s.db.attempts[a].kind == Recovery { more := SendRecovery(cfg, s, a); } else { more := SendFree(cfg, s, a); }
      assert GetsSent(cfg, s, a, more);
    } else {
      forall more ensures !GetsSent(cfg, s, a, more) { RunSettles(cfg, s, more); }
    }
  }
}
