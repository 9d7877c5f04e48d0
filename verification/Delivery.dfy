/** The promises of the delivery protocol, over every run from an empty store:
    any interleaving of requests, workers, stale workers, the reaper, replays
    and retention. */
module Delivery {
  import opened Domain
  import opened Tables
  import opened Protocol
  import opened Invariants
  import opened Effects
  import opened LinkProofs
  import opened RowProofs
  import opened RecoveryProofs
  import opened OrderProofs
  import opened ClaimProofs
  import opened CopyProofs
  import opened OnceProofs
  import opened Finality
  import opened Outcomes

  // --- Reachable states --------------------------------------------------------------------

  lemma StepKeepsInv(cfg: Config, s: System, step: Step)
    requires ValidConfig(cfg) && Inv(cfg, s)
    ensures Inv(cfg, Next(cfg, s, step))
  {
    KeepsLinks(cfg, s, step);
    KeepsKnown(cfg, s, step);
    KeepsAccounts(cfg, s, step);
    KeepsQuiet(cfg, s, step);
    KeepsOpenOnce(cfg, s, step);
    KeepsExact(cfg, s, step);
    KeepsOrdered(cfg, s, step);
    KeepsFrugal(cfg, s, step);
    KeepsRedirected(cfg, s, step);
    KeepsSentOnce(cfg, s, step);
  }

  lemma {:induction false} RunKeepsInv(cfg: Config, s: System, steps: seq<Step>)
    requires ValidConfig(cfg) && Inv(cfg, s)
    ensures Inv(cfg, Run(cfg, s, steps))
    decreases |steps|
  {
    if steps != [] {
      StepKeepsInv(cfg, s, steps[0]);
      RunKeepsInv(cfg, Next(cfg, s, steps[0]), steps[1..]);
    }
  }

  /** Every reachable state satisfies every invariant. */
  lemma Reachable(cfg: Config, steps: seq<Step>)
    requires ValidConfig(cfg)
    ensures Inv(cfg, Run(cfg, INIT, steps))
  {
    RunKeepsInv(cfg, INIT, steps);
  }

  // --- Exact recoveries ---------------------------------------------------------------------

  function RecoveriesOf(db: Db, e: Id): set<Id> {
    set r | r in db.attempts && db.attempts[r].eventId == e && db.attempts[r].kind == Recovery
  }

  /** `recovery_for` maps the recoveries of `e` one to one onto its alerts that
      were not cancelled, each on the channel of its alert. */
  ghost predicate RecoveriesMatchAlerts(db: Db, e: Id) {
    && (forall r :: r in RecoveriesOf(db, e) ==> db.attempts[r].recoveryFor.Some?)
    && (forall r :: r in RecoveriesOf(db, e) ==> db.attempts[r].recoveryFor.value in AlertsToRecover(db.attempts, e))
    && (forall r :: r in RecoveriesOf(db, e) ==> db.attempts[db.attempts[r].recoveryFor.value].channel == db.attempts[r].channel)
    && (forall r, q :: r in RecoveriesOf(db, e) && q in RecoveriesOf(db, e) && r != q ==>
          db.attempts[r].recoveryFor != db.attempts[q].recoveryFor)
    && (forall a :: a in AlertsToRecover(db.attempts, e) ==> exists r :: r in RecoveriesOf(db, e) && db.attempts[r].recoveryFor == Some(a))
  }

  /** In every reachable state an event closed with notices has exactly one
      recovery for each of its alerts that was not cancelled, copies queued
      after the close included; every other event has none. */
  lemma RecoveriesAreExact(cfg: Config, steps: seq<Step>, e: Id)
    requires ValidConfig(cfg)
    ensures var s := Run(cfg, INIT, steps);
      if Notifies(s, e) then RecoveriesMatchAlerts(s.db, e) else RecoveriesOf(s.db, e) == {}
  {
    Reachable(cfg, steps);
    var s := Run(cfg, INIT, steps);
    if Notifies(s, e) {
      RecoveriesMatch(cfg, s, e);
    } else {
      forall r | r in s.db.attempts && s.db.attempts[r].eventId == e ensures s.db.attempts[r].kind == Alert {
        assert RecoveryRowOk(s, r);
      }
    }
  }

  lemma RecoveriesMatch(cfg: Config, s: System, e: Id)
    requires Links(cfg, s.db) && Exact(s) && Notifies(s, e)
    ensures RecoveriesMatchAlerts(s.db, e)
  {
  }

  // --- Final states ----------------------------------------------------------------------------

  lemma {:induction false} RunSettles(cfg: Config, s: System, steps: seq<Step>)
    requires ValidConfig(cfg) && Inv(cfg, s)
    ensures Settled(s, Run(cfg, s, steps))
    decreases |steps|
  {
    if steps != [] {
      var mid := Next(cfg, s, steps[0]);
      StepSettles(cfg, s, steps[0]);
      StepKeepsInv(cfg, s, steps[0]);
      RunSettles(cfg, mid, steps[1..]);
      SettledTransitive(s, mid, Run(cfg, mid, steps[1..]));
    }
  }

  /** Whatever happens later, a closed event stays closed as it was, an attempt
      sent or cancelled stays so, and an event keeps its type, source and key,
      for as long as retention keeps the rows. */
  lemma SettledForGood(cfg: Config, steps: seq<Step>, more: seq<Step>)
    requires ValidConfig(cfg)
    ensures Settled(Run(cfg, INIT, steps), Run(cfg, INIT, steps + more))
  {
    Reachable(cfg, steps);
    RunInTwo(cfg, INIT, steps + more, |steps|);
    assert (steps + more)[..|steps|] == steps && (steps + more)[|steps|..] == more;
    RunSettles(cfg, Run(cfg, INIT, steps), more);
  }

  /** A step closes event `e`, which was open until then. */
  ghost predicate Closes(cfg: Config, s: System, step: Step, e: Id) {
    var after := Next(cfg, s, step);
    && step.Change? && step.id == e && e in s.db.events && s.db.events[e].state != Resolved
    && e in after.db.events && after.db.events[e].state == Resolved
  }

  lemma QuietClose(cfg: Config, s: System, step: Step, e: Id)
    requires Known(s) && Links(cfg, s.db) && Exact(s)
    requires Closes(cfg, s, step, e) && (s.db.events[e].state == Muted || s.db.events[e].typ != Incident || step.notifier == 0)
    ensures var after := Next(cfg, s, step);
      after.db.attempts.Keys == s.db.attempts.Keys && e in after.past.closedWith && after.past.closedWith[e] == 0
  {
    ChangeOutcomeHolds(cfg, s, step.id, step.from, step.req, step.notifier, step.at, step.links);
    ChangeEffect(s, step.id, step.from, step.req, step.notifier, step.at, step.links);
  }

  lemma LoudClose(cfg: Config, s: System, step: Step, e: Id, a: Id)
    requires Known(s) && Links(cfg, s.db) && Exact(s) && Closes(cfg, s, step, e)
    requires s.db.events[e].state != Muted && s.db.events[e].typ == Incident && step.notifier > 0 && a in s.db.attempts && Owed(s.db.attempts[a], e)
    ensures Announced(s.db, Next(cfg, s, step).db, a, step.notifier)
  {
    ChangeOutcomeHolds(cfg, s, step.id, step.from, step.req, step.notifier, step.at, step.links);
  }

  /** Closing an event that is muted, is no incident, or with notices switched off
      adds no row, and the event has no recovery in any later state. */
  lemma ClosedQuietlyStaysQuiet(cfg: Config, steps: seq<Step>, step: Step, more: seq<Step>, e: Id)
    requires ValidConfig(cfg)
    requires var s := Run(cfg, INIT, steps);
      Closes(cfg, s, step, e) && (s.db.events[e].state == Muted || s.db.events[e].typ != Incident || step.notifier == 0)
    ensures Next(cfg, Run(cfg, INIT, steps), step).db.attempts.Keys == Run(cfg, INIT, steps).db.attempts.Keys
    ensures RecoveriesOf(Run(cfg, INIT, steps + [step] + more).db, e) == {}
  {
    var s, upTo := Run(cfg, INIT, steps), steps + [step];
    Reachable(cfg, steps);
    QuietClose(cfg, s, step, e);
    RunInTwo(cfg, INIT, upTo, |steps|);
    assert upTo[..|steps|] == steps && upTo[|steps|..] == [step];
    SettledForGood(cfg, upTo, more);
    RecoveriesAreExact(cfg, upTo + more, e);
  }

  /** Closing an incident that is not muted, with notices on, gives each of its
      alerts that is not cancelled an untried recovery with that many tries. */
  lemma ClosingTellsEveryAlert(cfg: Config, steps: seq<Step>, step: Step, e: Id, a: Id)
    requires ValidConfig(cfg)
    requires var s := Run(cfg, INIT, steps);
      && Closes(cfg, s, step, e) && s.db.events[e].state != Muted && s.db.events[e].typ == Incident && step.notifier > 0
      && a in s.db.attempts && s.db.attempts[a].eventId == e && s.db.attempts[a].kind == Alert && s.db.attempts[a].state != Cancelled
    ensures var s, after := Run(cfg, INIT, steps), Next(cfg, Run(cfg, INIT, steps), step);
      exists r :: r in after.db.attempts && r !in s.db.attempts && IsRecoveryOf(after.db.attempts[r], a, s.db.attempts[a], step.notifier)
  {
    Reachable(cfg, steps);
    LoudClose(cfg, Run(cfg, INIT, steps), step, e, a);
  }

  // --- No "resolved" before "down" ---------------------------------------------------------------

  /** Every message of a recovery, even one that failed, was transmitted after
      its own alert had been delivered. */
  lemma DownBeforeResolved(cfg: Config, steps: seq<Step>, i: nat)
    requires ValidConfig(cfg)
    requires var log := Run(cfg, INIT, steps).log; i < |log| && log[i].kind == Recovery
    ensures var log := Run(cfg, INIT, steps).log;
      exists j :: 0 <= j < i && log[j].kind == Alert && log[j].delivered && log[i].recoveryFor == Some(log[j].id)
  {
    Reachable(cfg, steps);
    var log := Run(cfg, INIT, steps).log;
    assert DeliveredIn(log[..i], log[i].recoveryFor.value, Alert);
    var j :| 0 <= j < |log[..i]| && log[..i][j].id == log[i].recoveryFor.value && log[..i][j].kind == Alert && log[..i][j].delivered;
    assert log[j] == log[..i][j];
  }

  /** A recovery that was ever claimed has an alert that is sent, and stays sent
      for as long as it is kept. */
  lemma ClaimedRecoveryFollowsSentAlert(cfg: Config, steps: seq<Step>, more: seq<Step>, r: Id)
    requires ValidConfig(cfg)
    requires var s := Run(cfg, INIT, steps);
      r in s.db.attempts && s.db.attempts[r].kind == Recovery && (s.db.attempts[r].state != Pending || r in s.past.claims)
    ensures var s, later := Run(cfg, INIT, steps), Run(cfg, INIT, steps + more);
      s.db.attempts[r].recoveryFor.Some? &&
      var a := s.db.attempts[r].recoveryFor.value;
      a in s.db.attempts && s.db.attempts[a].kind == Alert && s.db.attempts[a].state == Sent &&
      (a in later.db.attempts ==> later.db.attempts[a].state == Sent)
  {
    Reachable(cfg, steps);
    var s := Run(cfg, INIT, steps);
    assert OrderedRow(s, r) && LinkOk(cfg, s.db, r);
    SettledForGood(cfg, steps, more);
  }

  // --- Mute ------------------------------------------------------------------------------------------

  /** A muted event has no failed alert, and its only queued alerts are those an
      operator replayed after the mute. */
  lemma MuteIsQuiet(cfg: Config, steps: seq<Step>, a: Id)
    requires ValidConfig(cfg)
    requires var s := Run(cfg, INIT, steps); a in s.db.attempts && MutedAlert(s.db, s.db.attempts[a])
    ensures var s := Run(cfg, INIT, steps);
      s.db.attempts[a].state != Failed && (s.db.attempts[a].state == Pending ==> a in s.past.replayed)
  {
    Reachable(cfg, steps);
    assert QuietRow(Run(cfg, INIT, steps).db, Run(cfg, INIT, steps).past.replayed, a);
  }

  /** A worker never takes an alert of a muted event, but for a replayed one. */
  lemma MutedAlertsAreNotClaimed(cfg: Config, steps: seq<Step>, taken: set<Id>, now: Time, a: Id)
    requires ValidConfig(cfg)
    requires var s := Run(cfg, INIT, steps);
      a in taken && a in s.db.attempts && MutedAlert(s.db, s.db.attempts[a]) && Next(cfg, s, ClaimDue(taken, now)) != s
    ensures a in Run(cfg, INIT, steps).past.replayed
  {
    Reachable(cfg, steps);
    var s := Run(cfg, INIT, steps);
    assert QuietRow(s.db, s.past.replayed, a);
    assert Deliverable(s.db.attempts, a, now);
  }

  // --- Accounting ---------------------------------------------------------------------------------------

  /** The account of every attempt is consistent, whoever wrote it last. */
  lemma AccountsAreConsistent(cfg: Config, steps: seq<Step>, a: Id)
    requires ValidConfig(cfg)
    requires a in Run(cfg, INIT, steps).db.attempts
    ensures AccountOk(Run(cfg, INIT, steps).db.attempts[a])
  {
    Reachable(cfg, steps);
  }

  /** Left alone by the reaper, shutdowns and operators, an attempt is claimed
      no more often than it may be tried. */
  lemma ClaimsAreBounded(cfg: Config, steps: seq<Step>, a: Id)
    requires ValidConfig(cfg)
    requires var s := Run(cfg, INIT, steps); a in s.db.attempts && a !in s.past.disturbed
    ensures var s := Run(cfg, INIT, steps); ClaimsOf(s.past.claims, a) <= s.db.attempts[a].maxAttempts
  {
    Reachable(cfg, steps);
    var s := Run(cfg, INIT, steps);
    assert FrugalRow(s, a) && AccountOk(s.db.attempts[a]);
  }

  // --- Fallback -------------------------------------------------------------------------------------------

  /** A copy redirects a direct alert of its event from another channel, and is
      its only copy. */
  lemma CopiesFormAForest(cfg: Config, steps: seq<Step>, f: Id)
    requires ValidConfig(cfg)
    requires var m := Run(cfg, INIT, steps).db.attempts; f in m && m[f].IsFallback()
    ensures var m := Run(cfg, INIT, steps).db.attempts; var a := m[f].fallbackOf.value;
      && m[f].kind == Alert && a in m && m[a].IsDirect() && m[a].eventId == m[f].eventId && m[a].channel != m[f].channel
      && (forall g :: g in m && m[g].fallbackOf == Some(a) ==> g == f)
  {
    Reachable(cfg, steps);
    var db := Run(cfg, INIT, steps).db;
    assert LinkOk(cfg, db, f);
    forall g | g in db.attempts && g != f ensures db.attempts[g].fallbackOf != db.attempts[f].fallbackOf {
      assert !SharesLink(db.attempts[f], db.attempts[g]);
    }
  }

  /** A copy appears only together with the dead letter of its source, and never
      while the event is muted. */
  lemma CopiesComeFromDeadLetters(cfg: Config, steps: seq<Step>, step: Step, f: Id)
    requires ValidConfig(cfg)
    requires var s, after := Run(cfg, INIT, steps), Next(cfg, Run(cfg, INIT, steps), step);
      f !in s.db.attempts && f in after.db.attempts && after.db.attempts[f].IsFallback()
    ensures var s, after := Run(cfg, INIT, steps), Next(cfg, Run(cfg, INIT, steps), step);
      var a := after.db.attempts[f].fallbackOf.value;
      && a in s.db.attempts && s.db.attempts[a].state == Sending
      && a in after.db.attempts && after.db.attempts[a].state == DeadLetter
      && !MutedAlert(after.db, after.db.attempts[a])
  {
    Reachable(cfg, steps);
    NewCopyIsRecorded(cfg, Run(cfg, INIT, steps), step, f);
  }

  lemma NewCopyIsRecorded(cfg: Config, s: System, step: Step, f: Id)
    requires Known(s) && f !in s.db.attempts
    requires var after := Next(cfg, s, step); f in after.db.attempts && after.db.attempts[f].IsFallback()
    ensures var after := Next(cfg, s, step); var a := after.db.attempts[f].fallbackOf.value;
      && a in s.db.attempts && s.db.attempts[a].state == Sending
      && a in after.db.attempts && after.db.attempts[a].state == DeadLetter
      && !MutedAlert(after.db, after.db.attempts[a])
  {
    if step.Refresh? {
      RefreshEffect(cfg, s, step.id, step.severity, step.at, step.newIds, step.maxAttempts);
    } else if step.Change? {
      ChangeEffect(s, step.id, step.from, step.req, step.notifier, step.at, step.links);
    } else if step.Record? {
      RecordEffect(cfg, s, step.token, step.at, step.retryAt, step.copyId, step.recoveryId);
    }
  }

  /** Every dead letter of a direct alert whose channel names a fallback has been
      copied there: nobody is left unalerted for want of a copy. */
  lemma DeadLettersAreRedirected(cfg: Config, steps: seq<Step>, a: Id)
    requires ValidConfig(cfg)
    requires var m := Run(cfg, INIT, steps).db.attempts;
      a in m && m[a].IsDirect() && m[a].state == DeadLetter && m[a].channel in cfg.fallbacks
    ensures var m := Run(cfg, INIT, steps).db.attempts;
      exists f :: f in m && m[f].fallbackOf == Some(a) && m[f].kind == Alert && m[f].eventId == m[a].eventId && m[f].channel != m[a].channel
  {
    Reachable(cfg, steps);
    var db := Run(cfg, INIT, steps).db;
    assert HasCopy(db.attempts, a);
    var f :| f in db.attempts && db.attempts[f].fallbackOf == Some(a);
    CopiesFormAForest(cfg, steps, f);
  }

  // --- One delivery ---------------------------------------------------------------------------------------

  /** After an attempt has arrived it is not transmitted again, unless the reaper
      took it back, a shutdown handed it back, or an operator replayed it. */
  lemma DeliveredOnce(cfg: Config, steps: seq<Step>, i: nat, j: nat)
    requires ValidConfig(cfg)
    requires var log := Run(cfg, INIT, steps).log; i < j < |log| && log[i].id == log[j].id && log[i].delivered
    ensures var s := Run(cfg, INIT, steps); s.log[i].id in s.past.disturbed
  {
    Reachable(cfg, steps);
  }

  // --- Open events ---------------------------------------------------------------------------------------

  /** Two open events never share a key, and an event has a closing time exactly
      while it is closed. */
  lemma OneOpenEventPerKey(cfg: Config, steps: seq<Step>)
    requires ValidConfig(cfg)
    ensures var events := Run(cfg, INIT, steps).db.events;
      && (forall i, j :: i in events && j in events && SameOpenKey(events[i], events[j]) ==> i == j)
      && (forall i :: i in events ==> (events[i].state == Resolved <==> events[i].resolvedAt.Some?))
  {
    Reachable(cfg, steps);
  }
}
