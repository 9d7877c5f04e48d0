/** How many messages one event can queue, whatever happens to it. */
module Noise {
  import opened Domain
  import opened Tables
  import opened Protocol
  import opened Invariants
  import opened Effects
  import opened Identifiers
  import Delivery

  /** The routing behind this step named no channel twice. */
  ghost predicate DuplicateFree(step: Step) {
    (step.Create? || step.Refresh?) ==> Injective(step.newIds)
  }

  ghost predicate SameDirect(x: Attempt, y: Attempt) {
    x.IsDirect() && y.IsDirect() && x.eventId == y.eventId && x.channel == y.channel
  }

  /** No event has two direct alerts on one channel. */
  ghost predicate OncePerChannel(db: Db) {
    forall a, b :: a in db.attempts && b in db.attempts && a != b ==> !SameDirect(db.attempts[a], db.attempts[b])
  }

  lemma CreateKeepsOnce(cfg: Config, s: System, id: Id, e: Event, newIds: map<Id, Channel>, maxAttempts: nat)
    requires Links(cfg, s.db) && OncePerChannel(s.db) && Injective(newIds)
    ensures OncePerChannel(DoCreate(cfg, s, id, e, newIds, maxAttempts).db)
  {
  }

  lemma RefreshKeepsOnce(cfg: Config, s: System, id: Id, severity: Severity, at: Time, newIds: map<Id, Channel>, maxAttempts: nat)
    requires Known(s) && OncePerChannel(s.db) && Injective(newIds)
    ensures OncePerChannel(DoRefresh(cfg, s, id, severity, at, newIds, maxAttempts).db)
  {
    if DoRefresh(cfg, s, id, severity, at, newIds, maxAttempts) != s { RefreshOnceIff(cfg, s, id, severity, at, newIds, maxAttempts); }
  }

  /** Rows keep their jobs, and no direct alert is added. */
  lemma NoNewDirect(m: map<Id, Attempt>, n: map<Id, Attempt>, db: Db, after: Db)
    requires db.attempts == m && after.attempts == n && OncePerChannel(db)
    requires forall a :: a in n && n[a].IsDirect() ==> a in m && n[a].SameJob(m[a])
    ensures OncePerChannel(after)
  {
  }

  lemma ChangeKeepsOnce(s: System, id: Id, from: EventState, req: Request, notifier: nat, at: Time, links: map<Id, Id>)
    requires Known(s) && OncePerChannel(s.db)
    ensures OncePerChannel(DoChange(s, id, from, req, notifier, at, links).db)
  {
    var after := DoChange(s, id, from, req, notifier, at, links);
    ChangeEffect(s, id, from, req, notifier, at, links);
    if after != s { ChangedKeepsOnce(s, after, id, Committed(s, id, from, req, notifier, at), links); }
  }

  lemma ChangedKeepsOnce(s: System, after: System, id: Id, c: StateChange, links: map<Id, Id>)
    requires OncePerChannel(s.db) && Changed(s, after, id, c, links)
    ensures OncePerChannel(after.db)
  {
    var m, n := s.db.attempts, after.db.attempts;
    forall a | a in n && a !in m ensures !n[a].IsDirect() { assert NewRecovery(s, after.db, id, c, links, a); }
    NoNewDirect(m, n, s.db, after.db);
  }

  lemma RecordKeepsOnce(cfg: Config, s: System, t: Token, at: Time, retryAt: Time, copyId: Id, recoveryId: Id)
    requires Known(s) && OncePerChannel(s.db)
    ensures OncePerChannel(DoRecord(cfg, s, t, at, retryAt, copyId, recoveryId).db)
  {
    var after := DoRecord(cfg, s, t, at, retryAt, copyId, recoveryId);
    RecordEffect(cfg, s, t, at, retryAt, copyId, recoveryId);
    if after.db != s.db {
      NoNewDirect(s.db.attempts, after.db.attempts, s.db, after.db);
    }
  }

  lemma ProgressKeepsOnce(db: Db, after: Db)
    requires OncePerChannel(db)
    requires forall a :: a in after.attempts ==> a in db.attempts && after.attempts[a].SameJob(db.attempts[a])
    ensures OncePerChannel(after)
  {
  }

  lemma ClaimKeepsOnce(s: System, taken: set<Id>, now: Time)
    requires OncePerChannel(s.db)
    ensures OncePerChannel(DoClaim(s, taken, now).db)
  {
  }

  lemma ReapKeepsOnce(db: Db, staleBefore: Time, at: Time)
    requires OncePerChannel(db)
    ensures OncePerChannel(RequeueStuckSending(db, staleBefore, at))
  {
    ProgressKeepsOnce(db, RequeueStuckSending(db, staleBefore, at));
  }

  lemma KeepsOnce(cfg: Config, s: System, step: Step)
    requires Known(s) && Links(cfg, s.db) && OncePerChannel(s.db) && DuplicateFree(step)
    ensures OncePerChannel(Next(cfg, s, step).db)
  {
    match step
    case Create(id, e, newIds, maxAttempts) => CreateKeepsOnce(cfg, s, id, e, newIds, maxAttempts);
    case Refresh(id, severity, at, newIds, maxAttempts) => RefreshKeepsOnce(cfg, s, id, severity, at, newIds, maxAttempts);
    case Change(id, from, req, notifier, at, links) => ChangeKeepsOnce(s, id, from, req, notifier, at, links);
    case ClaimDue(taken, now) => ClaimKeepsOnce(s, taken, now);
    case Transmit(_, _) =>
    case Record(t, at, retryAt, copyId, recoveryId) => RecordKeepsOnce(cfg, s, t, at, retryAt, copyId, recoveryId);
    case Lose(_) =>
    case ReplayOne(id, at) => ProgressKeepsOnce(s.db, DoReplay(s, id, at).db);
    case Reap(staleBefore, at) => ReapKeepsOnce(s.db, staleBefore, at);
    case Expire(batch, cutoff) => ProgressKeepsOnce(s.db, DeleteEvents(s.db, batch, cutoff));
  }

  lemma {:induction false} RunKeepsOnce(cfg: Config, s: System, steps: seq<Step>)
    requires ValidConfig(cfg) && Inv(cfg, s) && OncePerChannel(s.db)
    requires forall i :: 0 <= i < |steps| ==> DuplicateFree(steps[i])
    ensures OncePerChannel(Run(cfg, s, steps).db)
    decreases |steps|
  {
    if steps != [] {
      KeepsOnce(cfg, s, steps[0]);
      Delivery.StepKeepsInv(cfg, s, steps[0]);
      RunKeepsOnce(cfg, Next(cfg, s, steps[0]), steps[1..]);
    }
  }

  // --- Counting -----------------------------------------------------------------------------------

  /** A set that maps one to one into another is no larger. */
  lemma {:induction false} NoLarger<T, U>(xs: set<T>, ys: set<U>, f: map<T, U>)
    requires xs <= f.Keys && Injective(f) && forall x :: x in xs ==> f[x] in ys
    ensures |xs| <= |ys|
    decreases xs
  {
    if xs != {} {
      var x :| x in xs;
      NoLarger(xs - {x}, ys - {f[x]}, f);
    }
  }

  function Direct(m: map<Id, Attempt>, e: Id): set<Id> {
    set a | a in m && m[a].eventId == e && m[a].IsDirect()
  }

  function Copies(m: map<Id, Attempt>, e: Id): set<Id> {
    set a | a in m && m[a].eventId == e && m[a].kind == Alert && m[a].IsFallback()
  }

  lemma DirectBound(cfg: Config, db: Db, e: Id)
    requires Links(cfg, db) && OncePerChannel(db)
    ensures |Direct(db.attempts, e)| <= |cfg.channels|
  {
    var xs := Direct(db.attempts, e);
    var f := map a | a in xs :: db.attempts[a].channel;
    forall a | a in xs ensures f[a] in cfg.channels { assert LinkOk(cfg, db, a); }
    forall a, b | a in f && b in f && f[a] == f[b] ensures a == b {
      assert a != b ==> !SameDirect(db.attempts[a], db.attempts[b]);
    }
    NoLarger(xs, cfg.channels, f);
  }

  lemma CopiesBound(cfg: Config, db: Db, e: Id)
    requires Links(cfg, db)
    ensures |Copies(db.attempts, e)| <= |Direct(db.attempts, e)|
  {
    var xs := Copies(db.attempts, e);
    var f := map a | a in xs :: db.attempts[a].fallbackOf.value;
    forall a | a in xs ensures f[a] in Direct(db.attempts, e) { assert LinkOk(cfg, db, a); }
    forall a, b | a in f && b in f && f[a] == f[b] ensures a == b {
      assert a != b ==> !SharesLink(db.attempts[a], db.attempts[b]);
    }
    NoLarger(xs, Direct(db.attempts, e), f);
  }

  lemma RecoveriesBound(cfg: Config, db: Db, e: Id)
    requires Links(cfg, db)
    ensures |Delivery.RecoveriesOf(db, e)| <= |Direct(db.attempts, e)| + |Copies(db.attempts, e)|
  {
    var xs := Delivery.RecoveriesOf(db, e);
    forall a | a in xs ensures db.attempts[a].recoveryFor.Some? { assert LinkOk(cfg, db, a); }
    var f := map a | a in xs :: db.attempts[a].recoveryFor.value;
    var alerts := Direct(db.attempts, e) + Copies(db.attempts, e);
    forall a | a in xs ensures f[a] in alerts { assert LinkOk(cfg, db, a); }
    forall a, b | a in f && b in f && f[a] == f[b] ensures a == b {
      assert a != b ==> !SharesLink(db.attempts[a], db.attempts[b]);
    }
    NoLarger(xs, alerts, f);
  }

  lemma UnionBound<T>(a: set<T>, b: set<T>, c: set<T>)
    ensures |a + b + c| <= |a| + |b| + |c|
  {
  }

  lemma RowsByKind(db: Db, e: Id)
    ensures AttemptsOf(db.attempts, e) == Direct(db.attempts, e) + Copies(db.attempts, e) + Delivery.RecoveriesOf(db, e)
  {
  }

  lemma RowsBound(cfg: Config, db: Db, e: Id)
    requires Links(cfg, db) && OncePerChannel(db)
    ensures |AttemptsOf(db.attempts, e)| <= 4 * |cfg.channels|
  {
    DirectBound(cfg, db, e);
    CopiesBound(cfg, db, e);
    RecoveriesBound(cfg, db, e);
    RowsByKind(db, e);
    UnionBound(Direct(db.attempts, e), Copies(db.attempts, e), Delivery.RecoveriesOf(db, e));
  }

  /** Any run of reports, rises, mutes, dead letters, replays and closes leaves
      at most one direct alert per channel and four rows per channel. */
  lemma BoundedNoise(cfg: Config, steps: seq<Step>, e: Id)
    requires ValidConfig(cfg)
    requires forall i :: 0 <= i < |steps| ==> DuplicateFree(steps[i])
    ensures var db := Run(cfg, INIT, steps).db;
      OncePerChannel(db) && |AttemptsOf(db.attempts, e)| <= 4 * |cfg.channels|
  {
    Delivery.Reachable(cfg, steps);
    RunKeepsOnce(cfg, INIT, steps);
    RowsBound(cfg, Run(cfg, INIT, steps).db, e);
  }

  // --- What routing must not do -----------------------------------------------------------------

  /** The assumption on routing is exactly what is needed: a new event has one
      direct alert per channel if and only if no channel was named twice. */
  lemma OncePerChannelIffDuplicateFree(cfg: Config, steps: seq<Step>, id: Id, e: Event, newIds: map<Id, Channel>, maxAttempts: nat)
    requires ValidConfig(cfg)
    requires var s := Run(cfg, INIT, steps);
      OncePerChannel(s.db) && DoCreate(cfg, s, id, e, newIds, maxAttempts) != s
    ensures OncePerChannel(DoCreate(cfg, Run(cfg, INIT, steps), id, e, newIds, maxAttempts).db) <==> Injective(newIds)
  {
    Delivery.Reachable(cfg, steps);
    var s := Run(cfg, INIT, steps);
    var after := DoCreate(cfg, s, id, e, newIds, maxAttempts);
    if Injective(newIds) {
      CreateKeepsOnce(cfg, s, id, e, newIds, maxAttempts);
    } else {
      var a, b :| a in newIds && b in newIds && newIds[a] == newIds[b] && a != b;
      assert after.db.attempts[a] == AlertRow(id, newIds[a], maxAttempts, e.createdAt);
      assert SameDirect(after.db.attempts[a], after.db.attempts[b]);
    }
  }

  /** The alerts a repeated report adds: those of a rise to channels without one. */
  function Added(db: Db, id: Id, severity: Severity, newIds: map<Id, Channel>): map<Id, Channel> {
    if id in db.events && db.events[id].state != Muted && SeverityRank(severity) > SeverityRank(db.events[id].severity)
    then map a | a in newIds && newIds[a] !in AlertedChannels(db.attempts, id) :: newIds[a]
    else map[]
  }

  /** So it is with a rise: the alerts it adds must name no channel twice. */
  lemma OnceAfterRiseIff(cfg: Config, steps: seq<Step>, id: Id, severity: Severity, at: Time, newIds: map<Id, Channel>, maxAttempts: nat)
    requires ValidConfig(cfg)
    requires var s := Run(cfg, INIT, steps);
      OncePerChannel(s.db) && DoRefresh(cfg, s, id, severity, at, newIds, maxAttempts) != s
    ensures var s := Run(cfg, INIT, steps);
      OncePerChannel(DoRefresh(cfg, s, id, severity, at, newIds, maxAttempts).db) <==> Injective(Added(s.db, id, severity, newIds))
  {
    Delivery.Reachable(cfg, steps);
    RefreshOnceIff(cfg, Run(cfg, INIT, steps), id, severity, at, newIds, maxAttempts);
  }

  lemma MissingAreAdded(attempts: map<Id, Attempt>, id: Id, newIds: map<Id, Channel>, maxAttempts: nat, at: Time)
    ensures MissingAlerts(attempts, id, AlertRows(id, newIds, maxAttempts, at)) ==
      AlertRows(id, map a | a in newIds && newIds[a] !in AlertedChannels(attempts, id) :: newIds[a], maxAttempts, at)
  {
  }

  lemma RefreshAdds(cfg: Config, s: System, id: Id, severity: Severity, at: Time, newIds: map<Id, Channel>, maxAttempts: nat)
    requires Known(s) && DoRefresh(cfg, s, id, severity, at, newIds, maxAttempts) != s
    ensures Added(s.db, id, severity, newIds).Keys !! s.db.attempts.Keys
    ensures DoRefresh(cfg, s, id, severity, at, newIds, maxAttempts).db.attempts ==
      s.db.attempts + AlertRows(id, Added(s.db, id, severity, newIds), maxAttempts, at)
  {
    MissingAreAdded(s.db.attempts, id, newIds, maxAttempts, at);
    assert s.db.attempts + AlertRows(id, map[], maxAttempts, at) == s.db.attempts;
  }

  lemma RefreshOnceIff(cfg: Config, s: System, id: Id, severity: Severity, at: Time, newIds: map<Id, Channel>, maxAttempts: nat)
    requires Known(s) && OncePerChannel(s.db) && DoRefresh(cfg, s, id, severity, at, newIds, maxAttempts) != s
    ensures OncePerChannel(DoRefresh(cfg, s, id, severity, at, newIds, maxAttempts).db) <==> Injective(Added(s.db, id, severity, newIds))
  {
    RefreshAdds(cfg, s, id, severity, at, newIds, maxAttempts);
    AddedOnceIff(s.db, DoRefresh(cfg, s, id, severity, at, newIds, maxAttempts).db, id, severity, at, newIds, maxAttempts);
  }

  lemma AddedOnceIff(db: Db, after: Db, id: Id, severity: Severity, at: Time, newIds: map<Id, Channel>, maxAttempts: nat)
    requires OncePerChannel(db) && Added(db, id, severity, newIds).Keys !! db.attempts.Keys
    requires after.attempts == db.attempts + AlertRows(id, Added(db, id, severity, newIds), maxAttempts, at)
    ensures OncePerChannel(after) <==> Injective(Added(db, id, severity, newIds))
  {
    var added := Added(db, id, severity, newIds);
    if Injective(added) {
      forall a, b | a in after.attempts && b in after.attempts && a != b ensures !SameDirect(after.attempts[a], after.attempts[b]) {
        if a in db.attempts && b in db.attempts { assert !SameDirect(db.attempts[a], db.attempts[b]); }
      }
    } else {
      var a, b :| a in added && b in added && added[a] == added[b] && a != b;
      assert SameDirect(after.attempts[a], after.attempts[b]);
    }
  }

  /** The first `n` identifiers, all for one channel. */
  function Repeated(c: Channel, n: nat): (newIds: map<Id, Channel>)
    ensures |newIds.Keys| == n && forall a :: a in newIds ==> a < n && newIds[a] == c
  {
    if n == 0 then map[]
    else
      var rest := Repeated(c, n - 1);
      assert rest[n - 1 := c].Keys == rest.Keys + {n - 1};
      rest[n - 1 := c]
  }

  /** And without it there is no bound at all: a route that names one channel `n`
      times gives an event `n` rows. */
  lemma NoiseIsUnbounded(cfg: Config, c: Channel, e: Event, n: nat)
    requires c in cfg.channels && e.state == New && e.resolvedAt.None?
    ensures exists steps :: |AttemptsOf(Run(cfg, INIT, steps).db.attempts, 0)| == n
  {
    var newIds := Repeated(c, n);
    var s := DoCreate(cfg, INIT, 0, e, newIds, 1);
    assert s.db.attempts == AlertRows(0, newIds, 1, e.createdAt);
    assert AttemptsOf(s.db.attempts, 0) == newIds.Keys;
    var steps := [Create(0, e, newIds, 1)];
    assert Run(cfg, INIT, steps) == Run(cfg, s, []);
    assert |AttemptsOf(Run(cfg, INIT, steps).db.attempts, 0)| == n;
  }
}
