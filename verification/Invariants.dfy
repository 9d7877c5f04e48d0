/** What holds in every reachable state, group by group. */
module Invariants {
  import opened Domain
  import opened Tables
  import opened Protocol

  // --- Links between rows ---------------------------------------------------------

  /** A recovery follows an alert of its event on its channel; a copy redirects
      a direct alert of its event from another channel. */
  ghost predicate LinkOk(cfg: Config, db: Db, a: Id)
    requires a in db.attempts
  {
    var x := db.attempts[a];
    && x.eventId in db.events
    && x.channel in cfg.channels
    && x.maxAttempts > 0
    && (x.kind == Alert ==> x.recoveryFor.None?)
    && (x.kind == Recovery ==> x.fallbackOf.None? && x.recoveryFor.Some? && FollowsAlert(db, x, x.recoveryFor.value))
    && (x.fallbackOf.Some? ==> Redirects(db, x, x.fallbackOf.value))
  }

  ghost predicate FollowsAlert(db: Db, x: Attempt, y: Id) {
    && y in db.attempts
    && db.attempts[y].kind == Alert
    && db.attempts[y].eventId == x.eventId
    && db.attempts[y].channel == x.channel
  }

  ghost predicate Redirects(db: Db, x: Attempt, y: Id) {
    && y in db.attempts
    && db.attempts[y].IsDirect()
    && db.attempts[y].eventId == x.eventId
    && db.attempts[y].channel != x.channel
  }

  /** Two rows that redirect the same alert or follow the same alert. */
  ghost predicate SharesLink(x: Attempt, y: Attempt) {
    || (x.fallbackOf.Some? && x.fallbackOf == y.fallbackOf)
    || (x.recoveryFor.Some? && x.recoveryFor == y.recoveryFor)
  }

  ghost predicate Links(cfg: Config, db: Db) {
    && (forall a :: a in db.attempts ==> LinkOk(cfg, db, a))
    && (forall a, b :: a in db.attempts && b in db.attempts && a != b ==> !SharesLink(db.attempts[a], db.attempts[b]))
  }

  /** The identifiers in use were all given out, and a flight knows its row. */
  ghost predicate Known(s: System) {
    && s.db.attempts.Keys <= s.past.usedAttempts
    && s.db.events.Keys <= s.past.usedEvents
    && s.past.closedWith.Keys <= s.past.usedEvents
    && s.past.claims.Keys <= s.past.usedAttempts
    && s.past.replayed <= s.past.usedAttempts
    && s.past.disturbed <= s.past.usedAttempts
    && (forall t :: t in s.flights ==> FlightOk(s, t))
  }

  ghost predicate FlightOk(s: System, t: Token)
    requires t in s.flights
  {
    var x := s.flights[t].row;
    && t.id in s.past.usedAttempts
    && t.batch < s.past.batches
    && x.attempts < x.maxAttempts
    && (t.id in s.db.attempts ==> s.db.attempts[t.id].SameJob(x))
  }

  // --- Attempt accounting ------------------------------------------------------------

  ghost predicate AccountOk(x: Attempt) {
    && x.attempts <= x.maxAttempts
    && (x.state in {Pending, Failed, Sending} ==> x.attempts < x.maxAttempts)
    && (x.state == DeadLetter ==> x.attempts == x.maxAttempts)
    && (x.state == Failed ==> x.nextRetryAt.Some?)
    && (x.state in {Sent, DeadLetter, Cancelled} ==> x.nextRetryAt.None?)
  }

  ghost predicate Accounts(db: Db) {
    forall a :: a in db.attempts ==> AccountOk(db.attempts[a])
  }

  // --- Mute -----------------------------------------------------------------------------

  ghost predicate QuietRow(db: Db, replayed: set<Id>, a: Id)
    requires a in db.attempts
  {
    MutedAlert(db, db.attempts[a]) ==>
      && db.attempts[a].state != Failed
      && (db.attempts[a].state == Pending ==> a in replayed)
  }

  ghost predicate Quiet(db: Db, replayed: set<Id>) {
    forall a :: a in db.attempts ==> QuietRow(db, replayed, a)
  }

  // --- Open events ----------------------------------------------------------------------

  ghost predicate SameOpenKey(x: Event, y: Event) {
    x.dedupeKey != "" && x.dedupeKey == y.dedupeKey && x.state != Resolved && y.state != Resolved
  }

  ghost predicate OpenOnce(db: Db) {
    && (forall i, j :: i in db.events && j in db.events && i != j ==> !SameOpenKey(db.events[i], db.events[j]))
    && (forall i :: i in db.events ==> (db.events[i].state == Resolved <==> db.events[i].resolvedAt.Some?))
  }

  // --- Recoveries -----------------------------------------------------------------------

  ghost predicate HasRecovery(attempts: map<Id, Attempt>, a: Id) {
    exists r :: r in attempts && attempts[r].recoveryFor == Some(a)
  }

  /** The event was closed, and closing it promised recovery notices. */
  ghost predicate Notifies(s: System, e: Id) {
    e in s.db.events && s.db.events[e].state == Resolved && e in s.past.closedWith && s.past.closedWith[e] > 0
  }

  /** An attempt of a notifying event: an alert has a recovery unless it was
      cancelled. Of any other event: it is no recovery. */
  ghost predicate RecoveryRowOk(s: System, a: Id)
    requires a in s.db.attempts
  {
    var x := s.db.attempts[a];
    if Notifies(s, x.eventId) then x.kind == Alert ==> (x.state != Cancelled <==> HasRecovery(s.db.attempts, a))
    else x.kind == Alert
  }

  ghost predicate Exact(s: System) {
    && (forall a :: a in s.db.attempts ==> RecoveryRowOk(s, a))
    && (forall e :: e in s.db.events ==> (e in s.past.closedWith <==> s.db.events[e].state == Resolved))
  }

  // --- Order of transmissions -------------------------------------------------------------

  ghost predicate DeliveredIn(log: seq<Transmission>, id: Id, kind: Kind) {
    exists j :: 0 <= j < |log| && log[j].id == id && log[j].kind == kind && log[j].delivered
  }

  /** Whatever is transmitted as a recovery comes after a delivery of its alert. */
  ghost predicate LogOk(log: seq<Transmission>) {
    forall i :: 0 <= i < |log| && log[i].kind == Recovery ==>
      log[i].recoveryFor.Some? && DeliveredIn(log[..i], log[i].recoveryFor.value, Alert)
  }

  ghost predicate OrderedRow(s: System, a: Id)
    requires a in s.db.attempts
  {
    var x := s.db.attempts[a];
    && (x.state == Sent ==> DeliveredIn(s.log, a, x.kind))
    && (x.kind == Recovery && (x.state != Pending || a in s.past.claims) ==>
          x.recoveryFor.Some? && x.recoveryFor.value in s.db.attempts && s.db.attempts[x.recoveryFor.value].state == Sent)
  }

  ghost predicate OrderedFlight(s: System, t: Token)
    requires t in s.flights
  {
    var f := s.flights[t];
    && (f.outcome == Some(Delivered) ==> DeliveredIn(s.log, t.id, f.row.kind))
    && (f.row.kind == Recovery ==> f.row.recoveryFor.Some? && DeliveredIn(s.log, f.row.recoveryFor.value, Alert))
  }

  ghost predicate Ordered(s: System) {
    && LogOk(s.log)
    && (forall a :: a in s.db.attempts ==> OrderedRow(s, a))
    && (forall t :: t in s.flights ==> OrderedFlight(s, t))
  }

  // --- Claims -------------------------------------------------------------------------------

  /** Until a row is taken back, handed back or replayed, its claims are its
      recorded tries plus the one in progress, made by at most one worker. */
  ghost predicate FrugalRow(s: System, a: Id)
    requires a in s.db.attempts
  {
    a !in s.past.disturbed ==>
      ClaimsOf(s.past.claims, a) == s.db.attempts[a].attempts + if s.db.attempts[a].state == Sending then 1 else 0
  }

  ghost predicate FrugalFlight(s: System, t: Token)
    requires t in s.flights
  {
    t.id in s.db.attempts && t.id !in s.past.disturbed ==>
      s.db.attempts[t.id].state == Sending && s.db.attempts[t.id].attempts == s.flights[t].row.attempts
  }

  ghost predicate Frugal(s: System) {
    && (forall a :: a in s.db.attempts ==> FrugalRow(s, a))
    && (forall t :: t in s.flights ==> FrugalFlight(s, t))
    && (forall t, u :: t in s.flights && u in s.flights && t.id == u.id && t.id in s.db.attempts && t.id !in s.past.disturbed ==> t == u)
  }

  // --- Copies of dead letters ---------------------------------------------------------------

  /** A direct alert whose channel names a fallback. */
  ghost predicate Redirectable(cfg: Config, x: Attempt) {
    x.IsDirect() && x.channel in cfg.fallbacks && cfg.fallbacks[x.channel] in cfg.channels
  }

  /** Every dead letter that can be redirected has been. */
  ghost predicate Redirected(cfg: Config, db: Db) {
    forall a :: a in db.attempts && db.attempts[a].state == DeadLetter && Redirectable(cfg, db.attempts[a]) ==> HasCopy(db.attempts, a)
  }

  // --- One delivery ---------------------------------------------------------------------------

  ghost predicate Arrived(log: seq<Transmission>, id: Id) {
    exists j :: 0 <= j < |log| && log[j].id == id && log[j].delivered
  }

  /** An undisturbed attempt that arrived is sent, or is about to be recorded so. */
  ghost predicate ArrivedRow(s: System, a: Id)
    requires a in s.db.attempts
  {
    a !in s.past.disturbed && Arrived(s.log, a) ==> s.db.attempts[a].state in {Sending, Sent}
  }

  ghost predicate ArrivedFlight(s: System, t: Token)
    requires t in s.flights
  {
    t.id !in s.past.disturbed && Arrived(s.log, t.id) ==> s.flights[t].outcome == Some(Delivered)
  }

  /** Nothing is transmitted after it has arrived, until it is disturbed. */
  ghost predicate OnceInLog(log: seq<Transmission>, disturbed: set<Id>) {
    forall i, j :: 0 <= i < j < |log| && log[i].id == log[j].id && log[i].delivered ==> log[i].id in disturbed
  }

  ghost predicate SentOnce(s: System) {
    && OnceInLog(s.log, s.past.disturbed)
    && (forall i :: 0 <= i < |s.log| ==> s.log[i].id in s.past.usedAttempts)
    && (forall a :: a in s.db.attempts ==> ArrivedRow(s, a))
    && (forall t :: t in s.flights ==> ArrivedFlight(s, t))
    && (forall t, u :: t in s.flights && u in s.flights && t.id == u.id && t.id !in s.past.disturbed ==> t == u)
  }

  ghost predicate Inv(cfg: Config, s: System) {
    && Links(cfg, s.db)
    && Known(s)
    && Accounts(s.db)
    && Quiet(s.db, s.past.replayed)
    && OpenOnce(s.db)
    && Exact(s)
    && Ordered(s)
    && Frugal(s)
    && Redirected(cfg, s.db)
    && SentOnce(s)
  }
}
