/** The two tables and the transactions on them, one function per transaction.
    A transaction either yields the new tables or an error, in which case
    nothing is written. */
module Tables {
  import opened Domain

  datatype Db = Db(events: map<Id, Event>, attempts: map<Id, Attempt>)

  // --- Building rows ---------------------------------------------------------

  /** A queued alert of event `eventId`, as routing produces it. */
  function AlertRow(eventId: Id, channel: Channel, maxAttempts: nat, at: Time): Attempt {
    Attempt(eventId, channel, Alert, Pending, 0, maxAttempts, None, at, at, None, None)
  }

  /** The pending recovery notice that follows alert `a`. */
  function RecoveryOf(a: Id, alert: Attempt, maxAttempts: nat, at: Time): Attempt {
    Attempt(alert.eventId, alert.channel, Recovery, Pending, 0, maxAttempts, None, at, at, None, Some(a))
  }

  // --- Creating an event -------------------------------------------------------

  /** Whether the partial unique index already holds `key`: an open event has it. */
  predicate KeyTaken(events: map<Id, Event>, key: string) {
    key != "" && exists i :: i in events && events[i].dedupeKey == key && events[i].state != Resolved
  }

  /** An event and its alerts, committed together or not at all. */
  function CreateEvent(db: Db, id: Id, e: Event, rows: map<Id, Attempt>): Result<Db> {
    if id in db.events || (e.state != Resolved && KeyTaken(db.events, e.dedupeKey)) || !(rows.Keys !! db.attempts.Keys) then
      Err(UniqueViolation)
    else
      Ok(Db(db.events[id := e], db.attempts + rows))
  }

  // --- Changing an event's state -----------------------------------------------

  datatype StateChange = StateChange(
    from: EventState,
    to: EventState,
    at: Time,
    recoveryMaxAttempts: nat,
    cancelAlerts: bool)

  /** The alerts that closing `eventId` owes a recovery: all but the cancelled. */
  function AlertsToRecover(attempts: map<Id, Attempt>, eventId: Id): set<Id> {
    set a | a in attempts && attempts[a].eventId == eventId && attempts[a].kind == Alert && attempts[a].state != Cancelled
  }

  predicate Queued(x: Attempt) {
    x.state == Pending || x.state == Failed
  }

  function CancelledBy(x: Attempt, at: Time): Attempt {
    x.(state := Cancelled, nextRetryAt := None, updatedAt := at)
  }

  /** Every queued alert of `eventId` becomes cancelled. */
  function CancelQueued(attempts: map<Id, Attempt>, eventId: Id, at: Time): map<Id, Attempt> {
    map a | a in attempts ::
      if attempts[a].eventId == eventId && attempts[a].kind == Alert && Queued(attempts[a])
      then CancelledBy(attempts[a], at) else attempts[a]
  }

  /** `newIds` names one new row for each member of `targets`. */
  predicate Assigns<T(==)>(newIds: map<Id, T>, targets: set<T>) {
    && newIds.Values == targets
    && forall i, j :: i in newIds && j in newIds && newIds[i] == newIds[j] ==> i == j
  }

  function RecoveryRows(attempts: map<Id, Attempt>, newIds: map<Id, Id>, maxAttempts: nat, at: Time): map<Id, Attempt>
    requires newIds.Values <= attempts.Keys
  {
    map r | r in newIds :: RecoveryOf(newIds[r], attempts[newIds[r]], maxAttempts, at)
  }

  /** A recovery for every alert of `eventId` that is owed one; a budget of 0
      means none is. `newIds` maps the identifier of each recovery to its alert. */
  function AddRecoveries(attempts: map<Id, Attempt>, eventId: Id, newIds: map<Id, Id>, maxAttempts: nat, at: Time): Result<map<Id, Attempt>> {
    if maxAttempts == 0 then
      Ok(attempts)
    else if !Assigns(newIds, AlertsToRecover(attempts, eventId)) || !(newIds.Keys !! attempts.Keys) then
      Err(UniqueViolation)
    else
      Ok(attempts + RecoveryRows(attempts, newIds, maxAttempts, at))
  }

  function Moved(e: Event, c: StateChange): Event {
    e.(state := c.to, updatedAt := c.at, resolvedAt := if c.to == Resolved then Some(c.at) else None)
  }

  /** The conditional state change with the delivery changes that commit with
      it. */
  function TransitionEvent(db: Db, id: Id, c: StateChange, newIds: map<Id, Id>): Result<Db> {
    if id !in db.events || db.events[id].state != c.from then
      Err(StateChanged)
    else if c.from == Resolved && c.to != Resolved && KeyTaken(db.events, db.events[id].dedupeKey) then
      Err(UniqueViolation)
    else
      var events := db.events[id := Moved(db.events[id], c)];
      var attempts := if c.cancelAlerts then CancelQueued(db.attempts, id, c.at) else db.attempts;
      var added := AddRecoveries(attempts, id, newIds, c.recoveryMaxAttempts, c.at);
      if added.Err? then Err(added.error) else Ok(Db(events, added.value))
  }

  // --- A repeated report ---------------------------------------------------------

  /** The channels with an alert of `eventId`, in any state. */
  function AlertedChannels(attempts: map<Id, Attempt>, eventId: Id): set<Channel> {
    set a | a in attempts && attempts[a].eventId == eventId && attempts[a].kind == Alert :: attempts[a].channel
  }

  /** Of the alerts offered, those to channels without an alert yet. */
  function MissingAlerts(attempts: map<Id, Attempt>, eventId: Id, offered: map<Id, Attempt>): map<Id, Attempt> {
    var alerted := AlertedChannels(attempts, eventId);
    map a | a in offered && offered[a].channel !in alerted :: offered[a]
  }

  function Refreshed(e: Event, severity: Severity, at: Time): Event {
    e.(severity := severity, lastSeenAt := at, updatedAt := at)
  }

  /** A repeated report of an open event; a rise alerts the channels that were
      not alerted yet, unless the event is muted. */
  function RefreshOpenEvent(db: Db, id: Id, severity: Severity, at: Time, offered: map<Id, Attempt>): Result<Db> {
    if id !in db.events || db.events[id].state == Resolved then
      Err(NotFound)
    else
      var was := db.events[id];
      var events := db.events[id := Refreshed(was, severity, at)];
      if was.state != Muted && SeverityRank(severity) > SeverityRank(was.severity) then
        var rows := MissingAlerts(db.attempts, id, offered);
        if !(rows.Keys !! db.attempts.Keys) then Err(UniqueViolation)
        else Ok(Db(events, db.attempts + rows))
      else
        Ok(Db(events, db.attempts))
  }

  // --- The delivery queue ----------------------------------------------------------

  /** What the worker may take at `now`: queued, due, and, for a recovery, its
      own alert already sent. */
  predicate Deliverable(attempts: map<Id, Attempt>, a: Id, now: Time)
    requires a in attempts
  {
    var x := attempts[a];
    && Queued(x)
    && (x.nextRetryAt.None? || x.nextRetryAt.value <= now)
    && (x.kind != Recovery || x.recoveryFor.None? ||
        (x.recoveryFor.value in attempts && attempts[x.recoveryFor.value].state == Sent))
  }

  function ClaimedAt(x: Attempt, now: Time): Attempt {
    x.(state := Sending, updatedAt := now)
  }

  /** The rows `taken` move to `Sending`. */
  function Claim(db: Db, taken: set<Id>, now: Time): Db {
    db.(attempts := map a | a in db.attempts ::
      if a in taken then ClaimedAt(db.attempts[a], now) else db.attempts[a])
  }

  /** The row is an alert of an event that is muted right now. */
  predicate MutedAlert(db: Db, x: Attempt) {
    x.kind == Alert && x.eventId in db.events && db.events[x.eventId].state == Muted
  }

  /** What a worker asks the store to record for an attempt it claimed. */
  datatype Report = Report(state: DeliveryState, attempts: nat, nextRetryAt: Option<Time>, at: Time)

  /** The copy to queue when an alert dead-letters, with an identifier for the
      recovery the copy may need. */
  datatype Copy = Copy(id: Id, row: Attempt, recoveryId: Id)

  /** What is stored for report `r` on row `x`: a mute turns anything but a
      success into a cancellation. */
  function Recorded(db: Db, x: Attempt, r: Report): Attempt {
    if r.state != Sent && MutedAlert(db, x) then
      x.(state := Cancelled, nextRetryAt := None, attempts := r.attempts, updatedAt := r.at)
    else
      x.(state := r.state, nextRetryAt := r.nextRetryAt, attempts := r.attempts, updatedAt := r.at)
  }

  predicate HasCopy(attempts: map<Id, Attempt>, source: Id) {
    exists f :: f in attempts && attempts[f].fallbackOf == Some(source)
  }

  predicate HasRecoveries(attempts: map<Id, Attempt>, eventId: Id) {
    exists r :: r in attempts && attempts[r].eventId == eventId && attempts[r].kind == Recovery
  }

  /** Queue the copy of the dead-lettered alert `source`, once, with a recovery
      of its own when the event closed with recoveries. */
  function QueueFallback(db: Db, source: Id, f: Copy): Result<Db> {
    var row := f.row.(fallbackOf := Some(source));
    if HasCopy(db.attempts, source) then
      Ok(db)
    else if f.id in db.attempts || row.eventId !in db.events then
      Err(UniqueViolation)
    else
      var attempts := db.attempts[f.id := row];
      if db.events[row.eventId].state != Resolved || !HasRecoveries(attempts, row.eventId) then
        Ok(db.(attempts := attempts))
      else if f.recoveryId in attempts then
        Err(UniqueViolation)
      else
        Ok(db.(attempts := attempts[f.recoveryId := RecoveryOf(f.id, row, row.maxAttempts, row.createdAt)]))
  }

  /** Record the outcome of a claimed attempt. Only `Sending` is checked, not
      which claim the row belongs to. */
  function MarkResult(db: Db, a: Id, r: Report, copy: Option<Copy>): Result<Db> {
    if a !in db.attempts || db.attempts[a].state != Sending then
      Err(NotFound)
    else
      var stored := Recorded(db, db.attempts[a], r);
      var marked := db.(attempts := db.attempts[a := stored]);
      if stored.state == DeadLetter && copy.Some? then QueueFallback(marked, a, copy.value)
      else Ok(marked)
  }

  function Requeued(x: Attempt, at: Time): Attempt {
    x.(state := Pending, attempts := 0, nextRetryAt := Some(at), updatedAt := at)
  }

  function Replay(db: Db, a: Id, at: Time): Result<Db> {
    if a !in db.attempts then Err(NotFound)
    else if db.attempts[a].state != DeadLetter then Err(NotReplayable)
    else Ok(db.(attempts := db.attempts[a := Requeued(db.attempts[a], at)]))
  }

  predicate Stuck(x: Attempt, staleBefore: Time) {
    x.state == Sending && x.updatedAt < staleBefore
  }

  function TakenBack(db: Db, x: Attempt, at: Time): Attempt {
    if MutedAlert(db, x) then CancelledBy(x, at) else x.(state := Pending, updatedAt := at)
  }

  /** Attempts stuck in `Sending` return to the queue, or are cancelled when
      they are alerts of a muted event. */
  function RequeueStuckSending(db: Db, staleBefore: Time, at: Time): Db {
    db.(attempts := map a | a in db.attempts ::
      if Stuck(db.attempts[a], staleBefore) then TakenBack(db, db.attempts[a], at) else db.attempts[a])
  }

  // --- Retention ------------------------------------------------------------------

  /** An event ages from its close, or from its last report while it is open. */
  predicate Expired(e: Event, cutoff: Time) {
    (if e.resolvedAt.Some? then e.resolvedAt.value else e.lastSeenAt) < cutoff
  }

  /** One batch of expired events goes, with all their attempts. */
  function DeleteEvents(db: Db, batch: set<Id>, cutoff: Time): Db {
    var gone := set e | e in batch && e in db.events && Expired(db.events[e], cutoff);
    Db(db.events - gone, map a | a in db.attempts && db.attempts[a].eventId !in gone :: db.attempts[a])
  }
}
