/** What a worker does with one claimed attempt once its send has ended. */
module WorkerProgram {
  import opened Domain
  import opened Tables
  import opened Protocol
  import opened Invariants
  import opened Effects
  import opened Outcomes
  import opened StoreProgram

  /** An alert nobody has tried yet, of the same event and with as many tries. */
  ghost predicate FreshFor(row: Attempt, att: Attempt, at: Time) {
    && row.IsDirect() && row.recoveryFor.None? && row.eventId == att.eventId && row.maxAttempts == att.maxAttempts
    && row.Untried() && row.createdAt == row.updatedAt == at
  }

  /** The copy to queue when `att` gives up: one exactly when `att` is a direct
      alert whose channel has a configured fallback, and then on that other
      channel. */
  method CopyFor(cfg: Config, att: Attempt, at: Time, copyId: Id, recoveryId: Id) returns (copy: Option<Copy>)
    ensures copy.Some? <==> att.IsDirect() && att.channel in cfg.fallbacks && cfg.fallbacks[att.channel] in cfg.channels
    ensures copy.Some? ==> copy.value.id == copyId && copy.value.recoveryId == recoveryId
    ensures copy.Some? ==> FreshFor(copy.value.row, att, at) && copy.value.row.channel == cfg.fallbacks[att.channel]
    ensures copy.Some? && ValidConfig(cfg) ==> copy.value.row.channel in cfg.channels && copy.value.row.channel != att.channel
  {
    if att.kind != Alert || att.IsFallback() { return None; }
    if att.channel !in cfg.fallbacks || cfg.fallbacks[att.channel] !in cfg.channels { return None; }
    copy := Some(Copy(copyId, AlertRow(att.eventId, cfg.fallbacks[att.channel], att.maxAttempts, at), recoveryId));
  }

  /** The worker's copy of the row is rewritten by the outcome and handed to the
      store. The tables then are what the step `Record` makes of them; a result
      that finds the row still in progress is stored as the outcome says, and one
      that finds it taken back changes nothing. */
  method Process(store: Store, cfg: Config, ghost s: System, t: Token, claimed: Attempt, outcome: Outcome,
                 at: Time, retryAt: Time, copyId: Id, recoveryId: Id) returns (r: Result<DeliveryState>)
    requires s.db == store.Contents() && t in s.flights && s.flights[t] == Flight(claimed, Some(outcome))
    requires copyId != recoveryId && copyId !in s.past.usedAttempts && recoveryId !in s.past.usedAttempts
    modifies store
    ensures store.Contents() == Next(cfg, s, Record(t, at, retryAt, copyId, recoveryId)).db
    ensures r.Ok? ==> t.id in store.attempts && store.attempts[t.id].state == r.value
    ensures r.Err? ==> store.Contents() == old(store.Contents())
    ensures Known(s) && Links(cfg, s.db) && Lands(s, t) ==>
      && r.Ok? && t.id in store.attempts
      && Settles(s.db.attempts[t.id], store.attempts[t.id], outcome, claimed.attempts, MutedAlert(s.db, s.db.attempts[t.id]), retryAt)
  {
    if Known(s) && Links(cfg, s.db) && Lands(s, t) { RecordOutcome(cfg, s, t, at, retryAt, copyId, recoveryId); }
    var att := claimed.(attempts := claimed.attempts + 1);
    var copy := None;
    if outcome == CutShort {
      att := claimed.(state := Pending);
    } else if outcome == Delivered {
      att := att.(state := Sent, nextRetryAt := None);
    } else if att.attempts >= att.maxAttempts {
      att := att.(state := DeadLetter, nextRetryAt := None);
      copy := CopyFor(cfg, att, at, copyId, recoveryId);
    } else {
      att := att.(state := Failed, nextRetryAt := Some(retryAt));
    }
    var report := Report(att.state, att.attempts, att.nextRetryAt, at);
    assert report == ReportFor(claimed, outcome, at, retryAt);
    assert copy == FallbackFor(cfg, claimed, report, copyId, recoveryId);
    r := store.MarkResult(t.id, report, copy);
  }
}
