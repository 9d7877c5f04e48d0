/** The store as the program it is: statements that update two tables in place,
    inside transactions that roll back as a whole. Each method is held to the
    transaction it implements in `Tables`. */
module StoreProgram {
  import opened Domain
  import opened Tables
  import opened Identifiers

  /** The rows of an insert list. */
  function RowsOf(rows: seq<(Id, Attempt)>): map<Id, Attempt> {
    if rows == [] then map[] else RowsOf(rows[..|rows| - 1])[rows[|rows| - 1].0 := rows[|rows| - 1].1]
  }

  ghost predicate Distinct(rows: seq<(Id, Attempt)>) {
    forall i, j :: 0 <= i < j < |rows| ==> rows[i].0 != rows[j].0
  }

  lemma {:induction false} KeysOfRows(rows: seq<(Id, Attempt)>, id: Id)
    ensures id in RowsOf(rows) <==> exists i :: 0 <= i < |rows| && rows[i].0 == id
  {
    if rows != [] {
      var n := |rows| - 1;
      KeysOfRows(rows[..n], id);
      if id in RowsOf(rows[..n]) {
        var i :| 0 <= i < n && rows[..n][i].0 == id;
        assert rows[i].0 == id;
      }
      if exists i :: 0 <= i < |rows| && rows[i].0 == id {
        var i :| 0 <= i < |rows| && rows[i].0 == id;
        if i < n { assert rows[..n][i].0 == id; }
      }
    }
  }

  lemma RowsOfNext(rows: seq<(Id, Attempt)>, i: nat)
    requires i < |rows| && Distinct(rows)
    ensures RowsOf(rows[..i + 1]) == RowsOf(rows[..i])[rows[i].0 := rows[i].1]
    ensures rows[i].0 !in RowsOf(rows[..i])
  {
    assert rows[..i + 1][..i] == rows[..i];
    KeysOfRows(rows[..i], rows[i].0);
  }

  lemma {:induction false} RowsOfPrefix(rows: seq<(Id, Attempt)>, i: nat)
    requires i <= |rows| && Distinct(rows)
    ensures forall a :: a in RowsOf(rows[..i]) ==> a in RowsOf(rows) && RowsOf(rows)[a] == RowsOf(rows[..i])[a]
    decreases |rows| - i
  {
    if i == |rows| {
      assert rows[..i] == rows;
    } else {
      RowsOfNext(rows, i);
      RowsOfPrefix(rows, i + 1);
    }
  }

  lemma RecoveryRowsNext(attempts: map<Id, Attempt>, links: map<Id, Id>, r: Id, a: Id, maxAttempts: nat, at: Time)
    requires links.Values <= attempts.Keys && a in attempts && r !in links
    ensures links[r := a].Values == links.Values + {a}
    ensures RecoveryRows(attempts, links[r := a], maxAttempts, at) ==
      RecoveryRows(attempts, links, maxAttempts, at)[r := RecoveryOf(a, attempts[a], maxAttempts, at)]
  {
    ValuesOfUpdate(links, r, a);
  }

  /** The alerts of the event outside `rest` have their recoveries, named by
      `links`; nothing else was added. */
  ghost predicate SomeRecovered(before: map<Id, Attempt>, attempts: map<Id, Attempt>, id: Id, links: map<Id, Id>, rest: set<Id>, maxAttempts: nat, at: Time) {
    && rest <= AlertsToRecover(before, id) && Assigns(links, AlertsToRecover(before, id) - rest)
    && links.Keys !! before.Keys
    && attempts == before + RecoveryRows(before, links, maxAttempts, at)
  }

  lemma OneMoreRecovered(before: map<Id, Attempt>, attempts: map<Id, Attempt>, id: Id, links: map<Id, Id>, rest: set<Id>, maxAttempts: nat, at: Time, r: Id, a: Id)
    requires a in rest && r in attempts && rest <= AlertsToRecover(before, id)
    requires SomeRecovered(before, attempts - {r}, id, links, rest, maxAttempts, at)
    requires attempts[r] == RecoveryOf(a, before[a], maxAttempts, at)
    ensures SomeRecovered(before, attempts, id, links[r := a], rest - {a}, maxAttempts, at)
  {
    forall i | i in links ensures links[i] != a { assert links[i] in links.Values; }
    assert r !in RecoveryRows(before, links, maxAttempts, at) && r !in before by { assert r !in attempts - {r}; }
    RecoveryRowsNext(before, links, r, a, maxAttempts, at);
    assert AlertsToRecover(before, id) - rest + {a} == AlertsToRecover(before, id) - (rest - {a});
    assert attempts == (attempts - {r})[r := attempts[r]];
  }

  lemma MissingAlertsNext(attempts: map<Id, Attempt>, id: Id, rows: seq<(Id, Attempt)>, i: nat)
    requires i < |rows| && Distinct(rows)
    ensures MissingAlerts(attempts, id, RowsOf(rows[..i + 1])) ==
      if rows[i].1.channel in AlertedChannels(attempts, id) then MissingAlerts(attempts, id, RowsOf(rows[..i]))
      else MissingAlerts(attempts, id, RowsOf(rows[..i]))[rows[i].0 := rows[i].1]
    ensures rows[i].0 !in MissingAlerts(attempts, id, RowsOf(rows[..i]))
  {
    RowsOfNext(rows, i);
  }

  lemma MissingAlertsAt(attempts: map<Id, Attempt>, id: Id, rows: seq<(Id, Attempt)>, i: nat)
    requires i < |rows| && Distinct(rows) && rows[i].1.channel !in AlertedChannels(attempts, id)
    ensures rows[i].0 in MissingAlerts(attempts, id, RowsOf(rows))
  {
  }

  /** (created_at, id) ascending, the order in which attempts are claimed. */
  predicate Older(attempts: map<Id, Attempt>, a: Id, b: Id)
    requires a in attempts && b in attempts
  {
    attempts[a].createdAt < attempts[b].createdAt || (attempts[a].createdAt == attempts[b].createdAt && a < b)
  }

  /** What a claim may take: deliverable now, and not on a skipped channel. */
  predicate Claimable(attempts: map<Id, Attempt>, a: Id, now: Time, skip: set<Channel>) {
    a in attempts && Deliverable(attempts, a, now) && attempts[a].channel !in skip
  }

  function Taken(claimed: seq<Id>): set<Id> {
    set a | a in claimed
  }

  /** A limit that is not positive means ten. */
  function EffectiveLimit(limit: int): nat {
    if limit <= 0 then 10 else limit
  }

  class Store {
    var events: map<Id, Event>
    var attempts: map<Id, Attempt>

    function Contents(): Db
      reads this
    {
      Db(events, attempts)
    }

    constructor ()
      ensures Contents() == Db(map[], map[])
    {
      events, attempts := map[], map[];
    }

    /** One INSERT; the primary key refuses an identifier in use. */
    method InsertDelivery(id: Id, row: Attempt) returns (ok: bool)
      modifies this`attempts
      ensures ok <==> id !in old(attempts)
      ensures attempts == if ok then old(attempts)[id := row] else old(attempts)
    {
      ok := id !in attempts;
      if ok { attempts := attempts[id := row]; }
    }

    /** The event and its alerts go in together, or the transaction rolls back
        and neither table has changed. */
    method CreateEventWithDeliveries(id: Id, e: Event, deliveries: seq<(Id, Attempt)>) returns (r: Result<bool>)
      requires Distinct(deliveries)
      modifies this
      ensures r == Ok(true) ==> CreateEvent(old(Contents()), id, e, RowsOf(deliveries)) == Ok(Contents())
      ensures r != Ok(true) ==> Contents() == old(Contents())
      ensures r == Ok(false) <==> KeyTaken(old(events), e.dedupeKey)
      ensures r.Err? ==> CreateEvent(old(Contents()), id, e, RowsOf(deliveries)).Err?
    {
      if KeyTaken(events, e.dedupeKey) { return Ok(false); }
      var savedEvents, savedAttempts := events, attempts;
      if id in events { return Err(UniqueViolation); }
      events := events[id := e];
      for i := 0 to |deliveries|
        invariant events == savedEvents[id := e] && savedAttempts == old(attempts)
        invariant attempts == savedAttempts + RowsOf(deliveries[..i])
        invariant RowsOf(deliveries[..i]).Keys !! savedAttempts.Keys
      {
        RowsOfNext(deliveries, i);
        var ok := InsertDelivery(deliveries[i].0, deliveries[i].1);
        if !ok {
          events, attempts := savedEvents, savedAttempts;
          RowsOfPrefix(deliveries, i + 1);
          assert deliveries[i].0 in RowsOf(deliveries);
          return Err(UniqueViolation);
        }
      }
      assert deliveries[..|deliveries|] == deliveries;
      r := Ok(true);
    }

    /** The conditional update, the cancellation on mute, and a recovery for
        every alert owed one, inserted one by one. */
    method TransitionEvent(id: Id, c: StateChange) returns (r: Result<()>, links: map<Id, Id>)
      modifies this
      ensures r.Ok? ==> Tables.TransitionEvent(old(Contents()), id, c, links) == Ok(Contents())
      ensures r.Err? ==> Contents() == old(Contents()) && Tables.TransitionEvent(old(Contents()), id, c, links) == Err(r.error)
    {
      links := map[];
      if id !in events || events[id].state != c.from { return Err(StateChanged), links; }
      if c.from == Resolved && c.to != Resolved && KeyTaken(events, events[id].dedupeKey) { return Err(UniqueViolation), links; }
      events := events[id := Moved(events[id], c)];
      if c.cancelAlerts { attempts := CancelQueued(attempts, id, c.at); }
      if c.recoveryMaxAttempts > 0 { links := QueueRecoveries(id, c.recoveryMaxAttempts, c.at); }
      r := Ok(());
    }

    method QueueRecoveries(id: Id, maxAttempts: nat, at: Time) returns (links: map<Id, Id>)
      requires maxAttempts > 0
      modifies this`attempts
      ensures AddRecoveries(old(attempts), id, links, maxAttempts, at) == Ok(attempts)
    {
      var before := attempts;
      var rest := AlertsToRecover(before, id);
      links := map[];
      while rest != {}
        invariant SomeRecovered(before, attempts, id, links, rest, maxAttempts, at)
        decreases rest
      {
        var a :| a in rest;
        var r: Id := NewId(attempts.Keys);
        ghost var was := attempts;
        var ok := InsertDelivery(r, RecoveryOf(a, before[a], maxAttempts, at));
        assert attempts - {r} == was;
        OneMoreRecovered(before, attempts, id, links, rest, maxAttempts, at, r, a);
        links := links[r := a];
        rest := rest - {a};
      }
    }

    /** A repeated report, with the alerts of a rise inserted one by one. */
    method RefreshOpenEvent(id: Id, severity: Severity, at: Time, alertsOnRise: seq<(Id, Attempt)>) returns (r: Result<()>)
      requires Distinct(alertsOnRise)
      modifies this
      ensures r.Ok? ==> Tables.RefreshOpenEvent(old(Contents()), id, severity, at, RowsOf(alertsOnRise)) == Ok(Contents())
      ensures r.Err? ==> Contents() == old(Contents())
      ensures r.Err? ==> Tables.RefreshOpenEvent(old(Contents()), id, severity, at, RowsOf(alertsOnRise)) == Err(r.error)
    {
      if id !in events || events[id].state == Resolved { return Err(NotFound); }
      var was, savedEvents := events[id], events;
      events := events[id := Refreshed(was, severity, at)];
      if was.state != Muted && SeverityRank(severity) > SeverityRank(was.severity) {
        var ok := InsertMissingAlerts(id, alertsOnRise);
        if !ok {
          events := savedEvents;
          return Err(UniqueViolation);
        }
      }
      r := Ok(());
    }

    method InsertMissingAlerts(id: Id, alerts: seq<(Id, Attempt)>) returns (ok: bool)
      requires Distinct(alerts)
      modifies this`attempts
      ensures var missing := MissingAlerts(old(attempts), id, RowsOf(alerts));
        && (ok <==> missing.Keys !! old(attempts).Keys)
        && attempts == if ok then old(attempts) + missing else old(attempts)
    {
      var before, alerted := attempts, AlertedChannels(attempts, id);
      for i := 0 to |alerts|
        invariant attempts == before + MissingAlerts(before, id, RowsOf(alerts[..i]))
        invariant MissingAlerts(before, id, RowsOf(alerts[..i])).Keys !! before.Keys
      {
        MissingAlertsNext(before, id, alerts, i);
        if alerts[i].1.channel !in alerted {
          var inserted := InsertDelivery(alerts[i].0, alerts[i].1);
          if !inserted {
            MissingAlertsAt(before, id, alerts, i);
            attempts := before;
            return false;
          }
        }
      }
      assert alerts[..|alerts|] == alerts;
      ok := true;
    }

    /** Take the oldest claimable attempts, as many as asked for. */
    method ClaimDue(now: Time, limit: int, skip: set<Channel>) returns (claimed: seq<Id>)
      modifies this`attempts
      ensures Contents() == Claim(old(Contents()), Taken(claimed), now)
      ensures |claimed| <= EffectiveLimit(limit)
      ensures forall i, j :: 0 <= i < j < |claimed| ==> claimed[i] != claimed[j]
      ensures forall a :: a in claimed ==> Claimable(old(attempts), a, now, skip)
      ensures forall a, b :: a in claimed && a in old(attempts) && Claimable(old(attempts), b, now, skip) && b !in claimed ==>
        Older(old(attempts), a, b)
      ensures |claimed| < EffectiveLimit(limit) ==> forall b :: Claimable(old(attempts), b, now, skip) ==> b in claimed
    {
      var before := attempts;
      var rest := set a | a in before && Claimable(before, a, now, skip);
      claimed := [];
      while rest != {} && |claimed| < EffectiveLimit(limit)
        invariant attempts == before && |claimed| <= EffectiveLimit(limit)
        invariant forall a :: a in claimed ==> Claimable(before, a, now, skip) && a !in rest
        invariant forall b :: Claimable(before, b, now, skip) ==> b in rest || b in claimed
        invariant forall b :: b in rest ==> Claimable(before, b, now, skip)
        invariant forall a, b :: a in claimed && b in rest ==> Older(before, a, b)
        invariant forall i, j :: 0 <= i < j < |claimed| ==> claimed[i] != claimed[j]
        decreases rest
      {
        var a := Oldest(before, rest);
        claimed := claimed + [a];
        rest := rest - {a};
      }
      attempts := Claim(Contents(), Taken(claimed), now).attempts;
    }

    /** Record the outcome of a claimed attempt, and queue the copy of a dead
        letter in the same transaction. */
    method MarkResult(a: Id, report: Report, copy: Option<Copy>) returns (r: Result<DeliveryState>)
      modifies this`attempts
      ensures r.Ok? ==> Tables.MarkResult(old(Contents()), a, report, copy) == Ok(Contents())
      ensures r.Ok? ==> r.value == Recorded(old(Contents()), old(attempts[a]), report).state
      ensures r.Err? ==> Contents() == old(Contents()) && Tables.MarkResult(old(Contents()), a, report, copy) == Err(r.error)
    {
      if a !in attempts || attempts[a].state != Sending { return Err(NotFound); }
      var saved := attempts;
      var stored := Recorded(Contents(), attempts[a], report);
      attempts := attempts[a := stored];
      if stored.state == DeadLetter && copy.Some? {
        var ok := QueueFallback(a, copy.value);
        if !ok {
          attempts := saved;
          return Err(UniqueViolation);
        }
      }
      r := Ok(stored.state);
    }

    method QueueFallback(source: Id, f: Copy) returns (ok: bool)
      modifies this`attempts
      ensures ok <==> Tables.QueueFallback(old(Contents()), source, f).Ok?
      ensures ok ==> Tables.QueueFallback(old(Contents()), source, f) == Ok(Contents())
    {
      if HasCopy(attempts, source) { return true; }
      var row := f.row.(fallbackOf := Some(source));
      if row.eventId !in events { return false; }
      ok := InsertDelivery(f.id, row);
      if !ok || events[row.eventId].state != Resolved || !HasRecoveries(attempts, row.eventId) { return; }
      ok := InsertDelivery(f.recoveryId, RecoveryOf(f.id, row, row.maxAttempts, row.createdAt));
    }
  }

  /** The least row of a set, by (created_at, id). */
  method Oldest(attempts: map<Id, Attempt>, among: set<Id>) returns (a: Id)
    requires among != {} && among <= attempts.Keys
    ensures a in among && forall b :: b in among && b != a ==> Older(attempts, a, b)
  {
    a :| a in among;
    var rest := among - {a};
    while rest != {}
      invariant rest <= among && a in among && a !in rest
      invariant forall b :: b in among && b !in rest && b != a ==> Older(attempts, a, b)
      decreases rest
    {
      var b :| b in rest;
      rest := rest - {b};
      if Older(attempts, b, a) { a := b; }
    }
  }
}
