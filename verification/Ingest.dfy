/** Ingesting a report under interference. */
module Ingest {
  import opened Domain
  import opened Tables
  import opened Protocol
  import opened Invariants
  import opened Effects
  import opened Identifiers
  import opened Services
  import opened Text

  datatype Status = Firing | Over

  /** A report as received. No status makes the key a plain idempotency key; no
      severity means the lowest. */
  datatype Input = Input(
    status: Option<Status>,
    typ: Option<EventType>,
    severity: Option<Severity>,
    source: string,
    category: string,
    message: string,
    dedupeKey: string)

  datatype Outcome = Created | Deduplicated | WasRefreshed | Closed | AlreadyClosed | NothingToClose

  predicate Valid(input: Input) {
    if input.status == Some(Over) then TrimSpace(input.dedupeKey) != ""
    else
      && (input.status == Some(Firing) ==> TrimSpace(input.dedupeKey) != "")
      && input.typ.Some?
      && TrimSpace(input.source) != ""
      && TrimSpace(input.message) != ""
  }

  /** The event a report describes. */
  function EventOf(input: Input, now: Time): Event
    requires input.typ.Some?
  {
    Event(input.typ.value, if input.severity.Some? then input.severity.value else Info, New,
          TrimSpace(input.source), TrimSpace(input.category), TrimSpace(input.dedupeKey), now, now, now, None)
  }

  predicate Owns(allowed: Option<set<string>>, source: string) {
    allowed.None? || source in allowed.value
  }

  /** Routing, for an unseen rule set: from an event to a list of channels, in
      which one may stand twice. */
  type Route = Event -> seq<Channel>

  ghost predicate ValidRoute(cfg: Config, route: Route) {
    forall e, c :: c in route(e) ==> c in cfg.channels
  }

  predicate OpenWithKey(s: System, id: Id, key: string) {
    id in s.db.events && s.db.events[id].dedupeKey == key && s.db.events[id].state != Resolved
  }

  /** Some open event has this key; an empty key is no key. */
  ghost predicate KeyHeld(s: System, key: string) {
    key != "" && exists i :: OpenWithKey(s, i, key)
  }

  /** The open event with this key, if there is one. */
  method OpenByKey(s: System, key: string) returns (found: Option<Id>)
    ensures found.Some? ==> OpenWithKey(s, found.value, key)
    ensures found.None? ==> forall i :: i in s.db.events ==> !OpenWithKey(s, i, key)
  {
    var hits := set i | i in s.db.events && OpenWithKey(s, i, key);
    if hits == {} {
      found := None;
      forall i | i in s.db.events ensures !OpenWithKey(s, i, key) { assert i !in hits; }
    } else {
      var i :| i in hits;
      found := Some(i);
    }
  }

  predicate NotNewer(s: System, i: Id, j: Id)
    requires i in s.db.events && j in s.db.events
  {
    s.db.events[i].createdAt < s.db.events[j].createdAt || (s.db.events[i].createdAt == s.db.events[j].createdAt && i <= j)
  }

  /** No event with this key is newer. */
  ghost predicate NewestWithKey(s: System, id: Id, key: string) {
    && id in s.db.events && s.db.events[id].dedupeKey == key
    && forall i :: i in s.db.events && s.db.events[i].dedupeKey == key ==> NotNewer(s, i, id)
  }

  /** The newest event with this key, open or closed. */
  method LatestByKey(s: System, key: string) returns (found: Option<Id>)
    ensures found.Some? ==> NewestWithKey(s, found.value, key)
    ensures found.None? ==> forall i :: i in s.db.events ==> s.db.events[i].dedupeKey != key
  {
    found := None;
    var rest := set i | i in s.db.events && s.db.events[i].dedupeKey == key;
    ghost var all := rest;
    while rest != {}
      invariant rest <= all && (found.None? ==> rest == all)
      invariant found.Some? ==> found.value in all
      invariant found.Some? ==> forall i :: i in all && i !in rest ==> NotNewer(s, i, found.value)
      decreases rest
    {
      var i :| i in rest;
      if found.None? || NotNewer(s, found.value, i) { found := Some(i); }
      rest := rest - {i};
    }
    forall i | i in s.db.events && s.db.events[i].dedupeKey == key
      ensures found.Some? && NotNewer(s, i, found.value)
    {
      assert i in all;
    }
  }

  /** The open event with this key, or else, after a gap, the newest one. */
  method EventByKey(cfg: Config, w: World, key: string) returns (found: Option<Id>, gaps: nat)
    requires ValidConfig(cfg) && IsWorld(cfg, w)
    ensures gaps <= 1 && (found.None? <==> NoneFound(w, gaps, key))
    ensures found.Some? ==> Found(w, gaps, found.value, key)
  {
    gaps := 0;
    if key == "" { return None, 0; }
    found := OpenByKey(w(0), key);
    if found.None? {
      gaps := 1;
      found := LatestByKey(w(1), key);
    }
  }

  /** No event has the key: none is open, and, after a gap, none is there at all. */
  ghost predicate NoneFound(w: World, gaps: nat, key: string) {
    || (key == "" && gaps == 0)
    || (gaps == 1 && !KeyHeld(w(0), key) && forall i :: i in w(1).db.events ==> w(1).db.events[i].dedupeKey != key)
  }

  /** The event with this key: the open one, or else, after a gap, the newest. */
  ghost predicate Found(w: World, gaps: nat, id: Id, key: string) {
    key != "" && if gaps == 0 then OpenWithKey(w(0), id, key) else gaps == 1 && !KeyHeld(w(0), key) && NewestWithKey(w(1), id, key)
  }

  /** A new event is stored exactly as described, with one alert for each entry
      of its route, in the same commit. */
  ghost predicate StoredWithAlerts(before: System, s: System, step: Step, e: Event, channels: seq<Channel>, maxAttempts: nat) {
    && step.Create? && step.e == e && step.id !in before.db.events
    && OneEach(step.newIds, channels)
    && s.db.events == before.db.events[step.id := e]
    && s.db.attempts == before.db.attempts + AlertRows(step.id, step.newIds, maxAttempts, e.createdAt)
  }

  ghost predicate Configured(cfg: Config, channels: seq<Channel>) {
    forall c :: c in channels ==> c in cfg.channels
  }

  /** What creating an event answered: it was stored, or an open event already
      has the key, or the insert was refused and the key is free again. */
  datatype Answer = Stored | Existing(id: Id, event: Event) | Conflict

  /** The insert itself: event and alerts in one transaction, refused when an
      open event holds the key. */
  method Insert(cfg: Config, s: System, e: Event, channels: seq<Channel>, maxAttempts: nat)
    returns (after: System, step: Step, done: bool)
    requires Known(s) && Configured(cfg, channels) && maxAttempts > 0 && e.state == New && e.resolvedAt.None?
    ensures done <==> !KeyHeld(s, e.dedupeKey)
    ensures after == Next(cfg, s, step)
    ensures done ==> StoredWithAlerts(s, after, step, e, channels, maxAttempts)
    ensures !done ==> after == s
  {
    var id := NewId(s.past.usedEvents);
    var newIds := BuildIds(s.past.usedAttempts, channels);
    assert newIds.Values <= cfg.channels by { AllConfigured(cfg, newIds, channels); }
    done := CreateEvent(s.db, id, e, AlertRows(id, newIds, maxAttempts, e.createdAt)).Ok?;
    KeyHeldIsTaken(s, e.dedupeKey);
    step := Create(id, e, newIds, maxAttempts);
    after := DoCreate(cfg, s, id, e, newIds, maxAttempts);
  }

  /** The partial unique index refuses exactly the keys of open events. */
  lemma KeyHeldIsTaken(s: System, key: string)
    ensures KeyHeld(s, key) <==> KeyTaken(s.db.events, key)
  {
    if KeyTaken(s.db.events, key) {
      var i :| i in s.db.events && s.db.events[i].dedupeKey == key && s.db.events[i].state != Resolved;
      assert OpenWithKey(s, i, key);
    }
  }

  lemma AllConfigured(cfg: Config, newIds: map<Id, Channel>, channels: seq<Channel>)
    requires OneEach(newIds, channels) && Configured(cfg, channels)
    ensures newIds.Values <= cfg.channels
  {
    forall c | c in newIds.Values ensures c in cfg.channels { OneEachValues(newIds, channels, c); }
  }

  /** When each answer is given: the event is stored exactly when no open event
      held the key at the look and at the insert; a conflict needs one that held it
      at the insert and none at the look after it. */
  ghost predicate AnswerFits(w: World, gap0: nat, gaps: nat, key: string, answer: Answer) {
    match answer
    case Stored => gaps == gap0 + 1 && !KeyHeld(w(gap0), key) && !KeyHeld(w(gap0 + 1), key)
    case Existing(id, e) =>
      && (gaps == gap0 || (gaps == gap0 + 2 && !KeyHeld(w(gap0), key) && KeyHeld(w(gap0 + 1), key)))
      && key != "" && OpenWithKey(w(gaps), id, key) && w(gaps).db.events[id] == e
    case Conflict => gaps == gap0 + 2 && !KeyHeld(w(gap0), key) && KeyHeld(w(gap0 + 1), key) && !KeyHeld(w(gap0 + 2), key)
  }

  /** Create the event unless an open one has its key: a look, the insert, and
      after a refused insert another look, with gaps between. */
  method CreateWithDeliveries(cfg: Config, w: World, e: Event, channels: seq<Channel>, maxAttempts: nat, gap0: nat)
    returns (s: System, answer: Answer, commit: Commit, before: System, gaps: nat)
    requires ValidConfig(cfg) && IsWorld(cfg, w) && Configured(cfg, channels) && maxAttempts > 0
    requires e.state == New && e.resolvedAt.None?
    ensures gap0 <= gaps && CommitsOnce(cfg, w, gaps, before, commit, s)
    ensures AnswerFits(w, gap0, gaps, e.dedupeKey, answer)
    ensures answer.Stored? <==> !KeyHeld(w(gap0), e.dedupeKey) && !KeyHeld(w(gap0 + 1), e.dedupeKey)
    ensures commit.Did? <==> answer.Stored?
    ensures commit.Did? ==> StoredWithAlerts(before, s, commit.step, e, channels, maxAttempts)
  {
    gaps := gap0;
    s := w(gaps);
    if e.dedupeKey != "" {
      var found := OpenByKey(s, e.dedupeKey);
      if found.Some? { return s, Existing(found.value, s.db.events[found.value]), Nothing, s, gaps; }
    }

    gaps := gaps + 1;
    before := w(gaps);
    WorldKnown(cfg, w, gaps);
    var after, step, done := Insert(cfg, before, e, channels, maxAttempts);
    if done { return after, Stored, Did(step), before, gaps; }

    gaps := gaps + 1;
    s := w(gaps);
    commit, before := Nothing, s;
    var again := OpenByKey(s, e.dedupeKey);
    answer := if again.Some? then Existing(again.value, s.db.events[again.value]) else Conflict;
  }

  /** The channels to alert if this report turns out to be a rise. */
  function RiseChannels(route: Route, stored: Event, severity: Severity): seq<Channel> {
    if stored.typ == Incident && SeverityRank(severity) > SeverityRank(stored.severity)
    then route(stored.(severity := severity)) else []
  }

  /** The store takes the report of an open event for a rise. */
  predicate Rises(was: Event, severity: Severity) {
    was.state != Muted && Graver(severity, was.severity)
  }

  /** A repeated report of the open event `step.id`, read earlier as `stored`. The
      alerts are offered by what was read; whether it is a rise, and which of them
      are missing, is decided by what is stored. */
  ghost predicate RefreshedWithAlerts(before: System, s: System, step: Step, route: Route, stored: Event, e: Event, maxAttempts: nat) {
    && step.Refresh? && step.id in before.db.events && before.db.events[step.id].state != Resolved
    && ReadBefore(before, step.id, stored)
    && OneEach(step.newIds, RiseChannels(route, stored, e.severity)) && step.newIds.Keys !! before.db.attempts.Keys
    && var was := before.db.events[step.id];
    && s.db.events == before.db.events[step.id := Refreshed(was, e.severity, e.createdAt)]
    && s.db.attempts == before.db.attempts
         + if Rises(was, e.severity)
           then MissingAlerts(before.db.attempts, step.id, AlertRows(step.id, step.newIds, maxAttempts, e.createdAt))
           else map[]
  }

  /** The commit touches one event, which carries the report's key and belongs
      to a source the caller may report. */
  ghost predicate TouchesOnly(before: System, s: System, id: Id, key: string, allowed: Option<set<string>>) {
    && id in s.db.events && s.db.events[id].dedupeKey == key && (allowed.Some? ==> s.db.events[id].source in allowed.value)
    && forall i :: i in before.db.events && i != id ==> i in s.db.events && s.db.events[i] == before.db.events[i]
  }

  /** What reporting `e` may do, whatever the others do meanwhile: at most one
      commit, answered as what it was. `Created` is answered exactly when that
      commit stored the event with its alerts. */
  ghost predicate ReportOk(route: Route, maxAttempts: nat, e: Event, firing: bool, allowed: Option<set<string>>,
                           before: System, commit: Commit, s: System, r: Result<Outcome>)
  {
    if commit.Nothing? then
      r.Err? || r.value == Deduplicated
    else if commit.step.Create? then
      && r == Ok(Created)
      && StoredWithAlerts(before, s, commit.step, e, route(e), maxAttempts)
      && TouchesOnly(before, s, commit.step.id, e.dedupeKey, allowed)
    else
      && r == Ok(WasRefreshed) && firing && commit.step.Refresh? && OpenWithKey(before, commit.step.id, e.dedupeKey)
      && (exists stored :: RefreshedWithAlerts(before, s, commit.step, route, stored, e, maxAttempts))
      && TouchesOnly(before, s, commit.step.id, e.dedupeKey, allowed)
  }

  /** An open event with the key, of a source the caller may or may not report. */
  ghost predicate HeldFor(s: System, key: string, allowed: Option<set<string>>, owned: bool) {
    exists i :: OpenWithKey(s, i, key) && Owns(allowed, s.db.events[i].source) == owned
  }

  /** An event that was open with the key is not open after the next gap. */
  ghost predicate SlippedAway(w: World, n: nat, key: string) {
    exists i :: OpenWithKey(w(n), i, key) && !OpenWithKey(w(n + 1), i, key)
  }

  /** Why a report is answered as it is. A report is lost only to an open event
      with its key: `Deduplicated` was read as such a one, and for a firing report
      only after the event to refresh had gone; an error means such a one of a
      source that is not the caller's, or one that was there for the insert and
      gone at the look after it. */
  ghost predicate Because(w: World, gaps: nat, key: string, firing: bool, allowed: Option<set<string>>, r: Result<Outcome>) {
    match r
    case Ok(Created) => !KeyHeld(w(gaps), key)
    case Ok(WasRefreshed) => firing && key != "" && HeldFor(w(gaps), key, allowed, true)
    case Ok(Deduplicated) => key != "" && HeldFor(w(gaps), key, allowed, true) && (firing ==> exists n :: 0 <= n < gaps && SlippedAway(w, n, key))
    case Err(SourceNotAllowed) => key != "" && HeldFor(w(gaps), key, allowed, false)
    case Err(UniqueViolation) => gaps > 0 && KeyHeld(w(gaps - 1), key) && !KeyHeld(w(gaps), key)
    case _ => false
  }

  /** No open event holds the key in any state the report comes across. */
  ghost predicate FreeAllAlong(w: World, gaps: nat, key: string) {
    forall n :: 0 <= n <= gaps ==> !KeyHeld(w(n), key)
  }

  /** A key that is free all along makes a new event. */
  lemma FreeKeyCreates(w: World, gaps: nat, key: string, firing: bool, allowed: Option<set<string>>, r: Result<Outcome>)
    requires Because(w, gaps, key, firing, allowed, r)
    requires FreeAllAlong(w, gaps, key)
    ensures r == Ok(Created)
  {
    assert !KeyHeld(w(gaps), key);
    assert gaps > 0 ==> !KeyHeld(w(gaps - 1), key);
  }

  /** A key that one open event holds all along: a firing report refreshes it, one
      without a status is a duplicate, and another source's event refuses both. */
  lemma HeldKeyAnswers(cfg: Config, w: World, gaps: nat, key: string, firing: bool, allowed: Option<set<string>>, r: Result<Outcome>, i: Id)
    requires ValidConfig(cfg) && IsWorld(cfg, w) && key != "" && Because(w, gaps, key, firing, allowed, r)
    requires OpenWithKey(w(0), i, key) && forall n :: 0 <= n <= gaps ==> OpenWithKey(w(n), i, key)
    ensures r == if !Owns(allowed, w(0).db.events[i].source) then Err(SourceNotAllowed)
                 else if firing then Ok(WasRefreshed) else Ok(Deduplicated)
  {
    assert OpenWithKey(w(0), i, key) && OpenWithKey(w(gaps), i, key);
    WorldInv(cfg, w, gaps);
    WorldKnown(cfg, w, 0);
    ReadStays(cfg, w, 0, gaps, i, w(0).db.events[i]);
    forall n | 0 <= n < gaps ensures !SlippedAway(w, n, key) {
      assert OpenWithKey(w(n), i, key) && OpenWithKey(w(n + 1), i, key);
      OnlyHolder(cfg, w, n, key, i);
    }
    OnlyHolder(cfg, w, gaps, key, i);
  }

  lemma OnlyHolder(cfg: Config, w: World, n: nat, key: string, i: Id)
    requires ValidConfig(cfg) && IsWorld(cfg, w) && key != "" && OpenWithKey(w(n), i, key)
    ensures forall j :: OpenWithKey(w(n), j, key) ==> j == i
  {
    WorldInv(cfg, w, n);
    forall j | OpenWithKey(w(n), j, key) ensures j == i {
      assert SameOpenKey(w(n).db.events[i], w(n).db.events[j]);
    }
  }

  // --- Closing by key ------------------------------------------------------------------------------

  /** The answer to the source for what the transition answered. */
  function CloseAnswer(answer: Result<Event>, commit: Commit): Result<Outcome> {
    if answer.Err? then (if answer.error == NotFound then Ok(NothingToClose) else Err(answer.error))
    else Ok(if commit.Did? then Closed else AlreadyClosed)
  }

  /** Closing event `id`, found after `g` gaps: refused when its source is not the
      caller's, else a transition of that event to `Resolved`. */
  ghost predicate ClosesFound(cfg: Config, w: World, g: nat, id: Id, notifier: nat, allowed: Option<set<string>>, now: Time,
                              before: System, commit: Commit, s: System, r: Result<Outcome>, gaps: nat)
    requires id in w(g).db.events
  {
    if !Owns(allowed, w(g).db.events[id].source) then
      r == Err(SourceNotAllowed) && commit.Nothing? && s == before == w(gaps) && gaps == g
    else
      exists answer :: r == CloseAnswer(answer, commit)
        && Transitions(cfg, w, g, notifier, id, w(g).db.events[id], now, SourceResolve, s, answer, commit, before, gaps)
  }

  /** What closing by key does: nothing when no event has the key, else what
      closing the event found does. */
  ghost predicate ResolveOk(cfg: Config, w: World, notifier: nat, key: string, allowed: Option<set<string>>, now: Time,
                            before: System, commit: Commit, s: System, r: Result<Outcome>, gaps: nat)
  {
    if NoneFound(w, gaps, key) then
      r == Ok(NothingToClose) && commit.Nothing? && s == before == w(gaps)
    else
      exists id, g :: 0 <= g <= 1 && Found(w, g, id, key) && ClosesFound(cfg, w, g, id, notifier, allowed, now, before, commit, s, r, gaps)
  }

  /** Close the event with this key. */
  method Resolve(cfg: Config, w: World, notifier: nat, key: string, allowed: Option<set<string>>, now: Time)
    returns (s: System, r: Result<Outcome>, commit: Commit, before: System, gaps: nat)
    requires ValidConfig(cfg) && IsWorld(cfg, w)
    ensures CommitsOnce(cfg, w, gaps, before, commit, s)
    ensures ResolveOk(cfg, w, notifier, key, allowed, now, before, commit, s, r, gaps)
    ensures commit.Did? ==> r == Ok(Closed) && commit.step.Change? && TouchesOnly(before, s, commit.step.id, key, allowed)
  {
    var found;
    found, gaps := EventByKey(cfg, w, key);
    s := w(gaps);
    if found.None? { return s, Ok(NothingToClose), Nothing, s, gaps; }
    var id, e, read := found.value, s.db.events[found.value], gaps;
    if !Owns(allowed, e.source) {
      r, commit, before := Err(SourceNotAllowed), Nothing, s;
    } else {
      WorldKnown(cfg, w, gaps);
      var answer;
      s, answer, commit, before, gaps := Transition(cfg, w, notifier, id, e, now, SourceResolve, gaps);
      ReadStays(cfg, w, read, gaps, id, e);
      r := CloseAnswer(answer, commit);
    }
    assert ClosesFound(cfg, w, read, id, notifier, allowed, now, before, commit, s, r, gaps);
  }

  /** With one open event of the caller's holding the key, closing by key answers
      that nothing was open only when others closed or removed that event first:
      "already closed" exactly when it is closed at the last look, "nothing to
      close" exactly when it is gone. */
  lemma NotClosedIff(cfg: Config, w: World, notifier: nat, key: string, allowed: Option<set<string>>, now: Time,
                     before: System, commit: Commit, s: System, r: Result<Outcome>, gaps: nat, i: Id)
    requires ValidConfig(cfg) && IsWorld(cfg, w) && key != ""
    requires ResolveOk(cfg, w, notifier, key, allowed, now, before, commit, s, r, gaps)
    requires OpenWithKey(w(0), i, key) && Owns(allowed, w(0).db.events[i].source) && r.Ok?
    ensures r == Ok(AlreadyClosed) <==> i in w(gaps).db.events && w(gaps).db.events[i].state == Resolved
    ensures r == Ok(NothingToClose) <==> i !in w(gaps).db.events
    ensures r == Ok(Closed) <==> OpenWithKey(w(gaps), i, key)
  {
    OnlyHolder(cfg, w, 0, key, i);
    WorldKnown(cfg, w, 0);
    ReadStays(cfg, w, 0, gaps, i, w(0).db.events[i]);
    var id, g :| 0 <= g <= 1 && Found(w, g, id, key) && ClosesFound(cfg, w, g, id, notifier, allowed, now, before, commit, s, r, gaps);
    assert id == i && g == 0;
  }

  /** Left alone, an open event of the caller's is closed by its key. */
  lemma HeldKeyCloses(cfg: Config, w: World, notifier: nat, key: string, allowed: Option<set<string>>, now: Time,
                      before: System, commit: Commit, s: System, r: Result<Outcome>, gaps: nat, i: Id)
    requires ValidConfig(cfg) && IsWorld(cfg, w) && key != ""
    requires ResolveOk(cfg, w, notifier, key, allowed, now, before, commit, s, r, gaps)
    requires OpenWithKey(w(0), i, key) && Owns(allowed, w(0).db.events[i].source) && Steady(w, 0, gaps, i, w(0).db.events[i].state)
    ensures r == Ok(Closed) && commit.Did? && commit.step.Change? && commit.step.id == i && s.db.events[i].state == Resolved
  {
    OnlyHolder(cfg, w, 0, key, i);
    var id, g :| 0 <= g <= 1 && Found(w, g, id, key) && ClosesFound(cfg, w, g, id, notifier, allowed, now, before, commit, s, r, gaps);
    assert id == i && g == 0;
    var e := w(0).db.events[i];
    var answer :| r == CloseAnswer(answer, commit)
      && Transitions(cfg, w, 0, notifier, i, e, now, SourceResolve, s, answer, commit, before, gaps);
    SteadyTransition(cfg, w, 0, notifier, i, e, now, SourceResolve, s, answer, commit, before, gaps);
  }

  lemma {:induction false} ReadStays(cfg: Config, w: World, lo: nat, hi: nat, id: Id, e: Event)
    requires ValidConfig(cfg) && IsWorld(cfg, w) && lo <= hi && ReadBefore(w(lo), id, e)
    ensures ReadBefore(w(hi), id, e)
    decreases hi - lo
  {
    if lo < hi {
      GapKeepsRead(cfg, w, lo, id, e);
      ReadStays(cfg, w, lo + 1, hi, id, e);
    }
  }

  /** A repeated firing report of the event `id`, read earlier as `stored`. */
  method RefreshStored(cfg: Config, s: System, route: Route, maxAttempts: nat, id: Id, stored: Event, e: Event)
    returns (after: System, step: Step, done: bool)
    requires Known(s) && ReadBefore(s, id, stored) && ValidRoute(cfg, route) && maxAttempts > 0
    ensures step.Refresh? && step.id == id && after == Next(cfg, s, step)
    ensures done <==> id in s.db.events && s.db.events[id].state != Resolved
    ensures done ==> RefreshedWithAlerts(s, after, step, route, stored, e, maxAttempts)
    ensures !done ==> after == s
  {
    var channels := RiseChannels(route, stored, e.severity);
    var newIds := BuildIds(s.past.usedAttempts, channels);
    AllConfigured(cfg, newIds, channels);
    forall x | true ensures SeverityRank(e.severity) > SeverityRank(x) <==> Graver(e.severity, x) { RankOrders(e.severity, x); }
    done := RefreshOpenEvent(s.db, id, e.severity, e.createdAt, AlertRows(id, newIds, maxAttempts, e.createdAt)).Ok?;
    step := Refresh(id, e.severity, e.createdAt, newIds, maxAttempts);
    after := DoRefresh(cfg, s, id, e.severity, e.createdAt, newIds, maxAttempts);
  }

  // --- What a rise alerts -------------------------------------------------------------------------

  ghost predicate AllAlerted(attempts: map<Id, Attempt>, id: Id, channels: seq<Channel>) {
    forall c :: c in channels ==> c in AlertedChannels(attempts, id)
  }

  /** After a committed refresh every channel routed at the new severity has an
      alert, if and only if each had one already, or the report was a rise both
      over what was read and over what was stored. */
  lemma RoutedAreAlertedIff(before: System, s: System, step: Step, route: Route, stored: Event, e: Event, maxAttempts: nat)
    requires RefreshedWithAlerts(before, s, step, route, stored, e, maxAttempts)
    ensures var routed := route(stored.(severity := e.severity));
      AllAlerted(s.db.attempts, step.id, routed) <==>
        || AllAlerted(before.db.attempts, step.id, routed)
        || (stored.typ == Incident && Graver(e.severity, stored.severity)
            && Rises(before.db.events[step.id], e.severity))
  {
    var m, offered := before.db.attempts, RiseChannels(route, stored, e.severity);
    RankOrders(e.severity, stored.severity);
    if Rises(before.db.events[step.id], e.severity) {
      var rows := MissingAlerts(m, step.id, AlertRows(step.id, step.newIds, maxAttempts, e.createdAt));
      MissingAreAlerted(m, step.id, step.newIds, offered, maxAttempts, e.createdAt);
      if AllAlerted(m, step.id, route(stored.(severity := e.severity))) { StillAlerted(m, rows, step.id, route(stored.(severity := e.severity))); }
      assert m + map[] == m;
    } else {
      assert s.db.attempts == m;
    }
  }

  lemma StillAlerted(attempts: map<Id, Attempt>, rows: map<Id, Attempt>, id: Id, channels: seq<Channel>)
    requires rows.Keys !! attempts.Keys && AllAlerted(attempts, id, channels)
    ensures AllAlerted(attempts + rows, id, channels)
  {
    forall c | c in channels ensures c in AlertedChannels(attempts + rows, id) {
      assert c in AlertedChannels(attempts, id);
      var a :| a in attempts && attempts[a].eventId == id && attempts[a].kind == Alert && attempts[a].channel == c;
      assert (attempts + rows)[a] == attempts[a];
    }
  }

  /** The missing alerts reach all channels offered, and none is taken away. */
  lemma MissingAreAlerted(attempts: map<Id, Attempt>, id: Id, newIds: map<Id, Channel>, offered: seq<Channel>, maxAttempts: nat, at: Time)
    requires OneEach(newIds, offered) && newIds.Keys !! attempts.Keys
    ensures AllAlerted(attempts + MissingAlerts(attempts, id, AlertRows(id, newIds, maxAttempts, at)), id, offered)
    ensures offered == [] ==> MissingAlerts(attempts, id, AlertRows(id, newIds, maxAttempts, at)) == map[]
  {
    forall c | c in offered
      ensures c in AlertedChannels(attempts + MissingAlerts(attempts, id, AlertRows(id, newIds, maxAttempts, at)), id)
    {
      OneEachValues(newIds, offered, c);
      var a :| a in newIds && newIds[a] == c;
      OfferedIsAlerted(attempts, id, newIds, a, maxAttempts, at);
    }
    var ids :| Names(ids, newIds, offered);
  }

  lemma OfferedIsAlerted(attempts: map<Id, Attempt>, id: Id, newIds: map<Id, Channel>, a: Id, maxAttempts: nat, at: Time)
    requires a in newIds && newIds.Keys !! attempts.Keys
    ensures newIds[a] in AlertedChannels(attempts + MissingAlerts(attempts, id, AlertRows(id, newIds, maxAttempts, at)), id)
  {
    var rows := MissingAlerts(attempts, id, AlertRows(id, newIds, maxAttempts, at));
    var after, c := attempts + rows, newIds[a];
    if c in AlertedChannels(attempts, id) {
      var b :| b in attempts && attempts[b].eventId == id && attempts[b].kind == Alert && attempts[b].channel == c;
      assert after[b] == attempts[b];
    } else {
      assert a in rows && after[a] == rows[a];
    }
  }

  /** A report that offers no alerts. */
  lemma RefreshAlone(cfg: Config, s: System, id: Id, severity: Severity, at: Time, maxAttempts: nat)
    requires maxAttempts > 0 && id in s.db.events && s.db.events[id].state != Resolved
    ensures Next(cfg, s, Refresh(id, severity, at, map[], maxAttempts)) ==
      s.(db := Db(s.db.events[id := Refreshed(s.db.events[id], severity, at)], s.db.attempts))
  {
    var none: map<Id, Channel> := map[];
    assert MissingAlerts(s.db.attempts, id, AlertRows(id, none, maxAttempts, at)) == map[];
    assert s.past.usedAttempts + none.Keys == s.past.usedAttempts;
  }

  /** A rise can alert nobody: for every open event that is not muted, when another
      report lowers its severity between the read and the update. */
  lemma LoweredInBetween(cfg: Config, s: System, route: Route, id: Id, low: Severity, at: Time, e: Event, maxAttempts: nat)
    requires Known(s) && maxAttempts > 0 && id in s.db.events && s.db.events[id].state != Resolved && s.db.events[id].state != Muted
    requires Graver(e.severity, low) && !Graver(e.severity, s.db.events[id].severity)
    ensures var step := Refresh(id, e.severity, e.createdAt, map[], maxAttempts);
      var before := Next(cfg, s, Refresh(id, low, at, map[], maxAttempts)); var after := Next(cfg, before, step);
      && RefreshedWithAlerts(before, after, step, route, s.db.events[id], e, maxAttempts)
      && Rises(before.db.events[id], e.severity) && after.db.attempts == s.db.attempts
  {
    var none: map<Id, Channel>, nobody: seq<Channel> := map[], [];
    assert Names([], none, nobody);
    RefreshAlone(cfg, s, id, low, at, maxAttempts);
    RefreshAlone(cfg, Next(cfg, s, Refresh(id, low, at, map[], maxAttempts)), id, e.severity, e.createdAt, maxAttempts);
  }

  /** The event to refresh has gone, so its key may be free: create once more. */
  method ReportAgain(cfg: Config, w: World, route: Route, maxAttempts: nat, e: Event, allowed: Option<set<string>>, gap0: nat)
    returns (s: System, r: Result<Outcome>, commit: Commit, before: System, gaps: nat)
    requires ValidConfig(cfg) && IsWorld(cfg, w) && ValidRoute(cfg, route) && maxAttempts > 0
    requires e.state == New && e.resolvedAt.None? && Owns(allowed, e.source)
    requires exists n :: 0 <= n < gap0 && SlippedAway(w, n, e.dedupeKey)
    ensures CommitsOnce(cfg, w, gaps, before, commit, s)
    ensures ReportOk(route, maxAttempts, e, true, allowed, before, commit, s, r)
    ensures Because(w, gaps, e.dedupeKey, true, allowed, r)
  {
    var answer;
    s, answer, commit, before, gaps := CreateWithDeliveries(cfg, w, e, route(e), maxAttempts, gap0);
    if answer.Stored? { return s, Ok(Created), commit, before, gaps; }
    if answer.Conflict? { return s, Err(UniqueViolation), Nothing, before, gaps; }
    r := if Owns(allowed, answer.event.source) then Ok(Deduplicated) else Err(SourceNotAllowed);
  }

  /** A report of something that is happening: create, else refresh, else, when
      the event was closed in the meantime, create once more. */
  method Report(cfg: Config, w: World, route: Route, maxAttempts: nat, e: Event, firing: bool, allowed: Option<set<string>>)
    returns (s: System, r: Result<Outcome>, commit: Commit, before: System, gaps: nat)
    requires ValidConfig(cfg) && IsWorld(cfg, w) && ValidRoute(cfg, route) && maxAttempts > 0
    requires e.state == New && e.resolvedAt.None? && Owns(allowed, e.source)
    ensures CommitsOnce(cfg, w, gaps, before, commit, s)
    ensures ReportOk(route, maxAttempts, e, firing, allowed, before, commit, s, r)
    ensures Because(w, gaps, e.dedupeKey, firing, allowed, r)
  {
    var answer;
    s, answer, commit, before, gaps := CreateWithDeliveries(cfg, w, e, route(e), maxAttempts, 0);
    if answer.Stored? { return s, Ok(Created), commit, before, gaps; }
    if answer.Conflict? { return s, Err(UniqueViolation), Nothing, before, gaps; }
    if !Owns(allowed, answer.event.source) { return s, Err(SourceNotAllowed), Nothing, before, gaps; }
    if !firing { return s, Ok(Deduplicated), Nothing, before, gaps; }

    WorldKnown(cfg, w, gaps);
    GapKeepsRead(cfg, w, gaps, answer.id, answer.event);
    ghost var read := gaps;
    gaps := gaps + 1;
    before := w(gaps);
    WorldKnown(cfg, w, gaps);
    var after, step, done := RefreshStored(cfg, before, route, maxAttempts, answer.id, answer.event, e);
    if done {
      assert OpenWithKey(before, answer.id, e.dedupeKey);
      return after, Ok(WasRefreshed), Did(step), before, gaps;
    }
    assert SlippedAway(w, read, e.dedupeKey);

    s, r, commit, before, gaps := ReportAgain(cfg, w, route, maxAttempts, e, allowed, gaps + 1);
  }

  // --- The whole operation ---------------------------------------------------------------------------

  /** Something the report must carry is missing: for a close the key, else the
      type, the source or the message, and for a firing report the key. */
  ghost predicate Incomplete(input: Input) {
    if input.status == Some(Over) then Blank(input.dedupeKey)
    else input.typ.None? || Blank(input.source) || Blank(input.message) || (input.status == Some(Firing) && Blank(input.dedupeKey))
  }

  lemma ValidIffComplete(input: Input)
    ensures Valid(input) <==> !Incomplete(input)
  {
    TrimmedAway(input.dedupeKey);
    TrimmedAway(input.source);
    TrimmedAway(input.message);
  }

  /** The report names a source that the caller may not report. */
  ghost predicate ForeignSource(input: Input, allowed: Option<set<string>>) {
    allowed.Some? && !Blank(input.source) && TrimSpace(input.source) !in allowed.value
  }

  /** The stored event says what the report said, with the lowest severity if it
      named none, and is new as of now. */
  ghost predicate AsReported(input: Input, e: Event, now: Time) {
    && input.typ == Some(e.typ) && e.state == New && e.resolvedAt.None?
    && (match input.severity case Some(severity) => e.severity == severity case None => e.severity == Info)
    && e.source == TrimSpace(input.source) && e.category == TrimSpace(input.category) && e.dedupeKey == TrimSpace(input.dedupeKey)
    && e.createdAt == now && e.lastSeenAt == now
  }

  /** One report, from validation to the answer, with arbitrary interference. */
  method IngestFor(cfg: Config, w: World, route: Route, notifier: nat, maxAttempts: nat, input: Input, allowed: Option<set<string>>, now: Time)
    returns (s: System, r: Result<Outcome>, commit: Commit, before: System, gaps: nat)
    requires ValidConfig(cfg) && IsWorld(cfg, w) && ValidRoute(cfg, route) && maxAttempts > 0
    ensures CommitsOnce(cfg, w, gaps, before, commit, s)
    ensures Incomplete(input) ==> r == Err(Validation) && commit.Nothing?
    ensures !Incomplete(input) && ForeignSource(input, allowed) ==> r == Err(SourceNotAllowed) && commit.Nothing?
    ensures !Incomplete(input) && !ForeignSource(input, allowed) && input.status == Some(Over) ==>
      ResolveOk(cfg, w, notifier, TrimSpace(input.dedupeKey), allowed, now, before, commit, s, r, gaps)
    ensures !Incomplete(input) && !ForeignSource(input, allowed) && input.status != Some(Over) ==>
      && ReportOk(route, maxAttempts, EventOf(input, now), input.status == Some(Firing), allowed, before, commit, s, r)
      && Because(w, gaps, TrimSpace(input.dedupeKey), input.status == Some(Firing), allowed, r)
      && (FreeAllAlong(w, gaps, TrimSpace(input.dedupeKey)) ==> r == Ok(Created))
    ensures commit.Did? ==> TouchesOnly(before, s, commit.step.id, TrimSpace(input.dedupeKey), allowed)
    ensures commit.Did? && commit.step.Create? ==> AsReported(input, s.db.events[commit.step.id], now)
  {
    ValidIffComplete(input);
    TrimmedAway(input.source);
    s, gaps := w(0), 0;
    if !Valid(input) { return s, Err(Validation), Nothing, s, 0; }
    var src := TrimSpace(input.source);
    if allowed.Some? && src != "" && src !in allowed.value { return s, Err(SourceNotAllowed), Nothing, s, 0; }
    if input.status == Some(Over) {
      s, r, commit, before, gaps := Resolve(cfg, w, notifier, TrimSpace(input.dedupeKey), allowed, now);
    } else {
      var e := EventOf(input, now);
      s, r, commit, before, gaps := Report(cfg, w, route, maxAttempts, e, input.status == Some(Firing), allowed);
      if FreeAllAlong(w, gaps, e.dedupeKey) { FreeKeyCreates(w, gaps, e.dedupeKey, input.status == Some(Firing), allowed, r); }
    }
  }
}
