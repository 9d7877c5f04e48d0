/** The service operations, each a series of store calls with anything at all
    happening in between. A world says what each call finds. */
module Services {
  import opened Domain
  import opened Tables
  import opened Protocol
  import opened Invariants
  import opened Effects
  import opened Finality
  import opened Outcomes
  import opened Identifiers
  import Delivery

  /** The system when an operation starts is `w(0)`; `w(n)` is what the other
      parties have made of it by the end of the n-th gap. */
  type World = nat -> System

  ghost predicate LeadsTo(cfg: Config, s: System, later: System) {
    exists steps :: later == Run(cfg, s, steps)
  }

  /** The system starts after some run from the empty store, and in each gap the
      others take some list of steps. */
  ghost predicate Lived(cfg: Config, w: World, n: nat) {
    LeadsTo(cfg, if n == 0 then INIT else w(n - 1), w(n))
  }

  ghost predicate IsWorld(cfg: Config, w: World) {
    forall n: nat :: Lived(cfg, w, n)
  }

  /** The world in which the operation starts after the run `start`, and the others
      take the steps `env(n)` in the n-th gap. */
  function Meanwhile(cfg: Config, start: seq<Step>, env: nat -> seq<Step>, n: nat): System {
    if n == 0 then Run(cfg, INIT, start) else Run(cfg, Meanwhile(cfg, start, env, n - 1), env(n - 1))
  }

  /** Whatever the others do, there is a world in which they do it. */
  lemma AnyInterference(cfg: Config, start: seq<Step>, env: nat -> seq<Step>)
    ensures IsWorld(cfg, (n: nat) => Meanwhile(cfg, start, env, n))
  {
    var w := (n: nat) => Meanwhile(cfg, start, env, n);
    forall n: nat ensures Lived(cfg, w, n) {
      var steps := if n == 0 then start else env(n - 1);
      assert w(n) == Run(cfg, if n == 0 then INIT else w(n - 1), steps);
    }
  }

  lemma {:induction false} WorldInv(cfg: Config, w: World, n: nat)
    requires ValidConfig(cfg) && IsWorld(cfg, w)
    ensures Inv(cfg, w(n))
  {
    assert Lived(cfg, w, n);
    var steps :| w(n) == Run(cfg, if n == 0 then INIT else w(n - 1), steps);
    if n == 0 {
      Delivery.Reachable(cfg, steps);
    } else {
      WorldInv(cfg, w, n - 1);
      Delivery.RunKeepsInv(cfg, w(n - 1), steps);
    }
  }

  /** What was seen before a gap is settled after it. */
  lemma GapSettles(cfg: Config, w: World, n: nat)
    requires ValidConfig(cfg) && IsWorld(cfg, w)
    ensures Settled(w(n), w(n + 1))
  {
    WorldInv(cfg, w, n);
    assert Lived(cfg, w, n + 1);
    var steps :| w(n + 1) == Run(cfg, w(n), steps);
    Delivery.RunSettles(cfg, w(n), steps);
  }

  /** What an operation read before a gap is still true of the event's origin
      after it. */
  lemma GapKeepsRead(cfg: Config, w: World, n: nat, id: Id, e: Event)
    requires ValidConfig(cfg) && IsWorld(cfg, w) && ReadBefore(w(n), id, e)
    ensures ReadBefore(w(n + 1), id, e)
  {
    GapSettles(cfg, w, n);
  }

  lemma WorldKnown(cfg: Config, w: World, n: nat)
    requires ValidConfig(cfg) && IsWorld(cfg, w)
    ensures Known(w(n))
  {
    WorldInv(cfg, w, n);
  }

  /** What the operation itself wrote: nothing, or one transaction. */
  datatype Commit = Nothing | Did(step: Step)

  ghost predicate CommitsOnce(cfg: Config, w: World, gaps: nat, before: System, commit: Commit, s: System) {
    && before == w(gaps)
    && s == if commit.Nothing? then before else Next(cfg, before, commit.step)
  }

  /** `e` is what `id` looked like now or earlier in this run. */
  ghost predicate ReadBefore(s: System, id: Id, e: Event) {
    id in s.past.usedEvents && (id in s.db.events ==> SameOrigin(e, s.db.events[id]))
  }

  // --- The one path by which an event changes state ----------------------------------------------

  const MAX_TRANSITION_TRIES := 3

  /** The conditional update, as one store call: it applies the change computed
      from the copy `e`, if the stored event is still in the state of `e`. */
  method ConditionalUpdate(s: System, notifier: nat, id: Id, e: Event, to: EventState, at: Time, req: Request)
    returns (after: System, links: map<Id, Id>, done: bool)
    requires Known(s) && ReadBefore(s, id, e) && NextState(req, e.state) == Ok(to) && to != e.state
    requires req.Manual? ==> e.typ == Incident
    ensures done <==> id in s.db.events && s.db.events[id].state == e.state
    ensures after == DoChange(s, id, e.state, req, notifier, at, links)
    ensures done ==> Applies(s, id, e.state, req) && Changed(s, after, id, Committed(s, id, e.state, req, notifier, at), links)
    ensures !done ==> after == s
  {
    var c := ChangeFor(notifier, e.typ, e.state, to, at);
    var cancelled := if c.cancelAlerts then CancelQueued(s.db.attempts, id, c.at) else s.db.attempts;
    links := NewIds(s.past.usedAttempts, AlertsToRecover(cancelled, id));
    var stored := TransitionEvent(s.db, id, c, links);
    done := stored.Ok?;
    after := DoChange(s, id, e.state, req, notifier, at, links);
    if done {
      assert after.db == stored.value && after.db.events[id].state == to;
      ChangeEffect(s, id, e.state, req, notifier, at, links);
    }
  }

  /** The event is in the state the request asks for. */
  predicate Reached(req: Request, state: EventState) {
    match req
    case Manual(action) => Reaches(action, state)
    case SourceResolve => state == Resolved
  }

  /** The request may be made of an event in this state: a source may always close
      it; nothing else leaves a closed event, and only a muted one is unmuted. */
  predicate Allowed(req: Request, state: EventState) {
    req.Manual? ==> state != Resolved && (req.action == Unmute ==> state == Muted)
  }

  /** The state that try `k` reads: the copy given at first, then the stored one. */
  ghost function StateRead(w: World, gap0: nat, id: Id, read: Event, k: nat): Option<EventState> {
    if k == 0 then Some(read.state) else
      var s := w(gap0 + 2 * k);
      if id in s.db.events then Some(s.db.events[id].state) else None
  }

  /** The update of try `k` finds the event gone, or in another state than was read. */
  ghost predicate Overtaken(w: World, gap0: nat, id: Id, read: Event, k: nat) {
    var s := w(gap0 + 2 * k + 1);
    id in s.db.events ==> Some(s.db.events[id].state) != StateRead(w, gap0, id, read, k)
  }

  /** Why a transition fails: the event is gone, or the state last read does not
      allow the request, or each of the three tries was overtaken. */
  ghost predicate FailsFor(w: World, gap0: nat, gaps: nat, id: Id, read: Event, req: Request, error: Error) {
    match error
    case NotFound => gaps > gap0 && id !in w(gaps).db.events
    case InvalidTransition =>
      || (gaps == gap0 + 2 * MAX_TRANSITION_TRIES && forall k :: 0 <= k < MAX_TRANSITION_TRIES ==> Overtaken(w, gap0, id, read, k))
      || (exists k :: 0 <= k < MAX_TRANSITION_TRIES && Disallowed(w, gap0, gaps, id, read, req, k))
    case _ => false
  }

  ghost predicate Disallowed(w: World, gap0: nat, gaps: nat, id: Id, read: Event, req: Request, k: nat) {
    var state := StateRead(w, gap0, id, read, k);
    gaps == gap0 + 2 * k && state.Some? && !Allowed(req, state.value)
  }

  /** Nobody else changes the state of the event, or removes it, meanwhile. */
  ghost predicate Steady(w: World, lo: nat, hi: nat, id: Id, state: EventState) {
    forall n :: lo <= n <= hi ==>
      id in w(n).db.events && w(n).db.events[id].state == state
  }

  /** What a transition commits and answers. */
  ghost predicate Transitions(cfg: Config, w: World, gap0: nat, notifier: nat, id: Id, read: Event, at: Time, req: Request,
                              s: System, r: Result<Event>, commit: Commit, before: System, gaps: nat) {
    && gap0 <= gaps && CommitsOnce(cfg, w, gaps, before, commit, s)
    && (commit.Did? ==>
      && commit.step.Change? && commit.step.id == id && commit.step.req == req
      && ChangeOutcome(before.db, s.db, id, notifier, at) && Reached(req, s.db.events[id].state) && Allowed(req, before.db.events[id].state)
      && r == Ok(s.db.events[id]))
    && (commit.Nothing? && r.Ok? ==>
      && Reached(req, r.value.state) && Allowed(req, r.value.state)
      && if gaps == gap0 then r.value == read else id in s.db.events && r.value == s.db.events[id])
    && (r.Err? ==> commit.Nothing? && FailsFor(w, gap0, gaps, id, read, req, r.error))
  }

  /** The conditional update in the state that the others have made by then. */
  method UpdateThere(cfg: Config, w: World, n: nat, notifier: nat, id: Id, e: Event, to: EventState, at: Time, req: Request)
    returns (after: System, links: map<Id, Id>, done: bool)
    requires ValidConfig(cfg) && IsWorld(cfg, w) && ReadBefore(w(n), id, e)
    requires NextState(req, e.state) == Ok(to) && to != e.state && (req.Manual? ==> e.typ == Incident)
    ensures var s := w(n);
      && after == DoChange(s, id, e.state, req, notifier, at, links)
      && (done <==> id in s.db.events && s.db.events[id].state == e.state)
      && if done then ChangeOutcome(s.db, after.db, id, notifier, at) && Reached(req, after.db.events[id].state) && Allowed(req, e.state)
         else after == s
  {
    var s := w(n);
    WorldInv(cfg, w, n);
    after, links, done := ConditionalUpdate(s, notifier, id, e, to, at, req);
    if done { ChangeOutcomeHolds(cfg, s, id, e.state, req, notifier, at, links); }
  }

  /** A try ends the transition with an answer, or its update was overtaken. */
  datatype Try = Answered(s: System, r: Result<Event>, commit: Commit) | Lost

  /** Try `k` reads the event as `e`, either given (`k == 0`) or stored. */
  ghost predicate Reads(w: World, gap0: nat, id: Id, read: Event, k: nat, e: Event) {
    var s := w(gap0 + 2 * k);
    && ReadBefore(s, id, e)
    && if k == 0 then e == read else id in s.db.events && e == s.db.events[id]
  }

  /** What one try of the transition does, with the gap before its update. */
  method TryOnce(cfg: Config, w: World, notifier: nat, id: Id, ghost read: Event, e: Event, at: Time, req: Request, gap0: nat, k: nat)
    returns (t: Try, gaps: nat)
    requires ValidConfig(cfg) && IsWorld(cfg, w) && k < MAX_TRANSITION_TRIES && (req.Manual? ==> e.typ == Incident)
    requires Reads(w, gap0, id, read, k, e)
    ensures t.Answered? ==>
      Transitions(cfg, w, gap0, notifier, id, read, at, req, t.s, t.r, t.commit, w(gaps), gaps)
    ensures t.Lost? ==> gaps == gap0 + 2 * k + 1 && Overtaken(w, gap0, id, read, k)
  {
    gaps := gap0 + 2 * k;
    var s := w(gaps);
    assert StateRead(w, gap0, id, read, k) == Some(e.state);
    var to := NextState(req, e.state);
    if to.Err? {
      assert Disallowed(w, gap0, gaps, id, read, req, k);
      return Answered(s, Err(to.error), Nothing), gaps;
    }
    if to.value == e.state { return Answered(s, Ok(e), Nothing), gaps; }
    GapKeepsRead(cfg, w, gaps, id, e);
    gaps := gaps + 1;
    var after, links, done := UpdateThere(cfg, w, gaps, notifier, id, e, to.value, at, req);
    t := if done then Answered(after, Ok(after.db.events[id]), Did(Change(id, e.state, req, notifier, at, links))) else Lost;
  }

  /** Move the event to the state the request asks for, re-reading it when
      another party changed it first. However the others interfere, it commits
      nothing, or exactly one change out of the state then stored, with the
      recoveries and the cancellation that belong to that state; and it fails only
      when the event is gone, the state forbids the request, or three updates in a
      row were overtaken. */
  method Transition(cfg: Config, w: World, notifier: nat, id: Id, read: Event, at: Time, req: Request, gap0: nat)
    returns (s: System, r: Result<Event>, commit: Commit, before: System, gaps: nat)
    requires ValidConfig(cfg) && IsWorld(cfg, w) && ReadBefore(w(gap0), id, read)
    requires req.Manual? ==> read.typ == Incident
    ensures Transitions(cfg, w, gap0, notifier, id, read, at, req, s, r, commit, before, gaps)
  {
    gaps := gap0;
    var e := read;
    for tries := 0 to MAX_TRANSITION_TRIES
      invariant gaps == gap0 + 2 * tries && Reads(w, gap0, id, read, tries, e) && (req.Manual? ==> e.typ == Incident)
      invariant forall k :: 0 <= k < tries ==> Overtaken(w, gap0, id, read, k)
    {
      GapKeepsRead(cfg, w, gaps, id, e);
      var t;
      t, gaps := TryOnce(cfg, w, notifier, id, read, e, at, req, gap0, tries);
      if t.Answered? { return t.s, t.r, t.commit, w(gaps), gaps; }

      GapKeepsRead(cfg, w, gaps, id, e);
      gaps := gaps + 1;
      s := w(gaps);
      if id !in s.db.events { return s, Err(NotFound), Nothing, s, gaps; }
      e := s.db.events[id];
    }
    s := w(gaps);
    r, commit, before := Err(InvalidTransition), Nothing, s;
  }

  /** Left alone, a request of an event as it is stored changes it exactly when the
      state allows the request and is not the one asked for already; it fails
      exactly when the state does not allow it. */
  lemma SteadyTransition(cfg: Config, w: World, gap0: nat, notifier: nat, id: Id, read: Event, at: Time, req: Request,
                         s: System, r: Result<Event>, commit: Commit, before: System, gaps: nat)
    requires Transitions(cfg, w, gap0, notifier, id, read, at, req, s, r, commit, before, gaps)
    requires Steady(w, gap0, gaps, id, read.state)
    ensures r.Err? <==> !Allowed(req, read.state)
    ensures commit.Did? <==> Allowed(req, read.state) && !Reached(req, read.state)
  {
    assert id in w(gaps).db.events;
    if gaps > gap0 {
      assert id in w(gap0 + 1).db.events;
      assert !Overtaken(w, gap0, id, read, 0);
    }
    if r.Err? {
      var k :| 0 <= k < MAX_TRANSITION_TRIES && Disallowed(w, gap0, gaps, id, read, req, k);
      assert gap0 <= gap0 + 2 * k <= gaps;
      assert StateRead(w, gap0, id, read, k) == Some(read.state);
    }
  }

  /** What a manual action answers when it does not get as far as a transition: the
      event is not there, or is no incident. */
  ghost predicate NotAnIncident(s: System, id: Id, r: Result<Event>) {
    if id !in s.db.events then r == Err(NotFound) else s.db.events[id].typ != Incident && r == Err(InvalidTransition)
  }

  /** A manual action on an incident: a transition of the event as it was read, or
      an error if there is no such incident. */
  method Apply(cfg: Config, w: World, notifier: nat, id: Id, action: Action, at: Time)
    returns (s: System, r: Result<Event>, commit: Commit, before: System, gaps: nat)
    requires ValidConfig(cfg) && IsWorld(cfg, w)
    ensures var s0 := w(0);
      if id in s0.db.events && s0.db.events[id].typ == Incident then
        Transitions(cfg, w, 0, notifier, id, s0.db.events[id], at, Manual(action), s, r, commit, before, gaps)
      else
        NotAnIncident(s0, id, r) && s == before == s0 && commit.Nothing? && gaps == 0
  {
    s := w(0);
    WorldKnown(cfg, w, 0);
    if id !in s.db.events { return s, Err(NotFound), Nothing, s, 0; }
    var e := s.db.events[id];
    if e.typ != Incident { return s, Err(InvalidTransition), Nothing, s, 0; }
    s, r, commit, before, gaps := Transition(cfg, w, notifier, id, e, at, Manual(action), 0);
  }
}
