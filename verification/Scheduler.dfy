/** The worker's slots: batches claimed under a total and a per-channel cap,
    while sends finish at any moment. */
module SlotScheduler {
  import opened Domain
  import opened Tables
  import opened StoreProgram

  function Max(a: int, b: int): int {
    if a > b then a else b
  }

  function Min(a: int, b: int): int {
    if a < b then a else b
  }

  /** Sends running on a channel; a channel with none has no entry. */
  function Count(inFlight: map<Channel, nat>, c: Channel): nat {
    if c in inFlight then inFlight[c] else 0
  }

  ghost function Sum(inFlight: map<Channel, nat>): nat {
    if inFlight == map[] then 0 else
      var c :| c in inFlight;
      inFlight[c] + Sum(inFlight - {c})
  }

  /** Counts that agree with a bag of channels add up to its size. */
  lemma {:induction false} SumIsSize(inFlight: map<Channel, nat>, bag: multiset<Channel>)
    requires forall c :: bag[c] == Count(inFlight, c)
    ensures Sum(inFlight) == |bag|
    decreases inFlight
  {
    if inFlight == map[] {
      assert forall c :: c !in bag;
      assert bag == multiset{};
    } else {
      var c :| c in inFlight && Sum(inFlight) == inFlight[c] + Sum(inFlight - {c});
      SumIsSize(inFlight - {c}, bag[c := 0]);
    }
  }

  function ChannelOf(attempts: map<Id, Attempt>, a: Id): Channel {
    if a in attempts then attempts[a].channel else ""
  }

  /** How often a name stands in a list. */
  function Times(names: seq<Channel>, c: Channel): nat {
    if names == [] then 0 else Times(names[..|names| - 1], c) + if names[|names| - 1] == c then 1 else 0
  }

  lemma NextName(names: seq<Channel>, i: nat)
    requires i < |names|
    ensures forall c :: Times(names[..i + 1], c) == Times(names[..i], c) + if c == names[i] then 1 else 0
  {
    assert names[..i + 1][..i] == names[..i];
  }

  lemma {:induction false} TimesIn(names: seq<Channel>, c: Channel)
    ensures Times(names, c) <= |names|
    ensures c !in names ==> Times(names, c) == 0
  {
    if names != [] { TimesIn(names[..|names| - 1], c); }
  }

  /** Taking attempts into `Sending` makes no other attempt deliverable. */
  lemma ClaimMakesNoneDue(db: Db, taken: set<Id>, now: Time, a: Id)
    requires a in db.attempts && Deliverable(Claim(db, taken, now).attempts, a, now)
    ensures a !in taken && Deliverable(db.attempts, a, now)
  {
  }

  /** One claim: the tables and the time it found, and the attempts it took. */
  datatype Batch = Batch(db: Db, now: Time, ids: seq<Id>)

  function After(b: Batch): Db {
    Claim(b.db, Taken(b.ids), b.now)
  }

  /** The attempts were due, and none is taken twice. */
  ghost predicate TookDue(b: Batch) {
    && (forall a :: a in b.ids ==> a in b.db.attempts && Deliverable(b.db.attempts, a, b.now))
    && (forall i, j :: 0 <= i < j < |b.ids| ==> b.ids[i] != b.ids[j])
  }

  /** Exactly the attempts taken are newly `Sending`. */
  lemma TakenAreNewlySending(b: Batch, a: Id)
    requires TookDue(b) && a in b.db.attempts
    ensures b.db.attempts[a].state != Sending && After(b).attempts[a].state == Sending <==> a in b.ids
  {
  }

  /** The channels of the attempts taken, in the order taken. */
  function NamesOf(b: Batch): (names: seq<Channel>)
    ensures |names| == |b.ids|
  {
    seq(|b.ids|, i requires 0 <= i < |b.ids| => ChannelOf(b.db.attempts, b.ids[i]))
  }

  /** One claim, on tables the other parties may have changed to `db`. */
  method TakeBatch(store: Store, db: Db, now: Time, want: nat, skip: set<Channel>) returns (ids: seq<Id>, names: seq<Channel>)
    requires want >= 1
    modifies store
    ensures TookDue(Batch(db, now, ids)) && names == NamesOf(Batch(db, now, ids)) && store.Contents() == After(Batch(db, now, ids))
    ensures |names| <= want
    ensures forall i :: 0 <= i < |names| ==> names[i] !in skip
    ensures |names| < want ==>
      forall a :: a in store.attempts && Deliverable(store.attempts, a, now) ==> store.attempts[a].channel in skip
  {
    store.events, store.attempts := db.events, db.attempts;
    ids := store.ClaimDue(now, want, skip);
    forall i | 0 <= i < |ids| ensures Claimable(db.attempts, ids[i], now, skip) { assert ids[i] in ids; }
    names := NamesOf(Batch(db, now, ids));
    if |ids| < want {
      forall a | a in store.attempts && Deliverable(store.attempts, a, now) ensures store.attempts[a].channel in skip {
        ClaimMakesNoneDue(db, Taken(ids), now, a);
        assert !Claimable(db.attempts, a, now, skip);
      }
    }
  }

  /** The channels of the sends that several claims start. */
  ghost function Started(batches: seq<Batch>): seq<Channel> {
    if batches == [] then [] else Started(batches[..|batches| - 1]) + NamesOf(batches[|batches| - 1])
  }

  lemma {:induction false} TimesJoin(x: seq<Channel>, y: seq<Channel>, c: Channel)
    ensures Times(x + y, c) == Times(x, c) + Times(y, c)
    decreases |y|
  {
    if y == [] {
      assert x + y == x;
    } else {
      assert (x + y)[..|x + y| - 1] == x + y[..|y| - 1];
      TimesJoin(x, y[..|y| - 1], c);
    }
  }

  /** The claims of one filling: each found the tables as the others left them. */
  ghost predicate Filled(batches: seq<Batch>, others: nat -> Db, clock: nat -> Time) {
    forall n :: 0 <= n < |batches| ==> TookDue(batches[n]) && batches[n].db == others(n) && batches[n].now == clock(n)
  }

  /** Between the counts `was` and `now`, the sends of `names` were started. */
  ghost predicate Grown(was: map<Channel, nat>, now: map<Channel, nat>, names: seq<Channel>) {
    forall c :: Count(now, c) == Count(was, c) + Times(names, c)
  }

  lemma GrownTwice(x: map<Channel, nat>, y: map<Channel, nat>, z: map<Channel, nat>, names: seq<Channel>, more: seq<Channel>)
    requires Grown(x, y, names) && Grown(y, z, more)
    ensures Grown(x, z, names + more)
  {
    forall c ensures Count(z, c) == Count(x, c) + Times(names + more, c) { TimesJoin(names, more, c); }
  }

  /** What a filling has done: `batches` were claimed, the last one left the tables
      as they are, and exactly the sends they name were started. */
  ghost predicate Did(batches: seq<Batch>, others: nat -> Db, clock: nat -> Time, was: map<Channel, nat>, now: map<Channel, nat>, started: nat, store: Db) {
    && Filled(batches, others, clock) && started == |Started(batches)| && Grown(was, now, Started(batches))
    && (batches != [] ==> store == After(batches[|batches| - 1]))
  }

  /** A claim and the start of its sends. */
  ghost predicate Claimed(b: Batch, was: map<Channel, nat>, now: map<Channel, nat>, store: Db) {
    TookDue(b) && Grown(was, now, NamesOf(b)) && store == After(b)
  }

  lemma DidNext(batches: seq<Batch>, b: Batch, others: nat -> Db, clock: nat -> Time,
                was: map<Channel, nat>, mid: map<Channel, nat>, now: map<Channel, nat>, started: nat, total: nat, store: Db, after: Db)
    requires Did(batches, others, clock, was, mid, started, store) && Claimed(b, mid, now, after)
    requires b.db == others(|batches|) && b.now == clock(|batches|) && total == started + |b.ids|
    ensures Did(batches + [b], others, clock, was, now, total, after)
  {
    assert (batches + [b])[..|batches|] == batches;
    GrownTwice(was, mid, now, Started(batches), NamesOf(b));
  }

  /** The n-th answer to a yes-or-no question. */
  predicate Asked(question: nat -> bool, n: nat) {
    question(n)
  }

  /** No claim before the n-th was kept from being made, or failed. */
  ghost predicate WentOn(stopped: nat -> bool, fails: nat -> bool, n: nat) {
    forall k :: 0 <= k < n ==> !stopped(k) && !fails(k)
  }

  lemma WentOnNext(stopped: nat -> bool, fails: nat -> bool, n: nat)
    requires WentOn(stopped, fails, n) && !stopped(n) && !fails(n)
    ensures WentOn(stopped, fails, n + 1)
  {
  }

  class Scheduler {
    /** Slots in all, and how many channels are configured. */
    const concurrency: nat
    const channels: nat

    var inFlight: map<Channel, nat>
    var total: int

    /** The sends still running, and the finished ones waiting in the buffered
        channel, which holds `concurrency` names. */
    var running: multiset<Channel>
    var done: seq<Channel>

    constructor (concurrency: nat, channels: nat)
      requires concurrency > 0
      ensures Valid() && this.concurrency == concurrency && this.channels == channels
      ensures inFlight == map[] && total == 0
    {
      this.concurrency, this.channels := concurrency, channels;
      inFlight, total, running, done := map[], 0, multiset{}, [];
    }

    /** How many slots one channel may take. */
    function PerChannelLimit(): int {
      if channels < 2 then concurrency else Max(1, concurrency - 1)
    }

    ghost predicate Counted()
      reads this
    {
      && total == |running| + |done|
      && (forall c :: Count(inFlight, c) == running[c] + multiset(done)[c])
      && (forall c :: c in inFlight ==> inFlight[c] > 0)
    }

    ghost predicate Valid()
      reads this
    {
      && concurrency > 0
      && Counted()
      && total <= concurrency
      && forall c :: Count(inFlight, c) <= PerChannelLimit()
    }

    lemma TotalIsSum()
      requires Valid()
      ensures total == Sum(inFlight)
    {
      SumIsSize(inFlight, running + multiset(done));
    }

    /** With other channels configured, and slots to share, one channel never has
        them all; a channel alone may. */
    lemma OneChannelLeavesASlot(c: Channel)
      requires Valid()
      ensures channels >= 2 && concurrency >= 2 ==> Count(inFlight, c) < concurrency
      ensures channels < 2 || concurrency < 2 ==> PerChannelLimit() == concurrency
    {
      assert Count(inFlight, c) <= PerChannelLimit();
    }

    /** A send ends and posts its channel's name; the buffer has room for it. */
    method Complete(name: Channel)
      requires Valid() && name in running
      modifies this`running, this`done
      ensures Valid() && |done| <= concurrency
      ensures done == old(done) + [name] && running == old(running) - multiset{name}
    {
      assert |done| < concurrency;
      running := running - multiset{name};
      done := done + [name];
    }

    /** Any of the running sends may end here. */
    method CompleteSome(names: seq<Channel>)
      requires Valid()
      modifies this`running, this`done
      ensures Valid()
    {
      for i := 0 to |names|
        invariant Valid()
      {
        if names[i] in running { Complete(names[i]); }
      }
    }

    /** Free the slot of a finished send. */
    method Finished(name: Channel)
      requires name in inFlight && inFlight[name] > 0
      modifies this`inFlight, this`total
      ensures total == old(total) - 1
      ensures forall c :: Count(inFlight, c) == Count(old(inFlight), c) - if c == name then 1 else 0
      ensures (forall c :: c in old(inFlight) ==> old(inFlight)[c] > 0) ==> forall c :: c in inFlight ==> inFlight[c] > 0
    {
      total := total - 1;
      inFlight := inFlight[name := inFlight[name] - 1];
      if inFlight[name] <= 0 { inFlight := inFlight - {name}; }
    }

    /** Receive one finished send. */
    method Receive()
      requires Valid() && done != []
      modifies this
      ensures Valid() && total == old(total) - 1 && done == old(done)[1..] && running == old(running)
    {
      var name := done[0];
      assert done == [name] + done[1..];
      assert multiset(done) == multiset{name} + multiset(done[1..]);
      assert Count(inFlight, name) == running[name] + multiset(done)[name];
      done := done[1..];
      Finished(name);
    }

    /** How many attempts to claim next, at least one, and the full channels to
        skip: even if the whole batch lands on the busiest channel that is not
        skipped, that channel stays within its share. */
    method NextBatch() returns (want: nat, skip: set<Channel>, busiest: nat)
      requires Valid() && total < concurrency
      ensures forall c :: c in skip <==> Count(inFlight, c) >= PerChannelLimit()
      ensures forall c :: c !in skip ==> Count(inFlight, c) <= busiest
      ensures busiest > 0 ==> exists c :: c !in skip && Count(inFlight, c) == busiest
      ensures 1 <= want <= concurrency - total && busiest + want <= PerChannelLimit()
      ensures want == concurrency - total || busiest + want == PerChannelLimit()
    {
      var limit := PerChannelLimit();
      skip, busiest := {}, 0;
      var rest := inFlight.Keys;
      while rest != {}
        invariant rest <= inFlight.Keys && busiest < limit
        invariant busiest > 0 ==> exists c :: c in inFlight && c !in rest && inFlight[c] == busiest && c !in skip
        invariant forall c :: c in skip ==> c in inFlight && c !in rest && inFlight[c] >= limit
        invariant forall c :: c in inFlight && c !in rest ==> if inFlight[c] >= limit then c in skip else inFlight[c] <= busiest
        decreases rest
      {
        var c :| c in rest;
        if inFlight[c] >= limit { skip := skip + {c}; } else { busiest := Max(busiest, inFlight[c]); }
        rest := rest - {c};
      }
      want := Min(concurrency - total, limit - busiest);
    }

    /** Take a slot for one send. */
    method Start(name: Channel)
      requires Counted()
      modifies this`inFlight, this`total, this`running
      ensures Counted() && total == old(total) + 1
      ensures forall c :: Count(inFlight, c) == Count(old(inFlight), c) + if c == name then 1 else 0
    {
      inFlight := inFlight[name := Count(inFlight, name) + 1];
      total := total + 1;
      running := running + multiset{name};
    }

    /** Start the sends of one batch: its channels' counts stay in bounds. */
    method StartAll(names: seq<Channel>, ghost skip: set<Channel>, ghost busiest: nat)
      requires Valid() && total + |names| <= concurrency
      requires forall c :: c !in skip ==> Count(inFlight, c) <= busiest
      requires busiest + |names| <= PerChannelLimit()
      requires forall i :: 0 <= i < |names| ==> names[i] !in skip
      modifies this`inFlight, this`total, this`running
      ensures Valid() && total == old(total) + |names| && done == old(done)
      ensures Grown(old(inFlight), inFlight, names)
    {
      StartEach(names);
      forall c: Channel ensures Count(inFlight, c) <= PerChannelLimit() { TimesIn(names, c); }
    }

    method StartEach(names: seq<Channel>)
      requires Counted()
      modifies this`inFlight, this`total, this`running
      ensures Counted() && total == old(total) + |names|
      ensures Grown(old(inFlight), inFlight, names)
    {
      for i := 0 to |names|
        invariant total == old(total) + i && Counted()
        invariant forall c :: Count(inFlight, c) == Count(old(inFlight), c) + Times(names[..i], c)
      {
        NextName(names, i);
        Start(names[i]);
      }
      assert names[..|names|] == names;
    }

    /** What is due in these tables is on channels that use their whole share. */
    ghost predicate OnlyFullDue(attempts: map<Id, Attempt>, now: Time)
      reads this
    {
      forall a {:trigger Deliverable(attempts, a, now)} :: a in attempts && Deliverable(attempts, a, now) ==> Count(inFlight, attempts[a].channel) >= PerChannelLimit()
    }

    /** One claim for the free slots, and the start of what it took, after some
        sends have ended. Without `more` there was less to take than was asked for. */
    method ClaimBatch(store: Store, db: Db, now: Time, finishing: seq<Channel>) returns (ids: seq<Id>, more: bool)
      requires Valid() && total < concurrency
      modifies this, store
      ensures Valid() && total == old(total) + |ids|
      ensures Claimed(Batch(db, now, ids), old(inFlight), inFlight, store.Contents())
      ensures if more then ids != [] else OnlyFullDue(store.attempts, now)
    {
      CompleteSome(finishing);
      var want, skip, busiest := NextBatch();
      var names;
      ids, names := TakeBatch(store, db, now, want, skip);
      StartAll(names, skip, busiest);
      more := |ids| == want;
    }

    /** One more claim of a filling that began with the counts `start`. */
    method FillOnce(store: Store, clock: nat -> Time, others: nat -> Db, finishing: nat -> seq<Channel>, claims: nat, started: nat,
                    ghost start: map<Channel, nat>, ghost batches: seq<Batch>) returns (n: nat, more: bool, ghost longer: seq<Batch>)
      requires Valid() && total < concurrency && |batches| == claims
      requires Did(batches, others, clock, start, inFlight, started, store.Contents())
      modifies this, store
      ensures Valid() && total == old(total) + n && |longer| == claims + 1
      ensures Did(longer, others, clock, start, inFlight, started + n, store.Contents())
      ensures if more then n > 0 else OnlyFullDue(store.attempts, clock(claims))
    {
      ghost var mid, found := inFlight, store.Contents();
      var ids;
      ids, more := ClaimBatch(store, others(claims), clock(claims), finishing(claims));
      n := |ids|;
      ghost var b := Batch(others(claims), clock(claims), ids);
      DidNext(batches, b, others, clock, start, mid, inFlight, started, started + n, found, store.Contents());
      longer := batches + [b];
    }

    /** Claim and start due attempts until the slots are full or nothing may be
        taken. Between claims the tables become whatever the other parties make
        of them (`others`), sends finish (`finishing`), a claim may fail, and the
        worker may be told to stop; `clock` is the time of each claim. It gives up
        only for a stop or a failed claim; else every slot is in use, or what was
        still due at the last claim is on channels that use their whole share. What
        was claimed, and only that, was started. */
    method Fill(store: Store, clock: nat -> Time, others: nat -> Db, finishing: nat -> seq<Channel>, fails: nat -> bool, stopped: nat -> bool)
      returns (started: nat, claims: nat, err: bool, cut: bool, ghost batches: seq<Batch>)
      requires Valid()
      modifies this, store
      ensures Valid() && total == old(total) + started
      ensures |batches| == claims && Did(batches, others, clock, old(inFlight), inFlight, started, store.Contents())
      ensures WentOn(stopped, fails, claims) && (cut ==> Asked(stopped, claims)) && (err ==> Asked(fails, claims))
      ensures cut || err || total == concurrency || (claims > 0 && OnlyFullDue(store.attempts, clock(claims - 1)))
    {
      started, claims, err, cut, batches := 0, 0, false, false, [];
      while total < concurrency
        invariant Valid() && total == old(total) + started && !err && !cut
        invariant WentOn(stopped, fails, claims)
        invariant |batches| == claims && Did(batches, others, clock, old(inFlight), inFlight, started, store.Contents())
        decreases concurrency - total
      {
        if Asked(stopped, claims) { cut := true; return; }
        if Asked(fails, claims) { err := true; return; }
        WentOnNext(stopped, fails, claims);
        var n, more;
        n, more, batches := FillOnce(store, clock, others, finishing, claims, started, old(inFlight), batches);
        started, claims := started + n, claims + 1;
        if !more { return; }
      }
    }

    /** Wait until every send in flight has been recorded: receive what is
        done, else wait for a running send to end, cancelled or not. */
    method Shutdown()
      requires Valid()
      modifies this
      ensures Valid() && total == 0 && inFlight == map[] && running == multiset{} && done == []
    {
      while total > 0
        invariant Valid()
        decreases total
      {
        if done == [] {
          assert |running| > 0;
          var name :| name in running;
          Complete(name);
        }
        Receive();
      }
      assert |running| == 0 && |done| == 0;
      forall c: Channel ensures c !in inFlight { assert Count(inFlight, c) == 0; }
    }
  }
}
