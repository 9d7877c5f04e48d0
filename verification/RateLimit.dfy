/** Rate limiting: token buckets, one for each key, idle ones dropped. Times are
    seconds. */
module RateLimit {

  datatype Setting = Setting(rate: real, burst: nat)

  /** A positive rate, in tokens a second, and a positive burst. */
  type Limits = c: Setting | c.rate > 0.0 && c.burst > 0 witness Setting(1.0, 1)

  /** Configured values that are not positive become one. */
  function Normalised(ratePerSec: real, burst: int): Limits {
    Setting(if ratePerSec <= 0.0 then 1.0 else ratePerSec, if burst <= 0 then 1 else burst)
  }

  function Max(c: Limits): real {
    c.burst as real
  }

  datatype Bucket = Bucket(tokens: real, last: real)

  function Full(c: Limits, now: real): Bucket {
    Bucket(Max(c), now)
  }

  /** The tokens a stretch of time brings. */
  function Gain(c: Limits, elapsed: real): real {
    elapsed * c.rate
  }

  /** What the bucket holds at `now`. */
  function Level(c: Limits, b: Bucket, now: real): real {
    var tokens := b.tokens + Gain(c, now - b.last);
    if tokens > Max(c) then Max(c) else tokens
  }

  function Allows(c: Limits, b: Bucket, now: real): bool {
    Level(c, b, now) >= 1.0
  }

  function Spend(c: Limits, b: Bucket, now: real): Bucket {
    Bucket(Level(c, b, now) - (if Allows(c, b, now) then 1.0 else 0.0), now)
  }

  // --- The keyed limiter ----------------------------------------------------------------------

  datatype Slot = Slot(bucket: Bucket, seen: real)
  datatype Limiter = Limiter(slots: map<string, Slot>, lastSweep: real)
  datatype Request = Request(key: string, time: real)

  function BucketFor(c: Limits, l: Limiter, key: string, now: real): Bucket {
    if key in l.slots then l.slots[key].bucket else Full(c, now)
  }

  const SWEEP_EVERY: real := 300.0
  const IDLE_FOR: real := 600.0

  /** The slots left after the sweep that a request may start. */
  function Swept(l: Limiter, now: real): Limiter {
    if now - l.lastSweep > SWEEP_EVERY
    then Limiter(map k | k in l.slots && now - l.slots[k].seen <= IDLE_FOR :: l.slots[k], now)
    else l
  }

  function Touched(c: Limits, l: Limiter, r: Request): Limiter {
    l.(slots := l.slots[r.key := Slot(BucketFor(c, l, r.key, r.time), r.time)])
  }

  /** One request: the key's slot is marked seen, idle slots may be swept, and the
      key's bucket answers. */
  function Answer(c: Limits, l: Limiter, r: Request): bool {
    Allows(c, BucketFor(c, l, r.key, r.time), r.time)
  }

  function Next(c: Limits, l: Limiter, r: Request): Limiter {
    var swept := Swept(Touched(c, l, r), r.time);
    swept.(slots := swept.slots[r.key := Slot(Spend(c, BucketFor(c, l, r.key, r.time), r.time), r.time)])
  }

  function Answers(c: Limits, l: Limiter, reqs: seq<Request>): (a: seq<bool>)
    ensures |a| == |reqs|
    decreases |reqs|
  {
    if reqs == [] then [] else [Answer(c, l, reqs[0])] + Answers(c, Next(c, l, reqs[0]), reqs[1..])
  }

  // --- The reference: a bucket for each key, never dropped -----------------------------------------

  type Buckets = map<string, Bucket>

  function OwnBucket(c: Limits, m: Buckets, r: Request): Bucket {
    if r.key in m then m[r.key] else Full(c, r.time)
  }

  function NextOwn(c: Limits, m: Buckets, r: Request): Buckets {
    m[r.key := Spend(c, OwnBucket(c, m, r), r.time)]
  }

  function OwnAnswers(c: Limits, m: Buckets, reqs: seq<Request>): (a: seq<bool>)
    ensures |a| == |reqs|
    decreases |reqs|
  {
    if reqs == [] then [] else [Allows(c, OwnBucket(c, m, reqs[0]), reqs[0].time)] + OwnAnswers(c, NextOwn(c, m, reqs[0]), reqs[1..])
  }

  /** The states after a run of requests. */
  function After(c: Limits, l: Limiter, reqs: seq<Request>): Limiter
    decreases |reqs|
  {
    if reqs == [] then l else After(c, Next(c, l, reqs[0]), reqs[1..])
  }

  function AfterOwn(c: Limits, m: Buckets, reqs: seq<Request>): Buckets
    decreases |reqs|
  {
    if reqs == [] then m else AfterOwn(c, NextOwn(c, m, reqs[0]), reqs[1..])
  }

  lemma {:induction false} AnswersInTwo(c: Limits, l: Limiter, x: seq<Request>, y: seq<Request>)
    ensures Answers(c, l, x + y) == Answers(c, l, x) + Answers(c, After(c, l, x), y)
    decreases |x|
  {
    if x == [] {
      assert x + y == y;
    } else {
      assert (x + y)[1..] == x[1..] + y;
      AnswersInTwo(c, Next(c, l, x[0]), x[1..], y);
    }
  }

  lemma {:induction false} OwnAnswersInTwo(c: Limits, m: Buckets, x: seq<Request>, y: seq<Request>)
    ensures OwnAnswers(c, m, x + y) == OwnAnswers(c, m, x) + OwnAnswers(c, AfterOwn(c, m, x), y)
    decreases |x|
  {
    if x == [] {
      assert x + y == y;
    } else {
      assert (x + y)[1..] == x[1..] + y;
      OwnAnswersInTwo(c, NextOwn(c, m, x[0]), x[1..], y);
    }
  }

  /** The clock does not run backwards. */
  ghost predicate Ordered(reqs: seq<Request>, start: real) {
    reqs == [] || (start <= reqs[0].time && Ordered(reqs[1..], reqs[0].time))
  }

  // --- Eviction is not seen ------------------------------------------------------------------------

  ghost predicate Filled(c: Limits, b: Bucket, now: real) {
    0.0 <= b.tokens <= Max(c) && b.last <= now
  }

  /** The limiter at `now`, beside buckets that were never dropped: kept slots
      agree with them, and dropped ones were idle for longer than ten minutes. */
  ghost predicate Agree(c: Limits, l: Limiter, m: Buckets, now: real) {
    && (forall k :: k in m ==> Filled(c, m[k], now))
    && (forall k :: k in l.slots ==> k in m && l.slots[k] == Slot(m[k], m[k].last))
    && (forall k :: k in m && k !in l.slots ==> m[k].last + IDLE_FOR < now)
  }

  lemma GainGrows(c: Limits, x: real, y: real)
    requires x <= y
    ensures Gain(c, x) <= Gain(c, y)
  {
  }

  lemma NoGain(c: Limits)
    ensures Gain(c, 0.0) == 0.0
  {
  }

  lemma SpendStaysFilled(c: Limits, b: Bucket, now: real)
    requires Filled(c, b, now)
    ensures Filled(c, Spend(c, b, now), now)
  {
    NoGain(c);
    GainGrows(c, 0.0, now - b.last);
  }

  /** A bucket idle for ten minutes is full again if ten minutes fill it. */
  lemma IdleIsFull(c: Limits, b: Bucket, now: real)
    requires Gain(c, IDLE_FOR) >= Max(c) && Filled(c, b, now) && b.last + IDLE_FOR <= now
    ensures Level(c, b, now) == Max(c) == Level(c, Full(c, now), now)
  {
    GainGrows(c, IDLE_FOR, now - b.last);
    NoGain(c);
    assert now - now == 0.0;
  }

  lemma SameBucket(c: Limits, l: Limiter, m: Buckets, r: Request, start: real)
    requires Gain(c, IDLE_FOR) >= Max(c) && Agree(c, l, m, start) && start <= r.time
    ensures Answer(c, l, r) == Allows(c, OwnBucket(c, m, r), r.time)
    ensures Spend(c, BucketFor(c, l, r.key, r.time), r.time) == Spend(c, OwnBucket(c, m, r), r.time)
  {
    if r.key in m && r.key !in l.slots { IdleIsFull(c, m[r.key], r.time); }
  }

  lemma AgreeNext(c: Limits, l: Limiter, m: Buckets, r: Request, start: real)
    requires Gain(c, IDLE_FOR) >= Max(c) && Agree(c, l, m, start) && start <= r.time
    ensures Agree(c, Next(c, l, r), NextOwn(c, m, r), r.time)
  {
    SameBucket(c, l, m, r, start);
    SpendStaysFilled(c, OwnBucket(c, m, r), r.time);
    var l', m' := Next(c, l, r), NextOwn(c, m, r);
    forall k | k in m' && k != r.key && k !in l'.slots ensures m'[k].last + IDLE_FOR < r.time { }
  }

  lemma {:induction false} SameAnswers(c: Limits, l: Limiter, m: Buckets, reqs: seq<Request>, start: real)
    requires Gain(c, IDLE_FOR) >= Max(c) && Agree(c, l, m, start) && Ordered(reqs, start)
    ensures Answers(c, l, reqs) == OwnAnswers(c, m, reqs)
    decreases |reqs|
  {
    if reqs != [] {
      SameBucket(c, l, m, reqs[0], start);
      AgreeNext(c, l, m, reqs[0], start);
      SameAnswers(c, Next(c, l, reqs[0]), NextOwn(c, m, reqs[0]), reqs[1..], reqs[0].time);
    }
  }

  // --- A slow bucket shows it ------------------------------------------------------------------------

  function Repeat(r: Request, n: nat): (s: seq<Request>)
    ensures |s| == n
  {
    if n == 0 then [] else [r] + Repeat(r, n - 1)
  }

  ghost predicate AllTrue(a: seq<bool>) {
    forall i :: 0 <= i < |a| ==> a[i]
  }

  lemma AllTrueCons(x: bool, a: seq<bool>)
    ensures AllTrue([x] + a) <==> x && AllTrue(a)
  {
    assert forall i :: 0 <= i < |a| ==> ([x] + a)[i + 1] == a[i];
    assert ([x] + a)[0] == x;
  }

  lemma {:induction false} OrderedRepeat(r: Request, n: nat, rest: seq<Request>, start: real)
    requires start <= r.time && Ordered(rest, r.time)
    ensures Ordered(Repeat(r, n) + rest, start)
    decreases n
  {
    var s := Repeat(r, n) + rest;
    if n == 0 {
      assert s == rest;
      if rest != [] { assert Ordered(rest[1..], rest[0].time); }
    } else {
      assert s[1..] == Repeat(r, n - 1) + rest;
      OrderedRepeat(r, n - 1, rest, r.time);
    }
  }

  /** After a request the level at the same instant is one lower, or as it was. */
  lemma LevelAfterSpend(c: Limits, b: Bucket, now: real)
    ensures Level(c, Spend(c, b, now), now) == Level(c, b, now) - if Allows(c, b, now) then 1.0 else 0.0
  {
    NoGain(c);
    assert now - now == 0.0;
  }

  /** `n` requests at one instant: all are admitted exactly when the level is at
      least `n`, which it then loses. */
  lemma {:induction false} OwnBurst(c: Limits, m: Buckets, r: Request, n: nat)
    requires n > 0
    ensures AllTrue(OwnAnswers(c, m, Repeat(r, n))) <==> Level(c, OwnBucket(c, m, r), r.time) >= n as real
    ensures Level(c, OwnBucket(c, m, r), r.time) >= n as real ==>
      var m' := AfterOwn(c, m, Repeat(r, n));
      r.key in m' && m'[r.key] == Bucket(Level(c, OwnBucket(c, m, r), r.time) - n as real, r.time)
    decreases n
  {
    var b, m' := OwnBucket(c, m, r), NextOwn(c, m, r);
    var rest := Repeat(r, n - 1);
    assert Repeat(r, n)[1..] == rest;
    AllTrueCons(Allows(c, b, r.time), OwnAnswers(c, m', rest));
    LevelAfterSpend(c, b, r.time);
    if n > 1 { OwnBurst(c, m', r, n - 1); }
  }

  lemma NextSlot(c: Limits, l: Limiter, r: Request)
    ensures var l' := Next(c, l, r);
      && r.key in l'.slots && l'.slots[r.key] == Slot(Spend(c, BucketFor(c, l, r.key, r.time), r.time), r.time)
      && (r.time - l.lastSweep <= SWEEP_EVERY ==> l'.lastSweep == l.lastSweep)
  {
  }

  lemma {:induction false} LimiterBurst(c: Limits, l: Limiter, r: Request, n: nat)
    requires n > 0 && Level(c, BucketFor(c, l, r.key, r.time), r.time) >= n as real
    ensures AllTrue(Answers(c, l, Repeat(r, n)))
    ensures var l' := After(c, l, Repeat(r, n));
      r.key in l'.slots && l'.slots[r.key].seen == r.time && (r.time - l.lastSweep <= SWEEP_EVERY ==> l'.lastSweep == l.lastSweep)
    decreases n
  {
    var b, l' := BucketFor(c, l, r.key, r.time), Next(c, l, r);
    var rest := Repeat(r, n - 1);
    assert Repeat(r, n)[1..] == rest;
    NextSlot(c, l, r);
    AllTrueCons(Allows(c, b, r.time), Answers(c, l', rest));
    LevelAfterSpend(c, b, r.time);
    if n > 1 { LimiterBurst(c, l', r, n - 1); }
  }

  /** A new limiter. */
  function New(now: real): Limiter {
    Limiter(map[], now)
  }

  /** A moment after ten minutes at which a slow bucket is not yet full. */
  function Soon(c: Limits): (t: real)
    requires Gain(c, IDLE_FOR) < Max(c)
    ensures t > IDLE_FOR && Gain(c, t) < Max(c)
  {
    var t := IDLE_FOR + (Max(c) - Gain(c, IDLE_FOR)) / (2.0 * c.rate);
    SoonIsSoon(c.rate, Max(c));
    t
  }

  lemma SoonIsSoon(rate: real, max: real)
    requires rate > 0.0 && rate * IDLE_FOR < max
    ensures var t := IDLE_FOR + (max - rate * IDLE_FOR) / (2.0 * rate); t > IDLE_FOR && rate * t < max
  {
  }

  /** A burst, then just over ten minutes later another key, then the burst again. */
  function Twice(c: Limits): (reqs: seq<Request>)
    requires Gain(c, IDLE_FOR) < Max(c)
  {
    Repeat(Request("a", 0.0), c.burst) + ([Request("b", Soon(c))] + Repeat(Request("a", Soon(c)), c.burst))
  }

  lemma TwiceIsOrdered(c: Limits)
    requires Gain(c, IDLE_FOR) < Max(c)
    ensures Ordered(Twice(c), 0.0)
  {
    var t, n := Soon(c), c.burst;
    var again := Repeat(Request("a", t), n);
    OrderedRepeat(Request("a", t), n, [], t);
    assert again + [] == again;
    assert ([Request("b", t)] + again)[1..] == again;
    OrderedRepeat(Request("a", 0.0), n, [Request("b", t)] + again, 0.0);
  }

  /** Answers to `x`, one more request and `y`, in three parts. */
  lemma AnswersInThree(c: Limits, l: Limiter, m: Buckets, x: seq<Request>, r: Request, y: seq<Request>)
    ensures Answers(c, l, x + ([r] + y)) == Answers(c, l, x) + ([Answer(c, After(c, l, x), r)] + Answers(c, Next(c, After(c, l, x), r), y))
    ensures var m' := AfterOwn(c, m, x);
      OwnAnswers(c, m, x + ([r] + y)) == OwnAnswers(c, m, x) + ([Allows(c, OwnBucket(c, m', r), r.time)] + OwnAnswers(c, NextOwn(c, m', r), y))
  {
    AnswersInTwo(c, l, x, [r] + y);
    OwnAnswersInTwo(c, m, x, [r] + y);
    assert ([r] + y)[1..] == y;
  }

  lemma Parts(a: seq<bool>, b: bool, d: seq<bool>)
    ensures (a + ([b] + d))[..|a|] == a && (a + ([b] + d))[|a| + 1..] == d
  {
  }

  /** The limiter admits both bursts whole. */
  lemma LimiterTwice(c: Limits)
    requires Gain(c, IDLE_FOR) < Max(c)
    ensures var a, n := Answers(c, New(0.0), Twice(c)), c.burst;
      |a| == 2 * n + 1 && AllTrue(a[..n]) && AllTrue(a[n + 1..])
  {
    var t, n := Soon(c), c.burst;
    var first, other, again := Repeat(Request("a", 0.0), n), Request("b", t), Repeat(Request("a", t), n);
    LevelOfFull(c, 0.0);
    LevelOfFull(c, t);
    LimiterBurst(c, New(0.0), Request("a", 0.0), n);
    var l := After(c, New(0.0), first);
    Dropped(c, l, t);
    LimiterBurst(c, Next(c, l, other), Request("a", t), n);
    AnswersInThree(c, New(0.0), map[], first, other, again);
    Parts(Answers(c, New(0.0), first), Answer(c, l, other), Answers(c, Next(c, l, other), again));
  }

  lemma LevelOfFull(c: Limits, now: real)
    ensures Level(c, Full(c, now), now) == Max(c)
  {
  }

  lemma Dropped(c: Limits, l: Limiter, t: real)
    requires "a" in l.slots && l.slots["a"].seen == 0.0 && l.lastSweep == 0.0 && t > IDLE_FOR
    ensures "a" !in Next(c, l, Request("b", t)).slots
  {
  }

  /** Buckets of their own do not. */
  lemma OwnTwice(c: Limits)
    requires Gain(c, IDLE_FOR) < Max(c)
    ensures !AllTrue(OwnAnswers(c, map[], Twice(c))[c.burst + 1..])
  {
    var t, n := Soon(c), c.burst;
    var first, other, again := Repeat(Request("a", 0.0), n), Request("b", t), Repeat(Request("a", t), n);
    LevelOfFull(c, 0.0);
    OwnBurst(c, map[], Request("a", 0.0), n);
    var m := AfterOwn(c, map[], first);
    var m' := NextOwn(c, m, other);
    assert m'["a"] == Bucket(0.0, 0.0);
    OwnBurst(c, m', Request("a", t), n);
    AnswersInThree(c, New(0.0), map[], first, other, again);
    Parts(OwnAnswers(c, map[], first), Allows(c, OwnBucket(c, m, other), t), OwnAnswers(c, m', again));
  }

  /** Dropping idle buckets cannot be seen in the answers if and only if ten
      minutes fill an empty bucket. */
  lemma EvictionUnseenIff(c: Limits)
    ensures (forall reqs, start :: Ordered(reqs, start) ==> Answers(c, New(start), reqs) == OwnAnswers(c, map[], reqs))
      <==> Gain(c, IDLE_FOR) >= Max(c)
  {
    if Gain(c, IDLE_FOR) >= Max(c) {
      forall reqs, start | Ordered(reqs, start) ensures Answers(c, New(start), reqs) == OwnAnswers(c, map[], reqs) {
        SameAnswers(c, New(start), map[], reqs, start);
      }
    } else {
      TwiceIsOrdered(c);
      LimiterTwice(c);
      OwnTwice(c);
    }
  }

  // --- How many requests a window admits ---------------------------------------------------------------

  /** The admitted requests of one key. */
  function Admitted(reqs: seq<Request>, answers: seq<bool>, key: string): nat
    requires |reqs| == |answers|
  {
    if reqs == [] then 0
    else (if reqs[0].key == key && answers[0] then 1 else 0) + Admitted(reqs[1..], answers[1..], key)
  }

  ghost predicate Within(reqs: seq<Request>, from: real, to: real) {
    from <= to && forall i :: 0 <= i < |reqs| ==> from <= reqs[i].time <= to
  }

  /** What a key may spend at `now` at once. */
  function Credit(c: Limits, m: Buckets, key: string, now: real): real {
    if key in m then Level(c, m[key], now) else Max(c)
  }

  ghost predicate AllFilled(c: Limits, m: Buckets, now: real) {
    forall k :: k in m ==> Filled(c, m[k], now)
  }

  lemma CreditGrows(c: Limits, m: Buckets, key: string, start: real, now: real)
    requires start <= now
    ensures Credit(c, m, key, now) <= Credit(c, m, key, start) + Gain(c, now - start)
  {
  }

  lemma GainAdds(c: Limits, x: real, y: real)
    ensures Gain(c, x + y) == Gain(c, x) + Gain(c, y)
  {
  }

  lemma CreditNext(c: Limits, m: Buckets, r: Request, key: string)
    ensures Credit(c, NextOwn(c, m, r), key, r.time)
      == Credit(c, m, key, r.time) - if r.key == key && Allows(c, OwnBucket(c, m, r), r.time) then 1.0 else 0.0
  {
    LevelAfterSpend(c, OwnBucket(c, m, r), r.time);
    LevelOfFull(c, r.time);
  }

  /** A run admits no more than the credit at its start and what the time brings. */
  lemma {:induction false} CreditCovers(c: Limits, m: Buckets, reqs: seq<Request>, key: string, start: real, to: real)
    requires AllFilled(c, m, start) && Ordered(reqs, start) && Within(reqs, start, to)
    ensures Admitted(reqs, OwnAnswers(c, m, reqs), key) as real <= Credit(c, m, key, start) + Gain(c, to - start)
    decreases |reqs|
  {
    if reqs == [] {
      CreditIsPositive(c, m, key, start);
      NoGain(c);
      GainGrows(c, 0.0, to - start);
    } else {
      var r, m' := reqs[0], NextOwn(c, m, reqs[0]);
      NextFilled(c, m, r, start);
      OrderedWithin(reqs[1..], r.time, to);
      CreditCovers(c, m', reqs[1..], key, r.time, to);
      CreditNext(c, m, r, key);
      CreditGrows(c, m, key, start, r.time);
      GainAdds(c, r.time - start, to - r.time);
      assert OwnAnswers(c, m, reqs)[1..] == OwnAnswers(c, m', reqs[1..]);
    }
  }

  lemma CreditIsPositive(c: Limits, m: Buckets, key: string, now: real)
    requires AllFilled(c, m, now)
    ensures Credit(c, m, key, now) >= 0.0
  {
    NoGain(c);
    if key in m { GainGrows(c, 0.0, now - m[key].last); }
  }

  lemma NextFilled(c: Limits, m: Buckets, r: Request, start: real)
    requires AllFilled(c, m, start) && start <= r.time
    ensures AllFilled(c, NextOwn(c, m, r), r.time)
  {
    SpendStaysFilled(c, OwnBucket(c, m, r), r.time);
  }

  lemma {:induction false} OrderedWithin(reqs: seq<Request>, from: real, to: real)
    requires Ordered(reqs, from) && from <= to && (forall i :: 0 <= i < |reqs| ==> reqs[i].time <= to)
    ensures Within(reqs, from, to)
  {
    if reqs != [] {
      OrderedWithin(reqs[1..], reqs[0].time, to);
      assert forall i :: 1 <= i < |reqs| ==> reqs[i] == reqs[1..][i - 1];
    }
  }

  /** The limiter after the requests before a window still agrees with buckets of
      their own, at the window's first request. */
  lemma {:induction false} AgreeBefore(c: Limits, l: Limiter, m: Buckets, before: seq<Request>, window: seq<Request>, start: real)
    requires Gain(c, IDLE_FOR) >= Max(c) && Agree(c, l, m, start) && Ordered(before + window, start) && window != []
    ensures Agree(c, After(c, l, before), AfterOwn(c, m, before), window[0].time) && Ordered(window, window[0].time)
    decreases |before|
  {
    if before == [] {
      assert before + window == window;
    } else {
      var r := before[0];
      assert (before + window)[1..] == before[1..] + window;
      AgreeNext(c, l, m, r, start);
      AgreeBefore(c, Next(c, l, r), NextOwn(c, m, r), before[1..], window, r.time);
    }
  }

  ghost predicate WindowBound(c: Limits, before: seq<Request>, window: seq<Request>, key: string, start: real, from: real, to: real) {
    Ordered(before + window, start) && Within(window, from, to) ==>
      Admitted(window, Answers(c, After(c, New(start), before), window), key) as real <= Max(c) + Gain(c, to - from)
  }

  lemma AgreeingWindow(c: Limits, l: Limiter, m: Buckets, window: seq<Request>, key: string, from: real, to: real)
    requires Gain(c, IDLE_FOR) >= Max(c) && window != [] && Agree(c, l, m, window[0].time) && Ordered(window, window[0].time)
    requires Within(window, from, to)
    ensures Admitted(window, Answers(c, l, window), key) as real <= Max(c) + Gain(c, to - from)
  {
    var first := window[0].time;
    SameAnswers(c, l, m, window, first);
    OrderedWithin(window, first, to);
    CreditCovers(c, m, window, key, first, to);
    assert Credit(c, m, key, first) <= Max(c);
    GainGrows(c, to - first, to - from);
  }

  lemma WindowIsBounded(c: Limits, before: seq<Request>, window: seq<Request>, key: string, start: real, from: real, to: real)
    requires Gain(c, IDLE_FOR) >= Max(c) && Ordered(before + window, start) && Within(window, from, to)
    ensures Admitted(window, Answers(c, After(c, New(start), before), window), key) as real <= Max(c) + Gain(c, to - from)
  {
    if window == [] {
      NoGain(c);
      GainGrows(c, 0.0, to - from);
    } else {
      AgreeBefore(c, New(start), map[], before, window, start);
      AgreeingWindow(c, After(c, New(start), before), AfterOwn(c, map[], before), window, key, from, to);
    }
  }

  lemma {:induction false} AdmittedInTwo(x: seq<Request>, y: seq<Request>, a: seq<bool>, b: seq<bool>, key: string)
    requires |x| == |a| && |y| == |b|
    ensures Admitted(x + y, a + b, key) == Admitted(x, a, key) + Admitted(y, b, key)
  {
    if x == [] {
      assert x + y == y && a + b == b;
    } else {
      assert (x + y)[1..] == x[1..] + y && (a + b)[1..] == a[1..] + b;
      AdmittedInTwo(x[1..], y, a[1..], b, key);
    }
  }

  lemma {:induction false} AdmittedRepeat(r: Request, n: nat, a: seq<bool>)
    requires |a| == n && AllTrue(a)
    ensures Admitted(Repeat(r, n), a, r.key) == n
    decreases n
  {
    if n > 0 {
      assert Repeat(r, n)[1..] == Repeat(r, n - 1);
      AdmittedRepeat(r, n - 1, a[1..]);
    }
  }

  /** A slow bucket lets two bursts through where there should be less. */
  lemma TwiceIsTooMany(c: Limits)
    requires Gain(c, IDLE_FOR) < Max(c)
    ensures !WindowBound(c, [], Twice(c), "a", 0.0, 0.0, Soon(c))
  {
    var t, n := Soon(c), c.burst;
    var first, other, again := Repeat(Request("a", 0.0), n), Request("b", t), Repeat(Request("a", t), n);
    var a := Answers(c, New(0.0), Twice(c));
    TwiceIsOrdered(c);
    LimiterTwice(c);
    AdmittedRepeat(Request("a", 0.0), n, a[..n]);
    AdmittedRepeat(Request("a", t), n, a[n + 1..]);
    AdmittedInTwo([other], again, [a[n]], a[n + 1..], "a");
    AdmittedInTwo(first, [other] + again, a[..n], [a[n]] + a[n + 1..], "a");
    assert a == a[..n] + ([a[n]] + a[n + 1..]);
    assert [] + Twice(c) == Twice(c);
    assert t - 0.0 == t;
    InTwice(c);
  }

  lemma InTwice(c: Limits)
    requires Gain(c, IDLE_FOR) < Max(c)
    ensures Within(Twice(c), 0.0, Soon(c))
  {
    RepeatIs(Request("a", 0.0), c.burst);
    RepeatIs(Request("a", Soon(c)), c.burst);
  }

  lemma {:induction false} RepeatIs(r: Request, n: nat)
    ensures forall i :: 0 <= i < n ==> Repeat(r, n)[i] == r
  {
    if n > 0 { RepeatIs(r, n - 1); }
  }

  /** Every window of every run admits, of each key, at most a burst and what the
      window's length brings, if and only if ten minutes fill an empty bucket. */
  lemma WindowBoundIff(c: Limits)
    ensures (forall before, window, key, start, from, to :: WindowBound(c, before, window, key, start, from, to))
      <==> Gain(c, IDLE_FOR) >= Max(c)
  {
    if Gain(c, IDLE_FOR) >= Max(c) {
      forall before, window, key, start, from, to ensures WindowBound(c, before, window, key, start, from, to) {
        if Ordered(before + window, start) && Within(window, from, to) {
          WindowIsBounded(c, before, window, key, start, from, to);
        }
      }
    } else {
      TwiceIsTooMany(c);
    }
  }

  // --- The program ------------------------------------------------------------------------------------------

  class TokenBucket {
    const limits: Limits
    var tokens: real
    var last: real

    constructor (ratePerSec: real, burst: int, now: real)
      ensures limits == Normalised(ratePerSec, burst) && Value() == Full(limits, now)
    {
      limits := Normalised(ratePerSec, burst);
      tokens := Max(Normalised(ratePerSec, burst));
      last := now;
    }

    function Value(): Bucket
      reads this
    {
      Bucket(tokens, last)
    }

    method Allow(now: real) returns (ok: bool)
      modifies this
      ensures ok == Allows(limits, old(Value()), now) && Value() == Spend(limits, old(Value()), now)
    {
      var elapsed := now - last;
      last := now;
      tokens := tokens + Gain(limits, elapsed);
      if tokens > Max(limits) { tokens := Max(limits); }
      if tokens >= 1.0 {
        tokens := tokens - 1.0;
        return true;
      }
      return false;
    }
  }

  /** A key's bucket, and when the key was last seen. */
  datatype Entry = Entry(bucket: TokenBucket, seen: real)

  class KeyedLimiter {
    var buckets: map<string, Entry>
    const ratePerSec: real
    const burst: int
    var lastSweep: real

    constructor (ratePerSec: real, burst: int, now: real)
      ensures Valid() && Limit() == Normalised(ratePerSec, burst) && Value() == New(now) && Owned() == {}
    {
      buckets, lastSweep := map[], now;
      this.ratePerSec := ratePerSec;
      this.burst := burst;
    }

    function Limit(): Limits {
      Normalised(ratePerSec, burst)
    }

    ghost function Owned(): set<object>
      reads this
    {
      set k | k in buckets :: buckets[k].bucket
    }

    /** Every key has a bucket to itself. */
    ghost predicate Valid()
      reads this
    {
      && (forall k :: k in buckets ==> buckets[k].bucket.limits == Limit())
      && (forall k, q :: k in buckets && q in buckets && k != q ==> buckets[k].bucket != buckets[q].bucket)
    }

    ghost function Value(): Limiter
      requires Valid()
      reads this, Owned()
    {
      Limiter(map k | k in buckets :: Slot(buckets[k].bucket.Value(), buckets[k].seen), lastSweep)
    }

    /** One request, as `Answer` and `Next` have it. */
    method Allow(key: string, now: real) returns (ok: bool)
      requires Valid()
      modifies this, Owned()
      ensures Valid() && fresh(Owned() - old(Owned()))
      ensures ok == Answer(Limit(), old(Value()), Request(key, now))
      ensures Value() == Next(Limit(), old(Value()), Request(key, now))
    {
      ghost var l, r := Value(), Request(key, now);
      var bucket := Touch(key, now);
      if now - lastSweep > SWEEP_EVERY {
        Sweep(now);
      }
      KeptInSweep(Limit(), l, r);
      ok := Consume(key, bucket, now);
    }

    /** Spends from the key's bucket, and touches no other. */
    method Consume(key: string, bucket: TokenBucket, now: real) returns (ok: bool)
      requires Valid() && key in buckets && bucket == buckets[key].bucket
      modifies bucket
      ensures Valid() && ok == Allows(Limit(), old(bucket.Value()), now)
      ensures Value() == old(Value()).(slots := old(Value()).slots[key := Slot(Spend(Limit(), old(bucket.Value()), now), buckets[key].seen)])
    {
      ok := bucket.Allow(now);
    }

    /** Finds or makes the key's bucket, and marks it seen. */
    method Touch(key: string, now: real) returns (bucket: TokenBucket)
      requires Valid()
      modifies this`buckets
      ensures Valid() && key in buckets && bucket == buckets[key].bucket && fresh(Owned() - old(Owned()))
      ensures Value() == Touched(Limit(), old(Value()), Request(key, now))
    {
      if key in buckets {
        bucket := buckets[key].bucket;
      } else {
        bucket := new TokenBucket(ratePerSec, burst, now);
      }
      buckets := buckets[key := Entry(bucket, now)];
    }

    /** Drops the keys not seen for ten minutes. */
    method Sweep(now: real)
      requires Valid() && now - lastSweep > SWEEP_EVERY
      modifies this`buckets, this`lastSweep
      ensures Valid() && Owned() <= old(Owned())
      ensures Value() == Swept(old(Value()), now)
      ensures forall k :: k in buckets ==> k in old(buckets) && buckets[k] == old(buckets)[k]
    {
      DropIdle(now);
      lastSweep := now;
    }

    method DropIdle(now: real)
      modifies this`buckets
      ensures forall k :: k in buckets <==> k in old(buckets) && now - old(buckets)[k].seen <= IDLE_FOR
      ensures forall k :: k in buckets ==> buckets[k] == old(buckets)[k]
    {
      var keys := buckets.Keys;
      while keys != {}
        invariant keys <= buckets.Keys <= old(buckets).Keys
        invariant forall k :: k in buckets ==> buckets[k] == old(buckets)[k]
        invariant forall k :: k in old(buckets) && k !in keys ==> (k in buckets <==> now - old(buckets)[k].seen <= IDLE_FOR)
        decreases keys
      {
        var k :| k in keys;
        keys := keys - {k};
        if now - buckets[k].seen > IDLE_FOR { buckets := buckets - {k}; }
      }
    }
  }

  /** The sweep that a request starts does not drop the request's own key. */
  lemma KeptInSweep(c: Limits, l: Limiter, r: Request)
    ensures var l' := Swept(Touched(c, l, r), r.time);
      r.key in l'.slots && l'.slots[r.key] == Slot(BucketFor(c, l, r.key, r.time), r.time)
  {
  }
}
