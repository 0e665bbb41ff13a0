/**
  The per-key token bucket with idle eviction (api/ratelimit.go over golang.org/x/time/rate), in exact integers:
  time is in nanoseconds and one token is COST units, so a limit of n per minute refills n units each nanosecond.
 */
module RateLimit {
  import opened Prelude

  const COST: int := 60_000_000_000
  const SECOND: int := 1_000_000_000

  /** A limiter's constants; idle entries are dropped after `idleTTL` nanoseconds. */
  datatype Config = Config(perMinute: int, burst: int, idleTTL: int) {
    predicate Valid() {
      perMinute > 0 && burst > 0 && idleTTL >= 0
    }

    function Capacity(): int {
      burst * COST
    }

    /** An idle entry has refilled completely by the time it may be dropped. */
    predicate RefillsWhenIdle() {
      Capacity() <= perMinute * idleTTL
    }
  }

  const CHAT := Config(20, 20, 600 * SECOND)
  const EXPORT := Config(6, 6, 600 * SECOND)
  const MAGIC := Config(5, 5, 600 * SECOND)

  /*** The bucket ***/

  datatype Bucket = Bucket(tokens: int, last: int)

  /** The tokens at `now`: refilled since the last use, never above capacity. */
  function Refilled(c: Config, b: Bucket, now: int): int {
    Min(c.Capacity(), b.tokens + c.perMinute * if now < b.last then 0 else now - b.last)
  }

  /** Nanoseconds until a deficit is refilled, cut to whole ones. */
  function WaitFor(c: Config, tokens: int): int
    requires c.Valid()
  {
    if tokens < 0 then (-tokens) / c.perMinute else 0
  }

  /** `ReserveN(now, 1)`: take a token, going into debt if need be. */
  function Reserve(c: Config, b: Bucket, now: int): Bucket {
    Bucket(Refilled(c, b, now) - COST, now)
  }

  /** `CancelAt(now)` on the reservation just made: give the token back. */
  function Cancel(c: Config, b: Bucket, now: int): Bucket {
    Bucket(Min(c.Capacity(), Refilled(c, b, now) + COST), now)
  }

  /** A reservation that is denied and cancelled leaves nothing but the refill. */
  lemma ReserveThenCancel(c: Config, b: Bucket, now: int)
    requires c.Valid()
    ensures Cancel(c, Reserve(c, b, now), now) == Bucket(Refilled(c, b, now), now)
  {
    assert c.perMinute * (now - now) == 0;
  }

  /*** The limiter ***/

  datatype Entry = Entry(bucket: Bucket, lastSeen: int)

  type Entries = map<string, Entry>

  datatype Answer = Answer(allowed: bool, wait: int)

  /** The bucket a key is served from; a key never seen, or dropped, starts full. */
  function BucketOf(c: Config, entries: Entries, key: string, now: int): Bucket {
    if key in entries then entries[key].bucket else Bucket(c.Capacity(), now)
  }

  /** The tokens a call on `key` would find at time `t`. */
  function Level(c: Config, entries: Entries, key: string, t: int): int {
    Refilled(c, BucketOf(c, entries, key, t), t)
  }

  function AnswerAt(c: Config, level: int): Answer
    requires c.Valid()
  {
    var wait := WaitFor(c, level - COST);
    if wait > 0 then Answer(false, wait) else Answer(true, 0)
  }

  function AfterCall(c: Config, entries: Entries, key: string, now: int): Entries
    requires c.Valid()
  {
    var level := Level(c, entries, key, now);
    entries[key := Entry(Bucket(if AnswerAt(c, level).allowed then level - COST else level, now), now)]
  }

  /** The Retry-After header: the wait cut to whole seconds, at least one. */
  function RetryAfter(wait: int): int {
    if wait / SECOND < 1 then 1 else wait / SECOND
  }

  predicate IsIdle(c: Config, e: Entry, now: int) {
    e.lastSeen < now - c.idleTTL
  }

  function AfterEvict(c: Config, entries: Entries, now: int): Entries {
    entries - set k | k in entries && IsIdle(c, entries[k], now)
  }

  class Limiter {
    var entries: Entries
    const config: Config

    constructor (config: Config)
      ensures this.config == config && entries == map[]
    {
      this.config := config;
      entries := map[];
    }

    method Allow(key: string, now: int) returns (allowed: bool, wait: int)
      requires config.Valid()
      modifies this
      ensures Answer(allowed, wait) == AnswerAt(config, Level(config, old(entries), key, now))
      ensures entries == AfterCall(config, old(entries), key, now)
    {
      var bucket := if key in entries then entries[key].bucket else Bucket(config.burst * COST, now);
      var reserved := Reserve(config, bucket, now);
      wait := WaitFor(config, reserved.tokens);
      if wait > 0 {
        ReserveThenCancel(config, bucket, now);
        entries := entries[key := Entry(Cancel(config, reserved, now), now)];
        return false, wait;
      }
      entries := entries[key := Entry(reserved, now)];
      return true, 0;
    }

    /** The middleware: let the request through, or turn it away with a whole number of seconds to wait. */
    method Serve(key: string, now: int) returns (retryAfter: Option<int>)
      requires config.Valid()
      modifies this
      ensures var answer := AnswerAt(config, Level(config, old(entries), key, now));
              retryAfter == if answer.allowed then None else Some(RetryAfter(answer.wait))
      ensures entries == AfterCall(config, old(entries), key, now)
    {
      var allowed, wait := Allow(key, now);
      if !allowed {
        var secs := wait / SECOND;
        if secs < 1 {
          secs := 1;
        }
        return Some(secs);
      }
      return None;
    }

    method Evict(now: int)
      modifies this
      ensures entries == AfterEvict(config, old(entries), now)
    {
      ghost var before := entries;
      var cutoff := now - config.idleTTL;
      var todo := entries.Keys;
      while todo != {}
        invariant todo <= before.Keys
        invariant entries == before - set k | k in before && k !in todo && IsIdle(config, before[k], now)
        decreases todo
      {
        var k :| k in todo;
        todo := todo - {k};
        if entries[k].lastSeen < cutoff {
          entries := entries - {k};
        }
      }
    }
  }

  /*** Timed sequences of calls and sweeps ***/

  datatype Op = Call(key: string, time: int) | Sweep(time: int)

  function Step(c: Config, entries: Entries, op: Op): Entries
    requires c.Valid()
  {
    match op
    case Call(key, t) => AfterCall(c, entries, key, t)
    case Sweep(t) => AfterEvict(c, entries, t)
  }

  function After(c: Config, entries: Entries, ops: seq<Op>): Entries
    requires c.Valid()
    decreases |ops|
  {
    if ops == [] then entries else After(c, Step(c, entries, ops[0]), ops[1..])
  }

  /** The answers to all calls, in order. */
  function Answers(c: Config, entries: Entries, ops: seq<Op>): seq<Answer>
    requires c.Valid()
    decreases |ops|
  {
    if ops == [] then []
    else (if ops[0].Call? then [AnswerAt(c, Level(c, entries, ops[0].key, ops[0].time))] else [])
         + Answers(c, Step(c, entries, ops[0]), ops[1..])
  }

  /** Whether this step admits a call on `key`. */
  predicate Admits(c: Config, entries: Entries, key: string, op: Op)
    requires c.Valid()
  {
    op.Call? && op.key == key && AnswerAt(c, Level(c, entries, key, op.time)).allowed
  }

  /** How many calls on `key` were admitted. */
  function Admitted(c: Config, entries: Entries, key: string, ops: seq<Op>): nat
    requires c.Valid()
    decreases |ops|
  {
    if ops == [] then 0
    else (if Admits(c, entries, key, ops[0]) then 1 else 0)
         + Admitted(c, Step(c, entries, ops[0]), key, ops[1..])
  }

  function WithoutSweeps(ops: seq<Op>): seq<Op> {
    if ops == [] then [] else (if ops[0].Call? then [ops[0]] else []) + WithoutSweeps(ops[1..])
  }

  /** Times never run backwards and stay within the interval. */
  predicate Timed(ops: seq<Op>, from: int, to: int)
    decreases |ops|
  {
    if ops == [] then from <= to else from <= ops[0].time && Timed(ops[1..], ops[0].time, to)
  }

  /** What every entry keeps: seen when last used, at most full, in debt by less than a nanosecond's refill. */
  predicate GoodEntry(c: Config, e: Entry, now: int) {
    e.lastSeen == e.bucket.last <= now && -c.perMinute < e.bucket.tokens <= c.Capacity()
  }

  predicate Good(c: Config, entries: Entries, now: int) {
    forall k | k in entries :: GoodEntry(c, entries[k], now)
  }

  /** Two tables that no later call can tell apart. */
  ghost predicate Same(c: Config, a: Entries, b: Entries, now: int) {
    forall key: string, t: int | now <= t :: Level(c, a, key, t) == Level(c, b, key, t)
  }

  lemma RefillTwice(c: Config, b: Bucket, mid: int, t: int)
    requires c.Valid() && b.last <= mid <= t
    ensures Refilled(c, Bucket(Refilled(c, b, mid), mid), t) == Refilled(c, b, t)
  {
    assert c.perMinute * (t - b.last) == c.perMinute * (mid - b.last) + c.perMinute * (t - mid);
    assert c.perMinute * (t - mid) >= 0;
  }

  lemma RefillBounds(c: Config, b: Bucket, t: int)
    requires c.Valid() && b.tokens <= c.Capacity()
    ensures b.tokens <= Refilled(c, b, t) <= c.Capacity()
  {
    if t >= b.last {
      assert c.perMinute * (t - b.last) >= 0;
    }
  }

  lemma LevelBounds(c: Config, entries: Entries, key: string, now: int, t: int)
    requires c.Valid() && Good(c, entries, now) && now <= t
    ensures -c.perMinute < Level(c, entries, key, t) <= c.Capacity()
  {
    RefillBounds(c, BucketOf(c, entries, key, t), t);
  }

  /** Time only refills: the level at `t` from the level at `now`. */
  lemma LevelLater(c: Config, entries: Entries, key: string, now: int, t: int)
    requires c.Valid() && Good(c, entries, now) && now <= t
    ensures Level(c, entries, key, t) == Min(c.Capacity(), Level(c, entries, key, now) + c.perMinute * (t - now))
  {
    if key in entries {
      RefillTwice(c, entries[key].bucket, now, t);
    } else {
      assert c.perMinute * (t - now) >= 0;
    }
  }

  lemma AllowedMeans(c: Config, level: int)
    requires c.Valid()
    ensures AnswerAt(c, level).allowed <==> level - COST > -c.perMinute
    ensures !AnswerAt(c, level).allowed ==> AnswerAt(c, level).wait == (COST - level) / c.perMinute > 0
  {
    var left := level - COST;
    if left < 0 {
      DivPositive(-left, c.perMinute);
    }
  }

  /** Rounding down: the quotient stays below `k` exactly while `n` stays below `k` divisors. */
  lemma DivBound(n: int, d: int, k: int)
    requires d > 0
    ensures n / d < k <==> n < k * d
  {
    var q := n / d;
    assert n == d * q + n % d;
    assert q < k ==> d * (q + 1) <= d * k;
    assert q >= k ==> d * q >= d * k;
    assert d * (q + 1) == d * q + d;
  }

  lemma DivPositive(n: int, d: int)
    requires d > 0 && n >= 0
    ensures n / d > 0 <==> n >= d
  {
    DivBound(n, d, 1);
  }

  /** What one call does to every later level: its own key pays if admitted, no other key notices. */
  lemma LevelAfterCall(c: Config, entries: Entries, key: string, now: int, other: string, t: int)
    requires c.Valid() && Good(c, entries, now) && now <= t
    ensures var level := Level(c, entries, key, now);
            Level(c, AfterCall(c, entries, key, now), other, t)
              == if other != key then Level(c, entries, other, t)
                 else Min(c.Capacity(),
                          (if AnswerAt(c, level).allowed then level - COST else level) + c.perMinute * (t - now))
  {
  }

  /** Every entry that a sweep drops has refilled. */
  predicate SweepIsSafe(c: Config, entries: Entries, now: int) {
    forall k | k in entries && IsIdle(c, entries[k], now) :: Refilled(c, entries[k].bucket, now) == c.Capacity()
  }

  /** All sweeps of a run are of this kind. */
  predicate SweepsAreSafe(c: Config, entries: Entries, ops: seq<Op>)
    requires c.Valid()
    decreases |ops|
  {
    ops == []
    || ((ops[0].Sweep? ==> SweepIsSafe(c, entries, ops[0].time))
        && SweepsAreSafe(c, Step(c, entries, ops[0]), ops[1..]))
  }

  /** A safe sweep changes no later level. */
  lemma LevelAfterEvict(c: Config, entries: Entries, now: int, key: string, t: int)
    requires c.Valid() && SweepIsSafe(c, entries, now) && Good(c, entries, now) && now <= t
    ensures Level(c, AfterEvict(c, entries, now), key, t) == Level(c, entries, key, t)
  {
    if key in entries && IsIdle(c, entries[key], now) {
      var b := entries[key].bucket;
      assert Refilled(c, b, now) == c.Capacity();
      MulMono(c.perMinute, now - b.last, t - b.last);
      assert c.perMinute * (t - t) == 0;
    }
  }

  lemma IdleSweepIsSafe(c: Config, entries: Entries, now: int)
    requires c.Valid() && c.RefillsWhenIdle() && Good(c, entries, now)
    ensures SweepIsSafe(c, entries, now)
  {
    forall k | k in entries && IsIdle(c, entries[k], now)
      ensures Refilled(c, entries[k].bucket, now) == c.Capacity()
    {
      var b := entries[k].bucket;
      MulMono(c.perMinute, c.idleTTL + 1, now - b.last);
      assert c.perMinute * (c.idleTTL + 1) == c.perMinute * c.idleTTL + c.perMinute;
    }
  }

  /** Where the idle period refills a bucket, every sweep is safe. */
  lemma {:induction false} IdleSweepsAreSafe(c: Config, entries: Entries, ops: seq<Op>, now: int, to: int)
    requires c.Valid() && c.RefillsWhenIdle() && Good(c, entries, now) && Timed(ops, now, to)
    ensures SweepsAreSafe(c, entries, ops)
    decreases |ops|
  {
    if ops != [] {
      assert Good(c, entries, ops[0].time);
      IdleSweepIsSafe(c, entries, ops[0].time);
      StepKeepsGood(c, entries, now, ops[0]);
      IdleSweepsAreSafe(c, Step(c, entries, ops[0]), ops[1..], ops[0].time, to);
    }
  }

  lemma MulMono(a: int, x: int, y: int)
    requires a >= 0 && x <= y
    ensures a * x <= a * y
  {
  }

  lemma StepKeepsGood(c: Config, entries: Entries, now: int, op: Op)
    requires c.Valid() && Good(c, entries, now) && now <= op.time
    ensures Good(c, Step(c, entries, op), op.time)
  {
    if op.Call? {
      LevelBounds(c, entries, op.key, now, op.time);
      AllowedMeans(c, Level(c, entries, op.key, op.time));
    }
  }

  /** Tables that look the same keep looking the same under the same call, and a sweep of one is invisible. */
  lemma CallKeepsSame(c: Config, a: Entries, b: Entries, now: int, op: Op)
    requires c.Valid() && Good(c, a, now) && Good(c, b, now) && Same(c, a, b, now)
    requires op.Call? && now <= op.time
    ensures Same(c, Step(c, a, op), Step(c, b, op), op.time)
    ensures Level(c, a, op.key, op.time) == Level(c, b, op.key, op.time)
  {
    forall key: string, t: int | op.time <= t
      ensures Level(c, Step(c, a, op), key, t) == Level(c, Step(c, b, op), key, t)
    {
      assert Good(c, a, op.time) && Good(c, b, op.time);
      LevelAfterCall(c, a, op.key, op.time, key, t);
      LevelAfterCall(c, b, op.key, op.time, key, t);
    }
  }

  lemma SweepKeepsSame(c: Config, a: Entries, b: Entries, now: int, op: Op)
    requires c.Valid() && Good(c, a, now) && Same(c, a, b, now)
    requires op.Sweep? && now <= op.time && SweepIsSafe(c, a, op.time)
    ensures Same(c, Step(c, a, op), b, op.time)
  {
    assert Good(c, a, op.time);
    forall key: string, t: int | op.time <= t ensures Level(c, Step(c, a, op), key, t) == Level(c, b, key, t) {
      LevelAfterEvict(c, a, op.time, key, t);
    }
  }

  lemma {:induction false} SameAnswers(c: Config, a: Entries, b: Entries, ops: seq<Op>, now: int, to: int)
    requires c.Valid() && Good(c, a, now) && Good(c, b, now) && Same(c, a, b, now)
    requires Timed(ops, now, to) && SweepsAreSafe(c, a, ops)
    ensures Answers(c, a, ops) == Answers(c, b, WithoutSweeps(ops))
    decreases |ops|
  {
    if ops != [] {
      var op := ops[0];
      StepKeepsGood(c, a, now, op);
      if op.Call? {
        StepKeepsGood(c, b, now, op);
        CallKeepsSame(c, a, b, now, op);
        SameAnswers(c, Step(c, a, op), Step(c, b, op), ops[1..], op.time, to);
        var plain := WithoutSweeps(ops);
        assert plain == [op] + WithoutSweeps(ops[1..]);
        assert plain[0] == op && plain[1..] == WithoutSweeps(ops[1..]);
      } else {
        SweepKeepsSame(c, a, b, now, op);
        assert Good(c, b, op.time);
        SameAnswers(c, Step(c, a, op), b, ops[1..], op.time, to);
        assert WithoutSweeps(ops) == WithoutSweeps(ops[1..]);
        assert Answers(c, a, ops) == Answers(c, Step(c, a, op), ops[1..]);
      }
    }
  }

  /*** Main results ***/

  /**
    Eviction is transparent: sweeping at arbitrary times gives every call the answer it would get if nothing were
    ever evicted, provided the idle period refills a bucket.
   */
  lemma EvictionIsTransparent(c: Config, ops: seq<Op>, from: int, to: int)
    requires c.Valid() && c.RefillsWhenIdle() && Timed(ops, from, to)
    ensures Answers(c, map[], ops) == Answers(c, map[], WithoutSweeps(ops))
  {
    IdleSweepsAreSafe(c, map[], ops, from, to);
    SameAnswers(c, map[], map[], ops, from, to);
  }

  /** All three limiters of the service qualify, and their rates divide a token evenly. */
  lemma ServiceLimiters()
    ensures forall c | c in {CHAT, EXPORT, MAGIC} :: c.Valid() && c.RefillsWhenIdle() && COST % c.perMinute == 0
  {
  }

  /** Denied calls cost nothing: all later answers are as if the denied call had not been made. */
  lemma DeniedCallsCostNothing(c: Config, entries: Entries, key: string, now: int, ops: seq<Op>, to: int)
    requires c.Valid() && c.RefillsWhenIdle() && Good(c, entries, now) && Timed(ops, now, to)
    requires !AnswerAt(c, Level(c, entries, key, now)).allowed
    ensures Answers(c, AfterCall(c, entries, key, now), ops) == Answers(c, entries, ops)
  {
    var after := AfterCall(c, entries, key, now);
    forall k: string, t: int | now <= t ensures Level(c, after, k, t) == Level(c, entries, k, t) {
      LevelAfterCall(c, entries, key, now, k, t);
      LevelLater(c, entries, key, now, t);
    }
    StepKeepsGood(c, entries, now, Call(key, now));
    IdleSweepsAreSafe(c, after, ops, now, to);
    IdleSweepsAreSafe(c, entries, ops, now, to);
    SameAnswers(c, after, entries, ops, now, to);
    SameAnswers(c, entries, entries, ops, now, to);
  }

  /*** The window bound ***/

  /** Calls admitted are paid for by the level at the start and the refill since. */
  lemma {:induction false} AdmissionsArePaid(c: Config, entries: Entries, key: string, ops: seq<Op>, now: int, to: int)
    requires c.Valid() && Good(c, entries, now) && Timed(ops, now, to) && SweepsAreSafe(c, entries, ops)
    ensures Good(c, After(c, entries, ops), to) && now <= to
    ensures Admitted(c, entries, key, ops) * COST + Level(c, After(c, entries, ops), key, to)
              <= Level(c, entries, key, now) + c.perMinute * (to - now)
    decreases |ops|
  {
    if ops == [] {
      LevelLater(c, entries, key, now, to);
    } else {
      var op, next := ops[0], Step(c, entries, ops[0]);
      StepKeepsGood(c, entries, now, op);
      AdmissionsArePaid(c, next, key, ops[1..], op.time, to);
      StepPays(c, entries, key, now, op);
      assert c.perMinute * (to - now) == c.perMinute * (op.time - now) + c.perMinute * (to - op.time);
    }
  }

  /** The level right after a step: refilled, less one token if the step admitted a call on the key. */
  lemma StepPays(c: Config, entries: Entries, key: string, now: int, op: Op)
    requires c.Valid() && Good(c, entries, now) && now <= op.time
    requires op.Sweep? ==> SweepIsSafe(c, entries, op.time)
    ensures Level(c, Step(c, entries, op), key, op.time)
         == Min(c.Capacity(), Level(c, entries, key, now) + c.perMinute * (op.time - now))
            - if Admits(c, entries, key, op) then COST else 0
  {
    var t := op.time;
    assert Good(c, entries, t);
    LevelLater(c, entries, key, now, t);
    LevelBounds(c, entries, key, now, t);
    if op.Call? {
      LevelAfterCall(c, entries, op.key, t, key, t);
    } else {
      LevelAfterEvict(c, entries, t, key, t);
    }
  }

  /**
    The window bound: over any interval of length T, after any history, a key is admitted at most burst + rate * T
    calls, give or take the fraction of a token that a wait cut to whole nanoseconds lets through early.
   */
  lemma WindowBound(c: Config, history: seq<Op>, window: seq<Op>, key: string, start: int, from: int, to: int)
    requires c.Valid() && c.RefillsWhenIdle() && Timed(history, start, from) && Timed(window, from, to)
    ensures Admitted(c, After(c, map[], history), key, window) * COST
              < c.Capacity() + c.perMinute * (to - from) + c.perMinute
  {
    IdleSweepsAreSafe(c, map[], history, start, from);
    AdmissionsArePaid(c, map[], key, history, start, from);
    var entries := After(c, map[], history);
    IdleSweepsAreSafe(c, entries, window, from, to);
    AdmissionsArePaid(c, entries, key, window, from, to);
    LevelBounds(c, entries, key, from, from);
    LevelBounds(c, After(c, entries, window), key, to, to);
  }

  /** Burst + rate * T exactly, for every history, window and key. */
  ghost predicate ExactWindowBound(c: Config)
    requires c.Valid()
  {
    forall history, window, key: string, start: int, from: int, to: int
      | Timed(history, start, from) && Timed(window, from, to)
      :: Admitted(c, After(c, map[], history), key, window) * COST <= c.Capacity() + c.perMinute * (to - from)
  }

  /** The exact bound holds if and only if a nanosecond's refill divides a token. */
  lemma ExactWindowBoundIff(c: Config)
    requires c.Valid() && c.RefillsWhenIdle()
    ensures ExactWindowBound(c) <==> COST % c.perMinute == 0
  {
    if COST % c.perMinute == 0 {
      forall history, window, key: string, start: int, from: int, to: int
        | Timed(history, start, from) && Timed(window, from, to)
        ensures Admitted(c, After(c, map[], history), key, window) * COST <= c.Capacity() + c.perMinute * (to - from)
      {
        WindowExact(c, history, window, key, start, from, to);
      }
    } else {
      OneTooMany(c);
    }
  }

  /** Every level is a whole number of nanoseconds' refill. */
  ghost predicate Whole(c: Config, entries: Entries)
    requires c.Valid()
  {
    forall k | k in entries :: entries[k].bucket.tokens % c.perMinute == 0
  }

  lemma ModUnique(n: int, d: int, q: int, r: int)
    requires d > 0 && n == d * q + r && 0 <= r < d
    ensures n % d == r
  {
    var x := n / d - q;
    assert n == d * (n / d) + n % d;
    assert d * (n / d) == d * q + d * x;
    assert x >= 1 ==> d * x >= d;
    assert x <= -1 ==> d * x <= -d;
    assert x == 0 ==> d * x == 0;
  }

  /** Adding whole divisors does not change the remainder. */
  lemma ModPlus(n: int, d: int, q: int)
    requires d > 0
    ensures (n + d * q) % d == n % d
  {
    assert n == d * (n / d) + n % d;
    assert d * (n / d + q) == d * (n / d) + d * q;
    ModUnique(n + d * q, d, n / d + q, n % d);
  }

  lemma WholeLevel(c: Config, entries: Entries, key: string, t: int)
    requires c.Valid() && COST % c.perMinute == 0 && Whole(c, entries)
    ensures Level(c, entries, key, t) % c.perMinute == 0
  {
    var d := c.perMinute;
    ModPlus(0, d, c.burst * (COST / d));
    assert c.Capacity() == d * (c.burst * (COST / d)) by {
      assert COST == d * (COST / d);
    }
    var b := BucketOf(c, entries, key, t);
    ModPlus(b.tokens, d, if t < b.last then 0 else t - b.last);
  }

  lemma {:induction false} WholeAfter(c: Config, entries: Entries, ops: seq<Op>)
    requires c.Valid() && COST % c.perMinute == 0 && Whole(c, entries)
    ensures Whole(c, After(c, entries, ops))
    decreases |ops|
  {
    if ops != [] {
      var op := ops[0];
      if op.Call? {
        var level := Level(c, entries, op.key, op.time);
        WholeLevel(c, entries, op.key, op.time);
        ModPlus(level, c.perMinute, -(COST / c.perMinute));
        assert level - COST == level + c.perMinute * -(COST / c.perMinute);
      }
      assert Whole(c, Step(c, entries, op));
      WholeAfter(c, Step(c, entries, op), ops[1..]);
    }
  }

  /** A key is never in debt when levels are whole. */
  lemma NeverInDebt(c: Config, entries: Entries, key: string, to: int)
    requires c.Valid() && COST % c.perMinute == 0 && Whole(c, entries) && Good(c, entries, to)
    ensures Level(c, entries, key, to) >= 0
  {
    LevelBounds(c, entries, key, to, to);
    WholeLevel(c, entries, key, to);
    var level, d := Level(c, entries, key, to), c.perMinute;
    assert level == d * (level / d);
    assert level / d <= -1 ==> level <= -d;
  }

  lemma WindowExact(c: Config, history: seq<Op>, window: seq<Op>, key: string, start: int, from: int, to: int)
    requires c.Valid() && c.RefillsWhenIdle() && COST % c.perMinute == 0
    requires Timed(history, start, from) && Timed(window, from, to)
    ensures Admitted(c, After(c, map[], history), key, window) * COST <= c.Capacity() + c.perMinute * (to - from)
  {
    IdleSweepsAreSafe(c, map[], history, start, from);
    AdmissionsArePaid(c, map[], key, history, start, from);
    WholeAfter(c, map[], history);
    var entries := After(c, map[], history);
    WindowFrom(c, entries, window, key, from, to);
  }

  lemma WindowFrom(c: Config, entries: Entries, window: seq<Op>, key: string, from: int, to: int)
    requires c.Valid() && c.RefillsWhenIdle() && COST % c.perMinute == 0
    requires Good(c, entries, from) && Whole(c, entries) && Timed(window, from, to)
    ensures Admitted(c, entries, key, window) * COST <= c.Capacity() + c.perMinute * (to - from)
  {
    IdleSweepsAreSafe(c, entries, window, from, to);
    AdmissionsArePaid(c, entries, key, window, from, to);
    LevelBounds(c, entries, key, from, from);
    WholeAfter(c, entries, window);
    NeverInDebt(c, After(c, entries, window), key, to);
  }

  /** `n` calls on one key at time zero, then one more when the next token is short by less than a nanosecond. */
  function EmptyThenEarly(c: Config, n: nat): seq<Op>
    requires c.Valid()
  {
    if n == 0 then [Call("k", COST / c.perMinute)] else [Call("k", 0)] + EmptyThenEarly(c, n - 1)
  }

  lemma {:induction false} AllAreAdmitted(c: Config, entries: Entries, n: nat)
    requires c.Valid() && n <= c.burst && Good(c, entries, 0) && Level(c, entries, "k", 0) == n * COST
    ensures Admitted(c, entries, "k", EmptyThenEarly(c, n)) == n + 1
    ensures Timed(EmptyThenEarly(c, n), 0, COST / c.perMinute)
    decreases n
  {
    var ops := EmptyThenEarly(c, n);
    var t := COST / c.perMinute;
    assert COST == c.perMinute * t + COST % c.perMinute;
    DivBound(COST, c.perMinute, 0);
    if n == 0 {
      LevelLater(c, entries, "k", 0, t);
      AllowedMeans(c, Level(c, entries, "k", t));
      assert c.burst * COST >= COST;
      assert Admits(c, entries, "k", ops[0]);
      assert Admitted(c, entries, "k", ops) == 1 + Admitted(c, Step(c, entries, ops[0]), "k", ops[1..]);
    } else {
      AllowedMeans(c, n * COST);
      var next := Step(c, entries, ops[0]);
      StepKeepsGood(c, entries, 0, ops[0]);
      LevelAfterCall(c, entries, "k", 0, "k", 0);
      assert c.perMinute * (0 - 0) == 0;
      AllAreAdmitted(c, next, n - 1);
      assert ops[1..] == EmptyThenEarly(c, n - 1);
    }
  }

  /** Where the refill does not divide a token, burst calls and one early call break the exact bound. */
  lemma OneTooMany(c: Config)
    requires c.Valid() && COST % c.perMinute != 0
    ensures !ExactWindowBound(c)
  {
    var t := COST / c.perMinute;
    AllAreAdmitted(c, map[], c.burst);
    assert Timed([], 0, 0);
    assert After(c, map[], []) == map[];
    assert COST == c.perMinute * t + COST % c.perMinute;
    assert (c.burst + 1) * COST > c.Capacity() + c.perMinute * (t - 0);
    assert Admitted(c, After(c, map[], []), "k", EmptyThenEarly(c, c.burst)) * COST
             > c.Capacity() + c.perMinute * (t - 0);
  }

  /*** Waiting is enough, and necessary ***/

  lemma {:induction false} TimedForward(ops: seq<Op>, from: int, to: int)
    requires Timed(ops, from, to)
    ensures from <= to
    decreases |ops|
  {
    if ops != [] {
      TimedForward(ops[1..], ops[0].time, to);
    }
  }

  lemma RefillTwoSteps(c: Config, level: int, now: int, mid: int, to: int)
    requires c.Valid() && mid <= to
    ensures Min(c.Capacity(), Min(c.Capacity(), level + c.perMinute * (mid - now)) + c.perMinute * (to - mid))
         == Min(c.Capacity(), level + c.perMinute * (to - now))
  {
    assert c.perMinute * (to - now) == c.perMinute * (mid - now) + c.perMinute * (to - mid);
    assert c.perMinute * (to - mid) >= 0;
  }

  lemma {:induction false} LevelWithoutAdmission(c: Config, entries: Entries, key: string, ops: seq<Op>,
                                                 now: int, to: int)
    requires c.Valid() && c.RefillsWhenIdle() && Good(c, entries, now) && Timed(ops, now, to)
    requires Admitted(c, entries, key, ops) == 0
    ensures Level(c, After(c, entries, ops), key, to)
         == Min(c.Capacity(), Level(c, entries, key, now) + c.perMinute * (to - now))
    decreases |ops|
  {
    if ops == [] {
      LevelLater(c, entries, key, now, to);
    } else {
      var op, next := ops[0], Step(c, entries, ops[0]);
      StepKeepsGood(c, entries, now, op);
      assert !Admits(c, entries, key, op);
      assert Good(c, entries, op.time);
      IdleSweepIsSafe(c, entries, op.time);
      StepPays(c, entries, key, now, op);
      LevelWithoutAdmission(c, next, key, ops[1..], op.time, to);
      TimedForward(ops[1..], op.time, to);
      RefillTwoSteps(c, Level(c, entries, key, now), now, op.time, to);
      assert After(c, entries, ops) == After(c, next, ops[1..]);
    }
  }

  /**
    The wait is exact: after a denied call, whatever is called, denied or swept in between, and with no other
    admission on the key, the next call is admitted if and only if the returned wait has passed.
   */
  lemma WaitIsExact(c: Config, entries: Entries, key: string, now: int, between: seq<Op>, later: int)
    requires c.Valid() && c.RefillsWhenIdle() && Good(c, entries, now) && Timed(between, now, later)
    requires !AnswerAt(c, Level(c, entries, key, now)).allowed
    requires Admitted(c, AfterCall(c, entries, key, now), key, between) == 0
    ensures var wait := AnswerAt(c, Level(c, entries, key, now)).wait;
            var table := After(c, AfterCall(c, entries, key, now), between);
            AnswerAt(c, Level(c, table, key, later)).allowed <==> later >= now + wait
  {
    var level := Level(c, entries, key, now);
    var denied := Call(key, now);
    AllowedMeans(c, level);
    StepKeepsGood(c, entries, now, denied);
    StepPays(c, entries, key, now, denied);
    LevelBounds(c, entries, key, now, now);
    assert c.perMinute * (now - now) == 0;
    LevelWithoutAdmission(c, Step(c, entries, denied), key, between, now, later);
    AllowedMeans(c, Level(c, After(c, Step(c, entries, denied), between), key, later));
    DivBound(COST - level, c.perMinute, later - now + 1);
    assert (later - now + 1) * c.perMinute == c.perMinute * (later - now) + c.perMinute;
    assert c.Capacity() >= COST;
  }

  /**
    Retry-After is one second or no longer than the wait; plus one second it is always long enough, and alone only for
    short or whole waits.
   */
  lemma RetryAfterSuffices(wait: int)
    requires wait > 0
    ensures RetryAfter(wait) >= 1 && (RetryAfter(wait) == 1 || RetryAfter(wait) * SECOND <= wait)
    ensures wait < (RetryAfter(wait) + 1) * SECOND
    ensures wait <= RetryAfter(wait) * SECOND <==> wait <= SECOND || wait % SECOND == 0
  {
  }

  /** What a client sees: turned away, it is let through one second after the announced time, if nobody else was. */
  lemma RetryAfterOneMoreSecond(c: Config, entries: Entries, key: string, now: int, between: seq<Op>, later: int)
    requires c.Valid() && c.RefillsWhenIdle() && Good(c, entries, now) && Timed(between, now, later)
    requires !AnswerAt(c, Level(c, entries, key, now)).allowed
    requires Admitted(c, AfterCall(c, entries, key, now), key, between) == 0
    requires later >= now + (RetryAfter(AnswerAt(c, Level(c, entries, key, now)).wait) + 1) * SECOND
    ensures AnswerAt(c, Level(c, After(c, AfterCall(c, entries, key, now), between), key, later)).allowed
  {
    WaitIsExact(c, entries, key, now, between, later);
    AllowedMeans(c, Level(c, entries, key, now));
    RetryAfterSuffices(AnswerAt(c, Level(c, entries, key, now)).wait);
  }

  /**
    A turned-away client that returns after exactly Retry-After seconds, with nobody else admitted meanwhile, is
    admitted if and only if its wait was at most a second or a whole number of seconds.
   */
  lemma RetryAfterAlone(c: Config, entries: Entries, key: string, now: int, between: seq<Op>)
    requires c.Valid() && c.RefillsWhenIdle() && Good(c, entries, now)
    requires !AnswerAt(c, Level(c, entries, key, now)).allowed
    requires Timed(between, now, now + RetryAfter(AnswerAt(c, Level(c, entries, key, now)).wait) * SECOND)
    requires Admitted(c, AfterCall(c, entries, key, now), key, between) == 0
    ensures var wait := AnswerAt(c, Level(c, entries, key, now)).wait;
            var table := After(c, AfterCall(c, entries, key, now), between);
            var returned := AnswerAt(c, Level(c, table, key, now + RetryAfter(wait) * SECOND));
            returned.allowed <==> wait <= SECOND || wait % SECOND == 0
  {
    var wait := AnswerAt(c, Level(c, entries, key, now)).wait;
    AllowedMeans(c, Level(c, entries, key, now));
    RetryAfterSuffices(wait);
    WaitIsExact(c, entries, key, now, between, now + RetryAfter(wait) * SECOND);
  }

  /** `n` calls on one key at time zero. */
  function Burst(n: nat): seq<Op> {
    if n == 0 then [] else [Call("k", 0)] + Burst(n - 1)
  }

  lemma {:induction false} BurstDrains(c: Config, entries: Entries, n: nat)
    requires c.Valid() && n <= c.burst && Good(c, entries, 0) && Level(c, entries, "k", 0) == n * COST
    ensures Timed(Burst(n), 0, 0) && Good(c, After(c, entries, Burst(n)), 0)
    ensures Level(c, After(c, entries, Burst(n)), "k", 0) == 0
    decreases n
  {
    if n > 0 {
      var ops := Burst(n);
      AllowedMeans(c, n * COST);
      StepKeepsGood(c, entries, 0, ops[0]);
      LevelAfterCall(c, entries, "k", 0, "k", 0);
      BurstDrains(c, Step(c, entries, ops[0]), n - 1);
      assert ops[1..] == Burst(n - 1);
    }
  }

  lemma TooEarlyWhenDrained(entries: Entries)
    requires Good(CHAT, entries, 0) && Level(CHAT, entries, "k", 0) == 0
    ensures var denied := AnswerAt(CHAT, Level(CHAT, entries, "k", SECOND / 2));
            var table := AfterCall(CHAT, entries, "k", SECOND / 2);
            && !denied.allowed && RetryAfter(denied.wait) == 2
            && !AnswerAt(CHAT, Level(CHAT, table, "k", SECOND / 2 + 2 * SECOND)).allowed
  {
    LevelLater(CHAT, entries, "k", 0, SECOND / 2);
    AllowedMeans(CHAT, Level(CHAT, entries, "k", SECOND / 2));
    assert AnswerAt(CHAT, Level(CHAT, entries, "k", SECOND / 2)).wait == 2_500_000_000;
    RetryAfterAlone(CHAT, entries, "k", SECOND / 2, []);
  }

  /**
    It does happen: on the chat limiter, a call half a second after a full burst is told to wait two seconds, needs
    two and a half, and is turned away again when it returns as told.
   */
  lemma RetryAfterTooEarly()
    ensures var entries := After(CHAT, map[], Burst(20));
            var denied := AnswerAt(CHAT, Level(CHAT, entries, "k", SECOND / 2));
            var table := AfterCall(CHAT, entries, "k", SECOND / 2);
            && Timed(Burst(20), 0, SECOND / 2)
            && !denied.allowed && RetryAfter(denied.wait) == 2
            && !AnswerAt(CHAT, Level(CHAT, table, "k", SECOND / 2 + 2 * SECOND)).allowed
  {
    BurstDrains(CHAT, map[], 20);
    TimedLonger(Burst(20), 0, 0, SECOND / 2);
    TooEarlyWhenDrained(After(CHAT, map[], Burst(20)));
  }

  lemma {:induction false} TimedLonger(ops: seq<Op>, from: int, to: int, later: int)
    requires Timed(ops, from, to) && to <= later
    ensures Timed(ops, from, later)
    decreases |ops|
  {
    if ops != [] {
      TimedLonger(ops[1..], ops[0].time, to, later);
    }
  }
}
