/**
  When idle eviction can be noticed (api/ratelimit.go, the sweep): exactly which limiters answer every call as if
  nothing were ever dropped.
 */
module RateEviction {
  import opened Prelude
  import opened RateLimit

  /** What `k` tokens leave over when they are refilled by whole nanoseconds. */
  function Left(c: Config, k: int): (r: int)
    requires c.Valid()
    ensures 0 <= r < c.perMinute
  {
    (k * COST) % c.perMinute
  }

  /** Even the deepest debt is refilled by the first nanosecond in which its entry may be dropped. */
  predicate RefillsWhenEvicted(c: Config)
    requires c.Valid()
  {
    forall k | 0 <= k < c.perMinute :: c.Capacity() + Left(c, k) <= c.perMinute * (c.idleTTL + 1)
  }

  /** No calls and sweeps at any times are answered differently from the calls alone. */
  ghost predicate Unnoticed(c: Config)
    requires c.Valid()
  {
    forall ops, from: int, to: int | Timed(ops, from, to) ::
      Answers(c, map[], ops) == Answers(c, map[], WithoutSweeps(ops))
  }

  lemma LeftOfRest(c: Config, k: int)
    requires c.Valid()
    ensures Left(c, k % c.perMinute) == Left(c, k)
  {
    var d := c.perMinute;
    var q, r := k / d, k % d;
    assert k == d * q + r;
    assert k * COST == r * COST + d * (q * COST) by {
      assert (d * q + r) * COST == d * q * COST + r * COST;
      assert d * q * COST == d * (q * COST);
    }
    ModPlus(r * COST, d, q * COST);
  }

  /*** Enough: every level is a full bucket less some tokens, plus some whole nanoseconds' refill ***/

  predicate Owes(c: Config, tokens: int, j: nat)
    requires c.Valid()
  {
    (tokens + j * COST) % c.perMinute == 0
  }

  ghost predicate AllOwe(c: Config, entries: Entries)
    requires c.Valid()
  {
    forall k | k in entries :: exists j: nat :: Owes(c, entries[k].bucket.tokens, j)
  }

  lemma FullOwes(c: Config) returns (j: nat)
    requires c.Valid()
    ensures Owes(c, c.Capacity(), j)
  {
    var d := c.perMinute;
    NatProduct(d - 1, c.burst);
    j := (d - 1) * c.burst;
    assert c.burst * COST + (d - 1) * c.burst * COST == d * (c.burst * COST) by {
      assert (d - 1) * c.burst * COST == (d - 1) * (c.burst * COST);
    }
    ModUnique(d * (c.burst * COST), d, c.burst * COST, 0);
  }

  lemma LevelOwes(c: Config, entries: Entries, key: string, t: int) returns (j: nat)
    requires c.Valid() && AllOwe(c, entries)
    ensures Owes(c, Level(c, entries, key, t), j)
  {
    if key in entries {
      j :| Owes(c, entries[key].bucket.tokens, j);
      j := RefilledOwes(c, entries[key].bucket, t, j);
    } else {
      j := FullOwes(c);
      assert c.perMinute * (t - t) == 0;
    }
  }

  lemma RefilledOwes(c: Config, b: Bucket, t: int, j: nat) returns (i: nat)
    requires c.Valid() && Owes(c, b.tokens, j)
    ensures Owes(c, Refilled(c, b, t), i)
  {
    var passed := if t < b.last then 0 else t - b.last;
    if b.tokens + c.perMinute * passed < c.Capacity() {
      RefillOwes(c, b.tokens, passed, j);
      i := j;
    } else {
      i := FullOwes(c);
    }
  }

  lemma RefillOwes(c: Config, tokens: int, passed: int, j: nat)
    requires c.Valid() && Owes(c, tokens, j)
    ensures Owes(c, tokens + c.perMinute * passed, j)
  {
    ModPlus(tokens + j * COST, c.perMinute, passed);
    assert tokens + c.perMinute * passed + j * COST == tokens + j * COST + c.perMinute * passed;
  }

  lemma StepKeepsOwing(c: Config, entries: Entries, op: Op)
    requires c.Valid() && AllOwe(c, entries)
    ensures AllOwe(c, Step(c, entries, op))
  {
    if op.Call? {
      var level := Level(c, entries, op.key, op.time);
      var j := LevelOwes(c, entries, op.key, op.time);
      TakingOwes(c, level, j);
    }
  }

  lemma TakingOwes(c: Config, level: int, j: nat)
    requires c.Valid() && Owes(c, level, j)
    ensures Owes(c, level - COST, j + 1)
  {
    assert level - COST + (j + 1) * COST == level + j * COST;
  }

  /** A debt of less than a nanosecond's refill is at most what its tokens leave over. */
  lemma DebtBound(c: Config, tokens: int, j: nat)
    requires c.Valid() && Owes(c, tokens, j) && -c.perMinute < tokens
    ensures 0 <= tokens + Left(c, j)
  {
    var d := c.perMinute;
    var p, q := (tokens + j * COST) / d, (j * COST) / d;
    assert tokens + j * COST == d * p;
    assert j * COST == d * q + Left(c, j);
    assert tokens + Left(c, j) == d * (p - q);
    assert p - q <= -1 ==> d * (p - q) <= -d;
    assert p - q >= 0 ==> d * (p - q) >= 0;
  }

  lemma OwingSweepIsSafe(c: Config, entries: Entries, now: int)
    requires c.Valid() && RefillsWhenEvicted(c) && Good(c, entries, now) && AllOwe(c, entries)
    ensures SweepIsSafe(c, entries, now)
  {
    forall k | k in entries && IsIdle(c, entries[k], now)
      ensures Refilled(c, entries[k].bucket, now) == c.Capacity()
    {
      var b := entries[k].bucket;
      var j: nat :| Owes(c, b.tokens, j);
      IdleHasRefilled(c, b, j, now);
    }
  }

  lemma IdleHasRefilled(c: Config, b: Bucket, j: nat, now: int)
    requires c.Valid() && RefillsWhenEvicted(c) && Owes(c, b.tokens, j) && -c.perMinute < b.tokens
    requires b.last < now - c.idleTTL
    ensures Refilled(c, b, now) == c.Capacity()
  {
    DebtBound(c, b.tokens, j);
    LeftOfRest(c, j);
    ModRange(j, c.perMinute);
    assert c.Capacity() + Left(c, j % c.perMinute) <= c.perMinute * (c.idleTTL + 1);
    MulMono(c.perMinute, c.idleTTL + 1, now - b.last);
  }

  lemma ModRange(j: int, d: int)
    requires d > 0
    ensures 0 <= j % d < d
  {
  }

  lemma {:induction false} OwingSweepsAreSafe(c: Config, entries: Entries, ops: seq<Op>, now: int, to: int)
    requires c.Valid() && RefillsWhenEvicted(c) && Good(c, entries, now) && AllOwe(c, entries) && Timed(ops, now, to)
    ensures SweepsAreSafe(c, entries, ops)
    decreases |ops|
  {
    if ops != [] {
      assert Good(c, entries, ops[0].time);
      OwingSweepIsSafe(c, entries, ops[0].time);
      StepKeepsGood(c, entries, now, ops[0]);
      StepKeepsOwing(c, entries, ops[0]);
      OwingSweepsAreSafe(c, Step(c, entries, ops[0]), ops[1..], ops[0].time, to);
    }
  }

  /*** Needed: a rush that a bucket short of anything cannot admit ***/

  lemma {:induction false} AfterConcat(c: Config, entries: Entries, a: seq<Op>, b: seq<Op>)
    requires c.Valid()
    ensures After(c, entries, a + b) == After(c, After(c, entries, a), b)
    ensures Answers(c, entries, a + b) == Answers(c, entries, a) + Answers(c, After(c, entries, a), b)
    decreases |a|
  {
    if a == [] {
      assert a + b == b;
    } else {
      assert (a + b)[0] == a[0] && (a + b)[1..] == a[1..] + b;
      AfterConcat(c, Step(c, entries, a[0]), a[1..], b);
    }
  }

  lemma {:induction false} TimedConcat(a: seq<Op>, b: seq<Op>, from: int, mid: int, to: int)
    requires Timed(a, from, mid) && Timed(b, mid, to)
    ensures Timed(a + b, from, to)
    decreases |a|
  {
    if a == [] {
      assert a + b == b;
      TimedEarlier(b, mid, from, to);
    } else {
      assert (a + b)[0] == a[0] && (a + b)[1..] == a[1..] + b;
      TimedConcat(a[1..], b, a[0].time, mid, to);
    }
  }

  lemma TimedEarlier(ops: seq<Op>, from: int, earlier: int, to: int)
    requires Timed(ops, from, to) && earlier <= from
    ensures Timed(ops, earlier, to)
  {
  }

  /** When the n-th call of a rush comes: at once while the burst lasts, then as early as it is admitted. */
  function Delay(c: Config, n: nat): int
    requires c.Valid()
  {
    if n <= c.burst then 0 else ((n - c.burst) * COST) / c.perMinute
  }

  /** What the n-th call of a rush on a full bucket leaves. */
  function Rest(c: Config, n: nat): int
    requires c.Valid()
  {
    c.Capacity() - n * COST + c.perMinute * Delay(c, n)
  }

  lemma RestBounds(c: Config, n: nat)
    requires c.Valid() && n > 0
    ensures -c.perMinute < Rest(c, n) <= c.Capacity() - COST
    ensures n >= c.burst ==> Rest(c, n) == -Left(c, n - c.burst)
  {
    var d := c.perMinute;
    assert c.Capacity() - n * COST == -((n - c.burst) * COST);
    assert n * COST >= COST;
    if n > c.burst {
      var m := (n - c.burst) * COST;
      assert m == d * (m / d) + m % d;
      assert m <= (n - 1) * COST;
    }
  }

  lemma DelayGrows(c: Config, n: nat)
    requires c.Valid()
    ensures 0 <= Delay(c, n) <= Delay(c, n + 1)
  {
    var d := c.perMinute;
    if n >= c.burst {
      var a, b := (n - c.burst) * COST, (n + 1 - c.burst) * COST;
      assert 0 <= a <= b;
      DivGrows(a, b, d);
      DivGrows(0, a, d);
    }
  }

  lemma DivGrows(a: int, b: int, d: int)
    requires d > 0 && a <= b
    ensures a / d <= b / d
  {
    DivBound(a, d, b / d + 1);
    DivBound(b, d, b / d + 1);
  }

  /** `n` calls on one key from time `s` on, each as early as it is admitted. */
  function Rush(c: Config, s: int, n: nat): seq<Op>
    requires c.Valid()
  {
    if n == 0 then [] else Rush(c, s, n - 1) + [Call("k", s + Delay(c, n))]
  }

  lemma {:induction false} RushIsTimed(c: Config, s: int, n: nat)
    requires c.Valid()
    ensures Timed(Rush(c, s, n), s, s + Delay(c, n))
    ensures WithoutSweeps(Rush(c, s, n)) == Rush(c, s, n)
  {
    if n > 0 {
      var last := [Call("k", s + Delay(c, n))];
      RushIsTimed(c, s, n - 1);
      DelayGrows(c, n - 1);
      assert Timed(last[1..], last[0].time, s + Delay(c, n));
      TimedConcat(Rush(c, s, n - 1), last, s, s + Delay(c, n - 1), s + Delay(c, n));
      WithoutSweepsConcat(Rush(c, s, n - 1), last);
      assert WithoutSweeps(last) == last by {
        assert last[1..] == [];
      }
    }
  }

  lemma {:induction false} WithoutSweepsConcat(a: seq<Op>, b: seq<Op>)
    ensures WithoutSweeps(a + b) == WithoutSweeps(a) + WithoutSweeps(b)
  {
    if a == [] {
      assert a + b == b;
    } else {
      assert (a + b)[0] == a[0] && (a + b)[1..] == a[1..] + b;
      WithoutSweepsConcat(a[1..], b);
    }
  }

  predicate AllAllowed(answers: seq<Answer>) {
    forall i | 0 <= i < |answers| :: answers[i].allowed
  }

  /** On a full bucket every call of a rush is admitted. */
  lemma {:induction false} RushIsAdmitted(c: Config, entries: Entries, s: int, n: nat)
    requires c.Valid() && Good(c, entries, s) && Level(c, entries, "k", s) == c.Capacity()
    ensures RushEnds(c, After(c, entries, Rush(c, s, n)), n, s + Delay(c, n))
    ensures AllAllowed(Answers(c, entries, Rush(c, s, n)))
  {
    if n == 0 {
      assert c.perMinute * 0 == 0;
    } else {
      RushIsAdmitted(c, entries, s, n - 1);
      OneMoreInRush(c, entries, Rush(c, s, n - 1), s, n);
    }
  }

  predicate RushEnds(c: Config, entries: Entries, n: nat, t: int)
    requires c.Valid()
  {
    && Good(c, entries, t) && Level(c, entries, "k", t) == Rest(c, n)
    && (n > 0 ==> "k" in entries && entries["k"].lastSeen == t)
  }

  lemma OneMoreInRush(c: Config, entries: Entries, ops: seq<Op>, s: int, n: nat)
    requires c.Valid() && n > 0 && RushEnds(c, After(c, entries, ops), n - 1, s + Delay(c, n - 1))
    requires AllAllowed(Answers(c, entries, ops))
    ensures var more := ops + [Call("k", s + Delay(c, n))];
            RushEnds(c, After(c, entries, more), n, s + Delay(c, n)) && AllAllowed(Answers(c, entries, more))
  {
    RushCall(c, After(c, entries, ops), s, n);
    OneMoreCall(c, entries, ops, s + Delay(c, n));
  }

  lemma OneMoreCall(c: Config, entries: Entries, ops: seq<Op>, t: int)
    requires c.Valid()
    ensures var before, more := After(c, entries, ops), ops + [Call("k", t)];
            && After(c, entries, more) == AfterCall(c, before, "k", t)
            && Answers(c, entries, more) == Answers(c, entries, ops) + [AnswerAt(c, Level(c, before, "k", t))]
  {
    AfterConcat(c, entries, ops, [Call("k", t)]);
    OneCall(c, After(c, entries, ops), t);
  }

  lemma OneCall(c: Config, entries: Entries, t: int)
    requires c.Valid()
    ensures After(c, entries, [Call("k", t)]) == AfterCall(c, entries, "k", t)
    ensures Answers(c, entries, [Call("k", t)]) == [AnswerAt(c, Level(c, entries, "k", t))]
  {
    assert [Call("k", t)][1..] == [];
  }

  lemma RushCall(c: Config, before: Entries, s: int, n: nat)
    requires c.Valid() && n > 0 && Good(c, before, s + Delay(c, n - 1))
    requires Level(c, before, "k", s + Delay(c, n - 1)) == Rest(c, n - 1)
    ensures var t := s + Delay(c, n);
            var after := AfterCall(c, before, "k", t);
            && Good(c, after, t) && AnswerAt(c, Level(c, before, "k", t)).allowed
            && Level(c, after, "k", t) == Rest(c, n) && after["k"].lastSeen == t
  {
    var was, t := s + Delay(c, n - 1), s + Delay(c, n);
    DelayGrows(c, n - 1);
    RestBounds(c, n);
    LevelLater(c, before, "k", was, t);
    RestGrows(c, n);
    assert t - was == Delay(c, n) - Delay(c, n - 1);
    PaidCall(c, before, was, t, Rest(c, n));
  }

  /** A call that finds one token more than `rest`. */
  lemma PaidCall(c: Config, before: Entries, was: int, t: int, rest: int)
    requires c.Valid() && Good(c, before, was) && was <= t && -c.perMinute < rest <= c.Capacity()
    requires Level(c, before, "k", t) == rest + COST
    ensures var after := AfterCall(c, before, "k", t);
            && Good(c, after, t) && AnswerAt(c, Level(c, before, "k", t)).allowed
            && Level(c, after, "k", t) == rest && after["k"].lastSeen == t
  {
    AllowedMeans(c, rest + COST);
    StepKeepsGood(c, before, was, Call("k", t));
    LevelAfterCall(c, before, "k", t, "k", t);
    assert c.perMinute * (t - t) == 0;
  }

  lemma RestGrows(c: Config, n: nat)
    requires c.Valid() && n > 0
    ensures Rest(c, n - 1) + c.perMinute * (Delay(c, n) - Delay(c, n - 1)) == Rest(c, n) + COST
  {
    var x, y := Delay(c, n), Delay(c, n - 1);
    assert c.perMinute * (x - y) == c.perMinute * x - c.perMinute * y;
    assert n * COST == (n - 1) * COST + COST;
  }

  predicate CallsOnly(ops: seq<Op>) {
    forall i | 0 <= i < |ops| :: ops[i].Call? && ops[i].key == "k"
  }

  lemma {:induction false} RushCallsOnly(c: Config, s: int, n: nat)
    requires c.Valid()
    ensures CallsOnly(Rush(c, s, n)) && |Rush(c, s, n)| == n
  {
    if n > 0 {
      RushCallsOnly(c, s, n - 1);
    }
  }

  lemma {:induction false} CallsSweepNothing(c: Config, entries: Entries, ops: seq<Op>)
    requires c.Valid() && CallsOnly(ops)
    ensures SweepsAreSafe(c, entries, ops)
    decreases |ops|
  {
    if ops != [] {
      CallsSweepNothing(c, Step(c, entries, ops[0]), ops[1..]);
    }
  }

  lemma {:induction false} AllowedAreAdmitted(c: Config, entries: Entries, ops: seq<Op>)
    requires c.Valid() && CallsOnly(ops) && AllAllowed(Answers(c, entries, ops))
    ensures Admitted(c, entries, "k", ops) == |ops|
    decreases |ops|
  {
    if ops != [] {
      var answers, later := Answers(c, entries, ops), Answers(c, Step(c, entries, ops[0]), ops[1..]);
      assert answers == [AnswerAt(c, Level(c, entries, "k", ops[0].time))] + later;
      assert answers[0].allowed;
      assert forall i | 0 <= i < |later| :: later[i] == answers[i + 1];
      AllowedAreAdmitted(c, Step(c, entries, ops[0]), ops[1..]);
    }
  }

  /** So many calls after the burst that a bucket short of anything falls short at the last of them. */
  function Enough(c: Config, k: nat): nat
    requires c.Valid()
  {
    NatProduct(c.perMinute - 1, c.burst + k);
    (c.perMinute - 1) * (c.burst + k)
  }

  lemma NatProduct(a: nat, b: nat)
    ensures 0 <= a * b
  {
  }

  lemma Complement(c: Config, k: nat, short: int)
    requires c.Valid() && short == c.Capacity() + Left(c, k) - c.perMinute * (c.idleTTL + 1) && short > 0
    ensures Left(c, Enough(c, k)) + short >= c.perMinute
  {
    var d, m, all := c.perMinute, Enough(c, k), (c.burst + k) * COST;
    var p, q := (m * COST) / d, (k * COST) / d;
    assert m * COST == d * p + Left(c, m) && k * COST == d * q + Left(c, k);
    assert m * COST + all == d * all by {
      assert m * COST == (d - 1) * all;
    }
    assert all == c.burst * COST + k * COST;
    var whole := all - p - q - (c.idleTTL + 1);
    assert Left(c, m) + short == d * whole by {
      assert d * whole == d * all - d * p - d * q - d * (c.idleTTL + 1);
    }
    assert whole <= 0 ==> d * whole <= 0;
    assert whole >= 1 ==> d * whole >= d;
  }

  /** A bucket short of what an idle period should have refilled turns a long enough rush away at some point. */
  lemma ShortRushIsDenied(c: Config, entries: Entries, s: int, k: nat, short: int)
    requires c.Valid() && short == c.Capacity() + Left(c, k) - c.perMinute * (c.idleTTL + 1) && short > 0
    requires Good(c, entries, s) && Level(c, entries, "k", s) == c.Capacity() - short
    ensures !AllAllowed(Answers(c, entries, Rush(c, s, c.burst + Enough(c, k))))
  {
    var n := c.burst + Enough(c, k);
    var rush, to := Rush(c, s, n), s + Delay(c, n);
    if AllAllowed(Answers(c, entries, rush)) {
      RushCallsOnly(c, s, n);
      AllowedAreAdmitted(c, entries, rush);
      CallsSweepNothing(c, entries, rush);
      RushIsTimed(c, s, n);
      AdmissionsArePaid(c, entries, "k", rush, s, to);
      LevelBounds(c, After(c, entries, rush), "k", to, to);
      RestBounds(c, n);
      Complement(c, k, short);
      assert false;
    }
  }

  lemma SweptIsFull(c: Config, entries: Entries, t: int)
    requires c.Valid() && Good(c, entries, t)
    requires "k" in entries && IsIdle(c, entries["k"], t)
    ensures var swept := AfterEvict(c, entries, t); Good(c, swept, t) && Level(c, swept, "k", t) == c.Capacity()
  {
    assert "k" !in AfterEvict(c, entries, t);
    assert c.perMinute * (t - t) == 0;
  }

  lemma SecondRushDiffers(c: Config, entries: Entries, was: int, k: nat)
    requires c.Valid() && c.Capacity() + Left(c, k) > c.perMinute * (c.idleTTL + 1)
    requires Good(c, entries, was) && Level(c, entries, "k", was) == -Left(c, k)
    requires "k" in entries && entries["k"].lastSeen == was
    ensures var t := was + c.idleTTL + 1;
            var rush := Rush(c, t, c.burst + Enough(c, k));
            Answers(c, AfterEvict(c, entries, t), rush) != Answers(c, entries, rush)
  {
    var t, n := was + c.idleTTL + 1, c.burst + Enough(c, k);
    assert Good(c, entries, t);
    SweptIsFull(c, entries, t);
    RushIsAdmitted(c, AfterEvict(c, entries, t), t, n);
    LevelLater(c, entries, "k", was, t);
    ShortRushIsDenied(c, entries, t, k, c.Capacity() + Left(c, k) - c.perMinute * (c.idleTTL + 1));
  }

  lemma FirstRush(c: Config, k: nat)
    requires c.Valid()
    ensures var after, t := After(c, map[], Rush(c, 0, c.burst + k)), Delay(c, c.burst + k);
            && Good(c, after, t) && Level(c, after, "k", t) == -Left(c, k)
            && "k" in after && after["k"].lastSeen == t
  {
    assert c.perMinute * (0 - 0) == 0;
    RushIsAdmitted(c, map[], 0, c.burst + k);
    RestBounds(c, c.burst + k);
  }

  lemma AnswersAround(c: Config, a: seq<Op>, t: int, b: seq<Op>)
    requires c.Valid() && WithoutSweeps(a) == a && WithoutSweeps(b) == b
    ensures var ops, entries := a + ([Sweep(t)] + b), After(c, map[], a);
            && Answers(c, map[], ops) == Answers(c, map[], a) + Answers(c, AfterEvict(c, entries, t), b)
            && Answers(c, map[], WithoutSweeps(ops)) == Answers(c, map[], a) + Answers(c, entries, b)
  {
    AfterConcat(c, map[], a, [Sweep(t)] + b);
    AfterConcat(c, map[], a, b);
    WithoutSweepsConcat(a, [Sweep(t)] + b);
    SweepFirst(c, After(c, map[], a), t, b);
  }

  lemma SweepFirst(c: Config, entries: Entries, t: int, b: seq<Op>)
    requires c.Valid()
    ensures Answers(c, entries, [Sweep(t)] + b) == Answers(c, AfterEvict(c, entries, t), b)
    ensures WithoutSweeps([Sweep(t)] + b) == WithoutSweeps(b)
  {
    assert ([Sweep(t)] + b)[0] == Sweep(t) && ([Sweep(t)] + b)[1..] == b;
  }

  lemma SweepBetween(c: Config, a: seq<Op>, t: int, b: seq<Op>)
    requires c.Valid() && WithoutSweeps(a) == a && WithoutSweeps(b) == b
    requires var entries := After(c, map[], a);
             Answers(c, AfterEvict(c, entries, t), b) != Answers(c, entries, b)
    ensures var ops := a + ([Sweep(t)] + b); Answers(c, map[], ops) != Answers(c, map[], WithoutSweeps(ops))
  {
    AnswersAround(c, a, t, b);
    var entries := After(c, map[], a);
    SameFront(Answers(c, map[], a), Answers(c, AfterEvict(c, entries, t), b), Answers(c, entries, b));
  }

  lemma SameFront<T>(x: seq<T>, y: seq<T>, z: seq<T>)
    ensures x + y == x + z <==> y == z
  {
    assert (x + y)[|x|..] == y && (x + z)[|x|..] == z;
  }

  lemma SweepBetweenIsTimed(a: seq<Op>, t: int, b: seq<Op>, was: int, to: int)
    requires Timed(a, 0, was) && was <= t && Timed(b, t, to)
    ensures Timed(a + ([Sweep(t)] + b), 0, to)
  {
    var later := [Sweep(t)] + b;
    assert later[0] == Sweep(t) && later[1..] == b;
    TimedConcat(a, later, 0, was, to);
  }

  /** A rush into the debt of `k` tokens, and another at the moment when its entry first counts as idle. */
  lemma TwoRushes(c: Config, k: nat) returns (first: seq<Op>, was: int, t: int, second: seq<Op>, to: int)
    requires c.Valid() && c.Capacity() + Left(c, k) > c.perMinute * (c.idleTTL + 1)
    ensures Timed(first, 0, was) && was <= t && Timed(second, t, to)
    ensures WithoutSweeps(first) == first && WithoutSweeps(second) == second
    ensures var entries := After(c, map[], first);
            Answers(c, AfterEvict(c, entries, t), second) != Answers(c, entries, second)
  {
    var n, m := c.burst + k, c.burst + Enough(c, k);
    was := Delay(c, n);
    t := was + c.idleTTL + 1;
    to := t + Delay(c, m);
    first, second := Rush(c, 0, n), Rush(c, t, m);
    FirstRush(c, k);
    RushIsTimed(c, 0, n);
    RushIsTimed(c, t, m);
    SecondRushDiffers(c, After(c, map[], first), was, k);
  }

  /** If a debt is not refilled when its entry may be dropped, some sweep changes an answer. */
  lemma SweepIsNoticed(c: Config, k: nat) returns (ops: seq<Op>, to: int)
    requires c.Valid() && c.Capacity() + Left(c, k) > c.perMinute * (c.idleTTL + 1)
    ensures Timed(ops, 0, to) && Answers(c, map[], ops) != Answers(c, map[], WithoutSweeps(ops))
  {
    var first, was, t, second, end := TwoRushes(c, k);
    SweepBetween(c, first, t, second);
    SweepBetweenIsTimed(first, t, second, was, end);
    ops, to := first + ([Sweep(t)] + second), end;
  }

  /*** Main result ***/

  /**
    Exactly when eviction goes unnoticed: sweeps at any times leave every answer as it is if and only if even the
    deepest debt is refilled by the time its entry may be dropped.
   */
  lemma UnnoticedIff(c: Config)
    requires c.Valid()
    ensures Unnoticed(c) <==> RefillsWhenEvicted(c)
  {
    if RefillsWhenEvicted(c) {
      forall ops, from: int, to: int | Timed(ops, from, to)
        ensures Answers(c, map[], ops) == Answers(c, map[], WithoutSweeps(ops))
      {
        OwingSweepsAreSafe(c, map[], ops, from, to);
        SameAnswers(c, map[], map[], ops, from, to);
      }
    } else {
      var k :| 0 <= k < c.perMinute && c.Capacity() + Left(c, k) > c.perMinute * (c.idleTTL + 1);
      var ops, to := SweepIsNoticed(c, k);
    }
  }

  /** A bucket that refills within the idle period qualifies. */
  lemma IdleRefillSuffices(c: Config)
    requires c.Valid() && c.RefillsWhenIdle()
    ensures RefillsWhenEvicted(c)
  {
    assert c.perMinute * (c.idleTTL + 1) == c.perMinute * c.idleTTL + c.perMinute;
  }

  /** Nobody notices a sweep on the limiters of the service. */
  lemma ServiceSweepsAreUnnoticed()
    ensures forall c | c in {CHAT, EXPORT, MAGIC} :: c.Valid() && Unnoticed(c)
  {
    ServiceLimiters();
    forall c | c in {CHAT, EXPORT, MAGIC} ensures c.Valid() && Unnoticed(c) {
      IdleRefillSuffices(c);
      UnnoticedIff(c);
    }
  }

  /** An instance: with ten seconds instead of ten minutes, sweeping would change the chat limiter's answers. */
  lemma ShortIdleIsNoticed()
    ensures !Unnoticed(Config(20, 20, 10 * SECOND))
  {
    var ops, to := SweepIsNoticed(Config(20, 20, 10 * SECOND), 0);
  }
}
