/**
  The rolling run budget (api/usage.go and the check and mark in api/chat.go): a run is refused when the subject has
  used up its budget of marks in the last WINDOW, and leaves its own mark only when it completes.
 */
module RunBudget {
  const WINDOW: int := 24 * 3600 * 1_000_000_000

  datatype Mark = Mark(subject: string, created: int)

  /** The marks of a subject newer than `since`. */
  function Since(marks: seq<Mark>, subject: string, since: int): nat {
    if marks == [] then 0
    else Since(marks[..|marks| - 1], subject, since)
         + var m := marks[|marks| - 1]; if m.subject == subject && m.created > since then 1 else 0
  }

  /** The rows left by deleting a subject's marks older than `cutoff`. */
  function Pruned(marks: seq<Mark>, subject: string, cutoff: int): seq<Mark> {
    if marks == [] then []
    else var m := marks[|marks| - 1];
         Pruned(marks[..|marks| - 1], subject, cutoff)
         + if m.subject == subject && m.created < cutoff then [] else [m]
  }

  /** Whether a run may start: the owner always, others while the budget of the window is not used up. */
  predicate MayStart(budget: int, marks: seq<Mark>, subject: string, owner: bool, now: int) {
    owner || Since(marks, subject, now - WINDOW) < budget
  }

  /** Where a subject's marks newer than `since` stand in the table. */
  function Marks(marks: seq<Mark>, subject: string, since: int): set<nat> {
    set i | 0 <= i < |marks| && marks[i].subject == subject && since < marks[i].created
  }

  /** The count is the number of such marks. */
  lemma {:induction false} SinceIsMarks(marks: seq<Mark>, subject: string, since: int)
    ensures Since(marks, subject, since) == |Marks(marks, subject, since)|
  {
    if marks != [] {
      var n := |marks| - 1;
      SinceIsMarks(marks[..n], subject, since);
      MarksNext(marks, subject, since);
    }
  }

  lemma MarksNext(marks: seq<Mark>, subject: string, since: int)
    requires marks != []
    ensures var n := |marks| - 1;
            |Marks(marks, subject, since)|
              == |Marks(marks[..n], subject, since)|
                 + if marks[n].subject == subject && since < marks[n].created then 1 else 0
  {
    var n := |marks| - 1;
    var last: set<nat> := if marks[n].subject == subject && since < marks[n].created then {n} else {};
    forall i ensures i in Marks(marks, subject, since) <==> i in Marks(marks[..n], subject, since) + last {
    }
    assert Marks(marks, subject, since) == Marks(marks[..n], subject, since) + last;
  }

  class UsageMarks {
    var marks: seq<Mark>

    constructor ()
      ensures marks == []
    {
      marks := [];
    }

    method CountMarks(subject: string, since: int) returns (n: nat)
      ensures n == Since(marks, subject, since) == |Marks(marks, subject, since)|
    {
      SinceIsMarks(marks, subject, since);
      n := 0;
      for i := 0 to |marks|
        invariant n == Since(marks[..i], subject, since)
      {
        assert marks[..i + 1][..i] == marks[..i];
        if marks[i].subject == subject && marks[i].created > since {
          n := n + 1;
        }
      }
      assert marks[..|marks|] == marks;
    }

    /**
      Log one run, then drop the subject's stale marks: every count over the window sees exactly the new mark, no
      other subject's count changes, and no stale mark of the subject is left.
     */
    method RecordMark(subject: string, inserted: int, now: int)
      modifies this
      ensures forall since | now - WINDOW <= since ::
                Since(marks, subject, since) == Since(old(marks), subject, since) + if inserted > since then 1 else 0
      ensures forall other: string, since: int | other != subject ::
                Since(marks, other, since) == Since(old(marks), other, since)
      ensures forall m | m in marks && m.subject == subject :: now - WINDOW <= m.created
      ensures forall m | m in marks :: m in old(marks) || m == Mark(subject, inserted)
      ensures marks == Pruned(old(marks) + [Mark(subject, inserted)], subject, now - WINDOW)
    {
      ghost var before := marks;
      marks := marks + [Mark(subject, inserted)];
      RecordedCounts(before, subject, inserted, now - WINDOW);
      marks := Pruned(marks, subject, now - WINDOW);
    }

    method Admit(budget: int, subject: string, owner: bool, now: int) returns (ok: bool)
      ensures ok <==> MayStart(budget, marks, subject, owner, now)
      ensures ok <==> owner || |Marks(marks, subject, now - WINDOW)| < budget
    {
      SinceIsMarks(marks, subject, now - WINDOW);
      if !owner {
        var used := CountMarks(subject, now - WINDOW);
        if used >= budget {
          return false;
        }
      }
      return true;
    }
  }

  /*** All subjects' runs, interleaved statement by statement ***/

  datatype Event =
    | Start(subject: string, owner: bool, time: int)
    | Usage(subject: string, time: int)
    | Complete(subject: string, time: int)
    | Prune(subject: string, time: int)
    | Fail(subject: string, time: int)

  /** The table, every mark ever written, and the runs in flight. */
  datatype State = State(marks: seq<Mark>, log: seq<Mark>, running: multiset<string>)

  const INITIAL := State([], [], multiset{})

  function Apply(budget: int, s: State, e: Event): State {
    match e
    case Start(subject, owner, t) =>
      if MayStart(budget, s.marks, subject, owner, t) then s.(running := s.running + multiset{subject}) else s
    case Usage(subject, t) => s
    case Complete(subject, t) =>
      if subject in s.running
      then State(s.marks + [Mark(subject, t)], s.log + [Mark(subject, t)], s.running - multiset{subject})
      else s
    case Prune(subject, t) => s.(marks := Pruned(s.marks, subject, t - WINDOW))
    case Fail(subject, t) => s.(running := s.running - multiset{subject})
  }

  function Exec(budget: int, s: State, events: seq<Event>): State
    decreases |events|
  {
    if events == [] then s else Exec(budget, Apply(budget, s, events[0]), events[1..])
  }

  /** The counts that starts and usage reports are given, in order. */
  function Counts(budget: int, s: State, events: seq<Event>): seq<nat>
    decreases |events|
  {
    if events == [] then []
    else var e := events[0];
         (if e.Start? || e.Usage? then [Since(s.marks, e.subject, e.time - WINDOW)] else [])
         + Counts(budget, Apply(budget, s, e), events[1..])
  }

  function WithoutPrunes(events: seq<Event>): seq<Event> {
    if events == [] then [] else (if events[0].Prune? then [] else [events[0]]) + WithoutPrunes(events[1..])
  }

  predicate Timed(events: seq<Event>, from: int)
    decreases |events|
  {
    events != [] ==> from <= events[0].time && Timed(events[1..], events[0].time)
  }

  /** At most `k` runs of the subject are ever in flight together, and none of them is the owner's. */
  predicate Capped(budget: int, s: State, events: seq<Event>, subject: string, k: nat)
    decreases |events|
  {
    && s.running[subject] <= k
    && (events != [] ==>
          && !(events[0].Start? && events[0].subject == subject && events[0].owner)
          && Capped(budget, Apply(budget, s, events[0]), events[1..], subject, k))
  }

  /*** Counting ***/

  /** The marks of a subject in the half-open window after `from` and up to `to`. */
  function Within(marks: seq<Mark>, subject: string, from: int, to: int): nat {
    if marks == [] then 0
    else Within(marks[..|marks| - 1], subject, from, to)
         + var m := marks[|marks| - 1]; if m.subject == subject && from < m.created <= to then 1 else 0
  }

  lemma SinceAppend(marks: seq<Mark>, m: Mark, subject: string, since: int)
    ensures Since(marks + [m], subject, since)
         == Since(marks, subject, since) + if m.subject == subject && m.created > since then 1 else 0
  {
    assert (marks + [m])[..|marks|] == marks;
  }

  lemma WithinAppend(marks: seq<Mark>, m: Mark, subject: string, from: int, to: int)
    ensures Within(marks + [m], subject, from, to)
         == Within(marks, subject, from, to) + if m.subject == subject && from < m.created <= to then 1 else 0
  {
    assert (marks + [m])[..|marks|] == marks;
  }

  /** Pruning at a cutoff is invisible to every count from that cutoff on, and to other subjects. */
  lemma {:induction false} PrunedCount(marks: seq<Mark>, pruned: string, cutoff: int, subject: string, since: int)
    requires subject == pruned ==> cutoff <= since
    ensures Since(Pruned(marks, pruned, cutoff), subject, since) == Since(marks, subject, since)
  {
    if marks != [] {
      var init, m := marks[..|marks| - 1], marks[|marks| - 1];
      PrunedCount(init, pruned, cutoff, subject, since);
      if m.subject == pruned && m.created < cutoff {
        assert Pruned(marks, pruned, cutoff) == Pruned(init, pruned, cutoff);
      } else {
        assert Pruned(marks, pruned, cutoff) == Pruned(init, pruned, cutoff) + [m];
        SinceAppend(Pruned(init, pruned, cutoff), m, subject, since);
      }
    }
  }

  lemma {:induction false} PrunedMarks(marks: seq<Mark>, subject: string, cutoff: int)
    ensures forall m | m in Pruned(marks, subject, cutoff) ::
              m in marks && (m.subject == subject ==> cutoff <= m.created)
  {
    if marks != [] {
      var n := |marks| - 1;
      PrunedMarks(marks[..n], subject, cutoff);
      assert marks == marks[..n] + [marks[n]];
    }
  }

  /** What recording a mark does to every count. */
  lemma RecordedCounts(before: seq<Mark>, subject: string, inserted: int, cutoff: int)
    ensures var marks := Pruned(before + [Mark(subject, inserted)], subject, cutoff);
            && (forall since | cutoff <= since ::
                  Since(marks, subject, since) == Since(before, subject, since) + if inserted > since then 1 else 0)
            && (forall other: string, since: int | other != subject ::
                  Since(marks, other, since) == Since(before, other, since))
            && (forall m | m in marks && m.subject == subject :: cutoff <= m.created)
            && (forall m | m in marks :: m in before || m == Mark(subject, inserted))
  {
    var m := Mark(subject, inserted);
    PrunedMarks(before + [m], subject, cutoff);
    forall other: string, since: int | other != subject || cutoff <= since
      ensures Since(Pruned(before + [m], subject, cutoff), other, since)
           == Since(before, other, since) + if other == subject && inserted > since then 1 else 0
    {
      PrunedCount(before + [m], subject, cutoff, other, since);
      SinceAppend(before, m, other, since);
    }
  }

  /*** Pruning never changes a later count ***/

  /** Two tables that no count from `now` on can tell apart. */
  ghost predicate SameCounts(a: seq<Mark>, b: seq<Mark>, now: int) {
    forall subject: string, since: int | now - WINDOW <= since :: Since(a, subject, since) == Since(b, subject, since)
  }

  lemma StepKeepsCounts(budget: int, a: State, b: State, e: Event, now: int)
    requires SameCounts(a.marks, b.marks, now) && a.running == b.running && now <= e.time && !e.Prune?
    ensures var a', b' := Apply(budget, a, e), Apply(budget, b, e);
            SameCounts(a'.marks, b'.marks, e.time) && a'.running == b'.running
  {
    if e.Complete? && e.subject in a.running {
      var m := Mark(e.subject, e.time);
      forall subject: string, since: int | e.time - WINDOW <= since
        ensures Since(a.marks + [m], subject, since) == Since(b.marks + [m], subject, since)
      {
        SinceAppend(a.marks, m, subject, since);
        SinceAppend(b.marks, m, subject, since);
      }
    }
  }

  lemma PruneKeepsCounts(a: State, b: State, subject: string, time: int, now: int)
    requires SameCounts(a.marks, b.marks, now) && now <= time
    ensures SameCounts(Pruned(a.marks, subject, time - WINDOW), b.marks, time)
  {
    forall other: string, since: int | time - WINDOW <= since
      ensures Since(Pruned(a.marks, subject, time - WINDOW), other, since) == Since(b.marks, other, since)
    {
      PrunedCount(a.marks, subject, time - WINDOW, other, since);
    }
  }

  lemma CountsInFront(budget: int, s: State, e: Event, rest: seq<Event>)
    ensures Counts(budget, s, [e] + rest)
         == (if e.Start? || e.Usage? then [Since(s.marks, e.subject, e.time - WINDOW)] else [])
            + Counts(budget, Apply(budget, s, e), rest)
  {
    var events := [e] + rest;
    assert events[0] == e && events[1..] == rest;
  }

  lemma {:induction false} SameCountsSameAnswers(budget: int, a: State, b: State, events: seq<Event>, now: int)
    requires SameCounts(a.marks, b.marks, now) && a.running == b.running && Timed(events, now)
    ensures Counts(budget, a, events) == Counts(budget, b, WithoutPrunes(events))
    decreases |events|
  {
    if events != [] {
      var e, rest := events[0], events[1..];
      var plain := WithoutPrunes(events);
      var a' := Apply(budget, a, e);
      if e.Prune? {
        PruneKeepsCounts(a, b, e.subject, e.time, now);
        SameCountsSameAnswers(budget, a', b, rest, e.time);
        assert plain == WithoutPrunes(rest);
        assert Counts(budget, a, events) == Counts(budget, a', rest);
      } else {
        StepKeepsCounts(budget, a, b, e, now);
        SameCountsSameAnswers(budget, a', Apply(budget, b, e), rest, e.time);
        CountsInFront(budget, b, e, WithoutPrunes(rest));
        assert plain == [e] + WithoutPrunes(rest);
      }
    }
  }

  /** Pruning stale marks, whenever it happens, never changes a count that a start or a usage report sees. */
  lemma PruningIsInvisible(budget: int, events: seq<Event>, now: int)
    requires Timed(events, now)
    ensures Counts(budget, INITIAL, events) == Counts(budget, INITIAL, WithoutPrunes(events))
  {
    SameCountsSameAnswers(budget, INITIAL, INITIAL, events, now);
  }

  /*** The rolling bound ***/

  /** The most marks a window can hold, when at most `k` runs of the subject overlap. */
  function Bound(budget: int, k: nat): nat {
    if budget <= 0 || k == 0 then 0 else budget + k - 1
  }

  /** The table counts what was written, and nothing was written after `now`. */
  ghost predicate Faithful(s: State, now: int) {
    (forall m | m in s.log :: m.created <= now) && SameCounts(s.marks, s.log, now)
  }

  /** Marks that still count and runs that may still leave one stay within the bound. */
  ghost predicate Recent(s: State, subject: string, bound: nat, now: int) {
    && s.running[subject] <= bound
    && forall x | now - WINDOW <= x :: Since(s.log, subject, x) + s.running[subject] <= bound
  }

  ghost predicate Windows(log: seq<Mark>, subject: string, bound: nat) {
    forall x, to | to == x + WINDOW :: Within(log, subject, x, to) <= bound
  }

  /** In a window that reaches past the last mark, counting up to its end is counting all. */
  lemma {:induction false} WithinIsSince(log: seq<Mark>, subject: string, from: int, to: int)
    requires forall m | m in log :: m.created <= to
    ensures Within(log, subject, from, to) == Since(log, subject, from)
  {
    if log != [] {
      WithinIsSince(log[..|log| - 1], subject, from, to);
    }
  }

  lemma {:induction false} SinceNow(log: seq<Mark>, subject: string, now: int)
    requires forall m | m in log :: m.created <= now
    ensures Since(log, subject, now) == 0
  {
    if log != [] {
      SinceNow(log[..|log| - 1], subject, now);
    }
  }

  lemma {:induction false} SinceMonotone(log: seq<Mark>, subject: string, from: int, to: int)
    requires from <= to
    ensures Since(log, subject, to) <= Since(log, subject, from)
  {
    if log != [] {
      SinceMonotone(log[..|log| - 1], subject, from, to);
    }
  }

  /** An admitted run saw a count below the budget, so it and all runs in flight still fit. */
  lemma StartKeepsRecent(budget: int, s: State, e: Event, subject: string, k: nat)
    requires Faithful(s, e.time) && Recent(s, subject, Bound(budget, k), e.time)
    requires e.Start? && !(e.subject == subject && e.owner) && Apply(budget, s, e).running[subject] <= k
    ensures Recent(Apply(budget, s, e), subject, Bound(budget, k), e.time)
  {
    var s' := Apply(budget, s, e);
    if e.subject == subject && s' != s {
      var used := Since(s.marks, subject, e.time - WINDOW);
      assert used < budget && s'.running[subject] >= 1;
      forall x | e.time - WINDOW <= x ensures Since(s'.log, subject, x) + s'.running[subject] <= Bound(budget, k) {
        SinceMonotone(s.log, subject, e.time - WINDOW, x);
      }
    }
  }

  /** A completed run trades its place in flight for its mark. */
  lemma CompleteKeepsRecent(budget: int, s: State, e: Event, subject: string, bound: nat)
    requires Faithful(s, e.time) && Recent(s, subject, bound, e.time) && e.Complete? && e.subject in s.running
    ensures Recent(Apply(budget, s, e), subject, bound, e.time)
  {
    var s' := Apply(budget, s, e);
    forall x | e.time - WINDOW <= x ensures Since(s'.log, subject, x) + s'.running[subject] <= bound {
      CompletionTrades(budget, s, e, subject, x);
      assert Since(s.log, subject, x) + s.running[subject] <= bound;
    }
    CompletionTrades(budget, s, e, subject, 0);
  }

  lemma CompletionTrades(budget: int, s: State, e: Event, subject: string, x: int)
    requires e.Complete? && e.subject in s.running
    ensures var s' := Apply(budget, s, e);
            && s'.running[subject] <= s.running[subject]
            && Since(s'.log, subject, x) + s'.running[subject] <= Since(s.log, subject, x) + s.running[subject]
  {
    SinceAppend(s.log, Mark(e.subject, e.time), subject, x);
  }

  lemma CompleteKeepsWindows(budget: int, s: State, e: Event, subject: string, bound: nat)
    requires Faithful(s, e.time) && Windows(s.log, subject, bound) && e.Complete? && e.subject in s.running
    requires Recent(Apply(budget, s, e), subject, bound, e.time)
    ensures Windows(Apply(budget, s, e).log, subject, bound)
  {
    var log, m := Apply(budget, s, e).log, Mark(e.subject, e.time);
    forall x, to | to == x + WINDOW ensures Within(log, subject, x, to) <= bound {
      WithinAppend(s.log, m, subject, x, to);
      assert Within(s.log, subject, x, to) <= bound;
      if e.time <= to {
        WithinIsSince(log, subject, x, to);
        assert Since(log, subject, x) <= bound;
      }
    }
  }

  lemma StepKeepsFaithful(budget: int, s: State, e: Event, now: int)
    requires Faithful(s, now) && now <= e.time
    ensures Faithful(Apply(budget, s, e), e.time)
  {
    if e.Prune? {
      PruneKeepsCounts(s, s.(marks := s.log), e.subject, e.time, now);
    } else {
      StepKeepsCounts(budget, s, s.(marks := s.log), e, now);
      if e.Complete? && e.subject in s.running {
        assert Apply(budget, s.(marks := s.log), e).marks == Apply(budget, s, e).log;
      }
    }
  }

  lemma StepKeepsBound(budget: int, s: State, e: Event, subject: string, k: nat, now: int)
    requires Faithful(s, now) && Recent(s, subject, Bound(budget, k), now) && Windows(s.log, subject, Bound(budget, k))
    requires now <= e.time && !(e.Start? && e.subject == subject && e.owner)
    requires Apply(budget, s, e).running[subject] <= k
    ensures var s' := Apply(budget, s, e);
            && Faithful(s', e.time)
            && Recent(s', subject, Bound(budget, k), e.time)
            && Windows(s'.log, subject, Bound(budget, k))
  {
    StepKeepsFaithful(budget, s, Usage(subject, e.time), now);
    StepKeepsFaithful(budget, s, e, now);
    if e.Start? {
      StartKeepsRecent(budget, s, e, subject, k);
    } else if e.Complete? && e.subject in s.running {
      CompleteKeepsRecent(budget, s, e, subject, Bound(budget, k));
      CompleteKeepsWindows(budget, s, e, subject, Bound(budget, k));
    }
  }

  lemma {:induction false} RunsKeepBound(budget: int, s: State, events: seq<Event>, subject: string, k: nat, now: int)
    requires Faithful(s, now) && Recent(s, subject, Bound(budget, k), now) && Windows(s.log, subject, Bound(budget, k))
    requires Timed(events, now) && Capped(budget, s, events, subject, k)
    ensures Windows(Exec(budget, s, events).log, subject, Bound(budget, k))
    decreases |events|
  {
    if events != [] {
      StepKeepsBound(budget, s, events[0], subject, k, now);
      RunsKeepBound(budget, Apply(budget, s, events[0]), events[1..], subject, k, events[0].time);
    }
  }

  /**
    The rolling budget: if at most `k` runs of a subject are ever in flight together, every window of 24 hours holds
    at most budget + k - 1 of its marks, and none at all where the budget or `k` leaves no room.
   */
  lemma RollingBudget(budget: int, events: seq<Event>, subject: string, k: nat, start: int, from: int)
    requires Timed(events, start) && Capped(budget, INITIAL, events, subject, k)
    ensures Within(Exec(budget, INITIAL, events).log, subject, from, from + WINDOW) <= Bound(budget, k)
  {
    assert Within([], subject, from, from + WINDOW) == 0;
    RunsKeepBound(budget, INITIAL, events, subject, k, start);
  }

  lemma {:induction false} ExecKeepsFaithful(budget: int, s: State, events: seq<Event>, last: Event, now: int)
    requires Faithful(s, now) && Timed(events + [last], now)
    ensures Faithful(Exec(budget, s, events), last.time)
    decreases |events|
  {
    var all := events + [last];
    if events == [] {
      assert all[0] == last;
      StepKeepsFaithful(budget, s, Usage(last.subject, last.time), now);
    } else {
      assert all[0] == events[0] && all[1..] == events[1..] + [last];
      StepKeepsFaithful(budget, s, events[0], now);
      ExecKeepsFaithful(budget, Apply(budget, s, events[0]), events[1..], last, events[0].time);
    }
  }

  /**
    Who may run: after any runs, reports and prunings, a start goes through if and only if it is the owner's, or fewer
    than the budget of this subject's completed runs, of all there ever were, fall into the last 24 hours.
   */
  lemma StartGoesThroughIff(budget: int, events: seq<Event>, subject: string, owner: bool, t: int, start: int)
    requires Timed(events + [Start(subject, owner, t)], start)
    ensures var s := Exec(budget, INITIAL, events);
            Apply(budget, s, Start(subject, owner, t)).running
              == if owner || |Marks(s.log, subject, t - WINDOW)| < budget then s.running + multiset{subject}
                 else s.running
  {
    var s := Exec(budget, INITIAL, events);
    ExecKeepsFaithful(budget, INITIAL, events, Start(subject, owner, t), start);
    SinceIsMarks(s.log, subject, t - WINDOW);
    assert Since(s.marks, subject, t - WINDOW) == Since(s.log, subject, t - WINDOW);
  }

  /*** The bound is reached ***/

  /** `used` marks in the table and the log, `r` runs in flight. */
  ghost predicate Holds(s: State, used: nat, r: nat) {
    && Since(s.marks, "s", -WINDOW) == used
    && Within(s.log, "s", -WINDOW, 0) == used
    && s.running["s"] == r
  }

  lemma StartHolds(budget: int, s: State, used: nat, r: nat)
    requires Holds(s, used, r) && used < budget
    ensures Holds(Apply(budget, s, Start("s", false, 0)), used, r + 1)
  {
  }

  lemma CompleteHolds(budget: int, s: State, used: nat, r: nat)
    requires Holds(s, used, r) && r > 0
    ensures Holds(Apply(budget, s, Complete("s", 0)), used + 1, r - 1)
  {
    SinceAppend(s.marks, Mark("s", 0), "s", -WINDOW);
    WithinAppend(s.log, Mark("s", 0), "s", -WINDOW, 0);
  }

  /** A run at time zero, with at most `k` in flight, that ends with `total` marks. */
  ghost predicate Fills(budget: int, s: State, events: seq<Event>, k: nat, total: nat) {
    && Timed(events, 0) && Capped(budget, s, events, "s", k)
    && Within(Exec(budget, s, events).log, "s", -WINDOW, 0) == total
  }

  lemma FillsInFront(budget: int, s: State, e: Event, rest: seq<Event>, k: nat, total: nat)
    requires e.time == 0 && !(e.Start? && e.owner) && s.running["s"] <= k
    requires Fills(budget, Apply(budget, s, e), rest, k, total)
    ensures Fills(budget, s, [e] + rest, k, total)
  {
    var events := [e] + rest;
    assert events[0] == e && events[1..] == rest;
  }

  lemma {:induction false} CompletionsFill(budget: int, s: State, j: nat, used: nat, k: nat)
    returns (events: seq<Event>)
    requires Holds(s, used, j) && j <= k
    ensures Fills(budget, s, events, k, used + j)
    decreases j
  {
    events := [];
    if j > 0 {
      var complete := Complete("s", 0);
      CompleteHolds(budget, s, used, j);
      var rest := CompletionsFill(budget, Apply(budget, s, complete), j - 1, used + 1, k);
      FillsInFront(budget, s, complete, rest, k, used + j);
      events := [complete] + rest;
    }
  }

  lemma {:induction false} StartsFill(budget: int, s: State, i: nat, used: nat, r: nat, k: nat)
    returns (events: seq<Event>)
    requires Holds(s, used, r) && r + i == k && used < budget
    ensures Fills(budget, s, events, k, used + k)
    decreases i
  {
    if i > 0 {
      var start := Start("s", false, 0);
      StartHolds(budget, s, used, r);
      var rest := StartsFill(budget, Apply(budget, s, start), i - 1, used, r + 1, k);
      FillsInFront(budget, s, start, rest, k, used + k);
      events := [start] + rest;
    } else {
      events := CompletionsFill(budget, s, k, used, k);
    }
  }

  function AfterOneRun(budget: int, s: State): State {
    Apply(budget, Apply(budget, s, Start("s", false, 0)), Complete("s", 0))
  }

  lemma OneRunHolds(budget: int, s: State, used: nat)
    requires Holds(s, used, 0) && used < budget
    ensures Holds(AfterOneRun(budget, s), used + 1, 0)
  {
    StartHolds(budget, s, used, 0);
    CompleteHolds(budget, Apply(budget, s, Start("s", false, 0)), used, 1);
  }

  lemma OneRunInFront(budget: int, s: State, rest: seq<Event>, used: nat, k: nat, total: nat)
    returns (events: seq<Event>)
    requires Holds(s, used, 0) && used < budget && k > 0 && Fills(budget, AfterOneRun(budget, s), rest, k, total)
    ensures Fills(budget, s, events, k, total)
  {
    var start, complete := Start("s", false, 0), Complete("s", 0);
    StartHolds(budget, s, used, 0);
    FillsInFront(budget, Apply(budget, s, start), complete, rest, k, total);
    FillsInFront(budget, s, start, [complete] + rest, k, total);
    events := [start] + ([complete] + rest);
  }

  /** `n` runs one after the other, then `k` that start together. */
  lemma {:induction false} CrowdFills(budget: int, s: State, n: nat, used: nat, k: nat) returns (events: seq<Event>)
    requires Holds(s, used, 0) && used + n < budget && k > 0
    ensures Fills(budget, s, events, k, used + n + k)
    decreases n
  {
    if n > 0 {
      OneRunHolds(budget, s, used);
      var rest := CrowdFills(budget, AfterOneRun(budget, s), n - 1, used + 1, k);
      events := OneRunInFront(budget, s, rest, used, k, used + n + k);
    } else {
      events := StartsFill(budget, s, k, used, 0, k);
    }
  }

  /** The bound cannot be lowered: for every budget and every `k` some run fills a window to exactly budget + k - 1. */
  lemma RollingBudgetIsReached(budget: int, k: nat) returns (events: seq<Event>)
    requires budget > 0 && k > 0
    ensures Timed(events, 0) && Capped(budget, INITIAL, events, "s", k)
    ensures Within(Exec(budget, INITIAL, events).log, "s", -WINDOW, 0) == Bound(budget, k)
  {
    events := CrowdFills(budget, INITIAL, budget - 1, 0, k);
  }
}
