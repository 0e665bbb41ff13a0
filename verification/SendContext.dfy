/**
  What the model sees in a conversation (api/chat.go and agent/src/graphs/agent.py together): for any sends that overlap
  in any way, each run's context is a faithful tail of the stored turns it loaded and of what was said since.
 */
module SendContext {
  import opened Prelude
  import opened Messages
  import opened AgentGraph
  import opened Conversation
  import opened GraphLoop

  /** The run has come from loading the first `k` rows, by these steps. */
  ghost predicate CameFrom(p: Phase, rows: seq<Row>, k: nat, steps: seq<Step>) {
    && p.Running? && k <= |rows| && RowsAscend(rows[..k]) && p.visible == RowIds(rows[..k])
    && LoadedAt(rows[..k], p.pair).run.msgs != []
    && p.run == RunSteps(LoadedAt(rows[..k], p.pair).run, steps)
  }

  ghost predicate Traced(s: State, sid: nat) {
    sid in s.sends && s.sends[sid].Running? ==> exists k: nat, steps :: CameFrom(s.sends[sid], s.rows, k, steps)
  }

  /** The first rows of a table that only grows stay what they were. */
  lemma StillTraced(s: State, t: State, sid: nat)
    requires Traced(s, sid) && s.rows <= t.rows
    requires sid in t.sends && t.sends[sid].Running? ==> sid in s.sends && t.sends[sid] == s.sends[sid]
    ensures Traced(t, sid)
  {
    if sid in t.sends && t.sends[sid].Running? {
      var k: nat, steps :| CameFrom(s.sends[sid], s.rows, k, steps);
      assert t.rows[..k] == s.rows[..k];
      assert CameFrom(t.sends[sid], t.rows, k, steps);
    }
  }

  lemma LoadIsTraced(s: State, sid: nat)
    requires Inv(s) && sid in s.sends && s.sends[sid].PairLoaded?
    ensures Traced(Apply(s, LoadHistory(sid)), sid)
  {
    var t, pair := Apply(s, LoadHistory(sid)), s.sends[sid].pair;
    LoadAll(s, sid);
    assert PhaseInv(s.sends[sid], s);
    PromptCoversVisibleRows(s.rows, pair, s.lastId, s.lost);
    assert s.rows[..|s.rows|] == s.rows && RowIds(s.rows) != [];
    assert CameFrom(t.sends[sid], t.rows, |s.rows|, []);
  }

  lemma StepIsTraced(s: State, sid: nat, step: Step)
    requires sid in s.sends && s.sends[sid].Running? && Traced(s, sid)
    ensures Traced(Apply(s, AgentStep(sid, step)), sid)
  {
    var k: nat, steps :| CameFrom(s.sends[sid], s.rows, k, steps);
    StepMoves(s.sends[sid], s.rows, k, steps, step);
    var t := Apply(s, AgentStep(sid, step));
    assert t.rows == s.rows && CameFrom(t.sends[sid], t.rows, k, steps + [step]);
  }

  lemma StepMoves(p: Phase, rows: seq<Row>, k: nat, steps: seq<Step>, step: Step)
    requires CameFrom(p, rows, k, steps)
    ensures CameFrom(p.(run := Advance(p.run, step)), rows, k, steps + [step])
  {
    RunSnoc(LoadedAt(rows[..k], p.pair).run, steps, step);
  }

  lemma ApplyTraced(s: State, e: Event, sid: nat)
    requires Inv(s) && Traced(s, sid)
    ensures Traced(Apply(s, e), sid)
  {
    if e == LoadHistory(sid) && sid in s.sends && s.sends[sid].PairLoaded? {
      LoadIsTraced(s, sid);
    } else if e.AgentStep? && e.sid == sid && sid in s.sends && s.sends[sid].Running? {
      StepIsTraced(s, sid, e.step);
    } else {
      StillTraced(s, Apply(s, e), sid);
    }
  }

  lemma {:induction false} ExecTraced(es: seq<Event>, sid: nat)
    ensures Traced(Exec(es), sid)
  {
    if es != [] {
      var n := |es| - 1;
      ExecTraced(es[..n], sid);
      ExecKeepsInv(es[..n]);
      ApplyTraced(Exec(es[..n]), es[n], sid);
    }
  }

  /**
    Every context, in every interleaving of sends: what a running send shows its model is the prompt it loaded, with the
    turns of the rows it saw in their roles, and all that the run has said since, in order and word for word; or one
    turn that stands for everything before some point, followed by all since. The run's own steps take the loop's order.
   */
  lemma EveryContextIsTail(es: seq<Event>, sid: nat) returns (k: nat, steps: seq<Step>)
    requires sid in Exec(es).sends && Exec(es).sends[sid].Running?
    ensures var s := Exec(es);
            var p := s.sends[sid];
            k <= |s.rows| && p.visible == RowIds(s.rows[..k]) && RowsAscend(s.rows[..k])
            && var start := LoadedAt(s.rows[..k], p.pair).run;
               var acts := Acts(start, steps);
               && IsPromptOf(start.msgs, s.rows[..k], p.pair)
               && IsTailOf(p.run.msgs, start.msgs + Said(acts))
               && (forall i | 0 <= i < |acts| :: InPlace(acts, i)) && p.run.node == NodeAfter(acts)
  {
    ExecTraced(es, sid);
    var s := Exec(es);
    k, steps :| CameFrom(s.sends[sid], s.rows, k, steps);
    PromptIsTurns(s.rows[..k], s.sends[sid].pair);
    ContextIsTail(LoadedAt(s.rows[..k], s.sends[sid].pair).run, steps);
    LoopOrder(LoadedAt(s.rows[..k], s.sends[sid].pair).run, steps);
  }
}
