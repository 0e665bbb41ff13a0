/**
  What the agent graph's loop is for (agent/src/graphs/agent.py): a compaction before every model call, the model's
  replies and tool results added as they come, and a context that stays a faithful tail of everything said.
 */
module GraphLoop {
  import opened Prelude
  import opened Decimal
  import opened Messages
  import opened Summarization
  import opened AgentGraph

  /*** One compaction ***/

  /** Folding this head announces row `w`. */
  ghost predicate NamesRow(head: seq<Message>, w: int) {
    exists at | 0 <= at < |head| :: IsNewestDurable(head, at) && ParseInt64(head[at].id.value) == Some(w)
  }

  /**
    What the compaction node does to a run, told by the best cut: it always hands over to the model; above the
    threshold it folds the head, and it announces the row of the last stored message folded unless the call failed.
   */
  lemma CompactionActs(run: Run, step: Step, cut: nat)
    requires run.node.AtCompact? && step.CompactStep? && IsBestCut(run.msgs, step.budget, cut)
    ensures var next, head := Advance(run, step), run.msgs[..cut];
            if step.total < step.threshold || cut == 0 then next == run.(node := AtAgent)
            else
              && next.node == AtAgent && next.msgs != []
              && StandsForHead(next.msgs[0], head, step.call) && next.msgs[1..] == run.msgs[cut..]
              && (step.call.Failed? ==> next.reported == run.reported)
              && (step.call.Summarized? ==>
                    (forall w | NamesRow(head, w) :: next.reported == run.reported + [w])
                    && ((forall w :: !NamesRow(head, w)) ==> next.reported == run.reported))
  {
    SplitIsOptimal(run.msgs, step.budget, cut);
    CompactionIsGated(run.msgs, step.total, step.threshold, step.budget, step.call, cut);
    var head := run.msgs[..cut];
    var at := NewestDurableFound(head);
    if NewestDurableId(head).Some? && ParseInt64(head[at].id.value).Some? {
      assert NamesRow(head, ParseInt64(head[at].id.value).value);
    }
  }

  /*** The order of the loop ***/

  /** The step fits the node the run is at; any other step changes nothing. */
  predicate Fits(run: Run, step: Step) {
    match run.node
    case AtCompact => step.CompactStep?
    case AtAgent => step.ModelReply? && (step.id.Some? ==> !IsDigits(step.id.value))
    case AtTools => step.ToolResults? && run.msgs != [] && |step.sizes| == |Calls(run.msgs[|run.msgs| - 1])|
    case AtEnd => false
  }

  /** The steps that acted. */
  function Acts(start: Run, steps: seq<Step>): seq<Step> {
    if steps == [] then []
    else
      var before, step := steps[..|steps| - 1], steps[|steps| - 1];
      Acts(start, before) + if Fits(RunSteps(start, before), step) then [step] else []
  }

  lemma RunSnoc(start: Run, steps: seq<Step>, step: Step)
    ensures RunSteps(start, steps + [step]) == Advance(RunSteps(start, steps), step)
  {
    assert (steps + [step])[..|steps|] == steps;
  }

  lemma ActsSnoc(start: Run, steps: seq<Step>, step: Step)
    ensures Acts(start, steps + [step])
         == Acts(start, steps) + if Fits(RunSteps(start, steps), step) then [step] else []
  {
    assert (steps + [step])[..|steps|] == steps;
  }

  lemma OthersDoNothing(run: Run, step: Step)
    requires !Fits(run, step)
    ensures Advance(run, step) == run
  {
  }

  /** Act `i` has its place in the loop, and calls are answered at once, each of them. */
  predicate InPlace(acts: seq<Step>, i: nat)
    requires i < |acts|
  {
    match acts[i]
    case CompactStep(_, _, _, _, _) => i % 3 == 0
    case ModelReply(_, _, calls) => i % 3 == 1 && (i + 1 < |acts| ==> calls != [])
    case ToolResults(sizes) => i % 3 == 2 && acts[i - 1].ModelReply? && |sizes| == |acts[i - 1].calls|
  }

  /** Where a run stands after these acts. */
  function NodeAfter(acts: seq<Step>): Node {
    if acts == [] then AtCompact
    else match acts[|acts| - 1]
      case CompactStep(_, _, _, _, _) => AtAgent
      case ModelReply(_, _, calls) => if calls == [] then AtEnd else AtTools
      case ToolResults(_) => AtCompact
  }

  /*** Everything said ***/

  function ReplyTurn(step: Step): Message
    requires step.ModelReply?
  {
    Message(AI(step.calls), step.id, step.tokens, [], {})
  }

  /** One result per call, in call order. */
  function ResultTurns(calls: seq<string>, sizes: seq<nat>): (turns: seq<Message>)
    requires |sizes| == |calls|
    ensures |turns| == |calls|
    decreases |calls|
  {
    if calls == [] then []
    else [Message(ToolResult(calls[0]), None, sizes[0], [], {})] + ResultTurns(calls[1..], sizes[1..])
  }

  /** What an act adds to the conversation after these ones; results answer the calls just made. */
  function SaidBy(acts: seq<Step>, step: Step): seq<Message> {
    match step
    case CompactStep(_, _, _, _, _) => []
    case ModelReply(_, _, _) => [ReplyTurn(step)]
    case ToolResults(sizes) =>
      var n := |acts|;
      if n > 0 && acts[n - 1].ModelReply? && |sizes| == |acts[n - 1].calls|
      then ResultTurns(acts[n - 1].calls, sizes)
      else []
  }

  /** What the run's acts added to the conversation, compactions aside. */
  function Said(acts: seq<Step>): seq<Message> {
    if acts == [] then [] else var n := |acts| - 1; Said(acts[..n]) + SaidBy(acts[..n], acts[n])
  }

  /** A human turn that stands for the first `k` messages of `all`, and the rest word for word. */
  predicate FoldedAt(msgs: seq<Message>, all: seq<Message>, k: nat) {
    && 0 < k < |all| && msgs != []
    && msgs[0].kind == Human && msgs[0].id == None && msgs[0].rows == Rows(all[..k]) && msgs[1..] == all[k..]
  }

  /** All of it, or folded somewhere before its newest message. */
  ghost predicate IsTailOf(msgs: seq<Message>, all: seq<Message>) {
    msgs == all || exists k: nat :: FoldedAt(msgs, all, k)
  }

  /** The state of a run and its acts agree. */
  ghost predicate InStep(start: Run, run: Run, acts: seq<Step>) {
    && (forall i | 0 <= i < |acts| :: InPlace(acts, i))
    && run.node == NodeAfter(acts)
    && run.msgs != [] && IsTailOf(run.msgs, start.msgs + Said(acts))
    && (run.node.AtTools? ==> Calls(run.msgs[|run.msgs| - 1]) == acts[|acts| - 1].calls)
  }

  lemma {:induction false} ResultTurnsAre(calls: seq<string>, sizes: seq<nat>)
    requires |sizes| == |calls|
    ensures ResultTurns(calls, sizes) == ResultMessages(calls, sizes)
    decreases |calls|
  {
    if calls != [] {
      ResultTurnsAre(calls[1..], sizes[1..]);
      var rest, all := ResultMessages(calls[1..], sizes[1..]), ResultMessages(calls, sizes);
      assert all == [all[0]] + rest;
    }
  }

  lemma TailGrows(msgs: seq<Message>, all: seq<Message>, more: seq<Message>)
    requires IsTailOf(msgs, all)
    ensures IsTailOf(msgs + more, all + more)
  {
    if msgs != all {
      var k: nat :| FoldedAt(msgs, all, k);
      assert (all + more)[..k] == all[..k] && (all + more)[k..] == all[k..] + more;
      assert (msgs + more)[1..] == msgs[1..] + more && (msgs + more)[0] == msgs[0];
      assert FoldedAt(msgs + more, all + more, k);
    }
  }

  /** Folding a tail leaves a tail. */
  lemma TailFolds(msgs: seq<Message>, all: seq<Message>, cut: nat, kept: seq<Message>)
    requires IsTailOf(msgs, all) && FoldedAt(kept, msgs, cut)
    ensures IsTailOf(kept, all)
  {
    if msgs != all {
      var k: nat :| FoldedAt(msgs, all, k);
      FoldedTwice(msgs, all, k, cut);
      assert FoldedAt(kept, all, k + cut - 1);
    }
  }

  lemma FoldedTwice(msgs: seq<Message>, all: seq<Message>, k: nat, cut: nat)
    requires FoldedAt(msgs, all, k) && 0 < cut < |msgs|
    ensures Rows(msgs[..cut]) == Rows(all[..k + cut - 1]) && msgs[cut..] == all[k + cut - 1..]
  {
    var rest, m := msgs[1..], k + cut - 1;
    var front, tail := rest[..cut - 1], all[k..];
    assert msgs[..cut] == [msgs[0]] + front && msgs[cut..] == rest[cut - 1..];
    assert all[..m] == all[..k] + front && all[m..] == tail[cut - 1..];
    RowsConcat([msgs[0]], front);
    RowsConcat(all[..k], front);
    RowsOfOne(msgs[0]);
  }

  /*** Acts keep step ***/

  /** One more act in its place leaves the earlier ones in theirs. */
  lemma PlacesGrow(acts: seq<Step>, step: Step)
    requires forall i | 0 <= i < |acts| :: InPlace(acts, i)
    requires match NodeAfter(acts)
             case AtCompact => step.CompactStep?
             case AtAgent => step.ModelReply?
             case AtTools => step.ToolResults? && |step.sizes| == |acts[|acts| - 1].calls|
             case AtEnd => false
    ensures forall i | 0 <= i <= |acts| :: InPlace(acts + [step], i)
  {
    var more := acts + [step];
    forall i | 0 <= i <= |acts| ensures InPlace(more, i) {
      if i < |acts| {
        assert InPlace(acts, i) && more[i] == acts[i];
        if i > 0 {
          assert more[i - 1] == acts[i - 1];
        }
      } else if i > 0 {
        assert InPlace(acts, i - 1) && more[i - 1] == acts[i - 1];
      }
    }
  }

  lemma SaidSnoc(acts: seq<Step>, step: Step)
    ensures Said(acts + [step]) == Said(acts) + SaidBy(acts, step)
  {
    assert (acts + [step])[..|acts|] == acts;
  }

  lemma CompactionKeepsStep(start: Run, run: Run, acts: seq<Step>, step: Step)
    requires InStep(start, run, acts) && Fits(run, step) && step.CompactStep?
    ensures InStep(start, Advance(run, step), acts + [step])
  {
    PlacesGrow(acts, step);
    SaidSnoc(acts, step);
    var all, cut, next := start.msgs + Said(acts), SplitCut(run.msgs, step.budget), Advance(run, step);
    assert start.msgs + Said(acts + [step]) == all;
    SplitCutInside(run.msgs, step.budget);
    SplitIsOptimal(run.msgs, step.budget, cut);
    CompactionActs(run, step, cut);
    if !(step.total < step.threshold || cut == 0) {
      TailFolds(run.msgs, all, cut, next.msgs);
    }
  }

  lemma ReplyKeepsStep(start: Run, run: Run, acts: seq<Step>, step: Step)
    requires InStep(start, run, acts) && Fits(run, step) && step.ModelReply?
    ensures InStep(start, Advance(run, step), acts + [step])
  {
    PlacesGrow(acts, step);
    SaidSnoc(acts, step);
    TailGrows(run.msgs, start.msgs + Said(acts), [ReplyTurn(step)]);
    assert start.msgs + Said(acts + [step]) == start.msgs + Said(acts) + [ReplyTurn(step)];
  }

  lemma ResultsKeepStep(start: Run, run: Run, acts: seq<Step>, step: Step)
    requires InStep(start, run, acts) && Fits(run, step) && step.ToolResults?
    ensures InStep(start, Advance(run, step), acts + [step])
  {
    var calls := acts[|acts| - 1].calls;
    PlacesGrow(acts, step);
    AnsweringAdvances(run, step, ResultMessages(calls, step.sizes));
    ResultsAreSaid(start, acts, run.msgs, step);
  }

  lemma ResultsAreSaid(start: Run, acts: seq<Step>, msgs: seq<Message>, step: Step)
    requires step.ToolResults? && acts != [] && acts[|acts| - 1].ModelReply?
    requires |step.sizes| == |acts[|acts| - 1].calls| && IsTailOf(msgs, start.msgs + Said(acts))
    ensures IsTailOf(msgs + ResultMessages(acts[|acts| - 1].calls, step.sizes), start.msgs + Said(acts + [step]))
  {
    var turns := ResultTurns(acts[|acts| - 1].calls, step.sizes);
    SaidSnoc(acts, step);
    ResultTurnsAre(acts[|acts| - 1].calls, step.sizes);
    TailGrows(msgs, start.msgs + Said(acts), turns);
    Associative(start.msgs, Said(acts), turns);
  }

  lemma {:induction false} RunKeepsStep(start: Run, steps: seq<Step>)
    requires start.node.AtCompact? && start.msgs != []
    ensures InStep(start, RunSteps(start, steps), Acts(start, steps))
  {
    if steps == [] {
      assert start.msgs + [] == start.msgs;
    } else {
      var before, step := steps[..|steps| - 1], steps[|steps| - 1];
      RunKeepsStep(start, before);
      StepKeepsStep(start, RunSteps(start, before), Acts(start, before), step);
    }
  }

  lemma StepKeepsStep(start: Run, run: Run, acts: seq<Step>, step: Step)
    requires InStep(start, run, acts)
    ensures InStep(start, Advance(run, step), acts + if Fits(run, step) then [step] else [])
  {
    if !Fits(run, step) {
      OthersDoNothing(run, step);
      assert acts + [] == acts;
    } else if step.CompactStep? {
      CompactionKeepsStep(start, run, acts, step);
    } else if step.ModelReply? {
      ReplyKeepsStep(start, run, acts, step);
    } else {
      ResultsKeepStep(start, run, acts, step);
    }
  }

  /*** Main results ***/

  /**
    The loop, for any steps in any order: those that act are a compaction, a reply, the results of its calls, another
    compaction and so on, so no model call goes without one; the first reply without calls ends the run.
   */
  lemma LoopOrder(start: Run, steps: seq<Step>)
    requires start.node.AtCompact? && start.msgs != []
    ensures var acts := Acts(start, steps);
            && (forall i | 0 <= i < |acts| :: InPlace(acts, i))
            && RunSteps(start, steps).node == NodeAfter(acts)
  {
    RunKeepsStep(start, steps);
  }

  /**
    What the model sees: at any point of any run the messages are all that was said, from the loaded prompt on, in
    order and word for word; or one turn that stands for everything before some point, followed by all said since.
   */
  lemma ContextIsTail(start: Run, steps: seq<Step>)
    requires start.node.AtCompact? && start.msgs != []
    ensures IsTailOf(RunSteps(start, steps).msgs, start.msgs + Said(Acts(start, steps)))
  {
    RunKeepsStep(start, steps);
  }
}
