/**
  A subagent run: compact -> subagent -> (web_search -> compact -> ...) -> end, with its search cap
  (agent/src/graphs/subagent.py).
 */
module SubagentGraph {
  import opened Prelude
  import opened Messages
  import opened Summarization
  import Graph = AgentGraph
  import Loop = GraphLoop

  datatype Call = Call(id: string, name: string)
  datatype SearchResult = Found(text: string) | Raised(error: string)
  datatype ToolMessage = ToolMessage(content: string, name: string, callId: string)

  const LIMIT_TEXT := "Search limit reached. No further web searches were executed."
  const ERROR_PREFIX := "Error running search: "

  function Max(a: int, b: int): int {
    if a < b then b else a
  }

  /** How many of `requested` calls the cap still lets through. */
  function Executable(requested: nat, used: int, maxSearches: int): nat {
    Min(requested, Max(maxSearches - used, 0))
  }

  function Content(result: SearchResult): string {
    match result
    case Found(text) => text
    case Raised(error) => ERROR_PREFIX + error
  }

  /** `results` are the gathered outcomes, one per executed call. */
  method WebSearchNode(calls: seq<Call>, results: seq<SearchResult>, used: int, maxSearches: int)
    returns (messages: seq<ToolMessage>, count: int)
    requires |results| == Executable(|calls|, used, maxSearches)
    ensures |messages| == |calls|
    ensures forall i | 0 <= i < |calls| :: messages[i].callId == calls[i].id && messages[i].name == calls[i].name
    ensures forall i | 0 <= i < |results| && results[i].Found? :: messages[i].content == results[i].text
    ensures forall i | 0 <= i < |results| && results[i].Raised? ::
              messages[i].content == "Error running search: " + results[i].error
    ensures forall i | |results| <= i < |calls| ::
              messages[i].content == "Search limit reached. No further web searches were executed."
    ensures count - used == Executable(|calls|, used, maxSearches)
  {
    var remaining := Max(maxSearches - used, 0);
    var taken := if remaining < |calls| then remaining else |calls|;
    var executeCalls := calls[..taken];
    var skippedCalls := calls[taken..];
    messages := [];
    for i := 0 to |executeCalls|
      invariant |messages| == i
      invariant forall k | 0 <= k < i ::
        messages[k] == ToolMessage(Content(results[k]), calls[k].name, calls[k].id)
    {
      messages := messages + [ToolMessage(Content(results[i]), executeCalls[i].name, executeCalls[i].id)];
    }
    for i := 0 to |skippedCalls|
      invariant |messages| == taken + i
      invariant forall k | 0 <= k < taken ::
        messages[k] == ToolMessage(Content(results[k]), calls[k].name, calls[k].id)
      invariant forall k | taken <= k < taken + i ::
        messages[k] == ToolMessage(LIMIT_TEXT, calls[k].name, calls[k].id)
    {
      messages := messages + [ToolMessage(LIMIT_TEXT, skippedCalls[i].name, skippedCalls[i].id)];
    }
    count := used + |executeCalls|;
  }

  /*** Whole subagent runs ***/

  /** `requested` and `executed` count the calls asked for and the searches performed so far. */
  datatype Run = Run(node: Graph.Node, msgs: seq<Message>, count: int, requested: nat, executed: nat)

  datatype Step =
    | CompactStep(total: nat, threshold: int, budget: int, call: Summarizer)
    | ModelReply(id: Option<string>, tokens: nat, calls: seq<string>)
    | Search(sizes: seq<nat>)

  function Start(task: Message): Run {
    Run(Graph.AtCompact, [task], 0, 0, 0)
  }

  /** The delegated task arrives as one human message without an id. */
  predicate IsTask(task: Message) {
    task.kind.Human? && task.id.None?
  }

  function Advance(run: Run, step: Step, maxSearches: int): Run {
    match (run.node, step)
    case (AtCompact, CompactStep(total, threshold, budget, call)) =>
      run.(node := Graph.AtAgent, msgs := Compacted(run.msgs, total, threshold, budget, call))
    case (AtAgent, ModelReply(id, tokens, calls)) =>
      var reply := Message(AI(calls), id, tokens, [], {});
      if IsDurable(reply) then run
      else run.(node := if calls != [] then Graph.AtTools else Graph.AtEnd, msgs := run.msgs + [reply])
    case (AtTools, Search(sizes)) =>
      if run.msgs == [] || |sizes| != |Calls(run.msgs[|run.msgs| - 1])| then run
      else
        var calls := Calls(run.msgs[|run.msgs| - 1]);
        var done := Executable(|calls|, run.count, maxSearches);
        Run(Graph.AtCompact, run.msgs + Graph.ResultMessages(calls, sizes), run.count + done,
            run.requested + |calls|, run.executed + done)
    case _ => run
  }

  function RunSteps(run: Run, steps: seq<Step>, maxSearches: int): Run {
    if steps == [] then run
    else Advance(RunSteps(run, steps[..|steps| - 1], maxSearches), steps[|steps| - 1], maxSearches)
  }

  predicate Paired(run: Run) {
    if run.node.AtTools?
    then run.msgs != [] && Calls(run.msgs[|run.msgs| - 1]) != [] && WellPaired(run.msgs[..|run.msgs| - 1])
    else WellPaired(run.msgs)
  }

  ghost predicate RunInv(run: Run, maxSearches: int) {
    && run.msgs != []
    && Paired(run)
    && (forall i | 0 <= i < |run.msgs| :: !IsDurable(run.msgs[i]))
    && run.count == run.executed
    && run.executed == Min(run.requested, Max(maxSearches, 0))
  }

  lemma CompactKeepsInv(run: Run, step: Step, maxSearches: int)
    requires RunInv(run, maxSearches) && run.node.AtCompact? && step.CompactStep?
    ensures RunInv(Advance(run, step, maxSearches), maxSearches)
  {
    CompactionPreserves(run.msgs, step.total, step.threshold, step.budget, step.call);
    match Compact(run.msgs, step.total, step.threshold, step.budget, step.call)
    case Unchanged =>
    case Folded(kept, _) => FoldedIsScratch(run.msgs, step);
  }

  /** Folding messages without row ids leaves messages without row ids. */
  lemma FoldedIsScratch(msgs: seq<Message>, step: Step)
    requires step.CompactStep? && forall i | 0 <= i < |msgs| :: !IsDurable(msgs[i])
    ensures match Compact(msgs, step.total, step.threshold, step.budget, step.call)
            case Unchanged => true
            case Folded(kept, _) => kept != [] && forall i | 0 <= i < |kept| :: !IsDurable(kept[i])
  {
    match Compact(msgs, step.total, step.threshold, step.budget, step.call)
    case Unchanged =>
    case Folded(kept, _) =>
      assert forall i | 1 <= i < |kept| :: kept[i] == msgs[SplitCut(msgs, step.budget) + i - 1];
  }

  lemma ReplyKeepsInv(run: Run, step: Step, maxSearches: int)
    requires RunInv(run, maxSearches) && run.node.AtAgent? && step.ModelReply?
    ensures RunInv(Advance(run, step, maxSearches), maxSearches)
  {
    var reply := Message(AI(step.calls), step.id, step.tokens, [], {});
    assert (run.msgs + [reply])[..|run.msgs|] == run.msgs;
    if step.calls == [] {
      CallGroupIsPaired(reply, []);
      assert [reply] + [] == [reply];
      WellPairedConcat(run.msgs, [reply]);
    }
  }

  lemma SearchKeepsInv(run: Run, step: Step, maxSearches: int)
    requires RunInv(run, maxSearches) && run.node.AtTools? && step.Search?
    ensures RunInv(Advance(run, step, maxSearches), maxSearches)
  {
    var calls := Calls(run.msgs[|run.msgs| - 1]);
    if |step.sizes| == |calls| {
      Graph.AnsweringPairs(run.msgs, Graph.ResultMessages(calls, step.sizes));
    }
  }

  lemma StepKeepsInv(run: Run, step: Step, maxSearches: int)
    requires RunInv(run, maxSearches)
    ensures RunInv(Advance(run, step, maxSearches), maxSearches)
  {
    match (run.node, step)
    case (AtCompact, CompactStep(_, _, _, _)) => CompactKeepsInv(run, step, maxSearches);
    case (AtAgent, ModelReply(_, _, _)) => ReplyKeepsInv(run, step, maxSearches);
    case (AtTools, Search(_)) => SearchKeepsInv(run, step, maxSearches);
    case _ =>
  }

  lemma {:induction false} RunKeepsInv(task: Message, steps: seq<Step>, maxSearches: int)
    requires IsTask(task)
    ensures RunInv(RunSteps(Start(task), steps, maxSearches), maxSearches)
  {
    if steps == [] {
      assert [task][GroupLength([task])..] == [];
    } else {
      RunKeepsInv(task, steps[..|steps| - 1], maxSearches);
      StepKeepsInv(RunSteps(Start(task), steps[..|steps| - 1], maxSearches), steps[|steps| - 1], maxSearches);
    }
  }

  /**
    The cap is exact over a whole run, compactions included: searches performed number the smaller of the calls
    the loop answered and the cap, a negative cap counting as zero.
   */
  lemma SearchCapIsExact(task: Message, steps: seq<Step>, maxSearches: int)
    requires IsTask(task)
    ensures var run := RunSteps(Start(task), steps, maxSearches);
            && run.executed == Min(run.requested, Max(maxSearches, 0)) && run.count == run.executed
            && run.requested == CallsAnswered(Loop.Acts(GraphStart(task), AsGraphSteps(steps)))
  {
    RunKeepsInv(task, steps, maxSearches);
    RequestedAreAnswered(task, steps, maxSearches);
  }

  /** Every subagent model call sees calls and results paired. */
  lemma ModelCallsSeePairedHistory(task: Message, steps: seq<Step>, maxSearches: int)
    requires IsTask(task)
    ensures var run := RunSteps(Start(task), steps, maxSearches);
            run.node.AtAgent? ==> EachResultFollowsItsCall(run.msgs) && EachCallAnswered(run.msgs)
  {
    RunKeepsInv(task, steps, maxSearches);
    PairedByIndex(RunSteps(Start(task), steps, maxSearches).msgs);
  }

  /** A subagent's compactions always report a null id, so they never move the conversation's watermark. */
  lemma SubagentNeverMovesWatermark(task: Message, steps: seq<Step>, maxSearches: int,
                                    total: nat, threshold: int, budget: int, call: Summarizer)
    requires IsTask(task)
    ensures var c := Compact(RunSteps(Start(task), steps, maxSearches).msgs, total, threshold, budget, call);
            c.Folded? ==> c.through.None?
  {
    RunKeepsInv(task, steps, maxSearches);
    var msgs := RunSteps(Start(task), steps, maxSearches).msgs;
    var head := msgs[..SplitCut(msgs, budget)];
    var _ := NewestDurableFound(head);
  }

  /*** The same loop as the agent's ***/

  function AsGraphStep(step: Step): Graph.Step {
    match step
    case CompactStep(total, threshold, budget, call) => Graph.CompactStep(total, threshold, budget, call, false)
    case ModelReply(id, tokens, calls) => Graph.ModelReply(id, tokens, calls)
    case Search(sizes) => Graph.ToolResults(sizes)
  }

  function AsGraphSteps(steps: seq<Step>): seq<Graph.Step> {
    if steps == [] then [] else AsGraphSteps(steps[..|steps| - 1]) + [AsGraphStep(steps[|steps| - 1])]
  }

  function GraphStart(task: Message): Graph.Run {
    Graph.Run(Graph.AtCompact, [task], [], None)
  }

  predicate SameAs(run: Run, g: Graph.Run) {
    run.node == g.node && run.msgs == g.msgs
  }

  lemma StepStaysSame(run: Run, g: Graph.Run, step: Step, maxSearches: int)
    requires SameAs(run, g)
    ensures SameAs(Advance(run, step, maxSearches), Graph.Advance(g, AsGraphStep(step)))
  {
  }

  /**
    A subagent goes through the agent's loop, step by step and message by message, so what is proved of the order of
    that loop and of the messages its model sees holds of subagents.
   */
  lemma {:induction false} SubagentFollowsLoop(task: Message, steps: seq<Step>, maxSearches: int)
    requires IsTask(task)
    ensures SameAs(RunSteps(Start(task), steps, maxSearches), Graph.RunSteps(GraphStart(task), AsGraphSteps(steps)))
  {
    if steps != [] {
      var n := |steps| - 1;
      SubagentFollowsLoop(task, steps[..n], maxSearches);
      StepStaysSame(RunSteps(Start(task), steps[..n], maxSearches),
                    Graph.RunSteps(GraphStart(task), AsGraphSteps(steps[..n])), steps[n], maxSearches);
      Loop.RunSnoc(GraphStart(task), AsGraphSteps(steps[..n]), AsGraphStep(steps[n]));
    }
  }

  /** How many tool calls these acts answered. */
  function CallsAnswered(acts: seq<Graph.Step>): nat {
    if acts == [] then 0
    else
      var n := |acts| - 1;
      CallsAnswered(acts[..n]) + if acts[n].ToolResults? then |acts[n].sizes| else 0
  }

  /** The calls counted as requested are the calls the loop answered. */
  lemma {:induction false} RequestedAreAnswered(task: Message, steps: seq<Step>, maxSearches: int)
    requires IsTask(task)
    ensures RunSteps(Start(task), steps, maxSearches).requested
         == CallsAnswered(Loop.Acts(GraphStart(task), AsGraphSteps(steps)))
  {
    if steps != [] {
      var n := |steps| - 1;
      var g := AsGraphSteps(steps[..n]);
      RequestedAreAnswered(task, steps[..n], maxSearches);
      SubagentFollowsLoop(task, steps[..n], maxSearches);
      Loop.ActsSnoc(GraphStart(task), g, AsGraphStep(steps[n]));
      StepRequests(RunSteps(Start(task), steps[..n], maxSearches), Graph.RunSteps(GraphStart(task), g),
                   Loop.Acts(GraphStart(task), g), steps[n], maxSearches);
    }
  }

  lemma CallsAnsweredSnoc(acts: seq<Graph.Step>, act: Graph.Step)
    ensures CallsAnswered(acts + [act]) == CallsAnswered(acts) + if act.ToolResults? then |act.sizes| else 0
  {
    assert (acts + [act])[..|acts|] == acts;
  }

  lemma StepRequests(run: Run, g: Graph.Run, acts: seq<Graph.Step>, step: Step, maxSearches: int)
    requires SameAs(run, g) && run.requested == CallsAnswered(acts)
    ensures Advance(run, step, maxSearches).requested
         == CallsAnswered(acts + if Loop.Fits(g, AsGraphStep(step)) then [AsGraphStep(step)] else [])
  {
    CallsAnsweredSnoc(acts, AsGraphStep(step));
    assert acts + [] == acts;
  }
}
