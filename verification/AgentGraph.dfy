/**
  One run of the top-level agent graph: compact -> agent -> (tools -> compact -> ...) -> end
  (agent/src/graphs/agent.py), together with what the API captures from its compaction nodes
  (api/chat.go, the node-end handler).
 */
module AgentGraph {
  import opened Prelude
  import opened Decimal
  import opened Messages
  import opened Summarization
  import opened Watermark

  datatype Node = AtCompact | AtAgent | AtTools | AtEnd

  /** A summary with the id it runs through, as the API captures and stores it. */
  datatype Checkpoint = Checkpoint(rows: seq<int>, lost: set<int>, through: int)

  /** `reported` lists the row ids the run's compaction nodes announced, oldest first; null ids are not listed. */
  datatype Run = Run(node: Node, msgs: seq<Message>, reported: seq<int>, captured: Option<Checkpoint>)

  /**
    What the outside decides at each graph node: the token counts, whether the summarizer failed or streamed
    any text, the model's reply and its tool calls, and the size of each tool result.
   */
  datatype Step =
    | CompactStep(total: nat, threshold: int, budget: int, call: Summarizer, streamed: bool)
    | ModelReply(id: Option<string>, tokens: nat, calls: seq<string>)
    | ToolResults(sizes: seq<nat>)

  function ReplyMessage(step: Step): Message
    requires step.ModelReply?
  {
    Message(AI(step.calls), step.id, step.tokens, [], {})
  }

  function ResultMessages(calls: seq<string>, tokens: seq<nat>): (results: seq<Message>)
    requires |tokens| == |calls|
    ensures |results| == |calls|
    ensures forall i | 0 <= i < |calls| :: results[i] == Message(ToolResult(calls[i]), None, tokens[i], [], {})
  {
    seq(|calls|, i requires 0 <= i < |calls| => Message(ToolResult(calls[i]), None, tokens[i], [], {}))
  }

  /**
    The API's view of a finished compaction: a failed call sends no node-end, a call that streamed nothing has
    no node to end, a null id is ignored.
   */
  function Capture(run: Run, step: Step, kept: seq<Message>, through: Option<string>): Run
    requires step.CompactStep? && kept != []
  {
    var done := run.(node := AtAgent, msgs := kept);
    if step.call.Failed? || through.None? || ParseInt64(through.value).None? then done
    else
      var w := ParseInt64(through.value).value;
      done.(reported := run.reported + [w],
            captured := if step.streamed then Some(Checkpoint(kept[0].rows, kept[0].lost, w)) else run.captured)
  }

  /** One graph step; a step that does not belong to the current node changes nothing. */
  function Advance(run: Run, step: Step): Run {
    match (run.node, step)
    case (AtCompact, CompactStep(total, threshold, budget, call, _)) =>
      (match Compact(run.msgs, total, threshold, budget, call)
       case Unchanged => run.(node := AtAgent)
       case Folded(kept, through) => Capture(run, step, kept, through))
    case (AtAgent, ModelReply(_, _, calls)) =>
      if IsDurable(ReplyMessage(step)) then run
      else run.(node := if calls != [] then AtTools else AtEnd, msgs := run.msgs + [ReplyMessage(step)])
    case (AtTools, ToolResults(sizes)) =>
      if run.msgs == [] || |sizes| != |Calls(run.msgs[|run.msgs| - 1])| then run
      else run.(node := AtCompact,
                msgs := run.msgs + ResultMessages(Calls(run.msgs[|run.msgs| - 1]), sizes))
    case _ => run
  }

  /*** Invariant of a run ***/

  /** A message loaded from the database stands for exactly the row its id names. */
  predicate IsRowMessage(m: Message) {
    |m.rows| == 1 && 0 <= m.rows[0] <= MAX_INT64 && m.id == Some(FormatInt(m.rows[0])) && m.lost == {}
  }

  predicate LaidAt(m: Message, i: nat, reached: int) {
    if IsDurable(m) then IsRowMessage(m) && reached < m.rows[0] else i > 0 ==> m.rows == []
  }

  /**
    Row messages carry their row, all of them past the newest reported id; only the opening message may stand
    for several rows; all else is scratch.
   */
  predicate Laid(msgs: seq<Message>, reached: int) {
    forall i | 0 <= i < |msgs| :: LaidAt(msgs[i], i, reached)
  }

  /** Model calls see a paired history; at the tools node the last message holds the open calls. */
  predicate Paired(run: Run) {
    if run.node.AtTools?
    then run.msgs != [] && Calls(run.msgs[|run.msgs| - 1]) != [] && WellPaired(run.msgs[..|run.msgs| - 1])
    else WellPaired(run.msgs)
  }

  /** The newest id reported so far, or the watermark the run started from. */
  function Reached(run: Run, floor: int): int {
    if run.reported == [] then floor else run.reported[|run.reported| - 1]
  }

  /** `visible` are the rows loaded for the run, `floor` the watermark it was loaded with. */
  ghost predicate RunInv(run: Run, visible: seq<int>, floor: int) {
    && Ascending(visible)
    && Laid(run.msgs, Reached(run, floor))
    && Rows(run.msgs) == visible
    && Paired(run)
    && Ascending([floor] + run.reported)
    && (run.captured.Some? ==>
          var c := run.captured.value;
          c.rows == UpTo(visible, c.through) && c.through in visible && c.through in run.reported)
  }

  lemma {:induction false} RowOfMember(msgs: seq<Message>, i: nat)
    requires i < |msgs|
    ensures forall r | r in msgs[i].rows :: r in Rows(msgs)
  {
    if i > 0 {
      RowOfMember(msgs[1..], i - 1);
    }
  }

  /** A head whose newest durable message names row `through` stands for rows ending in `through`. */
  lemma HeadEndsWithRow(head: seq<Message>, reached: int) returns (before: seq<int>, m: Message)
    requires Laid(head, reached) && NewestDurableId(head).Some?
    ensures IsRowMessage(m) && reached < m.rows[0] && m.id == NewestDurableId(head)
    ensures Rows(head) == before + m.rows
  {
    var at := NewestDurableFound(head);
    m := head[at];
    assert LaidAt(m, at, reached);
    before := Rows(head[..at]);
    RowsThrough(head, at, reached);
  }

  lemma RowsThrough(head: seq<Message>, at: nat, reached: int)
    requires Laid(head, reached) && IsNewestDurable(head, at)
    ensures Rows(head) == Rows(head[..at]) + head[at].rows
  {
    var after := head[at + 1..];
    forall i | 0 <= i < |after| ensures after[i].rows == [] {
      assert after[i] == head[at + 1 + i];
      assert LaidAt(head[at + 1 + i], at + 1 + i, reached);
    }
    RowsOfSilent(after);
    assert head[at..][1..] == after;
    assert head == head[..at] + head[at..];
    RowsConcat(head[..at], head[at..]);
  }

  /** What a non-null id says: the folded head stands for exactly the rows through it. */
  lemma HeadCoverage(msgs: seq<Message>, cut: nat, reached: int) returns (through: int)
    requires Laid(msgs, reached) && Ascending(Rows(msgs)) && cut <= |msgs|
    requires NewestDurableId(msgs[..cut]).Some?
    ensures ParseInt64(NewestDurableId(msgs[..cut]).value) == Some(through) && reached < through
    ensures Rows(msgs[..cut]) == UpTo(Rows(msgs), through) && through in Rows(msgs)
    ensures forall r | r in Rows(msgs[cut..]) :: through < r
  {
    var head, tail := msgs[..cut], msgs[cut..];
    var before, m := HeadEndsWithRow(head, reached);
    through := m.rows[0];
    RowIdRoundTrip(through);
    assert msgs == head + tail;
    RowsConcat(head, tail);
    assert Rows(head)[|before|] == through;
    UpToPrefix(Rows(head), Rows(tail));
  }

  lemma KeptIsLaid(msgs: seq<Message>, cut: nat, first: Message, reached: int, through: int)
    requires Laid(msgs, reached) && 0 < cut <= |msgs| && !IsDurable(first)
    requires forall i | cut <= i < |msgs| && IsRowMessage(msgs[i]) ::
               reached < msgs[i].rows[0] ==> through < msgs[i].rows[0]
    ensures Laid([first] + msgs[cut..], through)
  {
    var kept := [first] + msgs[cut..];
    forall i | 0 <= i < |kept| ensures LaidAt(kept[i], i, through) {
      if i > 0 {
        var at := cut + i - 1;
        assert kept[i] == msgs[at];
        assert LaidAt(msgs[at], at, reached);
      }
    }
  }

  lemma TailIsPast(msgs: seq<Message>, cut: nat, through: int)
    requires cut <= |msgs| && forall r | r in Rows(msgs[cut..]) :: through < r
    ensures forall i | cut <= i < |msgs| && IsRowMessage(msgs[i]) :: through < msgs[i].rows[0]
  {
    var tail := msgs[cut..];
    forall i | cut <= i < |msgs| && IsRowMessage(msgs[i]) ensures through < msgs[i].rows[0] {
      assert tail[i - cut] == msgs[i];
      RowOfMember(tail, i - cut);
      assert msgs[i].rows[0] in tail[i - cut].rows;
    }
  }

  lemma AscendingAppend(ids: seq<int>, w: int)
    requires Ascending(ids) && ids != [] && ids[|ids| - 1] < w
    ensures Ascending(ids + [w])
  {
    var longer := ids + [w];
    forall i, j | 0 <= i < j < |longer| ensures longer[i] < longer[j] {
      if j == |ids| && i < j - 1 {
        assert ids[i] < ids[|ids| - 1];
      }
    }
  }

  /** A step that reports nothing need only look after the messages. */
  lemma MessagesKeepInv(run: Run, node: Node, msgs: seq<Message>, visible: seq<int>, floor: int)
    requires RunInv(run, visible, floor) && !node.AtTools?
    requires Laid(msgs, Reached(run, floor)) && Rows(msgs) == visible && WellPaired(msgs)
    ensures RunInv(run.(node := node, msgs := msgs), visible, floor)
  {
  }

  lemma FoldKeepsInv(run: Run, step: Step, visible: seq<int>, floor: int, cut: nat, kept: seq<Message>)
    requires RunInv(run, visible, floor) && run.node.AtCompact? && step.CompactStep?
    requires 0 < cut <= |run.msgs| && kept == [Replacement(run.msgs[..cut], step.call)] + run.msgs[cut..]
    requires Rows(kept) == visible && WellPaired(kept)
    ensures RunInv(Capture(run, step, kept, NewestDurableId(run.msgs[..cut])), visible, floor)
  {
    var reached := Reached(run, floor);
    if NewestDurableId(run.msgs[..cut]).None? || step.call.Failed? {
      KeptIsLaid(run.msgs, cut, kept[0], reached, reached);
      MessagesKeepInv(run, AtAgent, kept, visible, floor);
    } else {
      var w := HeadCoverage(run.msgs, cut, reached);
      TailIsPast(run.msgs, cut, w);
      KeptIsLaid(run.msgs, cut, kept[0], reached, w);
      ReportKeepsInv(run, kept, Checkpoint(kept[0].rows, kept[0].lost, w), step.streamed, visible, floor);
    }
  }

  /** Reporting a checkpoint that covers exactly the visible rows through it. */
  lemma ReportKeepsInv(run: Run, kept: seq<Message>, c: Checkpoint, streamed: bool, visible: seq<int>, floor: int)
    requires RunInv(run, visible, floor)
    requires Laid(kept, c.through) && Rows(kept) == visible && WellPaired(kept)
    requires Reached(run, floor) < c.through && c.through in visible && c.rows == UpTo(visible, c.through)
    ensures RunInv(Run(AtAgent, kept, run.reported + [c.through], if streamed then Some(c) else run.captured),
                   visible, floor)
  {
    var reported := run.reported + [c.through];
    AscendingAppend([floor] + run.reported, c.through);
    assert [floor] + reported == ([floor] + run.reported) + [c.through];
    assert reported[|run.reported|] == c.through;
    assert forall r | r in run.reported :: r in reported;
  }

  lemma CompactStepKeepsInv(run: Run, step: Step, visible: seq<int>, floor: int)
    requires RunInv(run, visible, floor) && run.node.AtCompact? && step.CompactStep?
    ensures RunInv(Advance(run, step), visible, floor)
  {
    match Compact(run.msgs, step.total, step.threshold, step.budget, step.call)
    case Unchanged =>
    case Folded(_, _) =>
      CompactionPreserves(run.msgs, step.total, step.threshold, step.budget, step.call);
      var cut := SplitCut(run.msgs, step.budget);
      FoldKeepsInv(run, step, visible, floor, cut, [Replacement(run.msgs[..cut], step.call)] + run.msgs[cut..]);
  }

  lemma ScratchIsLaid(msgs: seq<Message>, scratch: seq<Message>, reached: int)
    requires Laid(msgs, reached) && forall i | 0 <= i < |scratch| :: !IsDurable(scratch[i]) && scratch[i].rows == []
    ensures Laid(msgs + scratch, reached)
    ensures Rows(msgs + scratch) == Rows(msgs)
  {
    var longer := msgs + scratch;
    forall i | 0 <= i < |longer| ensures LaidAt(longer[i], i, reached) {
      if i < |msgs| {
        assert LaidAt(msgs[i], i, reached);
      } else {
        assert longer[i] == scratch[i - |msgs|];
      }
    }
    RowsConcat(msgs, scratch);
    RowsOfSilent(scratch);
  }

  lemma ReplyKeepsInv(run: Run, step: Step, visible: seq<int>, floor: int)
    requires RunInv(run, visible, floor) && run.node.AtAgent? && step.ModelReply?
    requires run.msgs != []
    ensures RunInv(Advance(run, step), visible, floor)
  {
    var m := ReplyMessage(step);
    if !IsDurable(m) {
      var next := Advance(run, step);
      ScratchIsLaid(run.msgs, [m], Reached(run, floor));
      assert next.msgs[..|next.msgs| - 1] == run.msgs;
      if step.calls == [] {
        CallGroupIsPaired(m, []);
        assert [m] + [] == [m];
        WellPairedConcat(run.msgs, [m]);
      }
    }
  }

  lemma AnsweringPairs(msgs: seq<Message>, results: seq<Message>)
    requires msgs != [] && Calls(msgs[|msgs| - 1]) != [] && WellPaired(msgs[..|msgs| - 1])
    requires Answered(results, 0, Calls(msgs[|msgs| - 1])) && |results| == |Calls(msgs[|msgs| - 1])|
    ensures WellPaired(msgs + results)
  {
    var before, m := msgs[..|msgs| - 1], msgs[|msgs| - 1];
    CallGroupIsPaired(m, results);
    WellPairedConcat(before, [m] + results);
    assert msgs + results == before + ([m] + results);
  }

  lemma AnsweringKeepsInv(run: Run, results: seq<Message>, visible: seq<int>, floor: int)
    requires RunInv(run, visible, floor) && run.node.AtTools?
    requires Answered(results, 0, Calls(run.msgs[|run.msgs| - 1]))
    requires |results| == |Calls(run.msgs[|run.msgs| - 1])|
    requires forall i | 0 <= i < |results| :: !IsDurable(results[i]) && results[i].rows == []
    ensures RunInv(run.(node := AtCompact, msgs := run.msgs + results), visible, floor)
  {
    ScratchIsLaid(run.msgs, results, Reached(run, floor));
    AnsweringPairs(run.msgs, results);
    MessagesKeepInv(run, AtCompact, run.msgs + results, visible, floor);
  }

  lemma ToolsKeepInv(run: Run, step: Step, visible: seq<int>, floor: int)
    requires RunInv(run, visible, floor) && run.node.AtTools? && step.ToolResults?
    ensures RunInv(Advance(run, step), visible, floor)
  {
    var calls := Calls(run.msgs[|run.msgs| - 1]);
    if |step.sizes| == |calls| {
      var results := ResultMessages(calls, step.sizes);
      AnsweringKeepsInv(run, results, visible, floor);
      AnsweringAdvances(run, step, results);
    } else {
      assert Advance(run, step) == run;
    }
  }

  lemma AnsweringAdvances(run: Run, step: Step, results: seq<Message>)
    requires run.node.AtTools? && step.ToolResults? && run.msgs != []
    requires |step.sizes| == |Calls(run.msgs[|run.msgs| - 1])|
    requires results == ResultMessages(Calls(run.msgs[|run.msgs| - 1]), step.sizes)
    ensures Advance(run, step) == run.(node := AtCompact, msgs := run.msgs + results)
  {
  }

  /** Every step of a run keeps coverage, order, pairing and the growth of reported ids. */
  lemma StepKeepsInv(run: Run, step: Step, visible: seq<int>, floor: int)
    requires RunInv(run, visible, floor) && run.msgs != []
    ensures RunInv(Advance(run, step), visible, floor) && Advance(run, step).msgs != []
  {
    match (run.node, step)
    case (AtCompact, CompactStep(_, _, _, _, _)) => CompactStepKeepsInv(run, step, visible, floor);
    case (AtAgent, ModelReply(_, _, _)) => ReplyKeepsInv(run, step, visible, floor);
    case (AtTools, ToolResults(_)) => ToolsKeepInv(run, step, visible, floor);
    case _ =>
  }

  /*** Whole runs ***/

  function RunSteps(run: Run, steps: seq<Step>): Run {
    if steps == [] then run else Advance(RunSteps(run, steps[..|steps| - 1]), steps[|steps| - 1])
  }

  lemma {:induction false} RunKeepsInv(run: Run, steps: seq<Step>, visible: seq<int>, floor: int)
    requires RunInv(run, visible, floor) && run.msgs != []
    ensures RunInv(RunSteps(run, steps), visible, floor) && RunSteps(run, steps).msgs != []
  {
    if steps != [] {
      RunKeepsInv(run, steps[..|steps| - 1], visible, floor);
      StepKeepsInv(RunSteps(run, steps[..|steps| - 1]), steps[|steps| - 1], visible, floor);
    }
  }

  ghost predicate IsStart(run: Run) {
    run.node.AtCompact? && run.msgs != [] && run.reported == [] && run.captured.None?
  }

  /**
    Tool pairing along every run: whenever the model is called, each tool result directly follows its own
    call's group and every call is answered, however often compaction fired before.
   */
  lemma ModelCallsSeePairedHistory(start: Run, steps: seq<Step>, visible: seq<int>, floor: int)
    requires IsStart(start) && RunInv(start, visible, floor)
    ensures var run := RunSteps(start, steps);
            run.node.AtAgent? ==> EachResultFollowsItsCall(run.msgs) && EachCallAnswered(run.msgs)
  {
    RunKeepsInv(start, steps, visible, floor);
    PairedByIndex(RunSteps(start, steps).msgs);
  }

  /**
    Watermark order inside a run: the non-null ids of successive compactions strictly increase above the
    watermark the run was loaded with.
   */
  lemma ReportedIdsIncrease(start: Run, steps: seq<Step>, visible: seq<int>, floor: int)
    requires IsStart(start) && RunInv(start, visible, floor)
    ensures var run := RunSteps(start, steps);
            Ascending(run.reported) && (forall w | w in run.reported :: floor < w)
  {
    RunKeepsInv(start, steps, visible, floor);
    var run := RunSteps(start, steps);
    var all := [floor] + run.reported;
    assert run.reported == all[1..];
    forall w | w in run.reported ensures floor < w {
      var i :| 0 <= i < |run.reported| && run.reported[i] == w;
      assert all[i + 1] == w && all[0] == floor;
    }
  }

  /** The captured pair is the last reported one, if any was. */
  predicate HoldsLastReported(run: Run) {
    if run.reported == [] then run.captured.None?
    else run.captured.Some? && run.captured.value.through == run.reported[|run.reported| - 1]
  }

  /** Whether the step announces a row id. */
  predicate Reports(run: Run, step: Step) {
    Advance(run, step).reported != run.reported
  }

  /** The last summarizer call that announced a row id streamed some text, if there was one. */
  predicate LastReportStreamed(start: Run, steps: seq<Step>) {
    steps == [] ||
    var n := |steps| - 1;
    if Reports(RunSteps(start, steps[..n]), steps[n]) then steps[n].CompactStep? && steps[n].streamed
    else LastReportStreamed(start, steps[..n])
  }

  /** A report keeps the last reported pair if it streamed, and leaves an older one behind if it did not. */
  lemma ReportDecides(run: Run, step: Step, visible: seq<int>, floor: int)
    requires RunInv(run, visible, floor) && run.msgs != [] && Reports(run, step)
    ensures step.CompactStep? && (HoldsLastReported(Advance(run, step)) <==> step.streamed)
  {
    var w := ReportShape(run, step);
    StepKeepsInv(run, step, visible, floor);
    if !step.streamed && run.captured.Some? {
      ReportsAreNewer(run.reported, w, run.captured.value.through, floor);
    }
  }

  lemma ReportShape(run: Run, step: Step) returns (w: int)
    requires Reports(run, step)
    ensures step.CompactStep? && Advance(run, step).reported == run.reported + [w]
    ensures var captured := Advance(run, step).captured;
            if step.streamed then captured.Some? && captured.value.through == w else captured == run.captured
  {
    w := Advance(run, step).reported[|run.reported|];
  }

  lemma ReportsAreNewer(reported: seq<int>, w: int, through: int, floor: int)
    requires Ascending([floor] + (reported + [w])) && through in reported
    ensures through < w
  {
    var all := [floor] + (reported + [w]);
    var i :| 0 <= i < |reported| && reported[i] == through;
    assert all[i + 1] == through && all[|reported| + 1] == w;
  }

  lemma SilenceKeepsCapture(run: Run, step: Step)
    requires !Reports(run, step)
    ensures Advance(run, step).captured == run.captured
  {
    if run.node.AtCompact? && step.CompactStep? {
      match Compact(run.msgs, step.total, step.threshold, step.budget, step.call)
      case Unchanged =>
      case Folded(kept, through) =>
        var next := Capture(run, step, kept, through);
        assert next.captured != run.captured ==> |next.reported| == |run.reported| + 1;
    }
  }

  lemma StepDecides(run: Run, step: Step, visible: seq<int>, floor: int)
    requires RunInv(run, visible, floor) && run.msgs != []
    ensures HoldsLastReported(Advance(run, step))
       <==> if Reports(run, step) then step.CompactStep? && step.streamed else HoldsLastReported(run)
  {
    if Reports(run, step) {
      ReportDecides(run, step, visible, floor);
    } else {
      SilenceKeepsCapture(run, step);
    }
  }

  /**
    The pair kept for persisting is the last reported one if and only if the summarizer call that reported it
    streamed some text: a call that streamed none has no node, so an older pair stays.
   */
  lemma {:induction false} CapturedIsLastReported(start: Run, steps: seq<Step>, visible: seq<int>, floor: int)
    requires IsStart(start) && RunInv(start, visible, floor)
    ensures HoldsLastReported(RunSteps(start, steps)) <==> LastReportStreamed(start, steps)
  {
    if steps != [] {
      var n := |steps| - 1;
      CapturedIsLastReported(start, steps[..n], visible, floor);
      RunKeepsInv(start, steps[..n], visible, floor);
      StepDecides(RunSteps(start, steps[..n]), steps[n], visible, floor);
    }
  }

  /** A step that adds nothing to the lost rows, and captures no summary that lost more. */
  ghost predicate LosesNothing(run: Run, next: Run) {
    Lost(next.msgs) <= Lost(run.msgs)
    && (next.captured == run.captured || (next.captured.Some? && next.captured.value.lost <= Lost(run.msgs)))
  }

  lemma CompactStepLoses(run: Run, step: Step)
    requires WellPaired(run.msgs) && run.node.AtCompact? && step.CompactStep? && step.call.Summarized?
    ensures LosesNothing(run, Advance(run, step))
  {
    CompactionPreserves(run.msgs, step.total, step.threshold, step.budget, step.call);
    match Compact(run.msgs, step.total, step.threshold, step.budget, step.call)
    case Unchanged =>
    case Folded(kept, _) =>
      assert Lost(kept) == kept[0].lost + Lost(kept[1..]);
  }

  /** What a step may lose: only a failed summarizer adds to the lost rows. */
  lemma StepLoses(run: Run, step: Step)
    requires Paired(run)
    requires step.CompactStep? ==> step.call.Summarized?
    ensures LosesNothing(run, Advance(run, step))
  {
    match (run.node, step)
    case (AtCompact, CompactStep(_, _, _, _, _)) => CompactStepLoses(run, step);
    case (AtAgent, ModelReply(_, _, _)) =>
      var m := ReplyMessage(step);
      RowsConcat(run.msgs, [m]);
      assert Lost([m]) == m.lost + Lost([m][1..]);
    case (AtTools, ToolResults(sizes)) =>
      if run.msgs != [] && |sizes| == |Calls(run.msgs[|run.msgs| - 1])| {
        var results := ResultMessages(Calls(run.msgs[|run.msgs| - 1]), sizes);
        RowsConcat(run.msgs, results);
        LostOfScratch(results);
      }
    case _ =>
  }

  lemma {:induction false} LostOfScratch(msgs: seq<Message>)
    requires forall i | 0 <= i < |msgs| :: msgs[i].lost == {}
    ensures Lost(msgs) == {}
  {
    if msgs != [] {
      LostOfScratch(msgs[1..]);
    }
  }
}
