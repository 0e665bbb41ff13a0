/** A run of the agent graph beside the events it streams, and what the API's recorder keeps of its compactions. */
module RunCapture {
  import opened Prelude
  import opened Decimal
  import opened RunEvents
  import opened TraceRecorder
  import opened SummaryCapture
  import opened AgentGraph
  import Summarization

  /**
    One thing that happens while a run goes on: the compaction node is done, with the run id of its summarizer call;
    another node is done; or an event arrives, of the summarizer's own stream or of anything that runs beside it.
   */
  datatype Item =
    | Compacts(total: nat, threshold: int, budget: int, call: Summarization.Summarizer,
               rid: string, parents: seq<string>, usage: Usage)
    | Does(step: Step)
    | Sees(e: Event)

  /** The graph steps taken and the events streamed so far. */
  datatype Course = Course(steps: seq<Step>, events: seq<Event>)

  /** The step of a compaction node: whether it streamed is read off the events so far. */
  function CompactionStep(events: seq<Event>, item: Item): Step
    requires item.Compacts?
  {
    CompactStep(item.total, item.threshold, item.budget, item.call, Chunks(events, item.rid, Compaction) != "")
  }

  /** A summarizer call that answers ends with an event carrying the id it was given; one that fails does not. */
  function EndEvents(run: Run, item: Item): seq<Event>
    requires item.Compacts?
  {
    if !run.node.AtCompact? || item.call.Failed? then []
    else
      match Summarization.Compact(run.msgs, item.total, item.threshold, item.budget, item.call)
      case Unchanged => []
      case Folded(_, through) => [ModelEnd(item.rid, item.parents, true, through, item.usage)]
  }

  /** The end of a summarizer call that names a row: the compaction nodes alone emit these. */
  predicate EndsNamed(e: Event) {
    e.ModelEnd? && e.summarization && NamedRow(e.through).Some?
  }

  function Happen(start: Run, c: Course, item: Item): Course {
    match item
    case Compacts(_, _, _, _, _, _, _) =>
      Course(c.steps + [CompactionStep(c.events, item)], c.events + EndEvents(RunSteps(start, c.steps), item))
    case Does(step) => if step.CompactStep? then c else c.(steps := c.steps + [step])
    case Sees(e) => if EndsNamed(e) then c else c.(events := c.events + [e])
  }

  function CourseOf(start: Run, items: seq<Item>): Course {
    if items == [] then Course([], []) else Happen(start, CourseOf(start, items[..|items| - 1]), items[|items| - 1])
  }

  /** The row id the recorder holds for storing. */
  function RecordedRow(es: seq<Event>): Option<nat> {
    RecordedPair(es).1
  }

  function CapturedRow(run: Run): Option<int> {
    if run.captured.Some? then Some(run.captured.value.through) else None
  }

  function LastReported(run: Run): Option<int> {
    if run.reported == [] then None else Some(run.reported[|run.reported| - 1])
  }

  lemma StepsSnoc(start: Run, steps: seq<Step>, step: Step)
    ensures RunSteps(start, steps + [step]) == Advance(RunSteps(start, steps), step)
  {
    assert (steps + [step])[..|steps|] == steps;
  }

  lemma OtherStepsCaptureNothing(run: Run, step: Step)
    requires !step.CompactStep?
    ensures Advance(run, step).captured == run.captured
  {
  }

  /** What a compaction step captures, told by the event that ends its summarizer call. */
  lemma CaptureFollowsEnd(run: Run, events: seq<Event>, item: Item)
    requires item.Compacts?
    ensures var ends, streamed := EndEvents(run, item), Chunks(events, item.rid, Compaction) != "";
            CapturedRow(Advance(run, CompactionStep(events, item)))
              == if ends != [] && NamedRow(ends[0].through).Some? && streamed then NamedRow(ends[0].through)
                 else CapturedRow(run)
  {
  }

  lemma CompactionRecords(run: Run, events: seq<Event>, item: Item)
    requires item.Compacts? && FreshTools(events)
    requires RecordedRow(events) == CapturedRow(run)
    ensures RecordedRow(events + EndEvents(run, item)) == CapturedRow(Advance(run, CompactionStep(events, item)))
  {
    var ends := EndEvents(run, item);
    CaptureFollowsEnd(run, events, item);
    if ends == [] {
      assert events + ends == events;
    } else {
      EventCaptures(events, ends[0]);
      assert ends == [ends[0]];
    }
  }

  lemma SeenRecordsNothing(events: seq<Event>, e: Event)
    requires FreshTools(events) && !EndsNamed(e)
    ensures RecordedRow(events + [e]) == RecordedRow(events)
  {
    EventCaptures(events, e);
  }

  lemma EventsGrow(start: Run, c: Course, item: Item)
    ensures var next := Happen(start, c, item);
            |c.events| <= |next.events| && next.events == c.events + next.events[|c.events|..]
  {
  }

  lemma HappenRecords(start: Run, c: Course, item: Item)
    requires FreshTools(c.events) && RecordedRow(c.events) == CapturedRow(RunSteps(start, c.steps))
    ensures var next := Happen(start, c, item); RecordedRow(next.events) == CapturedRow(RunSteps(start, next.steps))
  {
    match item
    case Compacts(_, _, _, _, _, _, _) =>
      StepsSnoc(start, c.steps, CompactionStep(c.events, item));
      CompactionRecords(RunSteps(start, c.steps), c.events, item);
    case Does(step) =>
      if !step.CompactStep? {
        StepsSnoc(start, c.steps, step);
        OtherStepsCaptureNothing(RunSteps(start, c.steps), step);
      }
    case Sees(e) =>
      if !EndsNamed(e) {
        SeenRecordsNothing(c.events, e);
      }
  }

  /**
    What the recorder holds is what the graph run says was captured: however the run's stream is interleaved with
    other calls', the recorded row is that of the last compaction that reported a row after streaming some text.
   */
  lemma {:induction false} RecordedIsCaptured(start: Run, items: seq<Item>)
    requires start.captured.None? && FreshTools(CourseOf(start, items).events)
    ensures var c := CourseOf(start, items); RecordedRow(c.events) == CapturedRow(RunSteps(start, c.steps))
  {
    if items != [] {
      var c, item := CourseOf(start, items[..|items| - 1]), items[|items| - 1];
      EventsGrow(start, c, item);
      FreshBefore(c.events, Happen(start, c, item).events[|c.events|..]);
      RecordedIsCaptured(start, items[..|items| - 1]);
      HappenRecords(start, c, item);
    }
  }

  /**
    The pair that is stored is the last one reported, if and only if the summarizer call that reported it streamed
    some text before it ended; whether a call streamed is what the events say.
   */
  lemma RecordedIsLastReported(start: Run, items: seq<Item>, visible: seq<int>, floor: int)
    requires IsStart(start) && RunInv(start, visible, floor)
    requires FreshTools(CourseOf(start, items).events)
    ensures var c := CourseOf(start, items);
            RecordedRow(c.events) == LastReported(RunSteps(start, c.steps)) <==> LastReportStreamed(start, c.steps)
  {
    var c := CourseOf(start, items);
    RecordedIsCaptured(start, items);
    CapturedIsLastReported(start, c.steps, visible, floor);
  }
}
