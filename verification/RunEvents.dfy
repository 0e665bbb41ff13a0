/** Run events to log frames (agent/src/events.py, `Translator`). */
module RunEvents {
  import opened Prelude

  datatype NodeType = Text | Reasoning | Tool | Compaction

  /** A node's output: opaque JSON, or the object a finished compaction carries. */
  datatype Output = Opaque(json: string) | Through(id: Option<string>)

  datatype Frame =
    | NodeFrame(id: string, parent: Option<string>, ntype: NodeType, name: string, input: Option<string>)
    | Delta(id: string, text: string)
    | NodeEnd(id: string, output: Output)

  datatype Usage = Usage(input: int, output: int, total: int, reasoning: int)

  /** The graph's events; missing chunk parts are empty strings, `parents` runs from the root inwards. */
  datatype Event =
    | Stream(runId: string, parents: seq<string>, summarization: bool, reasoning: string, content: string)
    | ToolStart(runId: string, parents: seq<string>, name: string, input: string)
    | ToolEnd(runId: string, parents: seq<string>, output: string)
    | ModelEnd(runId: string, parents: seq<string>, summarization: bool, through: Option<string>, usage: Usage)
    | OtherEvent(runId: string, parents: seq<string>)

  const TEXT := ":text"
  const REASONING := ":reasoning"
  const COMPACTION := ":compaction"

  function Suffix(ntype: NodeType): string {
    match ntype
    case Text => TEXT
    case Reasoning => REASONING
    case Compaction => COMPACTION
    case Tool => ""
  }

  /*** Specification ***/

  datatype State = State(open: set<string>, started: set<string>, usage: Usage, root: Option<string>)

  const INITIAL := State({}, {}, Usage(0, 0, 0, 0), None)

  /** The nearest enclosing tool that is still open. */
  function NearestOpen(parents: seq<string>, open: set<string>): Option<string> {
    if parents == [] then None
    else if parents[|parents| - 1] in open then Some(parents[|parents| - 1])
    else NearestOpen(parents[..|parents| - 1], open)
  }

  function TextFrames(started: set<string>, id: string, parent: Option<string>, ntype: NodeType, text: string)
    : seq<Frame>
  {
    (if id in started then [] else [NodeFrame(id, parent, ntype, "", None)]) + [Delta(id, text)]
  }

  /** The node and the text one non-empty chunk part contributes; an empty part contributes nothing. */
  function PartFrames(st: State, e: Event, ntype: NodeType, text: string): seq<Frame> {
    if text == "" then []
    else TextFrames(st.started, e.runId + Suffix(ntype), NearestOpen(e.parents, st.open), ntype, text)
  }

  function PartState(st: State, e: Event, ntype: NodeType, text: string): State {
    if text == "" then st else st.(started := st.started + {e.runId + Suffix(ntype)})
  }

  function SeenRoot(st: State, e: Event): State {
    if st.root.None? && e.parents == [] then st.(root := Some(e.runId)) else st
  }

  function AddUsage(a: Usage, b: Usage): Usage {
    Usage(a.input + b.input, a.output + b.output, a.total + b.total, a.reasoning + b.reasoning)
  }

  function FramesOf(st: State, e: Event): seq<Frame> {
    match e
    case Stream(_, _, summarization, reasoning, content) =>
      if summarization then PartFrames(st, e, Compaction, content)
      else PartFrames(st, e, Reasoning, reasoning)
           + PartFrames(PartState(st, e, Reasoning, reasoning), e, Text, content)
    case ToolStart(runId, parents, name, input) =>
      [NodeFrame(runId, NearestOpen(parents, st.open), Tool, name, Some(input))]
    case ToolEnd(runId, _, output) => [NodeEnd(runId, Opaque(output))]
    case ModelEnd(runId, _, summarization, through, _) =>
      if summarization then [NodeEnd(runId + COMPACTION, Through(through))] else []
    case OtherEvent(_, _) => []
  }

  function Next(before: State, e: Event): State {
    var st := SeenRoot(before, e);
    match e
    case Stream(_, _, summarization, reasoning, content) =>
      if summarization then PartState(st, e, Compaction, content)
      else PartState(PartState(st, e, Reasoning, reasoning), e, Text, content)
    case ToolStart(runId, _, _, _) => st.(open := st.open + {runId}, started := st.started + {runId})
    case ToolEnd(runId, _, _) => st.(open := st.open - {runId})
    case ModelEnd(_, _, _, _, usage) => st.(usage := AddUsage(st.usage, usage))
    case OtherEvent(_, _) => st
  }

  function StateAfter(es: seq<Event>): State {
    if es == [] then INITIAL else Next(StateAfter(es[..|es| - 1]), es[|es| - 1])
  }

  /** The whole log of a run. */
  function FramesAfter(es: seq<Event>): seq<Frame> {
    if es == [] then []
    else FramesAfter(es[..|es| - 1]) + FramesOf(StateAfter(es[..|es| - 1]), es[|es| - 1])
  }

  /*** The class ***/

  class Translator {
    var openTools: set<string>
    var started: set<string>
    var input: int
    var output: int
    var total: int
    var reasoning: int
    var rootRunId: Option<string>

    ghost function View(): State
      reads this
    {
      State(openTools, started, Usage(input, output, total, reasoning), rootRunId)
    }

    constructor ()
      ensures View() == INITIAL
    {
      openTools, started := {}, {};
      input, output, total, reasoning := 0, 0, 0, 0;
      rootRunId := None;
    }

    method Handle(e: Event) returns (frames: seq<Frame>)
      modifies this
      ensures View() == Next(old(View()), e)
      ensures frames == FramesOf(old(View()), e)
    {
      if rootRunId.None? && e.parents == [] {
        rootRunId := Some(e.runId);
      }
      match e
      case Stream(_, _, _, _, _) =>
        frames := OnStream(e);
      case ToolStart(_, _, _, _) =>
        frames := OnToolStart(e);
      case ToolEnd(runId, _, result) =>
        openTools := openTools - {runId};
        frames := [NodeEnd(runId, Opaque(result))];
      case ModelEnd(runId, _, summarization, through, usage) =>
        input, output := input + usage.input, output + usage.output;
        total, reasoning := total + usage.total, reasoning + usage.reasoning;
        frames := if summarization then [NodeEnd(runId + COMPACTION, Through(through))] else [];
      case OtherEvent(_, _) =>
        frames := [];
    }

    method ParentId(parents: seq<string>) returns (parent: Option<string>)
      ensures parent == NearestOpen(parents, openTools)
    {
      var k := |parents|;
      assert parents[..k] == parents;
      while k > 0
        invariant 0 <= k <= |parents|
        invariant NearestOpen(parents[..k], openTools) == NearestOpen(parents, openTools)
      {
        k := k - 1;
        assert parents[..k + 1][..k] == parents[..k];
        if parents[k] in openTools {
          return Some(parents[k]);
        }
      }
      return None;
    }

    method AddText(id: string, parent: Option<string>, ntype: NodeType, text: string) returns (frames: seq<Frame>)
      modifies this`started
      ensures started == old(started) + {id}
      ensures frames == TextFrames(old(started), id, parent, ntype, text)
    {
      if id !in started {
        started := started + {id};
        return [NodeFrame(id, parent, ntype, "", None), Delta(id, text)];
      }
      return [Delta(id, text)];
    }

    method OnStream(e: Event) returns (frames: seq<Frame>)
      requires e.Stream?
      modifies this`started
      ensures View() == (if e.summarization then PartState(old(View()), e, Compaction, e.content)
                         else PartState(PartState(old(View()), e, Reasoning, e.reasoning), e, Text, e.content))
      ensures frames == FramesOf(old(View()), e)
    {
      var parent := ParentId(e.parents);
      frames := [];
      if e.summarization {
        if e.content != "" {
          frames := AddText(e.runId + COMPACTION, parent, Compaction, e.content);
        }
        return;
      }
      if e.reasoning != "" {
        frames := AddText(e.runId + REASONING, parent, Reasoning, e.reasoning);
      }
      if e.content != "" {
        var more := AddText(e.runId + TEXT, parent, Text, e.content);
        frames := frames + more;
      }
    }

    method OnToolStart(e: Event) returns (frames: seq<Frame>)
      requires e.ToolStart?
      modifies this`openTools, this`started
      ensures View() == old(View()).(open := old(openTools) + {e.runId}, started := old(started) + {e.runId})
      ensures frames == FramesOf(old(View()), e)
    {
      var parent := ParentId(e.parents);
      openTools := openTools + {e.runId};
      started := started + {e.runId};
      frames := [NodeFrame(e.runId, parent, Tool, e.name, Some(e.input))];
    }
  }

  /** One run through a fresh translator, frame by frame. */
  method TranslateRun(es: seq<Event>) returns (frames: seq<Frame>)
    ensures frames == FramesAfter(es)
  {
    var tr := new Translator();
    frames := [];
    for i := 0 to |es|
      invariant tr.View() == StateAfter(es[..i])
      invariant frames == FramesAfter(es[..i])
    {
      assert es[..i + 1][..i] == es[..i];
      var out := tr.Handle(es[i]);
      frames := frames + out;
    }
    assert es[..|es|] == es;
  }

  /*** Shape of the log ***/

  /** The announced nodes, in log order. */
  function Nodes(fs: seq<Frame>): (nodes: seq<Frame>)
    ensures forall i | 0 <= i < |nodes| :: nodes[i].NodeFrame?
  {
    if fs == [] then []
    else Nodes(fs[..|fs| - 1]) + if fs[|fs| - 1].NodeFrame? then [fs[|fs| - 1]] else []
  }

  function Ids(fs: seq<Frame>): set<string> {
    set i | 0 <= i < |Nodes(fs)| :: Nodes(fs)[i].id
  }

  ghost predicate DistinctIds(fs: seq<Frame>) {
    forall i, j | 0 <= i < j < |Nodes(fs)| :: Nodes(fs)[i].id != Nodes(fs)[j].id
  }

  /** Every node's parent was announced before it. */
  ghost predicate ParentsFirst(fs: seq<Frame>) {
    forall i | 0 <= i < |Nodes(fs)| && Nodes(fs)[i].parent.Some? ::
      exists j | 0 <= j < i :: Nodes(fs)[j].id == Nodes(fs)[i].parent.value
  }

  /** Every piece of text is non-empty and belongs to a node announced before it. */
  ghost predicate DeltasAnnounced(fs: seq<Frame>) {
    forall k | 0 <= k < |fs| && fs[k].Delta? :: fs[k].text != "" && fs[k].id in Ids(fs[..k])
  }

  ghost predicate WellFormedLog(fs: seq<Frame>) {
    DistinctIds(fs) && ParentsFirst(fs) && DeltasAnnounced(fs)
  }

  /** Tool run ids are fresh and cannot be mistaken for a suffixed id. */
  ghost predicate FreshTools(es: seq<Event>) {
    forall i | 0 <= i < |es| && es[i].ToolStart? ::
      ':' !in es[i].runId && forall j | 0 <= j < i && es[j].ToolStart? :: es[j].runId != es[i].runId
  }

  /** One frame fits a well-formed log. */
  predicate Fits(ids: set<string>, f: Frame) {
    match f
    case NodeFrame(id, parent, _, _, _) => id !in ids && (parent.Some? ==> parent.value in ids)
    case Delta(id, text) => text != "" && id in ids
    case NodeEnd(_, _) => true
  }

  lemma AppendFits(fs: seq<Frame>, f: Frame)
    requires WellFormedLog(fs) && Fits(Ids(fs), f)
    ensures WellFormedLog(fs + [f])
    ensures Ids(fs + [f]) == Ids(fs) + if f.NodeFrame? then {f.id} else {}
  {
    IdsAppend(fs, f);
    assert DistinctIds(fs + [f]) by {
      assert forall i | 0 <= i < |Nodes(fs)| :: Nodes(fs)[i].id in Ids(fs);
    }
    ParentsAppend(fs, f);
    AnnouncedAppend(fs, f);
  }

  lemma ParentsAppend(fs: seq<Frame>, f: Frame)
    requires ParentsFirst(fs) && Fits(Ids(fs), f)
    ensures ParentsFirst(fs + [f])
  {
    IdsAppend(fs, f);
    var old_, new_ := Nodes(fs), Nodes(fs + [f]);
    forall i | 0 <= i < |new_| && new_[i].parent.Some?
      ensures exists j | 0 <= j < i :: new_[j].id == new_[i].parent.value
    {
      if i < |old_| {
        var j :| 0 <= j < i && old_[j].id == old_[i].parent.value;
        assert new_[j] == old_[j];
      } else {
        var j :| 0 <= j < |old_| && old_[j].id == f.parent.value;
        assert new_[j] == old_[j];
      }
    }
  }

  lemma AnnouncedAppend(fs: seq<Frame>, f: Frame)
    requires DeltasAnnounced(fs) && Fits(Ids(fs), f)
    ensures DeltasAnnounced(fs + [f])
  {
    var more := fs + [f];
    assert more[..|fs|] == fs;
    forall k | 0 <= k < |more| && more[k].Delta? ensures more[k].text != "" && more[k].id in Ids(more[..k]) {
      if k < |fs| {
        assert more[..k] == fs[..k] && more[k] == fs[k];
      }
    }
  }

  lemma IdsAppend(fs: seq<Frame>, f: Frame)
    ensures Nodes(fs + [f]) == Nodes(fs) + if f.NodeFrame? then [f] else []
    ensures Ids(fs + [f]) == Ids(fs) + if f.NodeFrame? then {f.id} else {}
  {
    assert (fs + [f])[..|fs|] == fs;
    var a, b := Nodes(fs), Nodes(fs + [f]);
    forall x ensures x in Ids(fs + [f]) <==> x in Ids(fs) + if f.NodeFrame? then {f.id} else {} {
      if x in Ids(fs) {
        var i :| 0 <= i < |a| && a[i].id == x;
        assert b[i].id == x;
      }
      if f.NodeFrame? && x == f.id {
        assert b[|a|].id == x;
      }
    }
  }

  lemma {:induction false} NearestOpenIsOpen(parents: seq<string>, open: set<string>)
    ensures NearestOpen(parents, open).Some? ==>
      NearestOpen(parents, open).value in open && NearestOpen(parents, open).value in parents
    ensures NearestOpen(parents, open).None? ==> forall p | p in parents :: p !in open
  {
    if parents != [] && parents[|parents| - 1] !in open {
      NearestOpenIsOpen(parents[..|parents| - 1], open);
      assert parents == parents[..|parents| - 1] + [parents[|parents| - 1]];
    }
  }

  /** The log agrees with the translator's state. */
  ghost predicate InStep(fs: seq<Frame>, st: State) {
    WellFormedLog(fs) && Ids(fs) == st.started && st.open <= st.started
  }

  lemma FirstTextFits(fs: seq<Frame>, node: Frame, delta: Frame)
    requires WellFormedLog(fs) && node.NodeFrame? && Fits(Ids(fs), node)
    requires delta.Delta? && delta.id == node.id && delta.text != ""
    ensures WellFormedLog(fs + [node] + [delta])
    ensures Ids(fs + [node] + [delta]) == Ids(fs) + {node.id}
  {
    AppendFits(fs, node);
    AppendFits(fs + [node], delta);
  }

  lemma TextKeepsStep(fs: seq<Frame>, st: State, id: string, parent: Option<string>, ntype: NodeType, text: string)
    requires InStep(fs, st) && text != "" && (parent.Some? ==> parent.value in st.started)
    ensures InStep(fs + TextFrames(st.started, id, parent, ntype, text), st.(started := st.started + {id}))
  {
    var node, delta := NodeFrame(id, parent, ntype, "", None), Delta(id, text);
    if id in st.started {
      assert TextFrames(st.started, id, parent, ntype, text) == [delta];
      LaterTextKeepsStep(fs, st, delta);
    } else {
      assert TextFrames(st.started, id, parent, ntype, text) == [node] + [delta];
      FirstTextKeepsStep(fs, st, node, delta);
    }
  }

  lemma LaterTextKeepsStep(fs: seq<Frame>, st: State, delta: Frame)
    requires InStep(fs, st) && delta.Delta? && delta.text != "" && delta.id in st.started
    ensures InStep(fs + [delta], st.(started := st.started + {delta.id}))
  {
    AppendFits(fs, delta);
    assert st.started + {delta.id} == st.started;
  }

  lemma FirstTextKeepsStep(fs: seq<Frame>, st: State, node: Frame, delta: Frame)
    requires InStep(fs, st) && node.NodeFrame? && delta.Delta? && delta.text != "" && delta.id == node.id
    requires node.id !in st.started && (node.parent.Some? ==> node.parent.value in st.started)
    ensures InStep(fs + ([node] + [delta]), st.(started := st.started + {node.id}))
  {
    FirstTextFits(fs, node, delta);
    Associative(fs, [node], [delta]);
  }

  lemma PartKeepsStep(fs: seq<Frame>, st: State, e: Event, ntype: NodeType, text: string)
    requires InStep(fs, st)
    ensures InStep(fs + PartFrames(st, e, ntype, text), PartState(st, e, ntype, text))
  {
    if text == "" {
      assert fs + [] == fs;
    } else {
      NearestOpenIsOpen(e.parents, st.open);
      TextKeepsStep(fs, st, e.runId + Suffix(ntype), NearestOpen(e.parents, st.open), ntype, text);
    }
  }

  lemma TwoPartsKeepStep(fs: seq<Frame>, st: State, e: Event)
    requires InStep(fs, st) && e.Stream?
    ensures var first, mid := PartFrames(st, e, Reasoning, e.reasoning), PartState(st, e, Reasoning, e.reasoning);
            InStep(fs + (first + PartFrames(mid, e, Text, e.content)), PartState(mid, e, Text, e.content))
  {
    var first, mid := PartFrames(st, e, Reasoning, e.reasoning), PartState(st, e, Reasoning, e.reasoning);
    var second := PartFrames(mid, e, Text, e.content);
    PartKeepsStep(fs, st, e, Reasoning, e.reasoning);
    PartKeepsStep(fs + first, mid, e, Text, e.content);
    assert fs + (first + second) == fs + first + second;
  }

  lemma EventKeepsStep(fs: seq<Frame>, st: State, e: Event)
    requires InStep(fs, st)
    requires e.ToolStart? ==> e.runId !in st.started
    ensures InStep(fs + FramesOf(st, e), Next(st, e))
  {
    var seen := SeenRoot(st, e);
    assert FramesOf(st, e) == FramesOf(seen, e);
    match e
    case Stream(_, _, summarization, reasoning, content) =>
      if summarization {
        PartKeepsStep(fs, seen, e, Compaction, content);
      } else {
        TwoPartsKeepStep(fs, seen, e);
      }
    case ToolStart(_, parents, _, _) =>
      NearestOpenIsOpen(parents, st.open);
      AppendFits(fs, FramesOf(st, e)[0]);
    case ToolEnd(runId, _, output) => AppendFits(fs, NodeEnd(runId, Opaque(output)));
    case ModelEnd(runId, _, summarization, through, _) =>
      if summarization {
        AppendFits(fs, NodeEnd(runId + COMPACTION, Through(through)));
      } else {
        assert fs + [] == fs;
      }
    case OtherEvent(_, _) => assert fs + [] == fs;
  }

  /** An id is in use only as a suffixed id or as a tool already started. */
  ghost predicate StartedKnown(es: seq<Event>, st: State) {
    forall x | x in st.started && ':' !in x :: exists i | 0 <= i < |es| :: es[i].ToolStart? && es[i].runId == x
  }

  lemma SuffixedHasColon(rid: string, ntype: NodeType)
    requires !ntype.Tool?
    ensures ':' in rid + Suffix(ntype)
  {
    assert (rid + Suffix(ntype))[|rid|] == ':';
  }

  lemma NextKeepsKnown(before: seq<Event>, e: Event)
    requires StartedKnown(before, StateAfter(before))
    ensures StartedKnown(before + [e], StateAfter(before + [e]))
  {
    var es := before + [e];
    assert es[..|before|] == before;
    SuffixedHasColon(e.runId, Text);
    SuffixedHasColon(e.runId, Reasoning);
    SuffixedHasColon(e.runId, Compaction);
    forall x | x in StateAfter(es).started && ':' !in x
      ensures exists i | 0 <= i < |es| :: es[i].ToolStart? && es[i].runId == x
    {
      if x in StateAfter(before).started {
        var i :| 0 <= i < |before| && before[i].ToolStart? && before[i].runId == x;
        assert es[i] == before[i];
      } else {
        assert es[|before|] == e && e.ToolStart? && e.runId == x;
      }
    }
  }

  /**
    Every log the translator emits is well formed: ids are distinct, parents come before children, and text
    only ever belongs to an announced node.
   */
  lemma {:induction false} LogIsWellFormed(es: seq<Event>)
    requires FreshTools(es)
    ensures InStep(FramesAfter(es), StateAfter(es))
    ensures StartedKnown(es, StateAfter(es))
  {
    if es != [] {
      var before, e := es[..|es| - 1], es[|es| - 1];
      assert forall i | 0 <= i < |before| :: before[i] == es[i];
      LogIsWellFormed(before);
      assert es == before + [e];
      assert e.ToolStart? ==> e.runId !in StateAfter(before).started;
      EventKeepsStep(FramesAfter(before), StateAfter(before), e);
      NextKeepsKnown(before, e);
    }
  }

  /*** Text of a node ***/

  /** All text sent for one id, in order. */
  function DeltaText(fs: seq<Frame>, id: string): string {
    if fs == [] then ""
    else DeltaText(fs[..|fs| - 1], id)
         + if fs[|fs| - 1].Delta? && fs[|fs| - 1].id == id then fs[|fs| - 1].text else ""
  }

  /** What one event says for a run's node of the given kind. */
  function Chunk(e: Event, rid: string, ntype: NodeType): string {
    if !e.Stream? || e.runId != rid then ""
    else match ntype
      case Text => if e.summarization then "" else e.content
      case Reasoning => if e.summarization then "" else e.reasoning
      case Compaction => if e.summarization then e.content else ""
      case Tool => ""
  }

  /** A run's own chunks of one kind, concatenated in order, whatever other runs did in between. */
  function Chunks(es: seq<Event>, rid: string, ntype: NodeType): string {
    if es == [] then "" else Chunks(es[..|es| - 1], rid, ntype) + Chunk(es[|es| - 1], rid, ntype)
  }

  lemma DeltaTextSnoc(fs: seq<Frame>, f: Frame, id: string)
    ensures DeltaText(fs + [f], id) == DeltaText(fs, id) + if f.Delta? && f.id == id then f.text else ""
  {
    assert (fs + [f])[..|fs|] == fs;
  }

  lemma {:induction false} DeltaTextConcat(a: seq<Frame>, b: seq<Frame>, id: string)
    ensures DeltaText(a + b, id) == DeltaText(a, id) + DeltaText(b, id)
  {
    if b == [] {
      assert a + b == a;
    } else {
      var front, f := b[..|b| - 1], b[|b| - 1];
      assert b == front + [f];
      DeltaTextConcat(a, front, id);
      DeltaTextMore(a, front, f, id);
    }
  }

  lemma DeltaTextMore(a: seq<Frame>, b: seq<Frame>, f: Frame, id: string)
    requires DeltaText(a + b, id) == DeltaText(a, id) + DeltaText(b, id)
    ensures DeltaText(a + (b + [f]), id) == DeltaText(a, id) + DeltaText(b + [f], id)
  {
    DeltaTextSnoc(a + b, f, id);
    DeltaTextSnoc(b, f, id);
    Associative(a, b, [f]);
    Associative(DeltaText(a, id), DeltaText(b, id), if f.Delta? && f.id == id then f.text else "");
  }

  lemma SuffixedIdsDiffer(a: string, s: NodeType, b: string, t: NodeType)
    requires !s.Tool? && !t.Tool?
    requires a + Suffix(s) == b + Suffix(t)
    ensures a == b && s == t
  {
    var x, y := a + Suffix(s), b + Suffix(t);
    assert x[|x| - 1] == Suffix(s)[|Suffix(s)| - 1] && y[|y| - 1] == Suffix(t)[|Suffix(t)| - 1];
    assert x[|x| - 2] == Suffix(s)[|Suffix(s)| - 2] && y[|y| - 2] == Suffix(t)[|Suffix(t)| - 2];
    assert x[|x| - 3] == Suffix(s)[|Suffix(s)| - 3] && y[|y| - 3] == Suffix(t)[|Suffix(t)| - 3];
    assert x[|x| - 4] == Suffix(s)[|Suffix(s)| - 4] && y[|y| - 4] == Suffix(t)[|Suffix(t)| - 4];
    assert s == t;
    assert x[..|a|] == a && y[..|b|] == b;
  }

  lemma {:induction false} NoText(fs: seq<Frame>, id: string)
    requires forall k | 0 <= k < |fs| :: !fs[k].Delta?
    ensures DeltaText(fs, id) == ""
  {
    if fs != [] {
      NoText(fs[..|fs| - 1], id);
    }
  }

  lemma DeltaTextOne(f: Frame, id: string)
    ensures DeltaText([f], id) == if f.Delta? && f.id == id then f.text else ""
  {
    assert [f][..0] == [];
  }

  lemma TextFramesText(started: set<string>, id: string, parent: Option<string>, ntype: NodeType, text: string,
                       wanted: string)
    ensures DeltaText(TextFrames(started, id, parent, ntype, text), wanted) == if id == wanted then text else ""
  {
    var node, delta := NodeFrame(id, parent, ntype, "", None), Delta(id, text);
    DeltaTextOne(node, wanted);
    DeltaTextOne(delta, wanted);
    assert "" + text == text;
    if id in started {
      assert TextFrames(started, id, parent, ntype, text) == [delta];
    } else {
      assert TextFrames(started, id, parent, ntype, text) == [node] + [delta];
      DeltaTextConcat([node], [delta], wanted);
    }
  }

  lemma PartText(st: State, e: Event, part: NodeType, text: string, rid: string, ntype: NodeType)
    requires !part.Tool? && !ntype.Tool?
    ensures DeltaText(PartFrames(st, e, part, text), rid + Suffix(ntype))
         == if e.runId == rid && part == ntype then text else ""
  {
    var id, wanted := e.runId + Suffix(part), rid + Suffix(ntype);
    if id == wanted {
      SuffixedIdsDiffer(e.runId, part, rid, ntype);
    }
    assert id == wanted <==> e.runId == rid && part == ntype;
    if text != "" {
      TextFramesText(st.started, id, NearestOpen(e.parents, st.open), part, text, wanted);
    }
  }

  lemma EventText(st: State, e: Event, rid: string, ntype: NodeType)
    requires !ntype.Tool?
    ensures DeltaText(FramesOf(st, e), rid + Suffix(ntype)) == Chunk(e, rid, ntype)
  {
    var id := rid + Suffix(ntype);
    match e
    case Stream(_, _, summarization, reasoning, content) =>
      if summarization {
        PartText(st, e, Compaction, content, rid, ntype);
      } else {
        var mid := PartState(st, e, Reasoning, reasoning);
        PartText(st, e, Reasoning, reasoning, rid, ntype);
        PartText(mid, e, Text, content, rid, ntype);
        DeltaTextConcat(PartFrames(st, e, Reasoning, reasoning), PartFrames(mid, e, Text, content), id);
      }
    case _ =>
      NoText(FramesOf(st, e), id);
  }

  /**
    Interleaving insensitivity of texts: however runs interleave, the text sent for a run's node is the in-order
    concatenation of that run's own chunks.
   */
  lemma {:induction false} NodeTextIsOwnChunks(es: seq<Event>, rid: string, ntype: NodeType)
    requires !ntype.Tool?
    ensures DeltaText(FramesAfter(es), rid + Suffix(ntype)) == Chunks(es, rid, ntype)
  {
    if es != [] {
      var before := es[..|es| - 1];
      NodeTextIsOwnChunks(before, rid, ntype);
      EventText(StateAfter(before), es[|es| - 1], rid, ntype);
      DeltaTextConcat(FramesAfter(before), FramesOf(StateAfter(before), es[|es| - 1]), rid + Suffix(ntype));
    }
  }

  /*** Totals of a run ***/

  datatype Counter = Input | Output | Sum | ReasoningTokens

  function Reading(u: Usage, c: Counter): int {
    match c
    case Input => u.input
    case Output => u.output
    case Sum => u.total
    case ReasoningTokens => u.reasoning
  }

  /** One of the counters, over all finished model calls. */
  function Total(es: seq<Event>, c: Counter): int {
    if es == [] then 0
    else
      var e := es[|es| - 1];
      Total(es[..|es| - 1], c) + if e.ModelEnd? then Reading(e.usage, c) else 0
  }

  /** What the translator counts is what all model calls used together. */
  lemma {:induction false} CountsAreTotals(es: seq<Event>, c: Counter)
    ensures Reading(StateAfter(es).usage, c) == Total(es, c)
  {
    if es != [] {
      CountsAreTotals(es[..|es| - 1], c);
      PartsKeepUsage(StateAfter(es[..|es| - 1]), es[|es| - 1]);
    }
  }

  lemma PartsKeepUsage(st: State, e: Event)
    ensures Next(st, e).usage == if e.ModelEnd? then AddUsage(st.usage, e.usage) else st.usage
    ensures Next(st, e).root == SeenRoot(st, e).root
  {
  }

  /** `r` is the run of the first event without enclosing runs. */
  ghost predicate IsRoot(es: seq<Event>, root: Option<string>) {
    match root
    case None => forall i | 0 <= i < |es| :: es[i].parents != []
    case Some(r) => exists i | 0 <= i < |es| ::
      es[i].runId == r && es[i].parents == [] && forall j | 0 <= j < i :: es[j].parents != []
  }

  /** The root run is that of the first event without enclosing runs. */
  lemma {:induction false} RootIsFirst(es: seq<Event>)
    ensures IsRoot(es, StateAfter(es).root)
  {
    if es != [] {
      var before, e := es[..|es| - 1], es[|es| - 1];
      RootIsFirst(before);
      PartsKeepUsage(StateAfter(before), e);
      RootNext(before, e, StateAfter(before));
      assert es == before + [e];
    }
  }

  lemma RootNext(es: seq<Event>, e: Event, st: State)
    requires IsRoot(es, st.root)
    ensures IsRoot(es + [e], SeenRoot(st, e).root)
  {
    var more := es + [e];
    assert forall i | 0 <= i < |es| :: more[i] == es[i];
    if st.root.None? && e.parents == [] {
      assert more[|es|] == e;
    }
  }
}
