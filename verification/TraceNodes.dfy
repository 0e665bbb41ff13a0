/**
  What a run's trace holds, told by the run's events alone: which nodes, in which order, under which parents, with which
  names, inputs, outputs and texts (agent/src/events.py through the recorder of api/chat.go).
 */
module TraceNodes {
  import opened Prelude
  import opened RunEvents
  import opened TraceRecorder
  import opened LiveNodes
  import opened SummaryCapture

  /*** Reference ***/

  /** `p` was started as a tool and has not ended since. */
  ghost predicate IsOpen(es: seq<Event>, p: string) {
    exists s | 0 <= s < |es| :: OpenSince(es, p, s)
  }

  ghost predicate OpenSince(es: seq<Event>, p: string, s: nat)
    requires s < |es|
  {
    es[s].ToolStart? && es[s].runId == p && forall k | s < k < |es| && es[k].ToolEnd? :: es[k].runId != p
  }

  /** The parent is the innermost of the enclosing runs that is an open tool, if one is. */
  ghost predicate IsEnclosing(es: seq<Event>, parents: seq<string>, parent: Option<string>) {
    match parent
    case None => forall k | 0 <= k < |parents| :: !IsOpen(es, parents[k])
    case Some(p) =>
      exists k | 0 <= k < |parents| ::
        parents[k] == p && IsOpen(es, p) && forall m | k < m < |parents| :: !IsOpen(es, parents[m])
  }

  /** What an event says of the output of a node. */
  function OutputIn(e: Event, id: string): Option<Output> {
    match e
    case ToolEnd(runId, _, output) => if runId == id then Some(Opaque(output)) else None
    case ModelEnd(runId, _, summarization, through, _) =>
      if summarization && runId + COMPACTION == id then Some(Through(through)) else None
    case _ => None
  }

  /** What was said last of it after event `i`. */
  function LastOutput(es: seq<Event>, i: nat, id: string): Option<Output> {
    if |es| <= i + 1 then None
    else
      var n := |es| - 1;
      if OutputIn(es[n], id).Some? then OutputIn(es[n], id) else LastOutput(es[..n], i, id)
  }

  /** Event `i` is a tool's start, or the first to say something of this kind for its run. */
  predicate Announces(es: seq<Event>, i: nat, ntype: NodeType)
    requires i < |es|
  {
    if ntype.Tool? then es[i].ToolStart?
    else Chunk(es[i], es[i].runId, ntype) != "" && Chunks(es[..i], es[i].runId, ntype) == ""
  }

  /** The node that event `i` announces, after all of `es`. */
  ghost predicate IsNodeOf(es: seq<Event>, i: nat, ntype: NodeType, n: StoredNode)
    requires i < |es|
  {
    && Announces(es, i, ntype)
    && n.id == es[i].runId + Suffix(ntype) && n.ntype == ntype
    && n.name == (if ntype.Tool? then es[i].name else "")
    && n.input == (if ntype.Tool? then Some(es[i].input) else None)
    && IsEnclosing(es[..i], es[i].parents, n.parent)
    && n.output == LastOutput(es, i, n.id)
    && n.text == Chunks(es, es[i].runId, ntype)
  }

  datatype Source = Source(at: nat, ntype: NodeType)

  /** All announcements, in order; a chunk's reasoning comes before its text. */
  function Sources(es: seq<Event>): seq<Source> {
    if es == [] then [] else Sources(es[..|es| - 1]) + NewSources(es, |es| - 1)
  }

  function NewSources(es: seq<Event>, i: nat): seq<Source>
    requires i < |es|
  {
    PartSource(es, i, Tool) + PartSource(es, i, Compaction) + PartSource(es, i, Reasoning) + PartSource(es, i, Text)
  }

  function PartSource(es: seq<Event>, i: nat, ntype: NodeType): seq<Source>
    requires i < |es|
  {
    if Announces(es, i, ntype) then [Source(i, ntype)] else []
  }

  /*** Open tools ***/

  lemma {:induction false} OpenTools(es: seq<Event>, p: string)
    ensures p in StateAfter(es).open <==> IsOpen(es, p)
  {
    if es != [] {
      var n := |es| - 1;
      OpenTools(es[..n], p);
      OpenNext(es[..n], es[n], p);
      assert es == es[..n] + [es[n]];
    }
  }

  lemma OpenNext(es: seq<Event>, e: Event, p: string)
    ensures IsOpen(es + [e], p)
       <==> (e.ToolStart? && e.runId == p) || (IsOpen(es, p) && !(e.ToolEnd? && e.runId == p))
  {
    var more := es + [e];
    if IsOpen(more, p) {
      var s :| 0 <= s < |more| && OpenSince(more, p, s);
      if s < |es| {
        assert OpenSince(es, p, s) by {
          assert forall k | s <= k < |es| :: more[k] == es[k];
        }
        assert more[|es|] == e;
      }
    }
    if IsOpen(es, p) && !(e.ToolEnd? && e.runId == p) {
      var s :| 0 <= s < |es| && OpenSince(es, p, s);
      assert OpenSince(more, p, s) by {
        assert forall k | s <= k < |es| :: more[k] == es[k];
      }
    }
    if e.ToolStart? && e.runId == p {
      assert OpenSince(more, p, |es|);
    }
  }

  /** The translator's parent is the one the events name. */
  lemma {:induction false} NearestIsEnclosing(es: seq<Event>, parents: seq<string>)
    ensures IsEnclosing(es, parents, NearestOpen(parents, StateAfter(es).open))
  {
    if parents != [] {
      var n := |parents| - 1;
      OpenTools(es, parents[n]);
      if !IsOpen(es, parents[n]) {
        NearestIsEnclosing(es, parents[..n]);
        EnclosingFromOuter(es, parents, NearestOpen(parents[..n], StateAfter(es).open));
      }
    }
  }

  lemma EnclosingFromOuter(es: seq<Event>, parents: seq<string>, parent: Option<string>)
    requires parents != [] && !IsOpen(es, parents[|parents| - 1])
    requires IsEnclosing(es, parents[..|parents| - 1], parent)
    ensures IsEnclosing(es, parents, parent)
  {
    var outer := parents[..|parents| - 1];
    if parent.Some? {
      var k :| 0 <= k < |outer| && outer[k] == parent.value && IsOpen(es, parent.value)
                && forall m | k < m < |outer| :: !IsOpen(es, outer[m]);
      assert parents[k] == parent.value;
      forall m | k < m < |parents| ensures !IsOpen(es, parents[m]) {
        if m < |outer| {
          assert parents[m] == outer[m];
        }
      }
    } else {
      forall k | 0 <= k < |parents| ensures !IsOpen(es, parents[k]) {
        if k < |outer| {
          assert parents[k] == outer[k];
        }
      }
    }
  }

  /*** What one event does to the recorded nodes ***/

  /** The text an event sends to a node. */
  function TextIn(e: Event, id: string): string {
    if !e.Stream? then ""
    else if e.summarization then if id == e.runId + COMPACTION then e.content else ""
    else if id == e.runId + REASONING then e.reasoning
    else if id == e.runId + TEXT then e.content
    else ""
  }

  function Touched(n: StoredNode, e: Event): StoredNode {
    var output := OutputIn(e, n.id);
    n.(text := n.text + TextIn(e, n.id), output := if output.Some? then output else n.output)
  }

  function AllTouched(nodes: seq<StoredNode>, e: Event): (touched: seq<StoredNode>)
    ensures |touched| == |nodes| && forall i | 0 <= i < |nodes| :: touched[i] == Touched(nodes[i], e)
  {
    seq(|nodes|, i requires 0 <= i < |nodes| => Touched(nodes[i], e))
  }

  function WithText(nodes: seq<StoredNode>, id: string, text: string): (longer: seq<StoredNode>)
    ensures |longer| == |nodes|
    ensures forall i | 0 <= i < |nodes| ::
              longer[i] == if nodes[i].id == id then nodes[i].(text := nodes[i].text + text) else nodes[i]
  {
    seq(|nodes|, i requires 0 <= i < |nodes| =>
      if nodes[i].id == id then nodes[i].(text := nodes[i].text + text) else nodes[i])
  }

  function WithOutput(nodes: seq<StoredNode>, id: string, output: Output): (ended: seq<StoredNode>)
    ensures |ended| == |nodes|
    ensures forall i | 0 <= i < |nodes| ::
              ended[i] == if nodes[i].id == id then nodes[i].(output := Some(output)) else nodes[i]
  {
    seq(|nodes|, i requires 0 <= i < |nodes| =>
      if nodes[i].id == id then nodes[i].(output := Some(output)) else nodes[i])
  }

  function RecordFrom(log: Log, fs: seq<Frame>): Log
    decreases |fs|
  {
    if fs == [] then log else RecordFrom(Record(log, fs[0]), fs[1..])
  }

  lemma {:induction false} RecordConcat(fs: seq<Frame>, more: seq<Frame>)
    ensures RecordAll(fs + more) == RecordFrom(RecordAll(fs), more)
    decreases |more|
  {
    if more == [] {
      assert fs + more == fs;
    } else {
      RecordConcat(fs + [more[0]], more[1..]);
      FrameInFront(fs, more[0], more[1..]);
      assert [more[0]] + more[1..] == more;
    }
  }

  lemma FrameInFront(fs: seq<Frame>, f: Frame, more: seq<Frame>)
    requires RecordAll(fs + [f] + more) == RecordFrom(RecordAll(fs + [f]), more)
    ensures RecordAll(fs + ([f] + more)) == RecordFrom(RecordAll(fs), [f] + more)
  {
    RecordSnoc(fs, f);
    Associative(fs, [f], more);
    assert ([f] + more)[0] == f && ([f] + more)[1..] == more;
  }

  lemma DeltaTouches(log: Log, id: string, text: string)
    requires DistinctStored(log.nodes)
    ensures Record(log, Delta(id, text)).nodes == WithText(log.nodes, id, text)
  {
    var at := LastIndex(log.nodes, id);
    forall i | 0 <= i < |log.nodes| ensures log.nodes[i].id == id <==> at == Some(i) {
    }
  }

  lemma EndTouches(log: Log, id: string, output: Output)
    requires DistinctStored(log.nodes)
    ensures Record(log, NodeEnd(id, output)).nodes == WithOutput(log.nodes, id, output)
  {
    var at := LastIndex(log.nodes, id);
    forall i | 0 <= i < |log.nodes| ensures log.nodes[i].id == id <==> at == Some(i) {
    }
  }

  /** The ids in use are those of the recorded nodes. */
  ghost predicate StartedIs(nodes: seq<StoredNode>, started: set<string>) {
    forall id: string :: id in started <==> id in NodeIds(nodes)
  }

  /** The node that a part of a chunk announces, with its first text. */
  function NewPart(st: State, e: Event, ntype: NodeType, text: string): seq<StoredNode> {
    var id := e.runId + Suffix(ntype);
    if text == "" || id in st.started then []
    else [StoredNode(id, NearestOpen(e.parents, st.open), ntype, "", None, None, text)]
  }

  lemma NodeAppends(log: Log, id: string, parent: Option<string>, ntype: NodeType, name: string, input: Option<string>)
    requires DistinctStored(log.nodes) && id !in NodeIds(log.nodes)
    ensures var nodes := Record(log, NodeFrame(id, parent, ntype, name, input)).nodes;
            nodes == log.nodes + [StoredNode(id, parent, ntype, name, input, None, "")] && DistinctStored(nodes)
  {
    forall i | 0 <= i < |log.nodes| ensures log.nodes[i].id != id {
      assert NodeIds(log.nodes)[i] == log.nodes[i].id;
    }
  }

  lemma NodeIdsSnoc(nodes: seq<StoredNode>, n: StoredNode)
    ensures NodeIds(nodes + [n]) == NodeIds(nodes) + [n.id]
  {
    var more := nodes + [n];
    assert forall i | 0 <= i < |more| :: NodeIds(more)[i] == more[i].id;
  }

  lemma RecordFromTwo(log: Log, a: Frame, b: Frame)
    ensures RecordFrom(log, [a]) == Record(log, a)
    ensures RecordFrom(log, [a, b]) == Record(Record(log, a), b)
  {
    assert [a][1..] == [] && [a, b][1..] == [b] && [b][1..] == [];
    assert RecordFrom(Record(log, a), [b]) == RecordFrom(Record(Record(log, a), b), []);
  }

  lemma FirstPartTouches(log: Log, st: State, e: Event, ntype: NodeType, text: string)
    requires DistinctStored(log.nodes) && StartedIs(log.nodes, st.started) && text != ""
    requires e.runId + Suffix(ntype) !in st.started
    ensures var id := e.runId + Suffix(ntype);
            var nodes := RecordFrom(log, PartFrames(st, e, ntype, text)).nodes;
            nodes == log.nodes + NewPart(st, e, ntype, text) && DistinctStored(nodes)
            && StartedIs(nodes, st.started + {id})
  {
    var id, parent := e.runId + Suffix(ntype), NearestOpen(e.parents, st.open);
    var node, delta := NodeFrame(id, parent, ntype, "", None), Delta(id, text);
    assert PartFrames(st, e, ntype, text) == [node, delta];
    RecordFromTwo(log, node, delta);
    NodeAppends(log, id, parent, ntype, "", None);
    DeltaTouches(Record(log, node), id, text);
    NodeIdsSnoc(log.nodes, StoredNode(id, parent, ntype, "", None, None, text));
    var mid := Record(log, node).nodes;
    var last := |log.nodes|;
    assert "" + text == text;
    forall i | 0 <= i < |log.nodes| ensures mid[i].id != id {
      assert NodeIds(log.nodes)[i] == log.nodes[i].id;
    }
    assert WithText(mid, id, text) == log.nodes + NewPart(st, e, ntype, text);
  }

  lemma LaterPartTouches(log: Log, st: State, e: Event, ntype: NodeType, text: string)
    requires DistinctStored(log.nodes) && StartedIs(log.nodes, st.started) && text != ""
    requires e.runId + Suffix(ntype) in st.started
    ensures var id := e.runId + Suffix(ntype);
            var nodes := RecordFrom(log, PartFrames(st, e, ntype, text)).nodes;
            nodes == WithText(log.nodes, id, text) && DistinctStored(nodes) && StartedIs(nodes, st.started + {id})
  {
    var id := e.runId + Suffix(ntype);
    assert PartFrames(st, e, ntype, text) == [Delta(id, text)];
    RecordFromTwo(log, Delta(id, text), Delta(id, text));
    DeltaTouches(log, id, text);
    assert NodeIds(WithText(log.nodes, id, text)) == NodeIds(log.nodes);
    assert st.started + {id} == st.started;
  }

  lemma NoTextAdded(nodes: seq<StoredNode>, id: string)
    ensures WithText(nodes, id, "") == nodes
  {
    forall i | 0 <= i < |nodes| ensures WithText(nodes, id, "")[i] == nodes[i] {
      assert nodes[i].text + "" == nodes[i].text;
    }
  }

  /** A part of a chunk adds its text to its node, announcing it first if need be. */
  lemma PartTouches(log: Log, st: State, e: Event, ntype: NodeType, text: string)
    requires DistinctStored(log.nodes) && StartedIs(log.nodes, st.started)
    ensures var nodes := RecordFrom(log, PartFrames(st, e, ntype, text)).nodes;
            && nodes == WithText(log.nodes, e.runId + Suffix(ntype), text) + NewPart(st, e, ntype, text)
            && DistinctStored(nodes) && StartedIs(nodes, PartState(st, e, ntype, text).started)
  {
    var id := e.runId + Suffix(ntype);
    if text == "" {
      NoTextAdded(log.nodes, id);
      assert log.nodes + [] == log.nodes;
    } else if id in st.started {
      LaterPartTouches(log, st, e, ntype, text);
      assert WithText(log.nodes, id, text) + [] == WithText(log.nodes, id, text);
    } else {
      FirstPartTouches(log, st, e, ntype, text);
      forall i | 0 <= i < |log.nodes| ensures log.nodes[i].id != id {
        assert NodeIds(log.nodes)[i] == log.nodes[i].id;
      }
      assert WithText(log.nodes, id, text) == log.nodes;
    }
  }

  /** The nodes that an event announces. */
  function NewNodes(st: State, e: Event): seq<StoredNode> {
    match e
    case Stream(_, _, summarization, reasoning, content) =>
      if summarization then NewPart(st, e, Compaction, content)
      else NewPart(st, e, Reasoning, reasoning) + NewPart(st, e, Text, content)
    case ToolStart(runId, parents, name, input) =>
      [StoredNode(runId, NearestOpen(parents, st.open), Tool, name, Some(input), None, "")]
    case _ => []
  }

  /** The recorder agrees with the translator on which ids are in use. */
  ghost predicate Aligned(log: Log, st: State) {
    DistinctStored(log.nodes) && StartedIs(log.nodes, st.started)
  }

  lemma {:induction false} RecordFromConcat(log: Log, a: seq<Frame>, b: seq<Frame>)
    ensures RecordFrom(log, a + b) == RecordFrom(RecordFrom(log, a), b)
    decreases |a|
  {
    if a == [] {
      assert a + b == b;
    } else {
      assert (a + b)[0] == a[0] && (a + b)[1..] == a[1..] + b;
      RecordFromConcat(Record(log, a[0]), a[1..], b);
    }
  }

  lemma TwoPartsTouch(log: Log, st: State, e: Event)
    requires Aligned(log, st) && e.Stream? && !e.summarization
    ensures RecordFrom(log, FramesOf(st, e)).nodes == AllTouched(log.nodes, e) + NewNodes(st, e)
  {
    var first, mid := PartFrames(st, e, Reasoning, e.reasoning), PartState(st, e, Reasoning, e.reasoning);
    PartTouches(log, st, e, Reasoning, e.reasoning);
    PartTouches(RecordFrom(log, first), mid, e, Text, e.content);
    RecordFromConcat(log, first, PartFrames(mid, e, Text, e.content));
    TwoIds(e.runId);
    TwoTexts(log.nodes, e, NewPart(st, e, Reasoning, e.reasoning));
    Associative(AllTouched(log.nodes, e), NewPart(st, e, Reasoning, e.reasoning), NewPart(st, e, Text, e.content));
  }

  /** Reasoning first, then text; a node announced for the reasoning gets none of the text. */
  lemma TwoTexts(nodes: seq<StoredNode>, e: Event, new1: seq<StoredNode>)
    requires e.Stream? && !e.summarization && forall i | 0 <= i < |new1| :: new1[i].id == e.runId + REASONING
    ensures WithText(WithText(nodes, e.runId + REASONING, e.reasoning) + new1, e.runId + TEXT, e.content)
         == AllTouched(nodes, e) + new1
  {
    var rid, tid := e.runId + REASONING, e.runId + TEXT;
    var inner := WithText(nodes, rid, e.reasoning);
    TwoIds(e.runId);
    var all, want := WithText(inner + new1, tid, e.content), AllTouched(nodes, e) + new1;
    forall i | 0 <= i < |all| ensures all[i] == want[i] {
      if i < |nodes| {
        assert nodes[i].text + "" == nodes[i].text;
      }
    }
  }

  lemma TwoIds(rid: string)
    ensures rid + REASONING != rid + TEXT && rid + COMPACTION != rid + TEXT && rid + COMPACTION != rid + REASONING
  {
    assert |rid + TEXT| == |rid| + 5 && |rid + REASONING| == |rid| + 10 && |rid + COMPACTION| == |rid| + 11;
  }

  lemma OneEndTouches(log: Log, e: Event, id: string, output: Output)
    requires DistinctStored(log.nodes) && !e.Stream?
    requires forall x :: OutputIn(e, x) == if x == id then Some(output) else None
    ensures RecordFrom(log, [NodeEnd(id, output)]).nodes == AllTouched(log.nodes, e)
  {
    RecordFromTwo(log, NodeEnd(id, output), NodeEnd(id, output));
    EndTouches(log, id, output);
    forall i | 0 <= i < |log.nodes| ensures WithOutput(log.nodes, id, output)[i] == Touched(log.nodes[i], e) {
      assert log.nodes[i].text + "" == log.nodes[i].text;
    }
  }

  lemma NothingTouched(nodes: seq<StoredNode>, e: Event)
    requires !e.Stream? && forall x :: OutputIn(e, x).None?
    ensures AllTouched(nodes, e) == nodes
  {
    forall i | 0 <= i < |nodes| ensures AllTouched(nodes, e)[i] == nodes[i] {
      assert nodes[i].text + "" == nodes[i].text;
    }
  }

  lemma SummaryPartTouches(log: Log, st: State, e: Event)
    requires Aligned(log, st) && e.Stream? && e.summarization
    ensures RecordFrom(log, FramesOf(st, e)).nodes == AllTouched(log.nodes, e) + NewNodes(st, e)
  {
    PartTouches(log, st, e, Compaction, e.content);
    forall i | 0 <= i < |log.nodes|
      ensures WithText(log.nodes, e.runId + COMPACTION, e.content)[i] == AllTouched(log.nodes, e)[i]
    {
      assert log.nodes[i].text + "" == log.nodes[i].text;
    }
    assert WithText(log.nodes, e.runId + COMPACTION, e.content) == AllTouched(log.nodes, e);
  }

  /** One event, as the recorder sees it through the translator's frames. */
  lemma EventTouches(log: Log, st: State, e: Event)
    requires Aligned(log, st) && (e.ToolStart? ==> e.runId !in st.started)
    ensures RecordFrom(log, FramesOf(st, e)).nodes == AllTouched(log.nodes, e) + NewNodes(st, e)
  {
    match e
    case Stream(_, _, summarization, _, _) =>
      if summarization {
        SummaryPartTouches(log, st, e);
      } else {
        TwoPartsTouch(log, st, e);
      }
    case ToolStart(runId, parents, name, input) =>
      var f := NodeFrame(runId, NearestOpen(parents, st.open), Tool, name, Some(input));
      RecordFromTwo(log, f, f);
      NodeAppends(log, runId, NearestOpen(parents, st.open), Tool, name, Some(input));
      NothingTouched(log.nodes, e);
    case ToolEnd(runId, _, output) =>
      OneEndTouches(log, e, runId, Opaque(output));
      assert AllTouched(log.nodes, e) + [] == AllTouched(log.nodes, e);
    case ModelEnd(runId, _, summarization, through, _) =>
      if summarization {
        OneEndTouches(log, e, runId + COMPACTION, Through(through));
      } else {
        NothingTouched(log.nodes, e);
      }
      assert AllTouched(log.nodes, e) + [] == AllTouched(log.nodes, e);
    case OtherEvent(_, _) =>
      NothingTouched(log.nodes, e);
      assert AllTouched(log.nodes, e) + [] == AllTouched(log.nodes, e);
  }

  /*** Whole runs ***/

  function Recorded(es: seq<Event>): seq<StoredNode> {
    RecordAll(FramesAfter(es)).nodes
  }

  lemma RunIsAligned(es: seq<Event>)
    requires FreshTools(es)
    ensures Aligned(RecordAll(FramesAfter(es)), StateAfter(es))
  {
    var fs, nodes := FramesAfter(es), Recorded(es);
    LogIsWellFormed(es);
    RecordedNodes(fs);
    forall i, j | 0 <= i < j < |nodes| ensures nodes[i].id != nodes[j].id {
      assert TraceRecorder.Announces(Nodes(fs)[i], nodes[i]) && TraceRecorder.Announces(Nodes(fs)[j], nodes[j]);
    }
    forall id: string ensures id in StateAfter(es).started <==> id in NodeIds(nodes) {
      if id in Ids(fs) {
        var i :| 0 <= i < |Nodes(fs)| && Nodes(fs)[i].id == id;
        assert TraceRecorder.Announces(Nodes(fs)[i], nodes[i]) && NodeIds(nodes)[i] == id;
      }
      if id in NodeIds(nodes) {
        var i :| 0 <= i < |nodes| && NodeIds(nodes)[i] == id;
        assert TraceRecorder.Announces(Nodes(fs)[i], nodes[i]) && Nodes(fs)[i].id == id;
      }
    }
  }

  /** A suffixed id is in use exactly when its run has said something of that kind. */
  lemma StartedIffSaid(es: seq<Event>, rid: string, ntype: NodeType)
    requires FreshTools(es) && !ntype.Tool?
    ensures rid + Suffix(ntype) in StateAfter(es).started <==> Chunks(es, rid, ntype) != ""
  {
    var fs, id := FramesAfter(es), rid + Suffix(ntype);
    LogIsWellFormed(es);
    LogIsLabelled(es);
    NodeTextIsOwnChunks(es, rid, ntype);
    SuffixedHasColon(rid, ntype);
    if id in Ids(fs) {
      var i :| 0 <= i < |Nodes(fs)| && Nodes(fs)[i].id == id;
      assert LabelledNode(fs, Nodes(fs)[i]);
    } else {
      NoDeltaBeforeNode(fs, id);
    }
  }

  /** The text sent to a run's node is what the event says for that run. */
  lemma TextIsChunk(e: Event, rid: string, ntype: NodeType)
    requires ntype.Tool? ==> ':' !in rid
    ensures TextIn(e, rid + Suffix(ntype)) == Chunk(e, rid, ntype)
  {
    SuffixedHasColon(e.runId, Text);
    SuffixedHasColon(e.runId, Reasoning);
    SuffixedHasColon(e.runId, Compaction);
    var id := rid + Suffix(ntype);
    if ntype.Tool? {
      assert id == rid;
    } else {
      forall t: NodeType | !t.Tool? ensures id == e.runId + Suffix(t) <==> rid == e.runId && ntype == t {
        if id == e.runId + Suffix(t) {
          SuffixedIdsDiffer(rid, ntype, e.runId, t);
        }
      }
      assert id == e.runId + COMPACTION <==> rid == e.runId && ntype == Compaction by {
        assert Suffix(Compaction) == COMPACTION;
      }
      assert id == e.runId + REASONING <==> rid == e.runId && ntype == Reasoning by {
        assert Suffix(Reasoning) == REASONING;
      }
      assert id == e.runId + TEXT <==> rid == e.runId && ntype == Text by {
        assert Suffix(Text) == TEXT;
      }
    }
  }

  lemma ChunksSnoc(es: seq<Event>, e: Event, rid: string, ntype: NodeType)
    ensures Chunks(es + [e], rid, ntype) == Chunks(es, rid, ntype) + Chunk(e, rid, ntype)
  {
    assert (es + [e])[..|es|] == es;
  }

  lemma LastOutputSnoc(es: seq<Event>, e: Event, i: nat, id: string)
    requires i < |es|
    ensures LastOutput(es + [e], i, id) == if OutputIn(e, id).Some? then OutputIn(e, id) else LastOutput(es, i, id)
  {
    assert (es + [e])[..|es|] == es;
  }

  /** A node stays the node of its event. */
  lemma NodeStays(es: seq<Event>, e: Event, i: nat, ntype: NodeType, n: StoredNode)
    requires i < |es| && IsNodeOf(es, i, ntype, n) && (ntype.Tool? ==> ':' !in es[i].runId)
    ensures IsNodeOf(es + [e], i, ntype, Touched(n, e))
  {
    var more := es + [e];
    assert more[i] == es[i] && more[..i] == es[..i];
    ChunksSnoc(es, e, es[i].runId, ntype);
    LastOutputSnoc(es, e, i, n.id);
    TextIsChunk(e, es[i].runId, ntype);
  }

  /** The part of a chunk that announces a node, or no part. */
  ghost predicate IsPart(es: seq<Event>, i: nat, ntype: NodeType, part: seq<StoredNode>)
    requires i < |es|
  {
    if Announces(es, i, ntype) then |part| == 1 && IsNodeOf(es, i, ntype, part[0]) else part == []
  }

  lemma PartAnnounces(es: seq<Event>, e: Event, ntype: NodeType)
    requires FreshTools(es) && !ntype.Tool? && e.Stream?
    ensures Announces(es + [e], |es|, ntype)
       <==> Chunk(e, e.runId, ntype) != "" && e.runId + Suffix(ntype) !in StateAfter(es).started
  {
    var more := es + [e];
    assert more[|es|] == e && more[..|es|] == es;
    StartedIffSaid(es, e.runId, ntype);
  }

  /** A new part is the node of the event that brought it. */
  lemma PartIsNode(es: seq<Event>, e: Event, ntype: NodeType)
    requires FreshTools(es) && !ntype.Tool? && e.Stream?
    ensures IsPart(es + [e], |es|, ntype, NewPart(StateAfter(es), e, ntype, Chunk(e, e.runId, ntype)))
  {
    PartAnnounces(es, e, ntype);
    if Announces(es + [e], |es|, ntype) {
      NearestIsEnclosing(es, e.parents);
      FirstPartIsNode(es, e, ntype, NearestOpen(e.parents, StateAfter(es).open));
    }
  }

  lemma FirstPartIsNode(es: seq<Event>, e: Event, ntype: NodeType, parent: Option<string>)
    requires !ntype.Tool? && Announces(es + [e], |es|, ntype) && IsEnclosing(es, e.parents, parent)
    ensures IsNodeOf(es + [e], |es|, ntype,
                     StoredNode(e.runId + Suffix(ntype), parent, ntype, "", None, None, Chunk(e, e.runId, ntype)))
  {
    FirstTextIsAll(es, e, ntype);
    assert (es + [e])[|es|] == e && (es + [e])[..|es|] == es;
  }

  lemma FirstTextIsAll(es: seq<Event>, e: Event, ntype: NodeType)
    requires !ntype.Tool? && Announces(es + [e], |es|, ntype)
    ensures Chunks(es + [e], e.runId, ntype) == Chunk(e, e.runId, ntype)
  {
    assert (es + [e])[|es|] == e && (es + [e])[..|es|] == es;
    ChunksSnoc(es, e, e.runId, ntype);
    assert "" + Chunk(e, e.runId, ntype) == Chunk(e, e.runId, ntype);
  }

  lemma ToolIsNode(es: seq<Event>, e: Event, parent: Option<string>)
    requires e.ToolStart? && IsEnclosing(es, e.parents, parent)
    ensures IsNodeOf(es + [e], |es|, Tool, StoredNode(e.runId, parent, Tool, e.name, Some(e.input), None, ""))
  {
    assert (es + [e])[|es|] == e && (es + [e])[..|es|] == es;
    NoToolChunks(es + [e], e.runId);
    assert e.runId + Suffix(Tool) == e.runId;
  }

  lemma {:induction false} NoToolChunks(es: seq<Event>, rid: string)
    ensures Chunks(es, rid, Tool) == ""
  {
    if es != [] {
      NoToolChunks(es[..|es| - 1], rid);
    }
  }

  /** Nodes and sources, one by one. */
  ghost predicate AreNodesOf(es: seq<Event>, sources: seq<Source>, nodes: seq<StoredNode>) {
    |sources| == |nodes|
    && forall p | 0 <= p < |nodes| :: sources[p].at < |es| && IsNodeOf(es, sources[p].at, sources[p].ntype, nodes[p])
  }

  lemma OneNode(es: seq<Event>, s: Source, n: StoredNode)
    requires s.at < |es| && IsNodeOf(es, s.at, s.ntype, n)
    ensures AreNodesOf(es, [s], [n])
  {
  }

  lemma PieceIs(es: seq<Event>, i: nat, ntype: NodeType, part: seq<StoredNode>)
    requires i < |es| && IsPart(es, i, ntype, part)
    ensures AreNodesOf(es, PartSource(es, i, ntype), part)
  {
    if Announces(es, i, ntype) {
      OneNode(es, Source(i, ntype), part[0]);
      assert part == [part[0]];
    }
  }

  lemma PartsAre(es: seq<Event>, i: nat, c: seq<StoredNode>, r: seq<StoredNode>, t: seq<StoredNode>)
    requires i < |es| && IsPart(es, i, Compaction, c)
    requires IsPart(es, i, Reasoning, r) && IsPart(es, i, Text, t)
    ensures AreNodesOf(es, PartSource(es, i, Compaction) + PartSource(es, i, Reasoning) + PartSource(es, i, Text),
                       c + r + t)
  {
    PieceIs(es, i, Compaction, c);
    PieceIs(es, i, Reasoning, r);
    PieceIs(es, i, Text, t);
    AreNodesConcat(es, PartSource(es, i, Compaction), c, PartSource(es, i, Reasoning), r);
    AreNodesConcat(es, PartSource(es, i, Compaction) + PartSource(es, i, Reasoning), c + r, PartSource(es, i, Text), t);
  }

  lemma NewNodesParts(st: State, e: Event)
    requires e.Stream?
    ensures NewNodes(st, e)
         == NewPart(st, e, Compaction, Chunk(e, e.runId, Compaction))
            + NewPart(st, e, Reasoning, Chunk(e, e.runId, Reasoning)) + NewPart(st, e, Text, Chunk(e, e.runId, Text))
  {
  }

  lemma NewNodesAre(es: seq<Event>, e: Event)
    requires FreshTools(es)
    ensures AreNodesOf(es + [e], NewSources(es + [e], |es|), NewNodes(StateAfter(es), e))
  {
    if e.Stream? {
      ChunkNodesAre(es, e);
    } else {
      OtherNodesAre(es, e);
    }
  }

  lemma ChunkNodesAre(es: seq<Event>, e: Event)
    requires FreshTools(es) && e.Stream?
    ensures AreNodesOf(es + [e], NewSources(es + [e], |es|), NewNodes(StateAfter(es), e))
  {
    ChunkPartsAre(es, e);
    ChunkSources(es, e);
    NewNodesParts(StateAfter(es), e);
  }

  function PartOf(es: seq<Event>, e: Event, ntype: NodeType): seq<StoredNode> {
    NewPart(StateAfter(es), e, ntype, Chunk(e, e.runId, ntype))
  }

  lemma ChunkPartsAre(es: seq<Event>, e: Event)
    requires FreshTools(es) && e.Stream?
    ensures var more, n := es + [e], |es|;
            AreNodesOf(more,
                       PartSource(more, n, Compaction) + PartSource(more, n, Reasoning) + PartSource(more, n, Text),
                       PartOf(es, e, Compaction) + PartOf(es, e, Reasoning) + PartOf(es, e, Text))
  {
    PartIsNode(es, e, Compaction);
    PartIsNode(es, e, Reasoning);
    PartIsNode(es, e, Text);
    PartsAre(es + [e], |es|, PartOf(es, e, Compaction), PartOf(es, e, Reasoning), PartOf(es, e, Text));
  }

  lemma ChunkSources(es: seq<Event>, e: Event)
    requires e.Stream?
    ensures var more, n := es + [e], |es|;
            NewSources(more, n)
              == PartSource(more, n, Compaction) + PartSource(more, n, Reasoning) + PartSource(more, n, Text)
  {
    var more, n := es + [e], |es|;
    assert more[n] == e;
    assert [] + PartSource(more, n, Compaction) == PartSource(more, n, Compaction);
  }

  lemma OtherNodesAre(es: seq<Event>, e: Event)
    requires !e.Stream?
    ensures AreNodesOf(es + [e], NewSources(es + [e], |es|), NewNodes(StateAfter(es), e))
  {
    OtherSources(es, e);
    if e.ToolStart? {
      NearestIsEnclosing(es, e.parents);
      ToolIsNode(es, e, NearestOpen(e.parents, StateAfter(es).open));
      OneNode(es + [e], Source(|es|, Tool), NewNodes(StateAfter(es), e)[0]);
    }
  }

  lemma OtherSources(es: seq<Event>, e: Event)
    requires !e.Stream?
    ensures NewSources(es + [e], |es|) == if e.ToolStart? then [Source(|es|, Tool)] else []
  {
    assert (es + [e])[|es|] == e;
  }

  lemma OldNodesAre(es: seq<Event>, e: Event, sources: seq<Source>, nodes: seq<StoredNode>)
    requires FreshTools(es) && AreNodesOf(es, sources, nodes)
    ensures AreNodesOf(es + [e], sources, AllTouched(nodes, e))
  {
    forall p | 0 <= p < |nodes|
      ensures IsNodeOf(es + [e], sources[p].at, sources[p].ntype, AllTouched(nodes, e)[p])
    {
      NodeStays(es, e, sources[p].at, sources[p].ntype, nodes[p]);
    }
  }

  /**
    The whole trace: for every run, the recorded nodes are those its events announce, one each and in that order. Each
    has its own event's name and input, hangs under the innermost enclosing tool that was open then, and holds all
    that its run said of its kind and the output that was reported last for it.
   */
  lemma {:induction false} TraceIsWhatHappened(es: seq<Event>)
    requires FreshTools(es)
    ensures AreNodesOf(es, Sources(es), Recorded(es))
  {
    if es != [] {
      var n := |es| - 1;
      var before, e := es[..n], es[n];
      assert es == before + [e];
      FreshBefore(before, [e]);
      TraceIsWhatHappened(before);
      EventAddsItsNodes(before, e);
    }
  }

  lemma EventAddsItsNodes(es: seq<Event>, e: Event)
    requires FreshTools(es + [e]) && FreshTools(es) && AreNodesOf(es, Sources(es), Recorded(es))
    ensures AreNodesOf(es + [e], Sources(es + [e]), Recorded(es + [e]))
  {
    var more := es + [e];
    OldNodesAre(es, e, Sources(es), Recorded(es));
    NewNodesAre(es, e);
    RecordedNext(es, e);
    assert more[..|more| - 1] == es;
    AreNodesConcat(more, Sources(es), AllTouched(Recorded(es), e), NewSources(more, |es|), NewNodes(StateAfter(es), e));
  }

  lemma AreNodesConcat(es: seq<Event>, s1: seq<Source>, n1: seq<StoredNode>, s2: seq<Source>, n2: seq<StoredNode>)
    requires AreNodesOf(es, s1, n1) && AreNodesOf(es, s2, n2)
    ensures AreNodesOf(es, s1 + s2, n1 + n2)
  {
    var sources, nodes := s1 + s2, n1 + n2;
    forall p | 0 <= p < |nodes|
      ensures sources[p].at < |es| && IsNodeOf(es, sources[p].at, sources[p].ntype, nodes[p])
    {
      if p < |n1| {
        assert sources[p] == s1[p] && nodes[p] == n1[p];
      } else {
        assert sources[p] == s2[p - |s1|] && nodes[p] == n2[p - |n1|];
      }
    }
  }

  lemma RecordedNext(es: seq<Event>, e: Event)
    requires FreshTools(es + [e])
    ensures Recorded(es + [e]) == AllTouched(Recorded(es), e) + NewNodes(StateAfter(es), e)
  {
    FreshBefore(es, [e]);
    FramesSnoc(es, e);
    RecordConcat(FramesAfter(es), FramesOf(StateAfter(es), e));
    RunIsAligned(es);
    NewToolIsFresh(es, e);
    EventTouches(RecordAll(FramesAfter(es)), StateAfter(es), e);
  }

  lemma NewToolIsFresh(es: seq<Event>, e: Event)
    requires FreshTools(es + [e])
    ensures e.ToolStart? ==> e.runId !in StateAfter(es).started
  {
    FreshBefore(es, [e]);
    LogIsWellFormed(es);
    if e.ToolStart? {
      assert (es + [e])[|es|] == e;
      assert forall i | 0 <= i < |es| :: (es + [e])[i] == es[i];
    }
  }

  lemma NewSourcesAre(es: seq<Event>, i: nat, ntype: NodeType)
    requires i < |es|
    ensures forall s | s in NewSources(es, i) :: s.at == i
    ensures PartSource(es, i, ntype) != [] <==> Source(i, ntype) in NewSources(es, i)
  {
    InFour(i, PartSource(es, i, Tool), PartSource(es, i, Compaction), PartSource(es, i, Reasoning),
           PartSource(es, i, Text));
  }

  lemma InFour(i: nat, u: seq<Source>, c: seq<Source>, r: seq<Source>, t: seq<Source>)
    requires u == [] || u == [Source(i, Tool)]
    requires c == [] || c == [Source(i, Compaction)]
    requires r == [] || r == [Source(i, Reasoning)]
    requires t == [] || t == [Source(i, Text)]
    ensures var all := u + c + r + t;
            && (forall s | s in all :: s.at == i)
            && (Source(i, Tool) in all <==> u != []) && (Source(i, Compaction) in all <==> c != [])
            && (Source(i, Reasoning) in all <==> r != []) && (Source(i, Text) in all <==> t != [])
  {
  }

  lemma SameAnnouncement(es: seq<Event>, n: nat, i: nat, ntype: NodeType)
    requires i < n <= |es|
    ensures PartSource(es[..n], i, ntype) == PartSource(es, i, ntype)
  {
    assert es[..n][i] == es[i] && es[..n][..i] == es[..i];
  }

  lemma {:induction false} SourcesAreBefore(es: seq<Event>)
    ensures forall s | s in Sources(es) :: s.at < |es|
  {
    if es != [] {
      SourcesAreBefore(es[..|es| - 1]);
      NewSourcesAre(es, |es| - 1, Tool);
    }
  }

  /** The sources are exactly the announcements of the run. */
  lemma SourcesAreAll(es: seq<Event>, i: nat, ntype: NodeType)
    requires i < |es|
    ensures Announces(es, i, ntype) <==> Source(i, ntype) in Sources(es)
  {
    SourcesUpTo(es, |es|, i, ntype);
    assert es[..|es|] == es;
  }

  lemma {:induction false} SourcesUpTo(es: seq<Event>, n: nat, i: nat, ntype: NodeType)
    requires i < n <= |es|
    ensures PartSource(es, i, ntype) != [] <==> Source(i, ntype) in Sources(es[..n])
  {
    assert es[..n][..n - 1] == es[..n - 1];
    if i < n - 1 {
      SourcesUpTo(es, n - 1, i, ntype);
      OldSource(es[..n], Source(i, ntype));
    } else {
      NewSource(es[..n], ntype);
      SameAnnouncement(es, n, i, ntype);
    }
  }

  lemma OldSource(es: seq<Event>, s: Source)
    requires s.at + 1 < |es|
    ensures s in Sources(es) <==> s in Sources(es[..|es| - 1])
  {
    NewSourcesAre(es, |es| - 1, s.ntype);
  }

  lemma NewSource(es: seq<Event>, ntype: NodeType)
    requires es != []
    ensures Source(|es| - 1, ntype) in Sources(es) <==> PartSource(es, |es| - 1, ntype) != []
  {
    NewSourcesAre(es, |es| - 1, ntype);
    SourcesAreBefore(es[..|es| - 1]);
  }

  /** They come in the order of their events. */
  lemma {:induction false} SourcesInOrder(es: seq<Event>, p: nat, q: nat)
    requires p < q < |Sources(es)|
    ensures Sources(es)[p].at <= Sources(es)[q].at
  {
    var n := |es| - 1;
    var before, new_ := Sources(es[..n]), NewSources(es, n);
    NewSourcesAre(es, n, Tool);
    SourcesAreBefore(es[..n]);
    if q < |before| {
      SourcesInOrder(es[..n], p, q);
    } else if p < |before| {
      assert before[p] in before && new_[q - |before|] in new_;
    } else {
      assert new_[p - |before|] in new_ && new_[q - |before|] in new_;
    }
  }

  /** And the browser shows exactly that trace while the run streams. */
  lemma LiveTraceIsWhatHappened(es: seq<Event>)
    requires FreshTools(es)
    ensures var live := Live(FramesAfter(es));
            live == Hydrate(Recorded(es)) && AreNodesOf(es, Sources(es), Recorded(es))
  {
    TraceIsWhatHappened(es);
    TranslatedRunsReload(es);
  }

  /**
    A tool call in the trace: one node, with the call's own name and input, under the innermost enclosing tool open
    at its start; its output is what its last end event since then said, and absent before one.
   */
  lemma ToolCallIsRecorded(es: seq<Event>, i: nat) returns (n: StoredNode)
    requires FreshTools(es) && i < |es| && es[i].ToolStart?
    ensures n in Recorded(es) && n.id == es[i].runId && n.ntype == Tool
    ensures n.name == es[i].name && n.input == Some(es[i].input) && IsEnclosing(es[..i], es[i].parents, n.parent)
    ensures (forall k | i < k < |es| && es[k].ToolEnd? :: es[k].runId != n.id) ==> n.output == None
    ensures forall k | i < k < |es| && es[k].ToolEnd? && es[k].runId == n.id
                       && (forall m | k < m < |es| && es[m].ToolEnd? :: es[m].runId != n.id) ::
              n.output == Some(Opaque(es[k].output))
  {
    TraceIsWhatHappened(es);
    SourcesAreAll(es, i, Tool);
    var p :| 0 <= p < |Sources(es)| && Sources(es)[p] == Source(i, Tool);
    n := Recorded(es)[p];
    assert es[i].runId + Suffix(Tool) == es[i].runId;
    if forall k | i < k < |es| && es[k].ToolEnd? :: es[k].runId != n.id {
      NoToolOutput(es, i, n.id);
    }
    forall k | i < k < |es| && es[k].ToolEnd? && es[k].runId == n.id
               && (forall m | k < m < |es| && es[m].ToolEnd? :: es[m].runId != n.id)
      ensures n.output == Some(Opaque(es[k].output))
    {
      ToolOutput(es, i, n.id, k);
    }
  }

  lemma {:induction false} NoToolOutput(es: seq<Event>, i: nat, id: string)
    requires ':' !in id && forall k | i < k < |es| && es[k].ToolEnd? :: es[k].runId != id
    ensures LastOutput(es, i, id) == None
  {
    if i + 1 < |es| {
      var n := |es| - 1;
      assert forall k | 0 <= k < n :: es[..n][k] == es[k];
      NoToolOutput(es[..n], i, id);
      OutputOfTool(es[n], id);
    }
  }

  lemma {:induction false} ToolOutput(es: seq<Event>, i: nat, id: string, k: nat)
    requires ':' !in id && i < k < |es| && es[k].ToolEnd? && es[k].runId == id
    requires forall m | k < m < |es| && es[m].ToolEnd? :: es[m].runId != id
    ensures LastOutput(es, i, id) == Some(Opaque(es[k].output))
  {
    var n := |es| - 1;
    OutputOfTool(es[n], id);
    if k < n {
      assert forall m | 0 <= m < n :: es[..n][m] == es[m];
      ToolOutput(es[..n], i, id, k);
    }
  }

  lemma OutputOfTool(e: Event, id: string)
    requires ':' !in id
    ensures OutputIn(e, id) == if e.ToolEnd? && e.runId == id then Some(Opaque(e.output)) else None
  {
    SuffixedHasColon(e.runId, Compaction);
  }
}
