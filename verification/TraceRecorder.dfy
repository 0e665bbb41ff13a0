/** The API's accumulation of a run's log (api/chat.go, the stream handlers of `Send` and `nonTrivial`). */
module TraceRecorder {
  import opened Prelude
  import opened Decimal
  import opened RunEvents

  datatype StoredNode = StoredNode(id: string, parent: Option<string>, ntype: NodeType, name: string,
                                   input: Option<string>, output: Option<Output>, text: string)

  datatype Log = Log(nodes: seq<StoredNode>, reply: string, summaryText: string, through: Option<nat>)

  const EMPTY := Log([], "", "", None)

  /*** Specification ***/

  function NodeIds(nodes: seq<StoredNode>): (ids: seq<string>)
    ensures |ids| == |nodes| && forall i | 0 <= i < |nodes| :: ids[i] == nodes[i].id
  {
    seq(|nodes|, i requires 0 <= i < |nodes| => nodes[i].id)
  }

  /** The latest node announced under an id. */
  function LastIndex(nodes: seq<StoredNode>, id: string): (at: Option<nat>)
    ensures at.Some? ==> at.value < |nodes| && nodes[at.value].id == id
                         && forall j | at.value < j < |nodes| :: nodes[j].id != id
    ensures at.None? ==> forall j | 0 <= j < |nodes| :: nodes[j].id != id
  {
    LastPosition(NodeIds(nodes), id)
  }

  predicate IsAnswer(n: StoredNode) {
    n.ntype.Text? && n.parent.None?
  }

  function AddText(log: Log, i: nat, text: string): Log
    requires i < |log.nodes|
  {
    var n := log.nodes[i];
    log.(nodes := log.nodes[i := n.(text := n.text + text)],
         reply := if IsAnswer(n) then log.reply + text else log.reply)
  }

  /** The row id a finished compaction reports, if it is one. */
  function ReportedRow(n: StoredNode, output: Output): Option<nat> {
    if n.ntype.Compaction? && output.Through? && output.id.Some? then ParseInt64(output.id.value) else None
  }

  function SetOutput(log: Log, i: nat, output: Output): Log
    requires i < |log.nodes|
  {
    var n := log.nodes[i].(output := Some(output));
    KeepSummary(log.(nodes := log.nodes[i := n]), n, output)
  }

  /** A finished compaction that reports a row replaces the captured pair. */
  function KeepSummary(log: Log, n: StoredNode, output: Output): Log {
    var row := ReportedRow(n, output);
    log.(summaryText := if row.Some? then n.text else log.summaryText,
         through := if row.Some? then row else log.through)
  }

  function Record(log: Log, f: Frame): Log {
    match f
    case NodeFrame(id, parent, ntype, name, input) =>
      log.(nodes := log.nodes + [StoredNode(id, parent, ntype, name, input, None, "")])
    case Delta(id, text) =>
      (match LastIndex(log.nodes, id) case None => log case Some(i) => AddText(log, i, text))
    case NodeEnd(id, output) =>
      (match LastIndex(log.nodes, id) case None => log case Some(i) => SetOutput(log, i, output))
  }

  function RecordAll(fs: seq<Frame>): Log {
    if fs == [] then EMPTY else Record(RecordAll(fs[..|fs| - 1]), fs[|fs| - 1])
  }

  lemma RecordSnoc(fs: seq<Frame>, f: Frame)
    ensures RecordAll(fs + [f]) == Record(RecordAll(fs), f)
  {
    assert (fs + [f])[..|fs|] == fs;
  }

  /** Anything beyond top-level answer text makes a run worth a stored trace. */
  predicate NonTrivial(nodes: seq<StoredNode>) {
    exists i | 0 <= i < |nodes| :: !IsAnswer(nodes[i])
  }

  /*** The handlers' state: a node list and an index into the same nodes ***/

  /** A node behind a pointer: the list and the index share it. */
  class TraceNode {
    var value: StoredNode

    constructor (f: Frame)
      requires f.NodeFrame?
      ensures value == StoredNode(f.id, f.parent, f.ntype, f.name, f.input, None, "")
    {
      value := StoredNode(f.id, f.parent, f.ntype, f.name, f.input, None, "");
    }
  }

  /** The objects have these values. */
  ghost predicate Shows(nodes: seq<TraceNode>, views: seq<StoredNode>)
    reads nodes
  {
    |views| == |nodes| && forall i | 0 <= i < |nodes| :: nodes[i].value == views[i]
  }

  class Recorder {
    var nodes: seq<TraceNode>
    var byID: map<string, TraceNode>
    var reply: string
    var summaryText: string
    var summaryThroughID: Option<nat>
    /** The value the fields stand for. */
    ghost var log: Log

    ghost predicate Valid()
      reads this, nodes
    {
      && Shows(nodes, log.nodes)
      && reply == log.reply && summaryText == log.summaryText && summaryThroughID == log.through
      && Indexed(NodeIds(log.nodes), nodes, byID)
    }

    constructor ()
      ensures Valid() && log == EMPTY
      ensures fresh(nodes)
    {
      nodes, byID := [], map[];
      reply, summaryText, summaryThroughID := "", "", None;
      log := EMPTY;
    }

    method OnNode(f: Frame)
      requires Valid() && f.NodeFrame?
      modifies this
      ensures Valid() && log == Record(old(log), f)
      ensures exists n: TraceNode :: fresh(n) && nodes == old(nodes) + [n]
    {
      var n := new TraceNode(f);
      IndexGrows(NodeIds(log.nodes), nodes, byID, f.id, n);
      assert NodeIds(log.nodes + [n.value]) == NodeIds(log.nodes) + [f.id];
      nodes := nodes + [n];
      byID := byID[f.id := n];
      log := Record(log, f);
    }

    method OnDelta(id: string, text: string)
      requires Valid()
      modifies `reply, `log, nodes
      ensures Valid() && log == Record(old(log), Delta(id, text))
    {
      Lookup(log.nodes, nodes, byID, id);
      if id in byID {
        var n := byID[id];
        ghost var i := LastIndex(log.nodes, id).value;
        n.value := n.value.(text := n.value.text + text);
        SameIds(log.nodes, i, n.value);
        if n.value.ntype.Text? && n.value.parent.None? {
          reply := reply + text;
        }
        log := AddText(log, i, text);
      }
    }

    /** Keep the text and the row id of a compaction node that reports one. */
    method CaptureSummary(n: StoredNode, output: Output)
      requires summaryText == log.summaryText && summaryThroughID == log.through
      modifies `summaryText, `summaryThroughID, `log
      ensures log == KeepSummary(old(log), n, output)
      ensures summaryText == log.summaryText && summaryThroughID == log.through
    {
      if n.ntype.Compaction? && output.Through? && output.id.Some? {
        var wid := ParseInt64(output.id.value);
        if wid.Some? {
          summaryText, summaryThroughID := n.text, wid;
        }
      }
      log := KeepSummary(log, n, output);
    }

    method OnNodeEnd(id: string, output: Output)
      requires Valid()
      modifies `summaryText, `summaryThroughID, `log, nodes
      ensures Valid() && log == Record(old(log), NodeEnd(id, output))
    {
      Lookup(log.nodes, nodes, byID, id);
      if id in byID {
        var n := byID[id];
        ghost var i := LastIndex(log.nodes, id).value;
        n.value := n.value.(output := Some(output));
        SameIds(log.nodes, i, n.value);
        log := log.(nodes := log.nodes[i := n.value]);
        CaptureSummary(n.value, output);
      }
    }

    /** The handler for one frame of the agent's stream. */
    method Dispatch(f: Frame)
      requires Valid()
      modifies this, nodes
      ensures Valid() && log == Record(old(log), f)
      ensures nodes == old(nodes) || (exists n: TraceNode :: fresh(n) && nodes == old(nodes) + [n])
    {
      match f
      case NodeFrame(_, _, _, _, _) => OnNode(f);
      case Delta(id, text) => OnDelta(id, text);
      case NodeEnd(id, output) => OnNodeEnd(id, output);
    }
  }

  predicate Distinct(nodes: seq<TraceNode>) {
    nodes == [] || var n := |nodes| - 1; nodes[n] !in nodes[..n] && Distinct(nodes[..n])
  }

  lemma {:induction false} DistinctAt(nodes: seq<TraceNode>, i: nat)
    requires Distinct(nodes) && i < |nodes|
    ensures forall k | 0 <= k < |nodes| && k != i :: nodes[k] != nodes[i]
  {
    var n := |nodes| - 1;
    if i < n {
      DistinctAt(nodes[..n], i);
    }
  }

  function IndexOf(ids: seq<string>, nodes: seq<TraceNode>): map<string, TraceNode>
    requires |ids| == |nodes|
  {
    if ids == [] then map[] else var n := |ids| - 1; IndexOf(ids[..n], nodes[..n])[ids[n] := nodes[n]]
  }

  /** The objects differ, and the index leads from each id to the latest object announced under it. */
  predicate Indexed(ids: seq<string>, nodes: seq<TraceNode>, byID: map<string, TraceNode>) {
    |ids| == |nodes| && Distinct(nodes) && byID == IndexOf(ids, nodes)
  }

  lemma {:induction false} IndexLeads(ids: seq<string>, nodes: seq<TraceNode>, id: string)
    requires |ids| == |nodes|
    ensures var byID, at := IndexOf(ids, nodes), LastPosition(ids, id);
            (id in byID <==> at.Some?) && (id in byID ==> byID[id] == nodes[at.value])
  {
    if ids != [] {
      IndexLeads(ids[..|ids| - 1], nodes[..|ids| - 1], id);
    }
  }

  /** Looking up an id: the object found is the one at the latest position, and at no other. */
  lemma Lookup(views: seq<StoredNode>, nodes: seq<TraceNode>, byID: map<string, TraceNode>, id: string)
    requires Indexed(NodeIds(views), nodes, byID)
    ensures id in byID <==> LastIndex(views, id).Some?
    ensures id in byID ==>
      var i := LastIndex(views, id).value;
      byID[id] == nodes[i] && forall k | 0 <= k < |nodes| && k != i :: nodes[k] != nodes[i]
  {
    IndexLeads(NodeIds(views), nodes, id);
    if id in byID {
      DistinctAt(nodes, LastIndex(views, id).value);
    }
  }

  lemma SameIds(views: seq<StoredNode>, i: nat, v: StoredNode)
    requires i < |views| && v.id == views[i].id
    ensures NodeIds(views[i := v]) == NodeIds(views)
  {
  }

  lemma IndexGrows(ids: seq<string>, nodes: seq<TraceNode>, byID: map<string, TraceNode>, id: string, n: TraceNode)
    requires Indexed(ids, nodes, byID) && n !in nodes
    ensures Indexed(ids + [id], nodes + [n], byID[id := n])
  {
    assert (ids + [id])[..|ids|] == ids && (nodes + [n])[..|ids|] == nodes;
  }

  /** A whole run through the handlers. */
  method RecordRun(fs: seq<Frame>) returns (r: Recorder)
    ensures fresh(r) && r.Valid() && r.log == RecordAll(fs)
    ensures Shows(r.nodes, RecordAll(fs).nodes) && r.reply == RecordAll(fs).reply
    ensures r.summaryText == RecordAll(fs).summaryText && r.summaryThroughID == RecordAll(fs).through
  {
    r := new Recorder();
    for k := 0 to |fs|
      invariant fresh(r) && r.Valid() && fresh(r.nodes)
      invariant r.log == RecordAll(fs[..k])
    {
      assert fs[..k + 1][..k] == fs[..k];
      r.Dispatch(fs[k]);
    }
    assert fs[..|fs|] == fs;
  }

  method NonTrivialLoop(nodes: seq<StoredNode>) returns (b: bool)
    ensures b == NonTrivial(nodes)
  {
    for i := 0 to |nodes|
      invariant forall k | 0 <= k < i :: IsAnswer(nodes[k])
    {
      if !(nodes[i].ntype.Text? && nodes[i].parent.None?) {
        return true;
      }
    }
    return false;
  }

  /*** What the log holds ***/

  /** The stored node carries what its frame announced. */
  predicate Announces(f: Frame, n: StoredNode) {
    f.NodeFrame? && n.id == f.id && n.parent == f.parent && n.ntype == f.ntype && n.name == f.name && n.input == f.input
  }

  predicate AllAnnounced(frames: seq<Frame>, nodes: seq<StoredNode>) {
    |nodes| == |frames| && forall i | 0 <= i < |nodes| :: Announces(frames[i], nodes[i])
  }

  lemma {:induction false} RecordedNodes(fs: seq<Frame>)
    ensures AllAnnounced(Nodes(fs), RecordAll(fs).nodes)
  {
    if fs != [] {
      var before, f := fs[..|fs| - 1], fs[|fs| - 1];
      RecordedNodes(before);
      RecordAnnounced(Nodes(before), RecordAll(before), f);
    }
  }

  lemma RecordAnnounced(frames: seq<Frame>, log: Log, f: Frame)
    requires AllAnnounced(frames, log.nodes)
    ensures AllAnnounced(frames + if f.NodeFrame? then [f] else [], Record(log, f).nodes)
  {
  }

  lemma DistinctPrefix(fs: seq<Frame>)
    requires fs != []
    ensures Nodes(fs[..|fs| - 1]) <= Nodes(fs)
    ensures DistinctIds(fs) ==> DistinctIds(fs[..|fs| - 1])
  {
    var a, b := Nodes(fs[..|fs| - 1]), Nodes(fs);
    if DistinctIds(fs) {
      forall i, j | 0 <= i < j < |a| ensures a[i].id != a[j].id {
        assert a[i] == b[i] && a[j] == b[j];
      }
    }
  }

  lemma AnnouncedPrefix(fs: seq<Frame>)
    requires fs != [] && DeltasAnnounced(fs)
    ensures DeltasAnnounced(fs[..|fs| - 1])
  {
    var before := fs[..|fs| - 1];
    forall k | 0 <= k < |before| && before[k].Delta?
      ensures before[k].text != "" && before[k].id in Ids(before[..k])
    {
      assert fs[k] == before[k] && fs[..k] == before[..k];
    }
  }

  lemma {:induction false} NoDeltaBeforeNode(fs: seq<Frame>, id: string)
    requires DeltasAnnounced(fs) && id !in Ids(fs)
    ensures DeltaText(fs, id) == ""
  {
    if fs != [] {
      var before := fs[..|fs| - 1];
      AnnouncedPrefix(fs);
      assert before + [fs[|fs| - 1]] == fs;
      IdsAppend(before, fs[|fs| - 1]);
      NoDeltaBeforeNode(before, id);
    }
  }

  /** In a well-formed log every stored node's text is exactly the text sent for its id. */
  lemma {:induction false} StoredTextIsDeltaText(fs: seq<Frame>)
    requires DistinctIds(fs) && DeltasAnnounced(fs)
    ensures forall n | n in RecordAll(fs).nodes :: n.text == DeltaText(fs, n.id)
  {
    if fs != [] {
      var before, f := fs[..|fs| - 1], fs[|fs| - 1];
      DistinctPrefix(fs);
      AnnouncedPrefix(fs);
      StoredTextIsDeltaText(before);
      RecordedNodes(before);
      RecordedNodes(fs);
      var old_, new_ := RecordAll(before).nodes, RecordAll(fs).nodes;
      forall i | 0 <= i < |new_| ensures new_[i].text == DeltaText(fs, new_[i].id) {
        if i < |old_| {
          assert old_[i] in old_;
          assert Nodes(before)[i] == Nodes(fs)[i];
        } else {
          assert new_[i].id == f.id;
          assert f.id !in Ids(before) by {
            assert forall k | 0 <= k < |old_| :: Nodes(before)[k] == Nodes(fs)[k];
          }
          NoDeltaBeforeNode(before, f.id);
        }
      }
    }
  }
}
