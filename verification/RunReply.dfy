/** The saved reply of a run with parallel subagents depends on its top-level stream alone. */
module RunReply {
  import opened Prelude
  import opened RunEvents
  import opened TraceRecorder

  /** The runs that are tools. */
  function ToolIds(es: seq<Event>): set<string> {
    set i | 0 <= i < |es| && es[i].ToolStart? :: es[i].runId
  }

  /** No enclosing run is a tool. */
  predicate TopLevel(e: Event, tools: set<string>) {
    forall p | p in e.parents :: p !in tools
  }

  /** A stream inside a tool arrives while that tool is open. */
  ghost predicate Nested(es: seq<Event>, tools: set<string>) {
    forall i | 0 <= i < |es| && es[i].Stream? ::
      forall p | p in es[i].parents && p in tools :: p in StateAfter(es[..i]).open
  }

  /** One run's chunks all name the same enclosing runs. */
  ghost predicate SameParents(es: seq<Event>) {
    forall i, j | 0 <= i < |es| && 0 <= j < |es| && es[i].Stream? && es[j].Stream? && es[i].runId == es[j].runId ::
      es[i].parents == es[j].parents
  }

  predicate IsTopAnswer(e: Event, tools: set<string>) {
    e.Stream? && !e.summarization && TopLevel(e, tools)
  }

  function TopChunk(e: Event, tools: set<string>): string {
    if IsTopAnswer(e, tools) then e.content else ""
  }

  /** The answer text of the top-level runs, in arrival order. */
  function TopChunks(es: seq<Event>, tools: set<string>): string {
    if es == [] then "" else TopChunks(es[..|es| - 1], tools) + TopChunk(es[|es| - 1], tools)
  }

  /** The event that announced a suffixed node, and what it says about the node's place. */
  predicate Origin(f: Frame, e: Event, tools: set<string>)
    requires f.NodeFrame?
  {
    e.Stream? && !f.ntype.Tool? && f.id == e.runId + Suffix(f.ntype) && (f.parent.None? <==> TopLevel(e, tools))
  }

  ghost predicate HasOrigin(f: Frame, es: seq<Event>, tools: set<string>)
    requires f.NodeFrame?
  {
    (f.ntype.Tool? && ':' !in f.id) || exists e | e in es :: Origin(f, e, tools)
  }

  ghost predicate Placed(fs: seq<Frame>, es: seq<Event>, tools: set<string>) {
    forall i | 0 <= i < |Nodes(fs)| :: HasOrigin(Nodes(fs)[i], es, tools)
  }

  /** The state of a run as the step lemmas need it. */
  ghost predicate Tracked(fs: seq<Frame>, st: State, es: seq<Event>, tools: set<string>) {
    InStep(fs, st) && Placed(fs, es, tools)
  }

  lemma PlacedAppend(fs: seq<Frame>, f: Frame, es: seq<Event>, tools: set<string>)
    requires Placed(fs, es, tools) && (f.NodeFrame? ==> HasOrigin(f, es, tools))
    ensures Placed(fs + [f], es, tools)
  {
    IdsAppend(fs, f);
  }

  /** A node under a text id is an answer exactly when its run is top level. */
  lemma AnswerNodes(fs: seq<Frame>, e: Event, es: seq<Event>, tools: set<string>, part: NodeType, i: nat)
    requires Placed(fs, es, tools) && SameParents(es) && e in es && e.Stream? && !part.Tool?
    requires i < |Nodes(fs)| && Nodes(fs)[i].id == e.runId + Suffix(part)
    ensures Nodes(fs)[i].ntype == part && (Nodes(fs)[i].parent.None? <==> TopLevel(e, tools))
  {
    var f := Nodes(fs)[i];
    assert HasOrigin(f, es, tools);
    SuffixedHasColon(e.runId, part);
    var o :| o in es && Origin(f, o, tools);
    SuffixedIdsDiffer(o.runId, f.ntype, e.runId, part);
  }

  lemma DeltaReply(fs: seq<Frame>, e: Event, es: seq<Event>, tools: set<string>, part: NodeType, text: string)
    requires Placed(fs, es, tools) && SameParents(es) && e in es && e.Stream? && !part.Tool?
    requires e.runId + Suffix(part) in Ids(fs)
    ensures RecordAll(fs + [Delta(e.runId + Suffix(part), text)]).reply
         == RecordAll(fs).reply + if part.Text? && TopLevel(e, tools) then text else ""
  {
    var id := e.runId + Suffix(part);
    RecordSnoc(fs, Delta(id, text));
    RecordedNodes(fs);
    var log := RecordAll(fs);
    var k :| 0 <= k < |Nodes(fs)| && Nodes(fs)[k].id == id;
    assert log.nodes[k].id == id;
    var i := LastIndex(log.nodes, id).value;
    AnswerNodes(fs, e, es, tools, part, i);
    assert log.reply + "" == log.reply;
  }

  /** One chunk part: what it adds to the log and to the reply. */
  lemma PartReply(fs: seq<Frame>, st: State, e: Event, es: seq<Event>, tools: set<string>, part: NodeType, text: string)
    requires Tracked(fs, st, es, tools) && SameParents(es) && e in es && e.Stream? && !part.Tool?
    requires st.open <= tools && forall p | p in e.parents && p in tools :: p in st.open
    ensures Tracked(fs + PartFrames(st, e, part, text), PartState(st, e, part, text), es, tools)
    ensures RecordAll(fs + PartFrames(st, e, part, text)).reply
         == RecordAll(fs).reply + if part.Text? && TopLevel(e, tools) then text else ""
  {
    PartKeepsStep(fs, st, e, part, text);
    if text == "" {
      assert fs + [] == fs;
      assert RecordAll(fs).reply + "" == RecordAll(fs).reply;
    } else {
      var id := e.runId + Suffix(part);
      var parent := NearestOpen(e.parents, st.open);
      NearestOpenIsOpen(e.parents, st.open);
      var node, delta := NodeFrame(id, parent, part, "", None), Delta(id, text);
      if id in st.started {
        assert fs + PartFrames(st, e, part, text) == fs + [delta];
        PlacedAppend(fs, delta, es, tools);
        DeltaReply(fs, e, es, tools, part, text);
      } else {
        assert fs + PartFrames(st, e, part, text) == fs + [node] + [delta];
        assert Origin(node, e, tools);
        PlacedAppend(fs, node, es, tools);
        PlacedAppend(fs + [node], delta, es, tools);
        IdsAppend(fs, node);
        RecordSnoc(fs, node);
        DeltaReply(fs + [node], e, es, tools, part, text);
      }
    }
  }

  lemma PlacedLonger(fs: seq<Frame>, es: seq<Event>, more: seq<Event>, tools: set<string>)
    requires Placed(fs, es, tools) && forall e | e in es :: e in more
    ensures Placed(fs, more, tools)
  {
    forall i | 0 <= i < |Nodes(fs)| ensures HasOrigin(Nodes(fs)[i], more, tools) {
      assert HasOrigin(Nodes(fs)[i], es, tools);
    }
  }

  lemma StreamReply(fs: seq<Frame>, st: State, e: Event, es: seq<Event>, tools: set<string>)
    requires Tracked(fs, st, es, tools) && SameParents(es) && e in es && e.Stream?
    requires st.open <= tools && forall p | p in e.parents && p in tools :: p in st.open
    ensures Placed(fs + FramesOf(st, e), es, tools)
    ensures RecordAll(fs + FramesOf(st, e)).reply == RecordAll(fs).reply + TopChunk(e, tools)
  {
    if e.summarization {
      PartReply(fs, st, e, es, tools, Compaction, e.content);
    } else {
      var first := PartFrames(st, e, Reasoning, e.reasoning);
      var mid := PartState(st, e, Reasoning, e.reasoning);
      var second := PartFrames(mid, e, Text, e.content);
      assert FramesOf(st, e) == first + second;
      TwoPartsReply(fs, st, e, es, tools);
      assert fs + (first + second) == fs + first + second;
    }
  }

  /** A chunk's reasoning part, then its text part. */
  lemma TwoPartsReply(fs: seq<Frame>, st: State, e: Event, es: seq<Event>, tools: set<string>)
    requires Tracked(fs, st, es, tools) && SameParents(es) && e in es && e.Stream? && !e.summarization
    requires st.open <= tools && forall p | p in e.parents && p in tools :: p in st.open
    ensures var first, mid := PartFrames(st, e, Reasoning, e.reasoning), PartState(st, e, Reasoning, e.reasoning);
            var all := fs + first + PartFrames(mid, e, Text, e.content);
            Placed(all, es, tools) && RecordAll(all).reply == RecordAll(fs).reply + TopChunk(e, tools)
  {
    var first := PartFrames(st, e, Reasoning, e.reasoning);
    var mid := PartState(st, e, Reasoning, e.reasoning);
    PartReply(fs, st, e, es, tools, Reasoning, e.reasoning);
    assert RecordAll(fs).reply + "" == RecordAll(fs).reply;
    PartReply(fs + first, mid, e, es, tools, Text, e.content);
  }

  lemma OtherReply(fs: seq<Frame>, st: State, e: Event, es: seq<Event>, tools: set<string>)
    requires Placed(fs, es, tools) && !e.Stream? && (e.ToolStart? ==> ':' !in e.runId)
    ensures Placed(fs + FramesOf(st, e), es, tools)
    ensures RecordAll(fs + FramesOf(st, e)).reply == RecordAll(fs).reply
  {
    var out := FramesOf(st, e);
    if |out| == 0 {
      assert fs + out == fs;
    } else {
      assert out == [out[0]];
      RecordSnoc(fs, out[0]);
      PlacedAppend(fs, out[0], es, tools);
    }
  }

  lemma OpenAreTools(es: seq<Event>)
    ensures StateAfter(es).open <= ToolIds(es)
  {
    if es != [] {
      var before := es[..|es| - 1];
      OpenAreTools(before);
      forall x | x in StateAfter(es).open ensures x in ToolIds(es) {
        if x in StateAfter(before).open {
          var i :| 0 <= i < |before| && before[i].ToolStart? && before[i].runId == x;
          assert es[i] == before[i];
        } else {
          assert es[|es| - 1].runId == x;
        }
      }
    }
  }

  /** Prefixes of a run, judged against the tools of the whole run. */
  lemma {:induction false} ReplySoFar(es: seq<Event>, tools: set<string>)
    requires FreshTools(es) && SameParents(es) && Nested(es, tools) && ToolIds(es) <= tools
    ensures Placed(FramesAfter(es), es, tools)
    ensures RecordAll(FramesAfter(es)).reply == TopChunks(es, tools)
  {
    if es != [] {
      var before, e := es[..|es| - 1], es[|es| - 1];
      assert forall i | 0 <= i < |before| :: before[i] == es[i] && before[..i] == es[..i];
      assert ToolIds(before) <= ToolIds(es);
      ReplySoFar(before, tools);
      LogIsWellFormed(before);
      OpenAreTools(before);
      PlacedLonger(FramesAfter(before), before, es, tools);
      if e.Stream? {
        StreamReply(FramesAfter(before), StateAfter(before), e, es, tools);
      } else {
        OtherReply(FramesAfter(before), StateAfter(before), e, es, tools);
        assert TopChunks(before, tools) + "" == TopChunks(before, tools);
      }
    }
  }

  /** The saved reply is the text of the top-level runs, in arrival order, whatever subagents stream in between. */
  lemma ReplyIsTopLevelText(es: seq<Event>)
    requires FreshTools(es) && SameParents(es) && Nested(es, ToolIds(es))
    ensures RecordAll(FramesAfter(es)).reply == TopChunks(es, ToolIds(es))
  {
    ReplySoFar(es, ToolIds(es));
  }

  /** Only the top-level answer streams of a run. */
  function TopStream(es: seq<Event>, tools: set<string>): (top: seq<Event>)
    ensures forall e | e in top :: e in es && IsTopAnswer(e, tools)
  {
    if es == [] then []
    else TopStream(es[..|es| - 1], tools) + if IsTopAnswer(es[|es| - 1], tools) then [es[|es| - 1]] else []
  }

  lemma {:induction false} TopStreamChunks(es: seq<Event>, tools: set<string>)
    ensures TopChunks(TopStream(es, tools), {}) == TopChunks(es, tools)
  {
    if es != [] {
      var before, e := es[..|es| - 1], es[|es| - 1];
      TopStreamChunks(before, tools);
      var top := TopStream(before, tools);
      if IsTopAnswer(e, tools) {
        assert (top + [e])[..|top|] == top;
      } else {
        assert top + [] == top;
        assert TopChunks(before, tools) + "" == TopChunks(before, tools);
      }
    }
  }

  /** Interleaving insensitivity of the reply: dropping every subagent and tool event leaves the same reply. */
  lemma ReplyFromTopStreamAlone(es: seq<Event>)
    requires FreshTools(es) && SameParents(es) && Nested(es, ToolIds(es))
    ensures RecordAll(FramesAfter(es)).reply == RecordAll(FramesAfter(TopStream(es, ToolIds(es)))).reply
  {
    var tools := ToolIds(es);
    var top := TopStream(es, tools);
    ReplyIsTopLevelText(es);
    TopStreamChunks(es, tools);
    forall i | 0 <= i < |top| ensures top[i].Stream? {
      assert top[i] in top;
    }
    assert SameParents(top) by {
      forall i, j | 0 <= i < |top| && 0 <= j < |top| && top[i].runId == top[j].runId
        ensures top[i].parents == top[j].parents
      {
        assert top[i] in es && top[j] in es;
      }
    }
    ReplySoFar(top, {});
  }

  /** Interleaving insensitivity of nodes: a stored node's text is its own run's chunks, in order. */
  lemma StoredTextIsOwnChunks(es: seq<Event>, rid: string, ntype: NodeType)
    requires FreshTools(es) && !ntype.Tool?
    ensures forall n | n in RecordAll(FramesAfter(es)).nodes && n.id == rid + Suffix(ntype) ::
      n.text == Chunks(es, rid, ntype)
  {
    LogIsWellFormed(es);
    StoredTextIsDeltaText(FramesAfter(es));
    NodeTextIsOwnChunks(es, rid, ntype);
  }
}
