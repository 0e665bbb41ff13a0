/** What the API keeps of a compaction: from the summarizer's stream to the pair that `Send` stores. */
module SummaryCapture {
  import opened Prelude
  import opened Decimal
  import opened RunEvents
  import opened TraceRecorder

  predicate EndsWith(s: string, suffix: string) {
    |suffix| <= |s| && s[|s| - |suffix|..] == suffix
  }

  /** A node's id tells its kind, and every node but a tool's came with some text. */
  ghost predicate LabelledNode(fs: seq<Frame>, n: Frame)
    requires n.NodeFrame?
  {
    if n.ntype.Tool? then ':' !in n.id else EndsWith(n.id, Suffix(n.ntype)) && DeltaText(fs, n.id) != ""
  }

  ghost predicate Labelled(fs: seq<Frame>) {
    forall i | 0 <= i < |Nodes(fs)| :: LabelledNode(fs, Nodes(fs)[i])
  }

  lemma LabelledAppend(fs: seq<Frame>, f: Frame)
    requires Labelled(fs) && (f.NodeFrame? ==> LabelledNode(fs, f))
    ensures Labelled(fs + [f])
  {
    var more := fs + [f];
    IdsAppend(fs, f);
    forall i | 0 <= i < |Nodes(more)| ensures LabelledNode(more, Nodes(more)[i]) {
      var n := Nodes(more)[i];
      DeltaTextSnoc(fs, f, n.id);
      if i < |Nodes(fs)| {
        assert n == Nodes(fs)[i] && LabelledNode(fs, n);
      }
    }
  }

  /** A first piece of text announces its node and labels it at once. */
  lemma FirstTextLabelled(fs: seq<Frame>, node: Frame, delta: Frame)
    requires Labelled(fs) && node.NodeFrame? && !node.ntype.Tool? && EndsWith(node.id, Suffix(node.ntype))
    requires delta.Delta? && delta.id == node.id && delta.text != ""
    ensures Labelled(fs + [node] + [delta])
  {
    var mid, more := fs + [node], fs + [node] + [delta];
    IdsAppend(fs, node);
    IdsAppend(mid, delta);
    forall i | 0 <= i < |Nodes(more)| ensures LabelledNode(more, Nodes(more)[i]) {
      var n := Nodes(more)[i];
      DeltaTextSnoc(fs, node, n.id);
      DeltaTextSnoc(mid, delta, n.id);
      if i < |Nodes(fs)| {
        assert n == Nodes(fs)[i] && LabelledNode(fs, n);
      }
    }
  }

  lemma PartLabelled(fs: seq<Frame>, st: State, e: Event, ntype: NodeType, text: string)
    requires Labelled(fs) && !ntype.Tool?
    ensures Labelled(fs + PartFrames(st, e, ntype, text))
  {
    var id := e.runId + Suffix(ntype);
    var node, delta := NodeFrame(id, NearestOpen(e.parents, st.open), ntype, "", None), Delta(id, text);
    if text == "" {
      assert fs + [] == fs;
    } else if id in st.started {
      LabelledAppend(fs, delta);
      assert fs + PartFrames(st, e, ntype, text) == fs + [delta];
    } else {
      assert id[|id| - |Suffix(ntype)|..] == Suffix(ntype);
      FirstTextLabelled(fs, node, delta);
      assert fs + PartFrames(st, e, ntype, text) == fs + [node] + [delta];
    }
  }

  lemma EventLabelled(fs: seq<Frame>, st: State, e: Event)
    requires Labelled(fs) && (e.ToolStart? ==> ':' !in e.runId)
    ensures Labelled(fs + FramesOf(st, e))
  {
    var out := FramesOf(st, e);
    if e.Stream? && !e.summarization {
      var first := PartFrames(st, e, Reasoning, e.reasoning);
      var mid := PartState(st, e, Reasoning, e.reasoning);
      PartLabelled(fs, st, e, Reasoning, e.reasoning);
      PartLabelled(fs + first, mid, e, Text, e.content);
      assert fs + out == fs + first + PartFrames(mid, e, Text, e.content);
    } else if e.Stream? {
      PartLabelled(fs, st, e, Compaction, e.content);
    } else if out == [] {
      assert fs + out == fs;
    } else {
      assert out == [out[0]];
      LabelledAppend(fs, out[0]);
    }
  }

  lemma {:induction false} LogIsLabelled(es: seq<Event>)
    requires FreshTools(es)
    ensures Labelled(FramesAfter(es))
  {
    if es != [] {
      var before := es[..|es| - 1];
      assert forall i | 0 <= i < |before| :: before[i] == es[i];
      LogIsLabelled(before);
      EventLabelled(FramesAfter(before), StateAfter(before), es[|es| - 1]);
    }
  }

  /** A summarizer run has a compaction node exactly when it streamed some text. */
  lemma CompactionNode(es: seq<Event>, rid: string, i: nat)
    requires FreshTools(es) && i < |Nodes(FramesAfter(es))| && Nodes(FramesAfter(es))[i].id == rid + COMPACTION
    ensures Nodes(FramesAfter(es))[i].ntype.Compaction? && Chunks(es, rid, Compaction) != ""
  {
    LogIsLabelled(es);
    var n := Nodes(FramesAfter(es))[i];
    assert LabelledNode(FramesAfter(es), n);
    SuffixedHasColon(rid, Compaction);
    var x := n.id[..|n.id| - |Suffix(n.ntype)|];
    assert n.id == x + Suffix(n.ntype);
    SuffixedIdsDiffer(x, n.ntype, rid, Compaction);
    NodeTextIsOwnChunks(es, rid, Compaction);
  }

  /** The pair as stored: the summary text and the row id it runs through. */
  function Pair(log: Log): (string, Option<nat>) {
    (log.summaryText, log.through)
  }

  /** The pair that the recorder holds after a run's events. */
  function RecordedPair(es: seq<Event>): (string, Option<nat>) {
    Pair(RecordAll(FramesAfter(es)))
  }

  /** The row an ended compaction names: null and non-numeric ids name none. */
  function NamedRow(through: Option<string>): Option<nat> {
    if through.Some? then ParseInt64(through.value) else None
  }

  lemma FramesSnoc(es: seq<Event>, e: Event)
    ensures FramesAfter(es + [e]) == FramesAfter(es) + FramesOf(StateAfter(es), e)
  {
    assert (es + [e])[..|es|] == es;
  }

  /** The recorder has an entry for a summarizer run exactly when it streamed some text: a compaction with that text. */
  ghost predicate IsEntry(log: Log, id: string, text: string) {
    match LastIndex(log.nodes, id)
    case None => text == ""
    case Some(i) => log.nodes[i].ntype.Compaction? && log.nodes[i].text == text && text != ""
  }

  lemma EndIsCaptured(log: Log, id: string, through: Option<string>, text: string)
    requires IsEntry(log, id, text)
    ensures Pair(Record(log, NodeEnd(id, Through(through))))
         == if NamedRow(through).Some? && text != "" then (text, NamedRow(through)) else Pair(log)
  {
  }

  lemma CompactionEntry(es: seq<Event>, rid: string)
    requires FreshTools(es)
    ensures IsEntry(RecordAll(FramesAfter(es)), rid + COMPACTION, Chunks(es, rid, Compaction))
  {
    var fs, id := FramesAfter(es), rid + COMPACTION;
    var log := RecordAll(fs);
    LogIsWellFormed(es);
    RecordedNodes(fs);
    NodeTextIsOwnChunks(es, rid, Compaction);
    match LastIndex(log.nodes, id)
    case None =>
      NotAnnounced(fs, log, id);
      NoDeltaBeforeNode(fs, id);
    case Some(i) =>
      assert Announces(Nodes(fs)[i], log.nodes[i]);
      CompactionNode(es, rid, i);
      StoredTextIsDeltaText(fs);
      assert log.nodes[i] in log.nodes;
  }

  lemma NotAnnounced(fs: seq<Frame>, log: Log, id: string)
    requires |log.nodes| == |Nodes(fs)| && forall i | 0 <= i < |log.nodes| :: Announces(Nodes(fs)[i], log.nodes[i])
    requires LastIndex(log.nodes, id).None?
    ensures id !in Ids(fs)
  {
    forall i | 0 <= i < |Nodes(fs)| ensures Nodes(fs)[i].id != id {
      assert Announces(Nodes(fs)[i], log.nodes[i]);
    }
  }

  /**
    The end of a compaction is captured exactly when it names a row and streamed some text; the captured text is
    then all that this summarizer run streamed, in order, whatever other runs streamed in between.
   */
  lemma CompactionIsCaptured(es: seq<Event>, e: Event)
    requires FreshTools(es) && e.ModelEnd? && e.summarization
    ensures var text := Chunks(es, e.runId, Compaction);
            RecordedPair(es + [e]) == if NamedRow(e.through).Some? && text != "" then (text, NamedRow(e.through))
                                      else RecordedPair(es)
  {
    var fs, id := FramesAfter(es), e.runId + COMPACTION;
    FramesSnoc(es, e);
    RecordSnoc(fs, NodeEnd(id, Through(e.through)));
    CompactionEntry(es, e.runId);
    EndIsCaptured(RecordAll(fs), id, e.through, Chunks(es, e.runId, Compaction));
  }

  predicate ArePlain(fs: seq<Frame>) {
    forall i | 0 <= i < |fs| && fs[i].NodeEnd? :: fs[i].output.Opaque?
  }

  /** No other event touches the captured pair: not text, not tools, not other model calls. */
  lemma OthersCaptureNothing(es: seq<Event>, e: Event)
    requires !(e.ModelEnd? && e.summarization)
    ensures RecordedPair(es + [e]) == RecordedPair(es)
  {
    FramesSnoc(es, e);
    FramesArePlain(StateAfter(es), e);
    PlainFramesCaptureNothing(FramesAfter(es), FramesOf(StateAfter(es), e));
  }

  lemma FramesArePlain(st: State, e: Event)
    requires !(e.ModelEnd? && e.summarization)
    ensures ArePlain(FramesOf(st, e))
  {
  }

  lemma {:induction false} PlainFramesCaptureNothing(fs: seq<Frame>, more: seq<Frame>)
    requires ArePlain(more)
    ensures Pair(RecordAll(fs + more)) == Pair(RecordAll(fs))
    decreases |more|
  {
    if more == [] {
      assert fs + more == fs;
    } else {
      var n := |more| - 1;
      var init, last := more[..n], more[n];
      assert more == init + [last];
      PlainFramesCaptureNothing(fs, init);
      PlainFrameCapturesNothing(fs, init, last);
    }
  }

  lemma PlainFrameCapturesNothing(fs: seq<Frame>, more: seq<Frame>, f: Frame)
    requires Pair(RecordAll(fs + more)) == Pair(RecordAll(fs)) && (f.NodeEnd? ==> f.output.Opaque?)
    ensures Pair(RecordAll(fs + (more + [f]))) == Pair(RecordAll(fs))
  {
    RecordMore(fs, more, f);
    PlainFrameKeepsPair(RecordAll(fs + more), f);
  }

  lemma RecordMore(fs: seq<Frame>, more: seq<Frame>, f: Frame)
    ensures RecordAll(fs + (more + [f])) == Record(RecordAll(fs + more), f)
  {
    Associative(fs, more, [f]);
    RecordSnoc(fs + more, f);
  }

  lemma PlainFrameKeepsPair(log: Log, f: Frame)
    requires f.NodeEnd? ==> f.output.Opaque?
    ensures Pair(Record(log, f)) == Pair(log)
  {
  }

  /*** Whole runs ***/

  /** After `es`, event `e` ends a compaction that names a row and whose summarizer run had streamed some text. */
  predicate CapturesNext(es: seq<Event>, e: Event) {
    e.ModelEnd? && e.summarization && NamedRow(e.through).Some? && Chunks(es, e.runId, Compaction) != ""
  }

  /** The text and the row of the last compaction that named a row and streamed text; nothing before there is one. */
  function LastCapture(es: seq<Event>): (string, Option<nat>) {
    if es == [] then ("", None)
    else
      var before, e := es[..|es| - 1], es[|es| - 1];
      if CapturesNext(before, e) then (Chunks(before, e.runId, Compaction), NamedRow(e.through))
      else LastCapture(before)
  }

  /** The pair after one more event. */
  lemma EventCaptures(es: seq<Event>, e: Event)
    requires FreshTools(es)
    ensures RecordedPair(es + [e]) == if CapturesNext(es, e) then (Chunks(es, e.runId, Compaction), NamedRow(e.through))
                                      else RecordedPair(es)
  {
    if e.ModelEnd? && e.summarization {
      CompactionIsCaptured(es, e);
    } else {
      OthersCaptureNothing(es, e);
    }
  }

  /**
    What a whole run leaves to be stored is what its last compaction that named a row and streamed text left, whatever
    else ran, streamed or failed before, after and in between.
   */
  lemma {:induction false} LastCompactionIsKept(es: seq<Event>)
    requires FreshTools(es)
    ensures RecordedPair(es) == LastCapture(es)
  {
    if es != [] {
      var before, e := es[..|es| - 1], es[|es| - 1];
      assert es == before + [e];
      FreshBefore(before, [e]);
      LastCompactionIsKept(before);
      EventIsKept(before, e);
    }
  }

  lemma EventIsKept(es: seq<Event>, e: Event)
    requires FreshTools(es) && RecordedPair(es) == LastCapture(es)
    ensures RecordedPair(es + [e]) == LastCapture(es + [e])
  {
    EventCaptures(es, e);
    assert (es + [e])[..|es|] == es;
  }

  lemma FreshBefore(a: seq<Event>, b: seq<Event>)
    requires FreshTools(a + b)
    ensures FreshTools(a)
  {
    var ab := a + b;
    forall i | 0 <= i < |a| && a[i].ToolStart?
      ensures ':' !in a[i].runId && forall j | 0 <= j < i && a[j].ToolStart? :: a[j].runId != a[i].runId
    {
      assert ab[i] == a[i];
      assert forall j | 0 <= j < i :: ab[j] == a[j];
    }
  }
}
