/**
  The browser's accumulation of a run's log (web/src/lib/messages-context.tsx) and its agreement with the log
  the API stores and later serves back.
 */
module LiveNodes {
  import opened Prelude
  import opened RunEvents
  import opened TraceRecorder

  /** A node as the browser holds it: `text` and `output` stay undefined until something sets them. */
  datatype LiveNode = LiveNode(id: string, parent: Option<string>, ntype: NodeType, name: string,
                               input: Option<string>, output: Option<Output>, text: Option<string>)

  function Appended(text: Option<string>, more: string): Option<string> {
    Some((if text.Some? then text.value else "") + more)
  }

  function AppendTo(n: LiveNode, id: string, text: string): LiveNode {
    if n.id == id then n.(text := Appended(n.text, text)) else n
  }

  function EndOf(n: LiveNode, id: string, output: Output): LiveNode {
    if n.id == id then n.(output := Some(output)) else n
  }

  /** The reducers `onNode`, `onDelta` and `onNodeEnd`. */
  function Reduce(nodes: seq<LiveNode>, f: Frame): (next: seq<LiveNode>)
    ensures |next| == |nodes| + if f.NodeFrame? then 1 else 0
    ensures f.Delta? ==> forall i | 0 <= i < |nodes| :: next[i] == AppendTo(nodes[i], f.id, f.text)
    ensures f.NodeEnd? ==> forall i | 0 <= i < |nodes| :: next[i] == EndOf(nodes[i], f.id, f.output)
  {
    match f
    case NodeFrame(id, parent, ntype, name, input) =>
      nodes + [LiveNode(id, parent, ntype, name, input, None, None)]
    case Delta(id, text) => seq(|nodes|, i requires 0 <= i < |nodes| => AppendTo(nodes[i], id, text))
    case NodeEnd(id, output) => seq(|nodes|, i requires 0 <= i < |nodes| => EndOf(nodes[i], id, output))
  }

  function Live(fs: seq<Frame>): seq<LiveNode> {
    if fs == [] then [] else Reduce(Live(fs[..|fs| - 1]), fs[|fs| - 1])
  }

  /** Stored JSON omits an empty text, so a reloaded node has none. */
  function Reloaded(n: StoredNode): LiveNode {
    LiveNode(n.id, n.parent, n.ntype, n.name, n.input, n.output, if n.text == "" then None else Some(n.text))
  }

  /** `hydrate`: the node list of a reloaded trace. */
  function Hydrate(nodes: seq<StoredNode>): (live: seq<LiveNode>)
    ensures |live| == |nodes| && forall i | 0 <= i < |nodes| :: live[i] == Reloaded(nodes[i])
  {
    seq(|nodes|, i requires 0 <= i < |nodes| => Reloaded(nodes[i]))
  }

  /** What is on screen now equals what a reload would show. */
  ghost predicate Agree(fs: seq<Frame>) {
    Live(fs) == Hydrate(RecordAll(fs).nodes)
  }

  ghost predicate NoEmptyDelta(fs: seq<Frame>) {
    forall k | 0 <= k < |fs| && fs[k].Delta? :: fs[k].text != ""
  }

  ghost predicate NoNewNode(fs: seq<Frame>) {
    forall k | 0 <= k < |fs| :: !fs[k].NodeFrame?
  }

  predicate DistinctStored(nodes: seq<StoredNode>) {
    forall i, j | 0 <= i < j < |nodes| :: nodes[i].id != nodes[j].id
  }

  lemma FrameKeepsAgreement(log: Log, f: Frame)
    requires DistinctStored(log.nodes)
    requires f.Delta? ==> f.text != ""
    ensures Reduce(Hydrate(log.nodes), f) == Hydrate(Record(log, f).nodes)
  {
    var at := LastIndex(log.nodes, f.id);
    var a, b := Reduce(Hydrate(log.nodes), f), Hydrate(Record(log, f).nodes);
    assert |a| == |b|;
    forall i | 0 <= i < |log.nodes| ensures a[i] == b[i] {
      assert log.nodes[i].id == f.id <==> at == Some(i);
    }
  }

  /**
    Live equals reload: after every frame of a log with distinct ids, the browser's nodes equal the ones the API
    stores, field for field.
   */
  lemma {:induction false} LiveEqualsReload(fs: seq<Frame>)
    requires DistinctIds(fs) && NoEmptyDelta(fs)
    ensures Agree(fs)
  {
    if fs != [] {
      var before := fs[..|fs| - 1];
      DistinctPrefix(fs);
      RecordedNodes(before);
      LiveEqualsReload(before);
      FrameKeepsAgreement(RecordAll(before), fs[|fs| - 1]);
    }
  }

  lemma {:induction false} NodesUnchanged(fs: seq<Frame>, gs: seq<Frame>)
    requires NoNewNode(gs)
    ensures Nodes(fs + gs) == Nodes(fs)
  {
    if gs == [] {
      assert fs + gs == fs;
    } else {
      assert (fs + gs)[..|fs + gs| - 1] == fs + gs[..|gs| - 1];
      NodesUnchanged(fs, gs[..|gs| - 1]);
    }
  }

  /** Two nodes under one id: the next piece of text for it shows on both in the browser, on one after a reload. */
  lemma DuplicateIdDiverges(fs: seq<Frame>, i: nat, j: nat)
    requires i < j < |Nodes(fs)| && Nodes(fs)[i].id == Nodes(fs)[j].id
    ensures !Agree(fs) || !Agree(fs + [Delta(Nodes(fs)[i].id, "x")])
  {
    var id := Nodes(fs)[i].id;
    var more := fs + [Delta(id, "x")];
    assert more[..|fs|] == fs;
    RecordedNodes(fs);
    var log := RecordAll(fs);
    var last := LastIndex(log.nodes, id).value;
    assert i < last;
    if Agree(fs) {
      assert RecordAll(more).nodes[i] == log.nodes[i];
      assert Live(more)[i].text == Appended(Live(fs)[i].text, "x");
      assert Live(fs)[i] == Reloaded(log.nodes[i]);
      assert Hydrate(RecordAll(more).nodes)[i] == Reloaded(log.nodes[i]);
    }
  }

  /** Agreement now and after every continuation without new nodes holds exactly when node ids are distinct. */
  lemma AgreementNeedsDistinctIds(fs: seq<Frame>)
    requires NoEmptyDelta(fs)
    ensures DistinctIds(fs) <==> forall gs | NoNewNode(gs) && NoEmptyDelta(gs) :: Agree(fs + gs)
  {
    if DistinctIds(fs) {
      forall gs | NoNewNode(gs) && NoEmptyDelta(gs) ensures Agree(fs + gs) {
        NodesUnchanged(fs, gs);
        LiveEqualsReload(fs + gs);
      }
    } else {
      var i, j :| 0 <= i < j < |Nodes(fs)| && Nodes(fs)[i].id == Nodes(fs)[j].id;
      DuplicateIdDiverges(fs, i, j);
      var gs := [Delta(Nodes(fs)[i].id, "x")];
      assert fs + [] == fs;
      assert NoNewNode([]) && NoEmptyDelta([]);
      assert NoNewNode(gs) && NoEmptyDelta(gs);
      assert !Agree(fs + []) || !Agree(fs + gs);
    }
  }

  lemma Snoc(fs: seq<Frame>, f: Frame)
    ensures RecordAll(fs + [f]) == Record(RecordAll(fs), f)
    ensures Live(fs + [f]) == Reduce(Live(fs), f)
    ensures Nodes(fs + [f]) == Nodes(fs) + if f.NodeFrame? then [f] else []
  {
    assert (fs + [f])[..|fs|] == fs;
  }

  /*** Empty pieces of text ***/

  /** The pieces of text sent for a node once it was announced. */
  function Pieces(fs: seq<Frame>, id: string): seq<string> {
    if fs == [] then []
    else
      var before, f := fs[..|fs| - 1], fs[|fs| - 1];
      Pieces(before, id) + if f.Delta? && f.id == id && id in Ids(before) then [f.text] else []
  }

  lemma PiecesSnoc(fs: seq<Frame>, f: Frame, id: string)
    ensures Pieces(fs + [f], id) == Pieces(fs, id) + if f.Delta? && f.id == id && id in Ids(fs) then [f.text] else []
  {
    assert (fs + [f])[..|fs|] == fs;
  }

  function Concat(pieces: seq<string>): string {
    if pieces == [] then "" else Concat(pieces[..|pieces| - 1]) + pieces[|pieces| - 1]
  }

  /** Something was sent for the node, and all of it was empty. */
  predicate OnlyEmptyPieces(fs: seq<Frame>, id: string) {
    Pieces(fs, id) != [] && forall k | 0 <= k < |Pieces(fs, id)| :: Pieces(fs, id)[k] == ""
  }

  lemma {:induction false} ConcatEmpty(pieces: seq<string>)
    ensures Concat(pieces) == "" <==> forall k | 0 <= k < |pieces| :: pieces[k] == ""
  {
    if pieces != [] {
      var init := pieces[..|pieces| - 1];
      ConcatEmpty(init);
      assert forall k | 0 <= k < |init| :: pieces[k] == init[k];
    }
  }

  lemma ConcatSnoc(pieces: seq<string>, text: string)
    ensures Concat(pieces + [text]) == Concat(pieces) + text
  {
    assert (pieces + [text])[..|pieces|] == pieces;
  }

  /** A live and a stored node with the same history of pieces. */
  predicate ShowsPieces(live: LiveNode, stored: StoredNode, pieces: seq<string>) {
    && live == LiveNode(stored.id, stored.parent, stored.ntype, stored.name, stored.input, stored.output,
                        if pieces == [] then None else Some(Concat(pieces)))
    && stored.text == Concat(pieces)
  }

  lemma {:induction false} NoPiecesBeforeNode(fs: seq<Frame>, id: string)
    requires id !in Ids(fs)
    ensures Pieces(fs, id) == []
  {
    if fs != [] {
      var before := fs[..|fs| - 1];
      assert before + [fs[|fs| - 1]] == fs;
      IdsAppend(before, fs[|fs| - 1]);
      NoPiecesBeforeNode(before, id);
    }
  }

  /** Both accumulators hold, for every node, exactly the pieces sent for it since it was announced. */
  lemma {:induction false} BothShowPieces(fs: seq<Frame>, i: nat)
    requires DistinctIds(fs) && i < |Nodes(fs)|
    ensures |Live(fs)| == |RecordAll(fs).nodes| == |Nodes(fs)|
    ensures ShowsPieces(Live(fs)[i], RecordAll(fs).nodes[i], Pieces(fs, Nodes(fs)[i].id))
  {
    var before, f := fs[..|fs| - 1], fs[|fs| - 1];
    assert before + [f] == fs;
    DistinctPrefix(fs);
    Snoc(before, f);
    RecordedNodes(before);
    RecordedNodes(fs);
    SameLengths(before);
    SameLengths(fs);
    var id := Nodes(fs)[i].id;
    if i < |Nodes(before)| {
      BothShowPieces(before, i);
      assert Nodes(before)[i] == Nodes(fs)[i];
      FrameShowsPieces(RecordAll(before), Live(before), f, i, Pieces(before, id));
      assert id in Ids(before);
    } else {
      assert id !in Ids(before);
      NoPiecesBeforeNode(before, id);
    }
  }

  lemma {:induction false} SameLengths(fs: seq<Frame>)
    ensures |Live(fs)| == |Nodes(fs)| == |RecordAll(fs).nodes|
  {
    if fs != [] {
      SameLengths(fs[..|fs| - 1]);
    }
  }

  lemma FrameShowsPieces(log: Log, live: seq<LiveNode>, f: Frame, i: nat, pieces: seq<string>)
    requires DistinctStored(log.nodes) && i < |log.nodes| == |live| && ShowsPieces(live[i], log.nodes[i], pieces)
    ensures ShowsPieces(Reduce(live, f)[i], Record(log, f).nodes[i],
                        pieces + if f.Delta? && f.id == log.nodes[i].id then [f.text] else [])
  {
    var at := LastIndex(log.nodes, f.id);
    assert log.nodes[i].id == f.id <==> at == Some(i);
    if f.Delta? && f.id == log.nodes[i].id {
      ConcatSnoc(pieces, f.text);
    }
    assert pieces + [] == pieces;
  }

  /**
    Exactly when live and reload agree: with distinct ids, they do if and only if no node was sent nothing but empty
    pieces; such a node is shown with an empty text and reloaded with none.
   */
  lemma AgreesUnlessOnlyEmpty(fs: seq<Frame>)
    requires DistinctIds(fs)
    ensures Agree(fs) <==> forall i | 0 <= i < |Nodes(fs)| :: !OnlyEmptyPieces(fs, Nodes(fs)[i].id)
  {
    SameLengths(fs);
    var live, reloaded := Live(fs), Hydrate(RecordAll(fs).nodes);
    forall i: nat | i < |Nodes(fs)| ensures live[i] == reloaded[i] <==> !OnlyEmptyPieces(fs, Nodes(fs)[i].id) {
      BothShowPieces(fs, i);
      ConcatEmpty(Pieces(fs, Nodes(fs)[i].id));
    }
    assert live == reloaded <==> forall i | 0 <= i < |Nodes(fs)| :: live[i] == reloaded[i];
  }

  /** An empty piece of text separates the two even with distinct ids: shown as empty, reloaded as undefined. */
  lemma EmptyDeltaDiverges()
    ensures var fs := [NodeFrame("r:text", None, Text, "", None), Delta("r:text", "")];
            DistinctIds(fs) && !Agree(fs)
  {
    var f, d := NodeFrame("r:text", None, Text, "", None), Delta("r:text", "");
    IdsAppend([], f);
    IdsAppend([f], d);
    PiecesSnoc([], f, f.id);
    PiecesSnoc([f], d, f.id);
    assert [] + [f] == [f] && [f] + [d] == [f, d];
    assert Nodes([f, d]) == [f] && f.id in Ids([f]);
    assert OnlyEmptyPieces([f, d], Nodes([f, d])[0].id);
    AgreesUnlessOnlyEmpty([f, d]);
  }

  /** The translator never sends an empty piece of text, so every log it emits reloads as it was shown. */
  lemma TranslatedRunsReload(es: seq<Event>)
    requires FreshTools(es)
    ensures Agree(FramesAfter(es))
  {
    LogIsWellFormed(es);
    LiveEqualsReload(FramesAfter(es));
  }

  /*** Runs without a stored trace ***/

  /** All texts of a node list, in node order. */
  function AllText(nodes: seq<StoredNode>): string {
    if nodes == [] then "" else AllText(nodes[..|nodes| - 1]) + nodes[|nodes| - 1].text
  }

  /** Where a piece of text for `id` is recorded after `fs`: the latest node under that id, if any. */
  function Target(fs: seq<Frame>, id: string): (at: Option<nat>)
    ensures at.Some? ==> at.value < |RecordAll(fs).nodes|
  {
    LastIndex(RecordAll(fs).nodes, id)
  }

  /** The position of the node that got the newest recorded piece of text; -1 before there is one. */
  function LastTarget(fs: seq<Frame>): int {
    if fs == [] then -1
    else
      var before, f := fs[..|fs| - 1], fs[|fs| - 1];
      if f.Delta? && Target(before, f.id).Some? then Target(before, f.id).value else LastTarget(before)
  }

  /** The node positions of successive recorded pieces of text never decrease. */
  predicate InOrder(fs: seq<Frame>) {
    fs == [] ||
    var before, f := fs[..|fs| - 1], fs[|fs| - 1];
    InOrder(before) && (f.Delta? && Target(before, f.id).Some? ==> LastTarget(before) <= Target(before, f.id).value)
  }

  lemma TrivialPrefix(log: Log, f: Frame)
    requires !NonTrivial(Record(log, f).nodes)
    ensures !NonTrivial(log.nodes)
  {
    var next := Record(log, f).nodes;
    forall i | 0 <= i < |log.nodes| ensures IsAnswer(log.nodes[i]) {
      assert IsAnswer(next[i]);
    }
  }

  lemma {:induction false} AllTextSame(a: seq<StoredNode>, b: seq<StoredNode>)
    requires |a| == |b| && forall i | 0 <= i < |a| :: a[i].text == b[i].text
    ensures AllText(a) == AllText(b)
  {
    if a != [] {
      AllTextSame(a[..|a| - 1], b[..|b| - 1]);
    }
  }

  lemma AllTextSnoc(nodes: seq<StoredNode>, n: StoredNode)
    ensures AllText(nodes + [n]) == AllText(nodes) + n.text
  {
    assert (nodes + [n])[..|nodes|] == nodes;
  }

  /** Text added to a node after which all are empty is added at the end. */
  lemma {:induction false} AddAfterAll(nodes: seq<StoredNode>, i: nat, text: string)
    requires i < |nodes| && forall j | i < j < |nodes| :: nodes[j].text == ""
    ensures AllText(nodes[i := nodes[i].(text := nodes[i].text + text)]) == AllText(nodes) + text
  {
    var n := |nodes| - 1;
    var next := nodes[i := nodes[i].(text := nodes[i].text + text)];
    if i == n {
      assert next[..n] == nodes[..n];
      assert (AllText(nodes[..n]) + nodes[n].text) + text == AllText(nodes[..n]) + (nodes[n].text + text);
    } else {
      assert next[..n] == nodes[..n][i := nodes[i].(text := nodes[i].text + text)];
      AddAfterAll(nodes[..n], i, text);
      assert nodes[n].text == "" && AllText(next[..n]) + "" == AllText(next[..n]);
      assert AllText(nodes[..n]) + "" == AllText(nodes[..n]);
    }
  }

  /** The reply so far, and no text yet beyond the node that got the newest piece. */
  ghost predicate Settled(log: Log, last: int) {
    && last < |log.nodes| && log.reply == AllText(log.nodes)
    && forall j | 0 <= j < |log.nodes| && last < j :: log.nodes[j].text == ""
  }

  lemma FrameSettles(log: Log, f: Frame, last: int)
    requires Settled(log, last) && !NonTrivial(log.nodes)
    requires f.Delta? ==> (match LastIndex(log.nodes, f.id) case None => true case Some(i) => last <= i)
    ensures Settled(Record(log, f),
                    if f.Delta? && LastIndex(log.nodes, f.id).Some? then LastIndex(log.nodes, f.id).value else last)
  {
    match f
    case NodeFrame(_, _, _, _, _) =>
      var n := Record(log, f).nodes[|log.nodes|];
      AllTextSnoc(log.nodes, n);
      assert AllText(log.nodes) + "" == AllText(log.nodes);
    case Delta(id, text) =>
      var at := LastIndex(log.nodes, id);
      if at.Some? {
        assert IsAnswer(log.nodes[at.value]);
        AddAfterAll(log.nodes, at.value, text);
      }
    case NodeEnd(_, _) => AllTextSame(Record(log, f).nodes, log.nodes);
  }

  lemma {:induction false} InOrderSettles(fs: seq<Frame>)
    requires !NonTrivial(RecordAll(fs).nodes) && InOrder(fs)
    ensures Settled(RecordAll(fs), LastTarget(fs))
  {
    if fs != [] {
      var before, f := fs[..|fs| - 1], fs[|fs| - 1];
      TrivialPrefix(RecordAll(before), f);
      InOrderSettles(before);
      FrameSettles(RecordAll(before), f, LastTarget(before));
    }
  }

  /**
    When no trace is stored and text reaches the nodes in order, the stored reply is the concatenation of the live
    nodes' texts, so a reload shows the same words.
   */
  lemma ReplyIsAllText(fs: seq<Frame>)
    requires !NonTrivial(RecordAll(fs).nodes) && InOrder(fs)
    ensures RecordAll(fs).reply == AllText(RecordAll(fs).nodes)
  {
    InOrderSettles(fs);
  }

  /** Model calls do not overlap: text always goes to the newest node. */
  ghost predicate NonOverlapping(fs: seq<Frame>) {
    forall k | 0 <= k < |fs| && fs[k].Delta? ::
      var nodes := RecordAll(fs[..k]).nodes;
      nodes != [] && LastIndex(nodes, fs[k].id) == Some(|nodes| - 1)
  }

  lemma {:induction false} LastTargetExists(fs: seq<Frame>)
    ensures LastTarget(fs) < |RecordAll(fs).nodes|
  {
    if fs != [] {
      LastTargetExists(fs[..|fs| - 1]);
    }
  }

  /** Calls that do not overlap reach the nodes in order. */
  lemma {:induction false} NonOverlappingIsInOrder(fs: seq<Frame>)
    requires NonOverlapping(fs)
    ensures InOrder(fs)
  {
    if fs != [] {
      var before := fs[..|fs| - 1];
      assert forall k | 0 <= k < |before| :: before[k] == fs[k] && before[..k] == fs[..k];
      NonOverlappingIsInOrder(before);
      LastTargetExists(before);
    }
  }

  /*** The order is needed ***/

  /** The same frame with possibly another text. */
  predicate Reworded(f: Frame, g: Frame) {
    if f.Delta? then g.Delta? && g.id == f.id else g == f
  }

  predicate SameShape(fs: seq<Frame>, gs: seq<Frame>) {
    |fs| == |gs| && forall k | 0 <= k < |fs| :: Reworded(fs[k], gs[k])
  }

  predicate SameButText(a: seq<StoredNode>, b: seq<StoredNode>) {
    |a| == |b| && forall i | 0 <= i < |a| :: a[i].(text := "") == b[i].(text := "")
  }

  lemma {:induction false} SameLookup(a: seq<StoredNode>, b: seq<StoredNode>, id: string)
    requires |a| == |b| && forall i | 0 <= i < |a| :: a[i].id == b[i].id
    ensures LastIndex(a, id) == LastIndex(b, id)
  {
    if a != [] {
      SameLookup(a[..|a| - 1], b[..|b| - 1], id);
    }
  }

  lemma RewordedRecords(a: Log, b: Log, f: Frame, g: Frame)
    requires SameButText(a.nodes, b.nodes) && Reworded(f, g)
    ensures SameButText(Record(a, f).nodes, Record(b, g).nodes)
    ensures LastIndex(a.nodes, f.id) == LastIndex(b.nodes, f.id)
  {
    SameButTextAt(a.nodes, b.nodes);
    SameLookup(a.nodes, b.nodes, f.id);
    var c, d := Record(a, f).nodes, Record(b, g).nodes;
    forall i | 0 <= i < |c| ensures c[i].(text := "") == d[i].(text := "") {
      if i < |a.nodes| {
        assert a.nodes[i].(text := "") == b.nodes[i].(text := "");
      }
    }
  }

  lemma SameButTextAt(a: seq<StoredNode>, b: seq<StoredNode>)
    requires SameButText(a, b)
    ensures forall i | 0 <= i < |a| :: a[i].id == b[i].id && IsAnswer(a[i]) == IsAnswer(b[i])
  {
    forall i | 0 <= i < |a| ensures a[i].id == b[i].id && IsAnswer(a[i]) == IsAnswer(b[i]) {
      assert a[i].(text := "") == b[i].(text := "");
    }
  }

  lemma {:induction false} RewordedRuns(fs: seq<Frame>, gs: seq<Frame>)
    requires SameShape(fs, gs)
    ensures SameButText(RecordAll(fs).nodes, RecordAll(gs).nodes)
    ensures LastTarget(gs) == LastTarget(fs) && (InOrder(gs) <==> InOrder(fs))
  {
    if fs != [] {
      var n := |fs| - 1;
      RewordedRuns(fs[..n], gs[..n]);
      RewordedRecords(RecordAll(fs[..n]), RecordAll(gs[..n]), fs[n], gs[n]);
    }
  }

  /** The first piece of text that goes to an older node than the piece before it. */
  lemma {:induction false} FirstDisorder(fs: seq<Frame>) returns (k: nat)
    requires !InOrder(fs)
    ensures k < |fs| && fs[k].Delta? && Target(fs[..k], fs[k].id).Some?
    ensures Target(fs[..k], fs[k].id).value < LastTarget(fs[..k])
  {
    var n := |fs| - 1;
    if InOrder(fs[..n]) {
      k := n;
    } else {
      k := FirstDisorder(fs[..n]);
      assert fs[..n][..k] == fs[..k];
    }
  }

  lemma {:induction false} LastTargetFrame(fs: seq<Frame>) returns (l: nat)
    requires LastTarget(fs) >= 0
    ensures l < |fs| && fs[l].Delta? && Target(fs[..l], fs[l].id) == Some(LastTarget(fs))
  {
    var n := |fs| - 1;
    if fs[n].Delta? && Target(fs[..n], fs[n].id).Some? {
      l := n;
    } else {
      l := LastTargetFrame(fs[..n]);
      assert fs[..n][..l] == fs[..l];
    }
  }

  /** Every piece of text "0", but "2" at frame `l` and "1" at frame `k`. */
  function Marked(fs: seq<Frame>, l: nat, k: nat): (gs: seq<Frame>)
    ensures SameShape(fs, gs) && NoEmptyDelta(gs)
  {
    seq(|fs|, m requires 0 <= m < |fs| =>
      if fs[m].Delta? then Delta(fs[m].id, if m == l then "2" else if m == k then "1" else "0") else fs[m])
  }

  /** A '2' somewhere before a '1'. */
  ghost predicate TwoThenOne(s: string) {
    exists i, j | 0 <= i < j < |s| :: s[i] == '2' && s[j] == '1'
  }

  lemma TwoThenOneConcat(a: string, b: string)
    ensures TwoThenOne(a + b) <==> TwoThenOne(a) || TwoThenOne(b) || ('2' in a && '1' in b)
  {
    var ab := a + b;
    if TwoThenOne(a) {
      var i, j :| 0 <= i < j < |a| && a[i] == '2' && a[j] == '1';
      assert ab[i] == '2' && ab[j] == '1';
    }
    if TwoThenOne(b) {
      var i, j :| 0 <= i < j < |b| && b[i] == '2' && b[j] == '1';
      assert ab[|a| + i] == '2' && ab[|a| + j] == '1';
    }
    if '2' in a && '1' in b {
      var i, j :| 0 <= i < |a| && a[i] == '2' && 0 <= j < |b| && b[j] == '1';
      assert ab[i] == '2' && ab[|a| + j] == '1';
    }
    if TwoThenOne(ab) {
      var i, j :| 0 <= i < j < |ab| && ab[i] == '2' && ab[j] == '1';
      if j < |a| {
        assert a[i] == '2' && a[j] == '1';
      } else if i < |a| {
        assert a[i] == '2' && b[j - |a|] == '1';
      } else {
        assert b[i - |a|] == '2' && b[j - |a|] == '1';
      }
    }
  }

  /** How many of the two marks are recorded after `m` frames. */
  function Marks(m: nat, l: nat, k: nat): nat {
    if m > k then 2 else if m > l then 1 else 0
  }

  /** A recorded '2' stands at node `pl`, a later '1' at node `pk`, and in the reply in this order. */
  ghost predicate ShowsMarks(log: Log, marks: nat, pl: nat, pk: nat) {
    && (forall j: nat | j < |log.nodes| ::
          && ('2' in log.nodes[j].text <==> marks >= 1 && j == pl)
          && ('1' in log.nodes[j].text <==> marks >= 2 && j == pk))
    && (marks >= 1 ==> '2' in log.reply)
    && (marks >= 2 ==> TwoThenOne(log.reply))
  }

  lemma QuietPiece(log: Log, i: nat, marks: nat, pl: nat, pk: nat)
    requires ShowsMarks(log, marks, pl, pk) && i < |log.nodes| && IsAnswer(log.nodes[i])
    ensures ShowsMarks(AddText(log, i, "0"), marks, pl, pk)
  {
    TwoThenOneConcat(log.reply, "0");
  }

  lemma FirstMark(log: Log, pl: nat, pk: nat)
    requires ShowsMarks(log, 0, pl, pk) && pl < |log.nodes| && IsAnswer(log.nodes[pl])
    ensures ShowsMarks(AddText(log, pl, "2"), 1, pl, pk)
  {
    assert '2' in "2" && '1' !in "2";
  }

  lemma SecondMark(log: Log, pl: nat, pk: nat)
    requires ShowsMarks(log, 1, pl, pk) && pk < |log.nodes| && pk != pl && IsAnswer(log.nodes[pk])
    ensures ShowsMarks(AddText(log, pk, "1"), 2, pl, pk)
  {
    assert '1' in "1" && '2' !in "1";
    TwoThenOneConcat(log.reply, "1");
  }

  /** A node announced after the marked ones shows no mark. */
  lemma FrameWithoutText(log: Log, g: Frame, marks: nat, pl: nat, pk: nat)
    requires ShowsMarks(log, marks, pl, pk) && (g.Delta? ==> LastIndex(log.nodes, g.id).None?)
    requires (marks >= 1 ==> pl < |log.nodes|) && (marks >= 2 ==> pk < |log.nodes|)
    ensures ShowsMarks(Record(log, g), marks, pl, pk)
  {
    var next := Record(log, g);
    forall j: nat | j < |next.nodes|
      ensures '2' in next.nodes[j].text <==> marks >= 1 && j == pl
      ensures '1' in next.nodes[j].text <==> marks >= 2 && j == pk
    {
      if j < |log.nodes| {
        assert next.nodes[j].text == log.nodes[j].text;
      }
    }
  }

  lemma MarkStep(log: Log, g: Frame, n: nat, l: nat, k: nat, pl: nat, pk: nat)
    requires ShowsMarks(log, Marks(n, l, k), pl, pk) && l < k && pk != pl
    requires forall i | 0 <= i < |log.nodes| :: IsAnswer(log.nodes[i])
    requires g.Delta? ==> g.text == if n == l then "2" else if n == k then "1" else "0"
    requires n == l ==> g.Delta? && LastIndex(log.nodes, g.id) == Some(pl)
    requires n == k ==> g.Delta? && LastIndex(log.nodes, g.id) == Some(pk)
    requires (n >= l ==> pl < |log.nodes|) && (n >= k ==> pk < |log.nodes|)
    ensures ShowsMarks(Record(log, g), Marks(n + 1, l, k), pl, pk)
  {
    if n == l {
      FirstMark(log, pl, pk);
    } else if n == k {
      SecondMark(log, pl, pk);
    } else if g.Delta? && LastIndex(log.nodes, g.id).Some? {
      QuietPiece(log, LastIndex(log.nodes, g.id).value, Marks(n, l, k), pl, pk);
    } else {
      FrameWithoutText(log, g, Marks(n, l, k), pl, pk);
    }
  }

  lemma RecordGrows(log: Log, f: Frame)
    ensures |log.nodes| <= |Record(log, f).nodes|
  {
  }

  lemma {:induction false} NodesGrow(fs: seq<Frame>, a: nat)
    requires a <= |fs|
    ensures |RecordAll(fs[..a]).nodes| <= |RecordAll(fs).nodes|
  {
    if a == |fs| {
      assert fs[..a] == fs;
    } else {
      var before, f := fs[..|fs| - 1], fs[|fs| - 1];
      assert before[..a] == fs[..a];
      NodesGrow(before, a);
      RecordGrows(RecordAll(before), f);
    }
  }

  /** The two recorded pieces that are out of order. */
  ghost predicate OutOfOrder(fs: seq<Frame>, l: nat, k: nat, pl: nat, pk: nat) {
    && l < k < |fs| && pk < pl
    && fs[l].Delta? && Target(fs[..l], fs[l].id) == Some(pl)
    && fs[k].Delta? && Target(fs[..k], fs[k].id) == Some(pk)
  }

  lemma {:induction false} MarksAreShown(fs: seq<Frame>, l: nat, k: nat, pl: nat, pk: nat, m: nat)
    requires OutOfOrder(fs, l, k, pl, pk) && m <= |fs| && !NonTrivial(RecordAll(fs[..m]).nodes)
    ensures ShowsMarks(RecordAll(Marked(fs, l, k)[..m]), Marks(m, l, k), pl, pk)
  {
    if m > 0 {
      var gs, n := Marked(fs, l, k), m - 1;
      OneMore(fs, n);
      OneMore(gs, n);
      TrivialPrefix(RecordAll(fs[..n]), fs[n]);
      MarksAreShown(fs, l, k, pl, pk, n);
      SameBefore(fs, gs, l, k, pl, pk, n);
      MarkStep(RecordAll(gs[..n]), gs[n], n, l, k, pl, pk);
    }
  }

  lemma OneMore(fs: seq<Frame>, n: nat)
    requires n < |fs|
    ensures RecordAll(fs[..n + 1]) == Record(RecordAll(fs[..n]), fs[n])
  {
    assert fs[..n + 1] == fs[..n] + [fs[n]];
    RecordSnoc(fs[..n], fs[n]);
  }

  /** What the marked log knows about nodes and targets is what the original knows. */
  lemma SameBefore(fs: seq<Frame>, gs: seq<Frame>, l: nat, k: nat, pl: nat, pk: nat, n: nat)
    requires OutOfOrder(fs, l, k, pl, pk) && SameShape(fs, gs) && n < |fs| && !NonTrivial(RecordAll(fs[..n]).nodes)
    ensures var nodes := RecordAll(gs[..n]).nodes;
            && (forall i | 0 <= i < |nodes| :: IsAnswer(nodes[i]))
            && (n == l ==> LastIndex(nodes, gs[n].id) == Some(pl))
            && (n == k ==> LastIndex(nodes, gs[n].id) == Some(pk))
            && (n >= l ==> pl < |nodes|) && (n >= k ==> pk < |nodes|)
  {
    RewordedRuns(fs[..n], gs[..n]);
    SameButTextAt(RecordAll(fs[..n]).nodes, RecordAll(gs[..n]).nodes);
    SameLookup(RecordAll(fs[..n]).nodes, RecordAll(gs[..n]).nodes, fs[n].id);
    if n >= l {
      NodesGrowTo(fs, l, n);
    }
    if n >= k {
      NodesGrowTo(fs, k, n);
    }
  }

  lemma NodesGrowTo(fs: seq<Frame>, m: nat, n: nat)
    requires m <= n <= |fs|
    ensures |RecordAll(fs[..m]).nodes| <= |RecordAll(fs[..n]).nodes|
  {
    NodesGrow(fs[..n], m);
    assert fs[..n][..m] == fs[..m];
  }

  /** In the nodes' texts the '1' comes first. */
  lemma {:induction false} AllMarks(nodes: seq<StoredNode>, pl: nat, pk: nat)
    requires pk < pl
    requires forall j: nat | j < |nodes| ::
               ('2' in nodes[j].text <==> j == pl) && ('1' in nodes[j].text <==> j == pk)
    ensures ('2' in AllText(nodes) ==> pl < |nodes|) && !TwoThenOne(AllText(nodes))
  {
    if nodes != [] {
      var n := |nodes| - 1;
      var init := nodes[..n];
      assert forall j: nat | j < n :: init[j] == nodes[j];
      AllMarks(init, pl, pk);
      TwoThenOneConcat(AllText(init), nodes[n].text);
    }
  }

  /**
    Exactly when reply and nodes say the same: for a run without a stored trace, they do for every choice of the
    pieces of text if and only if the pieces reach the nodes in order.
   */
  lemma ReplyIsAllTextIffInOrder(fs: seq<Frame>)
    requires !NonTrivial(RecordAll(fs).nodes)
    ensures InOrder(fs) <==> forall gs | SameShape(fs, gs) && NoEmptyDelta(gs) ::
                               RecordAll(gs).reply == AllText(RecordAll(gs).nodes)
  {
    if InOrder(fs) {
      forall gs | SameShape(fs, gs) && NoEmptyDelta(gs) ensures RecordAll(gs).reply == AllText(RecordAll(gs).nodes) {
        RewordedRuns(fs, gs);
        SameButTextAt(RecordAll(fs).nodes, RecordAll(gs).nodes);
        assert !NonTrivial(RecordAll(gs).nodes) by {
          assert forall i | 0 <= i < |RecordAll(fs).nodes| :: IsAnswer(RecordAll(fs).nodes[i]);
        }
        ReplyIsAllText(gs);
      }
    } else {
      DisorderShows(fs);
    }
  }

  lemma DisorderShows(fs: seq<Frame>)
    requires !NonTrivial(RecordAll(fs).nodes) && !InOrder(fs)
    ensures exists gs | SameShape(fs, gs) && NoEmptyDelta(gs) :: RecordAll(gs).reply != AllText(RecordAll(gs).nodes)
  {
    var k := FirstDisorder(fs);
    var l := LastTargetFrame(fs[..k]);
    assert fs[..k][..l] == fs[..l];
    var pl, pk := LastTarget(fs[..k]), Target(fs[..k], fs[k].id).value;
    var gs := Marked(fs, l, k);
    assert fs[..|fs|] == fs && gs[..|fs|] == gs;
    MarksAreShown(fs, l, k, pl, pk, |fs|);
    AllMarks(RecordAll(gs).nodes, pl, pk);
    assert TwoThenOne(RecordAll(gs).reply);
  }

  /*** It happens ***/

  /** Two top-level model calls, the first still streaming after the second has begun. */
  const OVERLAP := [Stream("a", [], false, "", "1"), Stream("b", [], false, "", "2"), Stream("a", [], false, "", "3")]

  lemma OverlapLog()
    ensures FramesAfter(OVERLAP) == [NodeFrame("a:text", None, Text, "", None), Delta("a:text", "1"),
                                     NodeFrame("b:text", None, Text, "", None), Delta("b:text", "2"),
                                     Delta("a:text", "3")]
  {
    var a, b, c := OVERLAP[0], OVERLAP[1], OVERLAP[2];
    assert "a" + TEXT == "a:text" && "b" + TEXT == "b:text" && "a:text" != "b:text";
    assert OVERLAP[..2] == [a, b] && [a, b][..1] == [a] && [a][..0] == [];
    assert NearestOpen([], {}) == None;
    assert StateAfter([a]).started == {"a:text"} && StateAfter([a]).open == {};
    assert FramesAfter([a]) == [NodeFrame("a:text", None, Text, "", None), Delta("a:text", "1")];
    assert StateAfter([a, b]).started == {"a:text", "b:text"} && StateAfter([a, b]).open == {};
    assert FramesAfter([a, b]) == FramesAfter([a]) + [NodeFrame("b:text", None, Text, "", None), Delta("b:text", "2")];
  }

  lemma OverlapRecord()
    ensures RecordAll(FramesAfter(OVERLAP))
         == Log([StoredNode("a:text", None, Text, "", None, None, "13"),
                 StoredNode("b:text", None, Text, "", None, None, "2")], "123", "", None)
  {
    OverlapLog();
    var x := StoredNode("a:text", None, Text, "", None, None, "");
    var y := StoredNode("b:text", None, Text, "", None, None, "");
    var a, b := NodeFrame("a:text", None, Text, "", None), NodeFrame("b:text", None, Text, "", None);
    var fs := [a, Delta("a:text", "1"), b];
    OverlapFirstHalf(x, y, a, b);
    RecordSnoc(fs, Delta("b:text", "2"));
    RecordSnoc(fs + [Delta("b:text", "2")], Delta("a:text", "3"));
    assert FramesAfter(OVERLAP) == fs + [Delta("b:text", "2")] + [Delta("a:text", "3")];
    OverlapSecondHalf(x, y);
  }

  lemma OverlapFirstHalf(x: StoredNode, y: StoredNode, a: Frame, b: Frame)
    requires x == StoredNode("a:text", None, Text, "", None, None, "")
    requires y == StoredNode("b:text", None, Text, "", None, None, "")
    requires a == NodeFrame("a:text", None, Text, "", None) && b == NodeFrame("b:text", None, Text, "", None)
    ensures RecordAll([a, Delta("a:text", "1"), b]) == Log([x.(text := "1"), y], "1", "", None)
  {
    var d, x1 := Delta("a:text", "1"), x.(text := "1");
    assert [] + [a] == [a] && [a] + [d] == [a, d] && [a, d] + [b] == [a, d, b];
    RecordSnoc([], a);
    RecordSnoc([a], d);
    RecordSnoc([a, d], b);
    assert [] + [x] == [x] && [x][0 := x1] == [x1] && [x1] + [y] == [x1, y];
    FindsNewest([], x);
    AddedTo(Log([x], "", "", None), 0, "1", x1, "1");
  }

  lemma OverlapSecondHalf(x: StoredNode, y: StoredNode)
    requires x == StoredNode("a:text", None, Text, "", None, None, "")
    requires y == StoredNode("b:text", None, Text, "", None, None, "")
    ensures Record(Record(Log([x.(text := "1"), y], "1", "", None), Delta("b:text", "2")), Delta("a:text", "3"))
         == Log([x.(text := "13"), y.(text := "2")], "123", "", None)
  {
    var x1, y2, x13 := x.(text := "1"), y.(text := "2"), x.(text := "13");
    assert [] + [x1] == [x1] && [x1] + [y] == [x1, y] && [x1] + [y2] == [x1, y2];
    assert [x1, y][1 := y2] == [x1, y2] && [x1, y2][0 := x13] == [x13, y2];
    var log3, log4 := Log([x1, y], "1", "", None), Log([x1, y2], "12", "", None);
    FindsNewest([x1], y);
    AddedTo(log3, 1, "2", y2, "12");
    assert Record(log3, Delta("b:text", "2")) == log4;
    FindsNewest([], x1);
    FindsOlder([x1], y2, "a:text");
    AddedTo(log4, 0, "3", x13, "123");
  }

  lemma AddedTo(log: Log, i: nat, text: string, n: StoredNode, reply: string)
    requires i < |log.nodes| && IsAnswer(log.nodes[i])
    requires n == log.nodes[i].(text := log.nodes[i].text + text) && reply == log.reply + text
    ensures AddText(log, i, text) == log.(nodes := log.nodes[i := n], reply := reply)
  {
  }

  lemma FindsNewest(nodes: seq<StoredNode>, n: StoredNode)
    ensures LastIndex(nodes + [n], n.id) == Some(|nodes|)
  {
  }

  lemma FindsOlder(nodes: seq<StoredNode>, n: StoredNode, id: string)
    requires n.id != id
    ensures LastIndex(nodes + [n], id) == LastIndex(nodes, id)
  {
    assert (nodes + [n])[..|nodes|] == nodes;
  }

  /** Overlapping top-level calls break it: the reply keeps arrival order, the nodes keep announcement order. */
  lemma OverlapBreaksReplyOrder()
    ensures FreshTools(OVERLAP)
    ensures var log := RecordAll(FramesAfter(OVERLAP));
            !NonTrivial(log.nodes) && log.reply == "123" && AllText(log.nodes) == "132"
  {
    OverlapRecord();
    OverlapTexts();
  }

  lemma OverlapTexts()
    ensures var nodes := [StoredNode("a:text", None, Text, "", None, None, "13"),
                          StoredNode("b:text", None, Text, "", None, None, "2")];
            AllText(nodes) == "132" && !NonTrivial(nodes)
  {
    TwoTexts(StoredNode("a:text", None, Text, "", None, None, "13"),
             StoredNode("b:text", None, Text, "", None, None, "2"));
    assert "13" + "2" == "132";
  }

  lemma TwoTexts(x: StoredNode, y: StoredNode)
    ensures AllText([x, y]) == x.text + y.text
  {
    assert [x, y][..1] == [x] && [x][..0] == [];
    assert AllText([x, y]) == AllText([x]) + y.text;
    assert AllText([x]) == AllText([]) + x.text;
    assert "" + x.text == x.text;
  }
}
