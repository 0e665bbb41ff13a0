/**
  The run-event pipeline from end to end: the translator's frames, printed by the agent, scanned and relayed by the API,
  and parsed and reduced by the browser. Payload encoding is a parameter: any one-line form that can be read back.
 */
module EndToEnd {
  import opened Prelude
  import opened RunEvents
  import opened TraceRecorder
  import opened LiveNodes
  import opened TraceNodes
  import Wire = Sse

  /** How payloads are written and read back, by kind of frame. */
  datatype Coding = Coding(write: Frame -> string, read: (string, string) -> Frame)

  function EventName(f: Frame): string {
    match f
    case NodeFrame(_, _, _, _, _) => "node"
    case Delta(_, _) => "delta"
    case NodeEnd(_, _) => "node_end"
  }

  function Encode(c: Coding, f: Frame): Wire.Frame {
    Wire.Frame(EventName(f), c.write(f))
  }

  function EncodeAll(c: Coding, fs: seq<Frame>): (encoded: seq<Wire.Frame>)
    ensures |encoded| == |fs| && forall i | 0 <= i < |fs| :: encoded[i] == Encode(c, fs[i])
  {
    seq(|fs|, i requires 0 <= i < |fs| => Encode(c, fs[i]))
  }

  function DecodeAll(c: Coding, fs: seq<Wire.Frame>): (decoded: seq<Frame>)
    ensures |decoded| == |fs| && forall i | 0 <= i < |fs| :: decoded[i] == c.read(fs[i].event, fs[i].data)
  {
    seq(|fs|, i requires 0 <= i < |fs| => c.read(fs[i].event, fs[i].data))
  }

  /** Every payload is one line without surrounding white space, and can be read back. */
  ghost predicate Faithful(c: Coding) {
    forall f: Frame ::
      Wire.OneLine(c.write(f)) && Wire.Trimmed(c.write(f)) && c.read(EventName(f), c.write(f)) == f
  }

  /** Frames only the API reads: token usage and the run's name. */
  predicate Unrelayed(others: seq<Wire.Frame>) {
    forall i | 0 <= i < |others| :: Wire.Clean(others[i]) && !Wire.IsRelayedKind(others[i])
  }

  lemma {:induction false} RelayedAll(fs: seq<Wire.Frame>)
    requires forall i | 0 <= i < |fs| :: Wire.IsRelayedKind(fs[i])
    ensures Wire.Relayed(fs) == fs
  {
    if fs != [] {
      RelayedAll(fs[1..]);
      assert fs == [fs[0]] + fs[1..];
    }
  }

  lemma {:induction false} RelayedNone(fs: seq<Wire.Frame>)
    requires forall i | 0 <= i < |fs| :: !Wire.IsRelayedKind(fs[i])
    ensures Wire.Relayed(fs) == []
  {
    if fs != [] {
      RelayedNone(fs[1..]);
    }
  }

  lemma {:induction false} RelayedConcat(a: seq<Wire.Frame>, b: seq<Wire.Frame>)
    ensures Wire.Relayed(a + b) == Wire.Relayed(a) + Wire.Relayed(b)
  {
    if a == [] {
      assert a + b == b;
    } else {
      RelayedConcat(a[1..], b);
      RelayedCons(a[0], a[1..] + b);
      RelayedCons(a[0], a[1..]);
      assert [a[0]] + (a[1..] + b) == a + b && [a[0]] + a[1..] == a;
    }
  }

  lemma RelayedCons(f: Wire.Frame, fs: seq<Wire.Frame>)
    ensures Wire.Relayed([f] + fs) == (if Wire.IsRelayedKind(f) then [f] else []) + Wire.Relayed(fs)
  {
    assert ([f] + fs)[1..] == fs;
  }

  lemma EncodedAreClean(c: Coding, fs: seq<Frame>)
    requires Faithful(c)
    ensures forall i | 0 <= i < |fs| :: Wire.Clean(EncodeAll(c, fs)[i]) && Wire.IsRelayedKind(EncodeAll(c, fs)[i])
    ensures DecodeAll(c, EncodeAll(c, fs)) == fs
  {
    forall i | 0 <= i < |fs| ensures Wire.Clean(Encode(c, fs[i])) && Wire.IsRelayedKind(Encode(c, fs[i])) {
      NamesAreClean(fs[i]);
    }
  }

  lemma NamesAreClean(f: Frame)
    ensures Wire.OneLine(EventName(f)) && Wire.Trimmed(EventName(f))
  {
  }

  /** Of the frames up to `n`, those of the run are relayed and the others are not. */
  lemma RelayedPrefix(c: Coding, fs: seq<Frame>, others: seq<Wire.Frame>, n: nat)
    requires Faithful(c) && Unrelayed(others) && n <= |fs| + |others|
    ensures Wire.Relayed((EncodeAll(c, fs) + others)[..n]) == EncodeAll(c, fs[..Min(n, |fs|)])
  {
    var k := Min(n, |fs|);
    var front, rest := EncodeAll(c, fs[..k]), others[..n - k];
    assert (EncodeAll(c, fs) + others)[..n] == front + rest;
    EncodedAreClean(c, fs[..k]);
    RelayedConcat(front, rest);
    RelayedAll(front);
    RelayedNone(rest);
  }

  /**
    From translator to screen: whatever pieces the browser reads, it ends with nothing unparsed, and reads back exactly
    the translator's frames up to the first error or overlong line, followed by the API's own closing.
   */
  lemma FramesReachTheBrowser(es: seq<Event>, c: Coding, others: seq<Wire.Frame>, limit: nat, n: nat, save: Wire.Save,
                              chunks: seq<string>) returns (closing: seq<Wire.Frame>)
    requires Faithful(c) && Unrelayed(others) && Wire.CleanSave(save)
    requires var wire := EncodeAll(c, FramesAfter(es)) + others;
             Wire.StopsAt(wire, limit, n)
             && Wire.Join(chunks) == Wire.PrintAll(Wire.Sent(Wire.Scan(Wire.PrintAll(wire), limit, ""), save))
    ensures var seen, frames := Wire.Feed("", chunks), FramesAfter(es);
            var k := Min(n, |frames|);
            && seen.rest == "" && |seen.events| == k + |closing| && seen.events[k..] == closing
            && DecodeAll(c, seen.events[..k]) == frames[..k]
    ensures Wire.Closes(closing, n < |FramesAfter(es)| + |others|, save)
  {
    var frames := FramesAfter(es);
    var wire := EncodeAll(c, frames) + others;
    EncodedAreClean(c, frames);
    assert forall i | 0 <= i < |wire| :: Wire.Clean(wire[i]);
    Wire.PipelineDelivers(wire, limit, save, chunks);
    Wire.BeforeStopIs(wire, limit, n);
    RelayedPrefix(c, frames, others, n);
    closing := Wire.ClosingFrames(Wire.StopOutcome(wire, limit), save);
    EncodedAreClean(c, frames[..Min(n, |frames|)]);
  }

  /**
    And so what the browser shows when a run was read to its end are the nodes that its events announce, and a reload
    shows the same.
   */
  lemma BrowserShowsTheRun(es: seq<Event>, c: Coding, others: seq<Wire.Frame>, limit: nat, save: Wire.Save,
                           chunks: seq<string>)
    requires FreshTools(es) && Faithful(c) && Unrelayed(others) && Wire.CleanSave(save)
    requires var wire := EncodeAll(c, FramesAfter(es)) + others;
             Wire.StopsAt(wire, limit, |wire|)
             && Wire.Join(chunks) == Wire.PrintAll(Wire.Sent(Wire.Scan(Wire.PrintAll(wire), limit, ""), save))
    ensures var seen, k := Wire.Feed("", chunks), |FramesAfter(es)|;
            && k <= |seen.events|
            && Live(DecodeAll(c, seen.events[..k])) == Hydrate(Recorded(es))
            && AreNodesOf(es, Sources(es), Recorded(es))
  {
    var wire := EncodeAll(c, FramesAfter(es)) + others;
    var closing := FramesReachTheBrowser(es, c, others, limit, |wire|, save, chunks);
    var frames := FramesAfter(es);
    assert frames[..|frames|] == frames;
    LiveTraceIsWhatHappened(es);
  }
}
