/** `Send` as one handler over the tables (api/chat.go): the statements of `Conversation`, run without interference. */
module SendHandler {
  import opened Prelude
  import opened Decimal
  import opened Messages
  import opened Watermark
  import opened AgentGraph
  import opened Conversation

  /** A conversation's messages and its summary columns. */
  class Tables {
    var rows: seq<Row>
    var lastId: int
    var stored: Stored

    ghost predicate Holds(s: State)
      reads this
    {
      rows == s.rows && lastId == s.lastId && stored == s.stored
    }

    method InsertMessage(fromUser: bool, tokens: nat) returns (ok: bool)
      modifies `rows, `lastId
      ensures ok <==> old(lastId) < MAX_INT64
      ensures if ok then lastId == old(lastId) + 1 && rows == old(rows) + [Row(lastId, fromUser, tokens)]
              else lastId == old(lastId) && rows == old(rows)
    {
      ok := lastId < MAX_INT64;
      if ok {
        lastId := lastId + 1;
        rows := rows + [Row(lastId, fromUser, tokens)];
      }
    }

    /** Append the rows above the watermark, then put the stored summary in front. */
    method LoadPrompt(pair: Stored) returns (msgs: seq<Message>)
      requires forall i | 0 <= i < |rows| :: 0 <= rows[i].id
      ensures msgs == Prompt(rows, pair)
      ensures RowsAscend(rows) ==> IsPromptOf(msgs, rows, pair)
    {
      msgs := [];
      for i := 0 to |rows|
        invariant msgs + History(rows[i..], pair.watermark) == History(rows, pair.watermark)
      {
        var rest := History(rows[i + 1..], pair.watermark);
        assert rows[i..][0] == rows[i] && rows[i..][1..] == rows[i + 1..];
        if pair.watermark.None? || rows[i].id > pair.watermark.value {
          assert msgs + ([RowMessage(rows[i])] + rest) == (msgs + [RowMessage(rows[i])]) + rest;
          msgs := msgs + [RowMessage(rows[i])];
        } else {
          assert [] + rest == rest;
        }
      }
      assert msgs == History(rows, pair.watermark);
      if pair.summary.Some? && pair.watermark.Some? {
        msgs := [SummaryMessage(pair.summary.value)] + msgs;
      }
      assert RowsAscend(rows) ==> IsPromptOf(msgs, rows, pair) by {
        if RowsAscend(rows) {
          PromptIsTurns(rows, pair);
        }
      }
    }

    method StoreSummary(c: Checkpoint, tokens: nat)
      modifies `stored
      ensures stored == Stored(Some(Summary(c.rows, c.lost, tokens)), Some(c.through))
    {
      stored := Stored(Some(Summary(c.rows, c.lost, tokens)), Some(c.through));
    }
  }

  /*** A send's statements as events ***/

  function Opening(sid: nat, tokens: nat): seq<Event> {
    [Begin(sid, tokens), LoadPair(sid), LoadHistory(sid)]
  }

  function Stepping(sid: nat, steps: seq<Step>): seq<Event> {
    seq(|steps|, i requires 0 <= i < |steps| => AgentStep(sid, steps[i]))
  }

  function Closing(sid: nat, done: bool, replyTokens: nat, summaryTokens: nat): seq<Event> {
    if done then [SaveReply(sid, replyTokens), StoreSummary(sid, summaryTokens)] else [Abort(sid)]
  }

  /** `t` is `s` but for send `sid`, which now stands at `p`, and for the rows any summarizer lost. */
  ghost predicate Stands(s: State, t: State, sid: nat, p: Phase) {
    t.rows == s.rows && t.lastId == s.lastId && t.stored == s.stored && t.sends == s.sends[sid := p]
  }

  lemma StepStands(s: State, es: seq<Event>, sid: nat, p: Phase, step: Step)
    requires p.Running? && Stands(s, Exec(es), sid, p)
    ensures Stands(s, Exec(es + [AgentStep(sid, step)]), sid, p.(run := Advance(p.run, step)))
  {
    ExecSnoc(es, AgentStep(sid, step));
    var t, next := Exec(es), p.(run := Advance(p.run, step));
    assert t.sends[sid] == p;
    assert s.sends[sid := p][sid := next] == s.sends[sid := next];
  }

  lemma OneStep(s: State, es: seq<Event>, sid: nat, p: Phase, steps: seq<Step>, i: nat)
    requires i < |steps| && p.Running? && Stands(s, Exec(es + Stepping(sid, steps)[..i]), sid, p)
    ensures Stands(s, Exec(es + Stepping(sid, steps)[..i + 1]), sid, p.(run := Advance(p.run, steps[i])))
  {
    var events := Stepping(sid, steps);
    StepStands(s, es + events[..i], sid, p, steps[i]);
    assert es + events[..i + 1] == es + events[..i] + [AgentStep(sid, steps[i])];
  }

  /** The run as `Send` drives it, and the same steps taken one by one as events. */
  method RunAgent(ghost es: seq<Event>, ghost sid: nat, ghost s: State, ghost p: Phase, start: Run, steps: seq<Step>)
    returns (run: Run)
    requires p.Running? && p.run == start && Stands(s, Exec(es), sid, p)
    ensures run == RunSteps(start, steps)
    ensures Stands(s, Exec(es + Stepping(sid, steps)), sid, p.(run := run))
  {
    run := start;
    ghost var events := Stepping(sid, steps);
    assert es + events[..0] == es;
    for i := 0 to |steps|
      invariant run == RunSteps(start, steps[..i])
      invariant Stands(s, Exec(es + events[..i]), sid, p.(run := run))
    {
      assert steps[..i + 1][..i] == steps[..i];
      OneStep(s, es, sid, p.(run := run), steps, i);
      run := Advance(run, steps[i]);
    }
    assert steps[..|steps|] == steps && events[..|steps|] == events;
  }

  /** After `es`, the opening statements of a send leave the tables at `s` and the send at `p`. */
  ghost predicate Opened(es: seq<Event>, sid: nat, tokens: nat, s: State, p: Phase) {
    && Exec(es).lastId < MAX_INT64 && s == Insert(Exec(es), true, tokens)
    && HasNonNegativeIds(s) && p == LoadedAt(s.rows, s.stored)
    && Stands(s, Exec(es + Opening(sid, tokens)), sid, p)
  }

  /** The first half of a send, as events. */
  lemma Begun(es: seq<Event>, sid: nat, tokens: nat)
    requires sid !in Exec(es).sends && Exec(es).lastId < MAX_INT64
    ensures var t := Insert(Exec(es), true, tokens);
            HasNonNegativeIds(t) && Opened(es, sid, tokens, t, LoadedAt(t.rows, t.stored))
  {
    IdsAreNonNegative(es);
    BeginThenLoad(Exec(es), sid, tokens);
    ThreeMore(es, Begin(sid, tokens), LoadPair(sid), LoadHistory(sid));
  }

  function AfterStore(stored: Stored, captured: Option<Checkpoint>, tokens: nat): Stored {
    match captured
    case None => stored
    case Some(c) => Stored(Some(Summary(c.rows, c.lost, tokens)), Some(c.through))
  }

  /** The second half: the reply is saved, then the captured summary, if any, is stored. */
  lemma Ended(s: State, es: seq<Event>, sid: nat, p: Phase, replyTokens: nat, summaryTokens: nat)
    requires p.Running? && p.run.node.AtEnd? && Stands(s, Exec(es), sid, p) && s.lastId < MAX_INT64
    requires sid !in s.sends
    ensures var t := Exec(es + Closing(sid, true, replyTokens, summaryTokens));
            t.rows == Insert(s, false, replyTokens).rows && t.lastId == s.lastId + 1 && t.sends == s.sends
            && t.stored == AfterStore(s.stored, p.run.captured, summaryTokens)
  {
    var saved := es + [SaveReply(sid, replyTokens)];
    ExecSnoc(es, SaveReply(sid, replyTokens));
    ExecSnoc(saved, StoreSummary(sid, summaryTokens));
    assert Exec(es).sends[sid] == p;
    assert Stands(Insert(s, false, replyTokens), Exec(saved), sid, ReplySaved(p.pair, p.run.captured));
    assert Remove(Exec(saved).sends, sid) == s.sends;
    assert es + Closing(sid, true, replyTokens, summaryTokens) == saved + [StoreSummary(sid, summaryTokens)];
  }

  /** A send that stops half way leaves the tables as they are. */
  lemma Stopped(s: State, es: seq<Event>, sid: nat, p: Phase)
    requires Stands(s, Exec(es), sid, p) && sid !in s.sends
    ensures var t := Exec(es + [Abort(sid)]);
            t.rows == s.rows && t.lastId == s.lastId && t.stored == s.stored && t.sends == s.sends
  {
    ExecSnoc(es, Abort(sid));
    assert Remove(Exec(es).sends, sid) == s.sends;
  }

  /** Save the user's message, load the stored pair, and build the prompt. */
  method Open(tables: Tables, ghost es: seq<Event>, ghost sid: nat, tokens: nat)
    returns (ok: bool, start: Run, ghost s: State, ghost p: Phase)
    requires tables.Holds(Exec(es)) && sid !in Exec(es).sends
    modifies tables
    ensures ok <==> old(tables.lastId) < MAX_INT64
    ensures !ok ==> tables.Holds(Exec(es))
    ensures ok ==> tables.Holds(s) && Opened(es, sid, tokens, s, p) && p.run == start
  {
    ok := tables.InsertMessage(true, tokens);
    start := Run(AtCompact, [], [], None);
    s, p := Exec(es), Inserted;
    if ok {
      s := Insert(Exec(es), true, tokens);
      Begun(es, sid, tokens);
      p := LoadedAt(s.rows, s.stored);
      var pair := tables.stored;
      var prompt := tables.LoadPrompt(pair);
      start := Run(AtCompact, prompt, [], None);
    }
  }

  /** A run that ended leaves its reply, if it fits, and what it captured; any other leaves nothing. */
  ghost predicate EndOutcome(s: State, run: Run, replyTokens: nat, summaryTokens: nat, done: bool, rows: seq<Row>,
                             stored: Stored)
  {
    && (done <==> run.node.AtEnd? && s.lastId < MAX_INT64)
    && rows == (if done then s.rows + [Row(s.lastId + 1, false, replyTokens)] else s.rows)
    && stored == if done then AfterStore(s.stored, run.captured, summaryTokens) else s.stored
  }

  /** Save the reply of a finished run, then store what it captured; a run that did not finish stores nothing. */
  method Finish(tables: Tables, ghost s: State, ghost es: seq<Event>, ghost sid: nat, ghost p: Phase, run: Run,
                replyTokens: nat, summaryTokens: nat)
    returns (done: bool)
    requires tables.Holds(s) && Stands(s, Exec(es), sid, p) && sid !in s.sends && p.Running? && p.run == run
    modifies tables
    ensures var t := Exec(es + Closing(sid, done, replyTokens, summaryTokens));
            tables.Holds(t) && t.sends == s.sends
    ensures EndOutcome(s, run, replyTokens, summaryTokens, done, tables.rows, tables.stored)
  {
    done := false;
    if run.node.AtEnd? {
      done := tables.InsertMessage(false, replyTokens);
    }
    if !done {
      Stopped(s, es, sid, p);
      return;
    }
    if run.captured.Some? {
      tables.StoreSummary(run.captured.value, summaryTokens);
    }
    Ended(s, es, sid, p, replyTokens, summaryTokens);
  }

  method RunAndFinish(tables: Tables, ghost s: State, ghost es: seq<Event>, ghost sid: nat, ghost p: Phase,
                      start: Run, steps: seq<Step>, replyTokens: nat, summaryTokens: nat)
    returns (done: bool)
    requires tables.Holds(s) && Stands(s, Exec(es), sid, p) && sid !in s.sends && p.Running? && p.run == start
    modifies tables
    ensures var t := Exec(es + (Stepping(sid, steps) + Closing(sid, done, replyTokens, summaryTokens)));
            tables.Holds(t) && t.sends == s.sends
    ensures EndOutcome(s, RunSteps(start, steps), replyTokens, summaryTokens, done, tables.rows, tables.stored)
  {
    var run := RunAgent(es, sid, s, p, start, steps);
    ghost var ran := es + Stepping(sid, steps);
    done := Finish(tables, s, ran, sid, p.(run := run), run, replyTokens, summaryTokens);
    assert es + (Stepping(sid, steps) + Closing(sid, done, replyTokens, summaryTokens))
        == ran + Closing(sid, done, replyTokens, summaryTokens);
  }

  /** A stored summary stands for exactly the rows at or below its watermark. */
  predicate SummaryCovers(stored: Stored, rows: seq<Row>) {
    stored.watermark.Some? ==>
      stored.summary.Some? && stored.summary.value.rows == UpTo(RowIds(rows), stored.watermark.value)
  }

  lemma Covered(es: seq<Event>)
    ensures SummaryCovers(Exec(es).stored, Exec(es).rows)
  {
    StoredSummaryCoversThroughWatermark(es);
  }

  /** The events a send amounts to; none when its first insert does not fit. */
  function Statements(sid: nat, fits: bool, tokens: nat, steps: seq<Step>, done: bool, replyTokens: nat,
                      summaryTokens: nat): seq<Event>
  {
    if fits then Opening(sid, tokens) + Stepping(sid, steps) + Closing(sid, done, replyTokens, summaryTokens) else []
  }

  /** What one send makes of the tables, given the run its prompt leads to. */
  ghost predicate SendOutcome(s: State, tokens: nat, steps: seq<Step>, replyTokens: nat, summaryTokens: nat,
                              done: bool, rows: seq<Row>, stored: Stored)
    requires 0 <= s.lastId && HasNonNegativeIds(s)
  {
    if s.lastId >= MAX_INT64 then !done && rows == s.rows && stored == s.stored
    else
      var asked := Insert(s, true, tokens);
      var run := RunSteps(LoadedAt(asked.rows, asked.stored).run, steps);
      EndOutcome(asked, run, replyTokens, summaryTokens, done, rows, stored)
  }

  /**
    What a send adds to the conversation: the user's turn, then the assistant's if the send succeeded, under the next
    ids; it stores a summary only if its run captured one, and then that one with the row it runs through.
   */
  lemma SendAddsTurns(s: State, tokens: nat, steps: seq<Step>, replyTokens: nat, summaryTokens: nat, done: bool,
                      rows: seq<Row>, stored: Stored)
    requires 0 <= s.lastId < MAX_INT64 && HasNonNegativeIds(s)
    requires SendOutcome(s, tokens, steps, replyTokens, summaryTokens, done, rows, stored)
    ensures rows == s.rows + [Row(s.lastId + 1, true, tokens)]
                    + if done then [Row(s.lastId + 2, false, replyTokens)] else []
    ensures stored != s.stored ==>
              done && stored.summary.Some? && stored.watermark.Some? && stored.summary.value.tokens == summaryTokens
  {
  }

  /**
    One whole send on tables left by any earlier sends. Its effect is that of its statements as events, appended to
    the earlier ones, so all that holds of event sequences holds of it. It succeeds exactly when both inserts fit and
    the run on its prompt ends; it then stores what that run captured. The user's message survives a run that fails,
    which stores nothing else.
   */
  method Send(tables: Tables, ghost es: seq<Event>, ghost sid: nat, tokens: nat, steps: seq<Step>, replyTokens: nat,
              summaryTokens: nat)
    returns (done: bool)
    requires tables.Holds(Exec(es)) && sid !in Exec(es).sends
    modifies tables
    ensures var t := Exec(es + Statements(sid, old(tables.lastId) < MAX_INT64, tokens, steps, done, replyTokens,
                                          summaryTokens));
            tables.Holds(t) && t.sends == Exec(es).sends
    ensures 0 <= Exec(es).lastId && HasNonNegativeIds(Exec(es))
    ensures SendOutcome(Exec(es), tokens, steps, replyTokens, summaryTokens, done, tables.rows, tables.stored)
    ensures SummaryCovers(tables.stored, tables.rows)
  {
    IdsAreNonNegative(es);
    var start;
    ghost var s, p;
    done, start, s, p := Open(tables, es, sid, tokens);
    if !done {
      assert es + [] == es;
      Covered(es);
      return;
    }
    done := RunAndFinish(tables, s, es + Opening(sid, tokens), sid, p, start, steps, replyTokens, summaryTokens);
    OneByOne(es, sid, tokens, steps, done, replyTokens, summaryTokens);
  }

  lemma OneByOne(es: seq<Event>, sid: nat, tokens: nat, steps: seq<Step>, done: bool, replyTokens: nat,
                 summaryTokens: nat)
    ensures var all := es + Statements(sid, true, tokens, steps, done, replyTokens, summaryTokens);
            all == es + Opening(sid, tokens) + (Stepping(sid, steps) + Closing(sid, done, replyTokens, summaryTokens))
            && SummaryCovers(Exec(all).stored, Exec(all).rows)
  {
    Covered(es + Statements(sid, true, tokens, steps, done, replyTokens, summaryTokens));
  }

  lemma IdsAreNonNegative(es: seq<Event>)
    ensures 0 <= Exec(es).lastId && HasNonNegativeIds(Exec(es))
  {
    ExecKeepsInv(es);
  }
}
