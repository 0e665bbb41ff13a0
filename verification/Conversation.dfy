/**
  The send protocol on one conversation (api/chat.go, `Send`): any number of sends interleave, each inserting
  its message, loading the stored summary and watermark, loading the rows above it, running the agent, saving
  the reply and storing the captured summary, one SQL statement at a time.
 */
module Conversation {
  import opened Prelude
  import opened Decimal
  import opened Messages
  import opened Summarization
  import opened Watermark
  import opened AgentGraph

  datatype Row = Row(id: int, fromUser: bool, tokens: nat)

  /** The conversation's `summary` and `summary_through_message_id` columns. */
  datatype Stored = Stored(summary: Option<Summary>, watermark: Option<int>)

  /** A summary text: the rows it stands for and those whose content was lost. */
  datatype Summary = Summary(rows: seq<int>, lost: set<int>, tokens: nat)

  /** Where one send stands. `visible` records the rows it saw when it loaded the history. */
  datatype Phase =
    | Inserted
    | PairLoaded(pair: Stored)
    | Running(pair: Stored, visible: seq<int>, run: Run)
    | ReplySaved(pair: Stored, captured: Option<Checkpoint>)

  /** `lost` collects the rows folded by any failed summarizer call so far. */
  datatype State = State(rows: seq<Row>, lastId: int, stored: Stored, sends: map<nat, Phase>, lost: set<int>)

  datatype Event =
    | Begin(sid: nat, tokens: nat)
    | LoadPair(sid: nat)
    | LoadHistory(sid: nat)
    | AgentStep(sid: nat, step: Step)
    | SaveReply(sid: nat, tokens: nat)
    | StoreSummary(sid: nat, tokens: nat)
    | Abort(sid: nat)
    | OtherInsert

  const START := State([], 0, Stored(None, None), map[], {})

  function RowIds(rows: seq<Row>): (ids: seq<int>)
    ensures |ids| == |rows| && forall i | 0 <= i < |rows| :: ids[i] == rows[i].id
  {
    seq(|rows|, i requires 0 <= i < |rows| => rows[i].id)
  }

  /** A history row as the agent receives it. */
  function RowMessage(row: Row): Message
    requires 0 <= row.id
  {
    Message(if row.fromUser then Human else AI([]), Some(FormatInt(row.id)), row.tokens, [row.id], {})
  }

  /** The rows `where id > watermark order by id`, or all rows without a watermark. */
  function History(rows: seq<Row>, watermark: Option<int>): seq<Message>
    requires forall i | 0 <= i < |rows| :: 0 <= rows[i].id
  {
    if rows == [] then []
    else (if watermark.None? || rows[0].id > watermark.value then [RowMessage(rows[0])] else [])
         + History(rows[1..], watermark)
  }

  /** The opening turn that carries a stored summary: a human message without an id. */
  function SummaryMessage(summary: Summary): Message {
    Message(Human, None, summary.tokens, summary.rows, summary.lost)
  }

  function Prompt(rows: seq<Row>, pair: Stored): seq<Message>
    requires forall i | 0 <= i < |rows| :: 0 <= rows[i].id
  {
    (if pair.summary.Some? && pair.watermark.Some? then [SummaryMessage(pair.summary.value)] else [])
    + History(rows, pair.watermark)
  }

  function Insert(s: State, fromUser: bool, tokens: nat): State
    requires s.lastId < MAX_INT64
  {
    s.(rows := s.rows + [Row(s.lastId + 1, fromUser, tokens)], lastId := s.lastId + 1)
  }

  predicate HasNonNegativeIds(s: State) {
    forall i | 0 <= i < |s.rows| :: 0 <= s.rows[i].id
  }

  function Remove(sends: map<nat, Phase>, sid: nat): map<nat, Phase> {
    sends - {sid}
  }

  function AgentStepState(s: State, sid: nat, step: Step): State
    requires sid in s.sends && s.sends[sid].Running?
  {
    var p := s.sends[sid];
    var run := Advance(p.run, step);
    s.(sends := s.sends[sid := p.(run := run)],
       lost := if step.CompactStep? && step.call.Failed? then s.lost + Lost(run.msgs) else s.lost)
  }

  /** One statement of one send; an event that does not fit the send's phase changes nothing. */
  function Apply(s: State, e: Event): State {
    match e
    case Begin(sid, tokens) =>
      if sid in s.sends || s.lastId >= MAX_INT64 then s
      else var t := Insert(s, true, tokens); t.(sends := t.sends[sid := Inserted])
    case LoadPair(sid) =>
      if sid in s.sends && s.sends[sid].Inserted? then s.(sends := s.sends[sid := PairLoaded(s.stored)]) else s
    case LoadHistory(sid) =>
      if sid in s.sends && s.sends[sid].PairLoaded? && HasNonNegativeIds(s) then
        var pair := s.sends[sid].pair;
        s.(sends := s.sends[sid :=
          Running(pair, RowIds(s.rows), Run(AtCompact, Prompt(s.rows, pair), [], None))])
      else s
    case AgentStep(sid, step) =>
      if sid in s.sends && s.sends[sid].Running? then AgentStepState(s, sid, step) else s
    case SaveReply(sid, tokens) =>
      if sid in s.sends && s.sends[sid].Running? && s.sends[sid].run.node.AtEnd? && s.lastId < MAX_INT64 then
        var t := Insert(s, false, tokens);
        t.(sends := t.sends[sid := ReplySaved(s.sends[sid].pair, s.sends[sid].run.captured)])
      else s
    case StoreSummary(sid, tokens) =>
      if sid in s.sends && s.sends[sid].ReplySaved? then
        var t := s.(sends := Remove(s.sends, sid));
        (match s.sends[sid].captured
         case None => t
         case Some(c) => t.(stored := Stored(Some(Summary(c.rows, c.lost, tokens)), Some(c.through))))
      else s
    case Abort(sid) => s.(sends := Remove(s.sends, sid))
    case OtherInsert => if s.lastId < MAX_INT64 then s.(lastId := s.lastId + 1) else s
  }

  function Exec(es: seq<Event>): State {
    if es == [] then START else Apply(Exec(es[..|es| - 1]), es[|es| - 1])
  }

  lemma ExecSnoc(es: seq<Event>, e: Event)
    ensures Exec(es + [e]) == Apply(Exec(es), e)
  {
    assert (es + [e])[..|es|] == es;
  }

  /*** Invariant ***/

  /** A stored pair says: the summary stands for exactly the rows at or below the watermark. */
  ghost predicate PairCovers(pair: Stored, rows: seq<Row>, lastId: int, lost: set<int>) {
    pair.watermark.Some? ==>
      pair.summary.Some? && 0 < pair.watermark.value <= lastId
      && pair.summary.value.rows == UpTo(RowIds(rows), pair.watermark.value)
      && pair.summary.value.lost <= lost
  }

  function Floor(pair: Stored): int {
    if pair.watermark.Some? then pair.watermark.value else 0
  }

  ghost predicate CheckpointCovers(c: Checkpoint, s: State, floor: int) {
    0 < c.through <= s.lastId && floor < c.through && c.rows == UpTo(RowIds(s.rows), c.through) && c.lost <= s.lost
  }

  ghost predicate PhaseInv(p: Phase, s: State) {
    match p
    case Inserted => s.rows != []
    case PairLoaded(pair) => s.rows != [] && PairCovers(pair, s.rows, s.lastId, s.lost)
    case Running(pair, visible, run) =>
      && run.msgs != []
      && |visible| <= |s.rows| && visible == RowIds(s.rows)[..|visible|]
      && RunInv(run, visible, Floor(pair))
      && Lost(run.msgs) <= s.lost
      && (run.captured.Some? ==> CheckpointCovers(run.captured.value, s, Floor(pair)))
    case ReplySaved(pair, captured) =>
      captured.Some? ==> CheckpointCovers(captured.value, s, Floor(pair))
  }

  ghost predicate Inv(s: State) {
    && 0 <= s.lastId <= MAX_INT64
    && Ascending(RowIds(s.rows))
    && (forall i | 0 <= i < |s.rows| :: 0 < s.rows[i].id <= s.lastId)
    && PairCovers(s.stored, s.rows, s.lastId, s.lost)
    && (forall sid | sid in s.sends :: PhaseInv(s.sends[sid], s))
  }

  /*** Loading the prompt ***/

  lemma {:induction false} HistoryCovers(rows: seq<Row>, watermark: Option<int>)
    requires forall i | 0 <= i < |rows| :: 0 <= rows[i].id
    ensures Rows(History(rows, watermark))
         == if watermark.None? then RowIds(rows) else Above(RowIds(rows), watermark.value)
    ensures Lost(History(rows, watermark)) == {}
  {
    if rows != [] {
      var ids, rest := RowIds(rows), History(rows[1..], watermark);
      HistoryCovers(rows[1..], watermark);
      assert ids[0] == rows[0].id && ids[1..] == RowIds(rows[1..]);
      assert ids == [rows[0].id] + RowIds(rows[1..]);
      if watermark.None? || rows[0].id > watermark.value {
        RowInFront(rows[0], rest);
        assert History(rows, watermark) == [RowMessage(rows[0])] + rest;
      } else {
        assert History(rows, watermark) == rest;
      }
    }
  }

  lemma RowInFront(row: Row, rest: seq<Message>)
    requires 0 <= row.id
    ensures Rows([RowMessage(row)] + rest) == [row.id] + Rows(rest)
    ensures Lost([RowMessage(row)] + rest) == Lost(rest)
  {
    RowsConcat([RowMessage(row)], rest);
    RowsOfOne(RowMessage(row));
  }

  lemma {:induction false} HistoryIsLaid(rows: seq<Row>, watermark: Option<int>)
    requires forall i | 0 <= i < |rows| :: 0 < rows[i].id <= MAX_INT64
    ensures forall m | m in History(rows, watermark) ::
      IsDurable(m) && IsRowMessage(m) && (if watermark.Some? then watermark.value else 0) < m.rows[0]
      && !m.kind.ToolResult? && Calls(m) == []
  {
    if rows != [] {
      HistoryIsLaid(rows[1..], watermark);
      RowIdRoundTrip(rows[0].id);
    }
  }

  lemma {:induction false} PlainTurnsArePaired(msgs: seq<Message>)
    requires forall m | m in msgs :: !m.kind.ToolResult? && Calls(m) == []
    ensures WellPaired(msgs)
    decreases |msgs|
  {
    if msgs != [] {
      PlainTurnsArePaired(msgs[1..]);
    }
  }

  /** The rows of a table in id order, as `bigserial` numbers them. */
  predicate RowsAscend(rows: seq<Row>) {
    Ascending(RowIds(rows)) && forall i | 0 <= i < |rows| :: 0 < rows[i].id <= MAX_INT64
  }

  /**
    The loaded prompt stands for every row visible at the load, exactly once and in order, whichever watermark
    was read before.
   */
  lemma PromptCoversVisibleRows(rows: seq<Row>, pair: Stored, lastId: int, lost: set<int>)
    requires RowsAscend(rows)
    requires PairCovers(pair, rows, lastId, lost)
    ensures Rows(Prompt(rows, pair)) == RowIds(rows)
    ensures Lost(Prompt(rows, pair)) <= lost
  {
    HistoryCovers(rows, pair.watermark);
    if pair.watermark.Some? {
      var first := [SummaryMessage(pair.summary.value)];
      assert Rows(first) == first[0].rows + Rows(first[1..]) && Lost(first) == first[0].lost + Lost(first[1..]);
      RowsConcat(first, History(rows, pair.watermark));
      UpToThenAbove(RowIds(rows), pair.watermark.value);
    } else {
      assert Prompt(rows, pair) == History(rows, pair.watermark);
    }
  }

  lemma PromptStartsRun(rows: seq<Row>, pair: Stored, lastId: int, lost: set<int>)
    requires RowsAscend(rows)
    requires PairCovers(pair, rows, lastId, lost)
    ensures RunInv(Run(AtCompact, Prompt(rows, pair), [], None), RowIds(rows), Floor(pair))
  {
    PromptCoversVisibleRows(rows, pair, lastId, lost);
    PromptIsLaid(rows, pair);
    var run := Run(AtCompact, Prompt(rows, pair), [], None);
    assert Reached(run, Floor(pair)) == Floor(pair);
    assert [Floor(pair)] + run.reported == [Floor(pair)];
  }

  lemma PromptIsLaid(rows: seq<Row>, pair: Stored)
    requires forall i | 0 <= i < |rows| :: 0 < rows[i].id <= MAX_INT64
    ensures Laid(Prompt(rows, pair), Floor(pair)) && WellPaired(Prompt(rows, pair))
  {
    var prompt, history := Prompt(rows, pair), History(rows, pair.watermark);
    HistoryIsLaid(rows, pair.watermark);
    var k := |prompt| - |history|;
    forall i | 0 <= i < |prompt|
      ensures LaidAt(prompt[i], i, Floor(pair)) && !prompt[i].kind.ToolResult? && Calls(prompt[i]) == []
    {
      if i >= k {
        assert prompt[i] == history[i - k] && prompt[i] in history;
      }
    }
    PlainTurnsArePaired(prompt);
  }

  /*** What the prompt says ***/

  /** A turn that names the row, speaks in its role and carries its content. */
  predicate TurnOf(m: Message, row: Row) {
    && m.id.Some? && ParseInt64(m.id.value) == Some(row.id)
    && (m.kind.Human? <==> row.fromUser) && (m.kind.AI? <==> !row.fromUser) && Calls(m) == []
    && m.tokens == row.tokens && m.rows == [row.id] && m.lost == {}
  }

  /** The turns from row `n` on, the first above the watermark, behind the stored summary if there is one. */
  predicate PromptFrom(msgs: seq<Message>, rows: seq<Row>, pair: Stored, n: nat) {
    var k := if pair.summary.Some? && pair.watermark.Some? then 1 else 0;
    && n <= |rows| && |msgs| == k + |rows| - n
    && (forall i | 0 <= i < n :: pair.watermark.Some? && rows[i].id <= pair.watermark.value)
    && (forall i | n <= i < |rows| :: pair.watermark.Some? ==> pair.watermark.value < rows[i].id)
    && (k == 1 ==>
          var s := pair.summary.value;
          msgs[0].kind == Human && msgs[0].id == None && msgs[0].tokens == s.tokens && msgs[0].rows == s.rows)
    && (forall i | n <= i < |rows| :: TurnOf(msgs[k + i - n], rows[i]))
  }

  ghost predicate IsPromptOf(msgs: seq<Message>, rows: seq<Row>, pair: Stored) {
    exists n: nat :: PromptFrom(msgs, rows, pair, n)
  }

  /** `history` holds the turns of the rows from `n` on, the first above the watermark. */
  predicate HistoryFrom(history: seq<Message>, rows: seq<Row>, watermark: Option<int>, n: nat) {
    && n <= |rows| && |history| == |rows| - n
    && (forall i | 0 <= i < n :: watermark.Some? && rows[i].id <= watermark.value)
    && (forall i | n <= i < |rows| :: watermark.Some? ==> watermark.value < rows[i].id)
    && (forall i | n <= i < |rows| :: TurnOf(history[i - n], rows[i]))
  }

  lemma RowSkipped(row: Row, rest: seq<Row>, history: seq<Message>, watermark: Option<int>, n: nat)
    requires HistoryFrom(history, rest, watermark, n) && watermark.Some? && row.id <= watermark.value
    ensures HistoryFrom(history, [row] + rest, watermark, n + 1)
  {
    var rows := [row] + rest;
    assert forall i | 1 <= i < |rows| :: rows[i] == rest[i - 1];
  }

  lemma RowTaken(row: Row, rest: seq<Row>, history: seq<Message>, watermark: Option<int>, n: nat)
    requires HistoryFrom(history, rest, watermark, n) && (watermark.Some? ==> watermark.value < row.id)
    requires 0 < row.id <= MAX_INT64 && forall i | 0 <= i < |rest| :: row.id < rest[i].id
    ensures HistoryFrom([RowMessage(row)] + history, [row] + rest, watermark, 0)
  {
    RowIdRoundTrip(row.id);
    assert rest != [] ==> row.id < rest[0].id;
    assert n == 0;
    var rows, turns := [row] + rest, [RowMessage(row)] + history;
    forall i | 0 <= i < |rows|
      ensures TurnOf(turns[i], rows[i]) && (watermark.Some? ==> watermark.value < rows[i].id)
    {
      if i > 0 {
        assert turns[i] == history[i - 1] && rows[i] == rest[i - 1];
      }
    }
  }

  lemma RestAscends(rows: seq<Row>)
    requires RowsAscend(rows) && rows != []
    ensures RowsAscend(rows[1..]) && forall i | 0 <= i < |rows[1..]| :: rows[0].id < rows[1..][i].id
  {
    var ids, rest := RowIds(rows), rows[1..];
    assert RowIds(rest) == ids[1..];
    forall i | 0 <= i < |rest| ensures rows[0].id < rest[i].id {
      assert ids[0] < ids[i + 1];
    }
  }

  lemma {:induction false} HistoryTurns(rows: seq<Row>, watermark: Option<int>) returns (n: nat)
    requires RowsAscend(rows)
    ensures HistoryFrom(History(rows, watermark), rows, watermark, n)
  {
    n := 0;
    if rows != [] {
      RestAscends(rows);
      n := HistoryTurns(rows[1..], watermark);
      n := FirstRow(rows, watermark, n);
    }
  }

  lemma FirstRow(rows: seq<Row>, watermark: Option<int>, n: nat) returns (m: nat)
    requires rows != [] && 0 < rows[0].id <= MAX_INT64
    requires forall i | 0 <= i < |rows[1..]| :: rows[0].id < rows[1..][i].id
    requires HistoryFrom(History(rows[1..], watermark), rows[1..], watermark, n)
    ensures HistoryFrom(History(rows, watermark), rows, watermark, m)
  {
    var rest, history := rows[1..], History(rows[1..], watermark);
    assert rows == [rows[0]] + rest;
    assert forall i | 0 <= i < |rows| :: 0 <= rows[i].id;
    if watermark.Some? && rows[0].id <= watermark.value {
      assert History(rows, watermark) == history;
      RowSkipped(rows[0], rest, history, watermark, n);
      m := n + 1;
    } else {
      assert History(rows, watermark) == [RowMessage(rows[0])] + history;
      RowTaken(rows[0], rest, history, watermark, n);
      m := 0;
    }
  }

  /**
    The loaded prompt, turn by turn: the stored summary first, as one human turn, then every row above the watermark
    in order, the user's as human turns and the assistant's as assistant turns without calls, each with its content.
   */
  lemma PromptIsTurns(rows: seq<Row>, pair: Stored)
    requires RowsAscend(rows)
    ensures IsPromptOf(Prompt(rows, pair), rows, pair)
  {
    var n := HistoryTurns(rows, pair.watermark);
    assert PromptFrom(Prompt(rows, pair), rows, pair, n);
  }

  /*** Steps ***/

  /** What other statements may do to the tables: append a newer row, spend ids, lose more rows. */
  ghost predicate Extends(s: State, t: State) {
    && s.lastId <= t.lastId && s.lost <= t.lost
    && (t.rows == s.rows
        || (|t.rows| == |s.rows| + 1 && t.rows[..|s.rows|] == s.rows && s.lastId < t.rows[|s.rows|].id))
  }

  lemma UpToStable(s: State, t: State, w: int)
    requires Extends(s, t) && w <= s.lastId
    ensures UpTo(RowIds(t.rows), w) == UpTo(RowIds(s.rows), w)
  {
    if t.rows != s.rows {
      var r := t.rows[|s.rows|].id;
      assert RowIds(t.rows) == RowIds(s.rows) + [r];
      UpToAppend(RowIds(s.rows), r, w);
    }
  }

  lemma PairStable(s: State, t: State, pair: Stored)
    requires Extends(s, t) && PairCovers(pair, s.rows, s.lastId, s.lost)
    ensures PairCovers(pair, t.rows, t.lastId, t.lost)
  {
    if pair.watermark.Some? {
      UpToStable(s, t, pair.watermark.value);
    }
  }

  lemma PhaseStable(s: State, t: State, p: Phase)
    requires Extends(s, t) && PhaseInv(p, s)
    ensures PhaseInv(p, t)
  {
    match p
    case Inserted =>
    case PairLoaded(pair) => PairStable(s, t, pair);
    case Running(pair, visible, run) =>
      assert RowIds(t.rows)[..|visible|] == RowIds(s.rows)[..|visible|];
      if run.captured.Some? {
        UpToStable(s, t, run.captured.value.through);
      }
    case ReplySaved(pair, captured) =>
      if captured.Some? {
        UpToStable(s, t, captured.value.through);
      }
  }

  /** Re-establishes the invariant when one send moves to phase `p` and the tables only grow. */
  lemma MoveKeepsInv(s: State, t: State, sid: nat, p: Phase)
    requires Inv(s) && Extends(s, t) && t.stored == s.stored && t.sends == s.sends[sid := p]
    requires t.lastId <= MAX_INT64 && Ascending(RowIds(t.rows))
    requires forall i | 0 <= i < |t.rows| :: 0 < t.rows[i].id <= t.lastId
    requires PhaseInv(p, t)
    ensures Inv(t)
  {
    PairStable(s, t, s.stored);
    forall k | k in t.sends ensures PhaseInv(t.sends[k], t) {
      if k != sid {
        PhaseStable(s, t, s.sends[k]);
      }
    }
  }

  lemma InsertExtends(s: State, fromUser: bool, tokens: nat)
    requires Inv(s) && s.lastId < MAX_INT64
    ensures var t := Insert(s, fromUser, tokens);
            Extends(s, t) && Ascending(RowIds(t.rows)) && forall i | 0 <= i < |t.rows| :: 0 < t.rows[i].id <= t.lastId
  {
    var t := Insert(s, fromUser, tokens);
    var ids := RowIds(t.rows);
    forall i, j | 0 <= i < j < |ids| ensures ids[i] < ids[j] {
      assert ids[i] == RowIds(s.rows)[i];
      if j < |s.rows| {
        assert ids[j] == RowIds(s.rows)[j];
      }
    }
  }

  lemma UpToVisible(visible: seq<int>, ids: seq<int>, w: int)
    requires |visible| <= |ids| && visible == ids[..|visible|] && Ascending(ids) && w in visible
    ensures UpTo(ids, w) == UpTo(visible, w)
  {
    var later := ids[|visible|..];
    assert ids == visible + later;
    var k :| 0 <= k < |visible| && visible[k] == w;
    forall i | 0 <= i < |later| ensures w < later[i] {
      assert later[i] == ids[|visible| + i] && ids[k] == w;
    }
    UpToConcat(visible, later, w);
    UpToNone(later, w);
  }

  /** A checkpoint good for the rows a send saw is good for the table as it is now. */
  lemma CheckpointIsGlobal(s: State, t: State, p: Phase, c: Checkpoint)
    requires Inv(s) && p.Running? && RunInv(p.run, p.visible, Floor(p.pair))
    requires |p.visible| <= |s.rows| && p.visible == RowIds(s.rows)[..|p.visible|]
    requires p.run.captured == Some(c) && c.lost <= t.lost
    requires t.rows == s.rows && t.lastId == s.lastId
    ensures CheckpointCovers(c, t, Floor(p.pair))
  {
    UpToVisible(p.visible, RowIds(s.rows), c.through);
    var all := [Floor(p.pair)] + p.run.reported;
    var i :| 0 <= i < |p.run.reported| && p.run.reported[i] == c.through;
    assert all[i + 1] == c.through && all[0] == Floor(p.pair);
    var j :| 0 <= j < |p.visible| && p.visible[j] == c.through;
    assert RowIds(s.rows)[j] == c.through == s.rows[j].id;
  }

  lemma AgentStepKeepsInv(s: State, sid: nat, step: Step)
    requires Inv(s) && sid in s.sends && s.sends[sid].Running?
    ensures Inv(AgentStepState(s, sid, step))
  {
    var p := s.sends[sid];
    var t := AgentStepState(s, sid, step);
    var next := t.sends[sid];
    assert PhaseInv(p, s);
    StepKeepsInv(p.run, step, p.visible, Floor(p.pair));
    assert next.run.captured.Some? ==> next.run.captured.value.lost <= t.lost by {
      if step.CompactStep? && step.call.Failed? {
      } else {
        StepLoses(p.run, step);
      }
    }
    assert Lost(next.run.msgs) <= t.lost by {
      if step.CompactStep? && step.call.Failed? {
      } else {
        StepLoses(p.run, step);
      }
    }
    if next.run.captured.Some? {
      CheckpointIsGlobal(s, t, next, next.run.captured.value);
    }
    MoveKeepsInv(s, t, sid, next);
  }

  lemma StoreKeepsInv(s: State, sid: nat, tokens: nat)
    requires Inv(s) && sid in s.sends && s.sends[sid].ReplySaved?
    ensures Inv(Apply(s, StoreSummary(sid, tokens)))
  {
    var t := Apply(s, StoreSummary(sid, tokens));
    assert PhaseInv(s.sends[sid], s);
    forall k | k in t.sends ensures PhaseInv(t.sends[k], t) {
      PhaseStable(s, t, s.sends[k]);
    }
    match s.sends[sid].pair.watermark
    case None =>
    case Some(w) =>
  }

  lemma LoadHistoryKeepsInv(s: State, sid: nat)
    requires Inv(s) && sid in s.sends && s.sends[sid].PairLoaded?
    ensures Inv(Apply(s, LoadHistory(sid)))
  {
    var t := Apply(s, LoadHistory(sid));
    var pair := s.sends[sid].pair;
    assert PhaseInv(s.sends[sid], s);
    PromptStartsRun(s.rows, pair, s.lastId, s.lost);
    PromptCoversVisibleRows(s.rows, pair, s.lastId, s.lost);
    assert RowIds(s.rows) != [];
    assert t.sends[sid].run.msgs != [];
    MoveKeepsInv(s, t, sid, t.sends[sid]);
  }

  lemma SaveReplyKeepsInv(s: State, sid: nat, tokens: nat)
    requires Inv(s) && sid in s.sends && s.sends[sid].Running? && s.lastId < MAX_INT64
    ensures Inv(Apply(s, SaveReply(sid, tokens)))
  {
    var t, p := Apply(s, SaveReply(sid, tokens)), s.sends[sid];
    if p.run.node.AtEnd? {
      InsertExtends(s, false, tokens);
      assert PhaseInv(p, s);
      PhaseStable(s, t, p);
      MoveKeepsInv(s, t, sid, t.sends[sid]);
    }
  }

  /** Ids spent elsewhere and sends that stop half way. */
  lemma OthersKeepInv(s: State, t: State)
    requires Inv(s) && t.rows == s.rows && t.stored == s.stored && t.lost == s.lost
    requires s.lastId <= t.lastId <= MAX_INT64 && forall k | k in t.sends :: k in s.sends && t.sends[k] == s.sends[k]
    ensures Inv(t)
  {
    PairStable(s, t, s.stored);
    forall k | k in t.sends ensures PhaseInv(t.sends[k], t) {
      PhaseStable(s, t, s.sends[k]);
    }
  }

  lemma ApplyKeepsInv(s: State, e: Event)
    requires Inv(s)
    ensures Inv(Apply(s, e))
  {
    var t := Apply(s, e);
    match e
    case Begin(sid, tokens) =>
      if !(sid in s.sends || s.lastId >= MAX_INT64) {
        InsertExtends(s, true, tokens);
        MoveKeepsInv(s, t, sid, Inserted);
      }
    case LoadPair(sid) =>
      if sid in s.sends && s.sends[sid].Inserted? {
        assert PhaseInv(s.sends[sid], s);
        MoveKeepsInv(s, t, sid, t.sends[sid]);
      }
    case LoadHistory(sid) =>
      if sid in s.sends && s.sends[sid].PairLoaded? {
        LoadHistoryKeepsInv(s, sid);
      }
    case AgentStep(sid, step) =>
      if sid in s.sends && s.sends[sid].Running? {
        AgentStepKeepsInv(s, sid, step);
      }
    case SaveReply(sid, tokens) =>
      if sid in s.sends && s.sends[sid].Running? && s.lastId < MAX_INT64 {
        SaveReplyKeepsInv(s, sid, tokens);
      }
    case StoreSummary(sid, tokens) =>
      if sid in s.sends && s.sends[sid].ReplySaved? {
        StoreKeepsInv(s, sid, tokens);
      }
    case Abort(sid) => OthersKeepInv(s, t);
    case OtherInsert => OthersKeepInv(s, t);
  }

  lemma {:induction false} ExecKeepsInv(es: seq<Event>)
    ensures Inv(Exec(es))
  {
    if es != [] {
      ExecKeepsInv(es[..|es| - 1]);
      ApplyKeepsInv(Exec(es[..|es| - 1]), es[|es| - 1]);
    }
  }

  /*** Main results ***/

  /**
    Coverage of the stored summary: after any interleaving of sends, with any number of compactions per run,
    null ids and failures included, the summary stands for exactly the rows at or below the watermark, in order.
   */
  lemma StoredSummaryCoversThroughWatermark(es: seq<Event>)
    ensures var s := Exec(es);
            s.stored.watermark.Some? ==>
              s.stored.summary.Some?
              && s.stored.summary.value.rows == UpTo(RowIds(s.rows), s.stored.watermark.value)
              && s.stored.summary.value.lost <= s.lost
  {
    ExecKeepsInv(es);
  }

  /**
    Loading the history, after any run and however long ago the pair was read, sees every row exactly once, with the
    rows above that pair's watermark turn by turn.
   */
  lemma LoadSeesEveryRow(es: seq<Event>, sid: nat)
    requires sid in Exec(es).sends && Exec(es).sends[sid].PairLoaded?
    ensures var s := Exec(es);
            var t := Exec(es + [LoadHistory(sid)]);
            sid in t.sends && t.sends[sid].Running?
            && Rows(t.sends[sid].run.msgs) == RowIds(s.rows) && t.sends[sid].visible == RowIds(s.rows)
            && IsPromptOf(t.sends[sid].run.msgs, s.rows, s.sends[sid].pair)
  {
    ExecKeepsInv(es);
    ExecSnoc(es, LoadHistory(sid));
    var s := Exec(es);
    assert PhaseInv(s.sends[sid], s);
    LoadAll(s, sid);
    PromptIsTurns(s.rows, s.sends[sid].pair);
    PromptCoversVisibleRows(s.rows, s.sends[sid].pair, s.lastId, s.lost);
  }

  /**
    Coverage of every prompt: as long as a run goes on, each model call accounts for every row visible at its
    load exactly once and in order, and what it is missing was folded by a failed summarizer call.
   */
  lemma EveryPromptCoversItsLoad(es: seq<Event>, sid: nat)
    requires sid in Exec(es).sends && Exec(es).sends[sid].Running?
    ensures var s := Exec(es);
            var p := s.sends[sid];
            Rows(p.run.msgs) == p.visible && Ascending(p.visible) && Lost(p.run.msgs) <= s.lost
            && p.visible <= RowIds(s.rows)
            && (p.run.node.AtAgent? ==> EachResultFollowsItsCall(p.run.msgs) && EachCallAnswered(p.run.msgs))
  {
    ExecKeepsInv(es);
    var s := Exec(es);
    assert PhaseInv(s.sends[sid], s);
    PairedByIndex(s.sends[sid].run.msgs);
  }

  ghost predicate SummarizerNeverFails(es: seq<Event>) {
    forall i | 0 <= i < |es| && es[i].AgentStep? && es[i].step.CompactStep? :: es[i].step.call.Summarized?
  }

  lemma {:induction false} NoFailureNoLoss(es: seq<Event>)
    requires SummarizerNeverFails(es)
    ensures Exec(es).lost == {}
  {
    if es != [] {
      NoFailureNoLoss(es[..|es| - 1]);
    }
  }

  /** When no summarizer call fails, no running prompt and no stored summary ever lacks the content of a row. */
  lemma NothingLostWithoutFailure(es: seq<Event>)
    requires SummarizerNeverFails(es)
    ensures var s := Exec(es);
            && (forall sid | sid in s.sends && s.sends[sid].Running? :: Lost(s.sends[sid].run.msgs) == {})
            && (s.stored.watermark.Some? ==> s.stored.summary.Some? && s.stored.summary.value.lost == {})
  {
    NoFailureNoLoss(es);
    ExecKeepsInv(es);
    var s := Exec(es);
    forall sid | sid in s.sends && s.sends[sid].Running? ensures Lost(s.sends[sid].run.msgs) == {} {
      assert PhaseInv(s.sends[sid], s);
    }
  }

  /*** A send's opening statements ***/

  /** The phase of a send that has loaded these rows and this pair. */
  function LoadedAt(rows: seq<Row>, pair: Stored): (p: Phase)
    requires forall i | 0 <= i < |rows| :: 0 <= rows[i].id
    ensures p.Running?
  {
    Running(pair, RowIds(rows), Run(AtCompact, Prompt(rows, pair), [], None))
  }

  lemma LoadAll(s: State, sid: nat)
    requires sid in s.sends && s.sends[sid].PairLoaded? && HasNonNegativeIds(s)
    ensures Apply(s, LoadHistory(sid)) == s.(sends := s.sends[sid := LoadedAt(s.rows, s.sends[sid].pair)])
  {
  }

  /** A send that begins, reads the stored pair and loads the history. */
  lemma BeginThenLoad(s: State, sid: nat, tokens: nat)
    requires sid !in s.sends && 0 <= s.lastId < MAX_INT64 && HasNonNegativeIds(s)
    ensures var t := Insert(s, true, tokens);
            HasNonNegativeIds(t)
            && Apply(Apply(Apply(s, Begin(sid, tokens)), LoadPair(sid)), LoadHistory(sid))
                 == t.(sends := s.sends[sid := LoadedAt(t.rows, s.stored)])
  {
    var t := Insert(s, true, tokens);
    var begun, paired := t.(sends := s.sends[sid := Inserted]), t.(sends := s.sends[sid := PairLoaded(s.stored)]);
    assert Apply(s, Begin(sid, tokens)) == begun;
    assert Apply(begun, LoadPair(sid)) == paired;
    LoadAll(paired, sid);
    assert paired.sends[sid := LoadedAt(t.rows, s.stored)] == s.sends[sid := LoadedAt(t.rows, s.stored)];
  }

  lemma ThreeMore(es: seq<Event>, a: Event, b: Event, c: Event)
    ensures Exec(es + [a, b, c]) == Apply(Apply(Apply(Exec(es), a), b), c)
  {
    ExecSnoc(es, a);
    ExecSnoc(es + [a], b);
    ExecSnoc(es + [a] + [b], c);
    assert es + [a, b, c] == es + [a] + [b] + [c];
  }
}
