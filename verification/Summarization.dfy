/** Compaction of a message list (agent/src/middleware/summarization.py). */
module Summarization {
  import opened Prelude
  import opened Decimal
  import opened Messages

  /*** _split ***/

  /** First loop of `_split`: extend the tail leftwards while the next message still fits the budget. */
  function GrowTail(msgs: seq<Message>, budget: int, cut: nat, used: nat): (start: nat)
    requires cut < |msgs|
    ensures start <= cut
    decreases cut
  {
    if cut > 0 && used + msgs[cut - 1].tokens <= budget
    then GrowTail(msgs, budget, cut - 1, used + msgs[cut - 1].tokens)
    else cut
  }

  /** Second loop of `_split`: never start the tail at a tool result. */
  function SkipTools(msgs: seq<Message>, cut: nat): (start: nat)
    requires cut < |msgs|
    ensures start <= cut
    decreases cut
  {
    if cut > 0 && msgs[cut].kind.ToolResult? then SkipTools(msgs, cut - 1) else cut
  }

  function SplitCut(msgs: seq<Message>, budget: int): (cut: nat)
    ensures cut <= |msgs|
  {
    if msgs == [] then 0
    else SkipTools(msgs, GrowTail(msgs, budget, |msgs| - 1, msgs[|msgs| - 1].tokens))
  }

  /** The suffix from `i` fits the budget, or is the newest message alone. */
  predicate Fits(msgs: seq<Message>, budget: int, i: nat)
    requires i < |msgs|
  {
    i == |msgs| - 1 || Tokens(msgs[i..]) <= budget
  }

  /** `start` is where the longest acceptable suffix begins. */
  ghost predicate IsLongestFit(msgs: seq<Message>, budget: int, start: nat) {
    start < |msgs| && Fits(msgs, budget, start) && forall i | 0 <= i < start :: !Fits(msgs, budget, i)
  }

  predicate MayCut(msgs: seq<Message>, i: nat)
    requires i < |msgs|
  {
    i == 0 || !msgs[i].kind.ToolResult?
  }

  /** `cut` is the greatest admissible position at or before `start`. */
  ghost predicate IsGreatestCut(msgs: seq<Message>, start: nat, cut: nat)
    requires start < |msgs|
  {
    cut <= start && MayCut(msgs, cut) && forall i | cut < i <= start :: !MayCut(msgs, i)
  }

  ghost predicate IsBestCut(msgs: seq<Message>, budget: int, cut: nat) {
    exists start | 0 <= start < |msgs| :: IsLongestFit(msgs, budget, start) && IsGreatestCut(msgs, start, cut)
  }

  lemma {:induction false} TokensShrink(msgs: seq<Message>, i: nat, j: nat)
    requires i <= j <= |msgs|
    ensures Tokens(msgs[j..]) <= Tokens(msgs[i..])
    decreases j - i
  {
    if i < j {
      assert msgs[i..][1..] == msgs[i + 1..];
      TokensShrink(msgs, i + 1, j);
    }
  }

  lemma NoLongerFits(msgs: seq<Message>, budget: int, cut: nat)
    requires 0 < cut < |msgs| && budget < Tokens(msgs[cut - 1..])
    ensures forall i | 0 <= i < cut :: !Fits(msgs, budget, i)
  {
    forall i | 0 <= i < cut ensures !Fits(msgs, budget, i) {
      TokensShrink(msgs, i, cut - 1);
    }
  }

  lemma OneMoreToken(msgs: seq<Message>, cut: nat)
    requires 0 < cut <= |msgs|
    ensures Tokens(msgs[cut - 1..]) == msgs[cut - 1].tokens + Tokens(msgs[cut..])
  {
    assert msgs[cut - 1..][1..] == msgs[cut..];
  }

  lemma {:induction false} GrowTailIsLongest(msgs: seq<Message>, budget: int, cut: nat, used: nat)
    requires cut < |msgs| && used == Tokens(msgs[cut..]) && Fits(msgs, budget, cut)
    ensures IsLongestFit(msgs, budget, GrowTail(msgs, budget, cut, used))
    decreases cut
  {
    if cut > 0 {
      OneMoreToken(msgs, cut);
      if used + msgs[cut - 1].tokens <= budget {
        GrowTailIsLongest(msgs, budget, cut - 1, used + msgs[cut - 1].tokens);
      } else {
        NoLongerFits(msgs, budget, cut);
      }
    }
  }

  lemma {:induction false} SkipToolsIsGreatest(msgs: seq<Message>, cut: nat)
    requires cut < |msgs|
    ensures IsGreatestCut(msgs, cut, SkipTools(msgs, cut))
    decreases cut
  {
    if cut > 0 && msgs[cut].kind.ToolResult? {
      SkipToolsIsGreatest(msgs, cut - 1);
    }
  }

  /** `_split` cuts at the best position, and there is only one best position. */
  lemma SplitIsOptimal(msgs: seq<Message>, budget: int, cut: nat)
    requires msgs != []
    ensures IsBestCut(msgs, budget, cut) <==> cut == SplitCut(msgs, budget)
  {
    var last := |msgs| - 1;
    assert msgs[last..] == [msgs[last]];
    assert Tokens(msgs[last..]) == msgs[last].tokens + Tokens(msgs[last..][1..]);
    var start := GrowTail(msgs, budget, last, msgs[last].tokens);
    GrowTailIsLongest(msgs, budget, last, msgs[last].tokens);
    SkipToolsIsGreatest(msgs, start);
    if IsBestCut(msgs, budget, cut) {
      var s :| 0 <= s < |msgs| && IsLongestFit(msgs, budget, s) && IsGreatestCut(msgs, s, cut);
      assert s == start;
      var best := SkipTools(msgs, start);
      assert !(best < cut) && !(cut < best);
    }
  }

  method Split(messages: seq<Message>, budget: int) returns (head: seq<Message>, tail: seq<Message>)
    ensures head + tail == messages
    ensures messages == [] ==> head == [] && tail == []
    ensures messages != [] ==> tail != [] && IsBestCut(messages, budget, |head|)
    ensures |head| == SplitCut(messages, budget)
  {
    if messages == [] {
      return [], [];
    }
    var cut := |messages| - 1;
    var used: nat := messages[cut].tokens;
    while cut > 0 && used + messages[cut - 1].tokens <= budget
      invariant 0 <= cut < |messages|
      invariant GrowTail(messages, budget, cut, used)
             == GrowTail(messages, budget, |messages| - 1, messages[|messages| - 1].tokens)
    {
      cut := cut - 1;
      used := used + messages[cut].tokens;
    }
    while cut > 0 && messages[cut].kind.ToolResult?
      invariant 0 <= cut < |messages|
      invariant SkipTools(messages, cut) == SplitCut(messages, budget)
    {
      cut := cut - 1;
    }
    SplitIsOptimal(messages, budget, cut);
    head, tail := messages[..cut], messages[cut..];
  }

  /** Both halves of a split keep calls and results together. */
  lemma SplitKeepsPairing(msgs: seq<Message>, budget: int)
    requires WellPaired(msgs)
    ensures var cut := SplitCut(msgs, budget);
            WellPaired(msgs[..cut]) && WellPaired(msgs[cut..])
  {
    if msgs != [] {
      SplitCutInside(msgs, budget);
      WellPairedCut(msgs, SplitCut(msgs, budget));
    }
  }

  lemma SplitCutInside(msgs: seq<Message>, budget: int)
    requires msgs != []
    ensures SplitCut(msgs, budget) < |msgs| && MayCut(msgs, SplitCut(msgs, budget))
  {
    SplitIsOptimal(msgs, budget, SplitCut(msgs, budget));
  }

  /*** _newest_durable_id ***/

  function NewestDurableId(head: seq<Message>): Option<string> {
    if head == [] then None
    else if IsDurable(head[|head| - 1]) then head[|head| - 1].id
    else NewestDurableId(head[..|head| - 1])
  }

  /** `at` holds the last durable message of `head`. */
  ghost predicate IsNewestDurable(head: seq<Message>, at: nat) {
    at < |head| && IsDurable(head[at]) && forall i | at < i < |head| :: !IsDurable(head[i])
  }

  lemma {:induction false} NewestDurableFound(head: seq<Message>) returns (at: nat)
    ensures NewestDurableId(head).None? <==> forall i | 0 <= i < |head| :: !IsDurable(head[i])
    ensures NewestDurableId(head).Some? ==> IsNewestDurable(head, at) && head[at].id == NewestDurableId(head)
  {
    at := 0;
    if head != [] {
      var n := |head| - 1;
      if IsDurable(head[n]) {
        at := n;
      } else {
        at := NewestDurableFound(head[..n]);
        assert forall i | 0 <= i < n :: head[..n][i] == head[i];
      }
    }
  }

  /** The reverse search loop. */
  method FindNewestDurableId(head: seq<Message>) returns (id: Option<string>)
    ensures id == NewestDurableId(head)
    ensures id.None? <==> forall i | 0 <= i < |head| :: !IsDurable(head[i])
    ensures id.Some? ==> exists at | 0 <= at < |head| :: IsNewestDurable(head, at) && head[at].id == id
  {
    var k := |head|;
    assert head[..k] == head;
    while k > 0
      invariant 0 <= k <= |head|
      invariant NewestDurableId(head[..k]) == NewestDurableId(head)
      invariant forall i | k <= i < |head| :: !IsDurable(head[i])
    {
      k := k - 1;
      assert head[..k + 1][..k] == head[..k];
      if IsDurable(head[k]) {
        return head[k].id;
      }
    }
    return None;
  }

  /*** compact ***/

  /** What the summarizer call did: a summary of some length, or an exception. */
  datatype Summarizer = Summarized(tokens: nat) | Failed(tokens: nat)

  /** The message that replaces the head: a summary stands for its rows, a placeholder loses them. */
  function Replacement(head: seq<Message>, call: Summarizer): Message {
    Message(Human, None, call.tokens, Rows(head),
            if call.Summarized? then Lost(head) else Lost(head) + set r | r in Rows(head))
  }

  datatype Compaction = Unchanged | Folded(kept: seq<Message>, through: Option<string>)

  /**
    One `compact` call. `total` is the token count of the whole list, which gates compaction; `through` is the
    id handed to the summarizer and reported with its node.
   */
  function Compact(msgs: seq<Message>, total: nat, threshold: int, budget: int, call: Summarizer): Compaction {
    if total < threshold then Unchanged
    else
      var cut := SplitCut(msgs, budget);
      if cut == 0 then Unchanged
      else Folded([Replacement(msgs[..cut], call)] + msgs[cut..], NewestDurableId(msgs[..cut]))
  }

  /** The message list after one `compact` step. */
  function Compacted(msgs: seq<Message>, total: nat, threshold: int, budget: int, call: Summarizer): seq<Message> {
    match Compact(msgs, total, threshold, budget, call)
    case Unchanged => msgs
    case Folded(kept, _) => kept
  }

  lemma ReplacingPreserves(msgs: seq<Message>, cut: nat, call: Summarizer)
    requires cut <= |msgs| && WellPaired(msgs[cut..])
    ensures var kept := [Replacement(msgs[..cut], call)] + msgs[cut..];
            Rows(kept) == Rows(msgs) && WellPaired(kept)
            && (call.Summarized? ==> Lost(kept) == Lost(msgs))
            && Lost(msgs) <= Lost(kept) <= Lost(msgs) + set r | r in Rows(msgs)
  {
    var head, tail := msgs[..cut], msgs[cut..];
    var first := Replacement(head, call);
    assert msgs == head + tail;
    RowsConcat(head, tail);
    RowsConcat([first], tail);
    RowsOfOne(first);
    assert [first][GroupLength([first])..] == [];
    WellPairedConcat([first], tail);
  }

  lemma RowsOfOne(m: Message)
    ensures Rows([m]) == m.rows && Lost([m]) == m.lost
  {
    assert [m][1..] == [];
    assert m.rows + [] == m.rows;
    assert m.lost + {} == m.lost;
  }

  /**
    Compaction never forgets a row, keeps rows in order and tool results paired, and loses content
    only when the summarizer fails.
   */
  lemma CompactionPreserves(msgs: seq<Message>, total: nat, threshold: int, budget: int, call: Summarizer)
    requires WellPaired(msgs)
    ensures var kept := Compacted(msgs, total, threshold, budget, call);
            Rows(kept) == Rows(msgs) && WellPaired(kept)
            && (call.Summarized? ==> Lost(kept) == Lost(msgs))
            && Lost(msgs) <= Lost(kept) <= Lost(msgs) + set r | r in Rows(msgs)
            && (msgs != [] ==> kept != [] && kept[|kept| - 1] == msgs[|msgs| - 1])
  {
    var cut := SplitCut(msgs, budget);
    if total >= threshold && cut != 0 {
      SplitKeepsPairing(msgs, budget);
      SplitCutInside(msgs, budget);
      ReplacingPreserves(msgs, cut, call);
      var kept := [Replacement(msgs[..cut], call)] + msgs[cut..];
      assert Compacted(msgs, total, threshold, budget, call) == kept;
      assert kept[|kept| - 1] == msgs[|msgs| - 1];
    }
  }

  /** What a head is replaced by: one human turn without an id that stands for the same rows. */
  predicate StandsForHead(m: Message, head: seq<Message>, call: Summarizer) {
    && m.kind == Human && m.id == None && m.tokens == call.tokens && m.rows == Rows(head)
    && m.lost == if call.Failed? then Lost(head) + (set r | r in Rows(head)) else Lost(head)
  }

  /** The id a fold reports: that of the last durable message it folds, none exactly when it folds no such message. */
  ghost predicate ReportsNewest(through: Option<string>, head: seq<Message>) {
    match through
    case None => forall i | 0 <= i < |head| :: !IsDurable(head[i])
    case Some(_) => exists at | 0 <= at < |head| :: IsNewestDurable(head, at) && head[at].id == through
  }

  /**
    What one `compact` call does, told by the best cut alone: nothing below the threshold or where the best cut leaves
    no head; otherwise the messages from the cut on stay as they are behind one that stands for all before it.
   */
  lemma CompactionIsGated(msgs: seq<Message>, total: nat, threshold: int, budget: int, call: Summarizer, cut: nat)
    requires IsBestCut(msgs, budget, cut)
    ensures var kept := Compacted(msgs, total, threshold, budget, call);
            if total < threshold || cut == 0 then kept == msgs
            else kept != [] && StandsForHead(kept[0], msgs[..cut], call) && kept[1..] == msgs[cut..]
    ensures var c := Compact(msgs, total, threshold, budget, call);
            && (c.Unchanged? <==> total < threshold || cut == 0)
            && (c.Folded? ==> ReportsNewest(c.through, msgs[..cut]))
  {
    SplitIsOptimal(msgs, budget, cut);
    var at := NewestDurableFound(msgs[..cut]);
  }

  /** An empty list has nothing to fold. */
  lemma EmptyIsUnchanged(total: nat, threshold: int, budget: int, call: Summarizer)
    ensures Compacted([], total, threshold, budget, call) == []
  {
  }
}
