/**
  The agent's message list and what must hold of it before a model call.

  `rows` and `lost` are bookkeeping carried beside each message: the conversation's database rows the message
  stands for, oldest first, and those among them whose content a failed summarizer call threw away.
 */
module Messages {
  import opened Prelude
  import opened Decimal

  datatype Kind = Human | AI(calls: seq<string>) | ToolResult(callId: string)

  datatype Message = Message(kind: Kind, id: Option<string>, tokens: nat, rows: seq<int>, lost: set<int>)

  function Calls(m: Message): seq<string> {
    if m.kind.AI? then m.kind.calls else []
  }

  /** A message that came from the database: its id is all digits. */
  predicate IsDurable(m: Message) {
    m.id.Some? && IsDigits(m.id.value)
  }

  function Tokens(msgs: seq<Message>): nat {
    if msgs == [] then 0 else msgs[0].tokens + Tokens(msgs[1..])
  }

  /** Every row a message list stands for, in list order. */
  function Rows(msgs: seq<Message>): seq<int> {
    if msgs == [] then [] else msgs[0].rows + Rows(msgs[1..])
  }

  function Lost(msgs: seq<Message>): set<int> {
    if msgs == [] then {} else msgs[0].lost + Lost(msgs[1..])
  }

  lemma {:induction false} RowsConcat(a: seq<Message>, b: seq<Message>)
    ensures Rows(a + b) == Rows(a) + Rows(b)
    ensures Lost(a + b) == Lost(a) + Lost(b)
  {
    if a == [] {
      assert a + b == b;
    } else {
      assert (a + b)[1..] == a[1..] + b;
      RowsConcat(a[1..], b);
    }
  }

  lemma {:induction false} RowsOfSilent(msgs: seq<Message>)
    requires forall i | 0 <= i < |msgs| :: msgs[i].rows == []
    ensures Rows(msgs) == []
  {
    if msgs != [] {
      RowsOfSilent(msgs[1..]);
    }
  }

  /*** Tool pairing ***/

  /** `msgs` holds, from position `at`, one tool result per call, in call order. */
  predicate Answered(msgs: seq<Message>, at: nat, calls: seq<string>) {
    at + |calls| <= |msgs| && forall i | at <= i < at + |calls| :: msgs[i].kind == ToolResult(calls[i - at])
  }

  /** The length of the group that opens `msgs`: a message and the results of its calls. */
  function GroupLength(msgs: seq<Message>): nat
    requires msgs != []
  {
    1 + |Calls(msgs[0])|
  }

  predicate OpensWithGroup(msgs: seq<Message>) {
    msgs != [] && !msgs[0].kind.ToolResult? && Answered(msgs, 1, Calls(msgs[0]))
  }

  /**
    The list is a sequence of groups, each a human or assistant message followed by exactly one
    tool result per tool call, in call order.
   */
  predicate WellPaired(msgs: seq<Message>)
    decreases |msgs|
  {
    msgs == [] || (OpensWithGroup(msgs) && WellPaired(msgs[GroupLength(msgs)..]))
  }

  /** Tool result `i` answers a call of message `j`, with nothing but results of that group in between. */
  predicate ResultOf(msgs: seq<Message>, j: nat, i: nat)
    requires j < i < |msgs|
  {
    i - j <= |Calls(msgs[j])| && msgs[i].kind == ToolResult(Calls(msgs[j])[i - j - 1])
    && forall k | j < k < i :: msgs[k].kind.ToolResult?
  }

  /** What a provider checks, index by index: each tool result sits in the group of the call it answers. */
  ghost predicate EachResultFollowsItsCall(msgs: seq<Message>) {
    forall i | 0 <= i < |msgs| && msgs[i].kind.ToolResult? :: exists j | 0 <= j < i :: ResultOf(msgs, j, i)
  }

  /** And no call is left unanswered. */
  ghost predicate EachCallAnswered(msgs: seq<Message>) {
    forall j | 0 <= j < |msgs| :: Answered(msgs, j + 1, Calls(msgs[j]))
  }

  lemma ResultOfShift(msgs: seq<Message>, n: nat, j: nat, i: nat)
    requires n <= |msgs| && j < i < |msgs| - n
    requires ResultOf(msgs[n..], j, i)
    ensures ResultOf(msgs, j + n, i + n)
  {
    var rest := msgs[n..];
    assert forall k | n <= k < |msgs| :: msgs[k] == rest[k - n];
  }

  lemma ResultInFirstGroup(msgs: seq<Message>, i: nat)
    requires OpensWithGroup(msgs) && 0 < i < GroupLength(msgs)
    ensures ResultOf(msgs, 0, i)
  {
  }

  lemma ResultInRest(msgs: seq<Message>, n: nat, i: nat)
    requires n <= i < |msgs| && EachResultFollowsItsCall(msgs[n..]) && msgs[i].kind.ToolResult?
    ensures exists j | 0 <= j < i :: ResultOf(msgs, j, i)
  {
    var rest := msgs[n..];
    assert rest[i - n] == msgs[i];
    var j :| 0 <= j < i - n && ResultOf(rest, j, i - n);
    ResultOfShift(msgs, n, j, i - n);
  }

  lemma {:induction false} PairedResults(msgs: seq<Message>)
    requires WellPaired(msgs)
    ensures EachResultFollowsItsCall(msgs)
    decreases |msgs|
  {
    if msgs != [] {
      var n := GroupLength(msgs);
      PairedResults(msgs[n..]);
      forall i | 0 <= i < |msgs| && msgs[i].kind.ToolResult?
        ensures exists j | 0 <= j < i :: ResultOf(msgs, j, i)
      {
        if i < n {
          ResultInFirstGroup(msgs, i);
        } else {
          ResultInRest(msgs, n, i);
        }
      }
    }
  }

  lemma {:induction false} PairedCalls(msgs: seq<Message>)
    requires WellPaired(msgs)
    ensures EachCallAnswered(msgs)
    decreases |msgs|
  {
    if msgs != [] {
      PairedCalls(msgs[GroupLength(msgs)..]);
      forall j | 0 <= j < |msgs|
        ensures Answered(msgs, j + 1, Calls(msgs[j]))
      {
        AnsweredBehindGroup(msgs, j);
      }
    }
  }

  lemma AnsweredBehindGroup(msgs: seq<Message>, j: nat)
    requires OpensWithGroup(msgs) && j < |msgs| && EachCallAnswered(msgs[GroupLength(msgs)..])
    ensures Answered(msgs, j + 1, Calls(msgs[j]))
  {
    var n := GroupLength(msgs);
    var rest := msgs[n..];
    if 0 < j < n {
      assert msgs[j].kind.ToolResult?;
    } else if n <= j {
      assert Answered(rest, j - n + 1, Calls(rest[j - n]));
      AnsweredShift(msgs, n, j - n + 1, Calls(rest[j - n]));
    }
  }

  lemma AnsweredShift(msgs: seq<Message>, n: nat, at: nat, calls: seq<string>)
    requires n <= |msgs| && Answered(msgs[n..], at, calls)
    ensures Answered(msgs, n + at, calls)
  {
    forall i | n + at <= i < n + at + |calls| ensures msgs[i].kind == ToolResult(calls[i - (n + at)]) {
      assert msgs[n..][i - n] == msgs[i];
    }
  }

  /** The grouped form and the index-by-index form say the same. */
  lemma PairedByIndex(msgs: seq<Message>)
    ensures WellPaired(msgs) <==> EachResultFollowsItsCall(msgs) && EachCallAnswered(msgs)
  {
    if WellPaired(msgs) {
      PairedResults(msgs);
      PairedCalls(msgs);
    }
    if EachResultFollowsItsCall(msgs) && EachCallAnswered(msgs) {
      PairedFrom(msgs, 0);
      assert msgs[0..] == msgs;
    }
  }

  lemma GroupEndsAt(msgs: seq<Message>, at: nat, j: nat, next: nat)
    requires at < |msgs| && !msgs[at].kind.ToolResult? && Answered(msgs, at + 1, Calls(msgs[at]))
    requires next == at + 1 + |Calls(msgs[at])| && j < next < |msgs|
    ensures !ResultOf(msgs, j, next)
  {
    if j < at {
      assert !msgs[at].kind.ToolResult?;
    } else if j > at {
      assert msgs[j].kind.ToolResult?;
    }
  }

  lemma NoResultNext(msgs: seq<Message>, at: nat)
    requires EachResultFollowsItsCall(msgs) && EachCallAnswered(msgs) && at < |msgs| && !msgs[at].kind.ToolResult?
    ensures var next := at + 1 + |Calls(msgs[at])|;
            next <= |msgs| && (next < |msgs| ==> !msgs[next].kind.ToolResult?)
  {
    assert Answered(msgs, at + 1, Calls(msgs[at]));
    var next := at + 1 + |Calls(msgs[at])|;
    forall j | 0 <= j < next < |msgs| ensures !ResultOf(msgs, j, next) {
      GroupEndsAt(msgs, at, j, next);
    }
  }

  lemma {:induction false} PairedFrom(msgs: seq<Message>, at: nat)
    requires EachResultFollowsItsCall(msgs) && EachCallAnswered(msgs)
    requires at <= |msgs| && (at < |msgs| ==> !msgs[at].kind.ToolResult?)
    ensures WellPaired(msgs[at..])
    decreases |msgs| - at
  {
    if at < |msgs| {
      var rest := msgs[at..];
      var n := GroupLength(rest);
      assert Answered(msgs, at + 1, Calls(msgs[at]));
      assert forall i | 0 <= i < |rest| :: rest[i] == msgs[at + i];
      NoResultNext(msgs, at);
      PairedFrom(msgs, at + n);
      assert rest[n..] == msgs[at + n..];
    }
  }

  lemma GroupInFront(a: seq<Message>, b: seq<Message>)
    requires OpensWithGroup(a)
    ensures OpensWithGroup(a + b) && GroupLength(a + b) == GroupLength(a)
    ensures (a + b)[GroupLength(a)..] == a[GroupLength(a)..] + b
  {
    var ab := a + b;
    assert forall i | 0 <= i < |a| :: ab[i] == a[i];
  }

  lemma {:induction false} WellPairedConcat(a: seq<Message>, b: seq<Message>)
    requires WellPaired(a) && WellPaired(b)
    ensures WellPaired(a + b)
    decreases |a|
  {
    if a == [] {
      assert a + b == b;
    } else {
      WellPairedConcat(a[GroupLength(a)..], b);
      GroupInFront(a, b);
    }
  }

  lemma GroupIsResults(msgs: seq<Message>)
    requires OpensWithGroup(msgs)
    ensures forall i | 0 < i < GroupLength(msgs) :: msgs[i].kind.ToolResult?
  {
  }

  lemma GroupEndsByCut(msgs: seq<Message>, cut: nat)
    requires OpensWithGroup(msgs) && 0 < cut < |msgs| && !msgs[cut].kind.ToolResult?
    ensures GroupLength(msgs) <= cut
    ensures cut == GroupLength(msgs) || !msgs[GroupLength(msgs)..][cut - GroupLength(msgs)].kind.ToolResult?
  {
    GroupIsResults(msgs);
  }

  lemma CutBehindGroup(msgs: seq<Message>, cut: nat)
    requires OpensWithGroup(msgs) && GroupLength(msgs) <= cut <= |msgs|
    requires WellPaired(msgs[GroupLength(msgs)..][..cut - GroupLength(msgs)])
    ensures WellPaired(msgs[..cut])
  {
    GroupInPrefix(msgs, cut);
    Slices(msgs, GroupLength(msgs), cut);
  }

  lemma Slices<T>(s: seq<T>, n: nat, cut: nat)
    requires n <= cut <= |s|
    ensures s[n..][cut - n..] == s[cut..] && s[..cut][n..] == s[n..][..cut - n]
  {
  }

  lemma GroupInPrefix(msgs: seq<Message>, cut: nat)
    requires OpensWithGroup(msgs) && GroupLength(msgs) <= cut <= |msgs|
    ensures OpensWithGroup(msgs[..cut]) && GroupLength(msgs[..cut]) == GroupLength(msgs)
  {
    var front, calls := msgs[..cut], Calls(msgs[0]);
    forall i | 1 <= i < 1 + |calls| ensures front[i].kind == ToolResult(calls[i - 1]) {
      assert front[i] == msgs[i];
    }
  }

  lemma {:induction false} HeadIsPaired(msgs: seq<Message>, cut: nat)
    requires WellPaired(msgs)
    requires cut < |msgs| && (cut == 0 || !msgs[cut].kind.ToolResult?)
    ensures WellPaired(msgs[..cut])
    decreases |msgs|
  {
    if cut > 0 {
      GroupEndsByCut(msgs, cut);
      HeadIsPaired(msgs[GroupLength(msgs)..], cut - GroupLength(msgs));
      CutBehindGroup(msgs, cut);
    }
  }

  /** Cutting a paired list before a message that is not a tool result leaves two paired halves. */
  lemma WellPairedCut(msgs: seq<Message>, cut: nat)
    requires WellPaired(msgs)
    requires cut < |msgs| && (cut == 0 || !msgs[cut].kind.ToolResult?)
    ensures WellPaired(msgs[..cut]) && WellPaired(msgs[cut..])
  {
    HeadIsPaired(msgs, cut);
    PairedByIndex(msgs);
    PairedFrom(msgs, cut);
  }

  /** One assistant message with all its calls answered, in order, is a paired group. */
  lemma CallGroupIsPaired(m: Message, results: seq<Message>)
    requires m.kind.AI? && Answered(results, 0, m.kind.calls) && |results| == |m.kind.calls|
    ensures WellPaired([m] + results)
  {
    var g := [m] + results;
    assert forall i | 1 <= i < |g| :: g[i] == results[i - 1];
    assert g[GroupLength(g)..] == [];
  }
}
