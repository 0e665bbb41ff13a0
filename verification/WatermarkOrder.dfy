/** The order of stored watermarks over runs of overlapping sends (api/chat.go, the UPDATE at the end of `Send`). */
module WatermarkOrder {
  import opened Prelude
  import opened Decimal
  import opened Messages
  import opened Summarization
  import opened AgentGraph
  import opened Conversation

  /** A send begins only when no other is in progress. */
  ghost predicate Sequential(es: seq<Event>) {
    forall i | 0 <= i < |es| && es[i].Begin? :: Exec(es[..i]).sends == map[]
  }

  /** At most one send is in progress, and what it loaded is still stored. */
  ghost predicate OneSend(s: State) {
    (forall a, b | a in s.sends && b in s.sends :: a == b)
    && forall a | a in s.sends && !s.sends[a].Inserted? :: s.sends[a].pair == s.stored
  }

  lemma ApplyKeepsOneSend(s: State, e: Event)
    requires OneSend(s) && (e.Begin? ==> s.sends == map[])
    ensures OneSend(Apply(s, e))
  {
  }

  lemma {:induction false} SequentialKeepsOneSend(es: seq<Event>)
    requires Sequential(es)
    ensures OneSend(Exec(es))
  {
    if es != [] {
      var before := es[..|es| - 1];
      assert forall i | 0 <= i < |before| :: before[i] == es[i] && before[..i] == es[..i];
      SequentialKeepsOneSend(before);
      ApplyKeepsOneSend(Exec(before), es[|es| - 1]);
    }
  }

  /** Statement `e` stores a captured summary. */
  predicate Stores(s: State, e: Event) {
    e.StoreSummary? && e.sid in s.sends && s.sends[e.sid].ReplySaved? && s.sends[e.sid].captured.Some?
  }

  /** Nothing newer was stored since the storing send loaded its pair. */
  predicate LoadIsCurrent(s: State, e: Event)
    requires Stores(s, e)
  {
    Floor(s.stored) <= Floor(s.sends[e.sid].pair)
  }

  /** The summary about to be stored is older than the stored one: the comparison that the UPDATE does not make. */
  predicate StoresOlder(s: State, e: Event) {
    Stores(s, e) && s.sends[e.sid].captured.value.through < Floor(s.stored)
  }

  /**
    Watermark order for any sends, overlapping or not: only storing a captured summary moves the watermark, always to
    above the watermark that send had loaded. It moves strictly forward exactly when the captured row is above the
    stored one, and so whenever nothing newer was stored since that load.
   */
  lemma StoreMovesAboveItsLoad(es: seq<Event>, e: Event)
    ensures var s, t := Exec(es), Exec(es + [e]);
            if Stores(s, e) then
              && t.stored.watermark == Some(s.sends[e.sid].captured.value.through)
              && Floor(s.sends[e.sid].pair) < Floor(t.stored)
              && (Floor(s.stored) < Floor(t.stored) <==> Floor(s.stored) < s.sends[e.sid].captured.value.through)
              && (LoadIsCurrent(s, e) ==> Floor(s.stored) < Floor(t.stored))
            else t.stored == s.stored
  {
    ExecSnoc(es, e);
    ExecKeepsInv(es);
    if Stores(Exec(es), e) {
      assert PhaseInv(Exec(es).sends[e.sid], Exec(es));
    }
  }

  /** The stored watermark before, between and after the statements of a run. */
  function Floors(es: seq<Event>): (floors: seq<int>)
    ensures |floors| == |es| + 1
    ensures forall i | 0 <= i <= |es| :: floors[i] == Floor(Exec(es[..i]).stored)
  {
    seq(|es| + 1, i requires 0 <= i <= |es| => Floor(Exec(es[..i]).stored))
  }

  predicate NeverDecreases(floors: seq<int>) {
    forall i, j | 0 <= i <= j < |floors| :: floors[i] <= floors[j]
  }

  ghost predicate NeverStoresOlder(es: seq<Event>) {
    forall i | 0 <= i < |es| :: !StoresOlder(Exec(es[..i]), es[i])
  }

  /** One statement moves the watermark back exactly when it stores an older summary. */
  lemma MovesBackIff(es: seq<Event>, i: nat)
    requires i < |es|
    ensures Floors(es)[i + 1] < Floors(es)[i] <==> StoresOlder(Exec(es[..i]), es[i])
  {
    StoreMovesAboveItsLoad(es[..i], es[i]);
    assert es[..i + 1] == es[..i] + [es[i]];
  }

  lemma {:induction false} StepsAscend(floors: seq<int>, i: nat, j: nat)
    requires i <= j < |floors| && forall k | 0 < k < |floors| :: floors[k - 1] <= floors[k]
    ensures floors[i] <= floors[j]
    decreases j
  {
    if i < j {
      StepsAscend(floors, i, j - 1);
    }
  }

  /**
    Exactly which runs keep the watermark: however the sends overlap, it never decreases if and only if no statement
    stores a summary that ends below the stored watermark.
   */
  lemma WatermarkNeverMovesBackIff(es: seq<Event>)
    ensures NeverDecreases(Floors(es)) <==> NeverStoresOlder(es)
  {
    var floors := Floors(es);
    if NeverStoresOlder(es) {
      forall k | 0 < k < |floors| ensures floors[k - 1] <= floors[k] {
        MovesBackIff(es, k - 1);
      }
      forall i, j | 0 <= i <= j < |floors| ensures floors[i] <= floors[j] {
        StepsAscend(floors, i, j);
      }
    }
    if NeverDecreases(floors) {
      forall i | 0 <= i < |es| ensures !StoresOlder(Exec(es[..i]), es[i]) {
        MovesBackIff(es, i);
        assert floors[i] <= floors[i + 1];
      }
    }
  }

  /** Every store finds nothing newer than what its send had loaded. */
  ghost predicate OnlyCurrentStores(es: seq<Event>) {
    forall i | 0 <= i < |es| && Stores(Exec(es[..i]), es[i]) :: LoadIsCurrent(Exec(es[..i]), es[i])
  }

  /** Overlaps in which every store is current are harmless; they are not the only ones (`HarmlessStaleStore`). */
  lemma WatermarkNeverMovesBack(es: seq<Event>)
    requires OnlyCurrentStores(es)
    ensures NeverDecreases(Floors(es))
  {
    forall i | 0 <= i < |es| ensures !StoresOlder(Exec(es[..i]), es[i]) {
      StoreMovesAboveItsLoad(es[..i], es[i]);
    }
    WatermarkNeverMovesBackIff(es);
  }

  /** What a send holds, once loaded, is what is stored. */
  predicate HoldsStored(s: State, sid: nat) {
    sid in s.sends && !s.sends[sid].Inserted? ==> s.sends[sid].pair == s.stored
  }

  lemma StepKeepsHeld(s: State, e: Event, sid: nat)
    requires HoldsStored(s, sid) && Apply(s, e).stored == s.stored
    ensures HoldsStored(Apply(s, e), sid)
  {
  }

  /** Nothing was stored after position `i`. */
  ghost predicate NothingStoredSince(es: seq<Event>, i: nat) {
    forall k | i <= k <= |es| :: Exec(es[..k]).stored == Exec(es).stored
  }

  lemma {:induction false} LoadedSince(es: seq<Event>, i: nat, sid: nat)
    requires i <= |es| && HoldsStored(Exec(es[..i]), sid) && NothingStoredSince(es, i)
    ensures HoldsStored(Exec(es), sid)
  {
    if i == |es| {
      assert es[..i] == es;
    } else {
      var n := |es| - 1;
      var before := es[..n];
      forall k | i <= k <= n ensures Exec(before[..k]).stored == Exec(before).stored {
        assert before[..k] == es[..k] && before[..n] == before;
        assert Exec(es[..k]).stored == Exec(es[..n]).stored;
      }
      assert before[..i] == es[..i];
      LoadedSince(before, i, sid);
      StepKeepsHeld(Exec(before), es[n], sid);
    }
  }

  /**
    Which overlaps are harmless: if a send had not loaded its pair by position `i` and nothing was stored from then
    on, then however many others ran meanwhile, its own store moves the watermark strictly forward.
   */
  lemma StoreAfterQuietMovesForward(es: seq<Event>, i: nat, e: Event)
    requires i <= |es| && Stores(Exec(es), e) && NothingStoredSince(es, i)
    requires e.sid in Exec(es[..i]).sends ==> Exec(es[..i]).sends[e.sid].Inserted?
    ensures Floor(Exec(es).stored) < Floor(Exec(es + [e]).stored)
  {
    LoadedSince(es, i, e.sid);
    StoreMovesAboveItsLoad(es, e);
  }

  lemma SequentialStoresAreCurrent(es: seq<Event>)
    requires Sequential(es)
    ensures OnlyCurrentStores(es)
  {
    forall i | 0 <= i < |es| && Stores(Exec(es[..i]), es[i]) ensures LoadIsCurrent(Exec(es[..i]), es[i]) {
      SequentialStoreIsCurrent(es, i);
    }
  }

  lemma SequentialStoreIsCurrent(es: seq<Event>, i: nat)
    requires Sequential(es) && i < |es| && Stores(Exec(es[..i]), es[i])
    ensures LoadIsCurrent(Exec(es[..i]), es[i])
  {
    var before := es[..i];
    assert forall k | 0 <= k < i :: before[k] == es[k] && before[..k] == es[..k];
    SequentialKeepsOneSend(before);
  }

  /** Sends that do not overlap: every store moves the watermark strictly forward. */
  lemma SequentialWatermarkIncreases(es: seq<Event>, e: Event)
    requires Sequential(es + [e])
    ensures var s, t := Exec(es), Exec(es + [e]);
            if Stores(s, e) then t.stored.watermark.Some? && Floor(s.stored) < Floor(t.stored)
            else t.stored == s.stored
  {
    assert (es + [e])[..|es|] == es;
    if Stores(Exec(es), e) {
      SequentialStoreIsCurrent(es + [e], |es|);
    }
    StoreMovesAboveItsLoad(es, e);
  }

  lemma SequentialWatermarkNeverMovesBack(es: seq<Event>)
    requires Sequential(es)
    ensures NeverDecreases(Floors(es))
  {
    SequentialStoresAreCurrent(es);
    WatermarkNeverMovesBack(es);
  }

  /** A first compaction with no budget folds all rows but the newest and reports the last one folded. */
  lemma FoldsAllButNewest(rows: seq<Row>)
    requires |rows| == 2 || |rows| == 3
    requires forall i | 0 <= i < |rows| :: rows[i] == Row(i + 1, true, 1)
    ensures var msgs := Prompt(rows, Stored(None, None));
            |msgs| == |rows| && Compact(msgs, 0, 0, 0, Summarized(1))
              == Folded([Replacement(msgs[..|rows| - 1], Summarized(1))] + msgs[|rows| - 1..],
                        Some(FormatInt(|rows| - 1)))
  {
    var n := |rows|;
    var msgs := Prompt(rows, Stored(None, None));
    assert rows[1..] == if n == 2 then [rows[1]] else [rows[1], rows[2]];
    assert History(rows, None) == [RowMessage(rows[0])] + History(rows[1..], None);
    assert History(rows[1..], None) == [RowMessage(rows[1])] + History(rows[1..][1..], None);
    if n == 3 {
      assert rows[1..][1..] == [rows[2]];
      assert History([rows[2]], None) == [RowMessage(rows[2])] + History([rows[2]][1..], None);
    }
    assert forall i | 0 <= i < n :: msgs[i] == RowMessage(rows[i]);
    assert SplitCut(msgs, 0) == n - 1;
    RowIdRoundTrip(n - 1);
    assert msgs[..n - 1][n - 2] == RowMessage(rows[n - 2]);
  }

  function LoadedSend(rows: seq<Row>): Phase
    requires forall i | 0 <= i < |rows| :: 0 <= rows[i].id
  {
    LoadedAt(rows, Stored(None, None))
  }

  lemma BeginAndLoad(es: seq<Event>, sid: nat) returns (after: seq<Event>)
    requires var s := Exec(es); sid !in s.sends && 0 <= s.lastId < MAX_INT64 && HasNonNegativeIds(s)
    requires Exec(es).stored == Stored(None, None)
    ensures var s, t := Exec(es), Insert(Exec(es), true, 1);
            HasNonNegativeIds(t) && Exec(after) == t.(sends := s.sends[sid := LoadedSend(t.rows)])
  {
    BeginThenLoad(Exec(es), sid, 1);
    after := es + [Begin(sid, 1), LoadPair(sid), LoadHistory(sid)];
    ThreeMore(es, Begin(sid, 1), LoadPair(sid), LoadHistory(sid));
  }

  /** The run of such a send, folding everything but the newest row. */
  lemma FoldRun(rows: seq<Row>, fold: Step, reply: Step)
    requires |rows| == 2 || |rows| == 3
    requires forall i | 0 <= i < |rows| :: rows[i] == Row(i + 1, true, 1)
    requires fold == CompactStep(0, 0, 0, Summarized(1), true) && reply == ModelReply(None, 1, [])
    ensures var run := Advance(Advance(LoadedSend(rows).run, fold), reply);
            run.node.AtEnd? && run.captured.Some? && run.captured.value.through == |rows| - 1
  {
    FoldsAllButNewest(rows);
    RowIdRoundTrip(|rows| - 1);
  }

  lemma RunToEnd(es: seq<Event>, sid: nat, rows: seq<Row>) returns (after: seq<Event>, run: Run)
    requires |rows| == 2 || |rows| == 3
    requires forall i | 0 <= i < |rows| :: rows[i] == Row(i + 1, true, 1)
    requires var s := Exec(es); sid in s.sends && s.sends[sid] == LoadedSend(rows)
    ensures run.node.AtEnd? && run.captured.Some? && run.captured.value.through == |rows| - 1
    ensures Exec(after) == Exec(es).(sends := Exec(es).sends[sid := LoadedSend(rows).(run := run)])
  {
    var s := Exec(es);
    var p := LoadedSend(rows);
    var fold, reply := CompactStep(0, 0, 0, Summarized(1), true), ModelReply(None, 1, []);
    FoldRun(rows, fold, reply);
    run := Advance(Advance(p.run, fold), reply);
    ExecSnoc(es, AgentStep(sid, fold));
    ExecSnoc(es + [AgentStep(sid, fold)], AgentStep(sid, reply));
    after := es + [AgentStep(sid, fold)] + [AgentStep(sid, reply)];
    assert s.sends[sid := p.(run := Advance(p.run, fold))][sid := p.(run := run)] == s.sends[sid := p.(run := run)];
  }

  /** The statement stores a summary over `stored`, from a send that had loaded `pair`. */
  predicate StoresFrom(s: State, e: Event, stored: Stored, pair: Stored) {
    Stores(s, e) && s.stored == stored && s.sends[e.sid].pair == pair
  }

  lemma SaveAndStore(es: seq<Event>, sid: nat) returns (after: seq<Event>)
    requires var s := Exec(es);
             sid in s.sends && s.sends[sid].Running? && s.sends[sid].run.node.AtEnd?
             && s.sends[sid].run.captured.Some? && s.lastId < MAX_INT64
    ensures |after| > 0
    ensures StoresFrom(Exec(after[..|after| - 1]), after[|after| - 1], Exec(es).stored, Exec(es).sends[sid].pair)
    ensures var s, t := Exec(es), Exec(after);
            t.stored.watermark == Some(s.sends[sid].run.captured.value.through)
            && t.sends == Remove(s.sends, sid) && t.lastId == s.lastId + 1
  {
    ExecSnoc(es, SaveReply(sid, 1));
    var before := es + [SaveReply(sid, 1)];
    ExecSnoc(before, StoreSummary(sid, 1));
    after := before + [StoreSummary(sid, 1)];
    assert after[..|after| - 1] == before;
  }

  lemma FoldAndStore(es: seq<Event>, sid: nat, rows: seq<Row>) returns (after: seq<Event>)
    requires |rows| == 2 || |rows| == 3
    requires forall i | 0 <= i < |rows| :: rows[i] == Row(i + 1, true, 1)
    requires var s := Exec(es); sid in s.sends && s.sends[sid] == LoadedSend(rows) && s.lastId < MAX_INT64
    ensures |after| > 0
    ensures StoresFrom(Exec(after[..|after| - 1]), after[|after| - 1], Exec(es).stored, Stored(None, None))
    ensures var s, t := Exec(es), Exec(after);
            t.stored.watermark == Some(|rows| - 1) && t.sends == Remove(s.sends, sid) && t.lastId == s.lastId + 1
  {
    var mid, run := RunToEnd(es, sid, rows);
    after := SaveAndStore(mid, sid);
    assert Remove(Exec(mid).sends, sid) == Remove(Exec(es).sends, sid);
  }

  /** Overlapping sends can move the stored watermark back: the later store is the older checkpoint. */
  lemma OverlapMovesWatermarkBack() returns (es: seq<Event>)
    ensures es != [] && Floor(Exec(es).stored) < Floor(Exec(es[..|es| - 1]).stored)
  {
    var two, three;
    es, two, three := TwoLoads();
    es := FoldAndStore(es, 2, three);
    es := FoldAndStore(es, 1, two);
  }

  /** The other order is harmless, though the second store comes from a send whose load is no longer current. */
  lemma HarmlessStaleStore() returns (es: seq<Event>)
    ensures es != []
    ensures var s, e := Exec(es[..|es| - 1]), es[|es| - 1];
            Stores(s, e) && !LoadIsCurrent(s, e) && Floor(s.stored) < Floor(Exec(es).stored)
  {
    var two, three;
    es, two, three := TwoLoads();
    es := FoldAndStore(es, 1, two);
    es := FoldAndStore(es, 2, three);
  }

  lemma OneRow() returns (es: seq<Event>)
    ensures Exec(es) == State([Row(1, true, 1)], 1, Stored(None, None), map[], {})
  {
    ExecSnoc([], Begin(0, 1));
    ExecSnoc([Begin(0, 1)], Abort(0));
    es := [Begin(0, 1)] + [Abort(0)];
    assert RowIds(START.rows) == [];
  }

  /** One row from a send that stopped, then two sends that load one after the other and run together. */
  lemma TwoLoads() returns (es: seq<Event>, two: seq<Row>, three: seq<Row>)
    ensures two == [Row(1, true, 1), Row(2, true, 1)] && three == [Row(1, true, 1), Row(2, true, 1), Row(3, true, 1)]
    ensures Exec(es) == State(three, 3, Stored(None, None), map[1 := LoadedSend(two), 2 := LoadedSend(three)], {})
  {
    var one := [Row(1, true, 1)];
    two, three := one + [Row(2, true, 1)], one + [Row(2, true, 1)] + [Row(3, true, 1)];
    es := OneRow();
    es := BeginAndLoad(es, 1);
    var first := map[1 := LoadedSend(two)];
    assert Exec(es) == State(two, 2, Stored(None, None), first, {});
    es := BeginAndLoad(es, 2);
    assert first[2 := LoadedSend(three)] == map[1 := LoadedSend(two), 2 := LoadedSend(three)];
  }
}
