/** Calls and results stay paired over any run of appends and compactions, wherever a compaction falls
    between a call and its results (robothor/engine/compaction.py). */
module CompactionPairing {
  import opened Sequences
  import opened Conversation
  import opened Compaction
  import opened CompactionStructure
  import opened CompactionFacts

  // ---- The open turn ----

  /** The last message that is no tool result: the one a result appended next can answer. */
  function LastTurn(messages: seq<Message>): Option<Message> {
    if messages == [] then None
    else
      var n := |messages| - 1;
      if IsTool(messages[n]) then LastTurn(messages[..n]) else Some(messages[n])
  }

  lemma LastTurnSnoc(messages: seq<Message>, m: Message)
    ensures LastTurn(messages + [m]) == if IsTool(m) then LastTurn(messages) else Some(m)
  {
    assert (messages + [m])[..|messages|] == messages;
  }

  lemma {:induction false} LastTurnConcat(a: seq<Message>, b: seq<Message>)
    ensures LastTurn(a + b) == if LastTurn(b).Some? then LastTurn(b) else LastTurn(a)
  {
    if b == [] {
      assert a + b == a;
    } else {
      var n := |b| - 1;
      assert a + b == (a + b[..n]) + [b[n]] && b == b[..n] + [b[n]];
      LastTurnConcat(a, b[..n]);
      LastTurnSnoc(a + b[..n], b[n]);
      LastTurnSnoc(b[..n], b[n]);
    }
  }

  lemma {:induction false} LastTurnAt(messages: seq<Message>) returns (j: nat)
    requires LastTurn(messages).Some?
    ensures j < |messages| && LastTurn(messages) == Some(messages[j]) && !IsTool(messages[j])
    ensures forall k :: j < k < |messages| ==> IsTool(messages[k])
  {
    j := |messages| - 1;
    if IsTool(messages[j]) {
      j := LastTurnAt(messages[..j]);
    }
  }

  lemma {:induction false} AllToolsAfter(messages: seq<Message>, j: nat)
    requires j < |messages| && !IsTool(messages[j]) && forall k :: j < k < |messages| ==> IsTool(messages[k])
    ensures LastTurn(messages) == Some(messages[j])
  {
    if j < |messages| - 1 {
      AllToolsAfter(messages[..|messages| - 1], j);
    }
  }

  predicate OpenFor(turn: Option<Message>, result: Message) {
    turn.Some? && Calls(turn.value, result)
  }

  /** A result appended now is answered exactly when the open turn makes its call. */
  lemma AnsweredIff(messages: seq<Message>, m: Message)
    ensures Answered(messages + [m], |messages|) <==> OpenFor(LastTurn(messages), m)
  {
    var all, n := messages + [m], |messages|;
    if Answered(all, n) {
      var j: nat :| AnsweredBy(all, n, j);
      assert all[j] == messages[j];
      AllToolsAfter(messages, j);
    }
    if OpenFor(LastTurn(messages), m) {
      var j := LastTurnAt(messages);
      assert AnsweredBy(all, n, j);
    }
  }

  // ---- A compaction keeps the open call ----

  lemma {:induction false} LastTurnOfRewritten(a: seq<Message>, b: seq<Message>)
    requires |a| == |b| && forall k :: 0 <= k < |a| ==> IsTool(a[k]) == IsTool(b[k]) && (IsTool(a[k]) || a[k] == b[k])
    ensures LastTurn(a) == LastTurn(b)
  {
    if a != [] {
      LastTurnOfRewritten(a[..|a| - 1], b[..|b| - 1]);
    }
  }

  lemma LastTurnOfThinned(h: Helpers, messages: seq<Message>, keepRecent: nat)
    ensures LastTurn(Thinned(h, messages, keepRecent)) == LastTurn(messages)
  {
    LastTurnOfRewritten(Thinned(h, messages, keepRecent), messages);
  }

  lemma {:induction false} LastTurnOfFilter(messages: seq<Message>, keep: Message -> bool)
    requires LastTurn(messages).Some? && keep(LastTurn(messages).value)
    ensures LastTurn(Filter(messages, keep)) == LastTurn(messages)
  {
    var n := |messages| - 1;
    var init, last := messages[..n], messages[n];
    assert messages == init + [last];
    FilterConcat(init, [last], keep);
    FilterOne(last, keep);
    if IsTool(last) {
      LastTurnOfFilter(init, keep);
    }
    LastTurnSnoc(Filter(init, keep), last);
    assert Filter(init, keep) + [] == Filter(init, keep);
  }

  /** A cut in front of a message that is no tool result leaves the open turn behind it. */
  lemma LastTurnOfSuffix(messages: seq<Message>, split: nat)
    requires split < |messages| && (split == 0 || !IsTool(messages[split]))
    ensures LastTurn(messages[split..]) == LastTurn(messages)
  {
    var front, back := messages[..split], messages[split..];
    assert messages == front + back && back == [messages[split]] + back[1..];
    if split > 0 {
      LastTurnConcat(front, back);
      LastTurnConcat([messages[split]], back[1..]);
      LastTurnSnoc([], messages[split]);
    }
  }

  /** The open turn is a call without the marker. */
  predicate OpenCall(messages: seq<Message>) {
    var turn := LastTurn(messages);
    turn.Some? && IsCall(turn.value) && NotRetained(turn.value)
  }

  lemma RecentKeepsOpenCall(s: Settings, working: seq<Message>)
    requires working != [] && working[0].role == System && s.keepRecent >= 1 && OpenCall(working)
    ensures LastTurn(RecentMessages(s, working)) == LastTurn(working)
  {
    var head, rest := working[0], working[1..];
    assert working == [head] + rest;
    LastTurnConcat([head], rest);
    LastTurnSnoc([], head);
    LastTurnOfFilter(rest, NotRetained);
    var candidates := Filter(rest, NotRetained);
    RecentStartsAtBoundary(s, candidates);
    LastTurnOfSuffix(candidates, SplitPoint(candidates, s.keepRecent));
  }

  /** On every return path an open call is still open: its results may come after the compaction. */
  lemma CompactionKeepsOpenCall(h: Helpers, s: Settings, messages: seq<Message>)
    requires messages != [] && messages[0].role == System && s.keepRecent >= 1 && OpenCall(messages)
    ensures LastTurn(Compacted(h, s, messages).messages) == LastTurn(messages)
  {
    var working := Thinned(h, messages, s.keepRecent);
    LastTurnOfThinned(h, messages, s.keepRecent);
    CompactedShape(h, s, messages);
    if Compacted(h, s, messages).passesUsed >= 2 {
      CompressedShape(h, s, working, h.estimate(messages));
      RecentKeepsOpenCall(s, working);
      LastTurnConcat([working[0]] + FactBlock(SurvivingFacts(h, s, working)) + SummaryBlock(FinalSummaries(h, s, working)),
                     RecentMessages(s, working));
    }
  }

  // ---- Runs ----

  predicate CallsUnmarked(messages: seq<Message>) {
    forall k :: 0 <= k < |messages| && IsCall(messages[k]) ==> NotRetained(messages[k])
  }

  /** A conversation as a compaction expects and leaves it. */
  ghost predicate Paired(messages: seq<Message>) {
    messages != [] && messages[0].role == System && NoOrphans(messages) && CallsUnmarked(messages)
  }

  lemma UnmarkedCallsKeepCallers(messages: seq<Message>)
    requires CallsUnmarked(messages)
    ensures KeepsCallers(messages, NotRetained)
  {
    forall i: nat, j: nat | AnsweredBy(messages, i, j) && IsTool(messages[i]) && NotRetained(messages[i]) ensures NotRetained(messages[j]) {
      assert Calls(messages[j], messages[i]) && IsCall(messages[j]);
    }
  }

  lemma CompressedCallsUnmarked(h: Helpers, s: Settings, working: seq<Message>, before: nat)
    requires working != [] && working[0].role == System
    ensures CallsUnmarked(Compressed(h, s, working, before).messages)
  {
    CompressedShape(h, s, working, before);
    RecentIsUnmarked(s, working);
    AssembledFront(working[0], SurvivingFacts(h, s, working), FinalSummaries(h, s, working));
    UnmarkedBehindPlain([working[0]] + FactBlock(SurvivingFacts(h, s, working)) + SummaryBlock(FinalSummaries(h, s, working)),
                        RecentMessages(s, working));
  }

  lemma UnmarkedBehindPlain(front: seq<Message>, back: seq<Message>)
    requires forall k :: 0 <= k < |front| ==> Plain(front[k])
    requires forall k :: 0 <= k < |back| ==> NotRetained(back[k])
    ensures CallsUnmarked(front + back)
  {
  }

  lemma CompactionKeepsPaired(h: Helpers, s: Settings, messages: seq<Message>)
    requires Paired(messages) && s.keepRecent >= 1
    ensures Paired(Compacted(h, s, messages).messages)
  {
    var working := Thinned(h, messages, s.keepRecent);
    ThinnedShape(h, messages, s.keepRecent);
    SameShapePairs(messages, working);
    assert CallsUnmarked(working);
    CompactedShape(h, s, messages);
    if Compacted(h, s, messages).passesUsed >= 2 {
      UnmarkedCallsKeepCallers(working);
      CompressedPairs(h, s, working, h.estimate(messages));
      CompressedCallsUnmarked(h, s, working, h.estimate(messages));
      CompressedShape(h, s, working, h.estimate(messages));
    }
  }

  /** Appends that keep the uncompacted history paired: a call is unmarked, a result answers, in that history,
      the call of the block it is appended to. Compactions may come anywhere. */
  ghost predicate PairedRun(history: seq<Message>, steps: seq<Step>)
    decreases |steps|
  {
    steps == []
    || match steps[0]
       case Append(m) =>
         && (IsCall(m) ==> NotRetained(m))
         && (IsTool(m) ==> Answered(history + [m], |history|))
         && PairedRun(history + [m], steps[1..])
       case Compaction(_, s) => s.keepRecent >= 1 && PairedRun(history, steps[1..])
  }

  /** The compacted conversation is paired and has the history's open call, if there is one. */
  ghost predicate Tracks(history: seq<Message>, current: seq<Message>) {
    && Paired(current)
    && (LastTurn(history).Some? && IsCall(LastTurn(history).value) ==> LastTurn(current) == LastTurn(history))
  }

  lemma AppendTracks(history: seq<Message>, current: seq<Message>, m: Message)
    requires Tracks(history, current)
    requires (IsCall(m) ==> NotRetained(m)) && (IsTool(m) ==> Answered(history + [m], |history|))
    ensures Tracks(history + [m], current + [m])
  {
    AnsweredIff(history, m);
    AnsweredIff(current, m);
    LastTurnSnoc(history, m);
    LastTurnSnoc(current, m);
    NoOrphansSnoc(current, m);
  }

  lemma OpenCallIsUnmarked(messages: seq<Message>)
    requires CallsUnmarked(messages) && LastTurn(messages).Some? && IsCall(LastTurn(messages).value)
    ensures OpenCall(messages)
  {
    var j := LastTurnAt(messages);
  }

  lemma CompactionTracks(history: seq<Message>, current: seq<Message>, h: Helpers, s: Settings)
    requires Tracks(history, current) && s.keepRecent >= 1
    ensures Tracks(history, Compacted(h, s, current).messages)
  {
    CompactionKeepsPaired(h, s, current);
    if LastTurn(history).Some? && IsCall(LastTurn(history).value) {
      OpenCallIsUnmarked(current);
      CompactionKeepsOpenCall(h, s, current);
    }
  }

  lemma {:induction false} RunTracks(history: seq<Message>, current: seq<Message>, steps: seq<Step>)
    requires Tracks(history, current) && PairedRun(history, steps)
    ensures Paired(Run(current, steps))
    decreases |steps|
  {
    if steps != [] {
      match steps[0] {
        case Append(m) =>
          AppendTracks(history, current, m);
          RunTracks(history + [m], current + [m], steps[1..]);
        case Compaction(h, s) =>
          CompactionTracks(history, current, h, s);
          RunTracks(history, Compacted(h, s, current).messages, steps[1..]);
      }
    }
  }

  /** Over any run, with compactions anywhere and whatever thinning and the model calls return, no tool result is
      ever orphaned, if the appends alone would orphan none and no call carries the marker. */
  lemma PairingSurvivesEveryRun(messages: seq<Message>, steps: seq<Step>)
    requires Paired(messages) && PairedRun(messages, steps)
    ensures NoOrphans(Run(messages, steps))
  {
    RunTracks(messages, messages, steps);
  }
}
