/** What compaction keeps of the conversation's structure: call/result pairing, the recent tail,
    the token accounting and the pruning budget (robothor/engine/compaction.py). */
module CompactionStructure {
  import opened Sequences
  import opened FactLines
  import opened Conversation
  import opened Compaction

  // ---- The shape of a compressed result ----

  /** The summaries left in the result of passes 2 to 4. */
  function FinalSummaries(h: Helpers, s: Settings, working: seq<Message>): seq<string>
    requires working != []
  {
    var recent := RecentMessages(s, working);
    var facts := SurvivingFacts(h, s, working);
    var all := Summaries(h, Chunks(OldMessages(s, working), SEGMENT_SIZE));
    if all == [] || h.estimate(Assembled(working[0], facts, all, recent)) < s.drainTo then all
    else Pruned(h, working[0], facts, all, recent, s.drainTo)
  }

  lemma CompressedShape(h: Helpers, s: Settings, working: seq<Message>, before: nat)
    requires working != []
    ensures var r := Compressed(h, s, working, before);
            && r.messages == Assembled(working[0], SurvivingFacts(h, s, working), FinalSummaries(h, s, working),
                                       RecentMessages(s, working))
            && r.facts == SurvivingFacts(h, s, working)
            && r.tokensAfter == h.estimate(r.messages)
            && 2 <= r.passesUsed <= 4
            && (r.passesUsed == 2 <==> OldMessages(s, working) == [])
            && (r.passesUsed == 3 ==> r.tokensAfter < s.drainTo)
  {
  }

  /** Which pass a compaction stops at. */
  lemma CompactedShape(h: Helpers, s: Settings, messages: seq<Message>)
    ensures var r := Compacted(h, s, messages);
            var working := Thinned(h, messages, s.keepRecent);
            || (r.passesUsed == 0 && r.messages == messages)
            || (r.passesUsed == 1 && r.messages == working)
            || (r.passesUsed >= 2 && |messages| > s.keepRecent + 1
                && r == Compressed(h, s, working, h.estimate(messages)))
  {
  }

  // ---- Pairing ----

  /** Thinning adds the marker to no message and removes it from none. */
  ghost predicate ThinningKeepsMarks(h: Helpers, s: Settings, messages: seq<Message>) {
    forall k :: 0 <= k < |messages| ==>
      IsRetained(Thinned(h, messages, s.keepRecent)[k]) == IsRetained(messages[k])
  }

  lemma ThinnedShape(h: Helpers, messages: seq<Message>, keepRecent: nat)
    ensures SameShape(messages, Thinned(h, messages, keepRecent))
  {
  }

  lemma RecentStartsAtBoundary(s: Settings, candidates: seq<Message>)
    requires s.keepRecent >= 1
    ensures var split := SplitPoint(candidates, s.keepRecent);
            && (split == 0 || Plain(candidates[split]))
            && split + (if |candidates| <= s.keepRecent then |candidates| else s.keepRecent) <= |candidates|
  {
    if |candidates| > s.keepRecent {
      SafeSplitIsLastBoundary(candidates, |candidates| - s.keepRecent);
    }
  }

  lemma AssembledFront(system: Message, facts: seq<Fact>, summaries: seq<string>)
    requires system.role == System
    ensures forall k :: 0 <= k < |[system] + FactBlock(facts) + SummaryBlock(summaries)| ==>
              Plain(([system] + FactBlock(facts) + SummaryBlock(summaries))[k])
  {
    PlainConcat([system], FactBlock(facts));
    PlainConcat([system] + FactBlock(facts), SummaryBlock(summaries));
  }

  lemma PlainConcat(a: seq<Message>, b: seq<Message>)
    requires forall k :: 0 <= k < |a| ==> Plain(a[k])
    requires forall k :: 0 <= k < |b| ==> Plain(b[k])
    ensures forall k :: 0 <= k < |a + b| ==> Plain((a + b)[k])
  {
  }

  lemma KeepsCallersTail(head: Message, rest: seq<Message>, keep: Message -> bool)
    requires KeepsCallers([head] + rest, keep)
    ensures KeepsCallers(rest, keep)
  {
    forall i: nat, j: nat | AnsweredBy(rest, i, j) && IsTool(rest[i]) && keep(rest[i]) ensures keep(rest[j]) {
      assert AnsweredBy([head] + rest, i + 1, j + 1);
    }
  }

  lemma KeepsCallersSameShape(a: seq<Message>, b: seq<Message>, keep: Message -> bool)
    requires SameShape(a, b) && KeepsCallers(a, keep)
    requires forall k :: 0 <= k < |a| ==> keep(a[k]) == keep(b[k])
    ensures KeepsCallers(b, keep)
  {
  }

  lemma CompressedPairs(h: Helpers, s: Settings, working: seq<Message>, before: nat)
    requires working != [] && working[0].role == System && s.keepRecent >= 1
    requires NoOrphans(working) && KeepsCallers(working, NotRetained)
    ensures NoOrphans(Compressed(h, s, working, before).messages)
  {
    var head, rest := working[0], working[1..];
    assert working == [head] + rest;
    OrphansBehind([head], rest);
    KeepsCallersTail(head, rest, NotRetained);
    RemovalOrphansNothing(rest, NotRetained);
    var candidates := Filter(rest, NotRetained);
    RecentStartsAtBoundary(s, candidates);
    NoOrphansSuffix(candidates, SplitPoint(candidates, s.keepRecent));
    CompressedShape(h, s, working, before);
    var facts, summaries := SurvivingFacts(h, s, working), FinalSummaries(h, s, working);
    AssembledFront(head, facts, summaries);
    NoOrphansBehind([head] + FactBlock(facts) + SummaryBlock(summaries), RecentMessages(s, working));
  }

  /** On every return path, for every extractor, summariser and budget, each tool result still sits
      right after its call, provided no unmarked result answers a marked call. */
  lemma PairingKept(h: Helpers, s: Settings, messages: seq<Message>)
    requires s.keepRecent >= 1 && messages != [] && messages[0].role == System
    requires NoOrphans(messages) && ThinningKeepsMarks(h, s, messages)
    requires KeepsCallers(messages, NotRetained)
    ensures NoOrphans(Compacted(h, s, messages).messages)
  {
    var working := Thinned(h, messages, s.keepRecent);
    ThinnedShape(h, messages, s.keepRecent);
    SameShapePairs(messages, working);
    CompactedShape(h, s, messages);
    if Compacted(h, s, messages).passesUsed >= 2 {
      KeepsCallersSameShape(messages, working, NotRetained);
      CompressedPairs(h, s, working, h.estimate(messages));
    }
  }

  /** Room for all but two messages, and budgets that force every pass. */
  predicate ForcesAllPasses(s: Settings, messages: seq<Message>) {
    s.keepRecent == |messages| - 2 && s.threshold == 0 && s.drainTo == 0
  }

  lemma NothingThinned(h: Helpers, messages: seq<Message>, keepRecent: nat)
    requires ToolCount(messages) <= keepRecent
    ensures Thinned(h, messages, keepRecent) == messages
  {
    forall k | 0 <= k < |messages| ensures ThinnedAt(h, messages, keepRecent, k) == messages[k] {
      ToolCountSplit(messages, k);
    }
  }

  lemma FewTools(messages: seq<Message>, j: nat)
    requires 0 < j < |messages| && !IsTool(messages[0]) && !IsTool(messages[j])
    ensures ToolCount(messages) <= |messages| - 2
  {
    FilterDrops(messages[1..], IsTool, j - 1);
    FilterCons(messages[0], messages[1..], IsTool);
    assert messages == [messages[0]] + messages[1..];
  }

  lemma AnsweredInTail(head: Message, rest: seq<Message>, i: nat, j: nat)
    requires AnsweredBy([head] + rest, i, j) && j > 0
    ensures AnsweredBy(rest, i - 1, j - 1) && rest[i - 1] == ([head] + rest)[i] && rest[j - 1] == ([head] + rest)[j]
  {
    assert forall k :: 0 <= k < |rest| ==> rest[k] == ([head] + rest)[k + 1];
  }

  lemma TornIsNotKept(messages: seq<Message>, i: nat, j: nat, keep: Message -> bool)
    requires AnsweredBy(messages, i, j) && IsTool(messages[i]) && keep(messages[i]) && !keep(messages[j])
    ensures !KeepsCallers(messages, keep)
  {
  }

  lemma TornPairInTail(head: Message, rest: seq<Message>, i: nat, j: nat, keep: Message -> bool)
    requires DistinctCalls([head] + rest) && j > 0
    requires AnsweredBy([head] + rest, i, j) && IsTool(([head] + rest)[i])
    requires keep(([head] + rest)[i]) && !keep(([head] + rest)[j])
    ensures !NoOrphans(Filter(rest, keep))
  {
    DistinctCallsTail(head, rest);
    AnsweredInTail(head, rest, i, j);
    TornIsNotKept(rest, i - 1, j - 1, keep);
    RemovalOrphans(rest, keep);
  }

  lemma TornPairBehindHead(messages: seq<Message>, i: nat, j: nat, keep: Message -> bool)
    requires DistinctCalls(messages) && j > 0
    requires AnsweredBy(messages, i, j) && IsTool(messages[i]) && keep(messages[i]) && !keep(messages[j])
    ensures !NoOrphans(Filter(messages[1..], keep))
  {
    assert messages == [messages[0]] + messages[1..];
    TornPairInTail(messages[0], messages[1..], i, j, keep);
  }

  /** With room for all but two messages, everything unmarked is recent and nothing is thinned. */
  lemma AllRecent(h: Helpers, s: Settings, messages: seq<Message>, j: nat)
    requires 0 < j < |messages| && messages[0].role == System && IsCall(messages[j]) && IsRetained(messages[j])
    requires s.keepRecent == |messages| - 2
    ensures Thinned(h, messages, s.keepRecent) == messages
    ensures RecentMessages(s, messages) == Filter(messages[1..], NotRetained)
  {
    FewTools(messages, j);
    NothingThinned(h, messages, s.keepRecent);
    FilterDrops(messages[1..], NotRetained, j - 1);
  }

  lemma CompressedOrphans(h: Helpers, s: Settings, working: seq<Message>, before: nat)
    requires working != [] && working[0].role == System && !NoOrphans(RecentMessages(s, working))
    ensures !NoOrphans(Compressed(h, s, working, before).messages)
  {
    CompressedShape(h, s, working, before);
    var facts, summaries := SurvivingFacts(h, s, working), FinalSummaries(h, s, working);
    AssembledFront(working[0], facts, summaries);
    var front := [working[0]] + FactBlock(facts) + SummaryBlock(summaries);
    if NoOrphans(front + RecentMessages(s, working)) {
      OrphansBehind(front, RecentMessages(s, working));
    }
  }

  lemma UnchangedKeepsMarks(h: Helpers, s: Settings, messages: seq<Message>)
    requires Thinned(h, messages, s.keepRecent) == messages
    ensures ThinningKeepsMarks(h, s, messages)
  {
  }

  lemma RecentPairIsOrphaned(h: Helpers, s: Settings, messages: seq<Message>, before: nat, i: nat, j: nat)
    requires messages != [] && messages[0].role == System && DistinctCalls(messages)
    requires j > 0 && AnsweredBy(messages, i, j) && IsTool(messages[i])
    requires NotRetained(messages[i]) && !NotRetained(messages[j])
    requires RecentMessages(s, messages) == Filter(messages[1..], NotRetained)
    ensures !NoOrphans(Compressed(h, s, messages, before).messages)
  {
    TornPairBehindHead(messages, i, j, NotRetained);
    CompressedOrphans(h, s, messages, before);
  }

  /** A call that carries the marker, answered by a result that does not. */
  ghost predicate TornPair(messages: seq<Message>, i: nat, j: nat) {
    && messages != [] && messages[0].role == System
    && AnsweredBy(messages, i, j) && IsTool(messages[i])
    && NotRetained(messages[i]) && !NotRetained(messages[j])
  }

  lemma ForcedCompacts(h: Helpers, s: Settings, messages: seq<Message>)
    requires |messages| >= 3 && ForcesAllPasses(s, messages) && Thinned(h, messages, s.keepRecent) == messages
    ensures Compacted(h, s, messages) == Compressed(h, s, messages, h.estimate(messages))
  {
  }

  /** Whatever the model calls return: with both messages recent, the pair is torn apart. */
  lemma TornPairIsOrphaned(h: Helpers, s: Settings, messages: seq<Message>, i: nat, j: nat)
    requires TornPair(messages, i, j) && DistinctCalls(messages) && ForcesAllPasses(s, messages)
    ensures s.keepRecent >= 1 && ThinningKeepsMarks(h, s, messages)
    ensures !NoOrphans(Compacted(h, s, messages).messages)
  {
    assert Calls(messages[j], messages[i]) && j > 0;
    AllRecent(h, s, messages, j);
    UnchangedKeepsMarks(h, s, messages);
    RecentPairIsOrphaned(h, s, messages, h.estimate(messages), i, j);
    ForcedCompacts(h, s, messages);
  }

  lemma FindTornPair(messages: seq<Message>) returns (i: nat, j: nat)
    requires messages != [] && messages[0].role == System && !KeepsCallers(messages, NotRetained)
    ensures TornPair(messages, i, j)
  {
    i, j :| AnsweredBy(messages, i, j) && IsTool(messages[i]) && NotRetained(messages[i]) && !NotRetained(messages[j]);
  }

  lemma DistinctCallsTail(head: Message, rest: seq<Message>)
    requires DistinctCalls([head] + rest)
    ensures DistinctCalls(rest)
  {
    var all := [head] + rest;
    forall i: nat, j: nat, k: nat | i < |rest| && j < |rest| && k < |rest| && Calls(rest[j], rest[i]) && Calls(rest[k], rest[i])
      ensures j == k
    {
      assert all[i + 1] == rest[i] && all[j + 1] == rest[j] && all[k + 1] == rest[k];
    }
  }

  ghost predicate PairsUnder(h: Helpers, s: Settings, messages: seq<Message>) {
    s.keepRecent >= 1 && ThinningKeepsMarks(h, s, messages) ==> NoOrphans(Compacted(h, s, messages).messages)
  }

  lemma TornPairBreaksPairing(h: Helpers, s: Settings, messages: seq<Message>, i: nat, j: nat)
    requires TornPair(messages, i, j) && DistinctCalls(messages) && ForcesAllPasses(s, messages)
    ensures !PairsUnder(h, s, messages)
  {
    TornPairIsOrphaned(h, s, messages, i, j);
  }

  ghost predicate AlwaysPairs(messages: seq<Message>) {
    forall h: Helpers, s: Settings :: PairsUnder(h, s, messages)
  }

  lemma KeptCallersAlwaysPair(messages: seq<Message>)
    requires messages != [] && messages[0].role == System
    requires NoOrphans(messages) && KeepsCallers(messages, NotRetained)
    ensures AlwaysPairs(messages)
  {
    forall h: Helpers, s: Settings ensures PairsUnder(h, s, messages) {
      if s.keepRecent >= 1 && ThinningKeepsMarks(h, s, messages) {
        PairingKept(h, s, messages);
      }
    }
  }

  lemma TornPairNotAlwaysPaired(h: Helpers, messages: seq<Message>, i: nat, j: nat)
    requires TornPair(messages, i, j) && DistinctCalls(messages)
    ensures !AlwaysPairs(messages)
  {
    assert Calls(messages[j], messages[i]) && j > 0;
    TornPairBreaksPairing(h, Settings(|messages| - 2, 0, 0), messages, i, j);
  }

  /** The exact condition, for conversations whose call ids are used once: compaction never orphans
      a result, whatever the budgets and model calls, if and only if no unmarked result answers a
      call that carries the retained-context marker. */
  lemma PairingKeptIff(messages: seq<Message>)
    requires messages != [] && messages[0].role == System
    requires NoOrphans(messages) && DistinctCalls(messages)
    ensures KeepsCallers(messages, NotRetained) <==> AlwaysPairs(messages)
  {
    if KeepsCallers(messages, NotRetained) {
      KeptCallersAlwaysPair(messages);
    } else {
      var i, j := FindTornPair(messages);
      TornPairNotAlwaysPaired(Helpers(_ => 0, _ => "", _ => [], _ => ""), messages, i, j);
    }
  }

  /** No tool result carries the marker, as it comes or once thinned. */
  ghost predicate ToolsUnmarked(h: Helpers, s: Settings, messages: seq<Message>) {
    forall k :: 0 <= k < |messages| && IsTool(messages[k]) ==>
      NotRetained(messages[k]) && NotRetained(Thinned(h, messages, s.keepRecent)[k])
  }

  /** The other half of pairing: every call in the result keeps its block of results. */
  lemma AnswersKept(h: Helpers, s: Settings, messages: seq<Message>)
    requires s.keepRecent >= 1 && messages != [] && messages[0].role == System
    requires AllAnswered(messages) && ToolsUnmarked(h, s, messages)
    ensures AllAnswered(Compacted(h, s, messages).messages)
  {
    var working := Thinned(h, messages, s.keepRecent);
    ThinnedShape(h, messages, s.keepRecent);
    SameShapePairs(messages, working);
    CompactedShape(h, s, messages);
    if Compacted(h, s, messages).passesUsed >= 2 {
      AllAnsweredSuffix(working, 1);
      forall k | 0 <= k < |working[1..]| && IsTool(working[1..][k]) ensures NotRetained(working[1..][k]) {
        assert working[1..][k] == working[k + 1] && IsTool(messages[k + 1]);
      }
      RemovalKeepsAnswers(working[1..], NotRetained);
      var candidates := Filter(working[1..], NotRetained);
      AllAnsweredSuffix(candidates, SplitPoint(candidates, s.keepRecent));
      CompressedShape(h, s, working, h.estimate(messages));
      var facts, summaries := SurvivingFacts(h, s, working), FinalSummaries(h, s, working);
      AssembledFront(working[0], facts, summaries);
      AllAnsweredBehind([working[0]] + FactBlock(facts) + SummaryBlock(summaries), RecentMessages(s, working));
    }
  }

  // ---- The recent tail ----

  lemma ThinnedKeepsTail(h: Helpers, s: Settings, messages: seq<Message>)
    requires messages != [] && ToolsUnmarked(h, s, messages)
    ensures var working := Thinned(h, messages, s.keepRecent);
            LastN(Filter(working[1..], NotRetained), s.keepRecent) == LastN(Filter(messages[1..], NotRetained), s.keepRecent)
  {
    var a, b := Thinned(h, messages, s.keepRecent)[1..], messages[1..];
    forall k | 0 <= k < |a| && a[k] != b[k] ensures |Filter(b[k + 1..], NotRetained)| >= s.keepRecent {
      assert a[k] == ThinnedAt(h, messages, s.keepRecent, k + 1) && b[k] == messages[k + 1];
      var behind := messages[k + 2..];
      assert b[k + 1..] == behind;
      forall n | 0 <= n < |behind| && IsTool(behind[n]) ensures NotRetained(behind[n]) {
        assert behind[n] == messages[k + 2 + n];
      }
      FilterWeaker(behind, IsTool, NotRetained);
    }
    forall k | 0 <= k < |a| ensures NotRetained(a[k]) == NotRetained(b[k]) {
      assert a[k] == ThinnedAt(h, messages, s.keepRecent, k + 1) && b[k] == messages[k + 1];
    }
    FilterLastN(a, b, NotRetained, s.keepRecent);
  }

  lemma EndsWithLastN(s: seq<Message>, n: nat)
    ensures EndsWith(s, LastN(s, n))
  {
  }

  lemma RecentIsUnmarked(s: Settings, working: seq<Message>)
    requires working != []
    ensures Filter(RecentMessages(s, working), NotRetained) == RecentMessages(s, working)
    ensures forall k :: 0 <= k < |RecentMessages(s, working)| ==>
              NotRetained(RecentMessages(s, working)[k]) && RecentMessages(s, working)[k] in working
  {
    var candidates, recent := Filter(working[1..], NotRetained), RecentMessages(s, working);
    var split := SplitPoint(candidates, s.keepRecent);
    FilterMembers(working[1..], NotRetained);
    forall k | 0 <= k < |recent| ensures NotRetained(recent[k]) && recent[k] in working {
      assert recent[k] == candidates[split + k];
    }
    FilterAll(recent, NotRetained);
  }

  lemma EndsWithBehind(front: seq<Message>, back: seq<Message>, tail: seq<Message>)
    requires EndsWith(back, tail)
    ensures EndsWith(front + back, tail)
  {
  }

  lemma TailBehindFront(head: Message, a: seq<Message>, b: seq<Message>, recent: seq<Message>,
                        keep: Message -> bool, tail: seq<Message>)
    requires Filter(recent, keep) == recent && EndsWith(recent, tail)
    ensures EndsWith(Filter(([head] + a + b + recent)[1..], keep), tail)
  {
    assert ([head] + a + b + recent)[1..] == (a + b) + recent;
    FilterConcat(a + b, recent, keep);
    EndsWithBehind(Filter(a + b, keep), recent, tail);
  }

  lemma RecentKeepsTail(s: Settings, working: seq<Message>)
    requires working != [] && s.keepRecent >= 1
    ensures EndsWith(RecentMessages(s, working), LastN(Filter(working[1..], NotRetained), s.keepRecent))
  {
  }

  /** On every return path the last `keepRecent` unmarked messages come out verbatim, at the end. */
  lemma RecentTailVerbatim(h: Helpers, s: Settings, messages: seq<Message>)
    requires messages != [] && s.keepRecent >= 1 && ToolsUnmarked(h, s, messages)
    ensures Compacted(h, s, messages).messages != []
    ensures EndsWith(Filter(Compacted(h, s, messages).messages[1..], NotRetained),
                     LastN(Filter(messages[1..], NotRetained), s.keepRecent))
  {
    var working := Thinned(h, messages, s.keepRecent);
    ThinnedKeepsTail(h, s, messages);
    EndsWithLastN(Filter(messages[1..], NotRetained), s.keepRecent);
    EndsWithLastN(Filter(working[1..], NotRetained), s.keepRecent);
    CompactedShape(h, s, messages);
    if Compacted(h, s, messages).passesUsed >= 2 {
      CompressedShape(h, s, working, h.estimate(messages));
      RecentIsUnmarked(s, working);
      RecentKeepsTail(s, working);
      TailBehindFront(working[0], FactBlock(SurvivingFacts(h, s, working)), SummaryBlock(FinalSummaries(h, s, working)),
                      RecentMessages(s, working), NotRetained, LastN(Filter(working[1..], NotRetained), s.keepRecent));
    }
  }

  // ---- Budgets ----

  /** The estimate of the list rebuilt with all but the first `k` summaries. */
  function EstimateWithout(h: Helpers, system: Message, facts: seq<Fact>, summaries: seq<string>,
                           recent: seq<Message>, k: nat): nat
    requires k <= |summaries|
  {
    h.estimate(Assembled(system, facts, summaries[k..], recent))
  }

  /** Pruning drops the fewest oldest summaries that bring the estimate under budget, or all but one. */
  lemma {:induction false} PrunedDropsFewest(h: Helpers, system: Message, facts: seq<Fact>, summaries: seq<string>,
                                             recent: seq<Message>, drainTo: int)
    returns (k: nat)
    ensures k <= |summaries| && Pruned(h, system, facts, summaries, recent, drainTo) == summaries[k..]
    ensures k == 0 || k < |summaries|
    ensures EstimateWithout(h, system, facts, summaries, recent, k) < drainTo || |summaries| - k <= 1
    ensures forall j: nat :: j < k ==> EstimateWithout(h, system, facts, summaries, recent, j) >= drainTo
  {
    assert summaries[0..] == summaries;
    if h.estimate(Assembled(system, facts, summaries, recent)) >= drainTo && |summaries| > 1 {
      var n := PrunedDropsFewest(h, system, facts, summaries[1..], recent, drainTo);
      k := n + 1;
      forall j: nat | 1 <= j <= k
        ensures EstimateWithout(h, system, facts, summaries, recent, j)
             == EstimateWithout(h, system, facts, summaries[1..], recent, j - 1)
      {
        assert summaries[j..] == summaries[1..][j - 1..];
      }
      assert summaries[k..] == summaries[1..][n..];
    } else {
      k := 0;
    }
  }

  /** The result's token count is the estimate of the returned messages on every path, and a result
      under the drain target is left alone by the next compaction. */
  lemma CompactedIsSettled(h: Helpers, s: Settings, messages: seq<Message>)
    ensures var r := Compacted(h, s, messages);
            && r.tokensAfter == h.estimate(r.messages) && r.tokensBefore == h.estimate(messages)
            && (r.passesUsed in {1, 3} ==> r.tokensAfter < s.drainTo)
            && (r.tokensAfter < s.drainTo <= s.threshold ==>
                  Compacted(h, s, r.messages) == Result(r.messages, [], 0, r.tokensAfter, r.tokensAfter))
  {
  }
}
