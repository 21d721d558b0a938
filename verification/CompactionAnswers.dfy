/** The whole answer of a compaction, message by message (robothor/engine/compaction.py): which pass it ends in, what
    becomes of every message, which facts and which summaries the result holds. */
module CompactionAnswers {
  import opened Sequences
  import T = Text
  import opened FactLines
  import opened Conversation
  import opened Compaction
  import opened CompactionStructure
  import opened CompactionFacts

  // ---- The vocabulary of the code ----

  /** The text `[RETAINED CONTEXT]` occurs in the content, which is a string. */
  ghost predicate Marked(m: Message) {
    m.content.Text? && exists i: nat :: T.At(m.content.text, "[RETAINED CONTEXT]", i)
  }

  lemma MarkedIff(m: Message)
    ensures IsRetained(m) <==> Marked(m)
  {
    if m.content.Text? {
      T.FindIsFirst(m.content.text, MARKER, 0);
    }
  }

  /** A cut may sit in front of the message. */
  predicate SafeCut(m: Message) {
    m.role != Tool && (m.role == Assistant ==> |m.toolCalls| == 0)
  }

  /** The tool results behind position `k`. */
  function ToolsBehind(messages: seq<Message>, k: nat): set<nat> {
    set j: nat | k < j < |messages| && messages[j].role == Tool
  }

  function Shown(c: Content): string {
    match c
    case Absent => ""
    case Text(text) => text
    case Other(rendered) => rendered
  }

  /** The message is a long tool result with `keepRecent` tool results behind it. */
  predicate IsThinned(messages: seq<Message>, keepRecent: nat, k: nat)
    requires k < |messages|
  {
    messages[k].role == Tool && |Shown(messages[k].content)| > 500 && |ToolsBehind(messages, k)| >= keepRecent
  }

  /** Thinning replaces the content of just these messages. */
  predicate ThinnedTo(h: Helpers, messages: seq<Message>, keepRecent: nat, working: seq<Message>) {
    && |working| == |messages|
    && forall k :: 0 <= k < |messages| ==>
         if IsThinned(messages, keepRecent, k)
         then working[k] == messages[k].(content := Text("[tool result: " + h.thin(Shown(messages[k].content)) + "]"))
         else working[k] == messages[k]
  }

  lemma {:induction false} ToolCountIs(messages: seq<Message>, k: nat)
    requires k < |messages|
    ensures ToolCount(messages[k + 1..]) == |ToolsBehind(messages, k)|
    decreases |messages| - k
  {
    if k + 1 == |messages| {
      assert ToolsBehind(messages, k) == {};
    } else {
      var next := messages[k + 1];
      ToolCountIs(messages, k + 1);
      FilterCons(next, messages[k + 2..], IsTool);
      assert messages[k + 1..] == [next] + messages[k + 2..];
      assert ToolsBehind(messages, k) == ToolsBehind(messages, k + 1) + if next.role == Tool then {k + 1} else {};
    }
  }

  lemma ThinnedIs(h: Helpers, messages: seq<Message>, keepRecent: nat)
    ensures ThinnedTo(h, messages, keepRecent, Thinned(h, messages, keepRecent))
  {
    forall k | 0 <= k < |messages| ensures ToolCount(messages[k + 1..]) == |ToolsBehind(messages, k)| {
      ToolCountIs(messages, k);
    }
  }

  // ---- Which pass ----

  /** The passes end where their budget is met; up to pass 1 nothing else happens. */
  predicate EndsAtPass(h: Helpers, s: Settings, messages: seq<Message>, working: seq<Message>, r: Result) {
    && r.tokensBefore == h.estimate(messages) && r.tokensAfter == h.estimate(r.messages)
    && (if h.estimate(messages) < s.threshold || |messages| < s.keepRecent + 2 then
          r.passesUsed == 0 && r.messages == messages && |r.facts| == 0
        else if h.estimate(working) < s.drainTo then
          r.passesUsed == 1 && r.messages == working && |r.facts| == 0
        else
          2 <= r.passesUsed <= 4)
  }

  lemma PassAnswer(h: Helpers, s: Settings, messages: seq<Message>)
    ensures EndsAtPass(h, s, messages, Thinned(h, messages, s.keepRecent), Compacted(h, s, messages))
  {
  }

  // ---- Where the messages go ----

  ghost predicate UnmarkedAt(working: seq<Message>, idx: seq<nat>) {
    && Increasing(idx)
    && (forall n :: 0 <= n < |idx| ==> 0 < idx[n] < |working| && !Marked(working[idx[n]]))
    && (forall k :: 0 < k < |working| && !Marked(working[k]) ==> k in idx)
  }

  ghost predicate MarkedAt(working: seq<Message>, idx: seq<nat>) {
    && Increasing(idx)
    && (forall n :: 0 <= n < |idx| ==> 0 < idx[n] < |working| && Marked(working[idx[n]]))
    && (forall k :: 0 < k < |working| && Marked(working[k]) ==> k in idx)
  }

  lemma MarksAre(working: seq<Message>)
    ensures forall k :: 0 <= k < |working| ==> (IsRetained(working[k]) <==> Marked(working[k]))
  {
    forall k | 0 <= k < |working| ensures IsRetained(working[k]) <==> Marked(working[k]) {
      MarkedIff(working[k]);
    }
  }

  lemma UnmarkedPositions(working: seq<Message>, idx: seq<nat>)
    requires TailPositions(working, NotRetained, idx)
    ensures UnmarkedAt(working, idx)
  {
    MarksAre(working);
  }

  lemma MarkedPositions(working: seq<Message>, idx: seq<nat>)
    requires TailPositions(working, IsRetained, idx)
    ensures MarkedAt(working, idx)
  {
    MarksAre(working);
  }

  /** The messages after the first that are not marked. */
  ghost predicate IsHistory(working: seq<Message>, history: seq<Message>, idx: seq<nat>) {
    UnmarkedAt(working, idx) && |history| == |idx| && forall n :: 0 <= n < |idx| ==> history[n] == working[idx[n]]
  }

  ghost predicate HasHistory(working: seq<Message>, history: seq<Message>) {
    exists idx :: IsHistory(working, history, idx)
  }

  /** The last safe cut that leaves at least `keepRecent` messages, or the start. */
  predicate IsCut(history: seq<Message>, keepRecent: nat, cut: nat) {
    if |history| <= keepRecent then cut == 0
    else
      && cut <= |history| - keepRecent && (cut == 0 || cut == |history| || SafeCut(history[cut]))
      && forall k :: cut < k <= |history| - keepRecent && k < |history| ==> !SafeCut(history[k])
  }

  lemma HistoryIs(working: seq<Message>)
    requires working != []
    ensures HasHistory(working, Filter(working[1..], NotRetained))
  {
    var idx := FilterTailPositions(working, NotRetained);
    UnmarkedPositions(working, idx);
    assert IsHistory(working, Filter(working[1..], NotRetained), idx);
  }

  lemma CutIs(s: Settings, history: seq<Message>)
    requires s.keepRecent >= 1
    ensures IsCut(history, s.keepRecent, SplitPoint(history, s.keepRecent))
  {
    if |history| > s.keepRecent {
      SafeSplitIsLastBoundary(history, |history| - s.keepRecent);
    }
    assert forall m :: Plain(m) <==> SafeCut(m);
  }

  /** Everything unmarked is old or recent: the old messages are what facts are extracted from, the recent ones come
      out verbatim behind the facts and the summaries. */
  ghost predicate Divided(h: Helpers, s: Settings, working: seq<Message>, r: Result,
                          early: seq<Message>, recent: seq<Message>, kept: seq<string>)
    requires working != []
  {
    && HasHistory(working, early + recent)
    && IsCut(early + recent, s.keepRecent, |early|)
    && r.messages ==
         [working[0]]
         + (if |r.facts| == 0 then [] else [Message(User, Text(RetainedContent(r.facts)), [], "")])
         + (if |kept| == 0 then []
            else [Message(User, Text("[Conversation summary]\n" + T.Join("\n---\n", kept)), [], ""),
                  Message(Assistant, Text("Understood. I have context from our previous conversation."), [], "")])
         + recent
  }

  // ---- The facts ----

  /** What the marked messages after the first say, in order. */
  ghost predicate IsRetainedFacts(working: seq<Message>, idx: seq<nat>, facts: seq<Fact>) {
    MarkedAt(working, idx) && facts == AllFacts(working, idx)
  }

  function AllFacts(working: seq<Message>, idx: seq<nat>): seq<Fact>
    requires forall n :: 0 <= n < |idx| ==> idx[n] < |working|
  {
    if idx == [] then []
    else
      var n := |idx| - 1;
      AllFacts(working, idx[..n])
      + (if working[idx[n]].content.Text? then ParseContent(working[idx[n]].content.text) else [])
  }

  /** The facts of a list that are the first with their text, in order. */
  ghost predicate FirstFacts(all: seq<Fact>, facts: seq<Fact>, idx: seq<nat>) {
    && Increasing(idx) && |facts| == |idx|
    && (forall n :: 0 <= n < |idx| ==> IsFirstWithText(all, idx[n]) && facts[n] == all[idx[n]])
    && (forall k: nat :: k < |all| && IsFirstWithText(all, k) ==> k in idx)
  }

  lemma TextInPrefix(facts: seq<Fact>, t: string)
    ensures t in Texts(facts) <==> exists j :: 0 <= j < |facts| && facts[j].text == t
  {
    if j :| 0 <= j < |facts| && facts[j].text == t {
      assert facts[j] in facts;
    }
  }

  lemma FirstInPrefix(all: seq<Fact>)
    requires all != []
    ensures var init := all[..|all| - 1];
            && (forall k: nat :: k < |init| ==> (IsFirstWithText(all, k) <==> IsFirstWithText(init, k)))
            && (IsFirstWithText(all, |init|) <==> all[|init|].text !in Texts(init))
  {
    TextInPrefix(all[..|all| - 1], all[|all| - 1].text);
  }

  lemma FirstFactsStep(all: seq<Fact>, facts: seq<Fact>, idx: seq<nat>)
    requires all != [] && FirstFacts(all[..|all| - 1], facts, idx)
    ensures var n := |all| - 1;
            if all[n].text in Texts(all[..n]) then FirstFacts(all, facts, idx) else FirstFacts(all, facts + [all[n]], idx + [n])
  {
    var n := |all| - 1;
    FirstInPrefix(all);
    if all[n].text !in Texts(all[..n]) {
      var more := idx + [n];
      assert more[|idx|] == n;
      forall k: nat | k < |all| && IsFirstWithText(all, k) ensures k in more {
        if k < n {
          assert k in idx;
        }
      }
    }
  }

  lemma {:induction false} DedupIs(all: seq<Fact>) returns (idx: seq<nat>)
    ensures FirstFacts(all, Dedup(all), idx)
  {
    if all == [] {
      idx := [];
    } else {
      var n := |all| - 1;
      idx := DedupIs(all[..n]);
      FirstFactsStep(all, Dedup(all[..n]), idx);
      if all[n].text !in Texts(all[..n]) {
        idx := idx + [n];
      }
    }
  }

  lemma {:induction false} FactsInIs(working: seq<Message>, kept: seq<Message>, idx: seq<nat>)
    requires |kept| == |idx| && forall n :: 0 <= n < |idx| ==> idx[n] < |working| && kept[n] == working[idx[n]]
    ensures FactsIn(kept) == AllFacts(working, idx)
    decreases |idx|
  {
    if kept != [] {
      var n := |idx| - 1;
      FactsInIs(working, kept[..n], idx[..n]);
      assert kept == kept[..n] + [kept[n]];
      FactsInConcat(kept[..n], [kept[n]]);
      FlatMapOne(kept[n], MessageParser(T.Lines, ParseLine));
    }
  }

  lemma RetainedIs(working: seq<Message>) returns (idx: seq<nat>)
    requires working != []
    ensures IsRetainedFacts(working, idx, RetainedFacts(working))
  {
    idx := FilterTailPositions(working, IsRetained);
    MarkedPositions(working, idx);
    FactsInIs(working, Filter(working[1..], IsRetained), idx);
  }

  /** The facts of the result are those extracted from the old messages, then those of the marked ones, the first of
      each text. */
  ghost predicate FactsFrom(h: Helpers, working: seq<Message>, early: seq<Message>, facts: seq<Fact>) {
    exists marked, retained, idx ::
      IsRetainedFacts(working, marked, retained) && FirstFacts(h.extract(early) + retained, facts, idx)
  }

  // ---- The summaries ----

  /** Consecutive blocks of `size` messages, the last one perhaps shorter. */
  ghost predicate IsBlocks(messages: seq<Message>, size: nat, blocks: seq<seq<Message>>) {
    && FlatMap(blocks, (b: seq<Message>) => b) == messages
    && (forall k :: 0 <= k < |blocks| ==> 0 < |blocks[k]| <= size && (k + 1 < |blocks| ==> |blocks[k]| == size))
  }

  lemma {:induction false} ChunksAre(messages: seq<Message>, size: nat)
    requires size > 0
    ensures IsBlocks(messages, size, Chunks(messages, size))
  {
    var whole := (b: seq<Message>) => b;
    if messages == [] {
    } else if |messages| <= size {
      FlatMapOne(messages, whole);
    } else {
      ChunksAre(messages[size..], size);
      var rest := Chunks(messages[size..], size);
      assert ([messages[..size]] + rest)[1..] == rest;
      assert messages == messages[..size] + messages[size..];
    }
  }

  ghost predicate IsSummaries(h: Helpers, early: seq<Message>, all: seq<string>) {
    exists blocks ::
      IsBlocks(early, 20, blocks) && |all| == |blocks| && forall k :: 0 <= k < |blocks| ==> all[k] == h.summarize(blocks[k])
  }

  /** The kept summaries are all but the first `dropped`: none is dropped when the budget is met with all of them, and
      never more than needed. */
  predicate KeptFrom(h: Helpers, drainTo: int, system: Message, facts: seq<Fact>, recent: seq<Message>, kept: seq<string>,
                     all: seq<string>, dropped: nat, pass: nat)
  {
    && dropped <= |all| && kept == all[dropped..]
    && (forall j: nat :: j < dropped ==> EstimateWithout(h, system, facts, all, recent, j) >= drainTo)
    && pass == (if |all| == 0 then 2 else if EstimateWithout(h, system, facts, all, recent, 0) < drainTo then 3 else 4)
    && (pass < 4 ==> dropped == 0)
    && (pass == 4 ==> |kept| == 1 || (|kept| > 1 && EstimateWithout(h, system, facts, all, recent, dropped) < drainTo))
  }

  ghost predicate SummariesFrom(h: Helpers, s: Settings, working: seq<Message>, r: Result, early: seq<Message>,
                                recent: seq<Message>, kept: seq<string>, all: seq<string>, dropped: nat)
    requires working != []
  {
    && IsSummaries(h, early, all) && (|all| == 0 <==> |early| == 0)
    && KeptFrom(h, s.drainTo, working[0], r.facts, recent, kept, all, dropped, r.passesUsed)
  }

  lemma FactsAnswer(h: Helpers, s: Settings, working: seq<Message>)
    requires working != []
    ensures FactsFrom(h, working, OldMessages(s, working), SurvivingFacts(h, s, working))
  {
    var marked := RetainedIs(working);
    var idx := DedupIs(h.extract(OldMessages(s, working)) + RetainedFacts(working));
  }

  lemma AllSummaries(h: Helpers, early: seq<Message>)
    ensures IsSummaries(h, early, Summaries(h, Chunks(early, SEGMENT_SIZE)))
    ensures Summaries(h, Chunks(early, SEGMENT_SIZE)) == [] <==> early == []
  {
    ChunksAre(early, SEGMENT_SIZE);
  }

  lemma CompressedPass(h: Helpers, s: Settings, working: seq<Message>, before: nat)
    requires working != []
    ensures var all := Summaries(h, Chunks(OldMessages(s, working), SEGMENT_SIZE));
            var full := EstimateWithout(h, working[0], SurvivingFacts(h, s, working), all, RecentMessages(s, working), 0);
            && Compressed(h, s, working, before).passesUsed
                 == (if |OldMessages(s, working)| == 0 then 2 else if full < s.drainTo then 3 else 4)
            && FinalSummaries(h, s, working)
                 == if all == [] || full < s.drainTo then all
                    else Pruned(h, working[0], SurvivingFacts(h, s, working), all, RecentMessages(s, working), s.drainTo)
  {
    var all := Summaries(h, Chunks(OldMessages(s, working), SEGMENT_SIZE));
    assert all[0..] == all;
  }

  lemma KeptAnswer(h: Helpers, drainTo: int, system: Message, facts: seq<Fact>, recent: seq<Message>, kept: seq<string>,
                   all: seq<string>, pass: nat) returns (dropped: nat)
    requires var full := EstimateWithout(h, system, facts, all, recent, 0);
             && pass == (if |all| == 0 then 2 else if full < drainTo then 3 else 4)
             && kept == if all == [] || full < drainTo then all else Pruned(h, system, facts, all, recent, drainTo)
    ensures KeptFrom(h, drainTo, system, facts, recent, kept, all, dropped, pass)
  {
    assert all[0..] == all;
    dropped := 0;
    if all != [] && EstimateWithout(h, system, facts, all, recent, 0) >= drainTo {
      dropped := PrunedDropsFewest(h, system, facts, all, recent, drainTo);
    }
  }

  lemma SummariesAnswer(h: Helpers, s: Settings, working: seq<Message>, before: nat) returns (all: seq<string>, dropped: nat)
    requires working != []
    ensures SummariesFrom(h, s, working, Compressed(h, s, working, before), OldMessages(s, working), RecentMessages(s, working),
                          FinalSummaries(h, s, working), all, dropped)
  {
    all := Summaries(h, Chunks(OldMessages(s, working), SEGMENT_SIZE));
    AllSummaries(h, OldMessages(s, working));
    CompressedShape(h, s, working, before);
    CompressedPass(h, s, working, before);
    dropped := KeptAnswer(h, s.drainTo, working[0], SurvivingFacts(h, s, working), RecentMessages(s, working),
                          FinalSummaries(h, s, working), all, Compressed(h, s, working, before).passesUsed);
  }

  lemma ShapeAnswer(system: Message, facts: seq<Fact>, kept: seq<string>, recent: seq<Message>)
    ensures Assembled(system, facts, kept, recent) ==
              [system]
              + (if |facts| == 0 then [] else [Message(User, Text(RetainedContent(facts)), [], "")])
              + (if |kept| == 0 then []
                 else [Message(User, Text("[Conversation summary]\n" + T.Join("\n---\n", kept)), [], ""),
                       Message(Assistant, Text("Understood. I have context from our previous conversation."), [], "")])
              + recent
  {
  }

  lemma SplitIs(s: Settings, working: seq<Message>)
    requires working != []
    ensures var history := Filter(working[1..], NotRetained);
            && OldMessages(s, working) + RecentMessages(s, working) == history
            && |OldMessages(s, working)| == SplitPoint(history, s.keepRecent)
  {
  }

  lemma DivisionAnswer(h: Helpers, s: Settings, working: seq<Message>, before: nat)
    requires working != [] && s.keepRecent >= 1
    ensures Divided(h, s, working, Compressed(h, s, working, before), OldMessages(s, working), RecentMessages(s, working),
                    FinalSummaries(h, s, working))
  {
    SplitIs(s, working);
    HistoryIs(working);
    CutIs(s, Filter(working[1..], NotRetained));
    CompressedShape(h, s, working, before);
    ShapeAnswer(working[0], SurvivingFacts(h, s, working), FinalSummaries(h, s, working), RecentMessages(s, working));
  }

  /** A whole compaction. From pass 2 on no message vanishes: each unmarked one is recent and comes out verbatim, or
      old and given to the extractor and to one summary; each marked one is read for its facts. */
  lemma CompactAnswer(h: Helpers, s: Settings, messages: seq<Message>)
    returns (working: seq<Message>, early: seq<Message>, recent: seq<Message>, kept: seq<string>, all: seq<string>, dropped: nat)
    requires s.keepRecent >= 1
    ensures var r := Compacted(h, s, messages);
            && ThinnedTo(h, messages, s.keepRecent, working)
            && EndsAtPass(h, s, messages, working, r)
            && (r.passesUsed >= 2 ==>
                  && working != []
                  && Divided(h, s, working, r, early, recent, kept)
                  && FactsFrom(h, working, early, r.facts)
                  && SummariesFrom(h, s, working, r, early, recent, kept, all, dropped))
  {
    working := Thinned(h, messages, s.keepRecent);
    ThinnedIs(h, messages, s.keepRecent);
    PassAnswer(h, s, messages);
    CompactedShape(h, s, messages);
    early, recent, kept, all, dropped := [], [], [], [], 0;
    if Compacted(h, s, messages).passesUsed >= 2 {
      early, recent, kept, all, dropped := CompressionAnswer(h, s, working, h.estimate(messages));
    }
  }

  lemma CompressionAnswer(h: Helpers, s: Settings, working: seq<Message>, before: nat)
    returns (early: seq<Message>, recent: seq<Message>, kept: seq<string>, all: seq<string>, dropped: nat)
    requires working != [] && s.keepRecent >= 1
    ensures var r := Compressed(h, s, working, before);
            && Divided(h, s, working, r, early, recent, kept)
            && FactsFrom(h, working, early, r.facts)
            && SummariesFrom(h, s, working, r, early, recent, kept, all, dropped)
  {
    early, recent, kept := OldMessages(s, working), RecentMessages(s, working), FinalSummaries(h, s, working);
    all, dropped := SummariesAnswer(h, s, working, before);
    FactsAnswer(h, s, working);
    DivisionAnswer(h, s, working, before);
    CompressedShape(h, s, working, before);
  }

  /** So the texts of the result are those extracted from all the old messages, and the retained ones. */
  lemma TextsAnswer(h: Helpers, s: Settings, messages: seq<Message>)
    returns (working: seq<Message>, early: seq<Message>, recent: seq<Message>, kept: seq<string>)
    requires ToolsUnmarked(h, s, messages) && Compacted(h, s, messages).passesUsed >= 2 && s.keepRecent >= 1
    ensures ThinnedTo(h, messages, s.keepRecent, working) && working != []
    ensures var r := Compacted(h, s, messages);
            && Divided(h, s, working, r, early, recent, kept)
            && Texts(r.facts) == Texts(h.extract(early)) + Texts(RetainedFacts(messages))
            && DistinctTexts(r.facts)
  {
    working := Thinned(h, messages, s.keepRecent);
    early, recent, kept := OldMessages(s, working), RecentMessages(s, working), FinalSummaries(h, s, working);
    ThinnedIs(h, messages, s.keepRecent);
    CompactedShape(h, s, messages);
    DivisionAnswer(h, s, working, h.estimate(messages));
    CompressedShape(h, s, working, h.estimate(messages));
    SurvivingTexts(h, s, working);
    ThinningKeepsFacts(h, s, messages);
  }
}
