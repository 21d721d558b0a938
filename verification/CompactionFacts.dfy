/** Facts survive compaction: what the parser recovers after any run of appends and compactions
    (robothor/engine/compaction.py). */
module CompactionFacts {
  import opened Sequences
  import opened FactLines
  import opened Conversation
  import opened Compaction
  import opened CompactionStructure
  import T = Text

  // ---- Facts recovered from a compressed result ----

  lemma FactsInConcat(a: seq<Message>, b: seq<Message>)
    ensures FactsIn(a + b) == FactsIn(a) + FactsIn(b)
  {
    FlatMapConcat(a, b, MessageParser(T.Lines, ParseLine));
  }

  /** The facts of the messages in `messages` that carry the marker. */
  function MarkedFacts(messages: seq<Message>): seq<Fact> {
    FactsIn(Filter(messages, IsRetained))
  }

  lemma MarkedFactsConcat(a: seq<Message>, b: seq<Message>)
    ensures MarkedFacts(a + b) == MarkedFacts(a) + MarkedFacts(b)
  {
    FilterConcat(a, b, IsRetained);
    FactsInConcat(Filter(a, IsRetained), Filter(b, IsRetained));
  }

  lemma UnmarkedHoldNoFacts(messages: seq<Message>)
    requires forall k :: 0 <= k < |messages| ==> NotRetained(messages[k])
    ensures MarkedFacts(messages) == []
  {
    FilterNone(messages, IsRetained);
  }

  lemma ContentIsMarked(lines: seq<string>)
    ensures T.Contains(T.Unlines([MARKER] + lines), MARKER)
  {
  }

  lemma FactBlockFacts(facts: seq<Fact>)
    ensures MarkedFacts(FactBlock(facts)) == if facts == [] then [] else ParseContent(RetainedContent(facts))
  {
    if facts != [] {
      var m := RetainedMessage(facts);
      ContentIsMarked(FormatLines(SortByPriority(facts)));
      FilterAll([m], IsRetained);
      FlatMapOne(m, MessageParser(T.Lines, ParseLine));
    }
  }

  /** Facts a marked summary text would add; model output without the marker adds none. */
  function SummaryFacts(h: Helpers, s: Settings, working: seq<Message>): seq<Fact>
    requires working != []
  {
    MarkedFacts(SummaryBlock(FinalSummaries(h, s, working)))
  }

  lemma FactsOfParts(head: Message, a: seq<Message>, b: seq<Message>, recent: seq<Message>)
    requires MarkedFacts(recent) == []
    ensures RetainedFacts([head] + a + b + recent) == MarkedFacts(a) + MarkedFacts(b)
  {
    assert ([head] + a + b + recent)[1..] == (a + b) + recent;
    MarkedFactsConcat(a, b);
    MarkedFactsConcat(a + b, recent);
    assert MarkedFacts(a + b) + [] == MarkedFacts(a + b);
  }

  /** After passes 2 to 4 the parser recovers what it reads in the new fact message, then whatever
      a marked summary contains. */
  lemma CompressedFacts(h: Helpers, s: Settings, working: seq<Message>, before: nat)
    requires working != []
    ensures RetainedFacts(Compressed(h, s, working, before).messages)
         == MarkedFacts(FactBlock(SurvivingFacts(h, s, working))) + SummaryFacts(h, s, working)
  {
    CompressedShape(h, s, working, before);
    RecentIsUnmarked(s, working);
    UnmarkedHoldNoFacts(RecentMessages(s, working));
    FactsOfParts(working[0], FactBlock(SurvivingFacts(h, s, working)),
                 SummaryBlock(FinalSummaries(h, s, working)), RecentMessages(s, working));
  }

  lemma ThinningKeepsFacts(h: Helpers, s: Settings, messages: seq<Message>)
    requires ToolsUnmarked(h, s, messages)
    ensures RetainedFacts(Thinned(h, messages, s.keepRecent)) == RetainedFacts(messages)
  {
    if messages != [] {
      var working := Thinned(h, messages, s.keepRecent);
      forall k | 0 <= k < |working| - 1
        ensures working[1..][k] == messages[1..][k] || (!IsRetained(working[1..][k]) && !IsRetained(messages[1..][k]))
      {
        assert working[1..][k] == working[k + 1] && messages[1..][k] == messages[k + 1];
        assert working[k + 1] == ThinnedAt(h, messages, s.keepRecent, k + 1);
      }
      FilterIgnores(working[1..], messages[1..], IsRetained);
    }
  }

  // ---- Which facts come out ----

  predicate AllDurable(facts: seq<Fact>) {
    forall f :: f in facts ==> Durable(f)
  }

  lemma SurvivingTexts(h: Helpers, s: Settings, working: seq<Message>)
    requires working != []
    ensures Texts(SurvivingFacts(h, s, working)) == Texts(h.extract(OldMessages(s, working))) + Texts(RetainedFacts(working))
    ensures DistinctTexts(SurvivingFacts(h, s, working))
  {
    var extracted, kept := h.extract(OldMessages(s, working)), RetainedFacts(working);
    DedupKeepsTexts(extracted + kept);
    TextsConcat(extracted, kept);
  }

  /** Facts whose texts a message gives back. */
  predicate AllKept(facts: seq<Fact>) {
    forall f :: f in facts ==> TextKept(f)
  }

  /** The same, and none of them brings in a fact whose text is not given back. */
  predicate AllSettled(facts: seq<Fact>) {
    forall f :: f in facts ==> Settled(f)
  }

  lemma SurvivingAreSettled(h: Helpers, s: Settings, working: seq<Message>)
    requires working != []
    requires AllSettled(h.extract(OldMessages(s, working))) && AllSettled(RetainedFacts(working))
    ensures AllSettled(SurvivingFacts(h, s, working))
  {
    var all := h.extract(OldMessages(s, working)) + RetainedFacts(working);
    forall f | f in SurvivingFacts(h, s, working) ensures Settled(f) {
      var k := DedupKeepsFirst(all, f);
      assert f in all;
    }
  }

  /** The fact message of a compressed result reads back as the surviving facts, stably sorted,
      exactly when all of them are durable. */
  lemma FactBlockReadsBack(facts: seq<Fact>)
    ensures MarkedFacts(FactBlock(facts)) == SortByPriority(facts) <==> AllDurable(facts)
  {
    FactBlockFacts(facts);
    MessageRoundTrip(facts);
  }

  lemma FactBlockKeepsTexts(facts: seq<Fact>)
    requires AllSettled(facts)
    ensures Texts(facts) <= Texts(MarkedFacts(FactBlock(facts))) && AllSettled(MarkedFacts(FactBlock(facts)))
  {
    FactBlockFacts(facts);
    SettledContentParses(facts);
  }

  lemma FactBlockKeepsTextsIff(facts: seq<Fact>)
    requires DistinctTexts(facts) && QuietCategories(facts)
    ensures Texts(facts) <= Texts(MarkedFacts(FactBlock(facts))) <==> AllKept(facts)
  {
    FactBlockFacts(facts);
    TextsSurviveIff(facts);
  }

  /** When passes 2 to 4 run and the summaries stay unmarked: the recovered facts are exactly the
      surviving facts, stably sorted, if and only if all of those are durable; and the surviving
      texts are exactly the old retained texts and the newly extracted ones, each once. */
  lemma FactsAfterCompression(h: Helpers, s: Settings, messages: seq<Message>)
    requires ToolsUnmarked(h, s, messages) && Compacted(h, s, messages).passesUsed >= 2
    requires SummaryFacts(h, s, Thinned(h, messages, s.keepRecent)) == []
    ensures var r := Compacted(h, s, messages);
            var extracted := h.extract(OldMessages(s, Thinned(h, messages, s.keepRecent)));
            && (RetainedFacts(r.messages) == SortByPriority(r.facts) <==> AllDurable(r.facts))
            && Texts(r.facts) == Texts(extracted) + Texts(RetainedFacts(messages))
            && DistinctTexts(r.facts)
  {
    var working := Thinned(h, messages, s.keepRecent);
    CompactedShape(h, s, messages);
    CompressedShape(h, s, working, h.estimate(messages));
    CompressedFacts(h, s, working, h.estimate(messages));
    ThinningKeepsFacts(h, s, messages);
    SurvivingTexts(h, s, working);
    FactBlockReadsBack(SurvivingFacts(h, s, working));
  }

  /** The exact condition for a compaction that extracts facts to lose no text, old or new: each surviving
      fact is one whose printed line gives its text back. */
  lemma NoTextLostIff(h: Helpers, s: Settings, messages: seq<Message>)
    requires ToolsUnmarked(h, s, messages) && Compacted(h, s, messages).passesUsed >= 2
    requires SummaryFacts(h, s, Thinned(h, messages, s.keepRecent)) == []
    requires QuietCategories(Compacted(h, s, messages).facts)
    ensures var r := Compacted(h, s, messages);
            var extracted := h.extract(OldMessages(s, Thinned(h, messages, s.keepRecent)));
            Texts(extracted) + Texts(RetainedFacts(messages)) <= Texts(RetainedFacts(r.messages)) <==> AllKept(r.facts)
  {
    var working := Thinned(h, messages, s.keepRecent);
    FactsAfterCompression(h, s, messages);
    CompactedShape(h, s, messages);
    CompressedShape(h, s, working, h.estimate(messages));
    CompressedFacts(h, s, working, h.estimate(messages));
    FactBlockKeepsTextsIff(SurvivingFacts(h, s, working));
  }

  // ---- Runs of appends and compactions ----

  datatype Step = Append(message: Message) | Compaction(h: Helpers, s: Settings)

  function After(messages: seq<Message>, step: Step): seq<Message> {
    match step
    case Append(m) => messages + [m]
    case Compaction(h, s) => Compacted(h, s, messages).messages
  }

  function Run(messages: seq<Message>, steps: seq<Step>): seq<Message>
    decreases |steps|
  {
    if steps == [] then messages else Run(After(messages, steps[0]), steps[1..])
  }

  /** The conversation has its head message, its tool results are unmarked, and every fact the
      parser recovers from it is settled. */
  predicate Sound(messages: seq<Message>) {
    && messages != []
    && ToolsSatisfy(messages, NotRetained)
    && AllSettled(RetainedFacts(messages))
  }

  /** What a step must not do: append or thin to a marked tool result, or bring in a fact that is not settled,
      be it appended, extracted, or inside a marked summary. */
  ghost predicate CleanStep(messages: seq<Message>, step: Step) {
    match step
    case Append(m) => (IsTool(m) ==> NotRetained(m)) && AllSettled(MarkedFacts([m]))
    case Compaction(h, s) =>
      && s.keepRecent >= 1
      && ToolsUnmarked(h, s, messages)
      && (messages != [] ==>
            var working := Thinned(h, messages, s.keepRecent);
            AllSettled(h.extract(OldMessages(s, working))) && AllSettled(SummaryFacts(h, s, working)))
  }

  ghost predicate CleanRun(messages: seq<Message>, steps: seq<Step>)
    decreases |steps|
  {
    steps == [] || (CleanStep(messages, steps[0]) && CleanRun(After(messages, steps[0]), steps[1..]))
  }

  lemma AllSettledConcat(a: seq<Fact>, b: seq<Fact>)
    ensures AllSettled(a + b) <==> AllSettled(a) && AllSettled(b)
  {
  }

  lemma AppendStep(messages: seq<Message>, m: Message)
    requires Sound(messages) && CleanStep(messages, Append(m))
    ensures Sound(messages + [m])
    ensures Texts(RetainedFacts(messages)) <= Texts(RetainedFacts(messages + [m]))
  {
    assert (messages + [m])[1..] == messages[1..] + [m];
    MarkedFactsConcat(messages[1..], [m]);
    AllSettledConcat(RetainedFacts(messages), MarkedFacts([m]));
    TextsConcat(RetainedFacts(messages), MarkedFacts([m]));
  }

  lemma BlocksHoldNoTools(facts: seq<Fact>, summaries: seq<string>)
    ensures forall m :: m in FactBlock(facts) + SummaryBlock(summaries) ==> !IsTool(m)
  {
  }

  /** Every tool result satisfies `keep`. */
  predicate ToolsSatisfy(messages: seq<Message>, keep: Message -> bool) {
    forall k :: 0 <= k < |messages| && IsTool(messages[k]) ==> keep(messages[k])
  }

  lemma ToolsOfParts(head: Message, a: seq<Message>, b: seq<Message>, recent: seq<Message>, keep: Message -> bool)
    requires IsTool(head) ==> keep(head)
    requires forall m :: m in a + b ==> !IsTool(m)
    requires forall k :: 0 <= k < |recent| ==> keep(recent[k])
    ensures ToolsSatisfy([head] + a + b + recent, keep)
  {
  }

  lemma CompressedTools(h: Helpers, s: Settings, working: seq<Message>, before: nat)
    requires working != [] && (IsTool(working[0]) ==> NotRetained(working[0]))
    ensures ToolsSatisfy(Compressed(h, s, working, before).messages, NotRetained)
  {
    var facts, summaries := SurvivingFacts(h, s, working), FinalSummaries(h, s, working);
    CompressedShape(h, s, working, before);
    RecentIsUnmarked(s, working);
    BlocksHoldNoTools(facts, summaries);
    ToolsOfParts(working[0], FactBlock(facts), SummaryBlock(summaries), RecentMessages(s, working), NotRetained);
  }

  lemma CompressionStep(h: Helpers, s: Settings, working: seq<Message>, before: nat)
    requires Sound(working)
    requires AllSettled(h.extract(OldMessages(s, working))) && AllSettled(SummaryFacts(h, s, working))
    ensures Sound(Compressed(h, s, working, before).messages)
    ensures Texts(RetainedFacts(working)) + Texts(h.extract(OldMessages(s, working)))
         <= Texts(RetainedFacts(Compressed(h, s, working, before).messages))
  {
    var facts := SurvivingFacts(h, s, working);
    CompressedFacts(h, s, working, before);
    SurvivingAreSettled(h, s, working);
    FactBlockKeepsTexts(facts);
    SurvivingTexts(h, s, working);
    AllSettledConcat(MarkedFacts(FactBlock(facts)), SummaryFacts(h, s, working));
    TextsConcat(MarkedFacts(FactBlock(facts)), SummaryFacts(h, s, working));
    CompressedTools(h, s, working, before);
    CompressedShape(h, s, working, before);
  }

  /** One compaction loses no recovered text, and when it extracts facts their texts are recovered too. */
  lemma CompactionStep(h: Helpers, s: Settings, messages: seq<Message>)
    requires Sound(messages) && CleanStep(messages, Compaction(h, s))
    ensures var r := Compacted(h, s, messages);
            && Sound(r.messages)
            && Texts(RetainedFacts(messages)) <= Texts(RetainedFacts(r.messages))
            && (r.passesUsed >= 2 ==>
                  Texts(h.extract(OldMessages(s, Thinned(h, messages, s.keepRecent)))) <= Texts(RetainedFacts(r.messages)))
  {
    var working := Thinned(h, messages, s.keepRecent);
    ThinningKeepsFacts(h, s, messages);
    assert Sound(working);
    CompactedShape(h, s, messages);
    if Compacted(h, s, messages).passesUsed >= 2 {
      CompressionStep(h, s, working, h.estimate(messages));
    }
  }

  lemma StepKeepsTexts(messages: seq<Message>, step: Step)
    requires Sound(messages) && CleanStep(messages, step)
    ensures Sound(After(messages, step))
    ensures Texts(RetainedFacts(messages)) <= Texts(RetainedFacts(After(messages, step)))
  {
    match step {
      case Append(m) => AppendStep(messages, m);
      case Compaction(h, s) => CompactionStep(h, s, messages);
    }
  }

  lemma {:induction false} RunKeepsTexts(messages: seq<Message>, steps: seq<Step>)
    requires Sound(messages) && CleanRun(messages, steps)
    ensures Sound(Run(messages, steps))
    ensures Texts(RetainedFacts(messages)) <= Texts(RetainedFacts(Run(messages, steps)))
    decreases |steps|
  {
    if steps != [] {
      StepKeepsTexts(messages, steps[0]);
      RunKeepsTexts(After(messages, steps[0]), steps[1..]);
    }
  }

  lemma {:induction false} RunSplits(messages: seq<Message>, steps: seq<Step>, n: nat)
    requires n <= |steps| && CleanRun(messages, steps)
    ensures Run(messages, steps) == Run(Run(messages, steps[..n]), steps[n..])
    ensures CleanRun(messages, steps[..n]) && CleanRun(Run(messages, steps[..n]), steps[n..])
    decreases n
  {
    if n == 0 {
      assert steps[..0] == [] && steps[0..] == steps;
    } else {
      RunSplits(After(messages, steps[0]), steps[1..], n - 1);
      assert steps[..n][1..] == steps[1..][..n - 1] && steps[n..] == steps[1..][n - 1..];
    }
  }

  /** Over any clean run, every fact text that was recoverable at any point of it is recoverable at the end. */
  lemma FactsSurviveEveryRun(messages: seq<Message>, steps: seq<Step>, n: nat)
    requires Sound(messages) && CleanRun(messages, steps) && n <= |steps|
    ensures Texts(RetainedFacts(Run(messages, steps[..n]))) <= Texts(RetainedFacts(Run(messages, steps)))
  {
    RunSplits(messages, steps, n);
    RunKeepsTexts(messages, steps[..n]);
    RunKeepsTexts(Run(messages, steps[..n]), steps[n..]);
  }

  /** The documented promise fails without durability: a conversation whose extracted fact spans two
      lines loses that text in the very compaction that extracts it, for good. */
  lemma TwoLineFactIsLost(h: Helpers, s: Settings, messages: seq<Message>, text: string)
    requires ToolsUnmarked(h, s, messages) && Compacted(h, s, messages).passesUsed >= 2
    requires SummaryFacts(h, s, Thinned(h, messages, s.keepRecent)) == []
    requires text in Texts(h.extract(OldMessages(s, Thinned(h, messages, s.keepRecent)))) && !CarriableText(text)
    ensures text in Texts(Compacted(h, s, messages).facts)
    ensures text !in Texts(RetainedFacts(Compacted(h, s, messages).messages))
  {
    var working := Thinned(h, messages, s.keepRecent);
    FactsAfterCompression(h, s, messages);
    CompactedShape(h, s, messages);
    CompressedFacts(h, s, working, h.estimate(messages));
    FactBlockFacts(SurvivingFacts(h, s, working));
    TextSurvivesIffCarriable(text);
  }
}
