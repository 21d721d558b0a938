/** Four-pass context compaction (robothor/engine/compaction.py). `Compacted` says what each pass
    yields; `Compact` is the code's own loop structure, proved to yield exactly that. */
module Compaction {
  import opened Sequences
  import T = Text
  import opened FactLines
  import opened Conversation

  const TOOL_SUMMARY_MIN_CHARS := 500
  const SEGMENT_SIZE := 20

  /** `keepRecent` is the constant KEEP_RECENT of robothor/engine/context.py; the two budgets are
      the arguments of `compact`. */
  datatype Settings = Settings(keepRecent: nat, threshold: int, drainTo: int)

  /** The token estimate, the tool-result summary and the two model calls, as arbitrary functions. */
  datatype Helpers = Helpers(
    estimate: seq<Message> -> nat,
    thin: string -> string,
    extract: seq<Message> -> seq<Fact>,
    summarize: seq<Message> -> string)

  datatype Result = Result(
    messages: seq<Message>,
    facts: seq<Fact>,
    passesUsed: nat,
    tokensBefore: nat,
    tokensAfter: nat)

  // ---- Retained messages ----

  predicate IsRetained(m: Message) {
    m.content.Text? && T.Contains(m.content.text, MARKER)
  }

  predicate NotRetained(m: Message) { !IsRetained(m) }

  function RetainedMessage(facts: seq<Fact>): Message {
    Message(User, Text(RetainedContent(facts)), [], "")
  }

  /** The facts one message parses to, given how contents are split and lines are parsed. */
  function MessageParser(split: string -> seq<string>, parse: string -> Option<Fact>): Message -> seq<Fact> {
    (m: Message) => if m.content.Text? then Collect(split(m.content.text), parse) else []
  }

  function FactsIn(messages: seq<Message>): seq<Fact> {
    FlatMap(messages, MessageParser(T.Lines, ParseLine))
  }

  /** What the parser recovers from a conversation: the retained messages after the system message. */
  function RetainedFacts(messages: seq<Message>): seq<Fact> {
    if messages == [] then [] else FactsIn(Filter(messages[1..], IsRetained))
  }

  // ---- Pass 1 ----

  function RawContent(c: Content): string {
    match c
    case Absent => ""
    case Text(text) => text
    case Other(rendered) => rendered
  }

  function ThinnedContent(h: Helpers, raw: string): string {
    "[tool result: " + h.thin(raw) + "]"
  }

  function ThinMessage(h: Helpers, m: Message): Message {
    var raw := RawContent(m.content);
    if |raw| > TOOL_SUMMARY_MIN_CHARS then m.(content := Text(ThinnedContent(h, raw))) else m
  }

  function ToolCount(messages: seq<Message>): nat {
    |Filter(messages, IsTool)|
  }

  /** A tool result with at least `keepRecent` tool results after it is thinned. */
  function ThinnedAt(h: Helpers, messages: seq<Message>, keepRecent: nat, k: nat): Message
    requires k < |messages|
  {
    if IsTool(messages[k]) && ToolCount(messages[k + 1..]) >= keepRecent
    then ThinMessage(h, messages[k])
    else messages[k]
  }

  function Thinned(h: Helpers, messages: seq<Message>, keepRecent: nat): (r: seq<Message>)
    ensures |r| == |messages|
    ensures forall k :: 0 <= k < |messages| ==> r[k] == ThinnedAt(h, messages, keepRecent, k)
  {
    seq(|messages|, k requires 0 <= k < |messages| => ThinnedAt(h, messages, keepRecent, k))
  }

  // ---- Passes 2 to 4 ----

  /** Where the non-retained messages are cut into old and recent ones. */
  function SplitPoint(messages: seq<Message>, keepRecent: nat): (r: nat)
    ensures r <= |messages|
  {
    if |messages| > keepRecent then SafeSplit(messages, |messages| - keepRecent) else 0
  }

  function Chunks(messages: seq<Message>, size: nat): (chunks: seq<seq<Message>>)
    requires size > 0
    ensures chunks == [] <==> messages == []
  {
    if messages == [] then []
    else if |messages| <= size then [messages]
    else [messages[..size]] + Chunks(messages[size..], size)
  }

  function Summaries(h: Helpers, segments: seq<seq<Message>>): (r: seq<string>)
    ensures |r| == |segments|
  {
    seq(|segments|, k requires 0 <= k < |segments| => h.summarize(segments[k]))
  }

  function SummaryMessage(summaries: seq<string>): Message {
    Message(User, Text("[Conversation summary]\n" + T.Join("\n---\n", summaries)), [], "")
  }

  const ACKNOWLEDGEMENT := Message(
    Assistant, Text("Understood. I have context from our previous conversation."), [], "")

  function FactBlock(facts: seq<Fact>): seq<Message> {
    if facts == [] then [] else [RetainedMessage(facts)]
  }

  function SummaryBlock(summaries: seq<string>): seq<Message> {
    if summaries == [] then [] else [SummaryMessage(summaries), ACKNOWLEDGEMENT]
  }

  function Assembled(system: Message, facts: seq<Fact>, summaries: seq<string>, recent: seq<Message>): seq<Message> {
    [system] + FactBlock(facts) + SummaryBlock(summaries) + recent
  }

  /** Drop the oldest summaries until the estimate is under budget or one is left. */
  function Pruned(h: Helpers, system: Message, facts: seq<Fact>, summaries: seq<string>, recent: seq<Message>,
                  drainTo: int): seq<string>
  {
    if h.estimate(Assembled(system, facts, summaries, recent)) >= drainTo && |summaries| > 1
    then Pruned(h, system, facts, summaries[1..], recent, drainTo)
    else summaries
  }

  /** Old messages, recent messages and surviving facts of a thinned conversation. */
  function OldMessages(s: Settings, working: seq<Message>): seq<Message>
    requires working != []
  {
    var candidates := Filter(working[1..], NotRetained);
    candidates[..SplitPoint(candidates, s.keepRecent)]
  }

  function RecentMessages(s: Settings, working: seq<Message>): seq<Message>
    requires working != []
  {
    var candidates := Filter(working[1..], NotRetained);
    candidates[SplitPoint(candidates, s.keepRecent)..]
  }

  function SurvivingFacts(h: Helpers, s: Settings, working: seq<Message>): seq<Fact>
    requires working != []
  {
    Dedup(h.extract(OldMessages(s, working)) + RetainedFacts(working))
  }

  function Compressed(h: Helpers, s: Settings, working: seq<Message>, tokensBefore: nat): Result
    requires working != []
  {
    var early, recent := OldMessages(s, working), RecentMessages(s, working);
    var facts := SurvivingFacts(h, s, working);
    var summaries := Summaries(h, Chunks(early, SEGMENT_SIZE));
    var full := Assembled(working[0], facts, summaries, recent);
    if early == [] then Result(full, facts, 2, tokensBefore, h.estimate(full))
    else if h.estimate(full) < s.drainTo then Result(full, facts, 3, tokensBefore, h.estimate(full))
    else
      var pruned := Assembled(working[0], facts, Pruned(h, working[0], facts, summaries, recent, s.drainTo), recent);
      Result(pruned, facts, 4, tokensBefore, h.estimate(pruned))
  }

  function Compacted(h: Helpers, s: Settings, messages: seq<Message>): Result {
    var before := h.estimate(messages);
    if before < s.threshold || |messages| <= s.keepRecent + 1 then Result(messages, [], 0, before, before)
    else
      var working := Thinned(h, messages, s.keepRecent);
      if h.estimate(working) < s.drainTo then Result(working, [], 1, before, h.estimate(working))
      else Compressed(h, s, working, before)
  }

  // ---- The code's loops ----

  lemma ToolCountSplit(messages: seq<Message>, k: nat)
    requires k < |messages|
    ensures ToolCount(messages) == ToolCount(messages[..k]) + (if IsTool(messages[k]) then 1 else 0) + ToolCount(messages[k + 1..])
    ensures ToolCount(messages[..k + 1]) == ToolCount(messages[..k]) + (if IsTool(messages[k]) then 1 else 0)
  {
    FilterCons(messages[k], messages[k + 1..], IsTool);
    FilterOne(messages[k], IsTool);
    FilterConcat(messages[..k], [messages[k]] + messages[k + 1..], IsTool);
    FilterConcat(messages[..k], [messages[k]], IsTool);
    assert messages == messages[..k] + ([messages[k]] + messages[k + 1..]);
    assert messages[..k + 1] == messages[..k] + [messages[k]];
  }

  method ToolIndices(messages: seq<Message>) returns (indices: seq<nat>)
    ensures |indices| == ToolCount(messages)
    ensures forall n :: 0 <= n < |indices| ==>
              indices[n] < |messages| && IsTool(messages[indices[n]]) && ToolCount(messages[..indices[n]]) == n
    ensures forall k :: 0 <= k < |messages| && IsTool(messages[k]) ==>
              ToolCount(messages[..k]) < |indices| && indices[ToolCount(messages[..k])] == k
  {
    indices := [];
    for i := 0 to |messages|
      invariant |indices| == ToolCount(messages[..i])
      invariant forall n :: 0 <= n < |indices| ==>
                  indices[n] < i && IsTool(messages[indices[n]]) && ToolCount(messages[..indices[n]]) == n
      invariant forall k :: 0 <= k < i && IsTool(messages[k]) ==>
                  ToolCount(messages[..k]) < |indices| && indices[ToolCount(messages[..k])] == k
    {
      ToolCountSplit(messages, i);
      if messages[i].role == Tool {
        indices := indices + [i];
      }
    }
    assert messages[..|messages|] == messages;
  }

  /** The messages once the first `n` tool results are thinned. */
  function ThinnedFirst(h: Helpers, messages: seq<Message>, n: nat): (r: seq<Message>)
    ensures |r| == |messages|
  {
    seq(|messages|, k requires 0 <= k < |messages| =>
      if IsTool(messages[k]) && ToolCount(messages[..k]) < n then ThinMessage(h, messages[k]) else messages[k])
  }

  /** `idx` is the only tool result with `n` tool results before it. */
  predicate IsNthTool(messages: seq<Message>, n: nat, idx: nat) {
    && idx < |messages| && IsTool(messages[idx]) && ToolCount(messages[..idx]) == n
    && forall k :: 0 <= k < |messages| && IsTool(messages[k]) && ToolCount(messages[..k]) == n ==> k == idx
  }

  lemma ThinnedNext(h: Helpers, messages: seq<Message>, n: nat, idx: nat)
    requires IsNthTool(messages, n, idx)
    ensures ThinnedFirst(h, messages, n)[idx] == messages[idx]
    ensures ThinnedFirst(h, messages, n + 1) == ThinnedFirst(h, messages, n)[idx := ThinMessage(h, messages[idx])]
  {
  }

  lemma ThinnedFirstIsThinned(h: Helpers, messages: seq<Message>, keepRecent: nat)
    ensures var count := ToolCount(messages);
            ThinnedFirst(h, messages, if count <= keepRecent then 0 else count - keepRecent) == Thinned(h, messages, keepRecent)
  {
    forall k | 0 <= k < |messages|
      ensures ToolCount(messages) == ToolCount(messages[..k]) + (if IsTool(messages[k]) then 1 else 0) + ToolCount(messages[k + 1..])
    {
      ToolCountSplit(messages, k);
    }
  }

  method ThinToolResults(h: Helpers, messages: seq<Message>, keepRecent: nat) returns (working: seq<Message>)
    ensures working == Thinned(h, messages, keepRecent)
  {
    working := messages;
    var indices := ToolIndices(messages);
    var cut := if |indices| <= keepRecent then 0 else |indices| - keepRecent;
    assert working == ThinnedFirst(h, messages, 0);
    for n := 0 to cut
      invariant working == ThinnedFirst(h, messages, n)
    {
      var idx := indices[n];
      ThinnedNext(h, messages, n, idx);
      var raw := RawContent(working[idx].content);
      if |raw| > TOOL_SUMMARY_MIN_CHARS {
        working := working[idx := working[idx].(content := Text(ThinnedContent(h, raw)))];
      } else {
        assert working == working[idx := messages[idx]];
      }
    }
    ThinnedFirstIsThinned(h, messages, keepRecent);
  }

  /** The inner parsing loop: what the parser reads in the lines of one message is appended. */
  method ParseInto(before: seq<Fact>, lines: seq<string>, parse: string -> Option<Fact>) returns (all: seq<Fact>)
    ensures all == before + Collect(lines, parse)
  {
    all := before;
    for j := 0 to |lines|
      invariant all == before + Collect(lines[..j], parse)
    {
      CollectSnoc(lines, parse, j);
      match parse(lines[j]) {
        case Some(fact) => all := all + [fact];
        case None =>
      }
    }
    assert lines[..|lines|] == lines;
  }

  method ParseMessage(before: seq<Fact>, m: Message, split: string -> seq<string>, parse: string -> Option<Fact>)
    returns (all: seq<Fact>)
    ensures all == before + MessageParser(split, parse)(m)
  {
    all := before;
    if m.content.Text? {
      all := ParseInto(all, split(m.content.text), parse);
    }
  }

  /** The outer one: facts of the retained messages, after the new ones. */
  method MergeRetainedFacts(newFacts: seq<Fact>, retained: seq<Message>,
                            split: string -> seq<string>, parse: string -> Option<Fact>)
    returns (all: seq<Fact>)
    ensures all == newFacts + FlatMap(retained, MessageParser(split, parse))
  {
    all := newFacts;
    for i := 0 to |retained|
      invariant all == newFacts + FlatMap(retained[..i], MessageParser(split, parse))
    {
      ConcatAssociates(newFacts, FlatMap(retained[..i], MessageParser(split, parse)), MessageParser(split, parse)(retained[i]));
      FlatMapSnoc(retained, MessageParser(split, parse), i);
      all := ParseMessage(all, retained[i], split, parse);
    }
    assert retained[..|retained|] == retained;
  }

  method DeduplicateFacts(facts: seq<Fact>) returns (deduped: seq<Fact>)
    ensures deduped == Dedup(facts)
  {
    var seen: set<string> := {};
    deduped := [];
    for i := 0 to |facts|
      invariant seen == Texts(facts[..i])
      invariant deduped == Dedup(facts[..i])
    {
      assert facts[..i + 1][..i] == facts[..i];
      assert facts[..i + 1] == facts[..i] + [facts[i]];
      TextsConcat(facts[..i], [facts[i]]);
      assert Texts([facts[i]]) == {facts[i].text};
      if facts[i].text !in seen {
        seen := seen + {facts[i].text};
        deduped := deduped + [facts[i]];
      }
    }
    assert facts[..|facts|] == facts;
  }

  function From(messages: seq<Message>, i: nat): seq<Message> {
    if i < |messages| then messages[i..] else []
  }

  method Segments(early: seq<Message>, size: nat) returns (segments: seq<seq<Message>>)
    requires size > 0
    ensures segments == Chunks(early, size)
  {
    segments := [];
    var i := 0;
    while i < |early|
      invariant 0 <= i
      invariant Chunks(early, size) == segments + Chunks(From(early, i), size)
    {
      var end := if i + size <= |early| then i + size else |early|;
      ChunkStep(early, i, size);
      ConcatAssociates(segments, [early[i..end]], Chunks(From(early, i + size), size));
      segments := segments + [early[i..end]];
      i := i + size;
    }
  }

  lemma ChunkStep(messages: seq<Message>, i: nat, size: nat)
    requires i < |messages| && size > 0
    ensures var end := if i + size <= |messages| then i + size else |messages|;
            Chunks(From(messages, i), size) == [messages[i..end]] + Chunks(From(messages, i + size), size)
  {
    var rest := messages[i..];
    if |rest| <= size {
      assert messages[i..|messages|] == rest;
    } else {
      assert rest[..size] == messages[i..i + size];
      assert rest[size..] == messages[i + size..];
    }
  }

  method SummarizeSegments(h: Helpers, segments: seq<seq<Message>>) returns (summaries: seq<string>)
    ensures summaries == Summaries(h, segments)
  {
    summaries := [];
    for i := 0 to |segments|
      invariant summaries == Summaries(h, segments)[..i]
    {
      summaries := summaries + [h.summarize(segments[i])];
    }
  }

  /** Pass 4: rebuild the list with one summary less until the estimate fits. */
  method Prune(h: Helpers, system: Message, facts: seq<Fact>, all: seq<string>, recent: seq<Message>, drainTo: int)
    returns (msgs: seq<Message>, est: nat)
    ensures msgs == Assembled(system, facts, Pruned(h, system, facts, all, recent, drainTo), recent)
    ensures est == h.estimate(msgs)
  {
    var summaries := all;
    msgs := Assembled(system, facts, summaries, recent);
    est := h.estimate(msgs);
    while est >= drainTo && |summaries| > 1
      invariant msgs == Assembled(system, facts, summaries, recent) && est == h.estimate(msgs)
      invariant Pruned(h, system, facts, summaries, recent, drainTo) == Pruned(h, system, facts, all, recent, drainTo)
      decreases |summaries|
    {
      summaries := summaries[1..];
      msgs := Assembled(system, facts, summaries, recent);
      est := h.estimate(msgs);
    }
  }

  method SplitHistory(s: Settings, working: seq<Message>) returns (early: seq<Message>, recent: seq<Message>)
    requires working != []
    ensures early == OldMessages(s, working) && recent == RecentMessages(s, working)
  {
    var candidates := Filter(working[1..], NotRetained);
    early, recent := [], candidates;
    if |candidates| > s.keepRecent {
      var split := FindSafeSplitIndex(candidates, |candidates| - s.keepRecent);
      early, recent := candidates[..split], candidates[split..];
    }
  }

  /** Passes 2 to 4 on the thinned list. */
  method CompressHistory(h: Helpers, s: Settings, working: seq<Message>, tokensBefore: nat) returns (result: Result)
    requires working != []
    ensures result == Compressed(h, s, working, tokensBefore)
  {
    var system := working[0];
    var retained := Filter(working[1..], IsRetained);
    var early, recent := SplitHistory(s, working);
    var all := MergeRetainedFacts(h.extract(early), retained, T.Lines, ParseLine);
    var facts := DeduplicateFacts(all);
    if early == [] {
      var injected := [system] + FactBlock(facts) + recent;
      assert injected == Assembled(system, facts, [], recent);
      return Result(injected, facts, 2, tokensBefore, h.estimate(injected));
    }
    var segments := Segments(early, SEGMENT_SIZE);
    var summaries := SummarizeSegments(h, segments);
    var msgs := Assembled(system, facts, summaries, recent);
    var est := h.estimate(msgs);
    if est < s.drainTo {
      return Result(msgs, facts, 3, tokensBefore, est);
    }
    msgs, est := Prune(h, system, facts, summaries, recent, s.drainTo);
    return Result(msgs, facts, 4, tokensBefore, est);
  }

  method Compact(h: Helpers, s: Settings, messages: seq<Message>) returns (result: Result)
    requires s.keepRecent >= 1
    ensures result == Compacted(h, s, messages)
  {
    var tokensBefore := h.estimate(messages);
    if tokensBefore < s.threshold {
      return Result(messages, [], 0, tokensBefore, tokensBefore);
    }
    if |messages| <= s.keepRecent + 1 {
      return Result(messages, [], 0, tokensBefore, tokensBefore);
    }
    var working := ThinToolResults(h, messages, s.keepRecent);
    var est := h.estimate(working);
    if est < s.drainTo {
      return Result(working, [], 1, tokensBefore, est);
    }
    result := CompressHistory(h, s, working, tokensBefore);
  }
}
