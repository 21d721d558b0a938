/** Conversation messages, and the split search that keeps tool calls with their results
    (robothor/engine/compaction.py). */
module Conversation {
  import opened Sequences

  datatype Role = System | User | Assistant | Tool

  /** The `content` entry of a message: missing, a string, or another value known by its `str`. */
  datatype Content = Absent | Text(text: string) | Other(rendered: string)

  /** `toolCalls` lists the ids of the calls an assistant message makes, `answers` is the
      `tool_call_id` of a tool result. */
  datatype Message = Message(role: Role, content: Content, toolCalls: seq<string>, answers: string)

  predicate IsTool(m: Message) { m.role == Tool }

  predicate IsCall(m: Message) { m.role == Assistant && m.toolCalls != [] }

  /** Neither a tool result nor a tool call: a boundary may sit in front of it. */
  predicate Plain(m: Message) { !IsTool(m) && !IsCall(m) }

  // ---- The split search ----

  /** The first plain message found walking back from `idx`, or 0. */
  function WalkBack(messages: seq<Message>, idx: nat): (r: nat)
    requires idx < |messages|
    ensures r <= idx
  {
    if idx > 0 && !Plain(messages[idx]) then WalkBack(messages, idx - 1) else idx
  }

  function SafeSplit(messages: seq<Message>, target: int): int {
    if target <= 0 || target >= |messages| then target else WalkBack(messages, target)
  }

  method FindSafeSplitIndex(messages: seq<Message>, target: int) returns (idx: int)
    ensures idx == SafeSplit(messages, target)
  {
    if target <= 0 || target >= |messages| {
      return target;
    }
    idx := target;
    while idx > 0
      invariant 0 <= idx <= target
      invariant WalkBack(messages, idx) == WalkBack(messages, target)
    {
      var msg := messages[idx];
      if msg.role == Tool {
        idx := idx - 1;
        continue;
      }
      if msg.role == Assistant && msg.toolCalls != [] {
        idx := idx - 1;
        continue;
      }
      break;
    }
  }

  /** The search stops at the last safe boundary at or before the target. */
  lemma {:induction false} SafeSplitIsLastBoundary(messages: seq<Message>, target: int)
    requires 0 < target < |messages|
    ensures var r := SafeSplit(messages, target);
            && 0 <= r <= target
            && (r == 0 || Plain(messages[r]))
            && (forall k :: r < k <= target ==> !Plain(messages[k]))
  {
    WalkBackBoundary(messages, target);
  }

  lemma {:induction false} WalkBackBoundary(messages: seq<Message>, idx: nat)
    requires idx < |messages|
    ensures var r := WalkBack(messages, idx);
            && (r == 0 || Plain(messages[r]))
            && (forall k :: r < k <= idx ==> !Plain(messages[k]))
  {
    if idx > 0 && !Plain(messages[idx]) {
      WalkBackBoundary(messages, idx - 1);
    }
  }

  // ---- Tool results and their calls ----

  predicate Calls(call: Message, result: Message) {
    call.role == Assistant && result.answers in call.toolCalls
  }

  /** Message `j` makes the call that message `i` answers, with only tool results in between. */
  predicate AnsweredBy(messages: seq<Message>, i: nat, j: nat) {
    j < i < |messages| && Calls(messages[j], messages[i]) && forall k :: j < k < i ==> IsTool(messages[k])
  }

  ghost predicate Answered(messages: seq<Message>, i: nat) {
    exists j: nat :: AnsweredBy(messages, i, j)
  }

  /** The block right after message `j` holds a result for call `id`. */
  ghost predicate HasAnswer(messages: seq<Message>, j: nat, id: string) {
    exists i: nat :: AnsweredBy(messages, i, j) && IsTool(messages[i]) && messages[i].answers == id
  }

  /** Every tool result sits in a contiguous block right after the call it answers. */
  ghost predicate NoOrphans(messages: seq<Message>) {
    forall i: nat :: i < |messages| && IsTool(messages[i]) ==> Answered(messages, i)
  }

  /** Every call is followed at once by a block of results that answers it. */
  ghost predicate AllAnswered(messages: seq<Message>) {
    forall j: nat, id :: j < |messages| && messages[j].role == Assistant && id in messages[j].toolCalls
      ==> HasAnswer(messages, j, id)
  }

  lemma NoOrphansPrefix(messages: seq<Message>, n: nat)
    requires n <= |messages| && NoOrphans(messages)
    ensures NoOrphans(messages[..n])
  {
    forall i: nat | i < n && IsTool(messages[..n][i]) ensures Answered(messages[..n], i) {
      var j: nat :| AnsweredBy(messages, i, j);
      assert AnsweredBy(messages[..n], i, j);
    }
  }

  lemma NoOrphansSnoc(messages: seq<Message>, m: Message)
    requires NoOrphans(messages)
    requires IsTool(m) ==> Answered(messages + [m], |messages|)
    ensures NoOrphans(messages + [m])
  {
    var all := messages + [m];
    forall i: nat | i < |all| && IsTool(all[i]) ensures Answered(all, i) {
      if i < |messages| {
        var j: nat :| AnsweredBy(messages, i, j);
        assert AnsweredBy(all, i, j);
      }
    }
  }

  /** Messages without tool results in front change nothing for the results behind them. */
  lemma NoOrphansBehind(front: seq<Message>, back: seq<Message>)
    requires NoOrphans(back) && forall k :: 0 <= k < |front| ==> !IsTool(front[k])
    ensures NoOrphans(front + back)
  {
    var all := front + back;
    forall i: nat | i < |all| && IsTool(all[i]) ensures Answered(all, i) {
      var j: nat :| AnsweredBy(back, i - |front|, j);
      assert AnsweredBy(all, i, j + |front|);
    }
  }

  /** In front of it, messages without calls answer nothing either. */
  lemma OrphansBehind(front: seq<Message>, back: seq<Message>)
    requires NoOrphans(front + back) && forall k :: 0 <= k < |front| ==> !IsCall(front[k])
    ensures NoOrphans(back)
  {
    var all := front + back;
    assert forall k :: 0 <= k < |front| ==> !IsCall(all[k]);
    forall i: nat | i < |back| && IsTool(back[i]) ensures Answered(back, i) {
      assert Answered(all, i + |front|);
      var j: nat :| AnsweredBy(all, i + |front|, j);
      assert Calls(all[j], all[i + |front|]) && IsCall(all[j]);
      assert forall k :: 0 <= k < |back| ==> back[k] == all[k + |front|];
      assert AnsweredBy(back, i, j - |front|);
    }
  }

  /** A cut in front of a message that is no tool result, or at the very start, orphans nothing. */
  lemma NoOrphansSuffix(messages: seq<Message>, split: nat)
    requires split <= |messages| && NoOrphans(messages)
    requires split == 0 || split == |messages| || !IsTool(messages[split])
    ensures NoOrphans(messages[split..])
  {
    var back := messages[split..];
    forall i: nat | i < |back| && IsTool(back[i]) ensures Answered(back, i) {
      var j: nat :| AnsweredBy(messages, i + split, j);
      assert j >= split;
      assert AnsweredBy(back, i, j - split);
    }
  }

  lemma AllAnsweredSuffix(messages: seq<Message>, split: nat)
    requires split <= |messages| && AllAnswered(messages)
    ensures AllAnswered(messages[split..])
  {
  }

  lemma AllAnsweredBehind(front: seq<Message>, back: seq<Message>)
    requires AllAnswered(back) && forall k :: 0 <= k < |front| ==> !IsCall(front[k])
    ensures AllAnswered(front + back)
  {
    var all := front + back;
    forall j: nat, id | j < |all| && all[j].role == Assistant && id in all[j].toolCalls
      ensures HasAnswer(all, j, id)
    {
      assert IsCall(all[j]);
      assert all[j] == back[j - |front|];
      var i: nat :| AnsweredBy(back, i, j - |front|) && IsTool(back[i]) && back[i].answers == id;
      assert AnsweredBy(all, i + |front|, j);
    }
  }

  /** Pairing looks at roles and ids only, never at contents. */
  predicate SameShape(a: seq<Message>, b: seq<Message>) {
    |a| == |b| && forall k :: 0 <= k < |a| ==> a[k].role == b[k].role && a[k].toolCalls == b[k].toolCalls && a[k].answers == b[k].answers
  }

  lemma AnsweredBySameShape(a: seq<Message>, b: seq<Message>, i: nat, j: nat)
    requires SameShape(a, b) && AnsweredBy(a, i, j)
    ensures AnsweredBy(b, i, j)
  {
  }

  lemma SameShapePairs(a: seq<Message>, b: seq<Message>)
    requires SameShape(a, b)
    ensures NoOrphans(a) ==> NoOrphans(b)
    ensures AllAnswered(a) ==> AllAnswered(b)
  {
    if NoOrphans(a) {
      forall i: nat | i < |b| && IsTool(b[i]) ensures Answered(b, i) {
        assert Answered(a, i);
        var j: nat :| AnsweredBy(a, i, j);
        AnsweredBySameShape(a, b, i, j);
      }
    }
    if AllAnswered(a) {
      forall j: nat, id | j < |b| && b[j].role == Assistant && id in b[j].toolCalls ensures HasAnswer(b, j, id) {
        assert HasAnswer(a, j, id);
        var i: nat :| AnsweredBy(a, i, j) && IsTool(a[i]) && a[i].answers == id;
        AnsweredBySameShape(a, b, i, j);
      }
    }
  }

  // ---- Removing messages ----

  /** No kept tool result loses its call: the condition under which a removal orphans nothing. */
  ghost predicate KeepsCallers(messages: seq<Message>, keep: Message -> bool) {
    forall i: nat, j: nat :: AnsweredBy(messages, i, j) && IsTool(messages[i]) && keep(messages[i]) ==> keep(messages[j])
  }

  lemma {:induction false} RemovalOrphansNothing(messages: seq<Message>, keep: Message -> bool)
    requires NoOrphans(messages) && KeepsCallers(messages, keep)
    ensures NoOrphans(Filter(messages, keep))
  {
    if messages != [] {
      var n := |messages| - 1;
      var init, last := messages[..n], messages[n];
      assert messages == init + [last];
      NoOrphansPrefix(messages, n);
      forall i: nat, j: nat | AnsweredBy(init, i, j) && IsTool(init[i]) && keep(init[i]) ensures keep(init[j]) {
        assert AnsweredBy(messages, i, j);
      }
      RemovalOrphansNothing(init, keep);
      FilterConcat(init, [last], keep);
      FilterOne(last, keep);
      if keep(last) {
        if IsTool(last) {
          var j: nat :| AnsweredBy(messages, n, j);
          KeptCallStillAnswers(messages, keep, j);
        }
        NoOrphansSnoc(Filter(init, keep), last);
        assert Filter(messages, keep) == Filter(init, keep) + [last];
      } else {
        assert Filter(messages, keep) == Filter(init, keep);
      }
    }
  }

  lemma FilterOne<T>(x: T, keep: T -> bool)
    ensures Filter([x], keep) == if keep(x) then [x] else []
  {
  }

  lemma KeptCallStillAnswers(messages: seq<Message>, keep: Message -> bool, j: nat)
    requires messages != [] && AnsweredBy(messages, |messages| - 1, j)
    requires keep(messages[j]) && keep(messages[|messages| - 1])
    ensures var kept := Filter(messages[..|messages| - 1], keep);
            Answered(kept + [messages[|messages| - 1]], |kept|)
  {
    var n := |messages| - 1;
    var between := messages[j + 1..n];
    var kept := Filter(messages[..n], keep);
    assert messages[..n] == messages[..j] + ([messages[j]] + between);
    FilterConcat(messages[..j], [messages[j]] + between, keep);
    FilterCons(messages[j], between, keep);
    var at := |Filter(messages[..j], keep)|;
    assert kept == Filter(messages[..j], keep) + ([messages[j]] + Filter(between, keep));
    assert kept[at] == messages[j];
    FilterMembers(between, keep);
    forall k | at < k < |kept| ensures IsTool(kept[k]) {
      assert kept[k] == Filter(between, keep)[k - at - 1];
    }
    assert AnsweredBy(kept + [messages[n]], |kept|, at);
  }

  /** Each call id is used by one message only. */
  ghost predicate DistinctCalls(messages: seq<Message>) {
    forall i: nat, j: nat, k: nat
      | i < |messages| && j < |messages| && k < |messages|
      :: Calls(messages[j], messages[i]) && Calls(messages[k], messages[i]) ==> j == k
  }

  lemma RemovalOrphans(messages: seq<Message>, keep: Message -> bool)
    requires DistinctCalls(messages) && !KeepsCallers(messages, keep)
    ensures !NoOrphans(Filter(messages, keep))
  {
    var i: nat, j: nat :| AnsweredBy(messages, i, j) && IsTool(messages[i]) && keep(messages[i]) && !keep(messages[j]);
    var kept := Filter(messages, keep);
    FilterKeeps(messages, keep, messages[i]);
    FilterMembers(messages, keep);
    var at: nat :| at < |kept| && kept[at] == messages[i];
    forall k | 0 <= k < at ensures !Calls(kept[k], kept[at]) {
      assert kept[k] in messages && keep(kept[k]);
      var c: nat :| c < |messages| && messages[c] == kept[k];
      assert c != j && Calls(messages[j], messages[i]);
    }
    assert forall k: nat :: !AnsweredBy(kept, at, k);
  }

  /** A removal orphans no tool result exactly when no kept result loses its call. */
  lemma RemovalOrphansNothingIff(messages: seq<Message>, keep: Message -> bool)
    requires NoOrphans(messages) && DistinctCalls(messages)
    ensures NoOrphans(Filter(messages, keep)) <==> KeepsCallers(messages, keep)
  {
    if KeepsCallers(messages, keep) {
      RemovalOrphansNothing(messages, keep);
    } else {
      RemovalOrphans(messages, keep);
    }
  }

  lemma HeadAnswered(head: Message, block: seq<Message>, behind: seq<Message>, id: string)
    requires block != [] && forall k :: 0 <= k < |block| ==> IsTool(block[k])
    requires block[|block| - 1].answers == id && Calls(head, block[|block| - 1])
    ensures HasAnswer([head] + (block + behind), 0, id)
  {
    var all := [head] + (block + behind);
    assert forall k :: 1 <= k <= |block| ==> all[k] == block[k - 1];
    assert AnsweredBy(all, |block|, 0);
  }

  lemma BlockBehindHead(head: Message, rest: seq<Message>, i: nat)
    requires AnsweredBy([head] + rest, i, 0) && IsTool(([head] + rest)[i])
    ensures 1 <= i <= |rest| && Calls(head, rest[i - 1]) && rest[i - 1] == ([head] + rest)[i]
    ensures forall k :: 0 <= k < i ==> IsTool(rest[k])
  {
    forall k | 0 <= k < i ensures IsTool(rest[k]) {
      assert rest[k] == ([head] + rest)[k + 1];
    }
  }

  lemma FilterKeepsBlock(block: seq<Message>, behind: seq<Message>, keep: Message -> bool)
    requires forall k :: 0 <= k < |block| ==> keep(block[k])
    ensures Filter(block + behind, keep) == block + Filter(behind, keep)
  {
    FilterAll(block, keep);
    FilterConcat(block, behind, keep);
  }

  lemma HeadStillAnswered(head: Message, rest: seq<Message>, keep: Message -> bool, id: string)
    requires HasAnswer([head] + rest, 0, id)
    requires forall k :: 0 <= k < |rest| && IsTool(rest[k]) ==> keep(rest[k])
    ensures HasAnswer([head] + Filter(rest, keep), 0, id)
  {
    var i: nat :| AnsweredBy([head] + rest, i, 0) && IsTool(([head] + rest)[i]) && ([head] + rest)[i].answers == id;
    BlockBehindHead(head, rest, i);
    assert rest == rest[..i] + rest[i..];
    BlockStillAnswers(head, rest[..i], rest[i..], keep, id);
  }

  lemma BlockStillAnswers(head: Message, block: seq<Message>, behind: seq<Message>, keep: Message -> bool, id: string)
    requires block != [] && forall k :: 0 <= k < |block| ==> IsTool(block[k]) && keep(block[k])
    requires block[|block| - 1].answers == id && Calls(head, block[|block| - 1])
    ensures HasAnswer([head] + Filter(block + behind, keep), 0, id)
  {
    FilterKeepsBlock(block, behind, keep);
    HeadAnswered(head, block, Filter(behind, keep), id);
  }

  lemma AnsweredBehindHead(head: Message, rest: seq<Message>, j: nat, id: string)
    requires HasAnswer(rest, j, id)
    ensures HasAnswer([head] + rest, j + 1, id)
  {
    var i: nat :| AnsweredBy(rest, i, j) && IsTool(rest[i]) && rest[i].answers == id;
    assert AnsweredBy([head] + rest, i + 1, j + 1);
  }

  /** Removing messages that are no tool results leaves every kept call answered. */
  lemma {:induction false} RemovalKeepsAnswers(messages: seq<Message>, keep: Message -> bool)
    requires AllAnswered(messages)
    requires forall k :: 0 <= k < |messages| && IsTool(messages[k]) ==> keep(messages[k])
    ensures AllAnswered(Filter(messages, keep))
  {
    if messages != [] {
      var head, rest := messages[0], messages[1..];
      assert messages == [head] + rest;
      AllAnsweredSuffix(messages, 1);
      RemovalKeepsAnswers(rest, keep);
      FilterCons(head, rest, keep);
      var behind := Filter(rest, keep);
      if keep(head) {
        forall j: nat, id | j < |behind| + 1 && ([head] + behind)[j].role == Assistant && id in ([head] + behind)[j].toolCalls
          ensures HasAnswer([head] + behind, j, id)
        {
          if j == 0 {
            HeadStillAnswered(head, rest, keep, id);
          } else {
            AnsweredBehindHead(head, behind, j - 1, id);
          }
        }
      } else {
        assert Filter(messages, keep) == behind;
      }
    }
  }
}
