/** Splitting a meeting transcript at speaker boundaries (brain/memory_system/continuous_ingest.py). */
module Segmenter {
  import opened Sequences
  import opened Text

  /** The character class `[a-zA-Z\s'-]` of a speaker's name. */
  predicate NameChar(c: char) {
    IsLetter(c) || IsSpace(c) || c == '\'' || c == '-'
  }

  /** The first position at or after `i` outside the name class. */
  function NameEnd(line: string, i: nat): (r: nat)
    requires i <= |line|
    ensures i <= r <= |line|
    decreases |line| - i
  {
    if i < |line| && NameChar(line[i]) then NameEnd(line, i + 1) else i
  }

  /** `re.match(r"^[A-Z][a-zA-Z\s'-]+:\s", line)`: the class excludes the colon, so the name must
      reach right up to it. */
  predicate IsSpeakerLine(line: string) {
    && line != "" && 'A' <= line[0] <= 'Z'
    && var colon := NameEnd(line, 1);
       colon >= 2 && colon + 1 < |line| && line[colon] == ':' && IsSpace(line[colon + 1])
  }

  // ---- What a segmentation is ----

  /** Characters of some lines, each with its newline. */
  function Size(lines: seq<string>): nat {
    if lines == [] then 0 else Size(lines[..|lines| - 1]) + |lines[|lines| - 1]| + 1
  }

  function Flatten(groups: seq<seq<string>>): seq<string> {
    if groups == [] then [] else Flatten(groups[..|groups| - 1]) + groups[|groups| - 1]
  }

  /** Speaker lines inside a group end within the limit. */
  predicate GroupFits(group: seq<string>, maxChars: int) {
    forall j :: 0 < j < |group| ==> LineFits(group, j, maxChars)
  }

  predicate LineFits(group: seq<string>, j: nat, maxChars: int)
    requires j < |group|
  {
    IsSpeakerLine(group[j]) ==> Size(group[..j + 1]) <= maxChars
  }

  /** The break in front of `next` is at a speaker line, and that line did not fit any more. */
  predicate BreakForced(previous: seq<string>, next: seq<string>, maxChars: int) {
    next != [] && IsSpeakerLine(next[0]) && Size(previous) + |next[0]| + 1 > maxChars
  }

  predicate Segmentation(groups: seq<seq<string>>, lines: seq<string>, maxChars: int) {
    && Flatten(groups) == lines
    && (forall g :: 0 <= g < |groups| ==> groups[g] != [] && GroupFits(groups[g], maxChars))
    && (forall g :: 0 < g < |groups| ==> BreakForced(groups[g - 1], groups[g], maxChars))
  }

  /** The lines of each segment. */
  function Groups(segments: seq<string>): (r: seq<seq<string>>)
    ensures |r| == |segments|
  {
    seq(|segments|, k requires 0 <= k < |segments| => Lines(segments[k]))
  }

  // ---- The loop ----

  /** What is still to come, given the lines collected so far. */
  function Remaining(lines: seq<string>, current: seq<string>, maxChars: int): seq<seq<string>>
    decreases |lines|
  {
    if lines == [] then (if current == [] then [] else [current])
    else if Size(current) + |lines[0]| + 1 > maxChars && IsSpeakerLine(lines[0]) && current != []
    then [current] + Remaining(lines[1..], [lines[0]], maxChars)
    else Remaining(lines[1..], current + [lines[0]], maxChars)
  }

  method SegmentTranscript(transcript: string, maxChars: int) returns (segments: seq<string>)
    ensures Blank(transcript) ==> segments == []
    ensures !Blank(transcript) ==> Segmentation(Groups(segments), Lines(transcript), maxChars)
  {
    if transcript == "" || Strip(transcript) == "" {
      return [];
    }
    segments := SegmentLines(Lines(transcript), maxChars);
    RemainingIsSegmentation(Lines(transcript), [], maxChars);
    assert [] + Lines(transcript) == Lines(transcript);
  }

  /** The segments are the groups `done`, the lines of the open segment contain no newline, and its
      length is tracked. */
  ghost predicate LoopState(segments: seq<string>, done: seq<seq<string>>, current: seq<string>, currentLen: int) {
    && |done| == |segments| && (forall g :: 0 <= g < |done| ==> segments[g] == Unlines(done[g]))
    && OnlyLines(done) && (forall k :: 0 <= k < |current| ==> '\n' !in current[k])
    && currentLen == Size(current)
  }

  lemma CloseSegment(segments: seq<string>, done: seq<seq<string>>, current: seq<string>, currentLen: int)
    requires LoopState(segments, done, current, currentLen) && current != []
    ensures LoopState(segments + [Unlines(current)], done + [current], [], 0)
  {
  }

  lemma AddLine(segments: seq<string>, done: seq<seq<string>>, current: seq<string>, currentLen: int, line: string)
    requires LoopState(segments, done, current, currentLen) && '\n' !in line
    ensures LoopState(segments, done, current + [line], currentLen + |line| + 1)
  {
    SizeSnoc(current, line);
  }

  /** One turn of the loop, in terms of what is still to come. */
  lemma RemainingTurn(lines: seq<string>, i: nat, current: seq<string>, maxChars: int)
    requires i < |lines|
    ensures Remaining(lines[i..], current, maxChars) ==
      if Size(current) + |lines[i]| + 1 > maxChars && IsSpeakerLine(lines[i]) && current != []
      then [current] + Remaining(lines[i + 1..], [lines[i]], maxChars)
      else Remaining(lines[i + 1..], current + [lines[i]], maxChars)
  {
    assert lines[i..][0] == lines[i] && lines[i..][1..] == lines[i + 1..];
  }

  method SegmentLines(lines: seq<string>, maxChars: int) returns (segments: seq<string>)
    requires forall k :: 0 <= k < |lines| ==> '\n' !in lines[k]
    ensures Groups(segments) == Remaining(lines, [], maxChars)
  {
    segments := [];
    var current, currentLen := [], 0;
    ghost var done: seq<seq<string>> := [];
    for i := 0 to |lines|
      invariant LoopState(segments, done, current, currentLen)
      invariant done + Remaining(lines[i..], current, maxChars) == Remaining(lines, [], maxChars)
    {
      var line := lines[i];
      var lineLen := |line| + 1;
      RemainingTurn(lines, i, current, maxChars);
      if currentLen + lineLen > maxChars && IsSpeakerLine(line) && current != [] {
        CloseSegment(segments, done, current, currentLen);
        AddLine(segments + [Unlines(current)], done + [current], [], 0, line);
        ConcatAssociates(done, [current], Remaining(lines[i + 1..], [line], maxChars));
        segments, done := segments + [Unlines(current)], done + [current];
        assert [] + [line] == [line];
        current := [line];
        currentLen := lineLen;
      } else {
        AddLine(segments, done, current, currentLen, line);
        current := current + [line];
        currentLen := currentLen + lineLen;
      }
    }
    if current != [] {
      CloseSegment(segments, done, current, currentLen);
      segments, done := segments + [Unlines(current)], done + [current];
    }
    GroupsAre(segments, done);
  }

  lemma {:induction false} RemainingStartsWith(lines: seq<string>, current: seq<string>, maxChars: int)
    requires current != []
    ensures var r := Remaining(lines, current, maxChars);
            r != [] && r[0] != [] && r[0][0] == current[0]
    decreases |lines|
  {
    if lines != [] && !(Size(current) + |lines[0]| + 1 > maxChars && IsSpeakerLine(lines[0])) {
      RemainingStartsWith(lines[1..], current + [lines[0]], maxChars);
    }
  }

  lemma {:induction false} RemainingIsSegmentation(lines: seq<string>, current: seq<string>, maxChars: int)
    requires GroupFits(current, maxChars)
    ensures Segmentation(Remaining(lines, current, maxChars), current + lines, maxChars)
    decreases |lines|
  {
    if lines == [] {
      assert current + lines == current;
      assert current != [] ==> Flatten([current][..0]) + current == current;
    } else {
      var line, rest := lines[0], lines[1..];
      if Size(current) + |line| + 1 > maxChars && IsSpeakerLine(line) && current != [] {
        RemainingIsSegmentation(rest, [line], maxChars);
        RemainingStartsWith(rest, [line], maxChars);
        assert current + lines == current + ([line] + rest);
        SegmentationCons(current, Remaining(rest, [line], maxChars), [line] + rest, maxChars);
      } else {
        GroupFitsSnoc(current, line, maxChars);
        RemainingIsSegmentation(rest, current + [line], maxChars);
        assert current + lines == (current + [line]) + rest;
      }
    }
  }

  lemma SegmentationCons(head: seq<string>, groups: seq<seq<string>>, lines: seq<string>, maxChars: int)
    requires Segmentation(groups, lines, maxChars) && groups != []
    requires head != [] && GroupFits(head, maxChars) && BreakForced(head, groups[0], maxChars)
    ensures Segmentation([head] + groups, head + lines, maxChars)
  {
    FlattenHead(head, groups);
  }

  predicate OnlyLines(groups: seq<seq<string>>) {
    forall g :: 0 <= g < |groups| ==> groups[g] != [] && forall k :: 0 <= k < |groups[g]| ==> '\n' !in groups[g][k]
  }

  lemma SizeSnoc(lines: seq<string>, line: string)
    ensures Size(lines + [line]) == Size(lines) + |line| + 1
  {
    assert (lines + [line])[..|lines|] == lines;
  }

  lemma GroupFitsSnoc(group: seq<string>, line: string, maxChars: int)
    requires GroupFits(group, maxChars)
    requires group == [] || !IsSpeakerLine(line) || Size(group) + |line| + 1 <= maxChars
    ensures GroupFits(group + [line], maxChars)
  {
    var more := group + [line];
    SizeSnoc(group, line);
    forall j | 0 < j < |more| ensures LineFits(more, j, maxChars) {
      if j < |group| {
        assert LineFits(group, j, maxChars) && more[j] == group[j] && more[..j + 1] == group[..j + 1];
      } else {
        assert more[j] == line && more[..j + 1] == more;
      }
    }
  }

  lemma GroupsAre(segments: seq<string>, groups: seq<seq<string>>)
    requires |groups| == |segments| && OnlyLines(groups)
    requires forall g :: 0 <= g < |groups| ==> segments[g] == Unlines(groups[g])
    ensures Groups(segments) == groups
  {
    forall g | 0 <= g < |groups| ensures Groups(segments)[g] == groups[g] {
      UnlinesThenLines(groups[g]);
    }
  }

  // ---- What follows from being a segmentation ----

  lemma AllLinesSnoc(segments: seq<string>, last: string)
    ensures AllLines(segments + [last]) == AllLines(segments) + Lines(last)
  {
    FlatMapConcat(segments, [last], Lines);
    FlatMapOne(last, Lines);
  }

  lemma {:induction false} FlattenIsAllLines(segments: seq<string>)
    ensures Flatten(Groups(segments)) == AllLines(segments)
  {
    if segments != [] {
      var n := |segments| - 1;
      FlattenIsAllLines(segments[..n]);
      assert Groups(segments)[..n] == Groups(segments[..n]);
      AllLinesSnoc(segments[..n], segments[n]);
      assert segments == segments[..n] + [segments[n]];
    }
  }

  /** Nothing is lost: joining the segments with newlines gives the transcript back. */
  lemma SegmentsJoinBack(segments: seq<string>, transcript: string, maxChars: int)
    requires Segmentation(Groups(segments), Lines(transcript), maxChars)
    ensures segments != [] && Unlines(segments) == transcript
  {
    FlattenIsAllLines(segments);
    LinesOfUnlines(segments);
    LinesThenUnlines(Unlines(segments));
    LinesThenUnlines(transcript);
  }

  lemma FlattenSnoc(groups: seq<seq<string>>, last: seq<string>)
    ensures Flatten(groups + [last]) == Flatten(groups) + last
  {
    assert (groups + [last])[..|groups|] == groups;
  }

  lemma {:induction false} FlattenHead(head: seq<string>, rest: seq<seq<string>>)
    ensures Flatten([head] + rest) == head + Flatten(rest)
  {
    if rest == [] {
      assert [head] + rest == [head] && [head][..0] == [];
      assert Flatten([head]) == [] + head;
    } else {
      var init, last := rest[..|rest| - 1], rest[|rest| - 1];
      assert rest == init + [last] && [head] + rest == ([head] + init) + [last];
      FlattenHead(head, init);
      FlattenSnoc([head] + init, last);
      FlattenSnoc(init, last);
      ConcatAssociates(head, Flatten(init), last);
    }
  }

  lemma SegmentationTail(groups: seq<seq<string>>, lines: seq<string>, maxChars: int)
    requires groups != [] && Segmentation(groups, lines, maxChars)
    ensures |groups[0]| <= |lines| && groups[0] == lines[..|groups[0]|]
    ensures Segmentation(groups[1..], lines[|groups[0]|..], maxChars)
    ensures |groups| > 1 ==> groups[1] != [] && |groups[0]| < |lines| && groups[1][0] == lines[|groups[0]|]
  {
    FlattenHead(groups[0], groups[1..]);
    assert groups == [groups[0]] + groups[1..];
    if |groups| > 1 {
      FlattenHead(groups[1], groups[2..]);
      assert groups[1..] == [groups[1]] + groups[2..];
      assert BreakForced(groups[0], groups[1], maxChars);
    }
  }

  /** A group of one segmentation is not a proper prefix of the first group of another. */
  lemma FirstGroupNotLonger(a: seq<seq<string>>, b: seq<seq<string>>, lines: seq<string>, maxChars: int)
    requires a != [] && b != [] && Segmentation(a, lines, maxChars) && Segmentation(b, lines, maxChars)
    ensures |b[0]| <= |a[0]|
  {
    SegmentationTail(a, lines, maxChars);
    SegmentationTail(b, lines, maxChars);
    var n := |a[0]|;
    if |a| == 1 {
      assert a[1..] == [];
    } else {
      assert BreakForced(a[0], a[1], maxChars);
      SizeSnoc(a[0], lines[n]);
      InsideFits(a[0], lines[n], b[0], maxChars);
    }
  }

  lemma InsideFits(group: seq<string>, line: string, other: seq<string>, maxChars: int)
    requires group != [] && GroupFits(other, maxChars) && IsSpeakerLine(line)
    ensures group + [line] <= other ==> Size(group + [line]) <= maxChars
  {
    if group + [line] <= other {
      assert LineFits(other, |group|, maxChars);
      assert other[|group|] == line && other[..|group| + 1] == group + [line];
    }
  }

  /** There is only one segmentation: the listed properties pin the segmenter's output down. */
  lemma {:induction false} SegmentationIsUnique(a: seq<seq<string>>, b: seq<seq<string>>, lines: seq<string>, maxChars: int)
    requires Segmentation(a, lines, maxChars) && Segmentation(b, lines, maxChars)
    ensures a == b
    decreases |a|
  {
    if a == [] || b == [] {
      if a != [] {
        SegmentationTail(a, lines, maxChars);
      }
      if b != [] {
        SegmentationTail(b, lines, maxChars);
      }
    } else {
      FirstGroupNotLonger(a, b, lines, maxChars);
      FirstGroupNotLonger(b, a, lines, maxChars);
      SegmentationTail(a, lines, maxChars);
      SegmentationTail(b, lines, maxChars);
      SegmentationIsUnique(a[1..], b[1..], lines[|a[0]|..], maxChars);
      assert a == [a[0]] + a[1..] && b == [b[0]] + b[1..];
    }
  }

  // ---- The whole answer, in terms of the texts ----

  lemma {:induction false} NameEndStops(line: string, i: nat)
    requires i <= |line|
    ensures forall k :: i <= k < NameEnd(line, i) ==> NameChar(line[k])
    decreases |line| - i
  {
    if i < |line| && NameChar(line[i]) {
      NameEndStops(line, i + 1);
    }
  }

  lemma {:induction false} NameEndIs(line: string, i: nat, end: nat)
    requires i <= end < |line| && !NameChar(line[end]) && forall k :: i <= k < end ==> NameChar(line[k])
    ensures NameEnd(line, i) == end
    decreases end - i
  {
    if i < end {
      NameEndIs(line, i + 1, end);
    }
  }

  /** A capital, at least one more letter, blank, apostrophe or hyphen, a colon, and a blank. */
  predicate NameAndColon(line: string, colon: nat) {
    && 2 <= colon < |line| - 1 && 'A' <= line[0] <= 'Z' && line[colon] == ':' && IsSpace(line[colon + 1])
    && forall k :: 1 <= k < colon ==>
         'a' <= line[k] <= 'z' || 'A' <= line[k] <= 'Z' || IsSpace(line[k]) || line[k] == '\'' || line[k] == '-'
  }

  ghost predicate StartsTurn(line: string) {
    exists colon: nat :: NameAndColon(line, colon)
  }

  /** Which lines start a speaker's turn: those the pattern matches. */
  lemma SpeakerLineIff(line: string)
    ensures IsSpeakerLine(line) <==> StartsTurn(line)
  {
    if IsSpeakerLine(line) {
      NameEndStops(line, 1);
      assert NameAndColon(line, NameEnd(line, 1));
    }
    forall colon: nat | NameAndColon(line, colon) ensures IsSpeakerLine(line) {
      NameEndIs(line, 1, colon);
    }
  }

  /** The size of some lines is the length of the text they make, its last newline included. */
  lemma {:induction false} SizeIsLength(lines: seq<string>)
    requires lines != []
    ensures Size(lines) == |Unlines(lines)| + 1
    decreases |lines|
  {
    var n := |lines| - 1;
    if n == 0 {
      assert lines[..0] == [];
    } else {
      SizeIsLength(lines[..n]);
      UnlinesSnoc(lines[..n], lines[n]);
      assert lines == lines[..n] + [lines[n]];
    }
  }

  lemma {:induction false} UnlinesSnoc(lines: seq<string>, line: string)
    requires lines != []
    ensures |Unlines(lines + [line])| == |Unlines(lines)| + 1 + |line|
  {
    var head, rest := lines[0], lines[1..];
    assert lines == [head] + rest && lines + [line] == [head] + (rest + [line]);
    UnlinesCons(head, rest + [line]);
    if rest == [] {
      assert rest + [line] == [line] && lines == [head];
    } else {
      UnlinesCons(head, rest);
      UnlinesSnoc(rest, line);
    }
  }

  /** A segment is the text of its group of lines. */
  lemma SegmentIsText(segments: seq<string>, g: nat)
    requires g < |segments|
    ensures segments[g] == Unlines(Groups(segments)[g])
  {
    LinesThenUnlines(segments[g]);
  }

  /** A new segment starts with a speaker's line that would have made the text before longer than the limit. Lengths
      count each line's newline. */
  lemma SegmentStarts(groups: seq<seq<string>>, lines: seq<string>, maxChars: int, g: nat)
    requires Segmentation(groups, lines, maxChars) && 0 < g < |groups|
    ensures groups[g] != [] && StartsTurn(groups[g][0])
    ensures |Unlines(groups[g - 1])| + 1 + |groups[g][0]| + 1 > maxChars
  {
    assert groups[g - 1] != [] && BreakForced(groups[g - 1], groups[g], maxChars);
    SpeakerLineIff(groups[g][0]);
    SizeIsLength(groups[g - 1]);
  }

  /** Inside a segment the text up to any speaker's line is within the limit. */
  lemma SegmentFits(groups: seq<seq<string>>, lines: seq<string>, maxChars: int, g: nat, j: nat)
    requires Segmentation(groups, lines, maxChars) && g < |groups| && 0 < j < |groups[g]| && StartsTurn(groups[g][j])
    ensures |Unlines(groups[g][..j + 1])| + 1 <= maxChars
  {
    var group := groups[g];
    assert GroupFits(group, maxChars);
    SpeakerLineIff(group[j]);
    assert LineFits(group, j, maxChars);
    SizeIsLength(group[..j + 1]);
  }
}
