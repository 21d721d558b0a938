/** Python string primitives the repository's code is written in: `split`, `join`, `strip`,
    `lower`, substring search and `int`/`str` on integers. Strings are sequences of Unicode
    scalar values. */
module Text {
  import opened Sequences

  // ---- Characters ----

  /** The characters `str.isspace` accepts, which `strip`, `int` and the regular expression `\s` all use. */
  predicate IsSpace(c: char) {
    var n := c as int;
    || 9 <= n <= 13
    || 28 <= n <= 32
    || n == 0x85 || n == 0xA0 || n == 0x1680 || n == 0x2028 || n == 0x2029
    || n == 0x202F || n == 0x205F || n == 0x3000
    || 0x2000 <= n <= 0x200A
  }

  predicate IsDigit(c: char) {
    '0' <= c <= '9'
  }

  predicate IsLetter(c: char) {
    'a' <= c <= 'z' || 'A' <= c <= 'Z'
  }

  // ---- Splitting and joining ----

  /** `sep.join(parts)` */
  function Join(sep: string, parts: seq<string>): string {
    if parts == [] then ""
    else if |parts| == 1 then parts[0]
    else parts[0] + sep + Join(sep, parts[1..])
  }

  /** `s.split("\n")` */
  function Lines(s: string): (lines: seq<string>)
    ensures |lines| >= 1
    ensures forall k :: 0 <= k < |lines| ==> '\n' !in lines[k]
  {
    if s == "" then [""]
    else
      var rest := Lines(s[1..]);
      if s[0] == '\n' then [""] + rest
      else [[s[0]] + rest[0]] + rest[1..]
  }

  /** `"\n".join(lines)` */
  function Unlines(lines: seq<string>): string {
    Join("\n", lines)
  }

  lemma UnlinesCons(line: string, rest: seq<string>)
    requires rest != []
    ensures Unlines([line] + rest) == line + "\n" + Unlines(rest)
  {
    assert ([line] + rest)[1..] == rest;
  }

  lemma UnlinesPrepend(c: char, lines: seq<string>)
    requires lines != []
    ensures Unlines([[c] + lines[0]] + lines[1..]) == [c] + Unlines(lines)
  {
    var head, rest := lines[0], lines[1..];
    if rest == [] {
      assert [[c] + head] + rest == [[c] + head];
    } else {
      UnlinesCons([c] + head, rest);
      UnlinesCons(head, rest);
      assert lines == [head] + rest;
      assert ([c] + head) + "\n" + Unlines(rest) == [c] + (head + "\n" + Unlines(rest));
    }
  }

  /** Splitting loses nothing: joining the lines gives the text back. */
  lemma {:induction false} LinesThenUnlines(s: string)
    ensures Unlines(Lines(s)) == s
  {
    if s != "" {
      var c, tail := s[0], s[1..];
      LinesThenUnlines(tail);
      LinesOfCons(c, tail);
      assert s == [c] + tail;
      if c == '\n' {
        UnlinesCons("", Lines(tail));
        assert s == "" + "\n" + tail;
      } else {
        UnlinesPrepend(c, Lines(tail));
      }
    }
  }

  lemma {:induction false} OneLine(line: string)
    requires '\n' !in line
    ensures Lines(line) == [line]
  {
    if line != "" {
      assert line[0] in line;
      assert line == [line[0]] + line[1..];
      OneLine(line[1..]);
      LinesOfCons(line[0], line[1..]);
    }
  }

  /** Joining newline-free lines and splitting again is the identity. */
  lemma {:induction false} UnlinesThenLines(lines: seq<string>)
    requires lines != []
    requires forall k :: 0 <= k < |lines| ==> '\n' !in lines[k]
    ensures Lines(Unlines(lines)) == lines
  {
    var first := lines[0];
    OneLine(first);
    if |lines| > 1 {
      UnlinesThenLines(lines[1..]);
      LinesOfJoined(first, Unlines(lines[1..]));
    }
  }

  /** Splitting a joined text concatenates the splits, so joining is associative over line groups. */
  lemma {:induction false} LinesOfUnlines(parts: seq<string>)
    requires parts != []
    ensures Lines(Unlines(parts)) == AllLines(parts)
  {
    if |parts| == 1 {
      assert parts[1..] == [];
      assert FlatMap(parts, Lines) == Lines(parts[0]) + [];
    } else {
      LinesOfUnlines(parts[1..]);
      LinesOfJoined(parts[0], Unlines(parts[1..]));
      assert Unlines(parts) == parts[0] + "\n" + Unlines(parts[1..]);
    }
  }

  lemma {:induction false} LinesOfJoined(s: string, tail: string)
    ensures Lines(s + "\n" + tail) == Lines(s) + Lines(tail)
  {
    if s == "" {
      assert s + "\n" + tail == ['\n'] + tail;
      LinesOfCons('\n', tail);
      assert Lines("") == [""];
    } else {
      var c, init := s[0], s[1..];
      var rest := init + "\n" + tail;
      var front, back := Lines(init), Lines(tail);
      calc {
        Lines(s + "\n" + tail);
        { assert s + "\n" + tail == [c] + rest; }
        Lines([c] + rest);
        { LinesOfCons(c, rest); }
        if c == '\n' then [""] + Lines(rest) else [[c] + Lines(rest)[0]] + Lines(rest)[1..];
        { LinesOfJoined(init, tail); }
        if c == '\n' then [""] + (front + back) else [[c] + (front + back)[0]] + (front + back)[1..];
        { PrependChar(c, front, back); }
        (if c == '\n' then [""] + front else [[c] + front[0]] + front[1..]) + back;
        { LinesOfCons(c, init); assert s == [c] + init; }
        Lines(s) + Lines(tail);
      }
    }
  }

  /** Text without a line break only lengthens the last line. */
  lemma {:induction false} LinesAppend(s: string, tail: string)
    requires '\n' !in tail
    ensures Lines(s + tail) == AppendToLast(Lines(s), tail)
  {
    if s == "" {
      assert s + tail == tail;
      OneLine(tail);
    } else {
      var c, init := s[0], s[1..];
      assert s == [c] + init && s + tail == [c] + (init + tail);
      LinesAppend(init, tail);
      LinesOfCons(c, init);
      LinesOfCons(c, init + tail);
      AppendPastFirst(c, Lines(init), tail);
    }
  }

  function AppendToLast(lines: seq<string>, tail: string): seq<string>
    requires lines != []
  {
    lines[..|lines| - 1] + [lines[|lines| - 1] + tail]
  }

  lemma AppendPastFirst(c: char, lines: seq<string>, tail: string)
    requires lines != []
    ensures AppendToLast([""] + lines, tail) == [""] + AppendToLast(lines, tail)
    ensures var longer := AppendToLast(lines, tail);
            AppendToLast([[c] + lines[0]] + lines[1..], tail) == [[c] + longer[0]] + longer[1..]
  {
    if |lines| == 1 {
      assert ([c] + lines[0]) + tail == [c] + (lines[0] + tail);
    }
  }

  lemma PrependChar(c: char, front: seq<string>, back: seq<string>)
    requires front != []
    ensures [""] + (front + back) == ([""] + front) + back
    ensures [[c] + (front + back)[0]] + (front + back)[1..] == [[c] + front[0]] + front[1..] + back
  {
  }

  lemma LinesOfCons(c: char, s: string)
    ensures Lines([c] + s) == if c == '\n' then [""] + Lines(s) else [[c] + Lines(s)[0]] + Lines(s)[1..]
  {
    assert ([c] + s)[1..] == s;
  }

  function AllLines(parts: seq<string>): seq<string> {
    FlatMap(parts, Lines)
  }

  // ---- Stripping ----

  /** `s.lstrip()` */
  function StripLeft(s: string): (r: string)
    ensures |r| <= |s|
    ensures r == "" || (!IsSpace(r[0]) && r[|r| - 1] == s[|s| - 1])
  {
    if s != "" && IsSpace(s[0]) then StripLeft(s[1..]) else s
  }

  lemma {:induction false} StripLeftAppend(s: string, tail: string)
    requires tail != "" && !IsSpace(tail[0])
    ensures StripLeft(s + tail) == StripLeft(s) + tail
  {
    if s == "" {
      assert s + tail == tail;
    } else if IsSpace(s[0]) {
      assert (s + tail)[1..] == s[1..] + tail;
      StripLeftAppend(s[1..], tail);
    }
  }

  /** `s.rstrip()` */
  function StripRight(s: string): (r: string)
    ensures r == "" || !IsSpace(r[|r| - 1])
    ensures r <= s
  {
    if s != "" && IsSpace(s[|s| - 1]) then StripRight(s[..|s| - 1]) else s
  }

  /** `s.strip()` */
  function Strip(s: string): (r: string)
    ensures r == "" || (!IsSpace(r[0]) && !IsSpace(r[|r| - 1]))
    ensures |r| <= |s|
    ensures r == s <==> s == "" || (!IsSpace(s[0]) && !IsSpace(s[|s| - 1]))
  {
    var right := StripRight(s);
    var r := StripLeft(right);
    r
  }

  /** A line no later `strip` can change: non-empty, one line, no blank at either end. */
  predicate Tidy(line: string) {
    line != "" && '\n' !in line && !IsSpace(line[0]) && !IsSpace(line[|line| - 1])
  }

  /** Text joined from tidy lines starts and ends with ink, so stripping leaves it alone. */
  lemma {:induction false} UnlinesIsStripped(lines: seq<string>)
    requires lines != []
    requires forall k :: 0 <= k < |lines| ==> Tidy(lines[k])
    ensures var s := Unlines(lines);
            s != "" && !IsSpace(s[0]) && !IsSpace(s[|s| - 1])
    ensures Strip(Unlines(lines)) == Unlines(lines)
  {
    assert Tidy(lines[0]);
    if |lines| > 1 {
      UnlinesIsStripped(lines[1..]);
    }
  }

  /** Python truthiness of `s.strip()`. */
  predicate Blank(s: string) {
    Strip(s) == ""
  }

  // ---- Lower case (ASCII) ----

  function LowerChar(c: char): (r: char)
    ensures IsSpace(r) == IsSpace(c)
    ensures !('A' <= r <= 'Z')
    ensures !('A' <= c <= 'Z') ==> r == c
  {
    if 'A' <= c <= 'Z' then (c as int + 32) as char else c
  }

  /** `s.lower()`, on ASCII letters */
  function Lower(s: string): (r: string)
    ensures |r| == |s|
    ensures forall k :: 0 <= k < |s| ==> r[k] == LowerChar(s[k])
  {
    if s == "" then "" else [LowerChar(s[0])] + Lower(s[1..])
  }

  lemma LowerTwice(s: string)
    ensures Lower(Lower(s)) == Lower(s)
  {
    var once, twice := Lower(s), Lower(Lower(s));
    forall k | 0 <= k < |s| ensures twice[k] == once[k] {
      assert once[k] == LowerChar(s[k]);
    }
  }

  // ---- Searching ----

  /** `pat` occurs in `s` at offset `i`. */
  predicate At(s: string, pat: string, i: nat) {
    i + |pat| <= |s| && s[i..i + |pat|] == pat
  }

  /** The first occurrence of `pat` at or after `from`, or -1. */
  function FindFrom(s: string, pat: string, from: nat): (r: int)
    requires from <= |s|
    ensures r == -1 || (from <= r && r + |pat| <= |s|)
    decreases |s| - from
  {
    if At(s, pat, from) then from
    else if from == |s| then -1
    else FindFrom(s, pat, from + 1)
  }

  /** `s.find(pat)` */
  function Find(s: string, pat: string): (r: int)
    ensures r == -1 || (0 <= r && r + |pat| <= |s|)
  {
    FindFrom(s, pat, 0)
  }

  /** `pat in s` */
  predicate Contains(s: string, pat: string) {
    Find(s, pat) >= 0
  }

  lemma {:induction false} FindIsFirst(s: string, pat: string, from: nat)
    requires from <= |s|
    ensures var r := FindFrom(s, pat, from);
            && (r >= 0 ==> At(s, pat, r))
            && (forall i: nat :: from <= i && (r >= 0 ==> i < r) ==> !At(s, pat, i))
    decreases |s| - from
  {
    if !At(s, pat, from) && from < |s| {
      FindIsFirst(s, pat, from + 1);
    }
  }

  lemma FindIs(s: string, pat: string, from: nat, i: nat)
    requires from <= i && At(s, pat, i)
    requires forall k: nat :: from <= k < i ==> !At(s, pat, k)
    ensures from <= |s| && FindFrom(s, pat, from) == i
  {
    FindIsFirst(s, pat, from);
  }

  // ---- Integers ----

  function DigitChar(d: nat): (c: char)
    requires d < 10
    ensures IsDigit(c) && c as int - '0' as int == d
  {
    ('0' as int + d) as char
  }

  predicate AllDigits(s: string) {
    forall k :: 0 <= k < |s| ==> IsDigit(s[k])
  }

  /** Digits with single underscores between them, the numerals `int` accepts. */
  predicate IsNumeral(s: string) {
    && s != ""
    && IsDigit(s[0])
    && IsDigit(s[|s| - 1])
    && (forall k :: 0 <= k < |s| ==> IsDigit(s[k]) || s[k] == '_')
    && !Contains(s, "__")
  }

  function NumeralValue(s: string): nat
    requires forall k :: 0 <= k < |s| ==> IsDigit(s[k]) || s[k] == '_'
  {
    if s == "" then 0
    else
      var init, c := s[..|s| - 1], s[|s| - 1];
      assert IsDigit(c) || c == '_';
      if c == '_' then NumeralValue(init)
      else 10 * NumeralValue(init) + (c as int - '0' as int)
  }

  /** `int(s)`; `None` stands for `ValueError`. */
  function ReadInt(s: string): Option<int> {
    ReadStripped(Strip(s))
  }

  function ReadStripped(t: string): Option<int> {
    if t != "" && t[0] == '-' then
      (if IsNumeral(t[1..]) then Some(0 - NumeralValue(t[1..])) else None)
    else
      var body := if t != "" && t[0] == '+' then t[1..] else t;
      if IsNumeral(body) then Some(NumeralValue(body)) else None
  }

  /** `str(n)` for a natural number */
  function NatText(n: nat): (s: string)
    ensures s != "" && AllDigits(s) && NumeralValue(s) == n
  {
    if n < 10 then
      AppendDigit("", n);
      [DigitChar(n)]
    else
      AppendDigit(NatText(n / 10), n % 10);
      NatText(n / 10) + [DigitChar(n % 10)]
  }

  /** `str(n)` */
  function IntText(n: int): (s: string)
    ensures s != "" && (IsDigit(s[0]) || s[0] == '-') && AllDigits(s[1..])
    ensures ReadInt(s) == Some(n)
  {
    if n < 0 then
      ReadDigits(NatText(0 - n));
      "-" + NatText(0 - n)
    else
      ReadDigits(NatText(n));
      NatText(n)
  }

  lemma AppendDigit(s: string, d: nat)
    requires d < 10 && AllDigits(s)
    ensures AllDigits(s + [DigitChar(d)])
    ensures NumeralValue(s + [DigitChar(d)]) == 10 * NumeralValue(s) + d
    ensures s == "" ==> s + [DigitChar(d)] == [DigitChar(d)] && NumeralValue(s) == 0
  {
    var t := s + [DigitChar(d)];
    assert t[..|t| - 1] == s;
  }

  lemma DigitsAreNumeral(s: string)
    requires s != "" && AllDigits(s)
    ensures IsNumeral(s)
  {
    FindIsFirst(s, "__", 0);
    forall i: nat ensures !At(s, "__", i) {
      Two(s, '_', '_', i);
    }
    assert IsDigit(s[|s| - 1]);
  }

  lemma Two(s: string, a: char, b: char, i: nat)
    ensures At(s, [a, b], i) <==> i + 2 <= |s| && s[i] == a && s[i + 1] == b
  {
    if i + 2 <= |s| {
      assert s[i..i + 2] == [s[i], s[i + 1]];
    }
  }

  lemma One(s: string, a: char, i: nat)
    ensures At(s, [a], i) <==> i < |s| && s[i] == a
  {
    if i < |s| {
      assert s[i..i + 1] == [s[i]];
    }
  }

  lemma ReadNumeral(s: string)
    requires IsNumeral(s)
    ensures ReadStripped(s) == Some(NumeralValue(s))
    ensures ("-" + s)[1..] == s && ReadStripped("-" + s) == Some(0 - NumeralValue(s))
  {
    assert IsDigit(s[0]) && ("-" + s)[1..] == s;
  }

  lemma StripDigits(s: string)
    requires s != "" && AllDigits(s)
    ensures Strip(s) == s && Strip("-" + s) == "-" + s
  {
    assert IsDigit(s[0]) && IsDigit(s[|s| - 1]);
    StripInk(s);
    StripInk("-" + s);
  }

  lemma StripInk(s: string)
    requires s != "" && !IsSpace(s[0]) && !IsSpace(s[|s| - 1])
    ensures Strip(s) == s
  {
  }

  lemma ReadDigits(s: string)
    requires s != "" && AllDigits(s)
    ensures ReadInt(s) == Some(NumeralValue(s))
    ensures ("-" + s)[1..] == s && ReadInt("-" + s) == Some(0 - NumeralValue(s))
  {
    StripDigits(s);
    DigitsAreNumeral(s);
    ReadNumeral(s);
  }
}
