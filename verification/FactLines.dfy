/** Facts that survive compaction, and the text they survive as: the lines of a retained-context
    message (robothor/engine/compaction.py). */
module FactLines {
  import opened Text
  import opened Sequences

  const MARKER := "[RETAINED CONTEXT]"

  datatype Fact = Fact(category: string, text: string, priority: int)

  // ---- Printing ----

  /** One printed fact: `- [category] (pN) text` */
  function FormatLine(f: Fact): string {
    Line(f.category, IntText(f.priority), f.text)
  }

  function FormatLines(facts: seq<Fact>): (lines: seq<string>)
    ensures |lines| == |facts|
    ensures forall k :: 0 <= k < |facts| ==> lines[k] == FormatLine(facts[k])
  {
    seq(|facts|, k requires 0 <= k < |facts| => FormatLine(facts[k]))
  }

  /** `sorted(facts, key=priority, reverse=True)`: Python keeps equal keys in their given order. */
  function SortByPriority(facts: seq<Fact>): (r: seq<Fact>)
    ensures |r| == |facts|
  {
    if facts == [] then [] else InsertFact(facts[0], SortByPriority(facts[1..]))
  }

  function InsertFact(f: Fact, sorted: seq<Fact>): (r: seq<Fact>)
    ensures |r| == |sorted| + 1
  {
    if sorted == [] || sorted[0].priority <= f.priority then [f] + sorted
    else [sorted[0]] + InsertFact(f, sorted[1..])
  }

  function RetainedContent(facts: seq<Fact>): string {
    Unlines([MARKER] + FormatLines(SortByPriority(facts)))
  }

  // ---- Parsing ----

  /** One line of a retained message read back; `None` where the code skips the line. */
  function ParseLine(raw: string): Option<Fact> {
    ParseStripped(Strip(raw))
  }

  function ParseStripped(line: string): Option<Fact> {
    if !("- [" <= line && Contains(line, "] (p")) then None
    else
      var close := FindFrom(line, "]", 3);
      var text := TextField(line);
      if close < 0 || text == "" then None
      else
        match ReadInt(PriorityField(line))
        case Some(priority) => Some(Fact(line[3..close], text, priority))
        case None => None
  }

  /** `line.split("(p", 1)[1].split(")", 1)[0]` */
  function PriorityField(line: string): string {
    var open := Find(line, "(p");
    if open < 0 then "" else UpToParen(line[open + 2..])
  }

  function UpToParen(s: string): string {
    var close := Find(s, ")");
    if close < 0 then s else s[..close]
  }

  /** `line.split(") ", 1)[1] if ") " in line else ""` */
  function TextField(line: string): string {
    var gap := Find(line, ") ");
    if gap < 0 then "" else line[gap + 2..]
  }

  function ParseLines(lines: seq<string>): seq<Fact> {
    Collect(lines, ParseLine)
  }

  function ParseContent(content: string): seq<Fact> {
    ParseLines(Lines(content))
  }

  // ---- Which facts can be read back ----

  predicate EndsInInk(text: string) {
    text != "" && !IsSpace(text[|text| - 1])
  }

  /** The exact condition under which a printed fact line reads back as the same fact. */
  predicate Readable(f: Fact) {
    && ']' !in f.category
    && !Contains(f.category, ") ")
    && CategoryLeavesPriority(f)
    && EndsInInk(f.text)
  }

  /** A category without `(p`, or one whose own `(p…)` happens to spell the priority. */
  predicate CategoryLeavesPriority(f: Fact) {
    var own := OwnField(f.category);
    own.None? || ReadInt(own.value) == Some(f.priority)
  }

  /** The priority field a category forces on its line: none if it has no `(p`; an unclosed one runs into
      the printed bracket. */
  function OwnField(category: string): Option<string> {
    var open := Find(category, "(p");
    if open < 0 then None
    else if Contains(category[open + 2..], ")") then Some(UpToParen(category[open + 2..]))
    else Some("]")
  }

  /** A readable fact that also stays on one line of the message. */
  predicate Durable(f: Fact) {
    Readable(f) && OneLine(f)
  }

  /** The exact condition under which a printed fact line yields the fact's text, be the category and the
      priority read back or not. */
  predicate TextReadable(f: Fact) {
    && !Contains(f.category, ") ")
    && LeavesNumber(f.category)
    && EndsInInk(f.text)
  }

  /** A category without `(p`, or one whose own `(p…)` spells some number. */
  predicate LeavesNumber(category: string) {
    var own := OwnField(category);
    own.None? || IsInt(own.value)
  }

  predicate IsInt(s: string) {
    ReadInt(s).Some?
  }

  /** A fact whose text comes back from a message: its text stays on one line, and the line it stands on
      reads as that of a fact whose text is readable. */
  predicate TextKept(f: Fact) {
    '\n' !in f.text && LastFact(f).Some? && TextReadable(LastFact(f).value)
  }

  // ---- Categories with line breaks ----

  /** The lines a category starts with the marker in front: its text is printed on the last one. */
  function CategoryLines(category: string): (lines: seq<string>)
    ensures lines != []
  {
    Lines("- [" + category)
  }

  /** The lines of a category before the one the text stands on. */
  function HeadLines(category: string): seq<string> {
    var lines := CategoryLines(category);
    lines[..|lines| - 1]
  }

  function LastLine(category: string): string {
    var lines := CategoryLines(category);
    lines[|lines| - 1]
  }

  /** The fact the last line of a printed fact looks like, if it looks like one: a line break in the category
      leaves of it what follows the break, which must bring the marker of a fact line itself. */
  function LastFact(f: Fact): Option<Fact> {
    var head := StripLeft(LastLine(f.category));
    if "- [" <= head then Some(f.(category := head[3..])) else None
  }

  /** No line of the category before its last reads as a fact. */
  predicate QuietCategory(category: string) {
    forall line :: line in HeadLines(category) ==> ParseLine(line).None?
  }

  /** A fact whose text is kept and whose category brings in no fact that would not be kept. */
  predicate Settled(f: Fact) {
    TextKept(f) && forall line :: line in HeadLines(f.category) && ParseLine(line).Some? ==> TextKept(ParseLine(line).value)
  }

  // ---- Where the pieces of a printed line are ----

  function Line(category: string, number: string, text: string): string {
    "- [" + category + "] (p" + number + ") " + text
  }

  predicate NumberChars(number: string) {
    forall k :: 0 <= k < |number| ==> IsDigit(number[k]) || number[k] == '-'
  }

  lemma IntTextChars(n: int)
    ensures NumberChars(IntText(n))
  {
    var s := IntText(n);
    forall k | 1 <= k < |s| ensures IsDigit(s[k]) {
      assert s[k] == s[1..][k - 1];
    }
  }

  /** A printed line character by character, so that searches need no slicing. */
  lemma LineChars(category: string, number: string, text: string)
    requires NumberChars(number)
    ensures var line := Line(category, number, text);
            var c := 3 + |category|;
            var n := c + 4 + |number|;
            && |line| == n + 2 + |text|
            && line[0] == '-' && line[1] == ' ' && line[2] == '['
            && (forall k :: 3 <= k < c ==> line[k] == category[k - 3])
            && line[c] == ']' && line[c + 1] == ' ' && line[c + 2] == '(' && line[c + 3] == 'p'
            && (forall k :: c + 4 <= k < n ==> line[k] == number[k - c - 4])
            && line[n] == ')' && line[n + 1] == ' '
            && (forall k :: n + 2 <= k < |line| ==> line[k] == text[k - n - 2])
  {
  }

  lemma LineSlices(category: string, number: string, text: string)
    requires NumberChars(number)
    ensures var line := Line(category, number, text);
            var c := 3 + |category|;
            var n := c + 4 + |number|;
            && |line| == n + 2 + |text|
            && "- [" <= line
            && line[3..c] == category
            && line[c + 4..n] == number
            && line[n + 2..] == text
  {
    LineChars(category, number, text);
  }

  // ---- What each search of the parser finds in a printed line ----

  /** No gap is printed before the one that ends the number, unless the category brings its own. */
  lemma GapPositions(category: string, number: string, text: string)
    requires NumberChars(number)
    ensures var line := Line(category, number, text);
            var n := 7 + |category| + |number|;
            && At(line, ") ", n)
            && (forall i: nat :: i < n && At(line, ") ", i) ==> i >= 3 && At(category, ") ", i - 3))
            && (forall i: nat :: At(category, ") ", i) ==> At(line, ") ", i + 3))
  {
    var line := Line(category, number, text);
    var c, n := 3 + |category|, 7 + |category| + |number|;
    LineChars(category, number, text);
    Two(line, ')', ' ', n);
    forall i: nat | i < n && At(line, ") ", i) ensures i >= 3 && At(category, ") ", i - 3) {
      Two(line, ')', ' ', i);
      assert !(c + 4 <= i);
      Two(category, ')', ' ', i - 3);
    }
    forall i: nat | At(category, ") ", i) ensures At(line, ") ", i + 3) {
      Two(category, ')', ' ', i);
      Two(line, ')', ' ', i + 3);
    }
  }

  /** The text field starts after the printed gap exactly when the category has no gap of its own. */
  lemma GapFound(category: string, number: string, text: string)
    requires NumberChars(number)
    ensures Find(Line(category, number, text), ") ") == 7 + |category| + |number| <==> !Contains(category, ") ")
  {
    var line := Line(category, number, text);
    GapPositions(category, number, text);
    FindIsFirst(line, ") ", 0);
    FindIsFirst(category, ") ", 0);
    if Contains(category, ") ") {
      assert At(line, ") ", Find(category, ") ") + 3);
    } else {
      FindIs(line, ") ", 0, 7 + |category| + |number|);
    }
  }

  lemma OpenPositions(category: string, number: string, text: string)
    requires NumberChars(number)
    ensures var line := Line(category, number, text);
            && At(line, "(p", |category| + 5)
            && (forall i: nat :: i < |category| + 5 && At(line, "(p", i) ==> i >= 3 && At(category, "(p", i - 3))
            && (forall i: nat :: At(category, "(p", i) ==> At(line, "(p", i + 3))
  {
    var line := Line(category, number, text);
    LineChars(category, number, text);
    Two(line, '(', 'p', |category| + 5);
    forall i: nat | i < |category| + 5 && At(line, "(p", i) ensures i >= 3 && At(category, "(p", i - 3) {
      Two(line, '(', 'p', i);
      Two(category, '(', 'p', i - 3);
    }
    forall i: nat | At(category, "(p", i) ensures At(line, "(p", i + 3) {
      Two(category, '(', 'p', i);
      Two(line, '(', 'p', i + 3);
    }
  }

  lemma OpenFound(category: string, number: string, text: string)
    requires NumberChars(number)
    ensures var own := Find(category, "(p");
            Find(Line(category, number, text), "(p") == if own < 0 then |category| + 5 else own + 3
  {
    var own := Find(category, "(p");
    OpenPositions(category, number, text);
    FindIsFirst(category, "(p", 0);
    FindIs(Line(category, number, text), "(p", 0, if own < 0 then |category| + 5 else own + 3);
  }

  lemma UpToParenIs(s: string, k: nat)
    requires k < |s| && s[k] == ')' && forall i :: 0 <= i < k ==> s[i] != ')'
    ensures UpToParen(s) == s[..k] && Contains(s, ")")
  {
    One(s, ')', k);
    forall i: nat | i < k ensures !At(s, ")", i) {
      One(s, ')', i);
    }
    FindIs(s, ")", 0, k);
  }

  lemma NoParen(s: string)
    requires !Contains(s, ")")
    ensures forall k :: 0 <= k < |s| ==> s[k] != ')'
  {
    FindIsFirst(s, ")", 0);
    forall k | 0 <= k < |s| ensures s[k] != ')' {
      One(s, ')', k);
    }
  }

  /** A category without `(p` leaves the printed number as the priority field. */
  lemma PlainPriorityField(category: string, number: string, text: string)
    requires NumberChars(number) && Find(category, "(p") < 0
    ensures PriorityField(Line(category, number, text)) == number
  {
    var line, c := Line(category, number, text), 3 + |category|;
    OpenFound(category, number, text);
    LineChars(category, number, text);
    var after := line[c + 4..];
    assert forall i :: 0 <= i < |number| ==> after[i] == number[i];
    UpToParenIs(after, |number|);
    assert after[..|number|] == number;
  }

  lemma SameUpToParen(full: string, part: string)
    requires |part| <= |full| && (forall i :: 0 <= i < |part| ==> full[i] == part[i]) && Contains(part, ")")
    ensures UpToParen(full) == UpToParen(part)
  {
    var k := Find(part, ")");
    FindIsFirst(part, ")", 0);
    One(part, ')', k);
    forall i | 0 <= i < k ensures part[i] != ')' {
      One(part, ')', i);
    }
    UpToParenIs(full, k);
    assert full[..k] == part[..k];
  }

  lemma OwnPriorityField(category: string, number: string, text: string)
    requires NumberChars(number)
    requires var own := Find(category, "(p"); own >= 0 && Contains(category[own + 2..], ")")
    ensures PriorityField(Line(category, number, text)) == UpToParen(category[Find(category, "(p") + 2..])
  {
    var line := Line(category, number, text);
    var own := Find(category, "(p");
    var inner, after := category[own + 2..], line[own + 5..];
    OpenFound(category, number, text);
    LineChars(category, number, text);
    assert forall i :: 0 <= i < |inner| ==> after[i] == inner[i];
    SameUpToParen(after, inner);
  }

  lemma SpoiltPriorityField(category: string, number: string, text: string)
    requires NumberChars(number)
    requires var own := Find(category, "(p"); own >= 0 && !Contains(category[own + 2..], ")")
    ensures ']' in PriorityField(Line(category, number, text))
  {
    var line, c, n := Line(category, number, text), 3 + |category|, 7 + |category| + |number|;
    var own := Find(category, "(p");
    var inner, after := category[own + 2..], line[own + 5..];
    OpenFound(category, number, text);
    LineChars(category, number, text);
    NoParen(inner);
    var k := n - own - 5;
    forall i | 0 <= i < k ensures after[i] != ')' {
      assert after[i] == line[own + 5 + i];
      if own + 5 + i < c {
        assert after[i] == inner[i];
      } else if own + 5 + i >= c + 4 {
        assert line[own + 5 + i] == number[own + 5 + i - c - 4];
      }
    }
    UpToParenIs(after, k);
    assert after[..k][c - own - 5] == line[c];
  }

  lemma {:induction false} StripRightKeeps(s: string, k: nat)
    requires k < |s| && !IsSpace(s[k])
    ensures k < |StripRight(s)|
  {
    if IsSpace(s[|s| - 1]) {
      StripRightKeeps(s[..|s| - 1], k);
    }
  }

  lemma {:induction false} StripLeftKeeps(s: string, c: char)
    requires c in s && !IsSpace(c)
    ensures c in StripLeft(s)
  {
    if IsSpace(s[0]) {
      StripLeftKeeps(s[1..], c);
    }
  }

  lemma BracketNotNumeral(s: string)
    requires ']' in s
    ensures !IsNumeral(s)
  {
  }

  lemma BracketNotRead(t: string)
    requires ']' in t
    ensures ReadStripped(t) == None
  {
    BracketNotNumeral(t);
    if t[0] == '-' || t[0] == '+' {
      var j :| 0 <= j < |t| && t[j] == ']';
      assert t[1..][j - 1] == ']';
      BracketNotNumeral(t[1..]);
    }
  }

  lemma BracketIsNoNumber(field: string)
    requires ']' in field
    ensures ReadInt(field) == None
  {
    var k :| 0 <= k < |field| && field[k] == ']';
    StripRightKeeps(field, k);
    assert StripRight(field)[k] == ']';
    StripLeftKeeps(StripRight(field), ']');
    BracketNotRead(Strip(field));
  }

  lemma StripLine(category: string, number: string, text: string)
    requires NumberChars(number) && EndsInInk(text)
    ensures Strip(Line(category, number, text)) == Line(category, number, text)
  {
    LineChars(category, number, text);
  }

  // ---- What a printed line parses to ----

  lemma PriorityFieldIs(category: string, number: string, text: string)
    requires NumberChars(number)
    ensures var own := Find(category, "(p");
            var field := PriorityField(Line(category, number, text));
            if own < 0 then field == number
            else if Contains(category[own + 2..], ")") then field == UpToParen(category[own + 2..])
            else ']' in field
  {
    var own := Find(category, "(p");
    if own < 0 {
      PlainPriorityField(category, number, text);
    } else if Contains(category[own + 2..], ")") {
      OwnPriorityField(category, number, text);
    } else {
      SpoiltPriorityField(category, number, text);
    }
  }

  /** The priority field of a printed line satisfies what the printed number does, unless the category
      brings a field of its own. */
  lemma FieldRead(category: string, number: string, text: string, accepts: string -> bool)
    requires NumberChars(number) && accepts(number) && forall s: string :: ']' in s ==> !accepts(s)
    ensures accepts(PriorityField(Line(category, number, text)))
       <==> OwnField(category).None? || accepts(OwnField(category).value)
  {
    PriorityFieldIs(category, number, text);
    assert ']' in "]";
  }

  lemma PriorityReadBack(f: Fact)
    ensures ReadInt(PriorityField(FormatLine(f))) == Some(f.priority) <==> CategoryLeavesPriority(f)
  {
    var accepts := (s: string) => ReadInt(s) == Some(f.priority);
    IntTextChars(f.priority);
    forall s: string | ']' in s ensures !accepts(s) {
      BracketIsNoNumber(s);
    }
    FieldRead(f.category, IntText(f.priority), f.text, accepts);
  }

  lemma HasPriorityMark(category: string, number: string, text: string)
    requires NumberChars(number)
    ensures Contains(Line(category, number, text), "] (p")
  {
    var line, c := Line(category, number, text), 3 + |category|;
    LineChars(category, number, text);
    assert line[c..c + 4] == "] (p";
    FindIsFirst(line, "] (p", 0);
    assert At(line, "] (p", c);
  }

  lemma NoCloseBefore(line: string, close: int)
    requires |line| >= 3 && close == FindFrom(line, "]", 3) >= 0
    ensures ']' !in line[3..close]
  {
    FindIsFirst(line, "]", 3);
    forall k | 3 <= k < close ensures line[k] != ']' {
      One(line, ']', k);
    }
  }

  // ---- A printed fact yields its text exactly when that is readable ----

  function TextOf(parsed: Option<Fact>): Option<string> {
    match parsed
    case Some(g) => Some(g.text)
    case None => None
  }

  /** The text a printed fact line is read as. */
  function Yield(f: Fact): Option<string> {
    TextOf(ParseLine(FormatLine(f)))
  }

  lemma NumberRead(f: Fact)
    ensures IsInt(PriorityField(FormatLine(f))) <==> LeavesNumber(f.category)
  {
    IntTextChars(f.priority);
    forall s: string | ']' in s ensures !IsInt(s) {
      BracketIsNoNumber(s);
    }
    FieldRead(f.category, IntText(f.priority), f.text, IsInt);
  }

  /** The text field of a printed line is the printed text, or a longer one when the category has a gap. */
  lemma TextFieldOfLine(category: string, number: string, text: string)
    requires NumberChars(number)
    ensures var field := TextField(Line(category, number, text));
            if Contains(category, ") ") then |field| > |text| else field == text
  {
    var line, n := Line(category, number, text), 7 + |category| + |number|;
    GapFound(category, number, text);
    GapPositions(category, number, text);
    FindIsFirst(line, ") ", 0);
    LineSlices(category, number, text);
  }

  lemma CloseExists(category: string, number: string, text: string)
    requires NumberChars(number)
    ensures var close := FindFrom(Line(category, number, text), "]", 3);
            3 <= close <= 3 + |category|
  {
    var line, c := Line(category, number, text), 3 + |category|;
    LineChars(category, number, text);
    One(line, ']', c);
    FindIsFirst(line, "]", 3);
  }

  /** The category read back is the printed one up to its first closing bracket. */
  predicate UpToBracket(full: string, part: string) {
    part <= full && ']' !in part && (|part| < |full| ==> full[|part|] == ']')
  }

  lemma CategoryOfLine(category: string, number: string, text: string)
    requires NumberChars(number)
    ensures var line := Line(category, number, text);
            var close := FindFrom(line, "]", 3);
            close >= 3 && UpToBracket(category, line[3..close])
  {
    var line := Line(category, number, text);
    var close := FindFrom(line, "]", 3);
    LineChars(category, number, text);
    CloseExists(category, number, text);
    NoCloseBefore(line, close);
    FindIsFirst(line, "]", 3);
    One(line, ']', close);
    assert line[3..close] == category[..close - 3];
  }

  lemma StrippedLineParses(line: string, close: nat, text: string)
    requires Strip(line) == line && "- [" <= line && Contains(line, "] (p")
    requires close >= 3 && close == FindFrom(line, "]", 3) && text == TextField(line) && text != ""
    ensures ParseLine(line) ==
      match ReadInt(PriorityField(line))
      case Some(priority) => Some(Fact(line[3..close], text, priority))
      case None => None
  {
  }

  /** What a printed line with ink at the end parses to. */
  lemma InkedLineParses(f: Fact)
    requires EndsInInk(f.text)
    ensures var line := FormatLine(f);
            && |TextField(line)| >= |f.text|
            && (ParseLine(line).Some? <==> IsInt(PriorityField(line)))
            && (ParseLine(line).Some? ==>
                  var g := ParseLine(line).value;
                  var close := FindFrom(line, "]", 3);
                  close >= 3 && g == Fact(line[3..close], TextField(line), g.priority)
                  && ReadInt(PriorityField(line)) == Some(g.priority))
  {
    var number := IntText(f.priority);
    IntTextChars(f.priority);
    StripLine(f.category, number, f.text);
    TextFieldOfLine(f.category, number, f.text);
    CloseExists(f.category, number, f.text);
    LineSlices(f.category, number, f.text);
    HasPriorityMark(f.category, number, f.text);
    StrippedLineParses(FormatLine(f), FindFrom(FormatLine(f), "]", 3), TextField(FormatLine(f)));
  }

  /** Whatever a line is read as ends in ink. */
  lemma ParsedEndsInInk(raw: string)
    requires ParseLine(raw).Some?
    ensures EndsInInk(ParseLine(raw).value.text)
  {
    var stripped := Strip(raw);
    ParsedPieces(stripped, ParseLine(raw).value);
    var gap := Find(stripped, ") ");
    assert ParseLine(raw).value.text == stripped[gap + 2..];
  }

  lemma InkedYield(f: Fact)
    requires EndsInInk(f.text)
    ensures Yield(f).Some? <==> LeavesNumber(f.category)
    ensures Yield(f).Some? ==>
      if Contains(f.category, ") ") then |Yield(f).value| > |f.text| else Yield(f).value == f.text
  {
    IntTextChars(f.priority);
    InkedLineParses(f);
    NumberRead(f);
    TextFieldOfLine(f.category, IntText(f.priority), f.text);
  }

  /** The text, or a longer one, or none. */
  predicate NothingShorter(yielded: Option<string>, text: string) {
    yielded.Some? ==> yielded == Some(text) || |yielded.value| > |text|
  }

  lemma UninkedIsLost(raw: string, text: string)
    requires !EndsInInk(text)
    ensures TextOf(ParseLine(raw)) != Some(text)
  {
    if ParseLine(raw).Some? {
      ParsedEndsInInk(raw);
    }
  }

  lemma InkedRoundTrip(f: Fact)
    requires EndsInInk(f.text)
    ensures Yield(f) == Some(f.text) <==> TextReadable(f)
    ensures NothingShorter(Yield(f), f.text)
  {
    InkedYield(f);
  }

  /** The text round trip, with its exact condition; a line that yields another text yields a longer one. */
  lemma TextRoundTrip(f: Fact)
    ensures Yield(f) == Some(f.text) <==> TextReadable(f)
    ensures EndsInInk(f.text) ==> NothingShorter(Yield(f), f.text)
  {
    if EndsInInk(f.text) {
      InkedRoundTrip(f);
    } else {
      UninkedIsLost(FormatLine(f), f.text);
    }
  }

  lemma GapInside(s: string, i: nat)
    requires i + 1 < |s| && s[i] == ')' && s[i + 1] == ' '
    ensures Contains(s, ") ")
  {
    Two(s, ')', ' ', i);
    FindIsFirst(s, ") ", 0);
  }

  lemma GapLosesText(f: Fact, i: nat)
    requires i + 1 < |f.category| && f.category[i] == ')' && f.category[i + 1] == ' '
    ensures Yield(f) != Some(f.text)
  {
    GapInside(f.category, i);
    TextRoundTrip(f);
  }

  /** A carriable text that the category of its fact loses. */
  lemma CategoryCanLoseText(f: Fact)
    requires f.category == "a) b" && f.text == "x"
    ensures CarriableText(f.text) && OneLine(f) && Yield(f) != Some(f.text)
  {
    GapLosesText(f, 1);
  }

  // ---- The same for categories with line breaks ----

  /** The line a fact's text is printed on. */
  function LastPrinted(f: Fact): string {
    LastLine(f.category) + Tail(f)
  }

  /** What is printed after the category. */
  function Tail(f: Fact): string {
    "] (p" + IntText(f.priority) + ") " + f.text
  }

  /** The text the last line of a printed fact is read as. */
  function LastYield(f: Fact): Option<string> {
    TextOf(ParseLine(LastPrinted(f)))
  }

  lemma GroupTail(head: string, a: string, b: string, c: string, d: string)
    ensures head + a + b + c + d == head + (a + b + c + d)
  {
  }

  lemma FormatLineIs(f: Fact)
    ensures FormatLine(f) == "- [" + f.category + Tail(f)
  {
    GroupTail("- [" + f.category, "] (p", IntText(f.priority), ") ", f.text);
  }

  lemma TailIsOneLine(number: string, text: string)
    requires NumberChars(number) && '\n' !in text
    ensures '\n' !in "] (p" + number + ") " + text
  {
  }

  /** The lines of a printed fact. */
  lemma PrintedLines(f: Fact)
    requires '\n' !in f.text
    ensures Lines(FormatLine(f)) == HeadLines(f.category) + [LastPrinted(f)]
  {
    IntTextChars(f.priority);
    TailIsOneLine(IntText(f.priority), f.text);
    FormatLineIs(f);
    LinesAppend("- [" + f.category, Tail(f));
  }

  lemma LastPrintedIsLine(f: Fact)
    requires '\n' !in f.text
    ensures LastPrinted(f) in Lines(FormatLine(f)) && '\n' !in LastPrinted(f)
  {
    var lines := Lines(FormatLine(f));
    PrintedLines(f);
    assert lines[|lines| - 1] == LastPrinted(f);
  }

  lemma HeadOrLast(f: Fact, line: string)
    requires '\n' !in f.text && line in Lines(FormatLine(f))
    ensures line in HeadLines(f.category) || line == LastPrinted(f)
  {
    PrintedLines(f);
  }

  lemma OneLineCategory(category: string)
    requires '\n' !in category
    ensures HeadLines(category) == [] && LastLine(category) == "- [" + category
    ensures StripLeft(LastLine(category)) == "- [" + category
  {
    Text.OneLine("- [" + category);
  }

  /** Without a line break in the category the last line is the whole one. */
  lemma OneLineFactIsLast(f: Fact)
    requires '\n' !in f.category
    ensures LastFact(f) == Some(f) && HeadLines(f.category) == []
    ensures TextKept(f) <==> '\n' !in f.text && TextReadable(f)
    ensures Settled(f) <==> TextKept(f)
  {
    OneLineCategory(f.category);
    assert ("- [" + f.category)[3..] == f.category;
  }

  lemma InkedStrip(s: string, tail: string)
    requires tail != "" && !IsSpace(tail[0]) && !IsSpace(tail[|tail| - 1])
    ensures Strip(s + tail) == StripLeft(s) + tail
  {
    assert (s + tail)[|s + tail| - 1] == tail[|tail| - 1];
    StripLeftAppend(s, tail);
  }

  lemma MarkerComesFirst(head: string, tail: string)
    requires tail != "" && tail[0] == ']' && "- [" <= head + tail
    ensures "- [" <= head
  {
    var line := head + tail;
    assert line[0] == '-' && line[1] == ' ' && line[2] == '[';
    assert line[|head|] == ']';
  }

  lemma StripLeftTwice(s: string)
    ensures StripLeft(StripLeft(s)) == StripLeft(s)
  {
  }

  lemma SameStrip(a: string, b: string)
    requires Strip(a) == Strip(b)
    ensures ParseLine(a) == ParseLine(b)
  {
  }

  lemma UnmarkedIsUnread(raw: string)
    requires !("- [" <= Strip(raw))
    ensures ParseLine(raw) == None
  {
  }

  lemma TailInk(f: Fact)
    requires EndsInInk(f.text)
    ensures var tail := Tail(f); tail != "" && tail[0] == ']' && !IsSpace(tail[0]) && !IsSpace(tail[|tail| - 1])
  {
  }

  lemma PrintedUnderHead(f: Fact, head: string)
    requires EndsInInk(f.text) && "- [" <= head && StripLeft(head) == head
    ensures Strip(FormatLine(f.(category := head[3..]))) == head + Tail(f)
  {
    TailInk(f);
    FormatLineIs(f.(category := head[3..]));
    assert "- [" + head[3..] == head;
    InkedStrip(head, Tail(f));
  }

  /** The last line parses as the line of the fact it looks like, or not at all. */
  lemma LastLineParses(f: Fact)
    requires EndsInInk(f.text)
    ensures ParseLine(LastPrinted(f)) == match LastFact(f) case Some(g) => ParseLine(FormatLine(g)) case None => None
  {
    var head := StripLeft(LastLine(f.category));
    TailInk(f);
    InkedStrip(LastLine(f.category), Tail(f));
    if "- [" <= head {
      StripLeftTwice(LastLine(f.category));
      PrintedUnderHead(f, head);
      SameStrip(LastPrinted(f), FormatLine(f.(category := head[3..])));
    } else {
      if "- [" <= head + Tail(f) {
        MarkerComesFirst(head, Tail(f));
      }
      UnmarkedIsUnread(LastPrinted(f));
    }
  }

  /** The text round trip for every category, with its exact condition. */
  lemma LastLineRoundTrip(f: Fact)
    ensures LastYield(f) == Some(f.text) <==> LastFact(f).Some? && TextReadable(LastFact(f).value)
    ensures EndsInInk(f.text) ==> NothingShorter(LastYield(f), f.text)
  {
    if EndsInInk(f.text) {
      LastLineParses(f);
      if LastFact(f).Some? {
        InkedRoundTrip(LastFact(f).value);
      }
    } else {
      UninkedIsLost(LastPrinted(f), f.text);
    }
  }

  // ---- A printed fact reads back exactly when it is readable ----

  lemma WholeCategory(full: string, part: string)
    requires UpToBracket(full, part) && ']' !in full
    ensures part == full
  {
  }

  lemma ReadableReadsBack(f: Fact)
    requires Readable(f)
    ensures ParseLine(FormatLine(f)) == Some(f)
  {
    var number, line := IntText(f.priority), FormatLine(f);
    var close := FindFrom(line, "]", 3);
    IntTextChars(f.priority);
    PriorityReadBack(f);
    TextFieldOfLine(f.category, number, f.text);
    CloseExists(f.category, number, f.text);
    CategoryOfLine(f.category, number, f.text);
    WholeCategory(f.category, line[3..close]);
    StripLine(f.category, number, f.text);
    LineSlices(f.category, number, f.text);
    HasPriorityMark(f.category, number, f.text);
    StrippedLineParses(line, close, f.text);
  }

  lemma ReadsBackIsReadable(f: Fact)
    requires ParseLine(FormatLine(f)) == Some(f)
    ensures Readable(f)
  {
    var number := IntText(f.priority);
    IntTextChars(f.priority);
    ParsedEndsInInk(FormatLine(f));
    InkedLineParses(f);
    TextFieldOfLine(f.category, number, f.text);
    CategoryOfLine(f.category, number, f.text);
    PriorityReadBack(f);
  }

  /** The line round trip, with its exact condition: brackets, `(p` or `) ` in the text never matter. */
  lemma LineRoundTrip(f: Fact)
    ensures ParseLine(FormatLine(f)) == Some(f) <==> Readable(f)
  {
    if Readable(f) {
      ReadableReadsBack(f);
    } else if ParseLine(FormatLine(f)) == Some(f) {
      ReadsBackIsReadable(f);
    }
  }

  // ---- What is read back stays readable ----

  lemma ParsedCategory(f: Fact)
    requires TextReadable(f) && ParseLine(FormatLine(f)).Some?
    ensures UpToBracket(f.category, ParseLine(FormatLine(f)).value.category)
  {
    IntTextChars(f.priority);
    InkedLineParses(f);
    CategoryOfLine(f.category, IntText(f.priority), f.text);
  }

  lemma PartHasNoGap(full: string, part: string)
    requires part <= full && !Contains(full, ") ")
    ensures !Contains(part, ") ")
  {
    var gap := Find(part, ") ");
    FindIsFirst(part, ") ", 0);
    FindIsFirst(full, ") ", 0);
    if gap >= 0 {
      Two(part, ')', ' ', gap);
      Two(full, ')', ' ', gap);
    }
  }

  lemma PartOpensWhereFullDoes(full: string, part: string)
    requires part <= full && Find(part, "(p") >= 0
    ensures Find(full, "(p") == Find(part, "(p")
  {
    var open := Find(part, "(p");
    FindIsFirst(part, "(p", 0);
    Two(part, '(', 'p', open);
    Two(full, '(', 'p', open);
    forall i: nat | i < open ensures !At(full, "(p", i) {
      Two(part, '(', 'p', i);
      Two(full, '(', 'p', i);
    }
    FindIs(full, "(p", 0, open);
  }

  lemma PartOwnField(full: string, part: string, accepts: string -> bool)
    requires UpToBracket(full, part) && forall s: string :: ']' in s ==> !accepts(s)
    requires OwnField(full).Some? ==> accepts(OwnField(full).value)
    ensures OwnField(part).None? || OwnField(part) == OwnField(full)
  {
    var open := Find(part, "(p");
    assert ']' in "]";
    if open >= 0 {
      PartOpensWhereFullDoes(full, part);
      SameNumber(full[open + 2..], part[open + 2..], accepts);
    }
  }

  lemma SameNumber(full: string, part: string, accepts: string -> bool)
    requires UpToBracket(full, part) && Contains(full, ")") && accepts(UpToParen(full))
    requires forall s: string :: ']' in s ==> !accepts(s)
    ensures Contains(part, ")") && UpToParen(part) == UpToParen(full)
  {
    var k := Find(full, ")");
    FindIsFirst(full, ")", 0);
    One(full, ')', k);
    assert k <= |part|;
    forall i | 0 <= i < k ensures full[i] != ')' {
      One(full, ')', i);
    }
    UpToParenIs(part, k);
    assert part[..k] == full[..k];
  }

  lemma ReadableReadsReadable(f: Fact)
    requires TextReadable(f)
    ensures ParseLine(FormatLine(f)).Some?
    ensures var g := ParseLine(FormatLine(f)).value; g.text == f.text && TextReadable(g)
  {
    TextRoundTrip(f);
    ParsedCategory(f);
    var g := ParseLine(FormatLine(f)).value;
    PartHasNoGap(f.category, g.category);
    forall s: string | ']' in s ensures !IsInt(s) {
      BracketIsNoNumber(s);
    }
    PartOwnField(f.category, g.category, IsInt);
  }

  lemma ParsedLineIsOneLine(raw: string)
    requires '\n' !in raw && ParseLine(raw).Some?
    ensures OneLine(ParseLine(raw).value)
  {
    if '\n' in Strip(raw) {
      StripOnlyDrops(raw, '\n');
    }
    ParsedPieces(Strip(raw), ParseLine(raw).value);
    TextFieldInside(Strip(raw));
  }

  lemma TextFieldInside(line: string)
    requires '\n' !in line
    ensures '\n' !in TextField(line)
  {
  }

  /** A fact read back with its text keeps it in every later printing. */
  lemma ReadBackStaysReadable(f: Fact)
    requires TextKept(f)
    ensures ParseLine(LastPrinted(f)).Some?
    ensures var g := ParseLine(LastPrinted(f)).value; g.text == f.text && OneLine(g) && TextKept(g)
  {
    LastLineParses(f);
    ReadableReadsReadable(LastFact(f).value);
    LastPrintedIsLine(f);
    ParsedLineIsOneLine(LastPrinted(f));
    OneLineFactIsLast(ParseLine(LastPrinted(f)).value);
  }

  // ---- The sort is the stable sort ----

  function HasPriority(p: int): Fact -> bool {
    (f: Fact) => f.priority == p
  }

  predicate Descending(facts: seq<Fact>) {
    forall i, j :: 0 <= i < j < |facts| ==> facts[i].priority >= facts[j].priority
  }

  lemma {:induction false} InsertFactElements(f: Fact, sorted: seq<Fact>)
    ensures multiset(InsertFact(f, sorted)) == multiset{f} + multiset(sorted)
  {
    if sorted != [] && sorted[0].priority > f.priority {
      InsertFactElements(f, sorted[1..]);
      assert sorted == [sorted[0]] + sorted[1..];
    }
  }

  lemma {:induction false} InsertFactSorts(f: Fact, sorted: seq<Fact>)
    requires Descending(sorted)
    ensures Descending(InsertFact(f, sorted))
  {
    if sorted != [] && sorted[0].priority > f.priority {
      var rest := InsertFact(f, sorted[1..]);
      InsertFactSorts(f, sorted[1..]);
      forall k | 0 <= k < |rest| ensures sorted[0].priority >= rest[k].priority {
        InsertFactElements(f, sorted[1..]);
        assert rest[k] in multiset(rest);
      }
      DescendingCons(sorted[0], rest);
    }
  }

  lemma DescendingCons(f: Fact, rest: seq<Fact>)
    requires Descending(rest) && forall k :: 0 <= k < |rest| ==> f.priority >= rest[k].priority
    ensures Descending([f] + rest)
  {
  }

  lemma {:induction false} InsertFactStable(f: Fact, sorted: seq<Fact>, p: int)
    ensures Filter(InsertFact(f, sorted), HasPriority(p)) == Filter([f] + sorted, HasPriority(p))
  {
    FilterCons(f, sorted, HasPriority(p));
    if sorted != [] && sorted[0].priority > f.priority {
      InsertFactStable(f, sorted[1..], p);
      FilterCons(f, sorted[1..], HasPriority(p));
      FilterCons(sorted[0], InsertFact(f, sorted[1..]), HasPriority(p));
      FilterCons(sorted[0], sorted[1..], HasPriority(p));
      assert sorted == [sorted[0]] + sorted[1..];
    }
  }

  /** The sort keeps every fact as often as it came. */
  lemma {:induction false} SortKeepsElements(facts: seq<Fact>)
    ensures multiset(SortByPriority(facts)) == multiset(facts)
  {
    if facts != [] {
      SortKeepsElements(facts[1..]);
      InsertFactElements(facts[0], SortByPriority(facts[1..]));
      assert facts == [facts[0]] + facts[1..];
    }
  }

  /** The sort orders by descending priority. */
  lemma {:induction false} SortOrders(facts: seq<Fact>)
    ensures Descending(SortByPriority(facts))
  {
    if facts != [] {
      SortOrders(facts[1..]);
      InsertFactSorts(facts[0], SortByPriority(facts[1..]));
    }
  }

  /** Facts of equal priority keep their given order. */
  lemma {:induction false} SortIsStable(facts: seq<Fact>, p: int)
    ensures Filter(SortByPriority(facts), HasPriority(p)) == Filter(facts, HasPriority(p))
  {
    if facts != [] {
      var rest := SortByPriority(facts[1..]);
      SortIsStable(facts[1..], p);
      InsertFactStable(facts[0], rest, p);
      FilterCons(facts[0], rest, HasPriority(p));
      FilterCons(facts[0], facts[1..], HasPriority(p));
      assert facts == [facts[0]] + facts[1..];
    }
  }

  /** Those properties leave only one possible result. */
  lemma {:induction false} StableSortIsUnique(a: seq<Fact>, b: seq<Fact>)
    requires Descending(a) && Descending(b)
    requires forall p :: Filter(a, HasPriority(p)) == Filter(b, HasPriority(p))
    ensures a == b
  {
    if a == [] || b == [] {
      if a != [] {
        FilterKeeps(a, HasPriority(a[0].priority), a[0]);
      }
      if b != [] {
        FilterKeeps(b, HasPriority(b[0].priority), b[0]);
      }
    } else {
      HeadPriorityBounds(a, b);
      HeadPriorityBounds(b, a);
      var p := a[0].priority;
      assert a == [a[0]] + a[1..] && b == [b[0]] + b[1..];
      FilterCons(a[0], a[1..], HasPriority(p));
      FilterCons(b[0], b[1..], HasPriority(p));
      assert Filter(a, HasPriority(p))[0] == Filter(b, HasPriority(p))[0];
      assert a[0] == b[0];
      forall q ensures Filter(a[1..], HasPriority(q)) == Filter(b[1..], HasPriority(q)) {
        FilterCons(a[0], a[1..], HasPriority(q));
        FilterCons(b[0], b[1..], HasPriority(q));
        DropHead(a[0], Filter(a[1..], HasPriority(q)), Filter(b[1..], HasPriority(q)), HasPriority(q)(a[0]));
      }
      StableSortIsUnique(a[1..], b[1..]);
    }
  }

  lemma DropHead(f: Fact, x: seq<Fact>, y: seq<Fact>, kept: bool)
    requires (if kept then [f] else []) + x == (if kept then [f] else []) + y
    ensures x == y
  {
    if kept {
      assert x == ([f] + x)[1..] && y == ([f] + y)[1..];
    } else {
      assert x == [] + x && y == [] + y;
    }
  }

  lemma HeadPriorityBounds(a: seq<Fact>, b: seq<Fact>)
    requires a != [] && b != [] && Descending(b)
    requires forall p :: Filter(a, HasPriority(p)) == Filter(b, HasPriority(p))
    ensures a[0].priority <= b[0].priority
  {
    var p := a[0].priority;
    FilterKeeps(a, HasPriority(p), a[0]);
    FilterMembers(b, HasPriority(p));
    var kept := Filter(b, HasPriority(p));
    assert kept == Filter(a, HasPriority(p));
    assert kept != [] && kept[0] in b && kept[0].priority == p;
  }

  lemma SortedMembers(facts: seq<Fact>, f: Fact)
    ensures f in SortByPriority(facts) <==> f in facts
  {
    SortKeepsElements(facts);
    assert f in multiset(SortByPriority(facts)) <==> f in multiset(facts);
  }

  // ---- The message round trip ----

  function Texts(facts: seq<Fact>): set<string> {
    set f | f in facts :: f.text
  }

  lemma ReadableLinesParse(facts: seq<Fact>)
    requires forall k :: 0 <= k < |facts| ==> Readable(facts[k])
    ensures ParseLines(FormatLines(facts)) == facts
  {
    var lines := FormatLines(facts);
    forall k | 0 <= k < |facts| ensures ParseLine(lines[k]) == Some(facts[k]) {
      ReadableReadsBack(facts[k]);
    }
    CollectImages(lines, ParseLine, facts);
  }

  lemma {:induction false} StripLeftOnlyDrops(s: string, c: char)
    requires c in StripLeft(s)
    ensures c in s
  {
    if s != "" && IsSpace(s[0]) {
      StripLeftOnlyDrops(s[1..], c);
    }
  }

  lemma StripOnlyDrops(s: string, c: char)
    requires c in Strip(s)
    ensures c in s
  {
    StripLeftOnlyDrops(StripRight(s), c);
    var k :| 0 <= k < |StripRight(s)| && StripRight(s)[k] == c;
    assert s[k] == c;
  }

  predicate OneLine(f: Fact) {
    '\n' !in f.category && '\n' !in f.text
  }

  lemma ParsedPieces(line: string, f: Fact)
    requires ParseStripped(line) == Some(f)
    ensures f.text == TextField(line) && f.text != ""
    ensures |line| >= 3 && FindFrom(line, "]", 3) >= 0
    ensures f.category == line[3..FindFrom(line, "]", 3)]
  {
  }

  /** Whatever the content, the parsed texts are carriable and on one line. */
  lemma ParsedFactShape(content: string, f: Fact)
    requires f in ParseContent(content)
    ensures OneLine(f) && CarriableText(f.text)
  {
    var k := CollectSource(Lines(content), ParseLine, f);
    ParsedLineIsOneLine(Lines(content)[k]);
    ParsedEndsInInk(Lines(content)[k]);
  }

  lemma OneLineFact(category: string, number: string, text: string)
    requires NumberChars(number) && '\n' !in category && '\n' !in text
    ensures '\n' !in Line(category, number, text)
  {
  }

  lemma MarkerIsUnread(line: string)
    requires line == MARKER
    ensures '\n' !in line && ParseLine(line) == None
  {
    StripInk(line);
  }

  lemma MarkerIsNoFact(lines: seq<string>)
    ensures ParseLines([MARKER] + lines) == ParseLines(lines)
  {
    MarkerIsUnread(MARKER);
    assert ([MARKER] + lines)[1..] == lines;
  }

  lemma ContentLines(facts: seq<Fact>)
    requires forall k :: 0 <= k < |facts| ==> OneLine(facts[k])
    ensures ParseLines(Lines(Unlines([MARKER] + FormatLines(facts)))) == ParseLines(FormatLines(facts))
  {
    var lines := [MARKER] + FormatLines(facts);
    forall k | 0 <= k < |lines| ensures '\n' !in lines[k] {
      if k > 0 {
        var f := facts[k - 1];
        assert lines[k] == FormatLine(f);
        IntTextChars(f.priority);
        OneLineFact(f.category, IntText(f.priority), f.text);
      }
    }
    UnlinesThenLines(lines);
    MarkerIsNoFact(FormatLines(facts));
  }

  lemma DurableContentParses(facts: seq<Fact>)
    requires forall f :: f in facts ==> Durable(f)
    ensures ParseContent(RetainedContent(facts)) == SortByPriority(facts)
  {
    var sorted := SortByPriority(facts);
    forall k | 0 <= k < |sorted| ensures Durable(sorted[k]) {
      SortedMembers(facts, sorted[k]);
    }
    ContentLines(sorted);
    ReadableLinesParse(sorted);
  }

  lemma ParsedContentIsOneLine(content: string, facts: seq<Fact>)
    requires ParseContent(content) == facts
    ensures forall k :: 0 <= k < |facts| ==> OneLine(facts[k])
  {
    forall k | 0 <= k < |facts| ensures OneLine(facts[k]) {
      ParsedFactShape(content, facts[k]);
    }
  }

  lemma ParsedLinesAreReadable(sorted: seq<Fact>, k: nat)
    requires ParseLines(FormatLines(sorted)) == sorted && k < |sorted|
    ensures Readable(sorted[k])
  {
    CollectAll(FormatLines(sorted), ParseLine, k);
    ReadsBackIsReadable(sorted[k]);
  }

  lemma ParsedContentIsDurable(sorted: seq<Fact>)
    requires ParseContent(Unlines([MARKER] + FormatLines(sorted))) == sorted
    ensures forall k :: 0 <= k < |sorted| ==> Durable(sorted[k])
  {
    ParsedContentIsOneLine(Unlines([MARKER] + FormatLines(sorted)), sorted);
    ContentLines(sorted);
    forall k | 0 <= k < |sorted| ensures Durable(sorted[k]) {
      ParsedLinesAreReadable(sorted, k);
    }
  }

  /** A retained message reads back as its facts, stably sorted by descending priority, exactly
      when every fact is durable. */
  lemma MessageRoundTrip(facts: seq<Fact>)
    ensures ParseContent(RetainedContent(facts)) == SortByPriority(facts)
       <==> forall f :: f in facts ==> Durable(f)
  {
    if forall f :: f in facts ==> Durable(f) {
      DurableContentParses(facts);
    } else if ParseContent(RetainedContent(facts)) == SortByPriority(facts) {
      ParsedContentIsDurable(SortByPriority(facts));
      forall f | f in facts ensures Durable(f) {
        SortedMembers(facts, f);
      }
    }
  }

  // ---- Which texts a message gives back ----

  function PartsOf(facts: seq<Fact>): seq<string> {
    [MARKER] + FormatLines(SortByPriority(facts))
  }

  lemma ContentParts(facts: seq<Fact>)
    ensures ParseContent(RetainedContent(facts)) == Collect(FlatMap(PartsOf(facts), Lines), ParseLine)
  {
    LinesOfUnlines(PartsOf(facts));
  }

  lemma UnreadPart(part: string, line: string)
    requires '\n' !in part && line in Lines(part) && ParseLine(part) == None
    ensures ParseLine(line) == None
  {
    Text.OneLine(part);
  }

  lemma PartSource(facts: seq<Fact>, part: string) returns (f: Fact)
    requires part in PartsOf(facts) && part != MARKER
    ensures f in facts && part == FormatLine(f)
  {
    var sorted := SortByPriority(facts);
    var j :| 0 <= j < |PartsOf(facts)| && PartsOf(facts)[j] == part;
    f := sorted[j - 1];
    SortedMembers(facts, f);
  }

  lemma ImageIsListed(sorted: seq<Fact>, lines: seq<string>, image: Fact -> string, f: Fact)
    requires |lines| == |sorted| && forall k :: 0 <= k < |sorted| ==> lines[k] == image(sorted[k])
    requires f in sorted
    ensures image(f) in [MARKER] + lines
  {
    var k :| 0 <= k < |sorted| && sorted[k] == f;
    assert ([MARKER] + lines)[k + 1] == image(f);
  }

  lemma FactIsPart(facts: seq<Fact>, f: Fact)
    requires f in facts
    ensures FormatLine(f) in PartsOf(facts)
  {
    SortedMembers(facts, f);
    ImageIsListed(SortByPriority(facts), FormatLines(SortByPriority(facts)), FormatLine, f);
  }

  /** Whatever a message yields stands on a line of some printed fact. */
  lemma ContentSource(facts: seq<Fact>, g: Fact) returns (f: Fact, line: string)
    requires g in ParseContent(RetainedContent(facts))
    ensures f in facts && line in Lines(FormatLine(f)) && ParseLine(line) == Some(g)
  {
    ContentParts(facts);
    var part;
    part, line := FlatCollectSource(PartsOf(facts), Lines, ParseLine, g);
    if part == MARKER {
      MarkerIsUnread(part);
      UnreadPart(part, line);
    }
    f := PartSource(facts, part);
  }

  lemma ContentYields(facts: seq<Fact>, f: Fact, line: string, g: Fact)
    requires f in facts && line in Lines(FormatLine(f)) && ParseLine(line) == Some(g)
    ensures g in ParseContent(RetainedContent(facts))
  {
    ContentParts(facts);
    FactIsPart(facts, f);
    FlatCollectKeeps(PartsOf(facts), Lines, ParseLine, FormatLine(f), line, g);
  }

  lemma KeptTextIsRead(facts: seq<Fact>, f: Fact)
    requires f in facts && TextKept(f)
    ensures f.text in Texts(ParseContent(RetainedContent(facts)))
  {
    ReadBackStaysReadable(f);
    LastPrintedIsLine(f);
    ContentYields(facts, f, LastPrinted(f), ParseLine(LastPrinted(f)).value);
  }

  /** What a fact with a kept text adds beyond its text comes from the earlier lines of its category. */
  lemma KeptSource(facts: seq<Fact>, g: Fact) returns (f: Fact)
    requires forall f :: f in facts ==> TextKept(f)
    requires g in ParseContent(RetainedContent(facts))
    ensures f in facts
    ensures (g.text == f.text && TextKept(g)) || exists line :: line in HeadLines(f.category) && ParseLine(line) == Some(g)
  {
    var line;
    f, line := ContentSource(facts, g);
    HeadOrLast(f, line);
    ReadBackStaysReadable(f);
  }

  /** A message of settled facts gives back their texts, in facts that are settled again. */
  lemma SettledContentParses(facts: seq<Fact>)
    requires forall f :: f in facts ==> Settled(f)
    ensures Texts(facts) <= Texts(ParseContent(RetainedContent(facts)))
    ensures forall f :: f in ParseContent(RetainedContent(facts)) ==> Settled(f)
  {
    forall t | t in Texts(facts) ensures t in Texts(ParseContent(RetainedContent(facts))) {
      var f :| f in facts && f.text == t;
      KeptTextIsRead(facts, f);
    }
    forall g | g in ParseContent(RetainedContent(facts)) ensures Settled(g) {
      var f := KeptSource(facts, g);
      ParsedFactShape(RetainedContent(facts), g);
      OneLineFactIsLast(g);
    }
  }

  predicate QuietCategories(facts: seq<Fact>) {
    forall f :: f in facts ==> QuietCategory(f.category)
  }

  lemma KeptContentParses(facts: seq<Fact>)
    requires QuietCategories(facts) && forall f :: f in facts ==> TextKept(f)
    ensures Texts(ParseContent(RetainedContent(facts))) == Texts(facts)
  {
    forall t | t in Texts(facts) ensures t in Texts(ParseContent(RetainedContent(facts))) {
      var f :| f in facts && f.text == t;
      KeptTextIsRead(facts, f);
    }
    forall t | t in Texts(ParseContent(RetainedContent(facts))) ensures t in Texts(facts) {
      var g :| g in ParseContent(RetainedContent(facts)) && g.text == t;
      var f := KeptSource(facts, g);
      assert QuietCategory(f.category);
    }
  }

  predicate YieldedBy(facts: seq<Fact>, read: Fact -> Option<string>, t: string) {
    exists h :: h in facts && read(h) == Some(t)
  }

  /** If every text is some fact's yield, every fact yields its own: a fact that does not yields a longer
      text or none, so the shortest of the texts not yielded by their own fact would be nobody's. */
  lemma {:induction false} EachYieldsItsOwn(facts: seq<Fact>, read: Fact -> Option<string>, f: Fact)
    requires DistinctTexts(facts) && f in facts
    requires forall g :: g in facts ==> NothingShorter(read(g), g.text)
    requires forall t :: t in Texts(facts) ==> YieldedBy(facts, read, t)
    ensures read(f) == Some(f.text)
    decreases |f.text|
  {
    assert f.text in Texts(facts);
    var h :| h in facts && read(h) == Some(f.text);
    if |h.text| < |f.text| {
      EachYieldsItsOwn(facts, read, h);
    } else {
      var i, j :| 0 <= i < |facts| && facts[i] == f && 0 <= j < |facts| && facts[j] == h;
      assert h.text == f.text;
    }
  }

  lemma CoveredTextsAreCarriable(facts: seq<Fact>, f: Fact)
    requires f in facts && Texts(facts) <= Texts(ParseContent(RetainedContent(facts)))
    ensures CarriableText(f.text)
  {
    assert f.text in Texts(ParseContent(RetainedContent(facts)));
    var g :| g in ParseContent(RetainedContent(facts)) && g.text == f.text;
    ParsedFactShape(RetainedContent(facts), g);
  }

  /** Under quiet categories every text a message gives back stands on the last line of a fact. */
  lemma QuietSource(facts: seq<Fact>, t: string) returns (f: Fact)
    requires QuietCategories(facts) && forall f :: f in facts ==> '\n' !in f.text
    requires t in Texts(ParseContent(RetainedContent(facts)))
    ensures f in facts && LastYield(f) == Some(t)
  {
    var g :| g in ParseContent(RetainedContent(facts)) && g.text == t;
    var line;
    f, line := ContentSource(facts, g);
    HeadOrLast(f, line);
    assert QuietCategory(f.category);
  }

  lemma CoveredTextsAreKept(facts: seq<Fact>)
    requires DistinctTexts(facts) && QuietCategories(facts)
    requires Texts(facts) <= Texts(ParseContent(RetainedContent(facts)))
    ensures forall f :: f in facts ==> TextKept(f)
  {
    forall f | f in facts ensures CarriableText(f.text) {
      CoveredTextsAreCarriable(facts, f);
    }
    forall t | t in Texts(facts) ensures YieldedBy(facts, LastYield, t) {
      var h := QuietSource(facts, t);
    }
    forall g | g in facts ensures NothingShorter(LastYield(g), g.text) {
      LastLineRoundTrip(g);
    }
    forall f | f in facts ensures TextKept(f) {
      EachYieldsItsOwn(facts, LastYield, f);
      LastLineRoundTrip(f);
    }
  }

  /** The exact condition for a message to give back the texts it was printed from, whatever it makes of
      categories and priorities; then it gives back nothing else. */
  lemma TextsSurviveIff(facts: seq<Fact>)
    requires DistinctTexts(facts) && QuietCategories(facts)
    ensures Texts(facts) <= Texts(ParseContent(RetainedContent(facts))) <==> forall f :: f in facts ==> TextKept(f)
    ensures Texts(facts) <= Texts(ParseContent(RetainedContent(facts))) ==>
      Texts(ParseContent(RetainedContent(facts))) == Texts(facts)
  {
    if forall f :: f in facts ==> TextKept(f) {
      KeptContentParses(facts);
    } else if Texts(facts) <= Texts(ParseContent(RetainedContent(facts))) {
      CoveredTextsAreKept(facts);
    }
  }

  lemma ParsedHasBracket(raw: string)
    requires ParseLine(raw).Some?
    ensures ']' in raw
  {
    var line := Strip(raw);
    ParsedPieces(line, ParseLine(raw).value);
    FindIsFirst(line, "]", 3);
    One(line, ']', FindFrom(line, "]", 3));
    StripOnlyDrops(raw, ']');
  }

  lemma BrokenCategoryLines(a: string, b: string)
    requires '\n' !in a && '\n' !in b
    ensures HeadLines(a + "\n" + b) == ["- [" + a] && LastLine(a + "\n" + b) == b
  {
    assert "- [" + (a + "\n" + b) == ("- [" + a) + "\n" + b;
    LinesOfJoined("- [" + a, b);
    Text.OneLine("- [" + a);
    Text.OneLine(b);
  }

  lemma BrokenCategoryIsQuiet(a: string, b: string)
    requires '\n' !in a && '\n' !in b && ']' !in a
    ensures QuietCategory(a + "\n" + b)
  {
    BrokenCategoryLines(a, b);
    if ParseLine("- [" + a).Some? {
      ParsedHasBracket("- [" + a);
    }
  }

  /** A line break in the category loses every text, unless what follows the break brings the marker of a
      fact line itself. */
  lemma BrokenCategoryLosesText(f: Fact, a: string, b: string)
    requires f.category == a + "\n" + b && '\n' !in a && '\n' !in b
    requires ']' !in a && !("- [" <= StripLeft(b))
    ensures f.text !in Texts(ParseContent(RetainedContent([f])))
  {
    BrokenCategoryLines(a, b);
    BrokenCategoryIsQuiet(a, b);
    assert f in [f] && !TextKept(f);
    assert Texts([f]) == {f.text};
    TextsSurviveIff([f]);
  }

  /** The texts some retained message can carry at all. */
  predicate CarriableText(text: string) {
    '\n' !in text && EndsInInk(text)
  }

  lemma DurableFactParses(f: Fact)
    requires Durable(f)
    ensures f in ParseContent(RetainedContent([f]))
  {
    DurableContentParses([f]);
    SortedMembers([f], f);
  }

  lemma PlainTextIsCarried(category: string, text: string)
    requires CarriableText(text)
    requires ']' !in category && '(' !in category && ')' !in category && '\n' !in category
    ensures exists content :: text in Texts(ParseContent(content))
  {
    var f := Fact(category, text, 3);
    PlainFactIsDurable(f);
    DurableFactParses(f);
    assert text in Texts(ParseContent(RetainedContent([f])));
  }

  /** A fact text with a line break, a trailing blank or nothing in it is lost for good: no retained
      message whatever yields it. Every other text can be carried, under a suitable category. */
  lemma TextSurvivesIffCarriable(text: string)
    ensures CarriableText(text) <==> exists content :: text in Texts(ParseContent(content))
  {
    if CarriableText(text) {
      PlainTextIsCarried("", text);
    } else if exists content :: text in Texts(ParseContent(content)) {
      var content :| text in Texts(ParseContent(content));
      var f :| f in ParseContent(content) && f.text == text;
      ParsedFactShape(content, f);
    }
  }

  /** Categories without brackets, as the extraction prompt lists them, never stand in the way. */
  lemma PlainFactIsDurable(f: Fact)
    requires CarriableText(f.text)
    requires ']' !in f.category && '(' !in f.category && ')' !in f.category && '\n' !in f.category
    ensures Durable(f)
  {
    var open, gap := Find(f.category, "(p"), Find(f.category, ") ");
    FindIsFirst(f.category, "(p", 0);
    FindIsFirst(f.category, ") ", 0);
    if open >= 0 {
      Two(f.category, '(', 'p', open);
    }
    if gap >= 0 {
      Two(f.category, ')', ' ', gap);
    }
  }

  // ---- Deduplication ----

  /** The facts whose text did not occur earlier in the list. */
  function Dedup(facts: seq<Fact>): (r: seq<Fact>) {
    if facts == [] then []
    else
      var init, last := facts[..|facts| - 1], facts[|facts| - 1];
      if last.text in Texts(init) then Dedup(init) else Dedup(init) + [last]
  }

  predicate DistinctTexts(facts: seq<Fact>) {
    forall i, j :: 0 <= i < j < |facts| ==> facts[i].text != facts[j].text
  }

  predicate IsFirstWithText(facts: seq<Fact>, k: nat) {
    k < |facts| && forall j :: 0 <= j < k ==> facts[j].text != facts[k].text
  }

  lemma TextsConcat(a: seq<Fact>, b: seq<Fact>)
    ensures Texts(a + b) == Texts(a) + Texts(b)
  {
    forall t | t in Texts(a) + Texts(b) ensures t in Texts(a + b) {
      var f :| f in a + b && f.text == t;
    }
  }

  /** Deduplication keeps every text, each once. */
  lemma {:induction false} DedupKeepsTexts(facts: seq<Fact>)
    ensures Texts(Dedup(facts)) == Texts(facts)
    ensures DistinctTexts(Dedup(facts))
  {
    if facts != [] {
      var init, last := facts[..|facts| - 1], facts[|facts| - 1];
      DedupKeepsTexts(init);
      assert facts == init + [last];
      TextsConcat(init, [last]);
      TextsConcat(Dedup(init), [last]);
      assert Texts([last]) == {last.text};
      if last.text !in Texts(init) {
        forall i | 0 <= i < |Dedup(init)| ensures Dedup(init)[i].text != last.text {
          assert Dedup(init)[i].text in Texts(Dedup(init));
        }
      }
    }
  }

  /** What is kept for a text is its first fact. */
  lemma {:induction false} DedupKeepsFirst(facts: seq<Fact>, f: Fact) returns (k: nat)
    requires f in Dedup(facts)
    ensures IsFirstWithText(facts, k) && facts[k] == f
  {
    k := |facts| - 1;
    var init, last := facts[..k], facts[k];
    if f in Dedup(init) {
      k := DedupKeepsFirst(init, f);
    } else {
      forall j | 0 <= j < k ensures facts[j].text != last.text {
        TextIsListed(init, j);
      }
    }
  }

  lemma TextIsListed(facts: seq<Fact>, j: nat)
    requires j < |facts|
    ensures facts[j].text in Texts(facts)
  {
    assert facts[j] in facts;
  }
}
