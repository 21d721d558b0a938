/** The fact lines in the words of the code (robothor/engine/compaction.py): what is printed, and what any line at all,
    printed or not, is read as. */
module FactLineAnswers {
  import opened Text
  import opened Sequences
  import opened FactLines

  // ---- Printing ----

  lemma LineAnswer(f: Fact)
    ensures FormatLine(f) == "- [" + f.category + "] (p" + IntText(f.priority) + ") " + f.text
  {
  }

  /** `str(n)`: the decimal digits, behind a minus for a negative number. */
  lemma DecimalAnswer(n: nat)
    ensures n < 10 ==> IntText(n) == ["0123456789"[n]]
    ensures n >= 10 ==> IntText(n) == IntText(n / 10) + ["0123456789"[n % 10]]
    ensures n > 0 ==> IntText(0 - n) == "-" + IntText(n)
  {
    DigitIs(n % 10);
  }

  lemma DigitIs(d: nat)
    requires d < 10
    ensures DigitChar(d) == "0123456789"[d]
  {
  }

  /** A retained message: the marker, then a line for each fact, in stable order of falling priority. */
  lemma ContentAnswer(facts: seq<Fact>) returns (sorted: seq<Fact>, lines: seq<string>)
    ensures multiset(sorted) == multiset(facts) && Descending(sorted)
    ensures forall p :: Filter(sorted, HasPriority(p)) == Filter(facts, HasPriority(p))
    ensures |lines| == |sorted| && forall k :: 0 <= k < |sorted| ==> lines[k] == FormatLine(sorted[k])
    ensures RetainedContent(facts) == Join("\n", ["[RETAINED CONTEXT]"] + lines)
  {
    sorted := SortByPriority(facts);
    lines := FormatLines(sorted);
    SortKeepsElements(facts);
    SortOrders(facts);
    forall p ensures Filter(sorted, HasPriority(p)) == Filter(facts, HasPriority(p)) {
      SortIsStable(facts, p);
    }
  }

  // ---- Reading ----

  ghost predicate FirstAt(s: string, pat: string, i: nat) {
    At(s, pat, i) && forall j: nat :: j < i ==> !At(s, pat, j)
  }

  lemma FindIff(s: string, pat: string, i: nat)
    ensures Find(s, pat) == i <==> FirstAt(s, pat, i)
  {
    FindIsFirst(s, pat, 0);
    if FirstAt(s, pat, i) {
      FindIs(s, pat, 0, i);
    }
  }

  lemma ContainsIff(s: string, pat: string)
    ensures Contains(s, pat) <==> exists i: nat :: At(s, pat, i)
  {
    FindIsFirst(s, pat, 0);
  }

  /** What stands before the first closing parenthesis, or everything. */
  predicate IsField(s: string, field: string) {
    field <= s && ')' !in field && (|field| == |s| || s[|field|] == ')')
  }

  lemma FieldIs(s: string)
    ensures IsField(s, UpToParen(s))
  {
    var close := Find(s, ")");
    FindIsFirst(s, ")", 0);
    if close < 0 {
      NoParen(s);
    } else {
      One(s, ')', close);
      forall i | 0 <= i < close ensures s[i] != ')' {
        One(s, ')', i);
      }
    }
  }

  lemma FieldNotLonger(s: string, a: string, b: string)
    requires IsField(s, a) && IsField(s, b)
    ensures |a| <= |b|
  {
    assert forall k :: 0 <= k < |a| ==> a[k] == s[k] && a[k] != ')';
  }

  lemma OneField(s: string, a: string, b: string)
    requires IsField(s, a) && IsField(s, b)
    ensures a == b
  {
    FieldNotLonger(s, a, b);
    FieldNotLonger(s, b, a);
  }

  /** The category: behind the marker, up to the first closing bracket. */
  ghost predicate ReadsCategory(line: string, category: string) {
    exists close: nat :: 3 <= close < |line| && line[close] == ']' && ']' !in line[3..close] && category == line[3..close]
  }

  /** The priority: the number between the first `(p` and the parenthesis behind it. */
  ghost predicate ReadsPriority(line: string, priority: int) {
    exists open: nat, field: string ::
      FirstAt(line, "(p", open) && IsField(line[open + 2..], field) && ReadInt(field) == Some(priority)
  }

  /** The text: behind the first `) `. */
  ghost predicate ReadsText(line: string, text: string) {
    exists gap: nat :: FirstAt(line, ") ", gap) && text == line[gap + 2..]
  }

  ghost predicate Reads(line: string, f: Fact) {
    && "- [" <= line && (exists i: nat :: At(line, "] (p", i))
    && ReadsCategory(line, f.category) && ReadsPriority(line, f.priority) && ReadsText(line, f.text) && f.text != ""
  }

  lemma CloseIff(line: string, close: nat)
    requires |line| >= 3
    ensures FindFrom(line, "]", 3) == close <==> 3 <= close < |line| && line[close] == ']' && ']' !in line[3..close]
  {
    if FindFrom(line, "]", 3) == close {
      FindIsFirst(line, "]", 3);
      One(line, ']', close);
      NoCloseBefore(line, close);
    }
    if 3 <= close < |line| && line[close] == ']' && ']' !in line[3..close] {
      One(line, ']', close);
      forall k: nat | 3 <= k < close ensures !At(line, "]", k) {
        One(line, ']', k);
        assert line[3..close][k - 3] == line[k];
      }
      FindIs(line, "]", 3, close);
    }
  }

  lemma CategoryIff(line: string, category: string)
    requires |line| >= 3
    ensures ReadsCategory(line, category) <==> FindFrom(line, "]", 3) >= 0 && category == line[3..FindFrom(line, "]", 3)]
  {
    var close := FindFrom(line, "]", 3);
    if close >= 0 {
      CloseIff(line, close);
    }
    forall c: nat | 3 <= c < |line| && line[c] == ']' && ']' !in line[3..c] ensures close == c {
      CloseIff(line, c);
    }
  }

  lemma FieldFound(line: string, open: nat, field: string)
    requires FirstAt(line, "(p", open) && IsField(line[open + 2..], field)
    ensures PriorityField(line) == field
  {
    FindIff(line, "(p", open);
    FieldIs(line[open + 2..]);
    OneField(line[open + 2..], field, UpToParen(line[open + 2..]));
  }

  lemma FieldStands(line: string)
    requires Find(line, "(p") >= 0
    ensures FirstAt(line, "(p", Find(line, "(p")) && IsField(line[Find(line, "(p") + 2..], PriorityField(line))
  {
    FindIff(line, "(p", Find(line, "(p"));
    FieldIs(line[Find(line, "(p") + 2..]);
  }

  lemma PriorityIff(line: string, priority: int)
    requires Find(line, "(p") >= 0
    ensures ReadsPriority(line, priority) <==> ReadInt(PriorityField(line)) == Some(priority)
  {
    if ReadsPriority(line, priority) {
      var o: nat, field: string :| FirstAt(line, "(p", o) && IsField(line[o + 2..], field) && ReadInt(field) == Some(priority);
      FieldFound(line, o, field);
    }
    if ReadInt(PriorityField(line)) == Some(priority) {
      FieldStands(line);
      PriorityReads(line, Find(line, "(p"), PriorityField(line), priority);
    }
  }

  lemma PriorityReads(line: string, open: nat, field: string, priority: int)
    requires FirstAt(line, "(p", open) && IsField(line[open + 2..], field) && ReadInt(field) == Some(priority)
    ensures ReadsPriority(line, priority)
  {
  }

  lemma TextIff(line: string, text: string)
    requires text != ""
    ensures ReadsText(line, text) <==> TextField(line) == text
  {
    var gap := Find(line, ") ");
    if gap >= 0 {
      FindIff(line, ") ", gap);
    }
    forall g: nat | FirstAt(line, ") ", g) ensures gap == g {
      FindIff(line, ") ", g);
    }
  }

  lemma MarkHasOpen(line: string)
    requires Contains(line, "] (p")
    ensures Find(line, "(p") >= 0
  {
    var i := Find(line, "] (p");
    FindIsFirst(line, "] (p", 0);
    assert line[i..i + 4] == "] (p";
    assert line[i + 2] == line[i..i + 4][2] && line[i + 3] == line[i..i + 4][3];
    Two(line, '(', 'p', i + 2);
    FindIsFirst(line, "(p", 0);
  }

  /** What the code computes of a stripped line, in one condition. */
  lemma StrippedIff(line: string, f: Fact)
    ensures ParseStripped(line) == Some(f) <==>
      && "- [" <= line && Contains(line, "] (p")
      && FindFrom(line, "]", 3) >= 0 && f.category == line[3..FindFrom(line, "]", 3)]
      && ReadInt(PriorityField(line)) == Some(f.priority) && TextField(line) == f.text && f.text != ""
  {
  }

  /** What any line is read as: its stripped form starts with the marker, has the priority mark, and its category,
      number and text are where the code looks for them; any other line is skipped. */
  lemma ParseIff(raw: string, f: Fact)
    ensures ParseLine(raw) == Some(f) <==> Reads(Strip(raw), f)
  {
    var line := Strip(raw);
    StrippedIff(line, f);
    ContainsIff(line, "] (p");
    if "- [" <= line && Contains(line, "] (p") && f.text != "" {
      MarkHasOpen(line);
      CategoryIff(line, f.category);
      PriorityIff(line, f.priority);
      TextIff(line, f.text);
    }
  }

  // ---- Python's strip and int ----

  predicate AllSpace(s: string) {
    forall k :: 0 <= k < |s| ==> IsSpace(s[k])
  }

  /** `strip` takes blanks off both ends, and all of them. */
  lemma StripAnswer(s: string) returns (lead: string, trail: string)
    ensures s == lead + Strip(s) + trail && AllSpace(lead) && AllSpace(trail)
    ensures Strip(s) == "" || (!IsSpace(Strip(s)[0]) && !IsSpace(Strip(s)[|Strip(s)| - 1]))
  {
    var right := StripRight(s);
    trail := RightBlanks(s);
    lead := LeftBlanks(right);
  }

  lemma {:induction false} LeftBlanks(s: string) returns (lead: string)
    ensures s == lead + StripLeft(s) && AllSpace(lead)
  {
    if s != "" && IsSpace(s[0]) {
      var more := LeftBlanks(s[1..]);
      lead := [s[0]] + more;
      assert s == [s[0]] + s[1..];
    } else {
      lead := "";
    }
  }

  lemma {:induction false} RightBlanks(s: string) returns (trail: string)
    ensures s == StripRight(s) + trail && AllSpace(trail)
  {
    if s != "" && IsSpace(s[|s| - 1]) {
      var more := RightBlanks(s[..|s| - 1]);
      trail := more + [s[|s| - 1]];
      assert s == s[..|s| - 1] + [s[|s| - 1]];
    } else {
      trail := "";
    }
  }

  /** A numeral: digits, with single underscores between them. */
  predicate Numeral(s: string) {
    && s != "" && s[0] != '_' && s[|s| - 1] != '_'
    && (forall k :: 0 <= k < |s| ==> '0' <= s[k] <= '9' || s[k] == '_')
    && (forall k :: 0 <= k < |s| - 1 ==> s[k] != '_' || s[k + 1] != '_')
  }

  lemma NumeralIff(s: string)
    ensures IsNumeral(s) <==> Numeral(s)
  {
    ContainsIff(s, "__");
    if Numeral(s) {
      forall k: nat ensures !At(s, "__", k) {
        Two(s, '_', '_', k);
      }
    }
    if IsNumeral(s) {
      forall k | 0 <= k < |s| - 1 ensures s[k] != '_' || s[k + 1] != '_' {
        Two(s, '_', '_', k);
      }
    }
  }

  /** `int(s)`: the blanks at the ends and one sign aside, a numeral. */
  lemma IntAnswer(s: string)
    ensures var t := Strip(s);
            var signed := t != "" && t[0] in {'+', '-'};
            var digits := if signed then t[1..] else t;
            && (ReadInt(s).Some? <==> Numeral(digits))
            && (Numeral(digits) ==> ReadInt(s) == Some(if signed && t[0] == '-' then 0 - NumeralValue(digits) else NumeralValue(digits)))
  {
    var t := Strip(s);
    NumeralIff(t);
    if t != "" {
      NumeralIff(t[1..]);
    }
  }

  /** The value of a numeral, read digit by digit; underscores do not count. */
  lemma ValueAnswer(s: string, c: char)
    requires forall k :: 0 <= k < |s| ==> IsDigit(s[k]) || s[k] == '_'
    ensures NumeralValue("") == 0
    ensures '0' <= c <= '9' ==> NumeralValue(s + [c]) == 10 * NumeralValue(s) + (c as int - '0' as int)
    ensures c == '_' ==> NumeralValue(s + [c]) == NumeralValue(s)
  {
    assert (s + [c])[..|s|] == s;
  }
}
