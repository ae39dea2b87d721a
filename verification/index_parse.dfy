/**
 * The indentation parser of `src/index.ts`: splitting the input into lines,
 * measuring each line's indentation, and giving it a nesting level from a
 * stack of indentation widths.
 */
module IndexParse {
  import opened Text
  import opened Config

  /**
   * One line of the working array. `rawExists` is false for the closing-brace
   * lines the transformer inserts; `modified` is the text that is finally output.
   */
  datatype Line = Line(
    rawExists: bool,
    isIgnorable: bool,
    raw: string,
    rawTrimmed: string,
    rawIndent: int,
    indentLevel: int,
    lineNo: int,
    modified: string,
    modifiedLineNo: int)

  /**
   * Measures the leading run of tabs and spaces: `count` is its width (a tab
   * counting `tabSize` columns) and `trimmed` is the rest of the line.
   */
  method CountIndent(raw: string, tabSize: nat) returns (count: nat, trimmed: string)
    ensures count == IndentWidth(raw, tabSize)
    ensures trimmed == raw[LeadingBlanks(raw)..]
    ensures trimmed == [] || !IsBlank(trimmed[0])
  {
    var countRaw := 0;
    count := 0;
    while countRaw < |raw| && IsBlank(raw[countRaw])
      invariant countRaw <= |raw|
      invariant AllBlank(raw[..countRaw])
      invariant count == BlankWidth(raw[..countRaw], tabSize)
    {
      assert raw[..countRaw + 1] == raw[..countRaw] + [raw[countRaw]];
      BlankWidthStep(raw[..countRaw], raw[countRaw], tabSize);
      if raw[countRaw] == '\t' {
        count := count + tabSize;
      } else {
        count := count + 1;
      }
      countRaw := countRaw + 1;
    }
    LeadingBlanksAt(raw, countRaw);
    trimmed := raw[countRaw..];
  }

  /** `/^[\t ]*\/\/.*\/`: the first characters after the indentation are `//`. */
  predicate IsLineComment(raw: string) {
    var rest := raw[LeadingBlanks(raw)..];
    |rest| >= 2 && rest[0] == '/' && rest[1] == '/'
  }

  /** `/^[\t ]*$/.test(raw) || /^[\t ]*\/\/.*\/.test(raw)`: blank lines and line comments take no part in nesting. */
  predicate IsIgnorableText(raw: string) {
    AllBlank(raw) || IsLineComment(raw)
  }

  /** A line is a comment exactly when some run of tabs and spaces it starts with is followed by `//`, as the pattern reads. */
  lemma LineCommentPattern(raw: string)
    ensures IsLineComment(raw) <==>
      exists i :: 0 <= i && i + 2 <= |raw| && AllBlank(raw[..i]) && raw[i] == '/' && raw[i + 1] == '/'
  {
    CommentAfterBlanks(raw);
    var n := LeadingBlanks(raw);
    if IsLineComment(raw) {
      assert raw[n..][0] == raw[n] && raw[n..][1] == raw[n + 1];
    }
  }

  /** A line is ignorable exactly when nothing, or `//`, follows its indentation. */
  lemma IgnorableRest(raw: string)
    ensures IsIgnorableText(raw) <==>
      var rest := raw[LeadingBlanks(raw)..]; rest == [] || (|rest| >= 2 && rest[0] == '/' && rest[1] == '/')
  {
    AllBlankIsLeading(raw);
  }

  /** A run of tabs and spaces the line starts with, followed by `/`, is its whole indentation. */
  lemma CommentAfterBlanks(raw: string)
    ensures AllBlank(raw[..LeadingBlanks(raw)])
    ensures forall i :: 0 <= i < |raw| && AllBlank(raw[..i]) && raw[i] == '/' ==> LeadingBlanks(raw) == i
  {
    forall i | 0 <= i < |raw| && AllBlank(raw[..i]) && raw[i] == '/'
      ensures LeadingBlanks(raw) == i
    {
      LeadingBlanksAt(raw, i);
    }
  }

  function Top(stack: seq<int>): int
    requires |stack| > 0
  {
    stack[|stack| - 1]
  }

  predicate StrictlyIncreasing(s: seq<int>) {
    forall a, b :: 0 <= a < b < |s| ==> s[a] < s[b]
  }

  /** `while (rawIndent < top) pop()`: drops the widths deeper than `w`, never below a width that is not. */
  function PopDeeper(stack: seq<int>, w: int): (r: seq<int>)
    ensures r <= stack
    ensures r == [] || Top(r) <= w
    ensures |stack| > 0 && stack[0] <= w ==> |r| > 0
    ensures forall k :: |r| <= k < |stack| ==> stack[k] > w
  {
    if |stack| > 0 && w < Top(stack) then PopDeeper(stack[..|stack| - 1], w) else stack
  }

  /** The stack after one line: a code line pushes a deeper width, then deeper widths are popped. */
  function NextStack(stack: seq<int>, raw: string, tabSize: nat): (next: seq<int>)
    requires |stack| > 0
    ensures stack[0] == 0 ==> |next| > 0 && next[0] == 0
  {
    if IsIgnorableText(raw) then stack
    else
      var w := IndentWidth(raw, tabSize);
      PopDeeper(if w > Top(stack) then stack + [w] else stack, w)
  }

  /**
   * One line keeps the stack non-empty and based at 0, adds at most one width,
   * leaves the stack alone for an ignorable line, and ends with a top no deeper
   * than a code line's own width.
   */
  lemma NextStackShape(stack: seq<int>, raw: string, tabSize: nat)
    requires |stack| > 0 && stack[0] == 0
    ensures var next := NextStack(stack, raw, tabSize);
      |next| > 0 && next[0] == 0 && |next| <= |stack| + 1
    ensures IsIgnorableText(raw) ==> NextStack(stack, raw, tabSize) == stack
    ensures !IsIgnorableText(raw) ==> Top(NextStack(stack, raw, tabSize)) <= IndentWidth(raw, tabSize)
  {
    if !IsIgnorableText(raw) {
      var w := IndentWidth(raw, tabSize);
      var pushed := if w > Top(stack) then stack + [w] else stack;
      var next := PopDeeper(pushed, w);
      assert next[0] == pushed[0];
    }
  }

  /**
   * A dedent to a width that is not on the stack pops past it: after widths 0
   * and `deep`, a line at width `w` between them leaves only `[0]`, so the next
   * line at the same width pushes again and is parsed one level deeper.
   */
  lemma DedentPastWidth(deep: int, first: string, second: string, tabSize: nat)
    requires !IsIgnorableText(first) && !IsIgnorableText(second)
    requires 0 < IndentWidth(first, tabSize) == IndentWidth(second, tabSize) < deep
    ensures NextStack([0, deep], first, tabSize) == [0]
    ensures NextStack([0], second, tabSize) == [0, IndentWidth(second, tabSize)]
  {
    var w := IndentWidth(first, tabSize);
    assert [0, deep][..1] == [0];
    assert PopDeeper([0, deep], w) == PopDeeper([0], w);
    assert PopDeeper([0, w], w) == [0, w];
  }

  /** One line keeps the stack strictly increasing. */
  lemma NextStackIncreasing(stack: seq<int>, raw: string, tabSize: nat)
    requires |stack| > 0 && StrictlyIncreasing(stack)
    ensures StrictlyIncreasing(NextStack(stack, raw, tabSize))
  {
    if !IsIgnorableText(raw) {
      var w := IndentWidth(raw, tabSize);
      var pushed := if w > Top(stack) then stack + [w] else stack;
      if w > Top(stack) {
        PushIncreasing(stack, w);
      }
      var next := PopDeeper(pushed, w);
      PrefixIncreasing(pushed, |next|);
      assert next == pushed[..|next|];
    }
  }

  /** Pushing a width above the top keeps a stack strictly increasing. */
  lemma PushIncreasing(stack: seq<int>, w: int)
    requires |stack| > 0 && StrictlyIncreasing(stack) && w > Top(stack)
    ensures StrictlyIncreasing(stack + [w])
  {
    var s := stack + [w];
    forall a, b | 0 <= a < b < |s|
      ensures s[a] < s[b]
    {
      if b == |stack| {
        assert s[a] == stack[a];
        if a < |stack| - 1 {
          assert stack[a] < stack[|stack| - 1];
        }
      }
    }
  }

  /** A prefix of a strictly increasing stack is strictly increasing. */
  lemma PrefixIncreasing(s: seq<int>, m: nat)
    requires m <= |s| && StrictlyIncreasing(s)
    ensures StrictlyIncreasing(s[..m])
  {
  }

  /** The line record made for input line `i`. */
  function ParsedLine(raw: string, i: nat, level: int, tabSize: nat): Line {
    Line(
      rawExists := true,
      isIgnorable := IsIgnorableText(raw),
      raw := raw,
      rawTrimmed := raw[LeadingBlanks(raw)..],
      rawIndent := IndentWidth(raw, tabSize),
      indentLevel := level,
      lineNo := i,
      modified := raw,
      modifiedLineNo := i)
  }

  /**
   * The record for a line splits it into its indentation, only tabs and spaces
   * and `rawIndent` columns wide, and `rawTrimmed`, which does not start with a
   * tab or a space; it is numbered `i`, and its output text is the line as read.
   */
  lemma ParsedLineSplit(raw: string, i: nat, level: int, tabSize: nat)
    ensures var line := ParsedLine(raw, i, level, tabSize);
      var n := |raw| - |line.rawTrimmed|;
      0 <= n && raw == raw[..n] + line.rawTrimmed && AllBlank(raw[..n]) && line.rawIndent == BlankWidth(raw[..n], tabSize) &&
      (line.rawTrimmed == [] || !IsBlank(line.rawTrimmed[0])) &&
      line.rawExists && line.raw == raw && line.modified == raw && line.indentLevel == level &&
      line.lineNo == i && line.modifiedLineNo == i
  {
    CommentAfterBlanks(raw);
  }

  /** What the parser holds after some lines: the indentation stack and the records made so far. */
  datatype ParseState = ParseState(stack: seq<int>, lines: seq<Line>)

  /**
   * The parser's state after the lines `raws`: each line moves the stack on and
   * adds its record, whose level is the new stack depth less one.
   */
  function Parsed(raws: seq<string>, tabSize: nat): (st: ParseState)
    ensures |st.stack| > 0 && st.stack[0] == 0
    ensures |st.lines| == |raws|
  {
    if raws == [] then ParseState([0], [])
    else
      var n := |raws| - 1;
      var before := Parsed(raws[..n], tabSize);
      var stack := NextStack(before.stack, raws[n], tabSize);
      ParseState(stack, before.lines + [ParsedLine(raws[n], n, |stack| - 1, tabSize)])
  }

  /** The parser's result: one record per input line. */
  function ParsedLines(raws: seq<string>, tabSize: nat): (lines: seq<Line>)
    ensures |lines| == |raws|
  {
    Parsed(raws, tabSize).lines
  }

  /** The indentation stack is strictly increasing after any lines. */
  lemma {:induction false} StackIncreasing(raws: seq<string>, tabSize: nat)
    ensures StrictlyIncreasing(Parsed(raws, tabSize).stack)
    decreases |raws|
  {
    if raws != [] {
      var n := |raws| - 1;
      StackIncreasing(raws[..n], tabSize);
      NextStackIncreasing(Parsed(raws[..n], tabSize).stack, raws[n], tabSize);
    }
  }

  /** Each parsed record is the record made for its own input line, at its level. */
  lemma {:induction false} ParsedRecords(raws: seq<string>, tabSize: nat)
    ensures var lines := ParsedLines(raws, tabSize);
      forall i :: 0 <= i < |lines| ==> lines[i] == ParsedLine(raws[i], i, lines[i].indentLevel, tabSize)
    decreases |raws|
  {
    if raws != [] {
      var n := |raws| - 1;
      var before := Parsed(raws[..n], tabSize);
      var level := |NextStack(before.stack, raws[n], tabSize)| - 1;
      ParsedRecords(raws[..n], tabSize);
      assert ParsedLines(raws, tabSize) == before.lines + [ParsedLine(raws[n], n, level, tabSize)];
      RecordsAppend(raws[..n], raws[n], before.lines, level, tabSize);
      assert raws[..n] + [raws[n]] == raws;
    }
  }

  /** Appending the record of the next input line keeps every record the record of its own line. */
  lemma RecordsAppend(pre: seq<string>, raw: string, before: seq<Line>, level: int, tabSize: nat)
    requires |before| == |pre|
    requires forall i :: 0 <= i < |before| ==> before[i] == ParsedLine(pre[i], i, before[i].indentLevel, tabSize)
    ensures var lines := before + [ParsedLine(raw, |pre|, level, tabSize)];
      forall i :: 0 <= i < |lines| ==> lines[i] == ParsedLine((pre + [raw])[i], i, lines[i].indentLevel, tabSize)
  {
  }

  /**
   * The parsed records are numbered from 0, keep each input line as both raw
   * and output text, and are ignorable exactly when the line is blank or a
   * line comment.
   */
  lemma ParsedFields(raws: seq<string>, tabSize: nat)
    ensures var lines := ParsedLines(raws, tabSize);
      forall i :: 0 <= i < |lines| ==>
        lines[i].rawExists && lines[i].lineNo == i && lines[i].modifiedLineNo == i &&
        lines[i].raw == raws[i] && lines[i].modified == raws[i] &&
        lines[i].isIgnorable == IsIgnorableText(raws[i]) &&
        lines[i].rawIndent == IndentWidth(raws[i], tabSize)
  {
    ParsedRecords(raws, tabSize);
  }

  /**
   * The parsed levels start at 0 or 1, never go negative, stay put across
   * ignorable lines and rise by at most one per line; the last record sits at
   * the stack depth less one.
   */
  lemma {:induction false} ParsedLevels(raws: seq<string>, tabSize: nat)
    ensures var st := Parsed(raws, tabSize); var lines := st.lines;
      (forall i :: 0 <= i < |lines| ==> lines[i].indentLevel >= 0) &&
      (|lines| > 0 ==> lines[0].indentLevel <= 1 && (lines[0].isIgnorable ==> lines[0].indentLevel == 0)) &&
      (forall i, j :: 0 <= i && j == i + 1 && j < |lines| ==>
        lines[j].indentLevel <= lines[i].indentLevel + 1 &&
        (lines[j].isIgnorable ==> lines[j].indentLevel == lines[i].indentLevel)) &&
      (|lines| > 0 ==> lines[|lines| - 1].indentLevel == |st.stack| - 1)
    decreases |raws|
  {
    if raws != [] {
      var n := |raws| - 1;
      ParsedLevels(raws[..n], tabSize);
      var before := Parsed(raws[..n], tabSize);
      NextStackShape(before.stack, raws[n], tabSize);
      var lines := Parsed(raws, tabSize).lines;
      assert lines == before.lines + [lines[n]];
      forall i | 0 <= i < n
        ensures lines[i] == before.lines[i]
      {
      }
    }
  }

  /** No line before `k` is code. */
  predicate CodeFree(raws: seq<string>, k: nat)
    requires k <= |raws|
  {
    forall t :: 0 <= t < k ==> IsIgnorableText(raws[t])
  }

  /** Until the first code line the stack stays `[0]`. */
  lemma {:induction false} StackAtZero(raws: seq<string>, tabSize: nat)
    requires CodeFree(raws, |raws|)
    ensures Parsed(raws, tabSize).stack == [0]
    decreases |raws|
  {
    if raws != [] {
      var n := |raws| - 1;
      assert CodeFree(raws[..n], n);
      StackAtZero(raws[..n], tabSize);
    }
  }

  /** From the empty stack a code line opens one level exactly when it is indented. */
  lemma NextFromZero(raw: string, tabSize: nat)
    requires !IsIgnorableText(raw)
    ensures |NextStack([0], raw, tabSize)| == if IndentWidth(raw, tabSize) > 0 then 2 else 1
  {
    var w := IndentWidth(raw, tabSize);
    if w > 0 {
      assert PopDeeper([0, w], w) == [0, w];
    }
  }

  /** The first code line is at level 0 when it is not indented and at level 1 when it is. */
  lemma {:induction false} FirstCodeLevel(raws: seq<string>, k: nat, tabSize: nat)
    requires k < |raws| && CodeFree(raws, k) && !IsIgnorableText(raws[k])
    ensures ParsedLines(raws, tabSize)[k].indentLevel == if IndentWidth(raws[k], tabSize) > 0 then 1 else 0
    decreases |raws|
  {
    var n := |raws| - 1;
    var pre := raws[..n];
    var before := Parsed(pre, tabSize);
    if k == n {
      assert CodeFree(pre, n);
      StackAtZero(pre, tabSize);
      var stack := NextStack([0], raws[n], tabSize);
      assert |stack| - 1 == if IndentWidth(raws[k], tabSize) > 0 then 1 else 0 by {
        NextFromZero(raws[n], tabSize);
      }
      assert ParsedLines(raws, tabSize)[k].indentLevel == |stack| - 1;
    } else {
      assert CodeFree(pre, k) && pre[k] == raws[k];
      FirstCodeLevel(pre, k, tabSize);
      assert ParsedLines(raws, tabSize)[k] == before.lines[k];
    }
  }

  /** Reading line `i` moves the state after `i` lines on by that line. */
  lemma ParsedStep(raws: seq<string>, i: nat, tabSize: nat)
    requires i < |raws|
    ensures var before := Parsed(raws[..i], tabSize);
      var stack := NextStack(before.stack, raws[i], tabSize);
      Parsed(raws[..i + 1], tabSize) == ParseState(stack, before.lines + [ParsedLine(raws[i], i, |stack| - 1, tabSize)])
  {
    var r := raws[..i + 1];
    assert |r| - 1 == i && r[..i] == raws[..i] && r[i] == raws[i];
  }

  /** Lines 62-68 of `parseLines`: push a deeper width, then pop every deeper width. */
  method PushPop(stack: seq<int>, rawIndent: nat) returns (indentStack: seq<int>)
    requires |stack| > 0 && stack[0] == 0
    ensures indentStack == PopDeeper(if rawIndent > Top(stack) then stack + [rawIndent] else stack, rawIndent)
  {
    indentStack := stack;
    if rawIndent > Top(indentStack) {
      indentStack := indentStack + [rawIndent];
    }
    ghost var pushed := indentStack;
    while rawIndent < Top(indentStack)
      invariant |indentStack| > 0 && indentStack[0] == 0
      invariant PopDeeper(indentStack, rawIndent) == PopDeeper(pushed, rawIndent)
      decreases |indentStack|
    {
      indentStack := indentStack[..|indentStack| - 1];
    }
  }

  /**
   * The body of the loop of `parseLines` for input line `i`: classify it, move
   * the stack on when it is a code line, and make its record.
   */
  method ParseLine(raw: string, i: nat, tabSize: nat, stack: seq<int>) returns (line: Line, indentStack: seq<int>)
    requires |stack| > 0 && stack[0] == 0
    ensures indentStack == NextStack(stack, raw, tabSize)
    ensures line == ParsedLine(raw, i, |indentStack| - 1, tabSize)
  {
    var rawIndent, trimmed := CountIndent(raw, tabSize);
    var isEmptyLine := AllBlank(raw);
    var isLineComment := IsLineComment(raw);
    var isIgnorable := isEmptyLine || isLineComment;
    indentStack := stack;
    if !isIgnorable {
      indentStack := PushPop(indentStack, rawIndent);
    }
    line := Line(true, isIgnorable, raw, trimmed, rawIndent, |indentStack| - 1, i, raw, i);
  }

  /** `parseLines`: builds the records in one pass, pushing and popping the indentation stack. */
  method ParseLines(content: string, config: Config) returns (lines: seq<Line>)
    ensures lines == ParsedLines(RawLines(content), config.input.tabSize)
  {
    var rawLines := RawLines(content);
    var tabSize := config.input.tabSize;
    lines := [];
    var indentStack := [0];
    var i := 0;
    while i < |rawLines|
      invariant i <= |rawLines|
      invariant ParseState(indentStack, lines) == Parsed(rawLines[..i], tabSize)
    {
      var line;
      ParsedStep(rawLines, i, tabSize);
      line, indentStack := ParseLine(rawLines[i], i, tabSize, indentStack);
      lines := lines + [line];
      i := i + 1;
    }
    assert rawLines[..i] == rawLines;
  }
}
