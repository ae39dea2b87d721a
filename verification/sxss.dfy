/**
 * `src/sxss.ts`: the class-based rewrite of the transformer. `Sxss.parse`
 * measures every line (blank ones included) against an indentation stack that
 * pops at most once per line and then overwrites its top with the line's
 * width; `join` prints each line re-indented at its level.
 */
module Sxss {
  import opened Wrappers
  import opened Text
  import opened Config

  /** One input line as `parse` records it. */
  datatype Line = Line(
    rawExists: bool,
    isIgnorable: bool,
    raw: string,
    rawIndentSpace: int,
    indentLevel: int,
    lineNo: int,
    content: string,
    contentLineNo: int)

  /**
   * Measures the leading run of tabs and spaces: `countChar` is its length and
   * `countSpace` its width, a tab counting `tabSize` columns.
   */
  method CountIndent(raw: string, tabSize: nat) returns (countChar: nat, countSpace: nat)
    ensures countChar == LeadingBlanks(raw)
    ensures countSpace == IndentWidth(raw, tabSize)
  {
    countChar, countSpace := 0, 0;
    while countChar < |raw| && IsBlank(raw[countChar])
      invariant countChar <= |raw|
      invariant AllBlank(raw[..countChar])
      invariant countSpace == BlankWidth(raw[..countChar], tabSize)
    {
      assert raw[..countChar + 1] == raw[..countChar] + [raw[countChar]];
      BlankWidthStep(raw[..countChar], raw[countChar], tabSize);
      if raw[countChar] == '\t' {
        countSpace := countSpace + tabSize;
      } else {
        countSpace := countSpace + 1;
      }
      countChar := countChar + 1;
    }
    LeadingBlanksAt(raw, countChar);
  }

  // ---------------------------------------------------------------------------
  // The indentation stack
  // ---------------------------------------------------------------------------

  /** The stack of widths seen and the current level. */
  datatype StackState = StackState(stack: seq<int>, level: int)

  function Last(stack: seq<int>): int
    requires |stack| > 0
  {
    stack[|stack| - 1]
  }

  /**
   * What one line of width `w` does: a deeper line pushes its width and goes
   * one level in; a shallower one pops (never the last element), goes one
   * level out and overwrites the top with its width. Afterwards the top is `w`,
   * the level has moved by at most one, and the level never exceeds the stack
   * depth less one.
   */
  function Step(st: StackState, w: int): (next: StackState)
    requires |st.stack| > 0
    ensures |next.stack| > 0 && Last(next.stack) == w
    ensures st.level - 1 <= next.level <= st.level + 1
    ensures st.level <= |st.stack| - 1 ==> next.level <= |next.stack| - 1
  {
    var top := Last(st.stack);
    if w > top then StackState(st.stack + [w], st.level + 1)
    else if w < top then
      var popped := if |st.stack| > 1 then st.stack[..|st.stack| - 1] else st.stack;
      StackState(popped[..|popped| - 1] + [w], st.level - 1)
    else st
  }

  /**
   * Lines 100-111 of `parse`, as written: push when deeper, then the dedent
   * loop, which runs at most once because it overwrites the top with `w`.
   */
  method Restack(stack: seq<int>, level: int, w: int) returns (indentStack: seq<int>, indentLevel: int)
    requires |stack| > 0
    ensures StackState(indentStack, indentLevel) == Step(StackState(stack, level), w)
  {
    indentStack, indentLevel := stack, level;
    if w > indentStack[|indentStack| - 1] {
      indentStack := indentStack + [w];
      indentLevel := indentLevel + 1;
    }
    ghost var pushed := indentStack;
    while w < indentStack[|indentStack| - 1]
      invariant |indentStack| > 0
      invariant indentStack == pushed ==> indentLevel == if w > Last(stack) then level + 1 else level
      invariant indentStack != pushed ==>
        w < Last(stack) && StackState(indentStack, indentLevel) == Step(StackState(stack, level), w)
      decreases if w < indentStack[|indentStack| - 1] then 1 else 0
    {
      assert indentStack == pushed && indentStack == stack;
      if |indentStack| > 1 {
        indentStack := indentStack[..|indentStack| - 1];
      }
      indentLevel := indentLevel - 1;
      indentStack := indentStack[..|indentStack| - 1] + [w];
      assert indentStack != pushed by {
        assert Last(indentStack) == w != Last(pushed);
      }
    }
  }

  // ---------------------------------------------------------------------------
  // Parsing, as a fold over the lines
  // ---------------------------------------------------------------------------

  /**
   * The record for input line `i` at `level`: the text after the indentation
   * is its content, and it is ignorable when that content is only tabs and
   * spaces.
   */
  function ParsedLine(raw: string, i: nat, level: int, tabSize: nat): Line {
    var content := raw[LeadingBlanks(raw)..];
    Line(
      rawExists := true,
      isIgnorable := AllBlank(content),
      raw := raw,
      rawIndentSpace := IndentWidth(raw, tabSize),
      indentLevel := level,
      lineNo := i,
      content := content,
      contentLineNo := i)
  }

  /**
   * The record for a line splits it into its indentation, only tabs and spaces
   * and `rawIndentSpace` columns wide, and its content, which does not start
   * with a tab or a space; it is ignorable exactly when the content is empty.
   */
  lemma ParsedLineSplit(raw: string, i: nat, level: int, tabSize: nat)
    ensures var line := ParsedLine(raw, i, level, tabSize);
      var n := |raw| - |line.content|;
      0 <= n && raw == raw[..n] + line.content && AllBlank(raw[..n]) && line.rawIndentSpace == BlankWidth(raw[..n], tabSize) &&
      (line.content == [] || !IsBlank(line.content[0])) && (line.isIgnorable <==> line.content == []) &&
      line.rawExists && line.raw == raw && line.indentLevel == level && line.lineNo == i && line.contentLineNo == i
  {
    var n := LeadingBlanks(raw);
    assert AllBlank(raw[..n]);
    BlankContentEmpty(raw);
  }

  /** The stack and the records after some lines. */
  datatype ParseState = ParseState(at: StackState, lines: seq<Line>)

  /** The state before any line. */
  const Start := StackState([0], 0)

  /** The state after the lines `raws`, each one stepping the stack at its width. */
  function Parsed(raws: seq<string>, tabSize: nat): (ps: ParseState)
    ensures |ps.at.stack| > 0 && ps.at.level <= |ps.at.stack| - 1
    ensures |ps.lines| == |raws|
  {
    if raws == [] then ParseState(Start, [])
    else
      var n := |raws| - 1;
      var before := Parsed(raws[..n], tabSize);
      var at := Step(before.at, IndentWidth(raws[n], tabSize));
      ParseState(at, before.lines + [ParsedLine(raws[n], n, at.level, tabSize)])
  }

  /** The records `parse` appends for the lines `raws`. */
  function ParsedLines(raws: seq<string>, tabSize: nat): (lines: seq<Line>)
    ensures |lines| == |raws|
  {
    Parsed(raws, tabSize).lines
  }

  /** Reading line `i` moves the state after `i` lines on by that line. */
  lemma ParsedStep(raws: seq<string>, i: nat, tabSize: nat)
    requires i < |raws|
    ensures var before := Parsed(raws[..i], tabSize);
      var at := Step(before.at, IndentWidth(raws[i], tabSize));
      Parsed(raws[..i + 1], tabSize) == ParseState(at, before.lines + [ParsedLine(raws[i], i, at.level, tabSize)])
  {
    var r := raws[..i + 1];
    assert |r| - 1 == i && r[..i] == raws[..i] && r[i] == raws[i];
  }

  /** Each parsed record is the record made for its own input line, at its level. */
  lemma {:induction false} ParsedRecords(raws: seq<string>, tabSize: nat)
    ensures var lines := ParsedLines(raws, tabSize);
      forall i :: 0 <= i < |lines| ==> lines[i] == ParsedLine(raws[i], i, lines[i].indentLevel, tabSize)
    decreases |raws|
  {
    if raws != [] {
      var n := |raws| - 1;
      var before := Parsed(raws[..n], tabSize);
      var level := Step(before.at, IndentWidth(raws[n], tabSize)).level;
      ParsedRecords(raws[..n], tabSize);
      assert ParsedLines(raws, tabSize) == before.lines + [ParsedLine(raws[n], n, level, tabSize)];
      RecordsAppend(raws[..n], raws[n], before.lines, level, tabSize);
      assert raws[..n] + [raws[n]] == raws;
    }
  }

  /** Appending the record of the next input line keeps every record the record of its own line. */
  lemma RecordsAppend(pre: seq<string>, raw: string, before: seq<Line>, level: int, tabSize: nat)
    requires |before| == |pre|
    requires forall i :: 0 <= i < |before| ==> before[i] == ParsedLine(pre[i], i, before[i].indentLevel, tabSize)
    ensures var lines := before + [ParsedLine(raw, |pre|, level, tabSize)];
      forall i :: 0 <= i < |lines| ==> lines[i] == ParsedLine((pre + [raw])[i], i, lines[i].indentLevel, tabSize)
  {
  }

  /** After the indentation, a text is only tabs and spaces exactly when nothing is left. */
  lemma BlankContentEmpty(raw: string)
    ensures AllBlank(raw[LeadingBlanks(raw)..]) <==> raw[LeadingBlanks(raw)..] == []
  {
    var n := LeadingBlanks(raw);
    if n < |raw| {
      assert raw[n..][0] == raw[n];
    }
  }

  /**
   * Every record is numbered after its input line, keeps the line as `raw`,
   * holds the line without its indentation as `content`, measures the
   * indentation's width, and is ignorable exactly when its content is empty.
   */
  lemma ParsedFields(raws: seq<string>, tabSize: nat)
    ensures var lines := ParsedLines(raws, tabSize);
      forall i :: 0 <= i < |lines| ==>
        lines[i].rawExists && lines[i].lineNo == i && lines[i].contentLineNo == i &&
        lines[i].raw == raws[i] && lines[i].content == raws[i][LeadingBlanks(raws[i])..] &&
        lines[i].rawIndentSpace == IndentWidth(raws[i], tabSize) &&
        (lines[i].isIgnorable <==> lines[i].content == [])
  {
    ParsedRecords(raws, tabSize);
    forall i | 0 <= i < |raws| ensures AllBlank(raws[i][LeadingBlanks(raws[i])..]) <==> raws[i][LeadingBlanks(raws[i])..] == [] {
      BlankContentEmpty(raws[i]);
    }
  }

  /**
   * The first record is at level 0 or 1, each later one at most one level
   * from the one before (blank lines included), and after the last line the
   * top of the stack is that line's width.
   */
  lemma {:induction false} ParsedLevels(raws: seq<string>, tabSize: nat)
    ensures var ps := Parsed(raws, tabSize); var lines := ps.lines;
      (|lines| > 0 ==> 0 <= lines[0].indentLevel <= 1) &&
      (forall i, j :: 0 <= i && j == i + 1 && j < |lines| ==>
        lines[i].indentLevel - 1 <= lines[j].indentLevel <= lines[i].indentLevel + 1) &&
      (|lines| > 0 ==>
        lines[|lines| - 1].indentLevel == ps.at.level && Last(ps.at.stack) == lines[|lines| - 1].rawIndentSpace)
    decreases |raws|
  {
    if raws != [] {
      var n := |raws| - 1;
      ParsedLevels(raws[..n], tabSize);
      var before := Parsed(raws[..n], tabSize);
      var lines := Parsed(raws, tabSize).lines;
      assert lines == before.lines + [lines[n]];
      forall i | 0 <= i < n
        ensures lines[i] == before.lines[i]
      {
      }
    }
  }

  /**
   * A dedent while the stack holds one width still lowers the level, so the
   * level goes negative: three lines each indented less than the one before
   * (four columns, then two, then none, say) end at level -1.
   */
  lemma NegativeLevel(raws: seq<string>, tabSize: nat)
    requires |raws| == 3
    requires IndentWidth(raws[0], tabSize) > IndentWidth(raws[1], tabSize) > IndentWidth(raws[2], tabSize)
    ensures ParsedLines(raws, tabSize)[2].indentLevel == -1
  {
    var w1 := IndentWidth(raws[1], tabSize);
    var before := Parsed(raws[..2], tabSize);
    assert before.at == StackState([w1], 0) by {
      DeeperThenShallower(raws, tabSize);
    }
    assert Step(before.at, IndentWidth(raws[2], tabSize)).level == -1;
    LastParsed(raws, tabSize);
  }

  /** The last record's level is the level after stepping the state before it by the last line's width. */
  lemma LastParsed(raws: seq<string>, tabSize: nat)
    requires |raws| > 0
    ensures var n := |raws| - 1;
      ParsedLines(raws, tabSize)[n].indentLevel == Step(Parsed(raws[..n], tabSize).at, IndentWidth(raws[n], tabSize)).level
  {
    var n := |raws| - 1;
    var before := Parsed(raws[..n], tabSize);
    assert ParsedLines(raws, tabSize) == before.lines + [ParsedLine(raws[n], n, Step(before.at, IndentWidth(raws[n], tabSize)).level, tabSize)];
  }

  /** A line indented deeper than the start, then a shallower one, leave the stack holding one width at level 0. */
  lemma DeeperThenShallower(raws: seq<string>, tabSize: nat)
    requires |raws| >= 2
    requires IndentWidth(raws[0], tabSize) > IndentWidth(raws[1], tabSize)
    ensures Parsed(raws[..2], tabSize).at == StackState([IndentWidth(raws[1], tabSize)], 0)
  {
    var first := Parsed(raws[..1], tabSize);
    assert first.at == StackState([0, IndentWidth(raws[0], tabSize)], 1) by {
      var q := raws[..1];
      assert |q| - 1 == 0 && q[..0] == [] && q[0] == raws[0];
      assert Parsed(q[..0], tabSize).at == Start;
    }
    var r := raws[..2];
    assert |r| - 1 == 1 && r[..1] == raws[..1] && r[1] == raws[1];
    assert Parsed(r, tabSize).at == Step(first.at, IndentWidth(raws[1], tabSize));
  }

  // ---------------------------------------------------------------------------
  // The class
  // ---------------------------------------------------------------------------

  /** `join`'s default line processor: the re-indented line unchanged. */
  function Unprocessed(indented: string, line: Line): string {
    indented
  }

  class Sxss {
    const config: Config
    const indentChar: string
    var lines: seq<Line>

    /** The indentation unit is the one `config.output` asks for. */
    ghost predicate Valid() {
      indentChar == IndentChar(config.output)
    }

    /** A fresh instance has no lines and indents by the unit `config.output` asks for. */
    constructor(config: Config)
      ensures Valid()
      ensures this.config == config && indentChar == IndentChar(config.output) && lines == []
    {
      this.config := config;
      indentChar := IndentChar(config.output);
      lines := [];
    }

    /**
     * `level` indentation units: `tabSize` spaces each, or one tab each.
     */
    function Indent(level: int): (r: string)
      requires level >= 0
      requires Valid()
      ensures config.output.indentType == Space ==> |r| == config.output.tabSize * level && AllSpaces(r)
      ensures config.output.indentType == Tab ==> |r| == level && forall k :: 0 <= k < |r| ==> r[k] == '\t'
    {
      IndentShape(config.output, level);
      Repeat(indentChar, level)
    }

    /** The last index before `i` that `condition` accepts, if any. */
    method FindPrevIndex(i: int, condition: int -> bool) returns (r: Option<int>)
      ensures r.Some? ==> 0 <= r.value < i && condition(r.value) && forall p :: r.value < p < i ==> !condition(p)
      ensures r.None? ==> forall p :: 0 <= p < i ==> !condition(p)
    {
      var p := i - 1;
      while p >= 0
        invariant p <= i - 1
        invariant forall q :: p < q < i ==> !condition(q)
        decreases p
      {
        if condition(p) {
          return Some(p);
        }
        p := p - 1;
      }
      return None;
    }

    /** The first index after `i` and before the end of `lines` that `condition` accepts, if any. */
    method FindNextIndex(i: int, condition: int -> bool) returns (r: Option<int>)
      ensures r.Some? ==> i < r.value < |lines| && condition(r.value) && forall n :: i < n < r.value ==> !condition(n)
      ensures r.None? ==> forall n :: i < n < |lines| ==> !condition(n)
    {
      var n := i + 1;
      while n < |lines|
        invariant n >= i + 1
        invariant forall q :: i < q < n ==> !condition(q)
        decreases |lines| - n
      {
        if condition(n) {
          return Some(n);
        }
        n := n + 1;
      }
      return None;
    }

    /** `parse`: appends one record per line of `content` and leaves the records already held alone. */
    method Parse(content: string)
      modifies this
      ensures lines == old(lines) + ParsedLines(RawLines(content), config.input.tabSize)
    {
      var tabSize := config.input.tabSize;
      var rawLines := RawLines(content);
      var indentStack := [0];
      var indentLevel := 0;
      ghost var start := lines;
      var i := 0;
      while i < |rawLines|
        invariant i <= |rawLines|
        invariant |start| <= |lines| && lines[..|start|] == start
        invariant Parsed(rawLines[..i], tabSize) == ParseState(StackState(indentStack, indentLevel), lines[|start|..])
      {
        var raw := rawLines[i];
        var countChar, countSpace := CountIndent(raw, tabSize);
        var trimmed := raw[countChar..];
        ParsedStep(rawLines, i, tabSize);
        indentStack, indentLevel := Restack(indentStack, indentLevel, countSpace);
        var line := Line(
          rawExists := true,
          isIgnorable := AllBlank(trimmed),
          raw := raw,
          rawIndentSpace := countSpace,
          indentLevel := indentLevel,
          lineNo := i,
          content := trimmed,
          contentLineNo := i);
        AppendRecord(start, lines, line);
        lines := lines + [line];
        i := i + 1;
      }
      assert rawLines[..i] == rawLines;
    }

    /** Each line printed: its content re-indented at its level, then passed through `lineProcessor`. */
    function Segments(lineProcessor: (string, Line) -> string): (segments: seq<string>)
      reads this
      requires Valid()
      requires forall k :: 0 <= k < |lines| ==> lines[k].indentLevel >= 0
      ensures |segments| == |lines|
    {
      var held := lines;
      seq(|held|, k requires 0 <= k < |held| && held[k].indentLevel >= 0 =>
        lineProcessor(Indent(held[k].indentLevel) + held[k].content, held[k]))
    }

    /**
     * `join`: the printed lines joined with the configured line end: nothing
     * without lines, otherwise every printed line plus one line end between
     * each two, starting with the first.
     */
    function Join(lineProcessor: (string, Line) -> string): (text: string)
      reads this
      requires Valid()
      requires forall k :: 0 <= k < |lines| ==> lines[k].indentLevel >= 0
      ensures |lines| == 0 ==> text == []
      ensures |lines| > 0 ==> Segments(lineProcessor)[0] <= text
      ensures |lines| > 0 ==> |text| == TotalLength(Segments(lineProcessor)) + |config.output.endOfLine| * (|lines| - 1)
    {
      JoinWith(Segments(lineProcessor), config.output.endOfLine)
    }
  }

  /** Appending one record keeps the records held before and adds it after the new ones. */
  lemma AppendRecord(start: seq<Line>, lines: seq<Line>, line: Line)
    requires |start| <= |lines| && lines[..|start|] == start
    ensures (lines + [line])[..|start|] == start && (lines + [line])[|start|..] == lines[|start|..] + [line]
  {
  }

  /**
   * After parsing a text into a fresh instance, joining with `\n` and the
   * default processor re-indents every line at its level and changes nothing
   * else: splitting the result gives, line by line, the indentation for its
   * level followed by the line without its old indentation.
   */
  lemma ParseJoinReindents(s: Sxss, content: string)
    requires s.Valid() && s.config.output.endOfLine == "\n"
    requires s.lines == ParsedLines(RawLines(content), s.config.input.tabSize)
    requires forall k :: 0 <= k < |s.lines| ==> s.lines[k].indentLevel >= 0
    ensures var raws := RawLines(content);
      |Split(s.Join(Unprocessed))| == |raws| &&
      forall k :: 0 <= k < |raws| ==>
        Split(s.Join(Unprocessed))[k] == s.Indent(s.lines[k].indentLevel) + raws[k][LeadingBlanks(raws[k])..]
  {
    var raws := RawLines(content);
    ParsedFields(raws, s.config.input.tabSize);
    SegmentsReindent(s, raws);
    SplitOfJoin(s.Segments(Unprocessed));
  }

  /**
   * With the default processor each printed line is the indentation for its
   * level followed by the content, and none holds a line feed.
   */
  lemma SegmentsReindent(s: Sxss, raws: seq<string>)
    requires s.Valid()
    requires |s.lines| == |raws| && |raws| >= 1
    requires forall k :: 0 <= k < |raws| ==> '\n' !in raws[k]
    requires forall k :: 0 <= k < |s.lines| ==> s.lines[k].indentLevel >= 0
    requires forall k :: 0 <= k < |s.lines| ==> s.lines[k].content == raws[k][LeadingBlanks(raws[k])..]
    ensures var segments := s.Segments(Unprocessed);
      NoLineFeed(segments) &&
      forall k :: 0 <= k < |raws| ==> segments[k] == s.Indent(s.lines[k].indentLevel) + raws[k][LeadingBlanks(raws[k])..]
  {
    var segments := s.Segments(Unprocessed);
    forall k | 0 <= k < |segments| ensures '\n' !in segments[k] {
      var level := s.lines[k].indentLevel;
      NoLineFeedIndent(s, level);
      NoLineFeedSuffix(raws[k], LeadingBlanks(raws[k]));
      var t := s.Indent(level) + s.lines[k].content;
      assert segments[k] == Unprocessed(t, s.lines[k]) == t;
      assert '\n' !in t by { assert t == s.Indent(level) + raws[k][LeadingBlanks(raws[k])..]; }
    }
  }

  /** A suffix of a text without line feeds has none either. */
  lemma NoLineFeedSuffix(t: string, n: nat)
    requires n <= |t| && '\n' !in t
    ensures '\n' !in t[n..]
  {
  }

  /** An indentation holds no line feed. */
  lemma NoLineFeedIndent(s: Sxss, level: int)
    requires level >= 0 && s.Valid()
    ensures '\n' !in s.Indent(level)
  {
    var r := s.Indent(level);
  }
}
