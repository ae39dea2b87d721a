/**
 * The entry point of `src/index.ts`: the options merged over the defaults,
 * the output lines joined back into text, and `insertSb` running the parser,
 * the transformer and the join one after the other. The lemmas here follow a
 * text all the way through.
 */
module Index {
  import opened Wrappers
  import opened Text
  import opened Config
  import opened IndexParse
  import opened IndexTransform
  import opened IndexProperties

  // ---------------------------------------------------------------------------
  // Options and the configuration they give
  // ---------------------------------------------------------------------------

  /** Options as a caller passes them: every part may be left out. */
  datatype InputOptions = InputOptions(tabSize: Option<nat>)

  datatype OutputOptions = OutputOptions(indentType: Option<IndentType>, tabSize: Option<nat>, endOfLine: Option<string>)

  datatype Options = Options(input: Option<InputOptions>, output: Option<OutputOptions>)

  /** Tabs read as two columns; output indents two spaces per level and ends lines with `\n`. */
  const DefaultConfig := Config(InputConfig(2), OutputConfig(Space, 2, "\n"))

  /** The value given, or `fallback` when none is. */
  function Given<T>(o: Option<T>, fallback: T): T {
    match o
    case Some(v) => v
    case None => fallback
  }

  /** The input options given, with nothing set when the caller passed none. */
  function InputOf(options: Option<Options>): InputOptions {
    if options.Some? && options.value.input.Some? then options.value.input.value else InputOptions(None)
  }

  /** The output options given, with nothing set when the caller passed none. */
  function OutputOf(options: Option<Options>): OutputOptions {
    if options.Some? && options.value.output.Some? then options.value.output.value else OutputOptions(None, None, None)
  }

  /** The configuration `insertSb` builds: each given option spread over its default. */
  function MergeConfig(options: Option<Options>): (config: Config)
    ensures options.None? ==> config == DefaultConfig
  {
    var i := InputOf(options);
    var o := OutputOf(options);
    Config(
      InputConfig(Given(i.tabSize, DefaultConfig.input.tabSize)),
      OutputConfig(
        Given(o.indentType, DefaultConfig.output.indentType),
        Given(o.tabSize, DefaultConfig.output.tabSize),
        Given(o.endOfLine, DefaultConfig.output.endOfLine)))
  }

  /** Every setting is the option given for it, or its default when that option is left out. */
  lemma MergeFields(options: Option<Options>)
    ensures var c := MergeConfig(options); var i := InputOf(options); var o := OutputOf(options);
      (i.tabSize.Some? ==> c.input.tabSize == i.tabSize.value) &&
      (i.tabSize.None? ==> c.input.tabSize == 2) &&
      (o.indentType.Some? ==> c.output.indentType == o.indentType.value) &&
      (o.indentType.None? ==> c.output.indentType == Space) &&
      (o.tabSize.Some? ==> c.output.tabSize == o.tabSize.value) &&
      (o.tabSize.None? ==> c.output.tabSize == 2) &&
      (o.endOfLine.Some? ==> c.output.endOfLine == o.endOfLine.value) &&
      (o.endOfLine.None? ==> c.output.endOfLine == "\n")
  {
  }

  /** The options that set every part of `config`. */
  function FullOptions(config: Config): Options {
    Options(
      Some(InputOptions(Some(config.input.tabSize))),
      Some(OutputOptions(Some(config.output.indentType), Some(config.output.tabSize), Some(config.output.endOfLine))))
  }

  /** Options that set everything leave no default in place: any configuration can be asked for. */
  lemma MergeComplete(config: Config)
    ensures MergeConfig(Some(FullOptions(config))) == config
  {
  }

  // ---------------------------------------------------------------------------
  // Joining the output lines
  // ---------------------------------------------------------------------------

  /** The output text of each line. */
  function Texts(lines: seq<Line>): (texts: seq<string>)
    ensures |texts| == |lines|
  {
    seq(|lines|, k requires 0 <= k < |lines| => lines[k].modified)
  }

  /**
   * `joinLines`: the output texts joined with the configured line end. The text
   * starts with the first line's output and holds every output text plus one
   * line end between each two lines.
   */
  function JoinLines(lines: seq<Line>, config: Config): (text: string)
    ensures |lines| == 0 ==> text == []
    ensures |lines| > 0 ==> lines[0].modified <= text
    ensures |lines| > 0 ==> |text| == TotalLength(Texts(lines)) + |config.output.endOfLine| * (|lines| - 1)
  {
    JoinWith(Texts(lines), config.output.endOfLine)
  }

  /**
   * With `\n` line ends and no line feed inside any output text, splitting the
   * joined text gives back the output text of every line, in order.
   */
  lemma JoinLinesSplit(lines: seq<Line>, config: Config)
    requires config.output.endOfLine == "\n" && |lines| >= 1
    requires forall k :: 0 <= k < |lines| ==> '\n' !in lines[k].modified
    ensures Split(JoinLines(lines, config)) == Texts(lines)
  {
    SplitOfJoin(Texts(lines));
  }

  // ---------------------------------------------------------------------------
  // insertSb
  // ---------------------------------------------------------------------------

  /** The lines `insertSb` hands to `joinLines`: parsed, then transformed. */
  function Modified(content: string, config: Config): (lines: seq<Line>)
    ensures |lines| >= |RawLines(content)|
  {
    var raws := RawLines(content);
    var L := ParsedLines(raws, config.input.tabSize);
    ParsedLevels(raws, config.input.tabSize);
    var indentChar := IndentChar(config.output);
    TransformedLength(L, indentChar);
    CloseAtEndLength(Transformed(L, indentChar), indentChar);
    CloseAtEnd(Transformed(L, indentChar), indentChar)
  }

  /** The text `insertSb` returns. */
  function Inserted(content: string, config: Config): string {
    JoinLines(Modified(content, config), config)
  }

  /** `insertSb`: merge the options, parse, transform, join. */
  method InsertSb(content: string, options: Option<Options>) returns (inserted: string)
    ensures inserted == Inserted(content, MergeConfig(options))
  {
    var config := MergeConfig(options);
    var lines := ParseLines(content, config);
    ParsedLevels(RawLines(content), config.input.tabSize);
    var modifiedLines := ModifyLines(lines, config);
    inserted := JoinLines(modifiedLines, config);
  }

  // ---------------------------------------------------------------------------
  // Whole-text properties
  // ---------------------------------------------------------------------------

  /** The first code line of the text, if any, is not indented. */
  predicate FirstCodeUnindented(raws: seq<string>, tabSize: nat) {
    forall k :: 0 <= k < |raws| && !IsIgnorableText(raws[k]) && CodeFree(raws, k) ==> IndentWidth(raws[k], tabSize) == 0
  }

  /** The parsed levels rise one step at a time and the first code line sits at the top level. */
  lemma ParsedShape(raws: seq<string>, tabSize: nat)
    requires FirstCodeUnindented(raws, tabSize)
    ensures var L := ParsedLines(raws, tabSize);
      LevelsNonNegative(L) && StepsUpByOne(L) && FirstCodeAtTop(L)
  {
    var L := ParsedLines(raws, tabSize);
    ParsedLevels(raws, tabSize);
    assert StepsUpByOne(L) by {
      forall i | 0 < i < |L|
        ensures L[i].indentLevel <= L[i - 1].indentLevel + 1 && (L[i].isIgnorable ==> L[i].indentLevel == L[i - 1].indentLevel)
      {
        var h := i - 1;
        assert i == h + 1;
      }
    }
    forall k | 0 <= k < |L| && !L[k].isIgnorable && PrevNonIgnorable(L, k).None?
      ensures L[k].indentLevel == 0
    {
      TopLevelStart(raws, tabSize, k);
    }
  }

  /** A code line with no code line before it is parsed at level 0. */
  lemma TopLevelStart(raws: seq<string>, tabSize: nat, k: nat)
    requires FirstCodeUnindented(raws, tabSize)
    requires var L := ParsedLines(raws, tabSize); k < |L| && !L[k].isIgnorable && PrevNonIgnorable(L, k).None?
    ensures ParsedLines(raws, tabSize)[k].indentLevel == 0
  {
    var L := ParsedLines(raws, tabSize);
    ParsedFields(raws, tabSize);
    PrevSkipsOnlyIgnorable(L, k);
    assert CodeFree(raws, k) by {
      forall t | 0 <= t < k ensures IsIgnorableText(raws[t]) {
        assert L[t].isIgnorable;
      }
    }
    FirstCodeLevel(raws, k, tabSize);
  }

  /** A text ending in a line break ends with an empty, hence ignorable, line. */
  lemma EndsWithBlankLine(content: string)
    requires |content| > 0 && content[|content| - 1] == '\n'
    ensures var raws := RawLines(content); |raws| >= 2 && raws[|raws| - 1] == [] && IsIgnorableText(raws[|raws| - 1])
  {
    var t := content[..|content| - 1];
    assert content == t + "\n";
    SplitTrailingFeed(t);
  }

  /**
   * For a text that ends with a line break and whose first code line is not
   * indented, `insertSb` adds exactly one closing line per block it opens with
   * ` {`: removing the closing lines leaves the input lines as processed, in
   * their order, and every line added is indentation followed by `}`.
   */
  lemma ParsedBracesBalance(content: string, config: Config)
    requires |content| > 0 && content[|content| - 1] == '\n'
    requires FirstCodeUnindented(RawLines(content), config.input.tabSize)
    ensures var L := ParsedLines(RawLines(content), config.input.tabSize);
      var out := Modified(content, config);
      var indentChar := IndentChar(config.output);
      |out| == |L| + OpenCount(L, |L|) &&
      LevelsNonNegative(L) && Originals(out) == ProcessedAll(L, indentChar) &&
      ClosingShaped(out, indentChar)
  {
    var raws := RawLines(content);
    var L := ParsedLines(raws, config.input.tabSize);
    var indentChar := IndentChar(config.output);
    ParsedShape(raws, config.input.tabSize);
    ParsedFields(raws, config.input.tabSize);
    assert |Modified(content, config)| == |L| + OpenCount(L, |L|) by {
      EndsWithBlankLine(content);
      assert L[|L| - 1].isIgnorable;
      BracesBalance(L, indentChar);
    }
    OutputContents(L, indentChar);
  }

  /** Without code lines the main loop leaves every line where it is. */
  lemma {:induction false} NoCodeOut(L: seq<Line>, P: seq<Line>, m: nat, b: nat, indentChar: string)
    requires m <= |L| == |P| && LevelsNonNegative(L)
    requires forall t :: 0 <= t < |L| ==> L[t].isIgnorable
    ensures OutUpTo(L, P, m, b, indentChar) == P[..m]
    decreases m
  {
    if m > 0 {
      NoCodeOut(L, P, m - 1, b, indentChar);
      SegmentPlain(L, P, m - 1, b, indentChar);
      assert P[..m] == P[..m - 1] + [P[m - 1]];
    }
  }

  /** Without code lines neither the main loop nor the end-of-input step moves a line. */
  lemma NoCodeModified(content: string, config: Config)
    requires CodeFree(RawLines(content), |RawLines(content)|)
    ensures var L := ParsedLines(RawLines(content), config.input.tabSize);
      LevelsNonNegative(L) && Modified(content, config) == ProcessedAll(L, IndentChar(config.output))
  {
    var raws := RawLines(content);
    var L := ParsedLines(raws, config.input.tabSize);
    ParsedLevels(raws, config.input.tabSize);
    NoCodeLines(raws, config.input.tabSize);
    var indentChar := IndentChar(config.output);
    var P := ProcessedAll(L, indentChar);
    NoCodeOut(L, P, |L|, |L|, indentChar);
    assert PrevNonIgnorable(L, |L|).None? by {
      NoCodeNoPrev(L);
    }
    EndFindsNothing(L, indentChar);
  }

  /** A text without code lines parses to ignorable records only. */
  lemma NoCodeLines(raws: seq<string>, tabSize: nat)
    requires CodeFree(raws, |raws|)
    ensures var L := ParsedLines(raws, tabSize); forall t :: 0 <= t < |L| ==> L[t].isIgnorable
  {
    ParsedFields(raws, tabSize);
  }

  /** Among ignorable lines only, the backward search finds nothing. */
  lemma NoCodeNoPrev(L: seq<Line>)
    requires forall t :: 0 <= t < |L| ==> L[t].isIgnorable
    ensures PrevNonIgnorable(L, |L|).None?
  {
  }

  /**
   * A text made only of blank lines and line comments comes back as its lines
   * with their trailing whitespace removed, joined by the configured line end:
   * unchanged apart from trailing whitespace when the line end is `\n`.
   */
  lemma NoCodeUnchanged(content: string, config: Config)
    requires CodeFree(RawLines(content), |RawLines(content)|)
    ensures Inserted(content, config) == JoinWith(RawLines(content), config.output.endOfLine)
  {
    var raws := RawLines(content);
    var L := ParsedLines(raws, config.input.tabSize);
    NoCodeModified(content, config);
    ParsedFields(raws, config.input.tabSize);
    var P := ProcessedAll(L, IndentChar(config.output));
    assert Texts(P) == raws;
  }

  /** An empty text comes back empty. */
  lemma EmptyUnchanged(config: Config)
    ensures Inserted("", config) == ""
  {
    assert RawLines("") == [[]];
    assert CodeFree(RawLines(""), 1) by {
      assert IsIgnorableText(RawLines("")[0]);
    }
    NoCodeUnchanged("", config);
  }
}
