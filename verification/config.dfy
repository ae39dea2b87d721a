/**
 * The configuration both transformers take: the input tab width and how
 * indentation and line ends are written on output.
 */
module Config {
  import opened Text

  datatype IndentType = Tab | Space

  datatype InputConfig = InputConfig(tabSize: nat)

  /** `tabSize` here is the number of spaces one output level is made of. */
  datatype OutputConfig = OutputConfig(indentType: IndentType, tabSize: nat, endOfLine: string)

  datatype Config = Config(input: InputConfig, output: OutputConfig)

  /**
   * The text of one output indentation level: `tabSize` spaces, or one tab.
   */
  function IndentChar(output: OutputConfig): (unit: string)
    ensures output.indentType == Space ==> |unit| == output.tabSize && forall k :: 0 <= k < |unit| ==> unit[k] == ' '
    ensures output.indentType == Tab ==> unit == "\t"
  {
    match output.indentType
    case Space => Repeat(" ", output.tabSize)
    case Tab => "\t"
  }

  /** `level` indentation units in a row; every character comes from the unit. */
  lemma IndentShape(output: OutputConfig, level: nat)
    ensures output.indentType == Space ==>
      |Repeat(IndentChar(output), level)| == output.tabSize * level && AllSpaces(Repeat(IndentChar(output), level))
    ensures output.indentType == Tab ==>
      |Repeat(IndentChar(output), level)| == level && forall k :: 0 <= k < level ==> Repeat(IndentChar(output), level)[k] == '\t'
  {
    var r := Repeat(IndentChar(output), level);
    if output.indentType == Space {
      forall k | 0 <= k < |r| ensures r[k] == ' ' {
        assert r[k] in IndentChar(output);
      }
    }
  }

  predicate AllSpaces(s: string) {
    forall k :: 0 <= k < |s| ==> s[k] == ' '
  }
}
