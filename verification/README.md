# insert-sb-to-sass: the line transformer, modelled in Dafny

This project models the core of `insert-sb-to-sass`. That core turns an
indentation-delimited stylesheet, where nesting is given only by
indentation, into a braces-and-semicolons stylesheet. Two core files are
modelled.

`src/index.ts` is the working transformer, `insertSb`:
- `parseLines` splits the text on `\n` and right-trims every line. It
  measures each line's indentation and gives every line a level from a stack
  of indentation widths. Blank lines and line comments are ignorable and do
  not move the stack.
- `modifyLines` walks a growing array of line records:
  - it re-indents each code line at its level;
  - it appends ` {` when the next code line is deeper;
  - when the previous code line is deeper, it splices one closing line per
    level dropped in right after that line;
  - it appends `;` when neither happened;
  - it renumbers the lines.
- After the loop, it searches back from the final element for the last
  non-ignorable element before it. That element may be a closing line the
  loop inserted. One closing line per level of that element goes in right
  after it, which is before the final element.
- `joinLines` joins the output texts with the configured line end.
- `insertSb` spreads the caller's options over the defaults.

`src/sxss.ts` is a class-based rewrite, `Sxss`:
- `parse` drives a different stack with every line, blank lines included.
  The stack pops at most once per line and then overwrites its top with the
  line's width, so levels can go negative.
- `join` prints each line re-indented at its level.
- `findPrevIndex` and `findNextIndex` are index searches.

Modules:
- `Wrappers`: `Option`.
- `Text`: the tab/space character class, leading-blank width, right-trim,
  split on `\n`, join, and repeat.
- `Config`: the configuration and the indentation unit (`getIndentChar`).
- `IndexParse`: `countIndent` and `parseLines`.
  - It keeps the record type as a datatype.
  - The parser's state is specified as a fold, `Parsed`, over the lines.
  - The methods `ParseLine`, `PushPop` and `ParseLines` keep the source's
    loops and are proved equal to the fold.
- `IndexTransform`: `modifyLines`.
  - The searches and `insertClosingBrackets` are loops over the working array.
  - The working array is a `seq` value that each step reassigns. A splice
    becomes a concatenation.
  - `ModifyLines` is proved equal to a reference given line by line:
    - `Processed`: what each original line becomes;
    - `Segment`: that line followed by the closing lines due after it;
    - `OutUpTo` and `Transformed`: the segments concatenated;
    - `CloseAtEnd`: the end-of-input step.
- `IndexProperties`: what the reference implies, such as positions, lengths
  and how braces balance.
- `Index`: the options merge, `joinLines`, `insertSb`, and whole-text
  properties.
- `Sxss`: `sxss.ts`.
  - Class `Sxss` has the fields `config` and `indentChar` and a `lines` field
    that `Parse` appends to.
  - The stack step is specified by `Step` and implemented by `Restack` with
    the source's dedent loop.

## Model

| member | source | states |
|---|---|---|
| Text.Split | src/index.ts:48 | `split('\n')`: at least one piece, no piece holds a line feed, and the pieces joined with `\n` give back the text |
| Text.SplitOfJoin | src/index.ts:48 | splitting line-feed-free pieces joined by `\n` gives the pieces back (split and join are inverse) |
| Text.JoinWith | src/index.ts:193 | `join`: nothing for no parts; otherwise the text starts with the first part and its length is the parts' total length plus one separator between each two |
| Text.JoinInjective | src/index.ts:48 | two line-feed-free lists that join to the same text are equal |
| Text.SplitCount | src/index.ts:48 | a text splits into one more piece than it has line feeds |
| Text.SplitTrailingFeed | src/index.ts:48 | a text ending in `\n` splits into its lines followed by one empty piece |
| Text.RawLines | src/index.ts:48 | one right-trimmed line per `\n`-piece, none containing a line feed |
| Text.TrimEnd | src/index.ts:48 | `trimEnd`: the result is a prefix, it does not end in whitespace, and everything cut off is whitespace |
| Text.LeadingBlanks | src/index.ts:29-39 | the length of the leading tab/space run; the character after it is not a tab or space |
| Text.LeadingBlanksAt | src/index.ts:29-39 | a run of blanks ended by a non-blank or by the end of the text is the leading run |
| Text.BlankWidthStep | src/index.ts:30-37 | a tab adds `tabSize` columns to the width and a space adds one |
| Text.Repeat | src/index.ts:102 | `repeat`: the length is the unit's length times the count, and every character comes from the unit |
| Text.RepeatAdd | src/index.ts:102 | repeating a+b times is repeating a times, then b times |
| Config.IndentChar | src/index.ts:87-94 | the indentation unit is `tabSize` spaces for `space` and one tab for `tab` |
| Config.IndentShape | src/index.ts:102 | `level` units are `tabSize * level` spaces, or `level` tabs |
| IndexParse.CountIndent | src/index.ts:26-45 | `count` is the width of the leading tab/space run; `trimmed` is the line without that run and does not start with a tab or space |
| IndexParse.PopDeeper | src/index.ts:66-68 | popping keeps a prefix and removes exactly the widths deeper than the width from the top: every width popped is deeper, the top left is no deeper, and a stack that starts at 0 is never emptied |
| IndexParse.DedentPastWidth | src/index.ts:61-69 | a dedent to a width between two stacked widths pops past it, so a second line at that same width pushes again and is one level deeper than the first |
| IndexParse.LineCommentPattern | src/index.ts:58 | a line is a comment exactly when some run of tabs and spaces it starts with is followed by `//`, as `/^[\t ]*\/\/.*/` reads |
| IndexParse.IgnorableRest | src/index.ts:57-59 | a line is ignorable (blank by `/^[\t ]*$/`, or a line comment) exactly when nothing or `//` follows its indentation |
| IndexParse.NextStack | src/index.ts:61-69 | one line's stack update keeps the stack based at 0 |
| IndexParse.NextStackShape | src/index.ts:61-69 | a line adds at most one width; an ignorable line leaves the stack alone; after a code line the top is no deeper than that line |
| IndexParse.NextStackIncreasing | src/index.ts:61-69 | one line keeps the stack strictly increasing |
| IndexParse.StackIncreasing | src/index.ts:51-82 | after any lines the stack is strictly increasing |
| IndexParse.Parsed | src/index.ts:51-82 | the fold over the lines: a stack based at 0 and one record per line |
| IndexParse.ParsedStep | src/index.ts:55-82 | reading line `i` moves the state after `i` lines on by exactly that line |
| IndexParse.ParsedLineSplit | src/index.ts:71-81 | a record splits its line into an indentation of only tabs and spaces, `rawIndent` columns wide, and `rawTrimmed`, which does not start with a tab or space; it is numbered `i` and its output text is the line as read |
| IndexParse.ParsedRecords | src/index.ts:71-81 | record `i` is the record built from input line `i` at its level |
| IndexParse.ParsedFields | src/index.ts:56-81 | records are numbered by index and keep the line as `raw` and `modified`; `isIgnorable` holds exactly for blank lines and line comments; `rawIndent` is the measured width |
| IndexParse.ParsedLevels | src/index.ts:51-82 | levels are never negative and the first is 0 or 1; each line is at most one level deeper than the one before; an ignorable line keeps the level before it; the last level is the stack depth less one |
| IndexParse.StackAtZero | src/index.ts:61-69 | until the first code line the stack stays `[0]` |
| IndexParse.NextFromZero | src/index.ts:62-68 | from `[0]` a code line opens one level exactly when it is indented |
| IndexParse.FirstCodeLevel | src/index.ts:61-77 | the first code line is at level 1 when indented and at level 0 otherwise |
| IndexParse.PushPop | src/index.ts:62-68 | the push and the pop loop compute the specified stack update |
| IndexParse.ParseLine | src/index.ts:56-81 | one loop pass yields the specified stack and record |
| IndexParse.ParseLines | src/index.ts:47-85 | `parseLines` returns exactly the records of the fold over the trimmed lines |
| IndexTransform.NextNonIgnorable | src/index.ts:104-108 | the line found is after `i`, in range and not ignorable |
| IndexTransform.NextSkipsOnlyIgnorable | src/index.ts:104-108 | every line skipped, or every line after `i` when nothing is found, is ignorable |
| IndexTransform.PrevNonIgnorable | src/index.ts:110-114 | the line found is before `i` and not ignorable |
| IndexTransform.PrevSkipsOnlyIgnorable | src/index.ts:110-114 | every line skipped, or every line before `i` when nothing is found, is ignorable |
| IndexTransform.NextPrevDual | src/index.ts:104-114 | `b` is the next code line after code line `j` exactly when `j` is the previous code line before code line `b` |
| IndexTransform.FindNextLine | src/index.ts:104-108 | the forward scan returns the first later code line, or nothing |
| IndexTransform.FindPrevLine | src/index.ts:110-114 | the backward scan returns the last earlier code line, or nothing |
| IndexTransform.InsertClosingBrackets | src/index.ts:116-132 | after `initialIndex` the array gains `delta` closing lines, one level shallower each; they are numbered `lineNo + j + 1` and written as indentation then `}`; nothing else changes |
| IndexTransform.ProcessedAll | src/index.ts:134-180 | what each original line becomes, one per line |
| IndexTransform.ProcessedCode | src/index.ts:144-179 | a code line is re-indented; it gains ` {` when the next code line is deeper and `;` when it neither opens nor drops; it is renumbered by the closing lines inserted up to and including its own |
| IndexTransform.ProcessedIgnorable | src/index.ts:137-139 | an ignorable line keeps its text and is only renumbered |
| IndexTransform.DropAfter | src/index.ts:160-168 | the closing lines before a code line number the levels it drops below the previous code line |
| IndexTransform.CodeLineOpens | src/index.ts:149-157 | the opening test on the working array agrees with the reference |
| IndexTransform.SearchesSee | src/index.ts:149-168 | in the working array both searches see the original neighbours of the code line |
| IndexTransform.LoopExit | src/index.ts:134-180 | when the main loop ends the array is the reference `Transformed` |
| IndexTransform.IgnorableLineMaintains | src/index.ts:137-139 | a pass over an ignorable line keeps the loop invariant |
| IndexTransform.CodeLineMaintains | src/index.ts:143-179 | a pass over a code line keeps the loop invariant |
| IndexTransform.ReindentAndOpen | src/index.ts:144-158 | the line is re-indented and gains ` {` exactly when the next code line is deeper |
| IndexTransform.CloseBefore | src/index.ts:160-173 | the closing lines number the levels dropped and are spliced in right after the previous code line |
| IndexTransform.ProcessCodeLine | src/index.ts:143-179 | one pass over a code line splices, rewrites and renumbers as specified |
| IndexTransform.ProcessLine | src/index.ts:134-180 | one pass of the main loop keeps the invariant |
| IndexTransform.CloseLastBlock | src/index.ts:182-187 | the end step finds the last non-ignorable element before the final one, possibly a closing line, and inserts one closing line per level of that element right after it, so before the final element |
| IndexTransform.ModifyLines | src/index.ts:96-190 | `modifyLines` returns the reference: the transformed array, then the end step |
| IndexTransform.ClosersShape | src/index.ts:118-130 | closing line `j` after a line at `level` is at level `level - j - 1`, never below 0, reads as that level's indentation and `}`, is numbered `lineNo + j + 1` and is not an input line |
| IndexProperties.ClosersLength | src/index.ts:116-132 | `delta` closing lines are inserted (none when `delta` is not positive) |
| IndexProperties.OutLength | src/index.ts:134-180 | after `k` lines the array holds `k` lines plus the closing lines inserted so far |
| IndexProperties.TransformedLength | src/index.ts:134-180 | the main loop adds exactly one line per level dropped |
| IndexProperties.OutPrefix | src/index.ts:134-180 | later passes only append to what earlier passes left |
| IndexProperties.BoundIrrelevant | src/index.ts:160-173 | closing lines after a code line depend only on the next code line |
| IndexProperties.NextWithin | src/index.ts:104-108 | every code line before code line `k` finds its next code line no later than `k` |
| IndexProperties.CodeLinePosition | src/index.ts:175-179 | code line `k` lands at index `k` plus the levels dropped up to it, and its new number moves by exactly as much |
| IndexProperties.CodeLineOffset | src/index.ts:160-179 | the lines before code line `k` in the result number `k` plus the levels dropped up to it |
| IndexProperties.BeforeCodeLine | src/index.ts:160-179 | nothing due after the lines before `k` changes once `k` itself is reached |
| IndexProperties.IgnorableRun | src/index.ts:61-77 | a run of ignorable lines stays at the level before it |
| IndexProperties.CodeStepsUpByOne | src/index.ts:61-77 | a code line is at most one level deeper than the previous code line |
| IndexProperties.OpenBalance | src/index.ts:149-173 | the blocks opened so far are matched by levels dropped, by the last code line's level, or by the block it opens itself |
| IndexProperties.LastDoesNotOpen | src/index.ts:149-157 | nothing after the last code line opens a block |
| IndexProperties.CloseAtEndLength | src/index.ts:182-187 | the end step adds as many lines as the level, when positive, of the non-ignorable element it finds before the final one, possibly a closing line |
| IndexProperties.TransformedLast | src/index.ts:134-180 | the array the loop leaves ends with the last input line |
| IndexProperties.EndFindsNothing | src/index.ts:182-187 | without code lines the end step finds nothing |
| IndexProperties.EndFindsLastCode | src/index.ts:182-187 | when the input ends with an ignorable line, the end step finds the last code line |
| IndexProperties.IndentedStartUnmatched | src/index.ts:134-187 | a code line at level 1 followed by a blank line opens no block, yet the output has three lines: the end step adds an unmatched closing line |
| IndexProperties.EndAddsLastLevel | src/index.ts:182-187 | then the end step adds one closing line per level of that code line |
| IndexProperties.BracesBalance | src/index.ts:134-187 | for input ending with an ignorable line, with levels rising one at a time and the first code line at the top, the output has one more line than the input per line that opens a block with ` {` |
| IndexProperties.Originals | src/index.ts:118-130 | the records of an array that come from input lines, in order; all of them are input lines |
| IndexProperties.ClosersContents | src/index.ts:116-132 | the lines `insertClosingBrackets` makes contain no input line and are all closing lines |
| IndexProperties.OutOriginals | src/index.ts:134-180 | removing the closing lines from the array after `m` lines leaves the first `m` processed input lines |
| IndexProperties.OutShaped | src/index.ts:134-180 | every line the main loop adds is a closing line: its level's indentation, then `}` |
| IndexProperties.CloseAtEndContents | src/index.ts:182-187 | the end step adds closing lines only and keeps the input lines and their order |
| IndexProperties.OutputContents | src/index.ts:134-187 | `modifyLines` only adds closing lines: without them the output is the processed input lines, in order |
| IndexProperties.CloseAtEndKeepsLast | src/index.ts:182-187 | the end step splices before the final element, so the array still ends with the same element |
| IndexProperties.OutputEndsWithLast | src/index.ts:134-187 | the output always ends with the last input line as processed, so nothing is closed after a final code line |
| Index.MergeConfig | src/index.ts:196-208 | without options the configuration is the default: tab width 2, two spaces per level, `\n` |
| Index.MergeFields | src/index.ts:196-208 | every setting is the option given for it, else its default |
| Index.MergeComplete | src/index.ts:196-208 | options that set everything give exactly that configuration |
| Index.Texts | src/index.ts:192-194 | one output text per line |
| Index.JoinLines | src/index.ts:192-194 | nothing for no lines; otherwise the text starts with the first line's output, and its length is all outputs plus one line end between each two lines |
| Index.JoinLinesSplit | src/index.ts:192-194 | with `\n` line ends and no line feed inside any output text, splitting the joined text gives each line's output text back |
| Index.Modified | src/index.ts:210-211 | the output has at least as many lines as the input text |
| Index.InsertSb | src/index.ts:196-215 | `insertSb` is merge, parse, transform, join |
| Index.ParsedShape | src/index.ts:47-85 | parsed levels are non-negative and rise one at a time, and an unindented first code line sits at the top level |
| Index.TopLevelStart | src/index.ts:61-77 | a code line with no code line before it is parsed at level 0 when unindented |
| Index.EndsWithBlankLine | src/index.ts:48 | a text ending in `\n` ends with an empty, ignorable line |
| Index.ParsedBracesBalance | src/index.ts:196-215 | for a text ending in `\n` whose first code line is unindented, the output adds exactly one closing line per line that opens a block with ` {`: without the closing lines it is the text's lines as processed, in order, and every closing line is its level's indentation followed by `}` |
| Index.NoCodeOut | src/index.ts:134-180 | without code lines the main loop moves no line |
| Index.NoCodeLines | src/index.ts:57-59 | a text of blank lines and comments parses to ignorable records only |
| Index.NoCodeNoPrev | src/index.ts:110-114 | among ignorable lines only, the backward search finds nothing |
| Index.NoCodeModified | src/index.ts:134-187 | without code lines neither the loop nor the end step changes the records' place or text |
| Index.NoCodeUnchanged | src/index.ts:196-215 | a text of blank lines and line comments comes back as its lines with trailing whitespace removed, joined by the configured line end; unchanged apart from trailing whitespace when the line end is `\n` |
| Index.EmptyUnchanged | src/index.ts:196-215 | the empty text comes back empty |
| Sxss.CountIndent | src/sxss.ts:23-42 | `countChar` is the length of the leading tab/space run and `countSpace` its width |
| Sxss.Step | src/sxss.ts:100-111 | after a line the stack's top is that line's width and is never empty; the level moves by at most one; the level never exceeds the stack depth less one |
| Sxss.Restack | src/sxss.ts:100-111 | the push and the dedent loop compute `Step`, so the loop body runs at most once |
| Sxss.Parsed | src/sxss.ts:92-123 | the fold over the lines: one record per line, a non-empty stack, and a level at most the stack depth less one |
| Sxss.ParsedStep | src/sxss.ts:96-123 | reading line `i` moves the state after `i` lines on by exactly that line |
| Sxss.ParsedLineSplit | src/sxss.ts:113-122 | a record splits its line into an indentation of only tabs and spaces, `rawIndentSpace` columns wide, and `content`, which does not start with a tab or space; it is ignorable exactly when `content` is empty |
| Sxss.ParsedRecords | src/sxss.ts:113-122 | record `i` is the record built from input line `i` at its level |
| Sxss.BlankContentEmpty | src/sxss.ts:98-115 | after the indentation is removed, a line is only tabs and spaces exactly when nothing is left |
| Sxss.ParsedFields | src/sxss.ts:96-122 | records are numbered by index; `content` is the line without its indentation; `rawIndentSpace` is its width; a record is ignorable exactly when its content is empty |
| Sxss.ParsedLevels | src/sxss.ts:94-111 | the first level is 0 or 1; consecutive levels differ by at most one, blank lines included; after the last line the stack's top is that line's width |
| Sxss.DeeperThenShallower | src/sxss.ts:100-111 | a deeper line followed by a shallower one leaves a one-width stack at level 0 |
| Sxss.NegativeLevel | src/sxss.ts:105-111 | three lines each indented less than the one before end at level -1 |
| Sxss.Sxss.constructor | src/sxss.ts:57-70 | a new instance has no lines and indents by `tabSize` spaces or a tab, as configured |
| Sxss.Sxss.Indent | src/sxss.ts:72-74 | `level` units: `tabSize * level` spaces, or `level` tabs |
| Sxss.Sxss.FindPrevIndex | src/sxss.ts:76-80 | the greatest index below `i` that the condition accepts, or nothing when no index from 0 to `i - 1` is accepted |
| Sxss.Sxss.FindNextIndex | src/sxss.ts:82-86 | the least index after `i` and before the end of `lines` that the condition accepts, or nothing when none is |
| Sxss.Sxss.Parse | src/sxss.ts:88-126 | the lines held before are kept, and one record per `\n`-piece of the text follows them |
| Sxss.Sxss.Segments | src/sxss.ts:179-185 | one printed line per record |
| Sxss.Sxss.Join | src/sxss.ts:179-187 | nothing without lines; otherwise the text starts with the first printed line, and its length is all printed lines plus one line end between each two |
| Sxss.SegmentsReindent | src/sxss.ts:179-185 | with the default processor each printed line is the indentation for its level followed by the content, and none holds a line feed |
| Sxss.ParseJoinReindents | src/sxss.ts:88-187 | parsing a text into a fresh instance and joining with `\n` re-indents every line at its level and changes nothing else |

## Left out

- The demo call at module load (src/index.ts:217-230) is left out: it prints through `console.log`.
- src/insert-sb.ts is not part of this model. It is a draft that writes fields the `Sxss` record does not have and treats index 0 as "not found".
- `Sxss.process` (src/sxss.ts:128-177) is not part of this model. It is a driver whose behaviour is defined by caller-supplied closures merged with object spread and `delete`.
- src/utils.ts is not part of this model, and neither is the build and lint tooling.
- The test files expect comment handling, the `=name`/`+name` mixin rewrites and a final `}` for a text whose last line is code. `src/index.ts` implements none of these, and the model follows the code.
- The end step searches from `lines.length - 1`, so it never looks at the final element. It finds the last non-ignorable element before it, which can be a closing line the main loop inserted, and puts that element's closing lines before the final element. When the final element is a code line, the blocks open at it are closed above it or not at all, and no `}` follows it (`IndexProperties.OutputEndsWithLast`). `BracesBalance` and `ParsedBracesBalance` therefore require the input to end with an ignorable line.
- `Index.ParsedBracesBalance`: states the count of closing lines, that they are the only lines added, and their text. It does not state that they nest properly, i.e. that no prefix of the output holds more closing lines than ` {` lines.
- `IndexProperties.CodeLinePosition` covers code lines only. An ignorable line is renumbered before any closing lines for it are spliced in above it, so its `modifiedLineNo` can lag behind its final index. The model keeps that value as written.
- Behaviour of the code worth noting:
  - A blank text yields one empty record, as `"".split('\n')` does, not an empty sequence.
  - An indented first code line opens no block, yet the end step closes its level: `"  a\n"` comes out as `"  a;\n}\n"` (`IndexProperties.IndentedStartUnmatched`). That is why `BracesBalance` requires `FirstCodeAtTop` and `ParsedBracesBalance` requires `FirstCodeUnindented`.
  - Closing lines are numbered `lineNo + j + 1` after the line they follow. They are not shifted by the running offset.
  - In `src/index.ts` a dedent only pops and never overwrites the top, so a dedent to a width that is not on the stack pops past it and two lines at the same indentation can get different levels (`IndexParse.DedentPastWidth`). Only `src/sxss.ts` overwrites the top, and there blank lines drive the stack too.
- Tab widths are `nat`. Negative or fractional `tabSize` values are not modelled.
- Regular-expression classes and `trimEnd` use an ASCII set of whitespace characters. Unicode whitespace is not modelled.
- In `insertSb`, an option left out is modelled. An option passed explicitly as `undefined`, which the spread copies over the default, is not.
- `Index.MergeConfig`: does not model `PartialDeep` values of other types. Options are typed here.
- JavaScript objects are shared and mutated in place (`line.modified = …` on an element of `lines`, `lines.splice`). Here records are values, and each step reassigns the working array. Aliasing between the record and the array is therefore not modelled. Nothing outside `modifyLines` observes that aliasing.
- The loop bodies of `parseLines` and `modifyLines` are separate methods (`ParseLine`, `PushPop`, `ProcessLine`, `ProcessCodeLine`, `ReindentAndOpen`, `CloseBefore`). The statements are the source's, in the same order.
- `Sxss.Sxss.FindPrevIndex` and `Sxss.Sxss.FindNextIndex`: the conditions are pure functions of the index. A closure that reads other state is not modelled. The default condition `() => true` is the function that accepts every index.
- `Sxss.Sxss.Indent` and `Sxss.Sxss.Join` require levels of at least 0, because `repeat` throws on a negative count. `parse` can produce negative levels (see `Sxss.NegativeLevel`). Joining such lines is an exception in the source and is not modelled.
- `Sxss.Sxss.constructor`: `config` and `indentChar` are `const` here. In the source they are public fields a caller could reassign; nothing in the source does, and such reassignment is not modelled.
- `Sxss.Sxss.Parse` returns nothing. The source returns `this` for chaining.
- `Sxss.Sxss.Join` takes a pure line processor. A processor with side effects is not modelled.
