/**
 * What the output of `modifyLines` looks like: how long it is, where each
 * original code line ends up and which line number it is given, and how the
 * inserted closing lines balance the opening braces.
 */
module IndexProperties {
  import opened Wrappers
  import opened Text
  import opened IndexParse
  import opened IndexTransform

  // ---------------------------------------------------------------------------
  // Length and positions

  /** The closing lines for a drop of `count` levels number exactly `count`. */
  lemma ClosersLength(level: int, lineNo: int, count: int, indentChar: string)
    requires count <= 0 || count <= level
    ensures |Closers(level, lineNo, count, indentChar)| == (if count > 0 then count else 0)
  {
  }

  /** After `k` lines the reference holds those lines plus one closing line per level dropped so far. */
  lemma {:induction false} OutLength(L: seq<Line>, indentChar: string, k: nat)
    requires LevelsNonNegative(L) && k <= |L|
    ensures |OutUpTo(L, ProcessedAll(L, indentChar), k, k, indentChar)| == k + DropsBefore(L, k)
    decreases k
  {
    if k > 0 {
      var j := k - 1;
      OutLength(L, indentChar, j);
      var done := OutUpTo(L, ProcessedAll(L, indentChar), j, j, indentChar);
      var W := done + L[j..];
      if L[j].isIgnorable {
        IgnorableLineView(L, j, indentChar, done, W);
      } else {
        CodeLineView(L, j, indentChar, done, W);
        var prev := PrevNonIgnorable(W, |done|);
        var drop := DropSeen(W, |done|, prev);
        if drop > 0 {
          ClosersLength(W[prev.value].indentLevel, W[prev.value].lineNo, drop, indentChar);
        }
      }
    }
  }

  /** The main loop adds one closing line per level dropped between consecutive code lines. */
  lemma TransformedLength(L: seq<Line>, indentChar: string)
    requires LevelsNonNegative(L)
    ensures |Transformed(L, indentChar)| == |L| + DropsBefore(L, |L|)
  {
    OutLength(L, indentChar, |L|);
  }

  /** The segments of the first `m` lines start the segments of the first `n` lines. */
  lemma {:induction false} OutPrefix(L: seq<Line>, P: seq<Line>, m: nat, n: nat, b: nat, indentChar: string)
    requires m <= n <= |L| == |P| && LevelsNonNegative(L)
    ensures OutUpTo(L, P, m, b, indentChar) <= OutUpTo(L, P, n, b, indentChar)
    decreases n - m
  {
    if m < n {
      OutPrefix(L, P, m, n - 1, b, indentChar);
    }
  }

  /**
   * Two bounds give the same segments for the first `m` lines when every code
   * line among them is followed by a code line below both.
   */
  lemma {:induction false} BoundIrrelevant(L: seq<Line>, P: seq<Line>, m: nat, b: nat, c: nat, indentChar: string)
    requires m <= |L| == |P| && LevelsNonNegative(L) && b <= c
    requires forall j :: 0 <= j < m && !L[j].isIgnorable ==>
      NextNonIgnorable(L, j).Some? && NextNonIgnorable(L, j).value < b
    ensures OutUpTo(L, P, m, b, indentChar) == OutUpTo(L, P, m, c, indentChar)
    decreases m
  {
    if m > 0 {
      BoundIrrelevant(L, P, m - 1, b, c, indentChar);
      assert Due(L, m - 1, b) == Due(L, m - 1, c);
    }
  }

  /** Every code line before code line `k` is followed by a code line no later than `k`. */
  lemma NextWithin(L: seq<Line>, k: nat)
    requires k < |L| && !L[k].isIgnorable
    ensures forall j :: 0 <= j < k && !L[j].isIgnorable ==>
      NextNonIgnorable(L, j).Some? && NextNonIgnorable(L, j).value <= k
  {
    forall j | 0 <= j < k && !L[j].isIgnorable
      ensures NextNonIgnorable(L, j).Some? && NextNonIgnorable(L, j).value <= k
    {
      NextSkipsOnlyIgnorable(L, j);
    }
  }

  /**
   * Code line `k` ends up `DropsBefore(L, k + 1)` places further down, and its
   * new line number moves by exactly as much: for parsed input, where line
   * numbers are indices, a code line's `modifiedLineNo` is its index in the
   * array the main loop leaves.
   */
  lemma CodeLinePosition(L: seq<Line>, indentChar: string, k: nat)
    requires LevelsNonNegative(L) && k < |L| && !L[k].isIgnorable
    ensures var T := Transformed(L, indentChar);
      var pos := k + DropsBefore(L, k + 1);
      pos < |T| && T[pos] == ProcessedAll(L, indentChar)[k] &&
      T[pos].modifiedLineNo - L[k].lineNo == pos - k
  {
    var P := ProcessedAll(L, indentChar);
    var before := OutUpTo(L, P, k, |L|, indentChar);
    var seg := Segment(L, P, k, |L|, indentChar);
    assert OutUpTo(L, P, k + 1, |L|, indentChar) == before + seg;
    assert seg[0] == P[k];
    OutPrefix(L, P, k + 1, |L|, |L|, indentChar);
    PrefixAt(before, seg, Transformed(L, indentChar));
    CodeLineOffset(L, indentChar, k);
    ProcessedCode(L, k, indentChar);
  }

  /** The first element of `seg` sits at index `|before|` of any sequence `before + seg` begins. */
  lemma PrefixAt<T>(before: seq<T>, seg: seq<T>, whole: seq<T>)
    requires before + seg <= whole && |seg| > 0
    ensures |before| < |whole| && whole[|before|] == seg[0]
  {
    assert (before + seg)[|before|] == seg[0];
  }

  /** The lines before code line `k` in the array the main loop leaves number `k + DropsBefore(L, k + 1)`. */
  lemma CodeLineOffset(L: seq<Line>, indentChar: string, k: nat)
    requires LevelsNonNegative(L) && k < |L| && !L[k].isIgnorable
    ensures |OutUpTo(L, ProcessedAll(L, indentChar), k, |L|, indentChar)| == k + DropsBefore(L, k + 1)
  {
    BeforeCodeLine(L, indentChar, k);
    OutLength(L, indentChar, k + 1);
  }

  /**
   * The lines before code line `k` are the same whether the bound is `k + 1` or
   * the end, and line `k` adds just itself at bound `k + 1`.
   */
  lemma BeforeCodeLine(L: seq<Line>, indentChar: string, k: nat)
    requires LevelsNonNegative(L) && k < |L| && !L[k].isIgnorable
    ensures var P := ProcessedAll(L, indentChar);
      OutUpTo(L, P, k, |L|, indentChar) == OutUpTo(L, P, k, k + 1, indentChar) &&
      |OutUpTo(L, P, k + 1, k + 1, indentChar)| == |OutUpTo(L, P, k, k + 1, indentChar)| + 1
  {
    var P := ProcessedAll(L, indentChar);
    NextWithin(L, k);
    BoundIrrelevant(L, P, k, k + 1, |L|, indentChar);
    OutUpToNext(L, P, k, k + 1, indentChar);
    SegmentPlain(L, P, k, k + 1, indentChar);
  }

  // ---------------------------------------------------------------------------
  // Balance of braces

  /**
   * Levels as the parser assigns them: a line is at most one level deeper than
   * the line before it, and an ignorable line stays at that line's level.
   */
  predicate StepsUpByOne(L: seq<Line>) {
    forall i :: 0 < i < |L| ==>
      L[i].indentLevel <= L[i - 1].indentLevel + 1 && (L[i].isIgnorable ==> L[i].indentLevel == L[i - 1].indentLevel)
  }

  /** The first code line is not indented. */
  predicate FirstCodeAtTop(L: seq<Line>) {
    forall k :: 0 <= k < |L| && !L[k].isIgnorable && PrevNonIgnorable(L, k).None? ==> L[k].indentLevel == 0
  }

  /** How many of the first `m` lines open a block. */
  function OpenCount(L: seq<Line>, m: nat): nat
    requires m <= |L|
  {
    if m == 0 then 0 else OpenCount(L, m - 1) + (if Opens(L, m - 1) then 1 else 0)
  }

  /** The level of the last code line before `m` (0 when there is none). */
  function LastLevel(L: seq<Line>, m: nat): int
    requires m <= |L|
  {
    match PrevNonIgnorable(L, m)
    case None => 0
    case Some(p) => L[p].indentLevel
  }

  /** Whether the last code line before `m` opens a block. */
  predicate LastOpens(L: seq<Line>, m: nat)
    requires m <= |L|
  {
    match PrevNonIgnorable(L, m)
    case None => false
    case Some(p) => Opens(L, p)
  }

  /** A run of ignorable lines stays at the level of the line before it. */
  lemma {:induction false} IgnorableRun(L: seq<Line>, p: nat, t: nat)
    requires StepsUpByOne(L) && p <= t < |L|
    requires forall u :: p < u <= t ==> L[u].isIgnorable
    ensures L[t].indentLevel == L[p].indentLevel
    decreases t
  {
    if t > p {
      IgnorableRun(L, p, t - 1);
    }
  }

  /** A code line is at most one level deeper than the code line before it. */
  lemma CodeStepsUpByOne(L: seq<Line>, p: nat, m: nat)
    requires StepsUpByOne(L) && m < |L| && PrevNonIgnorable(L, m) == Some(p)
    ensures L[m].indentLevel <= L[p].indentLevel + 1
  {
    PrevSkipsOnlyIgnorable(L, m);
    IgnorableRun(L, p, m - 1);
  }

  /**
   * Counting blocks opened among the first `m` lines: each one is matched by a
   * level dropped before `m`, by a level the last code line is still at, or it
   * is the block the last code line itself opens.
   */
  lemma {:induction false} OpenBalance(L: seq<Line>, m: nat)
    requires LevelsNonNegative(L) && StepsUpByOne(L) && FirstCodeAtTop(L) && m <= |L|
    ensures OpenCount(L, m) == DropsBefore(L, m) + LastLevel(L, m) + (if LastOpens(L, m) then 1 else 0)
    decreases m
  {
    if m > 0 {
      var j := m - 1;
      OpenBalance(L, j);
      if !L[j].isIgnorable {
        match PrevNonIgnorable(L, j)
        case None =>
        case Some(p) =>
          CodeStepsUpByOne(L, p, j);
          NextPrevDual(L, p, j);
      }
    }
  }

  /** After the last code line nothing opens a block. */
  lemma LastDoesNotOpen(L: seq<Line>)
    ensures !LastOpens(L, |L|)
  {
    PrevSkipsOnlyIgnorable(L, |L|);
  }

  /**
   * The end-of-input step inserts as many lines as the level, when positive, of
   * the non-ignorable element it finds before the final one; in the array the
   * main loop leaves, that element can be a closing line the loop inserted.
   */
  lemma CloseAtEndLength(T: seq<Line>, indentChar: string)
    ensures |CloseAtEnd(T, indentChar)| == |T| +
      match PrevNonIgnorable(T, |T| - 1)
      case None => 0
      case Some(q) => if T[q].indentLevel > 0 then T[q].indentLevel else 0
  {
    match PrevNonIgnorable(T, |T| - 1)
    case None =>
    case Some(q) =>
      var C := Closers(T[q].indentLevel, T[q].lineNo, T[q].indentLevel, indentChar);
      assert CloseAtEnd(T, indentChar) == T[..q + 1] + C + T[q + 1..];
      ClosersLength(T[q].indentLevel, T[q].lineNo, T[q].indentLevel, indentChar);
  }

  /** The array the main loop leaves ends with the last input line. */
  lemma TransformedLast(L: seq<Line>, indentChar: string)
    requires LevelsNonNegative(L) && |L| > 0
    ensures var T := Transformed(L, indentChar);
      |T| > 0 && T[|T| - 1] == ProcessedAll(L, indentChar)[|L| - 1]
  {
    var P := ProcessedAll(L, indentChar);
    var n := |L| - 1;
    assert NextNonIgnorable(L, n).None?;
    SegmentPlain(L, P, n, |L|, indentChar);
    var before := OutUpTo(L, P, n, |L|, indentChar);
    assert Transformed(L, indentChar) == before + [P[n]];
    assert (before + [P[n]])[|before|] == P[n];
  }

  /** Without code lines in the input, the end-of-input step finds nothing. */
  lemma EndFindsNothing(L: seq<Line>, indentChar: string)
    requires LevelsNonNegative(L) && PrevNonIgnorable(L, |L|).None?
    ensures var T := Transformed(L, indentChar);
      PrevNonIgnorable(T, |T| - 1).None?
  {
    var P := ProcessedAll(L, indentChar);
    var T := Transformed(L, indentChar);
    ProcessedAligned(L, indentChar);
    PrevSkipsOnlyIgnorable(L, |L|);
    AllIgnorableOut(L, P, |L|, |L|, indentChar);
  }

  /**
   * When the input ends with an ignorable line and `c` is its last code line,
   * the end-of-input step finds line `c` in the array the main loop leaves.
   */
  lemma EndFindsLastCode(L: seq<Line>, indentChar: string, c: nat)
    requires LevelsNonNegative(L) && |L| > 0 && L[|L| - 1].isIgnorable
    requires PrevNonIgnorable(L, |L|) == Some(c)
    ensures var T := Transformed(L, indentChar);
      var q := PrevNonIgnorable(T, |T| - 1);
      q.Some? && T[q.value] == ProcessedAll(L, indentChar)[c]
  {
    var P := ProcessedAll(L, indentChar);
    var T := Transformed(L, indentChar);
    ProcessedAligned(L, indentChar);
    PrevSkipsOnlyIgnorable(L, |L|);
    assert NextNonIgnorable(L, c).None?;
    AfterPrev(L, P, c, |L|, |L|, indentChar);
    var pos := |OutUpTo(L, P, c, |L|, indentChar)|;
    TransformedLast(L, indentChar);
    assert T[pos] == P[c] && !T[pos].isIgnorable && T[|T| - 1].isIgnorable;
    PrevIs(T, |T| - 1, pos);
  }

  /**
   * When the input ends with an ignorable line (as text ending in a line break
   * does), the first code line is not indented and levels rise one at a time,
   * the output has exactly one line more than the input per block opened: one
   * closing line for each ` {`.
   */
  lemma BracesBalance(L: seq<Line>, indentChar: string)
    requires LevelsNonNegative(L) && StepsUpByOne(L) && FirstCodeAtTop(L)
    requires |L| > 0 && L[|L| - 1].isIgnorable
    ensures |CloseAtEnd(Transformed(L, indentChar), indentChar)| == |L| + OpenCount(L, |L|)
  {
    TransformedLength(L, indentChar);
    OpenBalance(L, |L|);
    LastDoesNotOpen(L);
    EndAddsLastLevel(L, indentChar);
  }

  /**
   * Why `BracesBalance` needs the first code line at the top: an indented first
   * code line opens no block, yet the end step closes its level. A code line at
   * level 1 followed by a blank line comes out as three lines, the last an
   * unmatched `}`, although no line opens a block.
   */
  lemma IndentedStartUnmatched(L: seq<Line>, indentChar: string)
    requires |L| == 2 && !L[0].isIgnorable && L[1].isIgnorable
    requires L[0].indentLevel == 1 && L[1].indentLevel == 1
    ensures OpenCount(L, 2) == 0
    ensures |CloseAtEnd(Transformed(L, indentChar), indentChar)| == 3
  {
    assert NextNonIgnorable(L, 1).None?;
    assert NextNonIgnorable(L, 0).None?;
    assert !Opens(L, 0) && !Opens(L, 1);
    assert OpenCount(L, 1) == 0;
    assert PrevNonIgnorable(L, 0).None?;
    assert Drop(L, 0) == 0 && Drop(L, 1) == 0;
    assert DropsBefore(L, 1) == 0;
    assert PrevNonIgnorable(L, 1) == Some(0);
    assert LastLevel(L, 2) == 1;
    TransformedLength(L, indentChar);
    EndAddsLastLevel(L, indentChar);
  }

  /** The end-of-input step inserts one closing line per level of the last code line of the input. */
  lemma EndAddsLastLevel(L: seq<Line>, indentChar: string)
    requires LevelsNonNegative(L) && |L| > 0 && L[|L| - 1].isIgnorable
    ensures |CloseAtEnd(Transformed(L, indentChar), indentChar)| == |Transformed(L, indentChar)| + LastLevel(L, |L|)
  {
    var T := Transformed(L, indentChar);
    CloseAtEndLength(T, indentChar);
    match PrevNonIgnorable(L, |L|)
    case None =>
      EndFindsNothing(L, indentChar);
    case Some(c) =>
      EndFindsLastCode(L, indentChar, c);
      ProcessedAligned(L, indentChar);
      assert T[PrevNonIgnorable(T, |T| - 1).value].indentLevel == L[c].indentLevel;
  }

  // ---------------------------------------------------------------------------
  // What the output holds

  /** The records that come from input lines, in order: the output without its closing lines. */
  function Originals(lines: seq<Line>): (r: seq<Line>)
    ensures |r| <= |lines|
    ensures forall t :: 0 <= t < |r| ==> r[t].rawExists
  {
    if lines == [] then []
    else
      var n := |lines| - 1;
      Originals(lines[..n]) + (if lines[n].rawExists then [lines[n]] else [])
  }

  /** A closing line: its level's indentation, then `}`. */
  predicate IsClosing(line: Line, indentChar: string) {
    line.indentLevel >= 0 && line.modified == Repeat(indentChar, line.indentLevel) + "}"
  }

  /** Every record that does not come from an input line is a closing line. */
  predicate ClosingShaped(lines: seq<Line>, indentChar: string) {
    forall t :: 0 <= t < |lines| && !lines[t].rawExists ==> IsClosing(lines[t], indentChar)
  }

  /** Removing the closing lines from two arrays in a row removes them from each. */
  lemma {:induction false} OriginalsAppend(a: seq<Line>, b: seq<Line>)
    ensures Originals(a + b) == Originals(a) + Originals(b)
    decreases |b|
  {
    if b == [] {
      assert a + b == a;
    } else {
      var n := |b| - 1;
      assert (a + b)[..|a + b| - 1] == a + b[..n];
      OriginalsAppend(a, b[..n]);
    }
  }

  /** An array of closing lines only holds no input line. */
  lemma {:induction false} NoOriginals(lines: seq<Line>)
    requires forall t :: 0 <= t < |lines| ==> !lines[t].rawExists
    ensures Originals(lines) == []
    decreases |lines|
  {
    if lines != [] {
      NoOriginals(lines[..|lines| - 1]);
    }
  }

  /** Two arrays whose added lines are closing lines make one. */
  lemma ShapedAppend(a: seq<Line>, b: seq<Line>, indentChar: string)
    requires ClosingShaped(a, indentChar) && ClosingShaped(b, indentChar)
    ensures ClosingShaped(a + b, indentChar)
  {
    forall t | 0 <= t < |a + b| && !(a + b)[t].rawExists
      ensures IsClosing((a + b)[t], indentChar)
    {
      if t >= |a| {
        assert (a + b)[t] == b[t - |a|];
      }
    }
  }

  /** Both parts of an array whose added lines are closing lines have that property. */
  lemma ShapedSplit(T: seq<Line>, i: nat, indentChar: string)
    requires i <= |T| && ClosingShaped(T, indentChar)
    ensures ClosingShaped(T[..i], indentChar) && ClosingShaped(T[i..], indentChar)
  {
    assert forall t :: 0 <= t < |T[i..]| ==> T[i..][t] == T[i + t];
  }

  /** The closing lines `insertClosingBrackets` makes are closing lines and no input line. */
  lemma ClosersContents(level: int, lineNo: int, count: int, indentChar: string)
    requires count <= 0 || count <= level
    ensures var C := Closers(level, lineNo, count, indentChar);
      Originals(C) == [] && ClosingShaped(C, indentChar)
  {
    NoOriginals(Closers(level, lineNo, count, indentChar));
  }

  /** Line `k` and the closing lines after it. */
  lemma SegmentContents(L: seq<Line>, P: seq<Line>, k: nat, b: nat, indentChar: string)
    requires k < |L| == |P| && LevelsNonNegative(L) && P[k].rawExists
    ensures var seg := Segment(L, P, k, b, indentChar);
      Originals(seg) == [P[k]] && ClosingShaped(seg, indentChar)
  {
    var extra := if Due(L, k, b) then ClosersAfter(L, k, indentChar) else [];
    assert Originals(extra) == [] && ClosingShaped(extra, indentChar) by {
      if Due(L, k, b) {
        var n := NextNonIgnorable(L, k).value;
        ClosersContents(L[k].indentLevel, L[k].lineNo, L[k].indentLevel - L[n].indentLevel, indentChar);
      }
    }
    assert Originals([P[k]]) == [P[k]] by {
      assert [P[k]][..0] == [];
    }
    OriginalsAppend([P[k]], extra);
    ShapedAppend([P[k]], extra, indentChar);
  }

  /** Without its closing lines, the array after `m` lines is the first `m` processed lines. */
  lemma {:induction false} OutOriginals(L: seq<Line>, P: seq<Line>, m: nat, b: nat, indentChar: string)
    requires m <= |L| == |P| && LevelsNonNegative(L)
    requires forall t :: 0 <= t < |P| ==> P[t].rawExists
    ensures Originals(OutUpTo(L, P, m, b, indentChar)) == P[..m]
    decreases m
  {
    if m > 0 {
      var k := m - 1;
      OutOriginals(L, P, k, b, indentChar);
      SegmentContents(L, P, k, b, indentChar);
      OriginalsAppend(OutUpTo(L, P, k, b, indentChar), Segment(L, P, k, b, indentChar));
      assert P[..m] == P[..k] + [P[k]];
    }
  }

  /** Every line the main loop adds after `m` lines is a closing line. */
  lemma {:induction false} OutShaped(L: seq<Line>, P: seq<Line>, m: nat, b: nat, indentChar: string)
    requires m <= |L| == |P| && LevelsNonNegative(L)
    requires forall t :: 0 <= t < |P| ==> P[t].rawExists
    ensures ClosingShaped(OutUpTo(L, P, m, b, indentChar), indentChar)
    decreases m
  {
    if m > 0 {
      var k := m - 1;
      OutShaped(L, P, k, b, indentChar);
      SegmentContents(L, P, k, b, indentChar);
      ShapedAppend(OutUpTo(L, P, k, b, indentChar), Segment(L, P, k, b, indentChar), indentChar);
    }
  }

  /** The end-of-input step only adds closing lines. */
  lemma CloseAtEndContents(T: seq<Line>, indentChar: string)
    requires ClosingShaped(T, indentChar)
    ensures var out := CloseAtEnd(T, indentChar);
      Originals(out) == Originals(T) && ClosingShaped(out, indentChar)
  {
    var found := PrevNonIgnorable(T, |T| - 1);
    if found.Some? {
      var p := found.value;
      var C := Closers(T[p].indentLevel, T[p].lineNo, T[p].indentLevel, indentChar);
      assert CloseAtEnd(T, indentChar) == T[..p + 1] + C + T[p + 1..];
      ClosersContents(T[p].indentLevel, T[p].lineNo, T[p].indentLevel, indentChar);
      SpliceContents(T, p + 1, C, indentChar);
    }
  }

  /** Splicing closing lines into an array at `i` adds no input line and keeps its added lines closing lines. */
  lemma SpliceContents(T: seq<Line>, i: nat, C: seq<Line>, indentChar: string)
    requires i <= |T| && ClosingShaped(T, indentChar)
    requires Originals(C) == [] && ClosingShaped(C, indentChar)
    ensures Originals(T[..i] + C + T[i..]) == Originals(T)
    ensures ClosingShaped(T[..i] + C + T[i..], indentChar)
  {
    SpliceOriginals(T[..i], C, T[i..]);
    assert T[..i] + T[i..] == T;
    ShapedSplit(T, i, indentChar);
    ShapedAppend(T[..i], C, indentChar);
    ShapedAppend(T[..i] + C, T[i..], indentChar);
  }

  /** Closing lines between two arrays leave the input lines of both. */
  lemma SpliceOriginals(front: seq<Line>, C: seq<Line>, back: seq<Line>)
    requires Originals(C) == []
    ensures Originals(front + C + back) == Originals(front + back)
  {
    OriginalsAppend(front + C, back);
    OriginalsAppend(front, C);
    OriginalsAppend(front, back);
  }

  /**
   * `modifyLines` only adds closing lines: removing them leaves the input
   * lines as the main loop processed them, in their order.
   */
  lemma OutputContents(L: seq<Line>, indentChar: string)
    requires LevelsNonNegative(L)
    requires forall t :: 0 <= t < |L| ==> L[t].rawExists
    ensures var out := CloseAtEnd(Transformed(L, indentChar), indentChar);
      Originals(out) == ProcessedAll(L, indentChar) && ClosingShaped(out, indentChar)
  {
    var P := ProcessedAll(L, indentChar);
    assert forall t :: 0 <= t < |P| ==> P[t].rawExists;
    OutOriginals(L, P, |L|, |L|, indentChar);
    OutShaped(L, P, |L|, |L|, indentChar);
    assert P[..|L|] == P;
    CloseAtEndContents(Transformed(L, indentChar), indentChar);
  }

  /**
   * The end-of-input step splices its closing lines in before the final
   * element, so the output still ends with the last input line.
   */
  lemma CloseAtEndKeepsLast(T: seq<Line>, indentChar: string)
    requires |T| > 0
    ensures var out := CloseAtEnd(T, indentChar);
      |out| > 0 && out[|out| - 1] == T[|T| - 1]
  {
    var found := PrevNonIgnorable(T, |T| - 1);
    if found.Some? {
      var p := found.value;
      var C := Closers(T[p].indentLevel, T[p].lineNo, T[p].indentLevel, indentChar);
      var back := T[p + 1..];
      assert CloseAtEnd(T, indentChar) == (T[..p + 1] + C) + back;
      assert back[|back| - 1] == T[|T| - 1];
    }
  }

  /** `modifyLines` returns an array whose final element is the last input line, processed. */
  lemma OutputEndsWithLast(L: seq<Line>, indentChar: string)
    requires LevelsNonNegative(L) && |L| > 0
    ensures var out := CloseAtEnd(Transformed(L, indentChar), indentChar);
      |out| > 0 && out[|out| - 1] == ProcessedAll(L, indentChar)[|L| - 1]
  {
    TransformedLast(L, indentChar);
    CloseAtEndKeepsLast(Transformed(L, indentChar), indentChar);
  }
}
