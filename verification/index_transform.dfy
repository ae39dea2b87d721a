/**
 * The syntax transformer of `src/index.ts` (`modifyLines`): appends ` {` or `;`
 * to code lines and splices synthetic `}` lines into the working array while
 * walking it.
 *
 * The loop is proved against `Transformed`, a reference that describes the
 * result line by line of the ORIGINAL array: each original line, rewritten,
 * followed (for a code line) by one closing line per level the next code line
 * is shallower.
 */
module IndexTransform {
  import opened Wrappers
  import opened Text
  import opened Config
  import opened IndexParse

  predicate LevelsNonNegative(lines: seq<Line>) {
    forall k :: 0 <= k < |lines| ==> lines[k].indentLevel >= 0
  }

  /** The first line after `i` that is not ignorable, if any. */
  function NextNonIgnorable(lines: seq<Line>, i: nat): (r: Option<nat>)
    ensures r.Some? ==> i < r.value < |lines| && !lines[r.value].isIgnorable
    decreases |lines| - i
  {
    if i + 1 >= |lines| then None
    else if !lines[i + 1].isIgnorable then Some(i + 1)
    else NextNonIgnorable(lines, i + 1)
  }

  /** Nothing between `i` and the line found, or after `i` when none is found, is code. */
  lemma {:induction false} NextSkipsOnlyIgnorable(lines: seq<Line>, i: nat)
    ensures var r := NextNonIgnorable(lines, i);
      (r.Some? ==> forall n :: i < n < r.value ==> lines[n].isIgnorable) &&
      (r.None? ==> forall n :: i < n < |lines| ==> lines[n].isIgnorable)
    decreases |lines| - i
  {
    if i + 1 < |lines| && lines[i + 1].isIgnorable {
      NextSkipsOnlyIgnorable(lines, i + 1);
    }
  }

  /** The last line before `i` that is not ignorable, if any. */
  function PrevNonIgnorable(lines: seq<Line>, i: int): (r: Option<nat>)
    requires i <= |lines|
    ensures r.Some? ==> r.value < i && !lines[r.value].isIgnorable
    decreases i
  {
    if i <= 0 then None
    else if !lines[i - 1].isIgnorable then Some(i - 1)
    else PrevNonIgnorable(lines, i - 1)
  }

  /** Nothing between the line found and `i`, or before `i` when none is found, is code. */
  lemma {:induction false} PrevSkipsOnlyIgnorable(lines: seq<Line>, i: int)
    requires i <= |lines|
    ensures var r := PrevNonIgnorable(lines, i);
      (r.Some? ==> forall p :: r.value < p < i ==> lines[p].isIgnorable) &&
      (r.None? ==> forall p :: 0 <= p < i ==> lines[p].isIgnorable)
    decreases i
  {
    if i > 0 && lines[i - 1].isIgnorable {
      PrevSkipsOnlyIgnorable(lines, i - 1);
    }
  }

  /** `findNextLine`: scans forward from `i + 1`. */
  method FindNextLine(lines: seq<Line>, i: nat) returns (found: Option<nat>)
    ensures found == NextNonIgnorable(lines, i)
  {
    var n := i + 1;
    while n < |lines|
      invariant i + 1 <= n
      invariant NextNonIgnorable(lines, i) == NextNonIgnorable(lines, n - 1)
    {
      if !lines[n].isIgnorable {
        return Some(n);
      }
      n := n + 1;
    }
    return None;
  }

  /** `findPrevLine`: scans backward from `i - 1`. */
  method FindPrevLine(lines: seq<Line>, i: int) returns (found: Option<nat>)
    requires i <= |lines|
    ensures found == PrevNonIgnorable(lines, i)
  {
    var p := i - 1;
    while p >= 0
      invariant p < i
      invariant PrevNonIgnorable(lines, i) == PrevNonIgnorable(lines, p + 1)
    {
      if !lines[p].isIgnorable {
        return Some(p);
      }
      p := p - 1;
    }
    return None;
  }

  /** The `j`-th closing line inserted after a line at `level`: one level shallower per step. */
  function ClosingLine(level: int, lineNo: int, j: nat, indentChar: string): Line
    requires level - j - 1 >= 0
  {
    Line(
      rawExists := false,
      isIgnorable := false,
      raw := "",
      rawTrimmed := "",
      rawIndent := 0,
      indentLevel := level - j - 1,
      lineNo := lineNo,
      modified := Repeat(indentChar, level - j - 1) + "}",
      modifiedLineNo := lineNo + j + 1)
  }

  /** The `count` closing lines inserted after a line at `level` (none when `count` is not positive). */
  function Closers(level: int, lineNo: int, count: int, indentChar: string): seq<Line>
    requires count <= 0 || count <= level
  {
    var n := if count > 0 then count else 0;
    seq(n, j requires 0 <= j < n => ClosingLine(level, lineNo, j, indentChar))
  }

  /**
   * The closing lines after a line at `level` (as many as `ClosersLength`
   * says) step down from `level - 1` one level at a time, never below 0; each is that level's indentation and `}`,
   * is numbered on from the line, and is made by the transform, not read.
   */
  lemma ClosersShape(level: int, lineNo: int, count: int, indentChar: string)
    requires count <= 0 || count <= level
    ensures var C := Closers(level, lineNo, count, indentChar);
      forall j :: 0 <= j < |C| ==>
        C[j].indentLevel == level - j - 1 >= 0 && C[j].modified == Repeat(indentChar, C[j].indentLevel) + "}" &&
        |C[j].modified| == |indentChar| * C[j].indentLevel + 1 &&
        !C[j].rawExists && !C[j].isIgnorable && C[j].modifiedLineNo == lineNo + j + 1
  {
  }

  /** `insertClosingBrackets`: splices the closing lines right after `initialIndex`. */
  method InsertClosingBrackets(lines: seq<Line>, initialIndex: nat, initialLine: Line, delta: int, indentChar: string)
    returns (result: seq<Line>)
    requires initialIndex < |lines|
    requires delta <= 0 || delta <= initialLine.indentLevel
    ensures result == lines[..initialIndex + 1]
      + Closers(initialLine.indentLevel, initialLine.lineNo, delta, indentChar)
      + lines[initialIndex + 1..]
  {
    result := lines;
    var j := 0;
    while j < delta
      invariant 0 <= j <= (if delta > 0 then delta else 0)
      invariant result == lines[..initialIndex + 1]
        + Closers(initialLine.indentLevel, initialLine.lineNo, j, indentChar)
        + lines[initialIndex + 1..]
    {
      var closing := ClosingLine(initialLine.indentLevel, initialLine.lineNo, j, indentChar);
      ghost var before := Closers(initialLine.indentLevel, initialLine.lineNo, j, indentChar);
      assert Closers(initialLine.indentLevel, initialLine.lineNo, j + 1, indentChar) == before + [closing];
      result := result[..initialIndex + 1 + j] + [closing] + result[initialIndex + 1 + j..];
      j := j + 1;
    }
    assert Closers(initialLine.indentLevel, initialLine.lineNo, j, indentChar)
        == Closers(initialLine.indentLevel, initialLine.lineNo, delta, indentChar);
  }

  // ---------------------------------------------------------------------------
  // The reference, in terms of the original array `L`

  /** How many levels code line `k` drops below the previous code line (0 for ignorable lines). */
  function Drop(L: seq<Line>, k: nat): nat
    requires k < |L|
  {
    if L[k].isIgnorable then 0
    else match PrevNonIgnorable(L, k)
      case None => 0
      case Some(p) => if L[k].indentLevel < L[p].indentLevel then L[p].indentLevel - L[k].indentLevel else 0
  }

  /** Code line `k` opens a block: the next code line is deeper. */
  predicate Opens(L: seq<Line>, k: nat)
    requires k < |L|
  {
    !L[k].isIgnorable &&
    match NextNonIgnorable(L, k)
    case None => false
    case Some(n) => L[k].indentLevel < L[n].indentLevel
  }

  /** Closing lines inserted while the first `m` lines are processed. */
  function DropsBefore(L: seq<Line>, m: nat): nat
    requires m <= |L|
  {
    if m == 0 then 0 else DropsBefore(L, m - 1) + Drop(L, m - 1)
  }

  /**
   * Original line `k` as the loop leaves it. An ignorable line keeps its text; a
   * code line is re-indented and gets ` {` when it opens a block, `;` when it
   * neither opens a block nor drops below the previous code line. Its new line
   * number counts the closing lines inserted so far.
   */
  function Processed(L: seq<Line>, k: nat, indentChar: string): Line
    requires k < |L| && L[k].indentLevel >= 0
  {
    var line := L[k];
    if line.isIgnorable then
      line.(modifiedLineNo := line.lineNo + DropsBefore(L, k))
    else
      var opens := Opens(L, k);
      line.(
        modified := CodeText(indentChar, line.indentLevel, line.rawTrimmed, opens, !opens && Drop(L, k) == 0),
        modifiedLineNo := line.lineNo + DropsBefore(L, k + 1))
  }

  /** A code line's new text: re-indented, then ` {` when it opens a block, then `;` for a property. */
  function CodeText(indentChar: string, level: nat, trimmed: string, opens: bool, isProperty: bool): string {
    var text := Repeat(indentChar, level) + trimmed;
    var text := if opens then text + " {" else text;
    if isProperty then text + ";" else text
  }

  /** Every original line as the loop leaves it. */
  function ProcessedAll(L: seq<Line>, indentChar: string): (P: seq<Line>)
    requires LevelsNonNegative(L)
    ensures |P| == |L|
  {
    seq(|L|, k requires 0 <= k < |L| => Processed(L, k, indentChar))
  }

  /** `P` keeps the kind, level and line number of every line of `L`. */
  predicate Aligned(L: seq<Line>, P: seq<Line>) {
    |P| == |L| &&
    forall t :: 0 <= t < |P| ==>
      P[t].isIgnorable == L[t].isIgnorable && P[t].indentLevel == L[t].indentLevel && P[t].lineNo == L[t].lineNo
  }

  /** The closing lines after code line `k` are due once the next code line lies below `bound`. */
  predicate Due(L: seq<Line>, k: nat, bound: nat)
    requires k < |L|
  {
    !L[k].isIgnorable && NextNonIgnorable(L, k).Some? && NextNonIgnorable(L, k).value < bound
  }

  /** One closing line per level the next code line is shallower than line `k`. */
  function ClosersAfter(L: seq<Line>, k: nat, indentChar: string): seq<Line>
    requires k < |L| && LevelsNonNegative(L) && NextNonIgnorable(L, k).Some?
  {
    var n := NextNonIgnorable(L, k).value;
    Closers(L[k].indentLevel, L[k].lineNo, L[k].indentLevel - L[n].indentLevel, indentChar)
  }

  /**
   * Line `k` of `P` followed by the closing lines that go after it, once they
   * are due (the lines at and beyond `bound` are not processed yet).
   */
  function Segment(L: seq<Line>, P: seq<Line>, k: nat, bound: nat, indentChar: string): seq<Line>
    requires k < |L| == |P| && LevelsNonNegative(L)
  {
    [P[k]] + (if Due(L, k, bound) then ClosersAfter(L, k, indentChar) else [])
  }

  /** The segments of the first `m` lines. */
  function OutUpTo(L: seq<Line>, P: seq<Line>, m: nat, bound: nat, indentChar: string): seq<Line>
    requires m <= |L| == |P| && LevelsNonNegative(L)
  {
    if m == 0 then [] else OutUpTo(L, P, m - 1, bound, indentChar) + Segment(L, P, m - 1, bound, indentChar)
  }

  /** One more line adds its segment. */
  lemma OutUpToNext(L: seq<Line>, P: seq<Line>, j: nat, bound: nat, indentChar: string)
    requires j < |L| == |P| && LevelsNonNegative(L)
    ensures OutUpTo(L, P, j + 1, bound, indentChar) == OutUpTo(L, P, j, bound, indentChar) + Segment(L, P, j, bound, indentChar)
  {
  }

  /** The working array when the main loop of `modifyLines` ends. */
  function Transformed(L: seq<Line>, indentChar: string): seq<Line>
    requires LevelsNonNegative(L)
  {
    OutUpTo(L, ProcessedAll(L, indentChar), |L|, |L|, indentChar)
  }

  /**
   * The end-of-input step: the search starts at the final element, so it finds
   * the last non-ignorable element before it, which may be a closing line the
   * main loop inserted; as many closing lines as that element's level are
   * inserted right after it, hence before the final element.
   */
  function CloseAtEnd(lines: seq<Line>, indentChar: string): seq<Line> {
    EndSplice(lines, PrevNonIgnorable(lines, |lines| - 1), indentChar)
  }

  /** The closing lines for every level of the element `found`, spliced in right after it. */
  function EndSplice(lines: seq<Line>, found: Option<nat>, indentChar: string): seq<Line>
    requires found.Some? ==> found.value < |lines|
  {
    if found.None? then lines
    else
      var p := found.value;
      lines[..p + 1] + Closers(lines[p].indentLevel, lines[p].lineNo, lines[p].indentLevel, indentChar) + lines[p + 1..]
  }

  // ---------------------------------------------------------------------------
  // Searching: facts used to follow the searches through the working array

  /** A code line with only ignorable lines between it and `i` is the code line before `i`. */
  lemma PrevIs(lines: seq<Line>, i: int, q: nat)
    requires q < i <= |lines| && !lines[q].isIgnorable
    requires forall t :: q < t < i ==> lines[t].isIgnorable
    ensures PrevNonIgnorable(lines, i) == Some(q)
  {
    PrevSkipsOnlyIgnorable(lines, i);
  }

  /** A code line with only ignorable lines between `i` and it is the code line after `i`. */
  lemma NextIs(lines: seq<Line>, i: nat, q: nat)
    requires i < q < |lines| && !lines[q].isIgnorable
    requires forall t :: i < t < q ==> lines[t].isIgnorable
    ensures NextNonIgnorable(lines, i) == Some(q)
  {
    NextSkipsOnlyIgnorable(lines, i);
  }

  /** Code line `b` follows code line `j` exactly when `j` precedes `b`. */
  lemma NextPrevDual(L: seq<Line>, j: nat, b: nat)
    requires j < b < |L|
    ensures (!L[j].isIgnorable && NextNonIgnorable(L, j) == Some(b))
        <==> (!L[b].isIgnorable && PrevNonIgnorable(L, b) == Some(j))
  {
    NextSkipsOnlyIgnorable(L, j);
    PrevSkipsOnlyIgnorable(L, b);
    if !L[j].isIgnorable && NextNonIgnorable(L, j) == Some(b) {
      PrevIs(L, b, j);
    }
    if !L[b].isIgnorable && PrevNonIgnorable(L, b) == Some(j) {
      NextIs(L, j, b);
    }
  }

  /** Searching forward from `i` in `W` is searching forward from `k` in `L` when the tails agree. */
  lemma NextShift(W: seq<Line>, i: nat, L: seq<Line>, k: nat)
    requires i < |W| && k < |L| && W[i..] == L[k..]
    ensures NextNonIgnorable(W, i) ==
      match NextNonIgnorable(L, k)
      case None => None
      case Some(n) => Some(n - k + i)
  {
    forall t | i <= t < |W|
      ensures W[t] == L[t - i + k]
    {
      assert W[t] == W[i..][t - i];
    }
    NextSkipsOnlyIgnorable(L, k);
    NextSkipsOnlyIgnorable(W, i);
    match NextNonIgnorable(L, k)
    case None =>
    case Some(n) =>
      NextIs(W, i, n - k + i);
  }

  // ---------------------------------------------------------------------------
  // The reference's shape, for any `P` aligned with `L`

  /** The processed lines keep kind, level and line number. */
  lemma ProcessedAligned(L: seq<Line>, indentChar: string)
    requires LevelsNonNegative(L)
    ensures Aligned(L, ProcessedAll(L, indentChar))
  {
  }

  /** Every line made from ignorable lines only is ignorable. */
  lemma {:induction false} AllIgnorableOut(L: seq<Line>, P: seq<Line>, m: nat, b: nat, indentChar: string)
    requires m <= |L| && Aligned(L, P) && LevelsNonNegative(L)
    requires forall t :: 0 <= t < m ==> L[t].isIgnorable
    ensures forall t :: 0 <= t < |OutUpTo(L, P, m, b, indentChar)| ==> OutUpTo(L, P, m, b, indentChar)[t].isIgnorable
    decreases m
  {
    if m > 0 {
      AllIgnorableOut(L, P, m - 1, b, indentChar);
    }
  }

  /**
   * Behind code line `p` whose closing lines are not yet due, the reference holds
   * `P[p]` itself followed only by ignorable lines.
   */
  lemma {:induction false} AfterPrev(L: seq<Line>, P: seq<Line>, p: nat, m: nat, b: nat, indentChar: string)
    requires p < m <= b <= |L| && Aligned(L, P) && LevelsNonNegative(L)
    requires !L[p].isIgnorable && forall t :: p < t < m ==> L[t].isIgnorable
    requires NextNonIgnorable(L, p).None? || NextNonIgnorable(L, p).value >= b
    ensures var S := OutUpTo(L, P, m, b, indentChar);
      var pos := |OutUpTo(L, P, p, b, indentChar)|;
      pos < |S| && S[pos] == P[p] &&
      forall t :: pos < t < |S| ==> S[t].isIgnorable
    decreases m
  {
    SegmentPlain(L, P, m - 1, b, indentChar);
    if m > p + 1 {
      AfterPrev(L, P, p, m - 1, b, indentChar);
    }
  }

  /** A segment whose closing lines are not due is the line alone. */
  lemma SegmentPlain(L: seq<Line>, P: seq<Line>, k: nat, b: nat, indentChar: string)
    requires k < |L| == |P| && LevelsNonNegative(L)
    requires L[k].isIgnorable || NextNonIgnorable(L, k).None? || NextNonIgnorable(L, k).value >= b
    ensures Segment(L, P, k, b, indentChar) == [P[k]]
  {
    assert !Due(L, k, b);
  }

  /** Splicing `C` after position `pos` commutes with appending `tail`. */
  lemma SpliceAppend(S: seq<Line>, pos: nat, C: seq<Line>, tail: seq<Line>)
    requires pos < |S|
    ensures (S[..pos + 1] + C + S[pos + 1..]) + tail == (S + tail)[..pos + 1] + C + (S + tail)[pos + 1..]
  {
    assert (S + tail)[..pos + 1] == S[..pos + 1];
    assert (S + tail)[pos + 1..] == S[pos + 1..] + tail;
  }

  /** Splicing `C` after position `pos` of `S` survives appending `seg` to both sides. */
  lemma SpliceExtend(Sm: seq<Line>, Smb: seq<Line>, S: seq<Line>, Sb: seq<Line>, seg: seq<Line>, pos: nat, C: seq<Line>)
    requires pos < |S| && Sb == S[..pos + 1] + C + S[pos + 1..] && Sm == S + seg && Smb == Sb + seg
    ensures pos < |Sm| && Smb == Sm[..pos + 1] + C + Sm[pos + 1..]
  {
    SpliceAppend(S, pos, C, seg);
  }

  /** The closing lines of code line `j` become due when the bound passes the next code line `b`. */
  lemma SegmentDue(L: seq<Line>, P: seq<Line>, j: nat, b: nat, indentChar: string)
    requires j < b < |L| == |P| && LevelsNonNegative(L)
    requires !L[j].isIgnorable && NextNonIgnorable(L, j) == Some(b)
    ensures Segment(L, P, j, b, indentChar) == [P[j]]
    ensures Segment(L, P, j, b + 1, indentChar) == [P[j]]
      + Closers(L[j].indentLevel, L[j].lineNo, L[j].indentLevel - L[b].indentLevel, indentChar)
  {
    assert !Due(L, j, b) && Due(L, j, b + 1);
  }

  /** Dueness only changes when the bound passes the next code line. */
  lemma DueStep(L: seq<Line>, j: nat, b: nat)
    requires j < |L|
    requires L[j].isIgnorable || NextNonIgnorable(L, j) != Some(b)
    ensures Due(L, j, b + 1) == Due(L, j, b)
  {
    var r := NextNonIgnorable(L, j);
    if !L[j].isIgnorable && r.Some? {
      assert r.value != b;
      assert Due(L, j, b) == (r.value < b);
      assert Due(L, j, b + 1) == (r.value < b + 1);
    }
  }

  /** Otherwise raising the bound past `b` leaves the segment of line `j` alone. */
  lemma SegmentUnchanged(L: seq<Line>, P: seq<Line>, j: nat, b: nat, indentChar: string)
    requires j < |L| == |P| && LevelsNonNegative(L)
    requires L[j].isIgnorable || NextNonIgnorable(L, j) != Some(b)
    ensures Segment(L, P, j, b + 1, indentChar) == Segment(L, P, j, b, indentChar)
  {
    DueStep(L, j, b);
  }

  /**
   * Raising the bound from `b` to `b + 1` changes nothing among the first `m`
   * lines unless the code line before code line `b` is one of them.
   */
  lemma {:induction false} BoundStepUnchanged(L: seq<Line>, P: seq<Line>, m: nat, b: nat, indentChar: string)
    requires m <= b < |L| == |P| && LevelsNonNegative(L)
    requires L[b].isIgnorable || PrevNonIgnorable(L, b).None? || PrevNonIgnorable(L, b).value >= m
    ensures OutUpTo(L, P, m, b + 1, indentChar) == OutUpTo(L, P, m, b, indentChar)
    decreases m
  {
    if m > 0 {
      BoundStepUnchanged(L, P, m - 1, b, indentChar);
      NextPrevDual(L, m - 1, b);
      SegmentUnchanged(L, P, m - 1, b, indentChar);
    }
  }

  /** The first step of `BoundStep`: the closers go right after `p`, at the end. */
  lemma BoundStepBase(L: seq<Line>, P: seq<Line>, p: nat, b: nat, indentChar: string)
    requires p < b < |L| == |P| && LevelsNonNegative(L)
    requires !L[b].isIgnorable && PrevNonIgnorable(L, b) == Some(p)
    ensures var S := OutUpTo(L, P, p + 1, b, indentChar);
      var pos := |OutUpTo(L, P, p, b, indentChar)|;
      pos < |S| &&
      OutUpTo(L, P, p + 1, b + 1, indentChar) == S[..pos + 1]
        + Closers(L[p].indentLevel, L[p].lineNo, L[p].indentLevel - L[b].indentLevel, indentChar)
        + S[pos + 1..]
  {
    var S := OutUpTo(L, P, p + 1, b, indentChar);
    var pos := |OutUpTo(L, P, p, b, indentChar)|;
    NextPrevDual(L, p, b);
    BoundBaseBefore(L, P, p, b, indentChar);
    BoundBaseAfter(L, P, p, b, indentChar);
    SpliceAtEnd(OutUpTo(L, P, p + 1, b + 1, indentChar), S, OutUpTo(L, P, p, b, indentChar), P[p],
      Closers(L[p].indentLevel, L[p].lineNo, L[p].indentLevel - L[b].indentLevel, indentChar));
  }

  /** Splicing right after the last element is appending. */
  lemma SpliceAtEnd(Sb: seq<Line>, S: seq<Line>, O: seq<Line>, x: Line, C: seq<Line>)
    requires S == O + [x] && Sb == S + C
    ensures |O| < |S| && Sb == S[..|O| + 1] + C + S[|O| + 1..]
  {
    assert S[..|O| + 1] == S && S[|O| + 1..] == [];
  }

  /** Before the bound passes `b`, code line `p` is appended alone. */
  lemma BoundBaseBefore(L: seq<Line>, P: seq<Line>, p: nat, b: nat, indentChar: string)
    requires p < b < |L| == |P| && LevelsNonNegative(L)
    requires !L[p].isIgnorable && NextNonIgnorable(L, p) == Some(b)
    ensures OutUpTo(L, P, p + 1, b, indentChar) == OutUpTo(L, P, p, b, indentChar) + [P[p]]
  {
    SegmentDue(L, P, p, b, indentChar);
  }

  /** Once the bound passes `b`, code line `p` is followed by its closing lines. */
  lemma BoundBaseAfter(L: seq<Line>, P: seq<Line>, p: nat, b: nat, indentChar: string)
    requires p < b < |L| == |P| && LevelsNonNegative(L)
    requires !L[p].isIgnorable && NextNonIgnorable(L, p) == Some(b)
    requires !L[b].isIgnorable && PrevNonIgnorable(L, b) == Some(p)
    ensures OutUpTo(L, P, p + 1, b + 1, indentChar) == OutUpTo(L, P, p + 1, b, indentChar)
      + Closers(L[p].indentLevel, L[p].lineNo, L[p].indentLevel - L[b].indentLevel, indentChar)
  {
    SegmentDue(L, P, p, b, indentChar);
    BoundStepUnchanged(L, P, p, b, indentChar);
  }

  /**
   * Raising the bound from `b` to `b + 1` makes the closing lines for code line
   * `b` due: they appear right after `p`, the code line before `b`, and nothing
   * else changes.
   */
  lemma {:induction false} BoundStep(L: seq<Line>, P: seq<Line>, p: nat, m: nat, b: nat, indentChar: string)
    requires p < m <= b < |L| == |P| && LevelsNonNegative(L)
    requires !L[b].isIgnorable && PrevNonIgnorable(L, b) == Some(p)
    ensures var S := OutUpTo(L, P, m, b, indentChar);
      var pos := |OutUpTo(L, P, p, b, indentChar)|;
      pos < |S| &&
      OutUpTo(L, P, m, b + 1, indentChar) == S[..pos + 1]
        + Closers(L[p].indentLevel, L[p].lineNo, L[p].indentLevel - L[b].indentLevel, indentChar)
        + S[pos + 1..]
    decreases m, 1
  {
    if m == p + 1 {
      BoundStepBase(L, P, p, b, indentChar);
    } else {
      BoundStepLater(L, P, p, m, b, indentChar);
    }
  }

  /** `BoundStep` past the first line after `p`: the lines from `p + 1` on are appended unchanged. */
  lemma {:induction false} BoundStepLater(L: seq<Line>, P: seq<Line>, p: nat, m: nat, b: nat, indentChar: string)
    requires p + 1 < m <= b < |L| == |P| && LevelsNonNegative(L)
    requires !L[b].isIgnorable && PrevNonIgnorable(L, b) == Some(p)
    ensures var S := OutUpTo(L, P, m, b, indentChar);
      var pos := |OutUpTo(L, P, p, b, indentChar)|;
      pos < |S| &&
      OutUpTo(L, P, m, b + 1, indentChar) == S[..pos + 1]
        + Closers(L[p].indentLevel, L[p].lineNo, L[p].indentLevel - L[b].indentLevel, indentChar)
        + S[pos + 1..]
    decreases m, 0
  {
    BoundStep(L, P, p, m - 1, b, indentChar);
    BoundStepExtend(L, P, p, m - 1, b, indentChar);
  }

  /** One step of `BoundStepLater`: line `j` after `p` has the same segment under both bounds. */
  lemma BoundStepExtend(L: seq<Line>, P: seq<Line>, p: nat, j: nat, b: nat, indentChar: string)
    requires p < j < b < |L| == |P| && LevelsNonNegative(L)
    requires !L[b].isIgnorable && PrevNonIgnorable(L, b) == Some(p)
    requires var S := OutUpTo(L, P, j, b, indentChar);
      var pos := |OutUpTo(L, P, p, b, indentChar)|;
      pos < |S| &&
      OutUpTo(L, P, j, b + 1, indentChar) == S[..pos + 1]
        + Closers(L[p].indentLevel, L[p].lineNo, L[p].indentLevel - L[b].indentLevel, indentChar)
        + S[pos + 1..]
    ensures var S := OutUpTo(L, P, j + 1, b, indentChar);
      var pos := |OutUpTo(L, P, p, b, indentChar)|;
      pos < |S| &&
      OutUpTo(L, P, j + 1, b + 1, indentChar) == S[..pos + 1]
        + Closers(L[p].indentLevel, L[p].lineNo, L[p].indentLevel - L[b].indentLevel, indentChar)
        + S[pos + 1..]
  {
    var C := Closers(L[p].indentLevel, L[p].lineNo, L[p].indentLevel - L[b].indentLevel, indentChar);
    var S := OutUpTo(L, P, j, b, indentChar);
    var Sb := OutUpTo(L, P, j, b + 1, indentChar);
    var seg := Segment(L, P, j, b, indentChar);
    assert Segment(L, P, j, b + 1, indentChar) == seg by {
      NextPrevDual(L, j, b);
      SegmentUnchanged(L, P, j, b, indentChar);
    }
    OutUpToNext(L, P, j, b, indentChar);
    OutUpToNext(L, P, j, b + 1, indentChar);
    SpliceExtend(S + seg, Sb + seg, S, Sb, seg, |OutUpTo(L, P, p, b, indentChar)|, C);
  }

  /** Processing an ignorable line appends it and inserts nothing. */
  lemma IgnorableLineStep(L: seq<Line>, P: seq<Line>, k: nat, indentChar: string)
    requires k < |L| == |P| && LevelsNonNegative(L) && L[k].isIgnorable
    ensures OutUpTo(L, P, k + 1, k + 1, indentChar) == OutUpTo(L, P, k, k, indentChar) + [P[k]]
  {
    BoundStepUnchanged(L, P, k, k, indentChar);
    SegmentPlain(L, P, k, k + 1, indentChar);
  }

  /**
   * While code line `k` is processed, searching forward in the working array
   * `OutUpTo(L, P, k, k) + L[k..]` finds the next code line of `L`.
   */
  lemma CodeLineNext(L: seq<Line>, P: seq<Line>, k: nat, indentChar: string)
    requires k < |L| == |P| && LevelsNonNegative(L)
    ensures var O := OutUpTo(L, P, k, k, indentChar);
      NextNonIgnorable(O + L[k..], |O|) ==
        match NextNonIgnorable(L, k)
        case None => None
        case Some(n) => Some(n - k + |O|)
  {
    var O := OutUpTo(L, P, k, k, indentChar);
    var W := O + L[k..];
    assert W[|O|..] == L[k..];
    NextShift(W, |O|, L, k);
  }

  /**
   * Processing code line `k` with no code line before it: the search back finds
   * nothing and the line is appended.
   */
  lemma FirstCodeLineStep(L: seq<Line>, P: seq<Line>, k: nat, indentChar: string)
    requires k < |L| && Aligned(L, P) && LevelsNonNegative(L) && !L[k].isIgnorable
    requires PrevNonIgnorable(L, k).None?
    ensures var O := OutUpTo(L, P, k, k, indentChar);
      PrevNonIgnorable(O + L[k..], |O|) == None &&
      OutUpTo(L, P, k + 1, k + 1, indentChar) == O + [P[k]]
  {
    var O := OutUpTo(L, P, k, k, indentChar);
    BoundStepUnchanged(L, P, k, k, indentChar);
    SegmentPlain(L, P, k, k + 1, indentChar);
    PrevSkipsOnlyIgnorable(L, k);
    AllIgnorableOut(L, P, k, k, indentChar);
    PrevSkipsOnlyIgnorable(O + L[k..], |O|);
  }

  /**
   * Processing code line `k` after code line `p`: the search back finds `P[p]`
   * at `pos`, the closing lines go right after it, and line `k` is appended.
   */
  lemma LaterCodeLineStep(L: seq<Line>, P: seq<Line>, p: nat, k: nat, indentChar: string)
    requires k < |L| && Aligned(L, P) && LevelsNonNegative(L) && !L[k].isIgnorable
    requires PrevNonIgnorable(L, k) == Some(p)
    ensures var O := OutUpTo(L, P, k, k, indentChar);
      var pos := |OutUpTo(L, P, p, k, indentChar)|;
      PrevNonIgnorable(O + L[k..], |O|) == Some(pos) && pos < |O| && (O + L[k..])[pos] == P[p] &&
      OutUpTo(L, P, k + 1, k + 1, indentChar) == O[..pos + 1]
        + Closers(L[p].indentLevel, L[p].lineNo, L[p].indentLevel - L[k].indentLevel, indentChar)
        + O[pos + 1..] + [P[k]]
  {
    var O := OutUpTo(L, P, k, k, indentChar);
    BoundStep(L, P, p, k, k, indentChar);
    SegmentPlain(L, P, k, k + 1, indentChar);
    NextPrevDual(L, p, k);
    PrevSkipsOnlyIgnorable(L, k);
    AfterPrev(L, P, p, k, k, indentChar);
    PrevIs(O + L[k..], |O|, |OutUpTo(L, P, p, k, indentChar)|);
  }

  /** A processed code line, spelled out. */
  lemma ProcessedCode(L: seq<Line>, k: nat, indentChar: string)
    requires k < |L| && LevelsNonNegative(L) && !L[k].isIgnorable
    ensures ProcessedAll(L, indentChar)[k] == L[k].(
      modified := CodeText(indentChar, L[k].indentLevel, L[k].rawTrimmed, Opens(L, k), !Opens(L, k) && Drop(L, k) == 0),
      modifiedLineNo := L[k].lineNo + DropsBefore(L, k) + Drop(L, k))
  {
  }

  /** A processed ignorable line, spelled out. */
  lemma ProcessedIgnorable(L: seq<Line>, k: nat, indentChar: string)
    requires k < |L| && LevelsNonNegative(L) && L[k].isIgnorable
    ensures ProcessedAll(L, indentChar)[k] == L[k].(modifiedLineNo := L[k].lineNo + DropsBefore(L, k))
    ensures DropsBefore(L, k + 1) == DropsBefore(L, k)
  {
  }

  /**
   * Whether code line `k` opens a block, as the loop sees it in the working
   * array `O + L[k..]`.
   */
  lemma CodeLineOpens(L: seq<Line>, P: seq<Line>, k: nat, indentChar: string)
    requires k < |L| == |P| && LevelsNonNegative(L) && !L[k].isIgnorable
    ensures var O := OutUpTo(L, P, k, k, indentChar);
      var W := O + L[k..];
      var next := NextNonIgnorable(W, |O|);
      Opens(L, k) == (next.Some? && L[k].indentLevel < W[next.value].indentLevel)
  {
    var O := OutUpTo(L, P, k, k, indentChar);
    var W := O + L[k..];
    CodeLineNext(L, P, k, indentChar);
    match NextNonIgnorable(L, k)
    case None =>
    case Some(n) =>
      assert W[n - k + |O|] == L[k..][n - k] == L[n];
  }

  /** How far code line `k` drops below code line `p` before it. */
  lemma DropAfter(L: seq<Line>, p: nat, k: nat)
    requires k < |L| && !L[k].isIgnorable && PrevNonIgnorable(L, k) == Some(p)
    ensures Drop(L, k) == if L[k].indentLevel < L[p].indentLevel then L[p].indentLevel - L[k].indentLevel else 0
  {
  }

  /**
   * Processing code line `k` after code line `p`, as the loop sees it: the line
   * found at `q` carries the level and line number of `p`, and the reference
   * grows by the closing lines, if any, and by line `k`.
   */
  lemma LaterCodeLineFacts(L: seq<Line>, P: seq<Line>, p: nat, k: nat, indentChar: string)
    requires k < |L| && Aligned(L, P) && LevelsNonNegative(L) && !L[k].isIgnorable
    requires PrevNonIgnorable(L, k) == Some(p)
    ensures var O := OutUpTo(L, P, k, k, indentChar);
      var q := |OutUpTo(L, P, p, k, indentChar)|;
      PrevNonIgnorable(O + L[k..], |O|) == Some(q) && q < |O| &&
      (O + L[k..])[q].indentLevel == L[p].indentLevel && (O + L[k..])[q].lineNo == L[p].lineNo
    ensures var O := OutUpTo(L, P, k, k, indentChar);
      var q := |OutUpTo(L, P, p, k, indentChar)|;
      q < |O| &&
      if L[k].indentLevel < L[p].indentLevel then
        OutUpTo(L, P, k + 1, k + 1, indentChar) == O[..q + 1]
          + Closers(L[p].indentLevel, L[p].lineNo, L[p].indentLevel - L[k].indentLevel, indentChar)
          + O[q + 1..] + [P[k]]
      else
        OutUpTo(L, P, k + 1, k + 1, indentChar) == O + [P[k]]
  {
    var O := OutUpTo(L, P, k, k, indentChar);
    LaterCodeLineStep(L, P, p, k, indentChar);
    var q := |OutUpTo(L, P, p, k, indentChar)|;
    if L[k].indentLevel >= L[p].indentLevel {
      assert O[..q + 1] + O[q + 1..] == O;
    }
  }

  /** How far a line drops below the line found before it in a working array (0 when none is found). */
  function DropSeen(W: seq<Line>, i: nat, prev: Option<nat>): int
    requires i < |W| && (prev.Some? ==> prev.value < |W|)
  {
    if prev.Some? && W[i].indentLevel < W[prev.value].indentLevel then W[prev.value].indentLevel - W[i].indentLevel else 0
  }

  /** Whether a line is shallower than the line found after it in a working array. */
  predicate OpensSeen(W: seq<Line>, i: nat, next: Option<nat>)
    requires i < |W| && (next.Some? ==> next.value < |W|)
  {
    next.Some? && W[i].indentLevel < W[next.value].indentLevel
  }

  /** The searches of the loop, started at code line `k` in `lines == done + L[k..]`, see `Opens` and `Drop`. */
  lemma SearchesSee(L: seq<Line>, k: nat, indentChar: string, done: seq<Line>, lines: seq<Line>)
    requires k < |L| && LevelsNonNegative(L) && !L[k].isIgnorable
    requires done == OutUpTo(L, ProcessedAll(L, indentChar), k, k, indentChar) && lines == done + L[k..]
    ensures lines[|done|] == L[k]
    ensures Opens(L, k) == OpensSeen(lines, |done|, NextNonIgnorable(lines, |done|))
    ensures PrevNonIgnorable(lines, |done|).Some? ==> PrevNonIgnorable(lines, |done|).value < |done|
    ensures Drop(L, k) == DropSeen(lines, |done|, PrevNonIgnorable(lines, |done|))
  {
    var P := ProcessedAll(L, indentChar);
    ProcessedAligned(L, indentChar);
    assert lines[|done|] == L[k];
    CodeLineOpens(L, P, k, indentChar);
    match PrevNonIgnorable(L, k)
    case None =>
      FirstCodeLineStep(L, P, k, indentChar);
    case Some(p) =>
      DropAfter(L, p, k);
      LaterCodeLineFacts(L, P, p, k, indentChar);
  }

  /** The reference after code line `k`, in terms of the line the search back finds in `lines`. */
  lemma CodeLineOut(L: seq<Line>, k: nat, indentChar: string, done: seq<Line>, lines: seq<Line>)
    requires k < |L| && LevelsNonNegative(L) && !L[k].isIgnorable
    requires done == OutUpTo(L, ProcessedAll(L, indentChar), k, k, indentChar) && lines == done + L[k..]
    requires PrevNonIgnorable(lines, |done|).Some? ==> PrevNonIgnorable(lines, |done|).value < |done|
    ensures var prev := PrevNonIgnorable(lines, |done|);
      var drop := DropSeen(lines, |done|, prev);
      (prev.Some? ==> drop <= 0 || drop <= done[prev.value].indentLevel) &&
      OutUpTo(L, ProcessedAll(L, indentChar), k + 1, k + 1, indentChar) == Spliced(done, prev, drop, indentChar) + [ProcessedAll(L, indentChar)[k]]
  {
    match PrevNonIgnorable(L, k)
    case None =>
      FirstCodeLineOut(L, k, indentChar, done, lines);
    case Some(p) =>
      LaterCodeLineOut(L, p, k, indentChar, done, lines);
  }

  /** `CodeLineOut` when no code line comes before line `k`. */
  lemma FirstCodeLineOut(L: seq<Line>, k: nat, indentChar: string, done: seq<Line>, lines: seq<Line>)
    requires k < |L| && LevelsNonNegative(L) && !L[k].isIgnorable
    requires done == OutUpTo(L, ProcessedAll(L, indentChar), k, k, indentChar) && lines == done + L[k..]
    requires PrevNonIgnorable(lines, |done|).Some? ==> PrevNonIgnorable(lines, |done|).value < |done|
    requires PrevNonIgnorable(L, k).None?
    ensures var prev := PrevNonIgnorable(lines, |done|);
      var drop := DropSeen(lines, |done|, prev);
      (prev.Some? ==> drop <= 0 || drop <= done[prev.value].indentLevel) &&
      OutUpTo(L, ProcessedAll(L, indentChar), k + 1, k + 1, indentChar) == Spliced(done, prev, drop, indentChar) + [ProcessedAll(L, indentChar)[k]]
  {
    ProcessedAligned(L, indentChar);
    FirstCodeLineStep(L, ProcessedAll(L, indentChar), k, indentChar);
  }

  /**
   * When code line `p` is the last code line before line `k`, the working
   * array holds its processed copy at `q`, and the search back from line `k`
   * finds it there.
   */
  lemma LaterCodeLineSeen(L: seq<Line>, P: seq<Line>, p: nat, k: nat, indentChar: string, done: seq<Line>, lines: seq<Line>)
    requires k < |L| && Aligned(L, P) && LevelsNonNegative(L) && !L[k].isIgnorable
    requires done == OutUpTo(L, P, k, k, indentChar) && lines == done + L[k..]
    requires PrevNonIgnorable(L, k) == Some(p)
    ensures var q := |OutUpTo(L, P, p, k, indentChar)|;
      PrevNonIgnorable(lines, |done|) == Some(q) && q < |done| &&
      lines[q].indentLevel == done[q].indentLevel == L[p].indentLevel && done[q].lineNo == L[p].lineNo &&
      OutUpTo(L, P, k + 1, k + 1, indentChar) == done[..q + 1]
        + Closers(L[p].indentLevel, L[p].lineNo, L[p].indentLevel - L[k].indentLevel, indentChar)
        + done[q + 1..] + [P[k]]
  {
    var q := |OutUpTo(L, P, p, k, indentChar)|;
    LaterCodeLineStep(L, P, p, k, indentChar);
    assert lines[q] == P[p];
    assert done[q] == P[p];
  }

  /** `CodeLineOut` when code line `p` is the last code line before line `k`. */
  lemma LaterCodeLineOut(L: seq<Line>, p: nat, k: nat, indentChar: string, done: seq<Line>, lines: seq<Line>)
    requires k < |L| && LevelsNonNegative(L) && !L[k].isIgnorable
    requires done == OutUpTo(L, ProcessedAll(L, indentChar), k, k, indentChar) && lines == done + L[k..]
    requires PrevNonIgnorable(lines, |done|).Some? ==> PrevNonIgnorable(lines, |done|).value < |done|
    requires PrevNonIgnorable(L, k) == Some(p)
    ensures var prev := PrevNonIgnorable(lines, |done|);
      var drop := DropSeen(lines, |done|, prev);
      (prev.Some? ==> drop <= 0 || drop <= done[prev.value].indentLevel) &&
      OutUpTo(L, ProcessedAll(L, indentChar), k + 1, k + 1, indentChar) == Spliced(done, prev, drop, indentChar) + [ProcessedAll(L, indentChar)[k]]
  {
    var P := ProcessedAll(L, indentChar);
    var q := |OutUpTo(L, P, p, k, indentChar)|;
    var c := L[p].indentLevel - L[k].indentLevel;
    ProcessedAligned(L, indentChar);
    LaterCodeLineSeen(L, P, p, k, indentChar, done, lines);
    assert lines[|done|] == L[k];
    assert DropSeen(lines, |done|, Some(q)) == if c > 0 then c else 0;
    SplicedAt(done, q, L[p].indentLevel, L[p].lineNo, c, indentChar);
  }

  /** The splice after the line at `q`, when that line's level and number are known. */
  lemma SplicedAt(W: seq<Line>, q: nat, level: int, lineNo: int, c: int, indentChar: string)
    requires q < |W| && W[q].indentLevel == level && W[q].lineNo == lineNo && (c <= 0 || c <= level)
    ensures Spliced(W, Some(q), if c > 0 then c else 0, indentChar) == W[..q + 1] + Closers(level, lineNo, c, indentChar) + W[q + 1..]
  {
    if c <= 0 {
      assert Closers(level, lineNo, c, indentChar) == [];
      assert W[..q + 1] + W[q + 1..] == W;
    }
  }

  /**
   * Processing code line `k` as the loop sees it in the working array
   * `lines == done + L[k..]`: the processed line, the new offset, and the
   * reference after line `k`, in terms of the lines the searches find.
   */
  lemma CodeLineView(L: seq<Line>, k: nat, indentChar: string, done: seq<Line>, lines: seq<Line>)
    requires k < |L| && LevelsNonNegative(L) && !L[k].isIgnorable
    requires done == OutUpTo(L, ProcessedAll(L, indentChar), k, k, indentChar) && lines == done + L[k..]
    ensures var next := NextNonIgnorable(lines, |done|);
      var prev := PrevNonIgnorable(lines, |done|);
      var opens := OpensSeen(lines, |done|, next);
      var drop := DropSeen(lines, |done|, prev);
      var P := ProcessedAll(L, indentChar);
      lines[|done|] == L[k] && (prev.Some? ==> prev.value < |done|) &&
      P[k] == L[k].(
        modified := CodeText(indentChar, L[k].indentLevel, L[k].rawTrimmed, opens, !opens && drop == 0),
        modifiedLineNo := L[k].lineNo + DropsBefore(L, k) + drop) &&
      DropsBefore(L, k + 1) == DropsBefore(L, k) + drop &&
      (prev.Some? ==> drop <= 0 || drop <= done[prev.value].indentLevel) &&
      OutUpTo(L, P, k + 1, k + 1, indentChar) == Spliced(done, prev, drop, indentChar) + [P[k]]
  {
    SearchesSee(L, k, indentChar, done, lines);
    ProcessedCode(L, k, indentChar);
    CodeLineOut(L, k, indentChar, done, lines);
  }

  /** Processing ignorable line `k`: the processed line and the unchanged offset. */
  lemma IgnorableLineView(L: seq<Line>, k: nat, indentChar: string, done: seq<Line>, lines: seq<Line>)
    requires k < |L| && LevelsNonNegative(L) && L[k].isIgnorable
    requires done == OutUpTo(L, ProcessedAll(L, indentChar), k, k, indentChar) && lines == done + L[k..]
    ensures var P := ProcessedAll(L, indentChar);
      lines[|done|] == L[k] &&
      P[k] == L[k].(modifiedLineNo := L[k].lineNo + DropsBefore(L, k)) &&
      DropsBefore(L, k + 1) == DropsBefore(L, k) &&
      OutUpTo(L, P, k + 1, k + 1, indentChar) == done + [P[k]]
  {
    assert lines[|done|] == L[k];
    ProcessedIgnorable(L, k, indentChar);
    IgnorableLineStep(L, ProcessedAll(L, indentChar), k, indentChar);
  }

  /** Overwriting the first element after `X` in `X + rest`. */
  lemma UpdateAfter(X: seq<Line>, y: Line, rest: seq<Line>)
    requires |rest| > 0
    ensures (X + rest)[|X| := y] == X + [y] + rest[1..]
  {
  }

  /**
   * The working array after `insertClosingBrackets` ran for a line that drops
   * `drop` levels below the line found at `prev` (unchanged when it does not drop).
   */
  function Spliced(W: seq<Line>, prev: Option<nat>, drop: int, indentChar: string): seq<Line>
    requires prev.Some? ==> prev.value < |W| && (drop <= 0 || drop <= W[prev.value].indentLevel)
  {
    if prev.Some? && drop > 0
    then W[..prev.value + 1] + Closers(W[prev.value].indentLevel, W[prev.value].lineNo, drop, indentChar) + W[prev.value + 1..]
    else W
  }

  /** Code line `i` of a working array, rewritten as one pass of the loop leaves it. */
  function RewrittenAt(W: seq<Line>, i: nat, offset: int, indentChar: string): Line
    requires i < |W| && W[i].indentLevel >= 0
  {
    var opens := OpensSeen(W, i, NextNonIgnorable(W, i));
    var drop := DropSeen(W, i, PrevNonIgnorable(W, i));
    W[i].(
      modified := CodeText(indentChar, W[i].indentLevel, W[i].rawTrimmed, opens, !opens && drop == 0),
      modifiedLineNo := W[i].lineNo + offset + drop)
  }

  /**
   * The main loop's invariant: the first `k` original lines have been handled,
   * the working array `W` is the reference so far (`done`) followed by the rest
   * of `L`, the loop index points just past `done`, and the offset counts the
   * closing lines inserted so far.
   */
  ghost predicate LoopInv(L: seq<Line>, indentChar: string, k: nat, done: seq<Line>, W: seq<Line>, i: nat, offset: int) {
    LevelsNonNegative(L) && k <= |L| && done == OutUpTo(L, ProcessedAll(L, indentChar), k, k, indentChar) && W == done + L[k..] &&
    i == |done| && offset == DropsBefore(L, k)
  }

  /** The shape of the working array after one pass over code line `i`, as `ProcessCodeLine` promises it. */
  ghost predicate CodePass(W: seq<Line>, i: nat, offset: int, indentChar: string, result: seq<Line>, at: nat, newOffset: int)
    requires i < |W| && W[i].indentLevel >= 0
  {
    var prev := PrevNonIgnorable(W, i);
    var drop := DropSeen(W, i, prev);
    (prev.Some? ==> drop <= 0 || drop <= W[prev.value].indentLevel) &&
    at == i + drop && newOffset == offset + drop &&
    result == Spliced(W, prev, drop, indentChar)[at := RewrittenAt(W, i, offset, indentChar)]
  }

  /** Splicing inside a prefix `done` leaves whatever follows it in place. */
  lemma SplicedPrefix(done: seq<Line>, T: seq<Line>, prev: Option<nat>, drop: int, indentChar: string)
    requires prev.Some? ==> prev.value < |done| && (drop <= 0 || drop <= done[prev.value].indentLevel)
    ensures Spliced(done + T, prev, drop, indentChar) == Spliced(done, prev, drop, indentChar) + T
    ensures |Spliced(done, prev, drop, indentChar)| == |done| + (if prev.Some? && drop > 0 then drop else 0)
  {
    if prev.Some? && drop > 0 {
      var W := done + T;
      var C := Closers(W[prev.value].indentLevel, W[prev.value].lineNo, drop, indentChar);
      assert W[prev.value] == done[prev.value];
      SpliceAppend(done, prev.value, C, T);
    }
  }

  /** One pass over code line `k` keeps the loop's invariant. */
  lemma CodeLineMaintains(L: seq<Line>, indentChar: string, k: nat, done: seq<Line>, W: seq<Line>, offset: int,
                          result: seq<Line>, at: nat, newOffset: int)
    returns (next: seq<Line>)
    requires LoopInv(L, indentChar, k, done, W, |done|, offset)
    requires k < |L| && !L[k].isIgnorable && |done| < |W| && W[|done|].indentLevel >= 0
    requires CodePass(W, |done|, offset, indentChar, result, at, newOffset)
    ensures LoopInv(L, indentChar, k + 1, next, result, at + 1, newOffset)
  {
    CodeLineView(L, k, indentChar, done, W);
    var P := ProcessedAll(L, indentChar);
    var prev := PrevNonIgnorable(W, |done|);
    var drop := DropSeen(W, |done|, prev);
    next := OutUpTo(L, P, k + 1, k + 1, indentChar);
    var mid := Spliced(done, prev, drop, indentChar);
    SplicedPrefix(done, L[k..], prev, drop, indentChar);
    UpdateAfter(mid, P[k], L[k..]);
    assert L[k..][1..] == L[k + 1..];
    assert RewrittenAt(W, |done|, offset, indentChar) == P[k];
  }

  /** One pass over ignorable line `k`, which only renumbers it, keeps the loop's invariant. */
  lemma IgnorableLineMaintains(L: seq<Line>, indentChar: string, k: nat, done: seq<Line>, W: seq<Line>, offset: int, line: Line)
    returns (next: seq<Line>)
    requires LoopInv(L, indentChar, k, done, W, |done|, offset)
    requires k < |L| && L[k].isIgnorable && |done| < |W|
    requires line == W[|done|].(modifiedLineNo := W[|done|].lineNo + offset)
    ensures LoopInv(L, indentChar, k + 1, next, W[|done| := line], |done| + 1, offset)
  {
    next := OutUpTo(L, ProcessedAll(L, indentChar), k + 1, k + 1, indentChar);
    IgnorableLineView(L, k, indentChar, done, W);
    UpdateAfter(done, line, L[k..]);
    assert L[k..][1..] == L[k + 1..];
  }

  /** While the loop runs, the line it looks at is the next original line. */
  lemma LoopSees(L: seq<Line>, indentChar: string, k: nat, done: seq<Line>, W: seq<Line>, i: nat, offset: int)
    requires LoopInv(L, indentChar, k, done, W, i, offset) && i < |W|
    ensures k < |L| && W[i] == L[k] && W[i].indentLevel >= 0
  {
  }

  /** The loop has consumed every original line. */
  lemma LoopExit(L: seq<Line>, indentChar: string, k: nat, done: seq<Line>, W: seq<Line>, i: nat, offset: int)
    requires LoopInv(L, indentChar, k, done, W, i, offset) && i >= |W|
    ensures W == Transformed(L, indentChar)
  {
    assert L[k..] == [];
  }

  // ---------------------------------------------------------------------------
  // The transformer

  /**
   * The body of the main loop of `modifyLines` for code line `i`: re-indent it,
   * append ` {` when the next code line is deeper, splice in closing lines after
   * the previous code line when that one is deeper, append `;` when neither
   * happened, and renumber it. Returns the array, the line's new index and the
   * new offset.
   */
  method ProcessCodeLine(lines: seq<Line>, i: nat, offset: int, indentChar: string)
    returns (result: seq<Line>, at: nat, newOffset: int)
    requires i < |lines| && !lines[i].isIgnorable && lines[i].indentLevel >= 0
    ensures CodePass(lines, i, offset, indentChar, result, at, newOffset)
  {
    var line, opens := ReindentAndOpen(lines, i, indentChar);
    var delta;
    result, delta := CloseBefore(lines, i, indentChar);
    var isProperty := !opens && delta == 0;
    if isProperty {
      line := line.(modified := line.modified + ";");
    }
    at := i + delta;
    newOffset := offset + delta;
    line := line.(modifiedLineNo := line.lineNo + newOffset);
    result := result[at := line];
  }

  /**
   * Lines 144-158 of `modifyLines`: re-indent code line `i` and append ` {`
   * when the next code line is deeper.
   */
  method ReindentAndOpen(lines: seq<Line>, i: nat, indentChar: string) returns (line: Line, opens: bool)
    requires i < |lines| && lines[i].indentLevel >= 0
    ensures opens == OpensSeen(lines, i, NextNonIgnorable(lines, i))
    ensures line == lines[i].(modified := CodeText(indentChar, lines[i].indentLevel, lines[i].rawTrimmed, opens, false))
  {
    line := lines[i];
    line := line.(modified := Repeat(indentChar, line.indentLevel) + line.rawTrimmed);
    opens := false;
    var nextLineFound := FindNextLine(lines, i);
    if nextLineFound.Some? {
      var nextLine := lines[nextLineFound.value];
      if line.indentLevel < nextLine.indentLevel {
        opens := true;
        line := line.(modified := line.modified + " {");
      }
    }
  }

  /**
   * Lines 160-173 of `modifyLines`: when code line `i` is shallower than the
   * code line before it, insert one closing line per level right after that line.
   */
  method CloseBefore(lines: seq<Line>, i: nat, indentChar: string) returns (result: seq<Line>, delta: int)
    requires i < |lines| && lines[i].indentLevel >= 0
    ensures var prev := PrevNonIgnorable(lines, i);
      delta == DropSeen(lines, i, prev) && delta >= 0 &&
      (prev.Some? ==> delta <= 0 || delta <= lines[prev.value].indentLevel) &&
      result == Spliced(lines, prev, delta, indentChar)
  {
    result, delta := lines, 0;
    var prevLineFound := FindPrevLine(lines, i);
    if prevLineFound.Some? {
      var p := prevLineFound.value;
      var prevLine := lines[p];
      if lines[i].indentLevel < prevLine.indentLevel {
        delta := prevLine.indentLevel - lines[i].indentLevel;
        result := InsertClosingBrackets(lines, p, prevLine, delta, indentChar);
      }
    }
  }

  /**
   * The step after the main loop of `modifyLines`: finds the last non-ignorable
   * element before the final one (possibly a closing line) and inserts one
   * closing line per level of that element right after it, before the final
   * element.
   */
  method CloseLastBlock(lines: seq<Line>, indentChar: string) returns (result: seq<Line>)
    ensures result == CloseAtEnd(lines, indentChar)
  {
    result := lines;
    var lastLineFound := FindPrevLine(lines, |lines| - 1);
    if lastLineFound.Some? {
      var p := lastLineFound.value;
      var lastLine := lines[p];
      result := InsertClosingBrackets(lines, p, lastLine, lastLine.indentLevel, indentChar);
    }
  }

  /**
   * One pass of the main loop of `modifyLines` over line `i`, the `k`-th
   * original line: an ignorable line is only renumbered, a code line is
   * processed by `ProcessCodeLine`. Returns the array, the index the loop
   * continues from and the new offset.
   */
  method ProcessLine(ghost input: seq<Line>, indentChar: string, ghost k: nat, ghost done: seq<Line>,
                     lines: seq<Line>, i: nat, offset: int)
    returns (result: seq<Line>, nextIndex: nat, newOffset: int, ghost next: seq<Line>)
    requires LoopInv(input, indentChar, k, done, lines, i, offset) && i < |lines|
    ensures LoopInv(input, indentChar, k + 1, next, result, nextIndex, newOffset)
  {
    LoopSees(input, indentChar, k, done, lines, i, offset);
    var line := lines[i];
    if line.isIgnorable {
      line := line.(modifiedLineNo := line.lineNo + offset);
      next := IgnorableLineMaintains(input, indentChar, k, done, lines, offset, line);
      result, nextIndex, newOffset := lines[i := line], i + 1, offset;
    } else {
      var at;
      result, at, newOffset := ProcessCodeLine(lines, i, offset, indentChar);
      next := CodeLineMaintains(input, indentChar, k, done, lines, offset, result, at, newOffset);
      nextIndex := at + 1;
    }
  }

  /** `modifyLines`: the main loop walks the growing array, then the end-of-input step runs. */
  method ModifyLines(input: seq<Line>, config: Config) returns (lines: seq<Line>)
    requires LevelsNonNegative(input)
    ensures lines == CloseAtEnd(Transformed(input, IndentChar(config.output)), IndentChar(config.output))
  {
    var indentChar := IndentChar(config.output);
    lines := input;
    var offset := 0;
    var i: nat := 0;
    ghost var k: nat := 0;
    ghost var done: seq<Line> := [];
    while i < |lines|
      invariant LoopInv(input, indentChar, k, done, lines, i, offset)
      decreases |input| - k
    {
      lines, i, offset, done := ProcessLine(input, indentChar, k, done, lines, i, offset);
      k := k + 1;
    }
    LoopExit(input, indentChar, k, done, lines, i, offset);
    lines := CloseLastBlock(lines, indentChar);
  }
}
