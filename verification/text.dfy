/**
 * String helpers shared by both transformers: the character classes the source's
 * regular expressions use, right-trimming, splitting on line feeds, joining with a
 * separator, and repetition.
 */
module Text {

  /** The class `[\t ]`: the characters an indentation is made of. */
  predicate IsBlank(c: char) {
    c == ' ' || c == '\t'
  }

  /** Whitespace removed by right-trimming (an ASCII approximation). */
  predicate IsWhitespace(c: char) {
    c == ' ' || c == '\t' || c == '\n' || c == '\r' || c == '\U{B}' || c == '\U{C}'
  }

  /** `/^[\t ]*$/`: the text consists of tabs and spaces only. */
  predicate AllBlank(s: string) {
    forall k :: 0 <= k < |s| ==> IsBlank(s[k])
  }

  /** Number of occurrences of `c` in `s`. */
  function Count(s: string, c: char): nat {
    if s == [] then 0 else Count(s[..|s| - 1], c) + (if s[|s| - 1] == c then 1 else 0)
  }

  /** Length of the run of tabs and spaces that `s` starts with. */
  function LeadingBlanks(s: string): (n: nat)
    ensures n <= |s|
    ensures forall k :: 0 <= k < n ==> IsBlank(s[k])
    ensures n == |s| || !IsBlank(s[n])
  {
    if |s| > 0 && IsBlank(s[0]) then 1 + LeadingBlanks(s[1..]) else 0
  }

  /** Width of a run of blanks when a tab counts `tabSize` columns and a space one. */
  function BlankWidth(run: string, tabSize: nat): nat {
    if run == [] then 0
    else
      var c := run[|run| - 1];
      BlankWidth(run[..|run| - 1], tabSize) + (if c == '\t' then tabSize else if c == ' ' then 1 else 0)
  }

  /** Extending a run by one blank widens it by that blank's width. */
  lemma BlankWidthStep(run: string, c: char, tabSize: nat)
    requires IsBlank(c)
    ensures BlankWidth(run + [c], tabSize) == BlankWidth(run, tabSize) + (if c == '\t' then tabSize else 1)
  {
    assert (run + [c])[..|run|] == run;
  }

  /** Width of the leading blank run of `s`. */
  function IndentWidth(s: string, tabSize: nat): nat {
    BlankWidth(s[..LeadingBlanks(s)], tabSize)
  }

  /** A blank run followed by the end or by a non-blank is the leading blank run. */
  lemma {:induction false} LeadingBlanksAt(s: string, n: nat)
    requires n <= |s| && AllBlank(s[..n]) && (n == |s| || !IsBlank(s[n]))
    ensures LeadingBlanks(s) == n
    decreases n
  {
    if n > 0 {
      assert s[1..][..n - 1] == s[1..n];
      LeadingBlanksAt(s[1..], n - 1);
    }
  }

  /** A text is all tabs and spaces exactly when its leading blank run is the whole text. */
  lemma AllBlankIsLeading(s: string)
    ensures AllBlank(s) <==> LeadingBlanks(s) == |s|
  {
    if AllBlank(s) {
      assert s[..|s|] == s;
      LeadingBlanksAt(s, |s|);
    }
  }

  /** `String.prototype.trimEnd`: drop the trailing whitespace. */
  function TrimEnd(s: string): (r: string)
    ensures r <= s
    ensures r == [] || !IsWhitespace(r[|r| - 1])
    ensures forall k :: |r| <= k < |s| ==> IsWhitespace(s[k])
  {
    if |s| > 0 && IsWhitespace(s[|s| - 1]) then TrimEnd(s[..|s| - 1]) else s
  }

  /** Total length of a list of texts. */
  function TotalLength(parts: seq<string>): nat {
    if parts == [] then 0 else |parts[0]| + TotalLength(parts[1..])
  }

  /**
   * `parts.join(sep)`: nothing for no parts; otherwise it starts with the first
   * part and holds every part plus one separator between each two.
   */
  function JoinWith(parts: seq<string>, sep: string): (r: string)
    ensures |parts| == 0 ==> r == []
    ensures |parts| > 0 ==> parts[0] <= r && |r| == TotalLength(parts) + |sep| * (|parts| - 1)
  {
    if |parts| == 0 then []
    else if |parts| == 1 then parts[0]
    else parts[0] + sep + JoinWith(parts[1..], sep)
  }

  predicate NoLineFeed(parts: seq<string>) {
    forall k :: 0 <= k < |parts| ==> '\n' !in parts[k]
  }

  /**
   * `s.split('\n')`: the pieces between line feeds. There is always at least one
   * piece, no piece contains a line feed, and joining them back gives `s`.
   */
  function Split(s: string): (parts: seq<string>)
    ensures |parts| >= 1
    ensures NoLineFeed(parts)
    ensures JoinWith(parts, "\n") == s
  {
    if s == [] then [[]]
    else
      var rest := Split(s[1..]);
      if s[0] == '\n' then
        assert ([[]] + rest)[1..] == rest;
        [[]] + rest
      else
        var parts := [[s[0]] + rest[0]] + rest[1..];
        assert parts[1..] == rest[1..];
        assert s == [s[0]] + s[1..];
        parts
  }

  /** `content.split('\n').map((line) => line.trimEnd())` */
  function RawLines(content: string): (raws: seq<string>)
    ensures |raws| == |Split(content)|
    ensures forall i :: 0 <= i < |raws| ==> '\n' !in raws[i]
  {
    var pieces := Split(content);
    var raws := seq(|pieces|, i requires 0 <= i < |pieces| => TrimEnd(pieces[i]));
    assert forall i :: 0 <= i < |raws| ==> raws[i] <= pieces[i];
    raws
  }

  /** Two line-feed-free part lists that join to the same text are equal. */
  lemma {:induction false} JoinInjective(p: seq<string>, q: seq<string>)
    requires |p| >= 1 && |q| >= 1 && NoLineFeed(p) && NoLineFeed(q)
    requires JoinWith(p, "\n") == JoinWith(q, "\n")
    ensures p == q
    decreases |p|
  {
    var jp, jq := JoinWith(p, "\n"), JoinWith(q, "\n");
    if |p| == 1 && |q| == 1 {
    } else if |p| == 1 {
      assert false;
    } else if |q| == 1 {
      assert false;
    } else {
      JoinHead(p);
      JoinHead(q);
      if |p[0]| < |q[0]| {
        assert false;
      } else if |q[0]| < |p[0]| {
        assert false;
      } else {
        assert p[0] == jp[..|p[0]|] == jq[..|q[0]|] == q[0];
        assert JoinWith(p[1..], "\n") == jp[|p[0]| + 1..] == jq[|q[0]| + 1..] == JoinWith(q[1..], "\n");
        JoinInjective(p[1..], q[1..]);
        assert p == [p[0]] + p[1..] && q == [q[0]] + q[1..];
      }
    }
  }

  /** A joined list starts with its first part, followed by the separator when more parts come. */
  lemma JoinHead(p: seq<string>)
    requires |p| >= 1
    ensures JoinWith(p, "\n")[..|p[0]|] == p[0]
    ensures |p| >= 2 ==> JoinWith(p, "\n")[|p[0]|] == '\n'
  {
  }

  /** Splitting a line-feed-free list joined by line feeds gives the list back. */
  lemma SplitOfJoin(parts: seq<string>)
    requires |parts| >= 1 && NoLineFeed(parts)
    ensures Split(JoinWith(parts, "\n")) == parts
  {
    JoinInjective(Split(JoinWith(parts, "\n")), parts);
  }

  /** Joining one more empty part adds one trailing separator. */
  lemma {:induction false} JoinAppendEmpty(p: seq<string>, sep: string)
    requires |p| >= 1
    ensures JoinWith(p + [[]], sep) == JoinWith(p, sep) + sep
    decreases |p|
  {
    if |p| >= 2 {
      JoinAppendEmpty(p[1..], sep);
      assert (p + [[]])[1..] == p[1..] + [[]];
    }
  }

  /** A text ending in a line feed splits into its lines followed by one empty piece. */
  lemma SplitTrailingFeed(t: string)
    ensures Split(t + "\n") == Split(t) + [[]]
  {
    var parts := Split(t) + [[]];
    JoinAppendEmpty(Split(t), "\n");
    assert NoLineFeed(parts) by {
      forall k | 0 <= k < |parts| ensures '\n' !in parts[k] {
        if k < |Split(t)| {
          assert parts[k] == Split(t)[k];
        }
      }
    }
    SplitOfJoin(parts);
  }

  /** There is one more piece than there are line feeds. */
  lemma {:induction false} SplitCount(s: string)
    ensures |Split(s)| == Count(s, '\n') + 1
    decreases |s|
  {
    if s != [] {
      SplitCount(s[1..]);
      CountFront(s, '\n');
    }
  }

  /** `Count` read from the front. */
  lemma {:induction false} CountFront(s: string, c: char)
    requires |s| > 0
    ensures Count(s, c) == (if s[0] == c then 1 else 0) + Count(s[1..], c)
    decreases |s|
  {
    if |s| > 1 {
      var init := s[..|s| - 1];
      CountFront(init, c);
      assert init[1..] == s[1..][..|s| - 2];
    }
  }

  /** `unit.repeat(n)`. */
  function Repeat(unit: string, n: nat): (r: string)
    ensures |r| == |unit| * n
    ensures forall k :: 0 <= k < |r| ==> r[k] in unit
  {
    if n == 0 then [] else Repeat(unit, n - 1) + unit
  }

  /** Repetition distributes over addition of counts. */
  lemma {:induction false} RepeatAdd(unit: string, a: nat, b: nat)
    ensures Repeat(unit, a + b) == Repeat(unit, a) + Repeat(unit, b)
    decreases b
  {
    if b > 0 {
      RepeatAdd(unit, a, b - 1);
    }
  }
}
