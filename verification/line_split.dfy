/** Splitting text into complete lines, and why it does not matter where the text is cut. */
module LineSplit {

  predicate OneLine(text: string) { forall i :: 0 <= i < |text| ==> text[i] != '\n' }

  /** Index of the first newline, or the length of the text. */
  function LineEnd(text: string): (n: nat)
    ensures n <= |text|
    ensures forall i :: 0 <= i < n ==> text[i] != '\n'
    ensures n < |text| ==> text[n] == '\n'
  {
    if text == "" || text[0] == '\n' then 0 else 1 + LineEnd(text[1..])
  }

  /** A carriage return before the newline is dropped, and so is a line with nothing left. */
  function Cleaned(line: string): seq<string> {
    var bare := if line != "" && line[|line| - 1] == '\r' then line[..|line| - 1] else line;
    if bare == "" then [] else [bare]
  }

  /** The non-empty lines of a text, in order, up to its last newline. */
  function CompleteLines(text: string): seq<string>
    decreases |text|
  {
    var n := LineEnd(text);
    if n == |text| then [] else Cleaned(text[..n]) + CompleteLines(text[n + 1..])
  }

  /** What follows the last newline. */
  function Unfinished(text: string): (rest: string)
    ensures |rest| <= |text|
    decreases |text|
  {
    var n := LineEnd(text);
    if n == |text| then text else Unfinished(text[n + 1..])
  }

  /** The unfinished part is a suffix without newlines, and a newline comes right before it unless it is everything. */
  lemma {:induction false} UnfinishedIsSuffix(text: string)
    ensures var rest := Unfinished(text);
            && OneLine(rest) && rest == text[|text| - |rest|..]
            && (|rest| < |text| ==> text[|text| - |rest| - 1] == '\n')
    decreases |text|
  {
    var n := LineEnd(text);
    if n < |text| {
      var after := text[n + 1..];
      UnfinishedIsSuffix(after);
      SuffixOfSuffix(text, n + 1, |after| - |Unfinished(after)|);
    }
  }

  lemma SuffixOfSuffix(text: string, n: nat, m: nat)
    requires n + m <= |text|
    ensures text[n..][m..] == text[n + m..]
  {
  }

  lemma OneLineHasNone(text: string)
    requires OneLine(text)
    ensures CompleteLines(text) == [] && Unfinished(text) == text
  {
  }

  lemma LineEndAppend(a: string, b: string)
    requires LineEnd(a) < |a|
    ensures LineEnd(a + b) == LineEnd(a)
    ensures (a + b)[..LineEnd(a)] == a[..LineEnd(a)]
    ensures (a + b)[LineEnd(a) + 1..] == a[LineEnd(a) + 1..] + b
  {
    assert (a + b)[LineEnd(a)] == '\n';
  }

  lemma Regroup(x: seq<string>, y: seq<string>, z: seq<string>)
    ensures x + (y + z) == (x + y) + z
  {
  }

  lemma LinesOf(text: string)
    ensures var n := LineEnd(text);
            if n == |text| then CompleteLines(text) == [] && Unfinished(text) == text
            else CompleteLines(text) == Cleaned(text[..n]) + CompleteLines(text[n + 1..])
                 && Unfinished(text) == Unfinished(text[n + 1..])
  {
    hide Cleaned, OneLine;
  }

  /** Cutting the text anywhere changes nothing: what is unfinished at the cut is carried over. */
  lemma {:induction false} SplitAnywhere(a: string, b: string)
    ensures CompleteLines(a + b) == CompleteLines(a) + CompleteLines(Unfinished(a) + b)
    ensures Unfinished(a + b) == Unfinished(Unfinished(a) + b)
    decreases |a|
  {
    hide Cleaned, OneLine, CompleteLines, Unfinished;
    var n := LineEnd(a);
    LinesOf(a);
    if n < |a| {
      LineEndAppend(a, b);
      LinesOf(a + b);
      hide LineEnd;
      var rest := a[n + 1..];
      SplitAnywhere(rest, b);
      Regroup(Cleaned(a[..n]), CompleteLines(rest), CompleteLines(Unfinished(rest) + b));
    } else {
      assert [] + CompleteLines(a + b) == CompleteLines(a + b);
    }
  }

  lemma LastOfSuffix(text: string)
    ensures forall k :: 0 <= k < |text| ==> text[k..][|text| - k - 1] == text[|text| - 1]
  {
  }

  lemma EndsFinished(text: string)
    requires text == "" || text[|text| - 1] == '\n'
    ensures Unfinished(text) == ""
  {
    UnfinishedIsSuffix(text);
    LastOfSuffix(text);
  }

  /** A text that ends with a newline leaves nothing over, so lines can be split on either side of it. */
  lemma SplitAtNewline(a: string, b: string)
    requires a == "" || a[|a| - 1] == '\n'
    ensures CompleteLines(a + b) == CompleteLines(a) + CompleteLines(b)
  {
    EndsFinished(a);
    assert "" + b == b;
    SplitAnywhere(a, b);
  }

  /** Finished lines followed by part of one: the lines are those of the finished part. */
  lemma FinishedAndRest(done: string, rest: string)
    requires done == "" || done[|done| - 1] == '\n'
    requires OneLine(rest)
    ensures CompleteLines(done + rest) == CompleteLines(done) && Unfinished(done + rest) == rest
  {
    hide CompleteLines, Unfinished;
    EndsFinished(done);
    OneLineHasNone(rest);
    SplitAnywhere(done, rest);
    assert "" + rest == rest;
    assert CompleteLines(done) + [] == CompleteLines(done);
  }

  /** Lines are never empty and hold no newline. */
  lemma {:induction false} LinesAreClean(text: string)
    ensures forall line <- CompleteLines(text) :: line != "" && OneLine(line)
    decreases |text|
  {
    var n := LineEnd(text);
    if n < |text| {
      LinesAreClean(text[n + 1..]);
    }
  }
}
