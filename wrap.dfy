/**
 * The greedy word wrap shared by the paginated exporter and the on-screen
 * formatter (`DialogueLineBreaks`, `ParentheticalLineBreaks` and
 * `ActionLineBreaks` differ only in their column limit), and the decoration
 * both apply to wrapped parentheticals.
 */
module LineWrap {
  import opened Strings

  /** The words `std::getline(stream, word, ' ')` reads from a line. */
  function Words(line: string): seq<string>
  {
    Fields(line, ' ')
  }

  /** The wrap loop's state: the lines already pushed and the line being
      filled (whose length the source keeps in `counter`). */
  datatype WrapState = WrapState(lines: seq<string>, current: string)

  /** One word: the current line is closed when its length, one joining space
      and the word would exceed the limit; the space is counted even when the
      current line is still empty. */
  function WrapStep(st: WrapState, word: string, limit: nat): WrapState
  {
    if |st.current| + |word| + 1 > limit then WrapState(st.lines + [st.current], word)
    else if st.current == [] then WrapState(st.lines, word)
    else WrapState(st.lines, st.current + " " + word)
  }

  function WrapFold(words: seq<string>, limit: nat): WrapState
    decreases |words|
  {
    if words == [] then WrapState([], [])
    else WrapStep(WrapFold(words[..|words| - 1], limit), words[|words| - 1], limit)
  }

  /** The lines the wrap returns: every closed line, then the last one. */
  function Wrap(line: string, limit: nat): (r: seq<string>)
    ensures |r| >= 1
  {
    var st := WrapFold(Words(line), limit);
    st.lines + [st.current]
  }

  /** The shared body of the three `*LineBreaks` functions. */
  method BreakLines(line: string, limit: nat) returns (result: seq<string>)
    ensures result == Wrap(line, limit)
  {
    var words := Words(line);
    result := [];
    var counter := 0;
    var currLine := "";
    var i := 0;
    while i < |words|
      invariant 0 <= i <= |words|
      invariant counter == |currLine|
      invariant WrapFold(words[..i], limit) == WrapState(result, currLine)
    {
      var word := words[i];
      assert words[..i + 1][..i] == words[..i];
      i := i + 1;
      counter := counter + |word|;
      if counter + 1 > limit {
        result := result + [currLine];
        counter := |word|;
        currLine := word;
        continue;
      }
      if currLine != [] {
        currLine := currLine + " ";
        counter := counter + 1;
      }
      currLine := currLine + word;
    }
    assert words[..|words|] == words;
    result := result + [currLine];
  }

  // ---------------------------------------------------------------------
  // Properties of the wrap
  // ---------------------------------------------------------------------

  predicate WithinLimit(x: string, limit: nat)
  {
    |x| <= limit || ' ' !in x
  }

  lemma {:induction false} FoldWithinLimit(words: seq<string>, limit: nat)
    requires forall k :: 0 <= k < |words| ==> ' ' !in words[k]
    ensures forall k :: 0 <= k < |WrapFold(words, limit).lines| ==> WithinLimit(WrapFold(words, limit).lines[k], limit)
    ensures WithinLimit(WrapFold(words, limit).current, limit)
    decreases |words|
  {
    if words != [] {
      FoldWithinLimit(words[..|words| - 1], limit);
    }
  }

  /** Every line is at most the limit unless it is a single word without
      spaces (a word longer than the limit is never cut). */
  lemma WrapWithinLimit(line: string, limit: nat)
    ensures forall k :: 0 <= k < |Wrap(line, limit)| ==> WithinLimit(Wrap(line, limit)[k], limit)
  {
    FieldsFree(line, ' ');
    FoldWithinLimit(Words(line), limit);
  }

  /** The first word of a line. */
  function FirstWord(x: string): string
  {
    Split(x, ' ')[0]
  }

  /** Line `a` was closed because the first word of the line after it would
      not have fitted behind one space. */
  predicate ClosedForNext(a: string, b: string, limit: nat)
  {
    |a| + 1 + |FirstWord(b)| > limit
  }

  predicate GreedyLines(ls: seq<string>, limit: nat)
  {
    forall k :: 0 <= k < |ls| - 1 ==> ClosedForNext(ls[k], ls[k + 1], limit)
  }

  /** What the wrap loop keeps true of its state for greedy packing. */
  predicate GreedyState(st: WrapState, limit: nat)
  {
    && GreedyLines(st.lines, limit)
    && (st.lines != [] ==> ClosedForNext(st.lines[|st.lines| - 1], st.current, limit))
    && (st.lines != [] && st.current == [] ==> |st.lines[|st.lines| - 1]| >= limit)
  }

  /** Closing the current line keeps the packing greedy. */
  lemma GreedyClose(st: WrapState, w: string, limit: nat)
    requires GreedyState(st, limit) && ' ' !in w
    requires |st.current| + |w| + 1 > limit
    ensures GreedyState(WrapState(st.lines + [st.current], w), limit)
  {
    SplitWithout(w, ' ');
    var ls := st.lines + [st.current];
    assert forall k :: 0 <= k < |st.lines| ==> ls[k] == st.lines[k];
    assert ClosedForNext(st.current, w, limit);
  }

  /** Extending a non-empty current line keeps its first word. */
  lemma GreedyExtend(st: WrapState, w: string, limit: nat)
    requires GreedyState(st, limit) && ' ' !in w && st.current != []
    ensures GreedyState(WrapState(st.lines, st.current + " " + w), limit)
  {
    SplitAppend(st.current, w, ' ');
    assert FirstWord(st.current + " " + w) == FirstWord(st.current);
  }

  lemma GreedyStep(st: WrapState, w: string, limit: nat)
    requires GreedyState(st, limit) && ' ' !in w
    ensures GreedyState(WrapStep(st, w, limit), limit)
  {
    if |st.current| + |w| + 1 > limit {
      GreedyClose(st, w, limit);
    } else if st.current != [] {
      GreedyExtend(st, w, limit);
    }
  }

  lemma {:induction false} FoldGreedy(words: seq<string>, limit: nat)
    requires forall k :: 0 <= k < |words| ==> ' ' !in words[k]
    ensures GreedyState(WrapFold(words, limit), limit)
    decreases |words|
  {
    if words != [] {
      FoldGreedy(words[..|words| - 1], limit);
      GreedyStep(WrapFold(words[..|words| - 1], limit), words[|words| - 1], limit);
    }
  }

  /** Greedy packing: each line but the last was closed only because the next
      line's first word, plus one space, would have pushed it past the limit. */
  lemma WrapGreedy(line: string, limit: nat)
    ensures GreedyLines(Wrap(line, limit), limit)
  {
    FieldsFree(line, ' ');
    FoldGreedy(Words(line), limit);
    var st := WrapFold(Words(line), limit);
    var r := Wrap(line, limit);
    assert forall k :: 0 <= k < |st.lines| ==> r[k] == st.lines[k];
  }

  lemma {:induction false} FoldLinesGrow(words: seq<string>, j: nat, limit: nat)
    requires j <= |words|
    ensures |WrapFold(words[..j], limit).lines| <= |WrapFold(words, limit).lines|
    ensures WrapFold(words[..j], limit).lines == WrapFold(words, limit).lines[..|WrapFold(words[..j], limit).lines|]
    decreases |words| - j
  {
    if j == |words| {
      assert words[..j] == words;
    } else {
      var pre := words[..|words| - 1];
      assert pre[..j] == words[..j];
      FoldLinesGrow(pre, j, limit);
    }
  }

  /** A first word of at least `limit` characters yields a leading empty line,
      because the joining space is counted on the empty line too. */
  lemma WrapLongFirstWord(line: string, limit: nat)
    requires Words(line) != [] && |Words(line)[0]| >= limit
    ensures |Wrap(line, limit)| >= 2 && Wrap(line, limit)[0] == []
  {
    var words := Words(line);
    assert words[..1][..0] == [];
    assert WrapFold(words[..1], limit).lines == [[]];
    FoldLinesGrow(words, 1, limit);
  }

  lemma JoinAppendToLast(xs: seq<string>, a: string, b: string)
    ensures Join(xs + [a + " " + b], ' ') == Join(xs + [a], ' ') + " " + b
  {
    if xs != [] {
      JoinSnoc(xs, a + " " + b, ' ');
      JoinSnoc(xs, a, ' ');
    }
  }

  /** A line with one space between words and no space at either end. */
  predicate SingleSpaced(line: string)
  {
    line != [] && line[|line| - 1] != ' '
    && forall k :: 0 <= k < |Split(line, ' ')| ==> Split(line, ' ')[k] != []
  }

  lemma {:induction false} FoldJoin(words: seq<string>, limit: nat)
    requires forall k :: 0 <= k < |words| ==> 0 < |words[k]| < limit
    ensures var st := WrapFold(words, limit);
      if words == [] then st == WrapState([], [])
      else st.current != [] && Join(st.lines + [st.current], ' ') == Join(words, ' ')
    decreases |words|
  {
    if words != [] {
      var pre := words[..|words| - 1];
      var w := words[|words| - 1];
      FoldJoin(pre, limit);
      var st := WrapFold(pre, limit);
      if pre == [] {
        assert words == [w];
      } else {
        assert pre + [w] == words;
        JoinSnoc(pre, w, ' ');
        if |st.current| + |w| + 1 > limit {
          JoinSnoc(st.lines + [st.current], w, ' ');
        } else {
          JoinAppendToLast(st.lines, st.current, w);
        }
      }
    }
  }

  /** Wrapping loses no text: for single-spaced text whose words are all
      shorter than the limit, the lines joined with single spaces give the
      text back. */
  lemma WrapJoin(line: string, limit: nat)
    requires SingleSpaced(line)
    requires forall k :: 0 <= k < |Words(line)| ==> |Words(line)[k]| < limit
    ensures Join(Wrap(line, limit), ' ') == line
  {
    assert Words(line) == Split(line, ' ');
    FoldJoin(Words(line), limit);
    JoinSplit(line, ' ');
  }

  lemma {:induction false} JoinPrefixShorter(xs: seq<string>, j: nat)
    requires j <= |xs|
    ensures |Join(xs[..j], ' ')| <= |Join(xs, ' ')|
    decreases |xs| - j
  {
    if j < |xs| {
      var pre := xs[..|xs| - 1];
      assert pre[..j] == xs[..j];
      JoinPrefixShorter(pre, j);
      if |xs| >= 2 { JoinSnoc(pre, xs[|xs| - 1], ' '); assert pre + [xs[|xs| - 1]] == xs; }
    } else {
      assert xs[..j] == xs;
    }
  }

  lemma {:induction false} FoldShort(words: seq<string>, i: nat, limit: nat)
    requires i <= |words|
    requires forall k :: 0 <= k < |words| ==> words[k] != []
    requires |Join(words, ' ')| < limit
    ensures WrapFold(words[..i], limit) == WrapState([], Join(words[..i], ' '))
    decreases i
  {
    if i > 0 {
      var p := words[..i - 1];
      var w := words[i - 1];
      assert words[..i][..i - 1] == p;
      assert words[..i][i - 1] == w;
      FoldShort(words, i - 1, limit);
      JoinPrefixShorter(words, i);
      var cur := Join(p, ' ');
      if i == 1 {
        assert words[..i] == [w];
        assert cur == [];
        assert WrapFold(words[..i], limit) == WrapStep(WrapState([], cur), w, limit);
      } else {
        assert p + [w] == words[..i];
        JoinSnoc(p, w, ' ');
        assert Join(words[..i], ' ') == cur + " " + w;
        assert cur != [] by {
          if |p| == 1 { assert cur == p[0]; }
        }
        assert WrapFold(words[..i], limit) == WrapStep(WrapState([], cur), w, limit);
      }
    }
  }

  /** Single-spaced text shorter than the limit stays on one line, unchanged. */
  lemma WrapShortLine(line: string, limit: nat)
    requires SingleSpaced(line) && |line| < limit
    ensures Wrap(line, limit) == [line]
  {
    var words := Words(line);
    assert words == Split(line, ' ');
    JoinSplit(line, ' ');
    FoldShort(words, |words|, limit);
    assert words[..|words|] == words;
  }

  // ---------------------------------------------------------------------
  // Parenthetical decoration
  // ---------------------------------------------------------------------

  /** The wrapped lines of a parenthetical: `(` before the first, `)` after
      the last, and one space before every other line. */
  function Parenthesized(lines: seq<string>): (r: seq<string>)
    ensures |r| == |lines|
    ensures forall k :: 0 <= k < |r| ==> |r[k]| >= |lines[k]| + (if k == |r| - 1 then 2 else 1)
    ensures forall k :: 0 <= k < |r| ==> Undecorated(r[k], k == |r| - 1) == lines[k]
    ensures |lines| > 0 ==> r[0][0] == '(' && r[|r| - 1][|r[|r| - 1]| - 1] == ')'
    ensures forall k :: 0 < k < |r| ==> r[k][0] == ' '
  {
    seq(|lines|, k requires 0 <= k < |lines| =>
      (if k == 0 then "(" else " ") + lines[k] + (if k == |lines| - 1 then ")" else ""))
  }

  /** A decorated line with its first character and, for the last line, its
      closing `)` taken off. */
  function Undecorated(x: string, isLast: bool): string
    requires |x| >= (if isLast then 2 else 1)
  {
    if isLast then x[1..|x| - 1] else x[1..]
  }

  /** The decoration loop over `formatted`, rewriting each element in place. */
  method Parenthesize(formatted: seq<string>) returns (result: seq<string>)
    ensures result == Parenthesized(formatted)
  {
    result := formatted;
    for i := 0 to |result|
      invariant |result| == |formatted|
      invariant forall k :: 0 <= k < i ==> result[k] == Parenthesized(formatted)[k]
      invariant forall k :: i <= k < |result| ==> result[k] == formatted[k]
    {
      if i > 0 {
        result := result[i := " " + result[i]];
      } else if i == 0 {
        result := result[i := "(" + result[i]];
      }
      if i == |result| - 1 {
        result := result[i := result[i] + ")"];
      }
    }
  }
}
