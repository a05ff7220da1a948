/**
 * The viewer's continuous layout of one sequence: a list of paragraphs
 * (spacers, speaker headers, wrapped lines, numbered slug lines) and one
 * clickable region per slug, stacked with abstract paragraph heights.
 */
module View {
  import opened Strings
  import opened TextBlocks
  import opened LineWrap
  import Docx

  const DialogueLimit: nat := 36
  const ParenthLimit: nat := 31
  const ActionLimit: nat := 57

  /** Indents, counted in tabs of four spaces. */
  const ActionTabs: nat := 1
  const CharacterTabs: nat := 5
  const ParenthTabs: nat := 4
  const DialogueTabs: nat := 3

  const DefaultFontSize: nat := 20

  /** `Tab(n)`: four spaces per tab. */
  function Indent(n: nat): (r: string)
    ensures |r| == 4 * n && forall c :: 0 <= c < |r| ==> r[c] == ' '
  {
    Spaces(4 * n)
  }

  /** The tab counts fit the `uint8_t` parameter of `Tab`. */
  method Tab(num: nat) returns (result: string)
    requires num < 256
    ensures result == Indent(num)
  {
    result := "";
    for i := 0 to num
      invariant result == Spaces(4 * i)
    {
      result := result + "    ";
    }
  }

  // ---------------------------------------------------------------------
  // Paragraph runs
  // ---------------------------------------------------------------------

  /** The paragraphs the wrapped lines of one block end up in. Writing starts
      in a fresh, empty paragraph; each line is appended to the open
      paragraph with `prefix` in front, and a new paragraph is opened after
      line `i` exactly when `closes[i]`. */
  function Runs(prefix: string, lines: seq<string>, closes: seq<bool>): (r: seq<string>)
    requires |closes| == |lines|
    ensures |r| >= 1
    decreases |lines|
  {
    if lines == [] then [""]
    else
      var t := Runs(prefix, lines[..|lines| - 1], closes[..|lines| - 1]);
      var t' := t[..|t| - 1] + [t[|t| - 1] + (prefix + lines[|lines| - 1])];
      if closes[|lines| - 1] then t' + [""] else t'
  }

  /** How the loop decides whether a line ends its paragraph. The dialogue
      and action loops compare the line's text with the last line's text
      (`CompareText`); the parenthetical loop compares positions
      (`CompareIndex`), which is what the other two evidently intend. */
  datatype RunRule = CompareText | CompareIndex

  function Closes(rule: RunRule, lines: seq<string>): (r: seq<bool>)
    ensures |r| == |lines|
  {
    match rule
    case CompareText => seq(|lines|, i requires 0 <= i < |lines| => lines[i] != lines[|lines| - 1])
    case CompareIndex => seq(|lines|, i requires 0 <= i < |lines| => i != |lines| - 1)
  }

  /** One paragraph per line, each with `prefix` in front. */
  function Prefixed(prefix: string, lines: seq<string>): (r: seq<string>)
    ensures |r| == |lines|
    ensures forall i :: 0 <= i < |r| ==> r[i] == prefix + lines[i]
  {
    seq(|lines|, i requires 0 <= i < |lines| => prefix + lines[i])
  }

  /** All texts of a paragraph list run together. */
  function Concat(xs: seq<string>): string
    decreases |xs|
  {
    if xs == [] then [] else Concat(xs[..|xs| - 1]) + xs[|xs| - 1]
  }

  lemma ConcatSnoc(xs: seq<string>, x: string)
    ensures Concat(xs + [x]) == Concat(xs) + x
  {
    assert (xs + [x])[..|xs|] == xs;
  }

  /** Replacing the last paragraph by a longer one adds its growth. */
  lemma ConcatGrowLast(t: seq<string>, x: string)
    requires |t| >= 1
    ensures Concat(t[..|t| - 1] + [t[|t| - 1] + x]) == Concat(t) + x
  {
    var init := t[..|t| - 1];
    var last := t[|t| - 1];
    ConcatSnoc(init, last + x);
    assert Concat(t) == Concat(init) + last;
    Assoc(Concat(init), last, x);
  }

  lemma Assoc(a: string, b: string, c: string)
    ensures a + (b + c) == a + b + c
  {
  }

  /** Wherever the paragraph breaks fall, no text is lost or reordered. */
  lemma {:induction false} RunsKeepText(prefix: string, lines: seq<string>, closes: seq<bool>)
    requires |closes| == |lines|
    ensures Concat(Runs(prefix, lines, closes)) == Concat(Prefixed(prefix, lines))
    decreases |lines|
  {
    if lines != [] {
      var n := |lines| - 1;
      RunsKeepText(prefix, lines[..n], closes[..n]);
      RunsLastText(prefix, lines, closes);
      PrefixedLastText(prefix, lines);
    }
  }

  /** The last line of a run adds its text, whether or not it closes. */
  lemma RunsLastText(prefix: string, lines: seq<string>, closes: seq<bool>)
    requires |closes| == |lines| >= 1
    ensures var n := |lines| - 1;
      Concat(Runs(prefix, lines, closes)) == Concat(Runs(prefix, lines[..n], closes[..n])) + (prefix + lines[n])
  {
    var n := |lines| - 1;
    RunStepText(Runs(prefix, lines[..n], closes[..n]), prefix + lines[n], closes[n]);
  }

  /** One paragraph per line: the last line adds its text. */
  lemma PrefixedLastText(prefix: string, lines: seq<string>)
    requires |lines| >= 1
    ensures var n := |lines| - 1;
      Concat(Prefixed(prefix, lines)) == Concat(Prefixed(prefix, lines[..n])) + (prefix + lines[n])
  {
    var n := |lines| - 1;
    PrefixedSnoc(prefix, lines);
    ConcatSnoc(Prefixed(prefix, lines[..n]), prefix + lines[n]);
  }

  lemma PrefixedSnoc(prefix: string, lines: seq<string>)
    requires |lines| >= 1
    ensures var n := |lines| - 1;
      Prefixed(prefix, lines) == Prefixed(prefix, lines[..n]) + [prefix + lines[n]]
  {
    var n := |lines| - 1;
    assert Prefixed(prefix, lines)[n] == (Prefixed(prefix, lines[..n]) + [prefix + lines[n]])[n];
  }

  /** One line of a run adds its text, whether or not a paragraph follows. */
  lemma RunStepText(t: seq<string>, x: string, closes: bool)
    requires |t| >= 1
    ensures var t' := t[..|t| - 1] + [t[|t| - 1] + x];
      Concat(if closes then t' + [""] else t') == Concat(t) + x
  {
    var t' := t[..|t| - 1] + [t[|t| - 1] + x];
    ConcatGrowLast(t, x);
    ConcatSnoc(t', "");
    assert Concat(t') + "" == Concat(t');
  }

  /** A line appended to runs whose paragraphs are all closed starts the
      open paragraph, and closes it when `closes[n]`. */
  lemma RunsAfterClosed(prefix: string, lines: seq<string>, closes: seq<bool>)
    requires |closes| == |lines| >= 1
    requires var n := |lines| - 1;
      Runs(prefix, lines[..n], closes[..n]) == Prefixed(prefix, lines[..n]) + [""]
    ensures Runs(prefix, lines, closes) ==
      if closes[|lines| - 1] then Prefixed(prefix, lines) + [""] else Prefixed(prefix, lines)
  {
    var n := |lines| - 1;
    var x := prefix + lines[n];
    var t := Runs(prefix, lines[..n], closes[..n]);
    assert t[..|t| - 1] == Prefixed(prefix, lines[..n]);
    assert t[|t| - 1] + x == x;
    PrefixedSnoc(prefix, lines);
  }

  /** Every break taken: one paragraph per line, and a fresh one open. */
  lemma {:induction false} RunsAllClosed(prefix: string, lines: seq<string>, closes: seq<bool>)
    requires |closes| == |lines| && forall i :: 0 <= i < |closes| ==> closes[i]
    ensures Runs(prefix, lines, closes) == Prefixed(prefix, lines) + [""]
    decreases |lines|
  {
    if lines != [] {
      var n := |lines| - 1;
      assert forall i :: 0 <= i < n ==> closes[..n][i] == closes[i];
      RunsAllClosed(prefix, lines[..n], closes[..n]);
      RunsAfterClosed(prefix, lines, closes);
    }
  }

  /** Comparing positions gives one paragraph per wrapped line. */
  lemma ByIndexOnePerLine(prefix: string, lines: seq<string>)
    requires |lines| >= 1
    ensures Runs(prefix, lines, Closes(CompareIndex, lines)) == Prefixed(prefix, lines)
  {
    var n := |lines| - 1;
    var cs := Closes(CompareIndex, lines);
    assert forall i :: 0 <= i < n ==> cs[..n][i];
    RunsAllClosed(prefix, lines[..n], cs[..n]);
    assert !cs[n];
    RunsAfterClosed(prefix, lines, cs);
  }

  /** Comparing texts breaks at the same places exactly when no earlier line
      repeats the last one. */
  lemma RulesAgree(lines: seq<string>)
    requires |lines| >= 1
    ensures Closes(CompareText, lines) == Closes(CompareIndex, lines) <==>
      forall i :: 0 <= i < |lines| - 1 ==> lines[i] != lines[|lines| - 1]
  {
    var a := Closes(CompareText, lines);
    var b := Closes(CompareIndex, lines);
    if forall i :: 0 <= i < |lines| - 1 ==> lines[i] != lines[|lines| - 1] {
      assert forall i :: 0 <= i < |lines| ==> a[i] == b[i];
    } else {
      var i :| 0 <= i < |lines| - 1 && lines[i] == lines[|lines| - 1];
      assert a[i] != b[i];
    }
  }

  /** Two words of twenty letters each wrap onto two equal lines. */
  lemma WrapTwoEqualWords(x: string)
    requires |x| == 20 && ' ' !in x
    ensures Wrap(x + " " + x, DialogueLimit) == [x, x]
  {
    var line := x + " " + x;
    SplitWithout(x, ' ');
    SplitAppend(x, x, ' ');
    assert line == x + [' '] + x;
    assert line[|line| - 1] == x[|x| - 1] != ' ';
    assert Words(line) == [x, x];
    assert [x, x][..1] == [x];
    assert [x][..0] == [];
    assert WrapFold([x], DialogueLimit) == WrapState([], x);
    assert WrapFold([x, x], DialogueLimit) == WrapState([x], x);
  }

  /** Dialogue of two such words: the source writes both lines into one
      paragraph, one after the other, where one paragraph per line was
      meant. */
  lemma RepeatedLineMerged(x: string)
    requires |x| == 20 && ' ' !in x
    ensures var f := Wrap(x + " " + x, DialogueLimit);
      Runs(Indent(DialogueTabs), f, Closes(CompareText, f)) == [Indent(DialogueTabs) + x + Indent(DialogueTabs) + x] &&
      Runs(Indent(DialogueTabs), f, Closes(CompareIndex, f)) == [Indent(DialogueTabs) + x, Indent(DialogueTabs) + x]
  {
    WrapTwoEqualWords(x);
    var p := Indent(DialogueTabs);
    RunsTwoEqual(p, x);
    ByIndexOnePerLine(p, [x, x]);
  }

  lemma RunsTwoEqual(p: string, x: string)
    ensures Runs(p, [x, x], Closes(CompareText, [x, x])) == [p + x + p + x]
  {
    var cs := Closes(CompareText, [x, x]);
    assert cs == [false, false];
    assert [x, x][..1] == [x] && cs[..1] == [false];
    assert [x][..0] == [] && cs[..1][..0] == [];
    assert "" + (p + x) == p + x;
    assert Runs(p, [x], [false]) == [p + x];
    Assoc(p + x, p, x);
  }

  // ---------------------------------------------------------------------
  // Slug lines
  // ---------------------------------------------------------------------

  /** `SlugFormat(number, line)` of the viewer: the number padded with spaces
      to four columns, the slug text, the padding to the action width and the
      number again. */
  function SlugLine(number: nat, line: string): string
  {
    var n := DecimalString(number);
    n + Spaces(if |n| < 4 then 4 - |n| else 0) + line + Spaces(Docx.SlugPad(|n|, |line|)) + n
  }

  /** The number in the first four columns (or more when it is longer), the
      slug text, spaces, and the number again at the right edge. */
  lemma SlugLineShape(number: nat, line: string)
    ensures var r := SlugLine(number, line);
      var n := DecimalString(number);
      var w := if |n| < 4 then 4 else |n|;
      |r| >= w + |line| + |n| &&
      r[..|n|] == n && (forall c :: |n| <= c < w ==> r[c] == ' ') &&
      r[w..w + |line|] == line && r[|r| - |n|..] == n &&
      (forall c :: w + |line| <= c < |r| - |n| ==> r[c] == ' ')
  {
    var n := DecimalString(number);
    var w := if |n| < 4 then 4 else |n|;
    var gap := Spaces(w - |n|);
    var pad := Spaces(Docx.SlugPad(|n|, |line|));
    assert SlugLine(number, line) == n + gap + line + pad + n;
    FiveParts(n, gap, line, pad, n);
  }

  /** Where the five parts of `a + b + c + d + e` lie. */
  lemma FiveParts(a: string, b: string, c: string, d: string, e: string)
    ensures var r := a + b + c + d + e;
      var i := |a| + |b|;
      var j := i + |c|;
      |r| == j + |d| + |e| &&
      r[..|a|] == a && (forall k :: |a| <= k < i ==> r[k] == b[k - |a|]) &&
      r[i..j] == c && (forall k :: j <= k < j + |d| ==> r[k] == d[k - j]) &&
      r[|r| - |e|..] == e
  {
    var r := a + b + c + d + e;
    var i := |a| + |b|;
    var j := i + |c|;
    assert r == (a + b) + (c + (d + e));
    assert r[..|a|] == a;
    assert r[i..j] == c;
    assert r == (a + b + c + d) + e;
  }

  /** A slug that fits the action width ends at the same column whatever its
      length; a longer one gets no padding at all. */
  lemma SlugLineLength(number: nat, line: string)
    ensures var n := DecimalString(number);
      var w := if |n| < 4 then 4 else |n|;
      (|n| + |line| <= ActionLimit ==> |SlugLine(number, line)| == w + ActionLimit) &&
      (|n| + |line| > ActionLimit ==> |SlugLine(number, line)| == w + |line| + |n|)
  {
  }

  /** Numbers below 10000 and slug texts that fit: every slug line is 61
      characters long, so the numbers line up on the right. */
  lemma SlugLinesAligned(number: nat, line: string)
    requires number < 10000 && |line| + 4 <= ActionLimit
    ensures |SlugLine(number, line)| == 4 + ActionLimit
  {
    assert Pow10(4) == 10000;
    DecimalStringFits(number, 4);
    SlugLineLength(number, line);
  }

  /** Scene 1 with a slug text of 57 characters: the padding loop is asked
      for 2^64 - 1 spaces (its `int` counter overflows first), where no
      padding was meant. */
  lemma SlugPadCounterexample(number: nat, line: string)
    requires number == 1 && |line| == 57
    ensures Docx.SlugPadAsWritten(|DecimalString(number)|, |line|) == 0xFFFF_FFFF_FFFF_FFFF
    ensures |SlugLine(number, line)| == 4 + |line| + 1
  {
    DecimalStringLength(number);
    SlugLineLength(number, line);
  }

  // ---------------------------------------------------------------------
  // The layout
  // ---------------------------------------------------------------------

  /** A clickable region: the slug's number, the index of its paragraph and
      the vertical extent (the source's `bounds.x` and `bounds.y`). */
  datatype SlugRegion = SlugRegion(slugNumber: nat, objectIndex: nat, top: nat, bottom: nat)

  /** `SlugRegion(i, s)`. */
  function NewRegion(i: nat, s: nat): (r: SlugRegion)
    ensures r.objectIndex == i && r.slugNumber == s && r.top == 0 && r.bottom == 0
  {
    SlugRegion(s, i, 0, 0)
  }

  /** The paragraphs and regions built so far, with the two loop variables. */
  datatype Layout = Layout(paras: seq<string>, regions: seq<SlugRegion>, lastCharacter: string, wasDialogue: bool)

  const Cleared: Layout := Layout([], [], "", false)

  /** The speaker line above a dialogue or parenthetical. */
  function Header(name: string, last: string): string
  {
    Indent(CharacterTabs) + name + (if name == last then " (CONT'D)" else "")
  }

  predicate NeedsHeader(l: Layout, name: string)
  {
    !l.wasDialogue || name != l.lastCharacter
  }

  /** A dialogue or parenthetical whose lines make the paragraphs `lines`. */
  function SpokenLayout(l: Layout, name: string, lines: seq<string>): Layout
  {
    var head := if NeedsHeader(l, name) then [" ", Header(name, l.lastCharacter)] else [];
    Layout(l.paras + head + lines, l.regions, name, true)
  }

  /** A slug: a spacer, then the slug line, whose paragraph a new region
      points at. */
  function SlugLayout(l: Layout, number: nat, text: string): Layout
  {
    Layout(l.paras + [" ", text], l.regions + [NewRegion(|l.paras| + 1, number)], l.lastCharacter, false)
  }

  /** An action (or any other kind): a spacer, then its lines. */
  function ActionLayout(l: Layout, lines: seq<string>): Layout
  {
    Layout(l.paras + [" "] + lines, l.regions, l.lastCharacter, false)
  }

  /** The paragraphs a block's own text makes. */
  function ContentParas(rule: RunRule, b: TextBlock): seq<string>
  {
    if b.kind == Parenthetical then
      var f := Parenthesized(Wrap(b.content, ParenthLimit));
      Runs(Indent(ParenthTabs), f, Closes(CompareIndex, f))
    else if b.kind == Dialogue then
      var f := Wrap(b.content, DialogueLimit);
      Runs(Indent(DialogueTabs), f, Closes(rule, f))
    else
      var f := Wrap(b.content, ActionLimit);
      Runs(Indent(ActionTabs), f, Closes(rule, f))
  }

  function Render(rule: RunRule, l: Layout, b: TextBlock): Layout
  {
    if b.kind == Note then l
    else if IsSpoken(b.kind) then SpokenLayout(l, b.character, ContentParas(rule, b))
    else if b.kind == Slug then SlugLayout(l, b.slugCount, SlugLine(b.slugCount, b.content))
    else ActionLayout(l, ContentParas(rule, b))
  }

  /** The layout of a sequence's blocks. The source follows `CompareText`. */
  function LayoutOf(rule: RunRule, bs: seq<TextBlock>): Layout
    decreases |bs|
  {
    if bs == [] then Cleared else Render(rule, LayoutOf(rule, bs[..|bs| - 1]), bs[|bs| - 1])
  }

  // ---------------------------------------------------------------------
  // Heights and regions
  // ---------------------------------------------------------------------

  /** The summed heights of a list of paragraphs. */
  function Sum(height: string -> nat, ps: seq<string>): nat
    decreases |ps|
  {
    if ps == [] then 0 else Sum(height, ps[..|ps| - 1]) + height(ps[|ps| - 1])
  }

  /** The cursor at paragraph `i`: the heights of the paragraphs above it. */
  function Top(height: string -> nat, paras: seq<string>, i: nat): nat
  {
    Sum(height, paras[..if i <= |paras| then i else |paras|])
  }

  lemma TopStep(height: string -> nat, paras: seq<string>, i: nat)
    requires i < |paras|
    ensures Top(height, paras, i + 1) == Top(height, paras, i) + height(paras[i])
  {
    assert paras[..i + 1][..i] == paras[..i];
  }

  lemma {:induction false} TopMonotone(height: string -> nat, paras: seq<string>, i: nat, j: nat)
    requires i <= j <= |paras|
    ensures Top(height, paras, i) <= Top(height, paras, j)
    decreases j - i
  {
    if i < j {
      TopStep(height, paras, i);
      TopMonotone(height, paras, i + 1, j);
    }
  }

  /** Regions point, in increasing order, at existing paragraphs. */
  predicate WellPlaced(paras: seq<string>, regions: seq<SlugRegion>)
  {
    (forall k :: 0 <= k < |regions| ==> regions[k].objectIndex < |paras|) &&
    (forall k :: 0 < k < |regions| ==> regions[k - 1].objectIndex < regions[k].objectIndex)
  }

  /** The regions once the cursor loop has run: each starts at its slug
      paragraph and ends where the next one starts, the last one at the end
      of the content. */
  function Placed(height: string -> nat, paras: seq<string>, regions: seq<SlugRegion>): (r: seq<SlugRegion>)
    ensures |r| == |regions|
  {
    seq(|regions|, k requires 0 <= k < |regions| =>
      SlugRegion(regions[k].slugNumber, regions[k].objectIndex,
        Top(height, paras, regions[k].objectIndex), Bottom(height, paras, regions, k)))
  }

  /** Where region `k` ends: at the next slug's paragraph, or at the end. */
  function Bottom(height: string -> nat, paras: seq<string>, regions: seq<SlugRegion>, k: nat): nat
  {
    if k + 1 < |regions| then Top(height, paras, regions[k + 1].objectIndex) else Top(height, paras, |paras|)
  }

  /** The placed regions tile the content from the first slug down to the
      end: each ends where the next begins, the last at the end of the
      content, and none is inverted. */
  lemma RegionsTile(height: string -> nat, paras: seq<string>, regions: seq<SlugRegion>)
    requires WellPlaced(paras, regions)
    ensures var p := Placed(height, paras, regions);
      (forall k :: 0 <= k < |p| - 1 ==> p[k].bottom == p[k + 1].top) &&
      (|p| > 0 ==> p[|p| - 1].bottom == Top(height, paras, |paras|)) &&
      (forall k :: 0 <= k < |p| ==> p[k].top <= p[k].bottom)
  {
    var p := Placed(height, paras, regions);
    forall k | 0 <= k < |p|
      ensures p[k].top <= p[k].bottom
    {
      RegionOrdered(height, paras, regions, k);
    }
  }

  lemma RegionOrdered(height: string -> nat, paras: seq<string>, regions: seq<SlugRegion>, k: nat)
    requires WellPlaced(paras, regions) && k < |regions|
    ensures Placed(height, paras, regions)[k].top <= Placed(height, paras, regions)[k].bottom
  {
    var i := regions[k].objectIndex;
    if k + 1 < |regions| {
      TopMonotone(height, paras, i, regions[k + 1].objectIndex);
    } else {
      TopMonotone(height, paras, i, |paras|);
    }
  }

  // ---------------------------------------------------------------------
  // What the layout holds
  // ---------------------------------------------------------------------

  /** The slug blocks of a sequence, in order. */
  function Slugs(bs: seq<TextBlock>): (r: seq<TextBlock>)
    ensures forall k :: 0 <= k < |r| ==> r[k].kind == Slug
    decreases |bs|
  {
    if bs == [] then []
    else if bs[|bs| - 1].kind == Slug then Slugs(bs[..|bs| - 1]) + [bs[|bs| - 1]]
    else Slugs(bs[..|bs| - 1])
  }

  /** A block only appends paragraphs, and only a slug appends a region. */
  lemma RenderAppends(rule: RunRule, l: Layout, b: TextBlock) returns (added: seq<string>)
    ensures Render(rule, l, b).paras == l.paras + added
    ensures b.kind == Slug ==>
      added == [" ", SlugLine(b.slugCount, b.content)] &&
      Render(rule, l, b).regions == l.regions + [NewRegion(|l.paras| + 1, b.slugCount)]
    ensures b.kind != Slug ==> Render(rule, l, b).regions == l.regions
  {
    if b.kind == Note {
      added := [];
    } else if IsSpoken(b.kind) {
      added := SpokenAppends(rule, l, b);
    } else if b.kind == Slug {
      added := [" ", SlugLine(b.slugCount, b.content)];
    } else {
      added := ActionAppends(rule, l, b);
    }
  }

  lemma SpokenAppends(rule: RunRule, l: Layout, b: TextBlock) returns (added: seq<string>)
    requires IsSpoken(b.kind)
    ensures Render(rule, l, b).paras == l.paras + added
    ensures Render(rule, l, b).regions == l.regions
  {
    added := SpokenLayoutAppends(l, b.character, ContentParas(rule, b));
  }

  lemma SpokenLayoutAppends(l: Layout, name: string, lines: seq<string>) returns (added: seq<string>)
    ensures SpokenLayout(l, name, lines).paras == l.paras + added
    ensures SpokenLayout(l, name, lines).regions == l.regions
  {
    var head := if NeedsHeader(l, name) then [" ", Header(name, l.lastCharacter)] else [];
    added := head + lines;
    assert l.paras + head + lines == l.paras + added;
  }

  lemma ActionAppends(rule: RunRule, l: Layout, b: TextBlock) returns (added: seq<string>)
    requires b.kind != Note && !IsSpoken(b.kind) && b.kind != Slug
    ensures Render(rule, l, b).paras == l.paras + added
    ensures Render(rule, l, b).regions == l.regions
  {
    added := ActionLayoutAppends(l, ContentParas(rule, b));
  }

  lemma ActionLayoutAppends(l: Layout, lines: seq<string>) returns (added: seq<string>)
    ensures ActionLayout(l, lines).paras == l.paras + added
    ensures ActionLayout(l, lines).regions == l.regions
  {
    added := [" "] + lines;
    assert l.paras + [" "] + lines == l.paras + added;
  }

  /** Every region points at the slug line of the matching slug block, right
      after a spacer, and the regions come in document order. */
  predicate RegionsMatch(l: Layout, slugs: seq<TextBlock>)
  {
    WellPlaced(l.paras, l.regions) && |l.regions| == |slugs| &&
    forall k :: 0 <= k < |slugs| ==> RegionAt(l.paras, l.regions[k], slugs[k])
  }

  /** The region carries the slug's number and points at its slug line,
      right after a spacer. */
  predicate RegionAt(paras: seq<string>, r: SlugRegion, slug: TextBlock)
  {
    r.slugNumber == slug.slugCount && 1 <= r.objectIndex < |paras| &&
    paras[r.objectIndex] == SlugLine(slug.slugCount, slug.content) && paras[r.objectIndex - 1] == " "
  }

  lemma RegionsMatchStep(l: Layout, slugs: seq<TextBlock>, l': Layout, added: seq<string>, b: TextBlock)
    requires RegionsMatch(l, slugs)
    requires l'.paras == l.paras + added
    requires b.kind == Slug ==>
      added == [" ", SlugLine(b.slugCount, b.content)] &&
      l'.regions == l.regions + [NewRegion(|l.paras| + 1, b.slugCount)]
    requires b.kind != Slug ==> l'.regions == l.regions
    ensures RegionsMatch(l', if b.kind == Slug then slugs + [b] else slugs)
  {
    RegionsKept(l, slugs, l'.paras);
    if b.kind == Slug {
      RegionAdded(Layout(l'.paras, l.regions, l.lastCharacter, l.wasDialogue), slugs, l', b, |l.paras|);
    }
  }

  /** Paragraphs added after the last region leave the regions matching. */
  lemma RegionsKept(l: Layout, slugs: seq<TextBlock>, paras: seq<string>)
    requires RegionsMatch(l, slugs) && l.paras <= paras
    ensures RegionsMatch(Layout(paras, l.regions, l.lastCharacter, l.wasDialogue), slugs)
  {
    forall k | 0 <= k < |slugs|
      ensures RegionAt(paras, l.regions[k], slugs[k])
    {
      var i := l.regions[k].objectIndex;
      assert RegionAt(l.paras, l.regions[k], slugs[k]);
      assert paras[i] == l.paras[i] && paras[i - 1] == l.paras[i - 1];
    }
  }

  /** A slug's spacer and line, with a region pointing at the line. */
  lemma RegionAdded(l: Layout, slugs: seq<TextBlock>, l': Layout, b: TextBlock, n: nat)
    requires RegionsMatch(l, slugs) && b.kind == Slug
    requires |l.paras| == n + 2 && l.paras[n] == " " && l.paras[n + 1] == SlugLine(b.slugCount, b.content)
    requires forall k :: 0 <= k < |l.regions| ==> l.regions[k].objectIndex < n
    requires l'.paras == l.paras && l'.regions == l.regions + [NewRegion(n + 1, b.slugCount)]
    ensures RegionsMatch(l', slugs + [b])
  {
    var slugs' := slugs + [b];
    var rs := l'.regions;
    var m := |slugs|;
    assert slugs'[m] == b && rs[m] == NewRegion(n + 1, b.slugCount);
    forall k | 0 <= k < m
      ensures rs[k] == l.regions[k] && slugs'[k] == slugs[k]
    {
    }
    assert WellPlaced(l'.paras, rs) by {
      forall k | 0 < k < |rs|
        ensures rs[k - 1].objectIndex < rs[k].objectIndex
      {
        if k < m {
          assert rs[k - 1] == l.regions[k - 1] && rs[k] == l.regions[k];
        }
      }
    }
  }

  /** One region per slug block, in document order, each pointing at its
      numbered slug line after a spacer. */
  lemma {:induction false} LayoutRegions(rule: RunRule, bs: seq<TextBlock>)
    ensures RegionsMatch(LayoutOf(rule, bs), Slugs(bs))
    decreases |bs|
  {
    if bs != [] {
      var init := bs[..|bs| - 1];
      var b := bs[|bs| - 1];
      LayoutRegions(rule, init);
      var added := RenderAppends(rule, LayoutOf(rule, init), b);
      RegionsMatchStep(LayoutOf(rule, init), Slugs(init), LayoutOf(rule, bs), added, b);
    }
  }

  /** The blocks of a sequence other than its notes. */
  function WithoutNotes(bs: seq<TextBlock>): (r: seq<TextBlock>)
    ensures forall k :: 0 <= k < |r| ==> r[k].kind != Note
    decreases |bs|
  {
    if bs == [] then []
    else if bs[|bs| - 1].kind == Note then WithoutNotes(bs[..|bs| - 1])
    else WithoutNotes(bs[..|bs| - 1]) + [bs[|bs| - 1]]
  }

  /** Notes leave no trace: not even in the speaker tracking. */
  lemma {:induction false} NotesInvisible(rule: RunRule, bs: seq<TextBlock>)
    ensures LayoutOf(rule, bs) == LayoutOf(rule, WithoutNotes(bs))
    decreases |bs|
  {
    if bs != [] {
      var init := bs[..|bs| - 1];
      NotesInvisible(rule, init);
      if bs[|bs| - 1].kind != Note {
        var w := WithoutNotes(init) + [bs[|bs| - 1]];
        assert w[..|w| - 1] == WithoutNotes(init);
      }
    }
  }

  // ---------------------------------------------------------------------
  // Speaker headers
  // ---------------------------------------------------------------------

  /** The two loop variables after one block: spoken blocks set the speaker
      and the dialogue flag, notes leave both, everything else clears the
      flag and keeps the speaker. */
  lemma RenderTracks(rule: RunRule, l: Layout, b: TextBlock)
    ensures Render(rule, l, b).lastCharacter == (if IsSpoken(b.kind) then b.character else l.lastCharacter)
    ensures Render(rule, l, b).wasDialogue == (if b.kind == Note then l.wasDialogue else IsSpoken(b.kind))
  {
  }

  lemma RenderSpoken(rule: RunRule, l: Layout, b: TextBlock)
    requires IsSpoken(b.kind)
    ensures Render(rule, l, b).paras ==
      l.paras + (if NeedsHeader(l, b.character) then [" ", Header(b.character, l.lastCharacter)] else []) + ContentParas(rule, b)
  {
  }

  lemma LayoutSnoc(rule: RunRule, bs: seq<TextBlock>, b: TextBlock)
    ensures LayoutOf(rule, bs + [b]) == Render(rule, LayoutOf(rule, bs), b)
  {
    assert (bs + [b])[..|bs|] == bs;
  }

  /** The same speaker again, straight after their own lines: no spacer and
      no header, the lines follow on. */
  lemma SameSpeakerContinues(rule: RunRule, bs: seq<TextBlock>, b1: TextBlock, b2: TextBlock)
    requires IsSpoken(b1.kind) && IsSpoken(b2.kind) && b1.character == b2.character
    ensures LayoutOf(rule, bs + [b1, b2]).paras == LayoutOf(rule, bs + [b1]).paras + ContentParas(rule, b2)
  {
    var l := LayoutOf(rule, bs + [b1]);
    LayoutSnoc(rule, bs, b1);
    RenderTracks(rule, LayoutOf(rule, bs), b1);
    assert bs + [b1, b2] == (bs + [b1]) + [b2];
    LayoutSnoc(rule, bs + [b1], b2);
    NoHeaderWhenSame(rule, l, b2);
  }

  lemma NoHeaderWhenSame(rule: RunRule, l: Layout, b: TextBlock)
    requires IsSpoken(b.kind) && l.wasDialogue && l.lastCharacter == b.character
    ensures Render(rule, l, b).paras == l.paras + ContentParas(rule, b)
  {
    RenderSpoken(rule, l, b);
    assert l.paras + [] == l.paras;
  }

  /** A speaker resuming after a slug or an action, even in a new scene, is
      marked as continuing. */
  lemma ResumedSpeakerContinued(rule: RunRule, bs: seq<TextBlock>, b1: TextBlock, x: TextBlock, b2: TextBlock)
    requires IsSpoken(b1.kind) && IsSpoken(b2.kind) && b1.character == b2.character
    requires x.kind != Note && !IsSpoken(x.kind)
    ensures LayoutOf(rule, bs + [b1, x, b2]).paras ==
      LayoutOf(rule, bs + [b1, x]).paras + [" ", Indent(CharacterTabs) + b2.character + " (CONT'D)"] + ContentParas(rule, b2)
  {
    var l1 := LayoutOf(rule, bs + [b1]);
    var l2 := LayoutOf(rule, bs + [b1, x]);
    LayoutSnoc(rule, bs, b1);
    RenderTracks(rule, LayoutOf(rule, bs), b1);
    assert bs + [b1, x] == (bs + [b1]) + [x];
    LayoutSnoc(rule, bs + [b1], x);
    RenderTracks(rule, l1, x);
    assert bs + [b1, x, b2] == (bs + [b1, x]) + [b2];
    LayoutSnoc(rule, bs + [b1, x], b2);
    RenderSpoken(rule, l2, b2);
  }

  /** A new speaker gets a spacer and a plain header. */
  lemma NewSpeakerHeader(rule: RunRule, bs: seq<TextBlock>, b: TextBlock)
    requires IsSpoken(b.kind) && b.character != LayoutOf(rule, bs).lastCharacter
    ensures LayoutOf(rule, bs + [b]).paras ==
      LayoutOf(rule, bs).paras + [" ", Indent(CharacterTabs) + b.character] + ContentParas(rule, b)
  {
    LayoutSnoc(rule, bs, b);
    RenderSpoken(rule, LayoutOf(rule, bs), b);
    assert Header(b.character, LayoutOf(rule, bs).lastCharacter) == Indent(CharacterTabs) + b.character + "";
    assert Indent(CharacterTabs) + b.character + "" == Indent(CharacterTabs) + b.character;
  }

  // ---------------------------------------------------------------------
  // The merge quirk loses no text
  // ---------------------------------------------------------------------

  lemma {:induction false} ConcatAppend(xs: seq<string>, ys: seq<string>)
    ensures Concat(xs + ys) == Concat(xs) + Concat(ys)
    decreases |ys|
  {
    if ys == [] {
      assert xs + ys == xs;
    } else {
      var init := ys[..|ys| - 1];
      var y := ys[|ys| - 1];
      assert xs + ys == (xs + init) + [y];
      ConcatAppend(xs, init);
      ConcatSnoc(xs + init, y);
      Assoc(Concat(xs), Concat(init), y);
    }
  }

  /** Both rules put the same text on screen, in the same order; they only
      disagree on where paragraphs end. */
  lemma {:induction false} RulesSameText(bs: seq<TextBlock>)
    ensures Concat(LayoutOf(CompareText, bs).paras) == Concat(LayoutOf(CompareIndex, bs).paras)
    ensures LayoutOf(CompareText, bs).lastCharacter == LayoutOf(CompareIndex, bs).lastCharacter
    ensures LayoutOf(CompareText, bs).wasDialogue == LayoutOf(CompareIndex, bs).wasDialogue
    decreases |bs|
  {
    if bs != [] {
      var init := bs[..|bs| - 1];
      var b := bs[|bs| - 1];
      RulesSameText(init);
      var l1 := LayoutOf(CompareText, init);
      var l2 := LayoutOf(CompareIndex, init);
      var a1 := RenderAppends(CompareText, l1, b);
      var a2 := RenderAppends(CompareIndex, l2, b);
      SameAddedText(l1, l2, b, a1, a2);
      RenderTracks(CompareText, l1, b);
      RenderTracks(CompareIndex, l2, b);
      ConcatAppend(l1.paras, a1);
      ConcatAppend(l2.paras, a2);
    }
  }

  /** The speaker tracking does not depend on the rule, so one block adds
      the same text under both. */
  lemma SameAddedText(l1: Layout, l2: Layout, b: TextBlock, a1: seq<string>, a2: seq<string>)
    requires l1.lastCharacter == l2.lastCharacter && l1.wasDialogue == l2.wasDialogue
    requires Render(CompareText, l1, b).paras == l1.paras + a1
    requires Render(CompareIndex, l2, b).paras == l2.paras + a2
    ensures Concat(a1) == Concat(a2)
  {
    if b.kind == Note {
      assert a1 == [] && a2 == [];
    } else if IsSpoken(b.kind) {
      SameAddedSpoken(l1, l2, b, a1, a2);
    } else if b.kind == Slug {
      var line := [" ", SlugLine(b.slugCount, b.content)];
      PrefixCancel(l1.paras, a1, line);
      PrefixCancel(l2.paras, a2, line);
    } else {
      SameAddedAction(l1, l2, b, a1, a2);
    }
  }

  lemma PrefixCancel(p: seq<string>, a: seq<string>, b: seq<string>)
    requires p + a == p + b
    ensures a == b
  {
    assert a == (p + a)[|p|..];
    assert b == (p + b)[|p|..];
  }

  lemma SameAddedSpoken(l1: Layout, l2: Layout, b: TextBlock, a1: seq<string>, a2: seq<string>)
    requires IsSpoken(b.kind)
    requires l1.lastCharacter == l2.lastCharacter && l1.wasDialogue == l2.wasDialogue
    requires Render(CompareText, l1, b).paras == l1.paras + a1
    requires Render(CompareIndex, l2, b).paras == l2.paras + a2
    ensures Concat(a1) == Concat(a2)
  {
    var head := if NeedsHeader(l1, b.character) then [" ", Header(b.character, l1.lastCharacter)] else [];
    RenderSpoken(CompareText, l1, b);
    RenderSpoken(CompareIndex, l2, b);
    ContentSameText(b);
    SameTextAfter(l1.paras, a1, head, ContentParas(CompareText, b));
    SameTextAfter(l2.paras, a2, head, ContentParas(CompareIndex, b));
  }

  /** What was appended after a common prefix, as text. */
  lemma SameTextAfter(p: seq<string>, a: seq<string>, head: seq<string>, c: seq<string>)
    requires p + a == p + head + c
    ensures Concat(a) == Concat(head) + Concat(c)
  {
    assert p + head + c == p + (head + c);
    PrefixCancel(p, a, head + c);
    ConcatAppend(head, c);
  }

  lemma SameAddedAction(l1: Layout, l2: Layout, b: TextBlock, a1: seq<string>, a2: seq<string>)
    requires b.kind != Note && !IsSpoken(b.kind) && b.kind != Slug
    requires Render(CompareText, l1, b).paras == l1.paras + a1
    requires Render(CompareIndex, l2, b).paras == l2.paras + a2
    ensures Concat(a1) == Concat(a2)
  {
    RenderAction(CompareText, l1, b);
    RenderAction(CompareIndex, l2, b);
    ContentSameText(b);
    SameTextAfter(l1.paras, a1, [" "], ContentParas(CompareText, b));
    SameTextAfter(l2.paras, a2, [" "], ContentParas(CompareIndex, b));
  }

  lemma RenderAction(rule: RunRule, l: Layout, b: TextBlock)
    requires b.kind != Note && !IsSpoken(b.kind) && b.kind != Slug
    ensures Render(rule, l, b).paras == l.paras + [" "] + ContentParas(rule, b)
  {
  }

  lemma ContentSameText(b: TextBlock)
    ensures Concat(ContentParas(CompareText, b)) == Concat(ContentParas(CompareIndex, b))
  {
    var limit := if b.kind == Parenthetical then ParenthLimit else if b.kind == Dialogue then DialogueLimit else ActionLimit;
    var tabs := if b.kind == Parenthetical then ParenthTabs else if b.kind == Dialogue then DialogueTabs else ActionTabs;
    var f := if b.kind == Parenthetical then Parenthesized(Wrap(b.content, limit)) else Wrap(b.content, limit);
    RunsKeepText(Indent(tabs), f, Closes(CompareText, f));
    RunsKeepText(Indent(tabs), f, Closes(CompareIndex, f));
  }

  // ---------------------------------------------------------------------
  // The formatter
  // ---------------------------------------------------------------------

  /** Replacing the last paragraph of `b + t` grows the last run. */
  lemma GrowLast(b: seq<string>, t: seq<string>, x: string)
    requires |t| >= 1
    ensures (b + t)[|b| + |t| - 1 := t[|t| - 1] + x] == b + (t[..|t| - 1] + [t[|t| - 1] + x])
  {
  }

  /** One more line of the loop. */
  lemma RunsSnoc(prefix: string, lines: seq<string>, closes: seq<bool>, i: nat)
    requires |closes| == |lines| && i < |lines|
    ensures var t := Runs(prefix, lines[..i], closes[..i]);
      var t' := t[..|t| - 1] + [t[|t| - 1] + (prefix + lines[i])];
      Runs(prefix, lines[..i + 1], closes[..i + 1]) == if closes[i] then t' + [""] else t'
  {
    assert lines[..i + 1][..i] == lines[..i] && closes[..i + 1][..i] == closes[..i];
  }

  lemma ClosesAt(rule: RunRule, lines: seq<string>, i: nat)
    requires i < |lines|
    ensures Closes(rule, lines)[i] ==
      if rule == CompareText then lines[i] != lines[|lines| - 1] else i != |lines| - 1
  {
  }

  /** The action's paragraphs are the runs of its wrapped lines. */
  lemma ActionContent(block: TextBlock, formatted: seq<string>)
    requires block.kind != Note && !IsSpoken(block.kind) && block.kind != Slug
    requires formatted == Wrap(block.content, ActionLimit)
    ensures |formatted| >= 1
    ensures ContentParas(CompareText, block) == Runs(Indent(ActionTabs), formatted, Closes(CompareText, formatted))
  {
  }

  /** The regions while the cursor loop runs: the first `s` have their top
      set, and all but the last of those their bottom. */
  function Partial(height: string -> nat, paras: seq<string>, regions: seq<SlugRegion>, s: nat): (r: seq<SlugRegion>)
    ensures |r| == |regions|
  {
    seq(|regions|, k requires 0 <= k < |regions| => PartialAt(height, paras, regions, s, k))
  }

  function PartialAt(height: string -> nat, paras: seq<string>, regions: seq<SlugRegion>, s: nat, k: nat): (r: SlugRegion)
    requires k < |regions|
    ensures r.slugNumber == regions[k].slugNumber && r.objectIndex == regions[k].objectIndex
  {
    SlugRegion(regions[k].slugNumber, regions[k].objectIndex,
      if k < s then Top(height, paras, regions[k].objectIndex) else regions[k].top,
      if k + 1 < s && k + 1 < |regions| then Top(height, paras, regions[k + 1].objectIndex) else regions[k].bottom)
  }

  lemma PartialStart(height: string -> nat, paras: seq<string>, regions: seq<SlugRegion>)
    ensures Partial(height, paras, regions, 0) == regions
  {
  }

  /** Setting region `s`'s top and region `s - 1`'s bottom to the cursor at
      slug `s` advances the partial regions by one. */
  lemma PartialStep(height: string -> nat, paras: seq<string>, regions: seq<SlugRegion>, s: nat, rs: seq<SlugRegion>)
    requires s < |regions| && |rs| == |regions|
    requires var cursor := Top(height, paras, regions[s].objectIndex);
      var before := Partial(height, paras, regions, s);
      (forall k :: 0 <= k < |rs| && k != s && k + 1 != s ==> rs[k] == before[k]) &&
      rs[s] == SlugRegion(before[s].slugNumber, before[s].objectIndex, cursor, before[s].bottom) &&
      (s > 0 ==> rs[s - 1] == SlugRegion(before[s - 1].slugNumber, before[s - 1].objectIndex, before[s - 1].top, cursor))
    ensures rs == Partial(height, paras, regions, s + 1)
  {
    var after := Partial(height, paras, regions, s + 1);
    forall k | 0 <= k < |rs|
      ensures rs[k] == after[k]
    {
      assert after[k] == PartialAt(height, paras, regions, s + 1, k);
    }
  }

  /** Once every slug is passed, setting the last bottom to the end of the
      content gives the placed regions. */
  lemma PartialDone(height: string -> nat, paras: seq<string>, regions: seq<SlugRegion>)
    ensures var n := |regions|;
      var p := Partial(height, paras, regions, n);
      n == 0 ==> p == Placed(height, paras, regions)
    ensures var n := |regions|;
      var p := Partial(height, paras, regions, n);
      n > 0 ==>
        p[n - 1 := SlugRegion(p[n - 1].slugNumber, p[n - 1].objectIndex, p[n - 1].top, Top(height, paras, |paras|))] ==
        Placed(height, paras, regions)
  {
  }

  class Formatter {
    /** The paragraphs (`m_blocks`), their vertical positions, the slug
        regions and the scroll state. */
    var blocks: seq<string>
    var positions: seq<int>
    var slugRegions: seq<SlugRegion>
    var scrollOffset: int
    var scrollMax: nat
    var fontSize: nat

    /** Loading the font named by the settings is not part of this model. */
    constructor()
      ensures blocks == [] && positions == [] && slugRegions == []
      ensures scrollOffset == 0 && scrollMax == 0 && fontSize == DefaultFontSize
    {
      blocks := [];
      positions := [];
      slugRegions := [];
      scrollOffset := 0;
      scrollMax := 0;
      fontSize := DefaultFontSize;
    }

    function GetFontSize(): nat
      reads this
    {
      fontSize
    }

    method SetFontSize(size: nat)
      modifies this`fontSize
      ensures GetFontSize() == size
    {
      fontSize := size;
    }

    /** A new, empty paragraph at the end; `handle` is its index. */
    method AppendParagraph() returns (handle: nat)
      modifies this`blocks
      ensures blocks == old(blocks) + [""] && handle == |old(blocks)|
    {
      handle := |blocks|;
      blocks := blocks + [""];
    }

    /** `Paragraph::AppendRun`: the run goes after the paragraph's text. */
    method AppendRun(handle: nat, str: string)
      requires handle < |blocks|
      modifies this`blocks
      ensures blocks == old(blocks)[handle := old(blocks)[handle] + str]
    {
      blocks := blocks[handle := blocks[handle] + str];
    }

    /** Builds the paragraphs and regions of a sequence, then stacks them
        with `height`, the measured height of a paragraph's text. */
    method LoadFromSequence(bs: seq<TextBlock>, skipOffsetReset: bool, height: string -> nat)
      modifies this
      ensures var l := LayoutOf(CompareText, bs);
        blocks == l.paras && slugRegions == Placed(height, l.paras, l.regions)
      ensures scrollOffset == (if skipOffsetReset then old(scrollOffset) else 0)
      ensures scrollMax == Top(height, blocks, |blocks|)
      ensures |positions| == |blocks|
      ensures forall i :: 0 <= i < |blocks| ==> positions[i] == Top(height, blocks, i) - scrollOffset
      ensures fontSize == old(fontSize)
    {
      slugRegions := [];
      blocks := [];
      if !skipOffsetReset {
        scrollOffset := 0;
      }
      var lastCharacter := "";
      var wasLastBlockDialogue := false;
      for i := 0 to |bs|
        invariant Layout(blocks, slugRegions, lastCharacter, wasLastBlockDialogue) == LayoutOf(CompareText, bs[..i])
        invariant scrollOffset == (if skipOffsetReset then old(scrollOffset) else 0)
        invariant fontSize == old(fontSize)
      {
        LayoutSnoc(CompareText, bs[..i], bs[i]);
        assert bs[..i + 1] == bs[..i] + [bs[i]];
        lastCharacter, wasLastBlockDialogue := WriteBlock(bs[i], lastCharacter, wasLastBlockDialogue);
      }
      assert bs[..|bs|] == bs;
      LayoutRegions(CompareText, bs);
      PlaceRegions(height);
    }

    /** One block of the first loop, with the loop's two variables. */
    method WriteBlock(block: TextBlock, lastCharacter: string, wasDialogue: bool) returns (character: string, dialogue: bool)
      modifies this`blocks, this`slugRegions
      ensures Layout(blocks, slugRegions, character, dialogue) ==
        Render(CompareText, Layout(old(blocks), old(slugRegions), lastCharacter, wasDialogue), block)
    {
      if block.kind == Note {
        return lastCharacter, wasDialogue;
      }
      if IsSpoken(block.kind) {
        WriteSpoken(block, lastCharacter, wasDialogue);
        return block.character, true;
      }
      if block.kind == Slug {
        WriteSlug(block);
      } else {
        WriteAction(block);
      }
      return lastCharacter, false;
    }

    method WriteSpoken(block: TextBlock, lastCharacter: string, wasDialogue: bool)
      requires IsSpoken(block.kind)
      modifies this`blocks
      ensures blocks == old(blocks) +
        (if !wasDialogue || block.character != lastCharacter then [" ", Header(block.character, lastCharacter)] else []) +
        ContentParas(CompareText, block)
    {
      var handle := AppendParagraph();
      handle := WriteHeader(handle, block.character, lastCharacter, wasDialogue);
      var formatted, tab, rule := SpokenLines(block);
      AppendRuns(handle, tab, formatted, rule);
    }

    method WriteSlug(block: TextBlock)
      modifies this`blocks, this`slugRegions
      ensures blocks == old(blocks) + [" ", SlugLine(block.slugCount, block.content)]
      ensures slugRegions == old(slugRegions) + [NewRegion(|old(blocks)| + 1, block.slugCount)]
    {
      var handle := AppendParagraph();
      handle := EmptyLine(handle);
      slugRegions := slugRegions + [NewRegion(|blocks| - 1, block.slugCount)];
      var text := SlugFormat(block.slugCount, block.content);
      AppendRun(handle, text);
      assert "" + text == text;
    }

    method WriteAction(block: TextBlock)
      requires block.kind != Note && !IsSpoken(block.kind) && block.kind != Slug
      modifies this`blocks
      ensures blocks == old(blocks) + [" "] + ContentParas(CompareText, block)
    {
      var handle := AppendParagraph();
      handle := EmptyLine(handle);
      var formatted := ActionLineBreaks(block.content);
      var tab := Tab(ActionTabs);
      ActionContent(block, formatted);
      AppendRuns(handle, tab, formatted, CompareText);
    }

    /** The spacer paragraph in front of a character, slug or action; the
        open paragraph becomes a new one after it. */
    method EmptyLine(handle0: nat) returns (handle: nat)
      requires handle0 + 1 == |blocks| && blocks[handle0] == ""
      modifies this`blocks
      ensures blocks == old(blocks)[..handle0] + [" ", ""]
      ensures handle + 1 == |blocks| && blocks[..handle] == old(blocks)[..handle0] + [" "]
    {
      ghost var base := blocks[..handle0];
      AppendRun(handle0, " ");
      assert "" + " " == " ";
      assert blocks == base + [" "];
      handle := AppendParagraph();
      assert blocks[..handle] == base + [" "];
    }

    /** The spacer and the character's name, unless the same character spoke
        the block before; `handle` is then the new open paragraph. */
    method WriteHeader(handle0: nat, name: string, lastCharacter: string, wasDialogue: bool) returns (handle: nat)
      requires handle0 + 1 == |blocks| && blocks[handle0] == ""
      modifies this`blocks
      ensures handle + 1 == |blocks| && blocks[handle] == ""
      ensures blocks[..handle] == old(blocks)[..handle0] +
        (if !wasDialogue || name != lastCharacter then [" ", Header(name, lastCharacter)] else [])
    {
      handle := handle0;
      ghost var base := blocks[..handle0];
      if !wasDialogue || name != lastCharacter {
        handle := EmptyLine(handle);
        var tab := Tab(CharacterTabs);
        ghost var header := Header(name, lastCharacter);
        if name == lastCharacter {
          AppendRun(handle, tab + name + " (CONT'D)");
        } else {
          assert tab + name + "" == tab + name;
          AppendRun(handle, tab + name);
        }
        assert blocks == base + [" ", "" + header];
        assert "" + header == header;
        handle := AppendParagraph();
        assert blocks[..handle] == base + [" ", Header(name, lastCharacter)];
      } else {
        assert blocks[..handle] == base + [];
      }
    }

    /** The wrapped lines of a dialogue or parenthetical, the indent in front
        of each and the rule that ends its paragraphs. */
    method SpokenLines(block: TextBlock) returns (formatted: seq<string>, tab: string, rule: RunRule)
      requires IsSpoken(block.kind)
      ensures |formatted| >= 1
      ensures ContentParas(CompareText, block) == Runs(tab, formatted, Closes(rule, formatted))
    {
      if block.kind == Parenthetical {
        formatted := ParentheticalLineBreaks(block.content);
        formatted := Parenthesize(formatted);
        tab := Tab(ParenthTabs);
        rule := CompareIndex;
      } else {
        formatted := DialogueLineBreaks(block.content);
        tab := Tab(DialogueTabs);
        rule := CompareText;
      }
    }

    /** The line loops: each line goes into the open paragraph after `prefix`,
        and a new paragraph follows when the rule says the line ends one. */
    method AppendRuns(handle0: nat, prefix: string, formatted: seq<string>, rule: RunRule)
      requires |formatted| >= 1 && handle0 + 1 == |blocks| && blocks[handle0] == ""
      modifies this`blocks
      ensures blocks == old(blocks)[..handle0] + Runs(prefix, formatted, Closes(rule, formatted))
    {
      var handle := handle0;
      ghost var base := blocks[..handle0];
      ghost var cs := Closes(rule, formatted);
      ghost var t: seq<string> := [""];
      assert blocks == base + t;
      for i := 0 to |formatted|
        invariant |t| >= 1 && blocks == base + t && handle + 1 == |blocks|
        invariant t == Runs(prefix, formatted[..i], cs[..i])
      {
        var closes := if rule == CompareText then formatted[i] != formatted[|formatted| - 1] else i != |formatted| - 1;
        ClosesAt(rule, formatted, i);
        RunsSnoc(prefix, formatted, cs, i);
        handle, t := AppendLine(handle, base, t, prefix + formatted[i], closes);
      }
      assert formatted[..|formatted|] == formatted && cs[..|formatted|] == cs;
    }

    /** One iteration of a line loop, in terms of the runs `t` built so far
        after the paragraphs `base`. */
    method AppendLine(handle: nat, ghost base: seq<string>, ghost t: seq<string>, line: string, closes: bool)
      returns (next: nat, ghost t': seq<string>)
      requires |t| >= 1 && blocks == base + t && handle + 1 == |blocks|
      modifies this`blocks
      ensures t' == (t[..|t| - 1] + [t[|t| - 1] + line]) + (if closes then [""] else [])
      ensures |t'| >= 1 && blocks == base + t' && next + 1 == |blocks|
    {
      AppendRun(handle, line);
      GrowLast(base, t, line);
      t' := t[..|t| - 1] + [t[|t| - 1] + line];
      next := handle;
      if closes {
        next := AppendParagraph();
        t' := t' + [""];
      } else {
        assert t' + [] == t';
      }
    }

    /** The three wrap functions share the greedy rule of the exporter. */
    method DialogueLineBreaks(line: string) returns (result: seq<string>)
      ensures result == Wrap(line, DialogueLimit)
    {
      result := BreakLines(line, DialogueLimit);
    }

    method ParentheticalLineBreaks(line: string) returns (result: seq<string>)
      ensures result == Wrap(line, ParenthLimit)
    {
      result := BreakLines(line, ParenthLimit);
    }

    method ActionLineBreaks(line: string) returns (result: seq<string>)
      ensures result == Wrap(line, ActionLimit)
    {
      result := BreakLines(line, ActionLimit);
    }

    /** The padding loop runs only while the slug fits; see
        `SlugPadCounterexample` for the count the source computes
        otherwise. */
    method SlugFormat(number: nat, line: string) returns (result: string)
      ensures result == SlugLine(number, line)
    {
      var numstr := DecimalString(number);
      result := numstr;
      var i := |numstr|;
      while i < 4
        invariant result == numstr + Spaces(if i <= 4 then i - |numstr| else 0)
        invariant |numstr| <= i && (i <= 4 || i == |numstr|)
        decreases 4 - i
      {
        result := result + " ";
        i := i + 1;
      }
      assert result == numstr + Spaces(if |numstr| < 4 then 4 - |numstr| else 0);
      result := result + line;
      var pad := if |numstr| + |line| <= ActionLimit then ActionLimit - |line| - |numstr| else 0;
      for j := 0 to pad
        invariant result == numstr + Spaces(if |numstr| < 4 then 4 - |numstr| else 0) + line + Spaces(j)
      {
        result := result + " ";
      }
      result := result + numstr;
    }

    /** The cursor loop: positions every paragraph and sets each region's
        bounds as the cursor passes its slug paragraph. */
    method PlaceRegions(height: string -> nat)
      requires WellPlaced(blocks, slugRegions)
      modifies this`slugRegions, this`positions, this`scrollMax
      ensures slugRegions == Placed(height, blocks, old(slugRegions))
      ensures scrollMax == Top(height, blocks, |blocks|)
      ensures |positions| == |blocks|
      ensures forall i :: 0 <= i < |blocks| ==> positions[i] == Top(height, blocks, i) - scrollOffset
    {
      ghost var regions := slugRegions;
      PartialStart(height, blocks, regions);
      var cursor := 0;
      var slugIndex := 0;
      positions := [];
      for i := 0 to |blocks|
        invariant 0 <= slugIndex <= |regions|
        invariant slugRegions == Partial(height, blocks, regions, slugIndex)
        invariant slugIndex < |regions| ==> i <= regions[slugIndex].objectIndex
        invariant cursor == Top(height, blocks, i)
        invariant |positions| == i
        invariant forall j :: 0 <= j < i ==> positions[j] == Top(height, blocks, j) - scrollOffset
      {
        if slugIndex < |slugRegions| && i == slugRegions[slugIndex].objectIndex {
          SetBounds(height, regions, slugIndex, cursor);
          slugIndex := slugIndex + 1;
        }
        positions := positions + [cursor - scrollOffset];
        TopStep(height, blocks, i);
        cursor := cursor + height(blocks[i]);
      }
      if |slugRegions| > 0 {
        var last := slugRegions[|slugRegions| - 1];
        slugRegions := slugRegions[|slugRegions| - 1 := SlugRegion(last.slugNumber, last.objectIndex, last.top, cursor)];
      }
      PartialDone(height, blocks, regions);
      scrollMax := cursor;
    }

    /** Region `k` starts at `cursor`, and the one before it ends there. */
    method SetBounds(ghost height: string -> nat, ghost regions: seq<SlugRegion>, k: nat, cursor: nat)
      requires k < |regions| && slugRegions == Partial(height, blocks, regions, k)
      requires cursor == Top(height, blocks, regions[k].objectIndex)
      modifies this`slugRegions
      ensures slugRegions == Partial(height, blocks, regions, k + 1)
    {
      if k != 0 {
        var p := slugRegions[k - 1];
        slugRegions := slugRegions[k - 1 := SlugRegion(p.slugNumber, p.objectIndex, p.top, cursor)];
      }
      var r := slugRegions[k];
      slugRegions := slugRegions[k := SlugRegion(r.slugNumber, r.objectIndex, cursor, r.bottom)];
      PartialStep(height, blocks, regions, k, slugRegions);
    }
  }
}
