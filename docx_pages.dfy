/**
 * What the paginated export promises about pages. The document is laid out
 * on physical pages of 52 lines: a break item starts a new page, and a line
 * written on a full page starts one as well. The exporter's line counter
 * tracks how full the physical page is, and no block's text is split across
 * two pages, provided every block with its header fits on one page.
 */
module DocxPages {
  import opened Wrappers
  import opened TextBlocks
  import opened LineWrap
  import opened ProjectModel
  import opened Docx

  // ---------------------------------------------------------------------
  // Physical pages
  // ---------------------------------------------------------------------

  /** Whether an item goes to a new page: a break does, and so does any
      item written on a full page. */
  predicate Turns(fill: nat, item: DocItem)
  {
    item.Break? || fill >= LineLimit
  }

  /** The lines on the current page after one more item. */
  function Place(fill: nat, item: DocItem): nat
  {
    if item.Break? then 0 else if fill >= LineLimit then 1 else fill + 1
  }

  /** The lines on the current page after the items. */
  function Fill(fill: nat, items: seq<DocItem>): nat
    decreases |items|
  {
    if items == [] then fill else Fill(Place(fill, items[0]), items[1..])
  }

  /** No item after the first line of text goes to a new page: separators
      and a break may come first, the text then stays on one page. */
  predicate KeptFrom(fill: nat, items: seq<DocItem>, started: bool)
    decreases |items|
  {
    items == [] ||
    ((started ==> !Turns(fill, items[0])) && KeptFrom(Place(fill, items[0]), items[1..], started || items[0].Line?))
  }

  /** The counter agrees with the page: equal to its fill, or reset to zero
      on an exactly full page, which the next line turns. */
  predicate Agrees(fill: nat, count: nat)
  {
    count <= LineLimit && (fill == count || (count == 0 && fill == LineLimit))
  }

  /** The counter and the page agree after the whole document. */
  predicate Tracked(p: Page)
  {
    Agrees(Fill(0, p.doc), p.lineCount)
  }

  /** The lines a block needs on one page, its header included. */
  function Height(b: TextBlock, next: Option<TextBlock>): nat
  {
    if b.kind == Note then 0
    else if IsSpoken(b.kind) then |SpokenLines(b)| + 1
    else if b.kind == Slug then (if next.Some? then |Wrap(next.value.content, ActionLimit)| + 2 else 0)
    else |Wrap(b.content, ActionLimit)|
  }

  predicate AllFit(bs: seq<TextBlock>)
  {
    forall k :: 0 <= k < |bs| ==> Height(bs[k], NextOf(bs, k)) <= LineLimit
  }

  // ---------------------------------------------------------------------
  // Helpers over item lists
  // ---------------------------------------------------------------------

  predicate NoLines(items: seq<DocItem>)
  {
    forall k :: 0 <= k < |items| ==> !items[k].Line?
  }

  predicate NoBreaks(items: seq<DocItem>)
  {
    forall k :: 0 <= k < |items| ==> !items[k].Break?
  }

  /** The fill a counter of `count` stands for when text follows. */
  function Norm(fill: nat): nat
  {
    if fill == LineLimit then 0 else fill
  }

  lemma {:induction false} IndentedAt(prefix: string, lines: seq<string>)
    ensures forall k :: 0 <= k < |lines| ==> Indented(prefix, lines)[k] == Line(prefix + lines[k], false)
    decreases |lines|
  {
    if lines != [] {
      IndentedAt(prefix, lines[..|lines| - 1]);
    }
  }

  lemma {:induction false} FillAppend(f: nat, a: seq<DocItem>, b: seq<DocItem>)
    ensures Fill(f, a + b) == Fill(Fill(f, a), b)
    decreases |a|
  {
    if a == [] {
      assert a + b == b;
    } else {
      assert (a + b)[0] == a[0] && (a + b)[1..] == a[1..] + b;
      FillAppend(Place(f, a[0]), a[1..], b);
    }
  }

  /** Items without text in front of a block change only where it starts. */
  lemma {:induction false} KeptAfterSeparators(f: nat, pre: seq<DocItem>, body: seq<DocItem>)
    requires NoLines(pre)
    requires KeptFrom(Fill(f, pre), body, false)
    ensures KeptFrom(f, pre + body, false)
    decreases |pre|
  {
    if pre == [] {
      assert pre + body == body;
    } else {
      assert (pre + body)[0] == pre[0] && (pre + body)[1..] == pre[1..] + body;
      KeptAfterSeparators(Place(f, pre[0]), pre[1..], body);
    }
  }

  /** Items that fit on the rest of the page turn no page. */
  lemma {:induction false} RunFits(h: nat, xs: seq<DocItem>)
    requires NoBreaks(xs) && h + |xs| <= LineLimit
    ensures KeptFrom(h, xs, true) && Fill(h, xs) == h + |xs|
    decreases |xs|
  {
    if xs != [] {
      RunFits(h + 1, xs[1..]);
    }
  }

  /** A block's text, opening with a line, on a page that holds it. */
  lemma KeptBody(g: nat, body: seq<DocItem>)
    requires body != [] && body[0].Line? && NoBreaks(body)
    requires Norm(g) + |body| <= LineLimit
    ensures KeptFrom(g, body, false) && Fill(g, body) == Norm(g) + |body|
  {
    RunFits(Norm(g) + 1, body[1..]);
  }

  /** Separators, then text that fits after them. */
  lemma KeptBlock(f: nat, pre: seq<DocItem>, body: seq<DocItem>, c: nat)
    requires NoLines(pre) && body != [] && body[0].Line? && NoBreaks(body)
    requires Norm(Fill(f, pre)) == c && c + |body| <= LineLimit
    ensures KeptFrom(f, pre + body, false) && Fill(f, pre + body) == c + |body|
  {
    KeptBody(Fill(f, pre), body);
    KeptAfterSeparators(f, pre, body);
    FillAppend(f, pre, body);
  }

  /** The break item `PageBreak` writes, if any. */
  function BreakItems(p: Page): seq<DocItem>
  {
    if p.lineCount == LineLimit then [] else [Break]
  }

  /** A page break leaves the counter at zero in agreement with the page,
      with text to follow at the top of a page. */
  lemma BrokenAgrees(f: nat, p: Page)
    requires Agrees(f, p.lineCount)
    ensures Broken(p).doc == p.doc + BreakItems(p)
    ensures Agrees(Fill(f, BreakItems(p)), 0) && Norm(Fill(f, BreakItems(p))) == 0
  {
  }

  /** A blank line on a page with room for it. */
  lemma BlankAgrees(f: nat, c: nat)
    requires Agrees(f, c) && c < LineLimit
    ensures Fill(f, [Empty]) == c + 1
  {
  }

  /** The text lines of a block in the document: a line first, no break. */
  lemma IndentedBody(prefix: string, lines: seq<string>, head: seq<DocItem>)
    requires forall k :: 0 <= k < |head| ==> head[k].Line?
    requires head != [] || lines != []
    ensures var body := head + Indented(prefix, lines);
      body != [] && body[0].Line? && NoBreaks(body)
  {
    IndentedAt(prefix, lines);
  }

  // ---------------------------------------------------------------------
  // One block at a time
  // ---------------------------------------------------------------------

  /** The conclusion of the lemmas below: `q` extends `p`'s document, and
      what it adds keeps the block's text on one page, with counter and
      page in agreement afterwards. */
  predicate KeptStep(f: nat, p: Page, q: Page)
  {
    p.doc <= q.doc && KeptFrom(f, q.doc[|p.doc|..], false) && Agrees(Fill(f, q.doc[|p.doc|..]), q.lineCount)
  }

  /** Separators then text, written as the page `q` on top of `p`. */
  lemma KeptAdded(f: nat, p: Page, q: Page, pre: seq<DocItem>, body: seq<DocItem>)
    requires q.doc == p.doc + (pre + body) && q.lineCount == Norm(Fill(f, pre)) + |body|
    requires NoLines(pre) && body != [] && body[0].Line? && NoBreaks(body)
    requires q.lineCount <= LineLimit
    ensures KeptStep(f, p, q)
  {
    assert q.doc[|p.doc|..] == pre + body;
    KeptBlock(f, pre, body, Norm(Fill(f, pre)));
  }

  lemma SpokenNoHeaderKept(f: nat, p: Page, name: string, prefix: string, lines: seq<string>)
    requires Agrees(f, p.lineCount) && 1 <= |lines| && !NeedsHeader(p, name, |lines|)
    ensures KeptStep(f, p, SpokenBlock(p, name, prefix, lines))
  {
    IndentedBody(prefix, lines, []);
    KeptAdded(f, p, SpokenBlock(p, name, prefix, lines), [], [] + Indented(prefix, lines));
  }

  lemma SpokenBrokenKept(f: nat, p: Page, name: string, prefix: string, lines: seq<string>)
    requires Agrees(f, p.lineCount) && 1 <= |lines| && |lines| + 1 <= LineLimit
    requires NeedsHeader(p, name, |lines|) && p.lineCount + |lines| + 2 > LineLimit
    ensures KeptStep(f, p, SpokenBlock(p, name, prefix, lines))
  {
    var header := [Line(Header(name, p.lastCharacter), false)];
    BrokenAgrees(f, p);
    IndentedBody(prefix, lines, header);
    KeptAdded(f, p, SpokenBlock(p, name, prefix, lines), BreakItems(p), header + Indented(prefix, lines));
  }

  lemma SpokenBlankKept(f: nat, p: Page, name: string, prefix: string, lines: seq<string>)
    requires Agrees(f, p.lineCount) && 1 <= |lines|
    requires NeedsHeader(p, name, |lines|) && p.lineCount + |lines| + 2 <= LineLimit
    ensures KeptStep(f, p, SpokenBlock(p, name, prefix, lines))
  {
    var header := [Line(Header(name, p.lastCharacter), false)];
    BlankAgrees(f, p.lineCount);
    IndentedBody(prefix, lines, header);
    KeptAdded(f, p, SpokenBlock(p, name, prefix, lines), [Empty], header + Indented(prefix, lines));
  }

  lemma SpokenKept(f: nat, p: Page, b: TextBlock)
    requires IsSpoken(b.kind) && Agrees(f, p.lineCount) && Height(b, None) <= LineLimit
    ensures KeptStep(f, p, WriteSpoken(p, b))
  {
    var lines := SpokenLines(b);
    if !NeedsHeader(p, b.character, |lines|) {
      SpokenNoHeaderKept(f, p, b.character, SpokenPrefix(b.kind), lines);
    } else if p.lineCount + |lines| + 2 > LineLimit {
      SpokenBrokenKept(f, p, b.character, SpokenPrefix(b.kind), lines);
    } else {
      SpokenBlankKept(f, p, b.character, SpokenPrefix(b.kind), lines);
    }
  }

  /** The separator before a slug or an action keeps counter and page in
      agreement. */
  lemma SeparatedKept(f: nat, p: Page) returns (pre: seq<DocItem>)
    requires Agrees(f, p.lineCount)
    ensures Separated(p).doc == p.doc + pre && NoLines(pre)
    ensures Agrees(Fill(f, pre), Separated(p).lineCount)
    ensures Separated(p).slugCount == p.slugCount
  {
    if p.lineCount == LineLimit {
      pre := [];
    } else if p.lineCount != 0 {
      pre := [Empty];
      BlankAgrees(f, p.lineCount);
    } else {
      pre := [];
    }
  }

  /** A page break when `m` more lines do not fit; the text then fits. */
  lemma BreakIfNeeded(g: nat, p: Page, m: nat) returns (pre: seq<DocItem>)
    requires Agrees(g, p.lineCount) && 1 <= m <= LineLimit
    ensures var p3 := if p.lineCount + m > LineLimit then Broken(p) else p;
      p3.doc == p.doc + pre && NoLines(pre) &&
      Norm(Fill(g, pre)) == p3.lineCount && p3.lineCount + m <= LineLimit
  {
    if p.lineCount + m > LineLimit {
      BrokenAgrees(g, p);
      pre := BreakItems(p);
    } else {
      pre := [];
    }
  }

  lemma SlugBlockKept(g: nat, p: Page, slug: string, lines: seq<string>)
    requires Agrees(g, p.lineCount) && 1 <= |lines| && |lines| + 2 <= LineLimit
    ensures KeptStep(g, p, SlugBlock(p, slug, lines))
  {
    var pre := BreakIfNeeded(g, p, |lines| + 2);
    var head := [Line(slug, true), Empty];
    IndentedAt("\t", lines);
    KeptAdded(g, p, SlugBlock(p, slug, lines), pre, head + Indented("\t", lines));
  }

  lemma ActionBlockKept(g: nat, p: Page, lines: seq<string>)
    requires Agrees(g, p.lineCount) && 1 <= |lines| <= LineLimit
    ensures KeptStep(g, p, ActionBlock(p, lines))
  {
    var pre := BreakIfNeeded(g, p, |lines|);
    var p3 := if p.lineCount + |lines| > LineLimit then Broken(p) else p;
    var body := Indented("\t", lines);
    IndentedBody("\t", lines, []);
    assert [] + body == body;
    var q := ActionBlock(p, lines);
    assert q == Emit(p3, body);
    assert q.doc == p.doc + (pre + body);
    KeptAdded(g, p, q, pre, body);
  }

  /** A block written after separators `pre` onto the page `p1`. */
  lemma KeptAfter(f: nat, p: Page, p1: Page, q: Page, pre: seq<DocItem>)
    requires p1.doc == p.doc + pre && NoLines(pre) && KeptStep(Fill(f, pre), p1, q)
    ensures KeptStep(f, p, q)
  {
    var added := q.doc[|p1.doc|..];
    assert q.doc == p.doc + (pre + added);
    assert q.doc[|p.doc|..] == pre + added;
    KeptAfterSeparators(f, pre, added);
    FillAppend(f, pre, added);
  }

  lemma OtherKept(f: nat, p: Page, b: TextBlock, next: Option<TextBlock>)
    requires b.kind != Note && !IsSpoken(b.kind)
    requires Agrees(f, p.lineCount) && Height(b, next) <= LineLimit
    ensures KeptStep(f, p, WriteOther(p, b, next).0)
  {
    var q := WriteOther(p, b, next).0;
    var p0 := Page(p.doc, p.lineCount, p.slugCount, p.lastCharacter, false);
    var p1 := Separated(p0);
    var pre1 := SeparatedKept(f, p0);
    var g := Fill(f, pre1);
    if b.kind == Slug && next.None? {
      var pre2 := if p1.lineCount + 1 > LineLimit then BreakItems(p1) else [];
      assert q.doc == p1.doc + (pre2 + []);
      KeptAfterSeparators(g, pre2, []);
      assert q.doc[|p1.doc|..] == pre2;
      assert KeptStep(g, p1, q);
    } else if b.kind == Slug {
      SlugBlockKept(g, p1, SlugLine(p1.slugCount, b.content), Wrap(next.value.content, ActionLimit));
    } else {
      ActionBlockKept(g, p1, Wrap(b.content, ActionLimit));
    }
    KeptAfter(f, p, p1, q, pre1);
  }

  /** `WriteBlock` on a tracked page whose block fits keeps counter and page
      in agreement and writes the block's text on a single page. */
  lemma BlockKept(f: nat, p: Page, b: TextBlock, next: Option<TextBlock>)
    requires Agrees(f, p.lineCount) && Height(b, next) <= LineLimit
    ensures KeptStep(f, p, WriteBlockSpec(p, b, next).0)
  {
    if b.kind == Note {
      assert p.doc[|p.doc|..] == [];
    } else if IsSpoken(b.kind) {
      SpokenKept(f, p, b);
    } else {
      OtherKept(f, p, b, next);
    }
  }

  /** The counter stays within the page after every block. */
  lemma BlockTracked(p: Page, b: TextBlock, next: Option<TextBlock>)
    requires Tracked(p) && Height(b, next) <= LineLimit
    ensures Tracked(WriteBlockSpec(p, b, next).0)
    ensures WriteBlockSpec(p, b, next).0.lineCount <= LineLimit
  {
    var q := WriteBlockSpec(p, b, next).0;
    BlockKept(Fill(0, p.doc), p, b, next);
    assert q.doc == p.doc + q.doc[|p.doc|..];
    FillAppend(0, p.doc, q.doc[|p.doc|..]);
  }

  /** Over a whole sequence whose blocks all fit, the counter stays within
      the page and agrees with it. */
  lemma {:induction false} ExportTracked(p: Page, bs: seq<TextBlock>, i: nat)
    requires Tracked(p) && AllFit(bs)
    ensures Tracked(ExportFrom(p, bs, i)) && ExportFrom(p, bs, i).lineCount <= LineLimit
    decreases |bs| - i
  {
    if i < |bs| {
      BlockTracked(p, bs[i], NextOf(bs, i));
      var r := WriteBlockSpec(p, bs[i], NextOf(bs, i));
      ExportTracked(r.0, bs, if r.1 then i + 2 else i + 1);
    }
  }

  /** The same for every sequence of a project, from the state `Export`
      starts in. */
  lemma {:induction false} ExportSeqsTracked(seqs: seq<Sequence>)
    requires forall s :: 0 <= s < |seqs| ==> AllFit(seqs[s].blocks)
    ensures Tracked(ExportSeqs(Start, seqs)) && ExportSeqs(Start, seqs).lineCount <= LineLimit
    decreases |seqs|
  {
    if seqs != [] {
      ExportSeqsTracked(seqs[..|seqs| - 1]);
      ExportTracked(ExportSeqs(Start, seqs[..|seqs| - 1]), seqs[|seqs| - 1].blocks, 0);
    }
  }

  // ---------------------------------------------------------------------
  // Headers, skipping and numbering
  // ---------------------------------------------------------------------

  /** `WriteBlock` tells `ForEach` to skip the next block exactly when it
      wrote a slug together with that block. */
  lemma WriteBlockSkips(p: Page, b: TextBlock, next: Option<TextBlock>)
    ensures WriteBlockSpec(p, b, next).1 <==> SlugWithNext(b, next)
  {
  }

  /** The export writes, in order, exactly the blocks `ForEach` visits when
      the callback answers with `SlugWithNext`. */
  lemma {:induction false} ExportVisits(p: Page, bs: seq<TextBlock>, i: nat)
    ensures forall k :: 0 <= k < |Visits(bs, SlugWithNext, i)| ==> Visits(bs, SlugWithNext, i)[k] < |bs|
    ensures ExportFrom(p, bs, i) == WriteAt(p, bs, Visits(bs, SlugWithNext, i))
    decreases |bs| - i
  {
    VisitsRange(bs, SlugWithNext, i);
    if i < |bs| {
      var r := WriteBlockSpec(p, bs[i], NextOf(bs, i));
      WriteBlockSkips(p, bs[i], NextOf(bs, i));
      var i' := if r.1 then i + 2 else i + 1;
      ExportVisits(r.0, bs, i');
      var rest := Visits(bs, SlugWithNext, i');
      assert Visits(bs, SlugWithNext, i) == [i] + rest;
      assert ([i] + rest)[1..] == rest;
    }
  }

  /** Notes print nothing and leave the layout state as it was. */
  lemma NoteUntouched(p: Page, b: TextBlock, next: Option<TextBlock>)
    requires b.kind == Note
    ensures WriteBlockSpec(p, b, next) == (p, false)
  {
  }

  /** A slug uses up a number exactly when it is written with its next
      block; that line is the only bold one the block writes, and it carries
      the number the counter held. */
  lemma SlugNumbered(p: Page, b: TextBlock, next: Option<TextBlock>)
    ensures var q := WriteBlockSpec(p, b, next).0;
      q.slugCount == p.slugCount + (if SlugWithNext(b, next) then 1 else 0) &&
      p.doc <= q.doc &&
      Bold(q.doc[|p.doc|..]) == (if SlugWithNext(b, next) then [SlugLine(p.slugCount, b.content)] else [])
  {
    var q := WriteBlockSpec(p, b, next).0;
    var added: seq<DocItem>;
    if b.kind == Note {
      added := [];
      assert q.doc == p.doc + added;
    } else if IsSpoken(b.kind) {
      added := SpokenNotBold(p, b.character, SpokenPrefix(b.kind), SpokenLines(b));
    } else {
      added := OtherNumbered(p, b, next);
    }
    assert q.doc[|p.doc|..] == added;
  }

  /** A non-dialogue block adds a bold line exactly when it is a slug with a
      following block, and that line carries the slug's current number. */
  lemma OtherNumbered(p: Page, b: TextBlock, next: Option<TextBlock>) returns (added: seq<DocItem>)
    requires b.kind != Note && !IsSpoken(b.kind)
    ensures var q := WriteOther(p, b, next).0;
      q.doc == p.doc + added &&
      q.slugCount == p.slugCount + (if SlugWithNext(b, next) then 1 else 0) &&
      Bold(added) == (if SlugWithNext(b, next) then [SlugLine(p.slugCount, b.content)] else [])
  {
    if b.kind == Slug && next.None? {
      added := LoneSlugNumbered(p, b, next);
    } else if b.kind == Slug {
      added := SlugNumberedLine(p, b, next);
    } else {
      added := ActionNumbered(p, b, next);
    }
  }

  /** A slug with nothing after it prints nothing bold and takes no number. */
  lemma LoneSlugNumbered(p: Page, b: TextBlock, next: Option<TextBlock>) returns (added: seq<DocItem>)
    requires b.kind == Slug && next.None?
    ensures var q := WriteOther(p, b, next).0;
      q.doc == p.doc + added &&
      q.slugCount == p.slugCount + (if SlugWithNext(b, next) then 1 else 0) &&
      Bold(added) == (if SlugWithNext(b, next) then [SlugLine(p.slugCount, b.content)] else [])
  {
    var p0 := Page(p.doc, p.lineCount, p.slugCount, p.lastCharacter, false);
    var p1 := Separated(p0);
    var pre1 := SeparatedBold(p0);
    var rest := BreakBold(p1, p1.lineCount + 1 > LineLimit);
    added := pre1 + rest;
    BoldAppend(pre1, rest);
    assert Bold(added) == Bold(rest);
  }

  /** A slug with a following block prints one bold, numbered slug line. */
  lemma SlugNumberedLine(p: Page, b: TextBlock, next: Option<TextBlock>) returns (added: seq<DocItem>)
    requires b.kind == Slug && next.Some?
    ensures var q := WriteOther(p, b, next).0;
      q.doc == p.doc + added &&
      q.slugCount == p.slugCount + (if SlugWithNext(b, next) then 1 else 0) &&
      Bold(added) == (if SlugWithNext(b, next) then [SlugLine(p.slugCount, b.content)] else [])
  {
    var p0 := Page(p.doc, p.lineCount, p.slugCount, p.lastCharacter, false);
    var f := Wrap(next.value.content, ActionLimit);
    added := SlugAfterSeparator(p0, SlugLine(p.slugCount, b.content), f);
  }

  lemma SlugAfterSeparator(p: Page, slug: string, f: seq<string>) returns (added: seq<DocItem>)
    ensures var q := SlugBlock(Separated(p), slug, f);
      q.doc == p.doc + added && q.slugCount == p.slugCount + 1 && Bold(added) == [slug]
  {
    var p1 := Separated(p);
    var pre1 := SeparatedBold(p);
    var rest := SlugBlockBold(p1, slug, f);
    var q := SlugBlock(p1, slug, f);
    added := pre1 + rest;
    assert q.doc == p.doc + added;
    BoldAppend(pre1, rest);
  }

  /** An action block prints nothing bold and takes no number. */
  lemma ActionNumbered(p: Page, b: TextBlock, next: Option<TextBlock>) returns (added: seq<DocItem>)
    requires b.kind != Slug && b.kind != Note && !IsSpoken(b.kind)
    ensures var q := WriteOther(p, b, next).0;
      q.doc == p.doc + added &&
      q.slugCount == p.slugCount + (if SlugWithNext(b, next) then 1 else 0) &&
      Bold(added) == (if SlugWithNext(b, next) then [SlugLine(p.slugCount, b.content)] else [])
  {
    var p0 := Page(p.doc, p.lineCount, p.slugCount, p.lastCharacter, false);
    var f := Wrap(b.content, ActionLimit);
    added := ActionAfterSeparator(p0, f);
  }

  lemma ActionAfterSeparator(p: Page, f: seq<string>) returns (added: seq<DocItem>)
    ensures var q := ActionBlock(Separated(p), f);
      q.doc == p.doc + added && q.slugCount == p.slugCount && Bold(added) == []
  {
    var p1 := Separated(p);
    var pre1 := SeparatedBold(p);
    var rest := ActionBlockBold(p1, f);
    added := pre1 + rest;
    BoldAppend(pre1, rest);
  }

  lemma SeparatedBold(p: Page) returns (pre: seq<DocItem>)
    ensures Separated(p).doc == p.doc + pre && Bold(pre) == [] && Separated(p).slugCount == p.slugCount
  {
    pre := if p.lineCount == LineLimit then [] else if p.lineCount != 0 then [Empty] else [];
    assert NoBold(pre);
    BoldFree(pre);
  }

  lemma BreakBold(p: Page, c: bool) returns (pre: seq<DocItem>)
    ensures var q := if c then Broken(p) else p;
      q.doc == p.doc + pre && Bold(pre) == [] && q.slugCount == p.slugCount
  {
    pre := if c then BreakItems(p) else [];
    assert NoBold(pre);
    BoldFree(pre);
  }

  /** The texts of the bold lines, in order. */
  function Bold(items: seq<DocItem>): seq<string>
    decreases |items|
  {
    if items == [] then []
    else Bold(items[..|items| - 1]) + (if items[|items| - 1].Line? && items[|items| - 1].bold then [items[|items| - 1].text] else [])
  }

  lemma {:induction false} BoldAppend(a: seq<DocItem>, b: seq<DocItem>)
    ensures Bold(a + b) == Bold(a) + Bold(b)
    decreases |b|
  {
    if b == [] {
      assert a + b == a;
    } else {
      assert (a + b)[..|a + b| - 1] == a + b[..|b| - 1];
      BoldAppend(a, b[..|b| - 1]);
    }
  }

  predicate NoBold(items: seq<DocItem>)
  {
    forall k :: 0 <= k < |items| ==> !(items[k].Line? && items[k].bold)
  }

  lemma {:induction false} BoldFree(items: seq<DocItem>)
    requires NoBold(items)
    ensures Bold(items) == []
    decreases |items|
  {
    if items != [] {
      BoldFree(items[..|items| - 1]);
    }
  }

  lemma IndentedNotBold(prefix: string, lines: seq<string>)
    ensures NoBold(Indented(prefix, lines))
  {
    IndentedAt(prefix, lines);
  }

  lemma SpokenNotBold(p: Page, name: string, prefix: string, lines: seq<string>) returns (added: seq<DocItem>)
    ensures SpokenBlock(p, name, prefix, lines).doc == p.doc + added
    ensures Bold(added) == []
  {
    var pre := SpokenHeadItems(p, name, prefix, lines);
    var body := Indented(prefix, lines);
    IndentedNotBold(prefix, lines);
    BoldFree(pre);
    BoldFree(body);
    added := pre + body;
    BoldAppend(pre, body);
  }

  /** What a spoken block writes before its lines: nothing, or a break or
      blank line and the plain header line. */
  lemma SpokenHeadItems(p: Page, name: string, prefix: string, lines: seq<string>) returns (pre: seq<DocItem>)
    ensures SpokenBlock(p, name, prefix, lines).doc == p.doc + pre + Indented(prefix, lines)
    ensures NoBold(pre)
  {
    if NeedsHeader(p, name, |lines|) {
      var gap := if p.lineCount + |lines| + 2 > LineLimit then BreakItems(p) else [Empty];
      pre := gap + [Line(Header(name, p.lastCharacter), false)];
    } else {
      pre := [];
    }
  }

  lemma SlugBlockBold(p: Page, slug: string, lines: seq<string>) returns (added: seq<DocItem>)
    ensures SlugBlock(p, slug, lines).doc == p.doc + added
    ensures SlugBlock(p, slug, lines).slugCount == p.slugCount + 1
    ensures Bold(added) == [slug]
  {
    var c := p.lineCount + |lines| + 2 > LineLimit;
    var pre := BreakBold(p, c);
    var items := [Line(slug, true), Empty] + Indented("\t", lines);
    SlugBlockDoc(p, slug, lines);
    SlugItemsBold(slug, lines);
    added := pre + items;
    BoldAppend(pre, items);
  }

  lemma SlugBlockDoc(p: Page, slug: string, lines: seq<string>)
    ensures var p2 := if p.lineCount + |lines| + 2 > LineLimit then Broken(p) else p;
      SlugBlock(p, slug, lines).doc == p2.doc + ([Line(slug, true), Empty] + Indented("\t", lines)) &&
      SlugBlock(p, slug, lines).slugCount == p.slugCount + 1
  {
  }

  lemma SlugItemsBold(slug: string, lines: seq<string>)
    ensures Bold([Line(slug, true), Empty] + Indented("\t", lines)) == [slug]
  {
    var rest := [Empty] + Indented("\t", lines);
    IndentedNotBold("\t", lines);
    assert NoBold(rest);
    BoldFree(rest);
    OneBold(slug, rest);
    assert [Line(slug, true)] + rest == [Line(slug, true), Empty] + Indented("\t", lines);
  }

  /** A bold line followed by plain items. */
  lemma OneBold(slug: string, rest: seq<DocItem>)
    requires Bold(rest) == []
    ensures Bold([Line(slug, true)] + rest) == [slug]
  {
    var head := [Line(slug, true)];
    assert head[..0] == [];
    BoldAppend(head, rest);
  }

  lemma ActionBlockBold(p: Page, lines: seq<string>) returns (added: seq<DocItem>)
    ensures ActionBlock(p, lines).doc == p.doc + added
    ensures Bold(added) == []
  {
    var pre := if p.lineCount + |lines| > LineLimit then BreakItems(p) else [];
    added := pre + Indented("\t", lines);
    IndentedNotBold("\t", lines);
    assert NoBold(added);
    BoldFree(added);
  }
}
