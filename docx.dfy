/**
 * The paginated export (ss-export/core/DocxExporter.h): every block of the
 * project, in `ForEach` order, laid out on pages of 52 lines. The document
 * library is not modelled; the document is the list of items the exporter
 * appends to it (a line with its bold flag, an empty line, a page break).
 * `WriteBlock` is specified by `WriteBlockSpec` over the exporter's fields,
 * and the layout rules are proved about that function.
 */
module Docx {
  import opened Wrappers
  import opened Strings
  import opened TextBlocks
  import opened LineWrap
  import opened ProjectModel

  const DialogueLimit: nat := 36
  const ParenthLimit: nat := 31
  const ActionLimit: nat := 57
  const LineLimit: nat := 52

  /** What the exporter appends to the document. */
  datatype DocItem = Line(text: string, bold: bool) | Empty | Break

  /** The exporter's state: the document so far, `m_lineCount`,
      `m_slugCount`, `m_lastCharacter` and `m_wasLastBlockDialogue`. */
  datatype Page = Page(doc: seq<DocItem>, lineCount: nat, slugCount: nat, lastCharacter: string, wasDialogue: bool)

  /** The state `Export` starts from. */
  const Start: Page := Page([], 0, 1, "", false)

  // ---------------------------------------------------------------------
  // The steps of one block
  // ---------------------------------------------------------------------

  /** `PageBreak`: a break item unless the page is exactly full, and the
      counter starts again. */
  function Broken(p: Page): (q: Page)
    ensures q.lineCount == 0
    ensures q.doc == (if p.lineCount == LineLimit then p.doc else p.doc + [Break])
    ensures q.slugCount == p.slugCount && q.lastCharacter == p.lastCharacter && q.wasDialogue == p.wasDialogue
  {
    Page(if p.lineCount != LineLimit then p.doc + [Break] else p.doc, 0, p.slugCount, p.lastCharacter, p.wasDialogue)
  }

  /** `EmptyLine` followed by the counter increment every caller makes. */
  function Blank(p: Page): Page
  {
    Page(p.doc + [Empty], p.lineCount + 1, p.slugCount, p.lastCharacter, p.wasDialogue)
  }

  /** Plain lines, each with the same indentation, in order. */
  function Indented(prefix: string, lines: seq<string>): (r: seq<DocItem>)
    ensures |r| == |lines|
    decreases |lines|
  {
    if lines == [] then [] else Indented(prefix, lines[..|lines| - 1]) + [Line(prefix + lines[|lines| - 1], false)]
  }

  /** Items appended to the document, the counter left alone. */
  function Appended(p: Page, items: seq<DocItem>): Page
  {
    Page(p.doc + items, p.lineCount, p.slugCount, p.lastCharacter, p.wasDialogue)
  }

  /** Counted lines appended to the page. */
  function Emit(p: Page, items: seq<DocItem>): Page
  {
    Page(p.doc + items, p.lineCount + |items|, p.slugCount, p.lastCharacter, p.wasDialogue)
  }

  /** The wrapped lines of a dialogue or parenthetical block. */
  function SpokenLines(b: TextBlock): (r: seq<string>)
    ensures |r| >= 1
  {
    if b.kind == Parenthetical then Parenthesized(Wrap(b.content, ParenthLimit)) else Wrap(b.content, DialogueLimit)
  }

  /** The character header; `(CONT'D)` when the speaker is the last one. */
  function Header(name: string, last: string): string
  {
    "\t\t\t\t\t" + name + (if name == last then " (CONT'D)" else "")
  }

  /** The indentation of a dialogue or parenthetical line. */
  function SpokenPrefix(kind: BlockType): string
  {
    if kind == Parenthetical then "\t\t\t\t" else "\t\t\t"
  }

  /** Whether a block of `n` lines spoken by `name` gets a header: its lines
      would overrun the page, the block before was not dialogue, or the
      speaker changed. */
  predicate NeedsHeader(p: Page, name: string, n: nat)
  {
    p.lineCount + n > LineLimit || !p.wasDialogue || name != p.lastCharacter
  }

  /** The formatted lines `f` of a block spoken by `name`: when a header is
      needed, a page break if the header, a blank line and the lines do not
      fit, a blank line otherwise, and the header; then the lines. */
  function SpokenBlock(p: Page, name: string, prefix: string, f: seq<string>): Page
  {
    var p1 :=
      if NeedsHeader(p, name, |f|) then
        var p0 := if p.lineCount + |f| + 2 > LineLimit then Broken(p) else Blank(p);
        Emit(p0, [Line(Header(name, p.lastCharacter), false)])
      else p;
    var p2 := Emit(p1, Indented(prefix, f));
    Page(p2.doc, p2.lineCount, p2.slugCount, name, true)
  }

  /** A dialogue or parenthetical block. */
  function WriteSpoken(p: Page, b: TextBlock): Page
  {
    SpokenBlock(p, b.character, SpokenPrefix(b.kind), SpokenLines(b))
  }

  /** The separator before a slug or an action: nothing on an empty page,
      a bare counter reset on an exactly full one, a counted blank line
      otherwise. */
  function Separated(p: Page): Page
  {
    if p.lineCount == LineLimit then Broken(p)
    else if p.lineCount != 0 then Blank(p)
    else p
  }

  /** A slug with a next block, after the separator: a page break unless
      the slug line, a blank line and the next block's wrapped lines `f` fit,
      then those lines, and the counter moves on to the next number. */
  function SlugBlock(p: Page, slugLine: string, f: seq<string>): Page
  {
    var p2 := if p.lineCount + |f| + 2 > LineLimit then Broken(p) else p;
    var p3 := Emit(p2, [Line(slugLine, true), Empty] + Indented("\t", f));
    Page(p3.doc, p3.lineCount, p2.slugCount + 1, p3.lastCharacter, p3.wasDialogue)
  }

  /** An action (or unassigned) block wrapped to `f`, after the separator:
      a page break unless its lines fit, then those lines. */
  function ActionBlock(p: Page, f: seq<string>): Page
  {
    Emit(if p.lineCount + |f| > LineLimit then Broken(p) else p, Indented("\t", f))
  }

  /** A slug, an action or an unassigned block; the answer is whether the
      next block was written here and is to be skipped. */
  function WriteOther(p: Page, b: TextBlock, next: Option<TextBlock>): (Page, bool)
  {
    var p1 := Separated(Page(p.doc, p.lineCount, p.slugCount, p.lastCharacter, false));
    if b.kind == Slug then
      if next.None? then (if p1.lineCount + 1 > LineLimit then Broken(p1) else p1, false)
      else (SlugBlock(p1, SlugLine(p1.slugCount, b.content), Wrap(next.value.content, ActionLimit)), true)
    else (ActionBlock(p1, Wrap(b.content, ActionLimit)), false)
  }

  /** `WriteBlock`: notes are left out; the answer tells `ForEach` to skip
      the next block. */
  function WriteBlockSpec(p: Page, b: TextBlock, next: Option<TextBlock>): (Page, bool)
  {
    if b.kind == Note then (p, false)
    else if IsSpoken(b.kind) then (WriteSpoken(p, b), false)
    else WriteOther(p, b, next)
  }

  // ---------------------------------------------------------------------
  // The whole export
  // ---------------------------------------------------------------------

  /** The blocks of one sequence from position `i` on, each handed its next
      block and the block after a written-through one skipped. */
  function ExportFrom(p: Page, bs: seq<TextBlock>, i: nat): Page
    decreases |bs| - i
  {
    if i >= |bs| then p
    else
      var r := WriteBlockSpec(p, bs[i], NextOf(bs, i));
      ExportFrom(r.0, bs, if r.1 then i + 2 else i + 1)
  }

  /** The sequences one after the other. */
  function ExportSeqs(p: Page, seqs: seq<Sequence>): Page
    decreases |seqs|
  {
    if seqs == [] then p else ExportFrom(ExportSeqs(p, seqs[..|seqs| - 1]), seqs[|seqs| - 1].blocks, 0)
  }

  /** The blocks at the given positions, written in order. */
  function WriteAt(p: Page, bs: seq<TextBlock>, positions: seq<nat>): Page
    requires forall k :: 0 <= k < |positions| ==> positions[k] < |bs|
    decreases |positions|
  {
    if positions == [] then p
    else WriteAt(WriteBlockSpec(p, bs[positions[0]], NextOf(bs, positions[0])).0, bs, positions[1..])
  }

  /** The callback's answer as a function of the block and its successor. */
  predicate SlugWithNext(b: TextBlock, next: Option<TextBlock>)
  {
    b.kind == Slug && next.Some?
  }

  // ---------------------------------------------------------------------
  // Slug lines
  // ---------------------------------------------------------------------

  /** The spaces `SlugFormat` puts between the slug text and the repeated
      number, as far as they fit in the action width. */
  function SlugPad(numLen: nat, lineLen: nat): nat
  {
    if numLen + lineLen <= ActionLimit then ActionLimit - lineLen - numLen else 0
  }

  /** `SlugFormat(number, line)`: the number, a tab, the slug text, the
      padding and the number again. */
  function SlugLine(number: nat, line: string): (r: string)
    ensures var n := DecimalString(number);
      |r| >= |n| + 1 + |line| + |n| &&
      r[..|n| + 1 + |line|] == n + "\t" + line && r[|r| - |n|..] == n &&
      (forall c :: |n| + 1 + |line| <= c < |r| - |n| ==> r[c] == ' ') &&
      (|n| + |line| <= ActionLimit ==> |r| == ActionLimit + 1 + |n|) &&
      (|n| + |line| > ActionLimit ==> |r| == |n| + 1 + |line| + |n|)
  {
    var n := DecimalString(number);
    n + "\t" + line + Spaces(SlugPad(|n|, |line|)) + n
  }

  /** The padding as the source computes it: `ACTION_LIMIT - line.length()
      - numstr.length()` is `size_t` arithmetic, taken modulo 2^64. */
  function SlugPadAsWritten(numLen: nat, lineLen: nat): nat
  {
    (ActionLimit - lineLen - numLen) % 0x1_0000_0000_0000_0000
  }

  /** When the slug fits, the source's padding is the intended one. */
  lemma SlugPadAgrees(numLen: nat, lineLen: nat)
    requires numLen + lineLen <= ActionLimit
    ensures SlugPadAsWritten(numLen, lineLen) == SlugPad(numLen, lineLen)
  {
  }

  /** When it does not, the count wraps to nearly 2^64, beyond the largest
      `int`, so the source's `int` loop counter overflows before the loop
      ends. */
  lemma SlugPadAsWrittenOverflows(numLen: nat, lineLen: nat)
    requires ActionLimit < numLen + lineLen < 0x1_0000_0000
    ensures SlugPadAsWritten(numLen, lineLen) == 0x1_0000_0000_0000_0000 + ActionLimit - lineLen - numLen
    ensures SlugPadAsWritten(numLen, lineLen) > IntMax
  {
  }

  /** Scene 1 with a slug text of 57 characters: the loop is asked for
      2^64 - 1 spaces. */
  lemma SlugPadCounterexample(number: nat, line: string)
    requires number == 1 && |line| == 57
    ensures SlugPadAsWritten(|DecimalString(number)|, |line|) == 0xFFFF_FFFF_FFFF_FFFF
    ensures SlugPad(|DecimalString(number)|, |line|) == 0
  {
    DecimalStringLength(number);
  }

  lemma AppendPair(d: seq<DocItem>, a: DocItem, b: DocItem, rest: seq<DocItem>)
    ensures d + [a] + [b] + rest == d + ([a, b] + rest)
  {
  }

  // ---------------------------------------------------------------------
  // The exporter
  // ---------------------------------------------------------------------

  class DocxExporter {
    var doc: seq<DocItem>
    var wasLastBlockDialogue: bool
    var slugCount: nat
    var lastCharacter: string
    var lineCount: nat

    function Snapshot(): Page
      reads this
    {
      Page(doc, lineCount, slugCount, lastCharacter, wasLastBlockDialogue)
    }

    constructor()
      ensures Snapshot() == Page([], 0, 0, "", false)
    {
      doc := [];
      wasLastBlockDialogue := false;
      slugCount := 0;
      lastCharacter := "";
      lineCount := 0;
    }

    /** `Export`: a new document, the state reset, and every block written
        in `ForEach` order. */
    method Export(proj: Project)
      modifies this
      ensures Snapshot() == ExportSeqs(Start, proj.sequences)
    {
      doc := [];
      lineCount := 0;
      slugCount := 1;
      lastCharacter := "";
      wasLastBlockDialogue := false;
      var seqs := proj.sequences;
      for s := 0 to |seqs|
        invariant Snapshot() == ExportSeqs(Start, seqs[..s])
      {
        assert seqs[..s + 1][..s] == seqs[..s];
        var blocks := seqs[s].blocks;
        ghost var before := Snapshot();
        var i := 0;
        while i < |blocks|
          invariant ExportFrom(before, blocks, 0) == ExportFrom(Snapshot(), blocks, i)
          decreases |blocks| - i
        {
          var next := if i < |blocks| - 1 then Some(blocks[i + 1]) else None;
          var skip := WriteBlock(blocks[i], next);
          if skip {
            i := i + 1;
          }
          i := i + 1;
        }
      }
      assert seqs[..|seqs|] == seqs;
    }

    method EmptyLine()
      modifies this
      ensures Snapshot() == Appended(old(Snapshot()), [Empty])
    {
      doc := doc + [Empty];
    }

    method PageBreak()
      modifies this
      ensures Snapshot() == Broken(old(Snapshot()))
    {
      if lineCount != LineLimit {
        doc := doc + [Break];
      }
      lineCount := 0;
    }

    method AddLine(content: string, isBold: bool)
      modifies this
      ensures Snapshot() == Appended(old(Snapshot()), [Line(content, isBold)])
    {
      doc := doc + [Line(content, isBold)];
    }

    /** The loop that appends the wrapped lines, each with the same
        indentation; the counter is advanced by the caller. */
    method AddLines(prefix: string, lines: seq<string>)
      modifies this
      ensures Snapshot() == Appended(old(Snapshot()), Indented(prefix, lines))
    {
      for k := 0 to |lines|
        invariant Snapshot() == Appended(old(Snapshot()), Indented(prefix, lines[..k]))
      {
        assert lines[..k + 1][..k] == lines[..k];
        AddLine(prefix + lines[k], false);
      }
      assert lines[..|lines|] == lines;
    }

    method WriteBlock(block: TextBlock, next: Option<TextBlock>) returns (skip: bool)
      modifies this
      ensures (Snapshot(), skip) == WriteBlockSpec(old(Snapshot()), block, next)
    {
      if block.kind == Note {
        return false;
      }
      if block.kind == Parenthetical || block.kind == Dialogue {
        WriteSpokenBlock(block);
        return false;
      }
      skip := WriteOtherBlock(block, next);
    }

    /** The dialogue and parenthetical branch of `WriteBlock`. */
    method WriteSpokenBlock(block: TextBlock)
      requires IsSpoken(block.kind)
      modifies this
      ensures Snapshot() == WriteSpoken(old(Snapshot()), block)
    {
      var formatted;
      if block.kind == Parenthetical {
        formatted := ParentheticalLineBreaks(block.content);
        formatted := Parenthesize(formatted);
      } else {
        formatted := DialogueLineBreaks(block.content);
      }
      WriteSpokenLines(block.character, if block.kind == Parenthetical then "\t\t\t\t" else "\t\t\t", formatted);
    }

    /** The formatted lines of a dialogue or parenthetical block, with the
        header when one is needed. */
    method WriteSpokenLines(name: string, prefix: string, formatted: seq<string>)
      modifies this
      ensures Snapshot() == SpokenBlock(old(Snapshot()), name, prefix, formatted)
    {
      ghost var p := Snapshot();
      var lineBreakOverride := lineCount + |formatted| > LineLimit;
      if lineBreakOverride || !wasLastBlockDialogue || name != lastCharacter {
        if lineCount + |formatted| + 2 > LineLimit {
          PageBreak();
        } else {
          EmptyLine();
          lineCount := lineCount + 1;
        }
        var header;
        if name == lastCharacter {
          header := "\t\t\t\t\t" + name + " (CONT'D)";
        } else {
          header := "\t\t\t\t\t" + name;
          assert header == header + "";
        }
        assert header == Header(name, p.lastCharacter);
        AddLine(header, false);
        lineCount := lineCount + 1;
      }
      AddLines(prefix, formatted);
      lineCount := lineCount + |formatted|;
      lastCharacter := name;
      wasLastBlockDialogue := true;
    }

    /** The slug and action branch of `WriteBlock`. */
    method WriteOtherBlock(block: TextBlock, next: Option<TextBlock>) returns (skip: bool)
      requires block.kind != Note && !IsSpoken(block.kind)
      modifies this
      ensures (Snapshot(), skip) == WriteOther(old(Snapshot()), block, next)
    {
      wasLastBlockDialogue := false;
      Separate();
      if block.kind == Slug {
        if next.None? {
          if lineCount + 1 > LineLimit {
            PageBreak();
          }
          return false;
        }
        var formatted := ActionLineBreaks(next.value.content);
        WriteSlug(block.content, formatted);
        return true;
      }
      var formatted := ActionLineBreaks(block.content);
      WriteAction(formatted);
      return false;
    }

    /** The separator in front of a slug or an action. */
    method Separate()
      modifies this
      ensures Snapshot() == Separated(old(Snapshot()))
    {
      if lineCount == LineLimit {
        PageBreak();
      } else if lineCount != 0 {
        EmptyLine();
        lineCount := lineCount + 1;
      }
    }

    /** The rest of the slug branch of `WriteBlock`, once the separator is
        written and the next block's text wrapped. */
    method WriteSlug(slugText: string, formatted: seq<string>)
      modifies this
      ensures Snapshot() == SlugBlock(old(Snapshot()), SlugLine(old(slugCount), slugText), formatted)
    {
      if lineCount + |formatted| + 2 > LineLimit {
        PageBreak();
      }
      ghost var p2 := Snapshot();
      var slug := SlugFormat(slugCount, slugText);
      slugCount := slugCount + 1;
      AddLine(slug, true);
      EmptyLine();
      AddLines("\t", formatted);
      lineCount := lineCount + |formatted| + 2;
      AppendPair(p2.doc, Line(slug, true), Empty, Indented("\t", formatted));
    }

    /** The rest of the action branch of `WriteBlock`. */
    method WriteAction(formatted: seq<string>)
      modifies this
      ensures Snapshot() == ActionBlock(old(Snapshot()), formatted)
    {
      if lineCount + |formatted| > LineLimit {
        PageBreak();
      }
      AddLines("\t", formatted);
      lineCount := lineCount + |formatted|;
    }

    method DialogueLineBreaks(line: string) returns (result: seq<string>)
      ensures result == Wrap(line, DialogueLimit)
    {
      result := BreakLines(line, DialogueLimit);
    }

    method ParentheticalLineBreaks(line: string) returns (result: seq<string>)
      ensures result == Wrap(line, ParenthLimit)
    {
      result := BreakLines(line, ParenthLimit);
    }

    method ActionLineBreaks(line: string) returns (result: seq<string>)
      ensures result == Wrap(line, ActionLimit)
    {
      result := BreakLines(line, ActionLimit);
    }

    /** The padding loop runs only while the slug fits; see `SlugPadAsWritten`
        for the count the source computes otherwise. */
    method SlugFormat(number: nat, line: string) returns (result: string)
      ensures result == SlugLine(number, line)
    {
      var numstr := DecimalString(number);
      result := numstr + "\t" + line;
      var pad := if |numstr| + |line| <= ActionLimit then ActionLimit - |line| - |numstr| else 0;
      for i := 0 to pad
        invariant result == numstr + "\t" + line + Spaces(i)
      {
        result := result + " ";
      }
      result := result + numstr;
    }
  }
}
