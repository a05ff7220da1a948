/**
  The scene-file text format of the exporter's project (ss-export/core/Project.h).
  `LoadScene` reads a file line by line and turns it into typed blocks;
  `SaveSequence` writes a sequence's blocks back out as one file per slug.
  File contents are sequences of lines; the two fatal exits become errors.
*/
module Scenes {
  import opened Wrappers
  import opened Strings
  import opened ProjectText
  import opened TextBlocks

  // ---------------------------------------------------------------------
  // Reading: the line grammar of `LoadScene`
  // ---------------------------------------------------------------------

  /** The two fatal exits of `LoadScene`: a spoken line while no cue is set. */
  datatype SceneError =
    | NoCharacterForParenthetical(line: string)
    | NoCharacterForDialogue(line: string)

  /** What the reader carries from line to line: the current cue and the blocks so far. */
  datatype SceneState = SceneState(current: string, blocks: seq<TextBlock>)

  predicate IsNoteLine(t: string) { |t| >= 2 && t[..2] == "//" }

  /** The cue a `[` line sets: up to the first `]`, upper-cased and trimmed;
      with no `]`, the whole rest upper-cased but left untrimmed. */
  function CueOf(t: string): string
    requires t != [] && t[0] == '['
  {
    if ']' in t then Trimmed(Caps(t[1..FirstIndexOf(t, ']')])) else Caps(t[1..])
  }

  /** The content of a `(` line: between `(` and the last `)`, or the whole rest. */
  function ParentheticalContent(t: string): string
    requires t != [] && t[0] == '('
  {
    if ')' in t then Trimmed(t[1..LastIndexOf(t, ')')]) else Trimmed(t[1..])
  }

  function AddBlock(st: SceneState, b: TextBlock): SceneState
  {
    st.(blocks := st.blocks + [b])
  }

  /** The effect of one line, already trimmed, on the reader's state. */
  function LineEffect(st: SceneState, t: string): Result<SceneState, SceneError>
  {
    if t == [] then Ok(st)
    else if t[0] == '#' then Ok(AddBlock(st, NewBlock(Slug, "", Trimmed(Caps(t)[1..]))))
    else if t[0] == '[' then Ok(st.(current := CueOf(t)))
    else if t[0] == '*' then Ok(AddBlock(st, NewBlock(Action, "", Trimmed(t[1..]))))
    else if t[0] == '(' then
      if st.current == [] then Err(NoCharacterForParenthetical(t))
      else Ok(AddBlock(st, NewBlock(Parenthetical, st.current, ParentheticalContent(t))))
    else if IsNoteLine(t) then
      if Trimmed(t[2..]) == [] then Ok(st) else Ok(AddBlock(st, NewBlock(Note, "", Trimmed(t[2..]))))
    else if st.current == [] then Err(NoCharacterForDialogue(t))
    else Ok(AddBlock(st, NewBlock(Dialogue, st.current, t)))
  }

  /** The effect of one raw line: it is trimmed, then read by `LineEffect`. A line
      adds at most one block and keeps the earlier ones; it is fatal exactly when it
      is spoken (not blank, slug, cue, action or note) while no cue is set. */
  function SceneLine(st: SceneState, raw: string): (r: Result<SceneState, SceneError>)
    ensures r.Ok? ==> |st.blocks| <= |r.value.blocks| <= |st.blocks| + 1
    ensures r.Ok? ==> r.value.blocks[..|st.blocks|] == st.blocks
    ensures r.Err? <==>
      (var t := Trimmed(raw);
       t != [] && t[0] != '#' && t[0] != '[' && t[0] != '*' && !IsNoteLine(t) && st.current == [])
    ensures r.Ok? && |r.value.blocks| > |st.blocks| ==>
      r.value.blocks[|st.blocks|].kind != Unassigned && r.value.blocks[|st.blocks|].slugCount == 1
  {
    LineEffect(st, Trimmed(raw))
  }

  /** A trimmed line is read as it stands. */
  lemma TrimmedLine(st: SceneState, t: string)
    requires IsTrimmed(t)
    ensures SceneLine(st, t) == LineEffect(st, t)
  {
    TrimOfTrimmed(t);
  }

  lemma SceneFoldOne(x: string, st: SceneState)
    ensures SceneFold([x], st) == SceneLine(st, x)
  {
    assert [x][1..] == [];
  }

  /** A written text line followed by its empty line reads as the text line alone. */
  lemma SceneFoldPair(x: string, st: SceneState)
    ensures SceneFold([x, ""], st) == SceneLine(st, x)
  {
    assert [x, ""][1..] == [""];
    SceneFoldOne("", st);
    if SceneLine(st, x).Ok? {
      SceneFoldOne("", SceneLine(st, x).value);
    }
  }

  /** Reading a whole list of lines from a state; the first fatal line stops it. */
  function SceneFold(lines: seq<string>, st: SceneState): Result<SceneState, SceneError>
    decreases |lines|
  {
    if lines == [] then Ok(st)
    else match SceneLine(st, lines[0])
      case Err(e) => Err(e)
      case Ok(st') => SceneFold(lines[1..], st')
  }

  /** Reading `a + b` is reading `a`, then `b` from where `a` left off. */
  lemma {:induction false} SceneFoldAppend(a: seq<string>, b: seq<string>, st: SceneState)
    ensures SceneFold(a + b, st) ==
      match SceneFold(a, st)
      case Err(e) => Err(e)
      case Ok(mid) => SceneFold(b, mid)
    decreases |a|
  {
    if a == [] {
      assert a + b == b;
    } else {
      assert (a + b)[0] == a[0];
      assert (a + b)[1..] == a[1..] + b;
      match SceneLine(st, a[0])
      case Err(_) =>
      case Ok(st') => SceneFoldAppend(a[1..], b, st');
    }
  }

  /** Reading never drops or alters a block already read. */
  lemma {:induction false} SceneFoldExtends(lines: seq<string>, st: SceneState)
    ensures SceneFold(lines, st).Ok? ==>
      |st.blocks| <= |SceneFold(lines, st).value.blocks| <= |st.blocks| + |lines| &&
      SceneFold(lines, st).value.blocks[..|st.blocks|] == st.blocks
    decreases |lines|
  {
    if lines != [] {
      match SceneLine(st, lines[0])
      case Err(_) =>
      case Ok(st') =>
        SceneFoldExtends(lines[1..], st');
        if SceneFold(lines[1..], st').Ok? {
          var fin := SceneFold(lines[1..], st').value.blocks;
          assert fin[..|st.blocks|] == fin[..|st'.blocks|][..|st.blocks|];
        }
    }
  }

  /** A file with a name `LoadSequence` reads: extension `.txt` after a non-empty stem. */
  predicate IsTextFileName(name: string)
  {
    |name| > 4 && name[|name| - 4..] == ".txt"
  }

  /** One file of a sequence directory: its name and its lines. */
  datatype SceneFile = SceneFile(name: string, lines: seq<string>)

  /** Reading one file of a sequence: a fresh cue, the sequence's blocks so far. */
  function LoadSceneFile(f: SceneFile, acc: seq<TextBlock>): Result<seq<TextBlock>, SceneError>
  {
    if !IsTextFileName(f.name) then Ok(acc)
    else match SceneFold(f.lines, SceneState("", acc))
      case Err(e) => Err(e)
      case Ok(st) => Ok(st.blocks)
  }

  /** Reading the files of a sequence directory in order (`LoadSequence`). */
  function LoadSceneFiles(files: seq<SceneFile>, acc: seq<TextBlock>): Result<seq<TextBlock>, SceneError>
    decreases |files|
  {
    if files == [] then Ok(acc)
    else match LoadSceneFile(files[0], acc)
      case Err(e) => Err(e)
      case Ok(acc') => LoadSceneFiles(files[1..], acc')
  }

  lemma {:induction false} LoadSceneFilesSnoc(files: seq<SceneFile>, f: SceneFile, acc: seq<TextBlock>)
    ensures LoadSceneFiles(files + [f], acc) ==
      match LoadSceneFiles(files, acc)
      case Err(e) => Err(e)
      case Ok(mid) => LoadSceneFile(f, mid)
    decreases |files|
  {
    if files == [] {
      assert [f][1..] == [];
    } else {
      assert (files + [f])[0] == files[0];
      assert (files + [f])[1..] == files[1..] + [f];
      match LoadSceneFile(files[0], acc)
      case Err(_) =>
      case Ok(acc') => LoadSceneFilesSnoc(files[1..], f, acc');
    }
  }

  // ---------------------------------------------------------------------
  // What the reader produces
  // ---------------------------------------------------------------------

  predicate NoNewline(s: string) { '\n' !in s }

  /** A name that can stand between `[` and `]` and read back unchanged. */
  predicate IsCueName(n: string)
  {
    n != [] && IsTrimmed(n) && IsCaps(n) && ']' !in n && NoNewline(n)
  }

  /** A block as the reader produces it from a line that has no unclosed,
      space-led cue: exactly what the writer can write back as lines. */
  predicate WellFormed(b: TextBlock)
  {
    b.slugCount == 1 && IsTrimmed(b.content) && NoNewline(b.content) &&
    match b.kind
    case Unassigned => false
    case Slug => b.character == [] && IsCaps(b.content)
    case Action => b.character == []
    case Note => b.character == [] && b.content != []
    case Parenthetical => IsCueName(b.character)
    case Dialogue =>
      IsCueName(b.character) && b.content != [] &&
      b.content[0] != '#' && b.content[0] != '[' && b.content[0] != '*' && b.content[0] != '(' &&
      !IsNoteLine(b.content)
  }

  predicate AllWellFormed(bs: seq<TextBlock>)
  {
    forall i :: 0 <= i < |bs| ==> WellFormed(bs[i])
  }

  /** A line the reader can take without leaving a space-led cue behind:
      a `[` line without `]` must not have blank space right after the `[`. */
  predicate CueSafe(raw: string)
  {
    var t := Trimmed(raw);
    t != [] && t[0] == '[' && ']' !in t ==> IsTrimmed(t[1..])
  }

  predicate ReadableLine(raw: string) { NoNewline(raw) && CueSafe(raw) }

  /** Trimming, slicing and upper-casing introduce no character that was not there,
      apart from the capitals upper-casing makes. */
  lemma TrimmedChars(s: string)
    ensures forall x :: x in Trimmed(s) ==> x in s
    ensures IsCaps(s) ==> IsCaps(Trimmed(s))
  {
    var i, j := TrimWindow(s);
    assert forall k :: 0 <= k < j - i ==> s[i..j][k] == s[i + k];
  }

  lemma SliceChars(s: string, i: nat, j: nat)
    requires i <= j <= |s|
    ensures forall x :: x in s[i..j] ==> x in s
  {
    assert forall k :: 0 <= k < j - i ==> s[i..j][k] == s[i + k];
  }

  lemma CapsChars(s: string)
    ensures forall x :: x in Caps(s) && !IsUpper(x) ==> x in s
    ensures IsCaps(Caps(s))
  {
    CapsProperties(s);
  }

  predicate CueOk(n: string) { n == [] || IsCueName(n) }

  lemma AddWellFormed(bs: seq<TextBlock>, b: TextBlock)
    requires AllWellFormed(bs) && WellFormed(b)
    ensures AllWellFormed(bs + [b])
  {
    assert forall i :: 0 <= i < |bs| ==> (bs + [b])[i] == bs[i];
  }

  lemma SlugReadWellFormed(t: string)
    requires t != [] && NoNewline(t)
    ensures WellFormed(NewBlock(Slug, "", Trimmed(Caps(t)[1..])))
  {
    CapsChars(t);
    SliceChars(Caps(t), 1, |t|);
    assert IsCaps(Caps(t)[1..]);
    TrimmedIsTrimmed(Caps(t)[1..]);
    TrimmedChars(Caps(t)[1..]);
  }

  lemma ClosedCueOk(t: string, k: nat)
    requires 1 <= k < |t| && NoNewline(t) && ']' !in t[..k]
    ensures CueOk(Trimmed(Caps(t[1..k])))
  {
    var n := t[1..k];
    assert forall m :: 0 <= m < k - 1 ==> n[m] == t[..k][m + 1];
    assert forall m :: 0 <= m < k - 1 ==> n[m] == t[m + 1];
    assert ']' !in n && '\n' !in n;
    CapsChars(n);
    TrimmedIsTrimmed(Caps(n));
    TrimmedChars(Caps(n));
  }

  lemma OpenCueOk(t: string)
    requires t != [] && NoNewline(t) && ']' !in t && IsTrimmed(t[1..])
    ensures CueOk(Caps(t[1..]))
  {
    var n := t[1..];
    SliceChars(t, 1, |t|);
    assert ']' !in n && '\n' !in n;
    CapsChars(n);
    assert ']' !in Caps(n) && '\n' !in Caps(n);
    CapsProperties(n);
    assert IsTrimmed(Caps(n)) by {
      if n != [] {
        assert Caps(n)[0] == UpperChar(n[0]) && Caps(n)[|n| - 1] == UpperChar(n[|n| - 1]);
      }
    }
  }

  lemma CueReadOk(t: string)
    requires t != [] && t[0] == '[' && NoNewline(t)
    requires ']' !in t ==> IsTrimmed(t[1..])
    ensures CueOk(CueOf(t))
  {
    if ']' in t {
      ClosedCueOk(t, FirstIndexOf(t, ']'));
    } else {
      OpenCueOk(t);
    }
  }

  lemma TextReadWellFormed(kind: BlockType, cue: string, part: string)
    requires NoNewline(part)
    requires kind == Action || kind == Note || kind == Parenthetical
    requires kind == Parenthetical ==> IsCueName(cue)
    requires kind != Parenthetical ==> cue == []
    requires kind == Note ==> Trimmed(part) != []
    ensures WellFormed(NewBlock(kind, cue, Trimmed(part)))
  {
    TrimmedIsTrimmed(part);
    TrimmedChars(part);
  }

  lemma SuffixChars(s: string, i: nat)
    requires i <= |s|
    ensures forall x :: x in s[i..] ==> x in s
  {
    assert forall k :: 0 <= k < |s| - i ==> s[i..][k] == s[i + k];
  }

  lemma DialogueReadWellFormed(cue: string, t: string)
    requires IsCueName(cue) && IsTrimmed(t) && NoNewline(t) && t != []
    requires t[0] != '#' && t[0] != '[' && t[0] != '*' && t[0] != '(' && !IsNoteLine(t)
    ensures WellFormed(NewBlock(Dialogue, cue, t))
  {
  }

  predicate ReaderOk(st: SceneState) { CueOk(st.current) && AllWellFormed(st.blocks) }

  predicate EffectOk(r: Result<SceneState, SceneError>) { r.Ok? ==> ReaderOk(r.value) }

  lemma SlugEffectOk(st: SceneState, t: string)
    requires t != [] && t[0] == '#' && NoNewline(t) && ReaderOk(st)
    ensures EffectOk(LineEffect(st, t))
  {
    var b := NewBlock(Slug, "", Trimmed(Caps(t)[1..]));
    SlugReadWellFormed(t);
    AddWellFormed(st.blocks, b);
  }

  lemma CueEffectOk(st: SceneState, t: string)
    requires t != [] && t[0] == '[' && NoNewline(t) && ReaderOk(st)
    requires ']' !in t ==> IsTrimmed(t[1..])
    ensures EffectOk(LineEffect(st, t))
  {
    CueReadOk(t);
  }

  lemma ActionEffectOk(st: SceneState, t: string)
    requires t != [] && t[0] == '*' && NoNewline(t) && ReaderOk(st)
    ensures EffectOk(LineEffect(st, t))
  {
    var b := NewBlock(Action, "", Trimmed(t[1..]));
    SuffixChars(t, 1);
    TextReadWellFormed(Action, "", t[1..]);
    AddWellFormed(st.blocks, b);
    ActionLineStep(st, t);
  }

  lemma ActionLineStep(st: SceneState, t: string)
    requires t != [] && t[0] == '*'
    ensures LineEffect(st, t) == Ok(AddBlock(st, NewBlock(Action, "", Trimmed(t[1..]))))
  {
  }

  lemma ParentheticalEffectOk(st: SceneState, t: string)
    requires t != [] && t[0] == '(' && NoNewline(t) && ReaderOk(st)
    ensures EffectOk(LineEffect(st, t))
  {
    if st.current != [] {
      if ')' in t {
        SliceChars(t, 1, LastIndexOf(t, ')'));
        TextReadWellFormed(Parenthetical, st.current, t[1..LastIndexOf(t, ')')]);
      } else {
        SuffixChars(t, 1);
        TextReadWellFormed(Parenthetical, st.current, t[1..]);
      }
      AddWellFormed(st.blocks, NewBlock(Parenthetical, st.current, ParentheticalContent(t)));
    }
  }

  lemma NoteEffectOk(st: SceneState, t: string)
    requires t != [] && t[0] != '#' && t[0] != '[' && t[0] != '*' && t[0] != '('
    requires IsNoteLine(t) && NoNewline(t) && ReaderOk(st)
    ensures EffectOk(LineEffect(st, t))
  {
    if Trimmed(t[2..]) != [] {
      SuffixChars(t, 2);
      TextReadWellFormed(Note, "", t[2..]);
      AddWellFormed(st.blocks, NewBlock(Note, "", Trimmed(t[2..])));
    }
  }

  lemma DialogueEffectOk(st: SceneState, t: string)
    requires t != [] && t[0] != '#' && t[0] != '[' && t[0] != '*' && t[0] != '('
    requires !IsNoteLine(t) && IsTrimmed(t) && NoNewline(t) && ReaderOk(st)
    ensures EffectOk(LineEffect(st, t))
  {
    if st.current != [] {
      DialogueReadWellFormed(st.current, t);
      AddWellFormed(st.blocks, NewBlock(Dialogue, st.current, t));
    }
  }

  /** One trimmed line keeps the reader's state well formed. */
  lemma LineEffectWellFormed(st: SceneState, t: string)
    requires IsTrimmed(t) && NoNewline(t)
    requires t != [] && t[0] == '[' && ']' !in t ==> IsTrimmed(t[1..])
    requires ReaderOk(st)
    ensures EffectOk(LineEffect(st, t))
  {
    if t == [] {
    } else if t[0] == '#' {
      SlugEffectOk(st, t);
    } else if t[0] == '[' {
      CueEffectOk(st, t);
    } else if t[0] == '*' {
      ActionEffectOk(st, t);
    } else if t[0] == '(' {
      ParentheticalEffectOk(st, t);
    } else if IsNoteLine(t) {
      NoteEffectOk(st, t);
    } else {
      DialogueEffectOk(st, t);
    }
  }

  /** One line keeps the reader's state well formed. */
  lemma SceneLineWellFormed(st: SceneState, raw: string)
    requires ReadableLine(raw) && ReaderOk(st)
    ensures EffectOk(SceneLine(st, raw))
  {
    TrimmedIsTrimmed(raw);
    TrimmedChars(raw);
    LineEffectWellFormed(st, Trimmed(raw));
  }

  /** Reading readable lines from a well-formed state yields well-formed blocks. */
  lemma {:induction false} SceneFoldWellFormed(lines: seq<string>, st: SceneState)
    requires forall i :: 0 <= i < |lines| ==> ReadableLine(lines[i])
    requires ReaderOk(st)
    ensures SceneFold(lines, st).Ok? ==> AllWellFormed(SceneFold(lines, st).value.blocks)
    decreases |lines|
  {
    if lines != [] {
      SceneLineWellFormed(st, lines[0]);
      match SceneLine(st, lines[0])
      case Err(_) =>
      case Ok(st') => SceneFoldWellFormed(lines[1..], st');
    }
  }

  predicate ReadableFiles(files: seq<SceneFile>)
  {
    forall i, j :: 0 <= i < |files| && 0 <= j < |files[i].lines| ==> ReadableLine(files[i].lines[j])
  }

  /** Every block a sequence directory of readable files loads to is well formed. */
  lemma {:induction false} LoadSceneFilesWellFormed(files: seq<SceneFile>, acc: seq<TextBlock>)
    requires ReadableFiles(files) && AllWellFormed(acc)
    ensures LoadSceneFiles(files, acc).Ok? ==> AllWellFormed(LoadSceneFiles(files, acc).value)
    decreases |files|
  {
    if files != [] {
      if IsTextFileName(files[0].name) {
        SceneFoldWellFormed(files[0].lines, SceneState("", acc));
      }
      match LoadSceneFile(files[0], acc)
      case Err(_) =>
      case Ok(acc') =>
        assert ReadableFiles(files[1..]) by {
          forall i, j | 0 <= i < |files[1..]| && 0 <= j < |files[1..][i].lines|
            ensures ReadableLine(files[1..][i].lines[j])
          {
            assert files[1..][i] == files[i + 1];
          }
        }
        LoadSceneFilesWellFormed(files[1..], acc');
    }
  }

  // ---------------------------------------------------------------------
  // Writing: the lines `SaveSequence` emits
  // ---------------------------------------------------------------------

  /** The fatal exit of `SaveSequence`: a block before the first slug. */
  datatype SaveError = SequenceWithoutSlug

  /** The `[NAME]` line a spoken block needs when its speaker is not the last cue written. */
  function CueLines(b: TextBlock, lastCue: string): (r: seq<string>)
    ensures |r| <= 1
    ensures r != [] <==> IsSpoken(b.kind) && b.character != lastCue
  {
    if IsSpoken(b.kind) && b.character != lastCue then ["[" + b.character + "]"] else []
  }

  /** The lines one block adds to a scene file, each text line followed by an empty one. */
  function BlockLines(b: TextBlock, lastCue: string): (r: seq<string>)
    ensures b.kind == Unassigned <==> r == []
    ensures r != [] ==> |r| >= 2 && r[|r| - 1] == []
  {
    match b.kind
    case Unassigned => []
    case Slug => ["# " + b.content, ""]
    case Action => ["* " + b.content, ""]
    case Note => ["// " + b.content, ""]
    case Parenthetical => CueLines(b, lastCue) + ["(" + b.content + ")", ""]
    case Dialogue => CueLines(b, lastCue) + [b.content, ""]
  }

  /** The last cue written after a block. */
  function NextCue(b: TextBlock, lastCue: string): string
  {
    if IsSpoken(b.kind) then b.character else lastCue
  }

  /** The file a slug opens: `ThreeDig(counter)_NameFromSlug(content).txt`. */
  function SceneFileName(counter: nat, slug: string): (name: string)
    ensures IsTextFileName(name)
  {
    ThreeDig(counter) + "_" + SlugFileStem(slug) + ".txt"
  }

  /** The writer's state: the files written so far, the file counter and the last cue. */
  datatype SaveState = SaveState(files: seq<SceneFile>, counter: nat, lastCue: string)

  /** How the last cue behaves at a new slug: `CarryCue` is the code as written
      (kept across files of one sequence), `ResetCue` forgets it with each new file,
      as the reader does. */
  datatype CueMode = CarryCue | ResetCue

  /** One block of `SaveSequence`. */
  function SaveStep(st: SaveState, b: TextBlock, mode: CueMode): (r: Result<SaveState, SaveError>)
    ensures r.Err? <==> b.kind != Slug && st.files == []
    ensures r.Ok? && b.kind == Slug ==>
      r.value.files == st.files + [SceneFile(SceneFileName(st.counter, b.content), ["# " + b.content, ""])] &&
      r.value.counter == st.counter + 1
    ensures r.Ok? && b.kind != Slug ==>
      |r.value.files| == |st.files| && r.value.files[..|st.files| - 1] == st.files[..|st.files| - 1] &&
      r.value.files[|st.files| - 1].name == st.files[|st.files| - 1].name &&
      r.value.files[|st.files| - 1].lines == st.files[|st.files| - 1].lines + BlockLines(b, st.lastCue) &&
      r.value.counter == st.counter
  {
    if b.kind == Slug then
      var f := SceneFile(SceneFileName(st.counter, b.content), BlockLines(b, st.lastCue));
      Ok(SaveState(st.files + [f], st.counter + 1, if mode == ResetCue then "" else st.lastCue))
    else if st.files == [] then
      Err(SequenceWithoutSlug)
    else
      var last := st.files[|st.files| - 1];
      var grown := SceneFile(last.name, last.lines + BlockLines(b, st.lastCue));
      Ok(SaveState(st.files[..|st.files| - 1] + [grown], st.counter, NextCue(b, st.lastCue)))
  }

  /** `SaveSequence` over the remaining blocks. */
  function SaveFold(bs: seq<TextBlock>, st: SaveState, mode: CueMode): (r: Result<SaveState, SaveError>)
    ensures r.Ok? ==> |st.files| <= |r.value.files| && r.value.counter == st.counter + (|r.value.files| - |st.files|)
    decreases |bs|
  {
    if bs == [] then Ok(st)
    else match SaveStep(st, bs[0], mode)
      case Err(e) => Err(e)
      case Ok(st') => SaveFold(bs[1..], st', mode)
  }

  /** Saving a sequence's blocks with the running file counter; every new sequence
      starts with no cue written. */
  function SavedSequence(bs: seq<TextBlock>, counter: nat, mode: CueMode): Result<SaveState, SaveError>
  {
    SaveFold(bs, SaveState([], counter, ""), mode)
  }

  // ---------------------------------------------------------------------
  // The round trip
  // ---------------------------------------------------------------------

  /** A marker followed by a space and a trimmed text is trimmed, except for the
      space itself when the text is empty. */
  lemma MarkedLine(m: string, c: string)
    requires m != [] && !IsTrimSpace(m[0]) && !IsTrimSpace(m[|m| - 1]) && IsTrimmed(c)
    ensures Trimmed(m + " " + c) == if c == [] then m else m + " " + c
  {
    var line := m + " " + c;
    if c == [] {
      assert TrimFront(line) == line;
      assert line[..|line| - 1] == m;
      assert TrimBack(line) == TrimBack(m);
      TrimOfTrimmed(m);
    } else {
      TrimOfTrimmed(line);
    }
  }

  lemma SpaceLed(c: string)
    requires IsTrimmed(c)
    ensures Trimmed(" " + c) == c
  {
    TrimSpacePrefix(c);
    TrimOfTrimmed(c);
  }

  /** How a written slug line looks to the reader. */
  lemma SlugLineShape(c: string)
    requires IsTrimmed(c) && IsCaps(c)
    ensures var t := Trimmed("#" + " " + c); t != [] && t[0] == '#' && Trimmed(Caps(t)[1..]) == c
  {
    var line := "#" + " " + c;
    MarkedLine("#", c);
    var t := Trimmed(line);
    MarkedCaps(c);
    assert Caps(t) == t;
    if c != [] {
      assert t[1..] == " " + c;
      SpaceLed(c);
    }
  }

  /** A slug line, marker and space included, is already upper case. */
  lemma MarkedCaps(c: string)
    requires IsCaps(c)
    ensures Caps("#") == "#" && Caps("#" + " " + c) == "#" + " " + c
  {
    var line := "#" + " " + c;
    assert IsCaps(line) by {
      forall i | 0 <= i < |line|
        ensures !IsLower(line[i])
      {
        if i >= 2 { assert line[i] == c[i - 2]; }
      }
    }
    assert IsCaps("#");
    CapsProperties(line);
    CapsProperties("#");
  }

  lemma SlugLineEffect(st: SceneState, line: string, c: string)
    requires var t := Trimmed(line); t != [] && t[0] == '#' && Trimmed(Caps(t)[1..]) == c
    ensures SceneFold([line, ""], st) == Ok(AddBlock(st, NewBlock(Slug, "", c)))
  {
    SceneFoldPair(line, st);
  }

  /** A written slug line and its empty line read back to the slug. */
  lemma SlugLineRead(st: SceneState, c: string)
    requires IsTrimmed(c) && IsCaps(c)
    ensures SceneFold(["#" + " " + c, ""], st) == Ok(AddBlock(st, NewBlock(Slug, "", c)))
  {
    SlugLineShape(c);
    SlugLineEffect(st, "#" + " " + c, c);
  }

  /** The lines of a written slug read back to the slug itself, with no cue. */
  lemma SlugLinesRead(b: TextBlock, cue: string, acc: seq<TextBlock>)
    requires WellFormed(b) && b.kind == Slug
    ensures SceneFold(BlockLines(b, cue), SceneState("", acc)) == Ok(SceneState("", acc + [b]))
  {
    assert "#" + " " == "# ";
    assert BlockLines(b, cue) == ["#" + " " + b.content, ""];
    SlugLineRead(SceneState("", acc), b.content);
    assert NewBlock(Slug, "", b.content) == b;
  }

  lemma CueLineShape(n: string)
    requires IsCueName(n)
    ensures var t := "[" + n + "]"; IsTrimmed(t) && t[0] == '[' && CueOf(t) == n
  {
    var t := "[" + n + "]";
    assert t[1..|n| + 1] == n;
    assert t[..|n| + 1] == "[" + n;
    FirstIndexOfAt(t, ']', |n| + 1);
    CapsProperties(n);
    TrimOfTrimmed(n);
  }

  /** A written cue line sets the reader's cue to that name. */
  lemma CueLineRead(n: string, st: SceneState)
    requires IsCueName(n)
    ensures SceneLine(st, "[" + n + "]") == Ok(st.(current := n))
  {
    var t := "[" + n + "]";
    CueLineShape(n);
    TrimmedLine(st, t);
    CueStep(st, t);
  }

  lemma ActionLineShape(c: string)
    requires IsTrimmed(c)
    ensures var t := Trimmed("*" + " " + c); t != [] && t[0] == '*' && Trimmed(t[1..]) == c
  {
    var line := "*" + " " + c;
    MarkedLine("*", c);
    var t := Trimmed(line);
    if c != [] {
      assert t[1..] == " " + c;
      SpaceLed(c);
    }
  }

  lemma ActionLineEffect(st: SceneState, line: string, c: string)
    requires var t := Trimmed(line); t != [] && t[0] == '*' && Trimmed(t[1..]) == c
    ensures SceneFold([line, ""], st) == Ok(AddBlock(st, NewBlock(Action, "", c)))
  {
    SceneFoldPair(line, st);
  }

  lemma ActionLineRead(st: SceneState, c: string)
    requires IsTrimmed(c)
    ensures SceneFold(["*" + " " + c, ""], st) == Ok(AddBlock(st, NewBlock(Action, "", c)))
  {
    ActionLineShape(c);
    ActionLineEffect(st, "*" + " " + c, c);
  }

  lemma ActionLinesRead(b: TextBlock, cue: string, acc: seq<TextBlock>)
    requires WellFormed(b) && b.kind == Action
    ensures SceneFold(BlockLines(b, cue), SceneState(cue, acc)) == Ok(SceneState(cue, acc + [b]))
  {
    assert "*" + " " == "* ";
    assert BlockLines(b, cue) == ["*" + " " + b.content, ""];
    ActionLineRead(SceneState(cue, acc), b.content);
    assert NewBlock(Action, "", b.content) == b;
  }

  lemma NoteLineMarked(c: string)
    ensures var t := "//" + " " + c; t != [] && t[0] == '/' && IsNoteLine(t)
  {
    var line := "//" + " " + c;
    assert line[..2] == "//";
  }

  lemma NoteLineRest(c: string)
    requires IsTrimmed(c)
    ensures var t := "//" + " " + c; Trimmed(t[2..]) == c
  {
    var line := "//" + " " + c;
    assert line[2..] == " " + c;
    SpaceLed(c);
  }

  lemma NoteLineShape(c: string)
    requires IsTrimmed(c) && c != []
    ensures var t := Trimmed("//" + " " + c);
      t != [] && t[0] == '/' && IsNoteLine(t) && Trimmed(t[2..]) == c
  {
    MarkedLine("//", c);
    assert Trimmed("//" + " " + c) == "//" + " " + c;
    NoteLineMarked(c);
    NoteLineRest(c);
  }

  lemma NoteLineStep(st: SceneState, t: string, c: string)
    requires t != [] && t[0] == '/' && IsNoteLine(t) && Trimmed(t[2..]) == c && c != []
    ensures LineEffect(st, t) == Ok(AddBlock(st, NewBlock(Note, "", c)))
  {
  }

  lemma NoteLineEffect(st: SceneState, line: string, c: string)
    requires var t := Trimmed(line); t != [] && t[0] == '/' && IsNoteLine(t) && Trimmed(t[2..]) == c
    requires c != []
    ensures SceneFold([line, ""], st) == Ok(AddBlock(st, NewBlock(Note, "", c)))
  {
    NoteLineStep(st, Trimmed(line), c);
    SceneFoldPair(line, st);
  }

  lemma NoteLineRead(st: SceneState, c: string)
    requires IsTrimmed(c) && c != []
    ensures SceneFold(["//" + " " + c, ""], st) == Ok(AddBlock(st, NewBlock(Note, "", c)))
  {
    NoteLineShape(c);
    NoteLineEffect(st, "//" + " " + c, c);
  }

  lemma NoteLinesRead(b: TextBlock, cue: string, acc: seq<TextBlock>)
    requires WellFormed(b) && b.kind == Note
    ensures SceneFold(BlockLines(b, cue), SceneState(cue, acc)) == Ok(SceneState(cue, acc + [b]))
  {
    assert "//" + " " == "// ";
    assert BlockLines(b, cue) == ["//" + " " + b.content, ""];
    NoteLineRead(SceneState(cue, acc), b.content);
    assert NewBlock(Note, "", b.content) == b;
  }

  /** A spoken block's text lines, read with its speaker as the cue. */
  lemma SpokenLineRead(b: TextBlock, acc: seq<TextBlock>)
    requires WellFormed(b) && IsSpoken(b.kind)
    ensures var text := if b.kind == Parenthetical then "(" + b.content + ")" else b.content;
      SceneFold([text, ""], SceneState(b.character, acc)) == Ok(SceneState(b.character, acc + [b]))
  {
    var c := b.content;
    var n := b.character;
    var text := if b.kind == Parenthetical then "(" + c + ")" else c;
    SceneFoldPair(text, SceneState(n, acc));
    if b.kind == Parenthetical {
      TrimmedLine(SceneState(n, acc), text);
      assert text[1..|c| + 1] == c;
      assert LastIndexOf(text, ')') == |c| + 1;
      TrimOfTrimmed(c);
      assert NewBlock(Parenthetical, n, c) == b;
    } else {
      TrimmedLine(SceneState(n, acc), text);
      assert NewBlock(Dialogue, n, c) == b;
    }
  }

  /** The lines of one written non-slug block read back to the block, leaving the
      reader's cue at the last cue written. */
  lemma BlockLinesRead(b: TextBlock, cue: string, acc: seq<TextBlock>)
    requires WellFormed(b) && b.kind != Slug
    ensures SceneFold(BlockLines(b, cue), SceneState(cue, acc)) == Ok(SceneState(NextCue(b, cue), acc + [b]))
  {
    match b.kind
    case Action => ActionLinesRead(b, cue, acc);
    case Note => NoteLinesRead(b, cue, acc);
    case Parenthetical | Dialogue =>
      var text := if b.kind == Parenthetical then "(" + b.content + ")" else b.content;
      var ls := BlockLines(b, cue);
      SpokenLineRead(b, acc);
      assert ls == CueLines(b, cue) + [text, ""];
      if b.character != cue {
        CueLineRead(b.character, SceneState(cue, acc));
        SceneFoldAppend(CueLines(b, cue), [text, ""], SceneState(cue, acc));
        SceneFoldOne("[" + b.character + "]", SceneState(cue, acc));
      } else {
        assert ls == [text, ""];
      }
  }

  /** What has been written so far reads back to `acc`, and the last file leaves
      the reader's cue at the writer's last cue. */
  predicate ReadsBack(st: SaveState, acc: seq<TextBlock>)
  {
    if st.files == [] then acc == []
    else
      var init := st.files[..|st.files| - 1];
      var last := st.files[|st.files| - 1];
      IsTextFileName(last.name) &&
      LoadSceneFiles(init, []).Ok? &&
      SceneFold(last.lines, SceneState("", LoadSceneFiles(init, []).value)) == Ok(SceneState(st.lastCue, acc))
  }

  lemma ReadsBackLoads(st: SaveState, acc: seq<TextBlock>)
    requires ReadsBack(st, acc)
    ensures LoadSceneFiles(st.files, []) == Ok(acc)
  {
    if st.files != [] {
      var n := |st.files|;
      assert st.files == st.files[..n - 1] + [st.files[n - 1]];
      LoadSceneFilesSnoc(st.files[..n - 1], st.files[n - 1], []);
    }
  }

  /** Writing one more block with the cue reset per file keeps `ReadsBack`. */
  lemma SaveStepReadsBack(st: SaveState, b: TextBlock, acc: seq<TextBlock>)
    requires ReadsBack(st, acc) && WellFormed(b)
    requires st.files == [] ==> b.kind == Slug
    ensures SaveStep(st, b, ResetCue).Ok? && ReadsBack(SaveStep(st, b, ResetCue).value, acc + [b])
  {
    var st' := SaveStep(st, b, ResetCue).value;
    var n := |st.files|;
    if b.kind == Slug {
      ReadsBackLoads(st, acc);
      assert st'.files[..n] == st.files;
      SlugLinesRead(b, st.lastCue, acc);
    } else {
      var init := st.files[..n - 1];
      var last := st.files[n - 1];
      var a0 := LoadSceneFiles(init, []).value;
      assert st'.files[..n - 1] == init;
      SceneFoldAppend(last.lines, BlockLines(b, st.lastCue), SceneState("", a0));
      BlockLinesRead(b, st.lastCue, acc);
    }
  }

  /** The files carry the numbers `n`, `n + 1`, ... in order, as the
      `ThreeDig` prefix of their names. */
  predicate NumberedFrom(files: seq<SceneFile>, n: nat)
  {
    forall j :: 0 <= j < |files| ==> NumberedName(files[j].name, n + j)
  }

  /** The name starts with the `ThreeDig` form of `k`. */
  predicate NumberedName(name: string, k: nat)
  {
    ThreeDig(k) <= name
  }

  lemma SaveStepNumbered(st: SaveState, b: TextBlock, mode: CueMode, n: nat)
    requires NumberedFrom(st.files, n) && st.counter == n + |st.files|
    ensures SaveStep(st, b, mode).Ok? ==>
      var st' := SaveStep(st, b, mode).value;
      NumberedFrom(st'.files, n) && st'.counter == n + |st'.files|
  {
    if SaveStep(st, b, mode).Ok? {
      if b.kind == Slug {
        SlugNumbered(st, b, mode, n);
      } else {
        GrowNumbered(st, b, mode, n);
      }
    }
  }

  lemma FileNamePrefix(counter: nat, slug: string)
    ensures ThreeDig(counter) <= SceneFileName(counter, slug)
  {
    var d := ThreeDig(counter);
    assert SceneFileName(counter, slug) == d + ("_" + SlugFileStem(slug) + ".txt");
  }

  lemma SlugNumbered(st: SaveState, b: TextBlock, mode: CueMode, n: nat)
    requires NumberedFrom(st.files, n) && st.counter == n + |st.files| && b.kind == Slug
    ensures var st' := SaveStep(st, b, mode).value;
      NumberedFrom(st'.files, n) && st'.counter == n + |st'.files|
  {
    var f := SceneFile(SceneFileName(st.counter, b.content), BlockLines(b, st.lastCue));
    FileNamePrefix(st.counter, b.content);
    NumberedSnoc(st.files, n, f);
  }

  lemma NumberedSnoc(files: seq<SceneFile>, n: nat, f: SceneFile)
    requires NumberedFrom(files, n) && NumberedName(f.name, n + |files|)
    ensures NumberedFrom(files + [f], n)
  {
    var all := files + [f];
    forall j | 0 <= j < |all|
      ensures NumberedName(all[j].name, n + j)
    {
      if j < |files| {
        assert all[j] == files[j];
      }
    }
  }

  lemma NumberedAppend(a: seq<SceneFile>, b: seq<SceneFile>, n: nat)
    requires NumberedFrom(a, n) && NumberedFrom(b, n + |a|)
    ensures NumberedFrom(a + b, n)
  {
    assert forall j :: 0 <= j < |a| ==> (a + b)[j] == a[j];
    assert forall j :: |a| <= j < |a| + |b| ==> (a + b)[j] == b[j - |a|];
  }

  lemma GrowNumbered(st: SaveState, b: TextBlock, mode: CueMode, n: nat)
    requires NumberedFrom(st.files, n) && st.counter == n + |st.files|
    requires b.kind != Slug && st.files != []
    ensures var st' := SaveStep(st, b, mode).value;
      NumberedFrom(st'.files, n) && st'.counter == n + |st'.files|
  {
    var fs := SaveStep(st, b, mode).value.files;
    LastRenamed(st.files, fs, n);
  }

  /** Growing the last file keeps every name, so the numbering too. */
  lemma LastRenamed(files: seq<SceneFile>, fs: seq<SceneFile>, n: nat)
    requires NumberedFrom(files, n) && files != [] && |fs| == |files|
    requires fs[..|files| - 1] == files[..|files| - 1] && fs[|files| - 1].name == files[|files| - 1].name
    ensures NumberedFrom(fs, n)
  {
    var k := |files| - 1;
    var init := files[..k];
    forall j | 0 <= j < |fs|
      ensures NumberedName(fs[j].name, n + j)
    {
      if j < k {
        assert fs[j] == init[j] == files[j];
      } else {
        assert NumberedName(files[k].name, n + k);
      }
    }
  }

  lemma {:induction false} SaveFoldNumbered(bs: seq<TextBlock>, st: SaveState, mode: CueMode, n: nat)
    requires NumberedFrom(st.files, n) && st.counter == n + |st.files|
    ensures SaveFold(bs, st, mode).Ok? ==>
      var st' := SaveFold(bs, st, mode).value;
      NumberedFrom(st'.files, n) && st'.counter == n + |st'.files|
    decreases |bs|
  {
    if bs != [] && SaveStep(st, bs[0], mode).Ok? {
      SaveStepNumbered(st, bs[0], mode, n);
      SaveFoldNumbered(bs[1..], SaveStep(st, bs[0], mode).value, mode, n);
    }
  }

  /** The files of a saved sequence are numbered on from the counter it was
      given, one number per file, and the counter comes back past the last. */
  lemma SavedSequenceNumbered(bs: seq<TextBlock>, counter: nat, mode: CueMode)
    ensures SavedSequence(bs, counter, mode).Ok? ==>
      var st := SavedSequence(bs, counter, mode).value;
      NumberedFrom(st.files, counter) && st.counter == counter + |st.files|
  {
    SaveFoldNumbered(bs, SaveState([], counter, ""), mode, counter);
  }

  lemma SaveFoldCons(bs: seq<TextBlock>, st: SaveState, mode: CueMode)
    requires bs != [] && SaveStep(st, bs[0], mode).Ok?
    ensures SaveFold(bs, st, mode) == SaveFold(bs[1..], SaveStep(st, bs[0], mode).value, mode)
  {
  }

  lemma SaveFoldFirst(bs: seq<TextBlock>, st: SaveState, acc: seq<TextBlock>) returns (st': SaveState)
    requires ReadsBack(st, acc) && AllWellFormed(bs) && bs != []
    requires st.files == [] ==> bs[0].kind == Slug
    ensures SaveFold(bs, st, ResetCue) == SaveFold(bs[1..], st', ResetCue)
    ensures ReadsBack(st', acc + [bs[0]]) && AllWellFormed(bs[1..]) && st'.files != []
  {
    SaveStepReadsBack(st, bs[0], acc);
    st' := SaveStep(st, bs[0], ResetCue).value;
    SaveFoldCons(bs, st, ResetCue);
    assert forall i :: 0 <= i < |bs| - 1 ==> bs[1..][i] == bs[i + 1];
  }

  lemma {:induction false} SaveFoldReadsBack(bs: seq<TextBlock>, st: SaveState, acc: seq<TextBlock>)
    requires ReadsBack(st, acc) && AllWellFormed(bs)
    requires st.files == [] && bs != [] ==> bs[0].kind == Slug
    ensures SaveFold(bs, st, ResetCue).Ok?
    ensures LoadSceneFiles(SaveFold(bs, st, ResetCue).value.files, []) == Ok(acc + bs)
    decreases |bs|
  {
    if bs == [] {
      ReadsBackLoads(st, acc);
      assert acc + bs == acc;
    } else {
      var st' := SaveFoldFirst(bs, st, acc);
      SaveFoldReadsBack(bs[1..], st', acc + [bs[0]]);
      SaveFoldLoadsOn(bs, st, acc, st');
    }
  }

  lemma SaveFoldLoadsOn(bs: seq<TextBlock>, st: SaveState, acc: seq<TextBlock>, st': SaveState)
    requires bs != []
    requires SaveFold(bs, st, ResetCue) == SaveFold(bs[1..], st', ResetCue)
    requires SaveFold(bs[1..], st', ResetCue).Ok?
    requires LoadSceneFiles(SaveFold(bs[1..], st', ResetCue).value.files, []) == Ok((acc + [bs[0]]) + bs[1..])
    ensures SaveFold(bs, st, ResetCue).Ok?
    ensures LoadSceneFiles(SaveFold(bs, st, ResetCue).value.files, []) == Ok(acc + bs)
  {
    var r := SaveFold(bs[1..], st', ResetCue);
    LoadsOn(SaveFold(bs, st, ResetCue), r, acc, bs);
  }

  lemma LoadsOn(x: Result<SaveState, SaveError>, y: Result<SaveState, SaveError>, acc: seq<TextBlock>, bs: seq<TextBlock>)
    requires bs != [] && x == y && y.Ok?
    requires LoadSceneFiles(y.value.files, []) == Ok((acc + [bs[0]]) + bs[1..])
    ensures x.Ok? && LoadSceneFiles(x.value.files, []) == Ok(acc + bs)
  {
    assert (acc + [bs[0]]) + bs[1..] == acc + bs;
  }

  /** Round trip: when every file starts with no cue written, saving a sequence of
      well-formed blocks that starts with a slug and reading the files back in the
      order written gives the same blocks. */
  lemma SaveThenLoad(bs: seq<TextBlock>, counter: nat)
    requires AllWellFormed(bs)
    requires bs != [] ==> bs[0].kind == Slug
    ensures SavedSequence(bs, counter, ResetCue).Ok?
    ensures LoadSceneFiles(SavedSequence(bs, counter, ResetCue).value.files, []) == Ok(bs)
  {
    var s0 := SaveState([], counter, "");
    assert ReadsBack(s0, []);
    SaveFoldReadsBack(bs, s0, []);
    assert [] + bs == bs;
  }

  /** Round trip from the text side: a sequence directory of readable files that
      loads to blocks starting with a slug is written back (cue reset per file) as
      files that load to the same blocks. */
  lemma LoadSaveLoad(files: seq<SceneFile>, counter: nat)
    requires ReadableFiles(files)
    requires LoadSceneFiles(files, []).Ok?
    requires var bs := LoadSceneFiles(files, []).value; bs != [] ==> bs[0].kind == Slug
    ensures var bs := LoadSceneFiles(files, []).value;
      SavedSequence(bs, counter, ResetCue).Ok? &&
      LoadSceneFiles(SavedSequence(bs, counter, ResetCue).value.files, []) == Ok(bs)
  {
    LoadSceneFilesWellFormed(files, []);
    SaveThenLoad(LoadSceneFiles(files, []).value, counter);
  }

  lemma UncuedDialogueStep(st: SceneState, t: string)
    requires t != [] && t[0] != '#' && t[0] != '[' && t[0] != '*' && t[0] != '('
    requires !IsNoteLine(t) && st.current == []
    ensures LineEffect(st, t) == Err(NoCharacterForDialogue(t))
  {
  }

  /** A written dialogue line read while no cue is set is fatal. */
  lemma UncuedDialogue(b: TextBlock, acc: seq<TextBlock>)
    requires WellFormed(b) && b.kind == Dialogue
    ensures SceneFold([b.content, ""], SceneState("", acc)) == Err(NoCharacterForDialogue(b.content))
  {
    UncuedDialogueStep(SceneState("", acc), b.content);
    TrimmedLine(SceneState("", acc), b.content);
    SceneFoldPair(b.content, SceneState("", acc));
  }

  /** As written, a scene whose first speaker closed the scene before gets no
      `[NAME]` line. */
  lemma CarriedCueSaved(s1: TextBlock, d1: TextBlock, s2: TextBlock, d2: TextBlock, counter: nat)
    requires s1.kind == Slug && s2.kind == Slug && IsSpoken(d1.kind) && d2.kind == Dialogue
    requires d1.character == d2.character
    ensures SavedSequence([s1, d1, s2, d2], counter, CarryCue) == Ok(SaveState([
        SceneFile(SceneFileName(counter, s1.content), BlockLines(s1, "") + BlockLines(d1, "")),
        SceneFile(SceneFileName(counter + 1, s2.content), BlockLines(s2, d1.character) + [d2.content, ""])],
        counter + 2, d1.character))
  {
    var n := d1.character;
    var f1 := SceneFile(SceneFileName(counter, s1.content), BlockLines(s1, "") + BlockLines(d1, ""));
    var f2 := SceneFile(SceneFileName(counter + 1, s2.content), BlockLines(s2, n) + [d2.content, ""]);
    var st0 := SaveState([], counter, "");
    var st1 := SaveState([SceneFile(SceneFileName(counter, s1.content), BlockLines(s1, ""))], counter + 1, "");
    var st2 := SaveState([f1], counter + 1, n);
    var st3 := SaveState([f1, SceneFile(SceneFileName(counter + 1, s2.content), BlockLines(s2, n))], counter + 2, n);
    var st4 := SaveState([f1, f2], counter + 2, n);
    CarriedCueSteps(s1, d1, s2, d2, counter);
    SaveFourSteps([s1, d1, s2, d2], st0, st1, st2, st3, st4);
  }

  lemma CarriedCueSteps(s1: TextBlock, d1: TextBlock, s2: TextBlock, d2: TextBlock, counter: nat)
    requires s1.kind == Slug && s2.kind == Slug && IsSpoken(d1.kind) && d2.kind == Dialogue
    requires d1.character == d2.character
    ensures var n := d1.character;
      var f1 := SceneFile(SceneFileName(counter, s1.content), BlockLines(s1, "") + BlockLines(d1, ""));
      var f2 := SceneFile(SceneFileName(counter + 1, s2.content), BlockLines(s2, n) + [d2.content, ""]);
      var st0 := SaveState([], counter, "");
      var st1 := SaveState([SceneFile(SceneFileName(counter, s1.content), BlockLines(s1, ""))], counter + 1, "");
      var st2 := SaveState([f1], counter + 1, n);
      var st3 := SaveState([f1, SceneFile(SceneFileName(counter + 1, s2.content), BlockLines(s2, n))], counter + 2, n);
      var st4 := SaveState([f1, f2], counter + 2, n);
      SaveStep(st0, s1, CarryCue) == Ok(st1) && SaveStep(st1, d1, CarryCue) == Ok(st2) &&
      SaveStep(st2, s2, CarryCue) == Ok(st3) && SaveStep(st3, d2, CarryCue) == Ok(st4)
  {
    var n := d1.character;
    var f1 := SceneFile(SceneFileName(counter, s1.content), BlockLines(s1, "") + BlockLines(d1, ""));
    var f2 := SceneFile(SceneFileName(counter + 1, s2.content), BlockLines(s2, n) + [d2.content, ""]);
    var st0 := SaveState([], counter, "");
    var st1 := SaveState([SceneFile(SceneFileName(counter, s1.content), BlockLines(s1, ""))], counter + 1, "");
    var st2 := SaveState([f1], counter + 1, n);
    var st3 := SaveState([f1, SceneFile(SceneFileName(counter + 1, s2.content), BlockLines(s2, n))], counter + 2, n);
    var st4 := SaveState([f1, f2], counter + 2, n);
    assert SaveStep(st0, s1, CarryCue) == Ok(st1) by {
      SlugSaved(st0, s1);
      assert [] + [st1.files[0]] == st1.files;
    }
    assert SaveStep(st1, d1, CarryCue) == Ok(st2) by {
      SpokenSaved(st1, d1);
      assert st1.files[..0] + [f1] == [f1];
    }
    assert SaveStep(st2, s2, CarryCue) == Ok(st3) by {
      SlugSaved(st2, s2);
      assert [f1] + [st3.files[1]] == st3.files;
    }
    assert SaveStep(st3, d2, CarryCue) == Ok(st4) by {
      SpokenSaved(st3, d2);
      assert BlockLines(d2, n) == [d2.content, ""];
      assert st3.files[..1] + [f2] == st4.files;
    }
  }

  /** A slug saved under the carried cue opens a file and keeps the cue. */
  lemma SlugSaved(st: SaveState, s: TextBlock)
    requires s.kind == Slug
    ensures SaveStep(st, s, CarryCue) ==
      Ok(SaveState(st.files + [SceneFile(SceneFileName(st.counter, s.content), BlockLines(s, st.lastCue))], st.counter + 1, st.lastCue))
  {
  }

  /** A spoken block after a slug grows the last file and makes its speaker the cue. */
  lemma SpokenSaved(st: SaveState, d: TextBlock)
    requires IsSpoken(d.kind) && st.files != []
    ensures SaveStep(st, d, CarryCue) == Ok(SaveState(st.files[..|st.files| - 1] +
      [st.files[|st.files| - 1].(lines := st.files[|st.files| - 1].lines + BlockLines(d, st.lastCue))], st.counter, d.character))
  {
  }

  /** Four blocks saved one step at a time. */
  lemma SaveFourSteps(bs: seq<TextBlock>, st0: SaveState, st1: SaveState, st2: SaveState, st3: SaveState, st4: SaveState)
    requires |bs| == 4
    requires SaveStep(st0, bs[0], CarryCue) == Ok(st1) && SaveStep(st1, bs[1], CarryCue) == Ok(st2)
    requires SaveStep(st2, bs[2], CarryCue) == Ok(st3) && SaveStep(st3, bs[3], CarryCue) == Ok(st4)
    ensures SaveFold(bs, st0, CarryCue) == Ok(st4)
  {
    SaveFoldCons(bs, st0, CarryCue);
    SaveFoldCons(bs[1..], st1, CarryCue);
    SaveFoldCons(bs[2..], st2, CarryCue);
    SaveFoldCons(bs[3..], st3, CarryCue);
    assert bs[1..][1..] == bs[2..] && bs[2..][1..] == bs[3..] && bs[3..][1..] == [];
  }

  lemma SpokenAfterSlug(s1: TextBlock, d1: TextBlock)
    requires WellFormed(d1) && IsSpoken(d1.kind)
    ensures SceneFold(BlockLines(d1, ""), SceneState("", [s1])) == Ok(SceneState(d1.character, [s1, d1]))
  {
    BlockLinesRead(d1, "", [s1]);
    assert [s1] + [d1] == [s1, d1];
  }

  lemma CarriedCueFirstFile(s1: TextBlock, d1: TextBlock, name: string)
    requires WellFormed(s1) && WellFormed(d1) && s1.kind == Slug && IsSpoken(d1.kind)
    requires IsTextFileName(name)
    ensures LoadSceneFile(SceneFile(name, BlockLines(s1, "") + BlockLines(d1, "")), []) == Ok([s1, d1])
  {
    var st0 := SceneState("", []);
    SlugLinesRead(s1, "", []);
    assert [] + [s1] == [s1];
    SpokenAfterSlug(s1, d1);
    SceneFoldAppend(BlockLines(s1, ""), BlockLines(d1, ""), st0);
  }

  lemma CarriedCueSecondFile(s2: TextBlock, d2: TextBlock, n: string, name: string, acc: seq<TextBlock>)
    requires WellFormed(s2) && WellFormed(d2) && s2.kind == Slug && d2.kind == Dialogue
    requires IsTextFileName(name)
    ensures LoadSceneFile(SceneFile(name, BlockLines(s2, n) + [d2.content, ""]), acc)
      == Err(NoCharacterForDialogue(d2.content))
  {
    SlugLinesRead(s2, n, acc);
    UncuedDialogue(d2, acc + [s2]);
    SceneFoldAppend(BlockLines(s2, n), [d2.content, ""], SceneState("", acc));
  }

  /** The code as written keeps the last cue across the files of a sequence: when
      the first speaker of a scene is the last speaker of the scene before, the new
      file gets no `[NAME]` line, and reading it back stops on the fatal error for
      dialogue without a character. */
  lemma CarriedCueBreaksRoundTrip(s1: TextBlock, d1: TextBlock, s2: TextBlock, d2: TextBlock, counter: nat)
    requires AllWellFormed([s1, d1, s2, d2])
    requires s1.kind == Slug && s2.kind == Slug && IsSpoken(d1.kind) && d2.kind == Dialogue
    requires d1.character == d2.character
    ensures SavedSequence([s1, d1, s2, d2], counter, CarryCue).Ok?
    ensures LoadSceneFiles(SavedSequence([s1, d1, s2, d2], counter, CarryCue).value.files, [])
      == Err(NoCharacterForDialogue(d2.content))
  {
    var bs := [s1, d1, s2, d2];
    assert WellFormed(bs[0]) && WellFormed(bs[1]) && WellFormed(bs[2]) && WellFormed(bs[3]);
    CarriedCueSaved(s1, d1, s2, d2, counter);
    var f1 := SceneFile(SceneFileName(counter, s1.content), BlockLines(s1, "") + BlockLines(d1, ""));
    var f2 := SceneFile(SceneFileName(counter + 1, s2.content), BlockLines(s2, d1.character) + [d2.content, ""]);
    CarriedCueFirstFile(s1, d1, f1.name);
    CarriedCueSecondFile(s2, d2, d1.character, f2.name, [s1, d1]);
    SecondFileFails(f1, f2, [s1, d1], NoCharacterForDialogue(d2.content));
  }

  lemma SecondFileFails(f1: SceneFile, f2: SceneFile, acc: seq<TextBlock>, e: SceneError)
    requires LoadSceneFile(f1, []) == Ok(acc) && LoadSceneFile(f2, acc) == Err(e)
    ensures LoadSceneFiles([f1, f2], []) == Err(e)
  {
    assert [f1, f2][1..] == [f2];
    assert [f2][1..] == [];
  }

  /** Such a sequence exists: one speaker closing a scene and opening the next. */
  lemma CrossSceneSpeaker()
    ensures var bs := [
        NewBlock(Slug, "", "ROOM"), NewBlock(Dialogue, "ANNA", "Hi"),
        NewBlock(Slug, "", "YARD"), NewBlock(Dialogue, "ANNA", "Bye")];
      AllWellFormed(bs) && bs[1].character == bs[3].character
  {
    var s1 := WordSlug("ROOM");
    var d1 := AnnaSays("Hi");
    var s2 := WordSlug("YARD");
    var d2 := AnnaSays("Bye");
    var bs := [s1, d1, s2, d2];
    assert forall i :: 0 <= i < |bs| ==> bs[i] in {s1, d1, s2, d2};
  }

  /** A slug of one upper-case word of four letters is well formed. */
  lemma WordSlug(c: string) returns (b: TextBlock)
    requires c == "ROOM" || c == "YARD"
    ensures b == NewBlock(Slug, "", c) && WellFormed(b)
  {
    b := NewBlock(Slug, "", c);
    assert IsCaps(c) by {
      forall i | 0 <= i < |c|
        ensures !IsLower(c[i])
      {
      }
    }
  }

  /** A short line said by ANNA is well-formed dialogue. */
  lemma AnnaSays(c: string) returns (b: TextBlock)
    requires c == "Hi" || c == "Bye"
    ensures b == NewBlock(Dialogue, "ANNA", c) && WellFormed(b)
  {
    b := NewBlock(Dialogue, "ANNA", c);
    var n := "ANNA";
    assert IsCaps(n) by {
      forall i | 0 <= i < |n|
        ensures !IsLower(n[i])
      {
      }
    }
    assert c[..2] != "//" by { assert c[..2][0] == c[0]; }
  }

  lemma CueStep(st: SceneState, t: string)
    requires t != [] && t[0] == '['
    ensures LineEffect(st, t) == Ok(st.(current := CueOf(t)))
  {
  }

  lemma OpenCueValue()
    ensures CueOf("[ eve") == " EVE"
  {
    var t := "[ eve";
    assert ']' !in t by {
      assert forall i :: 0 <= i < |t| ==> t[i] != ']';
    }
    assert t[1..] == " eve";
    assert Caps(" eve") == " EVE" by {
      assert |Caps(" eve")| == 4;
      assert forall i :: 0 <= i < 4 ==> Caps(" eve")[i] == " EVE"[i];
    }
  }

  /** A `[` line without `]` keeps the space after the bracket in the cue. */
  lemma UnclosedCueUntrimmed()
    ensures SceneLine(SceneState("", []), "[ eve") == Ok(SceneState(" EVE", []))
  {
    var t := "[ eve";
    assert IsTrimmed(t);
    TrimmedLine(SceneState("", []), t);
    CueStep(SceneState("", []), t);
    OpenCueValue();
  }
  // ---------------------------------------------------------------------
  // A space-led unclosed cue does not survive a save
  // ---------------------------------------------------------------------

  /** A dialogue line read under a cue adds one dialogue block said by that cue. */
  lemma HiRead(n: string, acc: seq<TextBlock>)
    requires n != []
    ensures SceneFold(["Hi", ""], SceneState(n, acc)) == Ok(SceneState(n, acc + [NewBlock(Dialogue, n, "Hi")]))
  {
    var c := "Hi";
    SceneFoldPair(c, SceneState(n, acc));
    TrimmedLine(SceneState(n, acc), c);
    assert c[..2] != "//" by { assert c[..2][0] == c[0]; }
  }

  /** The cue line the writer makes for the speaker " EVE" reads back trimmed. */
  lemma SpacedCueValue()
    ensures CueOf("[ EVE]") == "EVE"
  {
    var t := "[ EVE]";
    assert t[..5] == "[ EVE";
    assert ']' !in t[..5] by {
      assert forall i :: 0 <= i < 5 ==> t[..5][i] != ']';
    }
    FirstIndexOfAt(t, ']', 5);
    assert t[1..5] == " EVE";
    var n := " EVE";
    assert IsCaps(n) by {
      forall i | 0 <= i < |n|
        ensures !IsLower(n[i])
      {
      }
    }
    CapsProperties(n);
    assert n[1..] == "EVE";
    assert TrimFront(n) == "EVE";
  }

  /** The lines written for the slug ROOM. */
  lemma RoomLines(cue: string)
    ensures BlockLines(NewBlock(Slug, "", "ROOM"), cue) == ["# ROOM", ""]
  {
    var l := "# " + "ROOM";
    assert |l| == 6 && forall i :: 0 <= i < 6 ==> l[i] == "# ROOM"[i];
    assert l == "# ROOM";
  }

  /** The cue line written for the speaker " EVE". */
  lemma SpacedEveLines()
    ensures BlockLines(NewBlock(Dialogue, " EVE", "Hi"), "") == ["[ EVE]", "Hi", ""]
  {
    var l := "[" + " EVE" + "]";
    assert |l| == 6 && forall i :: 0 <= i < 6 ==> l[i] == "[ EVE]"[i];
    assert l == "[ EVE]";
    assert CueLines(NewBlock(Dialogue, " EVE", "Hi"), "") == [l];
  }

  /** A line read without error hands the rest of the file its new state. */
  lemma FoldCons(x: string, rest: seq<string>, st: SceneState, st': SceneState)
    requires SceneLine(st, x) == Ok(st')
    ensures SceneFold([x] + rest, st) == SceneFold(rest, st')
  {
    assert ([x] + rest)[0] == x;
    assert ([x] + rest)[1..] == rest;
  }

  lemma FiveLines(cueLine: string)
    ensures ["# ROOM", ""] + ([cueLine] + ["Hi", ""]) == ["# ROOM", "", cueLine, "Hi", ""]
  {
  }

  /** Reading the slug ROOM, a cue line and the dialogue "Hi". */
  lemma SpacedCueFileRead(cueLine: string, cue: string)
    requires SceneLine(SceneState("", [NewBlock(Slug, "", "ROOM")]), cueLine) ==
      Ok(SceneState(cue, [NewBlock(Slug, "", "ROOM")]))
    requires cue != []
    ensures SceneFold(["# ROOM", "", cueLine, "Hi", ""], SceneState("", [])) ==
      Ok(SceneState(cue, [NewBlock(Slug, "", "ROOM"), NewBlock(Dialogue, cue, "Hi")]))
  {
    var s := WordSlug("ROOM");
    var head := ["# ROOM", ""];
    var tail := ["Hi", ""];
    RoomLines("");
    SlugLinesRead(s, "", []);
    assert [] + [s] == [s];
    FoldCons(cueLine, tail, SceneState("", [s]), SceneState(cue, [s]));
    HiRead(cue, [s]);
    assert [s] + [NewBlock(Dialogue, cue, "Hi")] == [NewBlock(Slug, "", "ROOM"), NewBlock(Dialogue, cue, "Hi")];
    SceneFoldAppend(head, [cueLine] + tail, SceneState("", []));
    FiveLines(cueLine);
  }

  /** One text file is read as its lines from no cue. */
  lemma OneFileLoad(f: SceneFile, st: SceneState)
    requires IsTextFileName(f.name) && SceneFold(f.lines, SceneState("", [])) == Ok(st)
    ensures LoadSceneFiles([f], []) == Ok(st.blocks)
  {
    assert [f][1..] == [];
  }

  /** The file as given loads the speaker " EVE". */
  lemma SpacedCueLoaded(name: string)
    requires IsTextFileName(name)
    ensures LoadSceneFiles([SceneFile(name, ["# ROOM", "", "[ eve", "Hi", ""])], []) ==
      Ok([NewBlock(Slug, "", "ROOM"), NewBlock(Dialogue, " EVE", "Hi")])
  {
    var s := NewBlock(Slug, "", "ROOM");
    var st1 := SceneState("", [s]);
    assert SceneLine(st1, "[ eve") == Ok(SceneState(" EVE", [s])) by {
      UnclosedCueUntrimmed();
      TrimmedLine(st1, "[ eve");
      TrimmedLine(SceneState("", []), "[ eve");
      CueStep(st1, "[ eve");
      CueStep(SceneState("", []), "[ eve");
    }
    SpacedCueFileRead("[ eve", " EVE");
    OneFileLoad(SceneFile(name, ["# ROOM", "", "[ eve", "Hi", ""]),
      SceneState(" EVE", [s, NewBlock(Dialogue, " EVE", "Hi")]));
  }

  /** The writer gives " EVE" the cue line `[ EVE]`. */
  lemma SpacedCueSaved(counter: nat, mode: CueMode)
    ensures SavedSequence([NewBlock(Slug, "", "ROOM"), NewBlock(Dialogue, " EVE", "Hi")], counter, mode) ==
      Ok(SaveState([SceneFile(SceneFileName(counter, "ROOM"), ["# ROOM", "", "[ EVE]", "Hi", ""])], counter + 1, " EVE"))
  {
    var s := NewBlock(Slug, "", "ROOM");
    var d := NewBlock(Dialogue, " EVE", "Hi");
    RoomLines("");
    SpacedEveLines();
    assert ["# ROOM", ""] + ["[ EVE]", "Hi", ""] == ["# ROOM", "", "[ EVE]", "Hi", ""];
    assert [s, d][1..] == [d] && [d][1..] == [];
  }

  /** The written file reads back the speaker "EVE". */
  lemma SpacedCueReloaded(name: string)
    requires IsTextFileName(name)
    ensures LoadSceneFiles([SceneFile(name, ["# ROOM", "", "[ EVE]", "Hi", ""])], []) ==
      Ok([NewBlock(Slug, "", "ROOM"), NewBlock(Dialogue, "EVE", "Hi")])
  {
    var s := NewBlock(Slug, "", "ROOM");
    var st1 := SceneState("", [s]);
    assert SceneLine(st1, "[ EVE]") == Ok(SceneState("EVE", [s])) by {
      SpacedCueValue();
      TrimmedLine(st1, "[ EVE]");
      CueStep(st1, "[ EVE]");
    }
    SpacedCueFileRead("[ EVE]", "EVE");
    OneFileLoad(SceneFile(name, ["# ROOM", "", "[ EVE]", "Hi", ""]),
      SceneState("EVE", [s, NewBlock(Dialogue, "EVE", "Hi")]));
  }

  /** As written, a `[` line with blank space after the bracket and no `]`
      loads a speaker that the writer cannot give back: the speaker " EVE"
      is written as `[ EVE]`, which reads back as "EVE". A single scene file
      is enough, so both cue modes of the writer show it. */
  lemma UnclosedCueBreaksRoundTrip(name: string, counter: nat, mode: CueMode)
    requires IsTextFileName(name)
    ensures var bs := [NewBlock(Slug, "", "ROOM"), NewBlock(Dialogue, " EVE", "Hi")];
      LoadSceneFiles([SceneFile(name, ["# ROOM", "", "[ eve", "Hi", ""])], []) == Ok(bs) &&
      SavedSequence(bs, counter, mode).Ok? &&
      LoadSceneFiles(SavedSequence(bs, counter, mode).value.files, []) ==
        Ok([NewBlock(Slug, "", "ROOM"), NewBlock(Dialogue, "EVE", "Hi")])
  {
    SpacedCueLoaded(name);
    SpacedCueSaved(counter, mode);
    SpacedCueReloaded(SceneFileName(counter, "ROOM"));
  }

  /** The cue evidently intended for a `[` line: upper-cased and trimmed
      whether or not a `]` closes it, as the closed form already is. */
  function TrimmedCueOf(t: string): string
    requires t != [] && t[0] == '['
  {
    if ']' in t then Trimmed(Caps(t[1..FirstIndexOf(t, ']')])) else Trimmed(Caps(t[1..]))
  }

  /** With the corrected cue every cue read is a name the writer can write and
      read back unchanged; on lines without a space-led unclosed cue it is the
      cue the code reads. */
  lemma TrimmedCueReadsBack(t: string, st: SceneState)
    requires t != [] && t[0] == '[' && IsTrimmed(t) && NoNewline(t)
    ensures CueOk(TrimmedCueOf(t))
    ensures TrimmedCueOf(t) != [] ==>
      SceneLine(st, "[" + TrimmedCueOf(t) + "]") == Ok(st.(current := TrimmedCueOf(t)))
    ensures CueSafe(t) ==> TrimmedCueOf(t) == CueOf(t)
  {
    if ']' in t {
      CueReadOk(t);
    } else {
      var n := t[1..];
      SliceChars(t, 1, |t|);
      CapsChars(n);
      TrimmedIsTrimmed(Caps(n));
      TrimmedChars(Caps(n));
      assert ']' !in Trimmed(Caps(n)) && '\n' !in Trimmed(Caps(n));
      if CueSafe(t) {
        TrimOfTrimmed(t);
        OpenCueOk(t);
        TrimOfTrimmed(Caps(n));
      }
    }
    if TrimmedCueOf(t) != [] {
      CueLineRead(TrimmedCueOf(t), st);
    }
  }
}
