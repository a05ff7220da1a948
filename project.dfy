/**
 * The exporter's `Project` (ss-export/core/Project.h): the sequences of a
 * screenplay and its character collection, loaded from and saved to the text
 * files of a project directory. The file system is not modelled: a file is
 * given as its name and its lines, a sequence directory as its name and its
 * files (in listing order), and a save returns the lines it would write.
 * Each method is proved against the reader or writer of `Scenes` and
 * `Registry`, whose properties are proved there.
 */
module ProjectModel {
  import opened Wrappers
  import opened Strings
  import opened ProjectText
  import opened TextBlocks
  import opened Characters
  import opened Scenes
  import opened Registry

  /** `Sequence`: a named list of blocks, one directory of the project. */
  datatype Sequence = Sequence(name: string, blocks: seq<TextBlock>)

  /** The outcome of reading a scene's lines onto the blocks read so far. */
  function SceneBlocks(lines: seq<string>, blocks: seq<TextBlock>): Result<seq<TextBlock>, SceneError>
  {
    match SceneFold(lines, SceneState("", blocks))
    case Err(e) => Err(e)
    case Ok(st) => Ok(st.blocks)
  }

  /** A sequence directory as `Save` writes it: its name and its scene files. */
  datatype SavedDirectory = SavedDirectory(name: string, files: seq<SceneFile>)

  /** `Save` over the sequences, as written: directory `i` is named
      `TwoDig(i)_name`, and one file counter runs on across the directories.
      The directories, and the counter after the last. */
  function SavedDirectories(seqs: seq<Sequence>): Result<(seq<SavedDirectory>, nat), SaveError>
    decreases |seqs|
  {
    if seqs == [] then Ok(([], 0))
    else
      var i := |seqs| - 1;
      match SavedDirectories(seqs[..i])
      case Err(e) => Err(e)
      case Ok(p) =>
        match SavedSequence(seqs[i].blocks, p.1, CarryCue)
        case Err(e) => Err(e)
        case Ok(st) => Ok((p.0 + [SavedDirectory(SequenceDirName(i, seqs[i].name), st.files)], st.counter))
  }

  /** The scene files of all directories, in directory order. */
  function AllFiles(ds: seq<SavedDirectory>): seq<SceneFile>
    decreases |ds|
  {
    if ds == [] then [] else AllFiles(ds[..|ds| - 1]) + ds[|ds| - 1].files
  }

  /** One directory per sequence, whose name `LoadSequence` turns back into
      the sequence's name. */
  predicate DirectoriesNamed(seqs: seq<Sequence>, ds: seq<SavedDirectory>)
  {
    |ds| == |seqs| && forall i :: 0 <= i < |ds| ==> SequenceName(ds[i].name) == seqs[i].name
  }

  /** The scene files of the whole project are numbered 0, 1, 2, ... in order
      across the directories, and the counter is the number of files. */
  predicate ProjectNumbered(ds: seq<SavedDirectory>, counter: nat)
  {
    NumberedFrom(AllFiles(ds), 0) && counter == |AllFiles(ds)|
  }

  /** A save writes one directory per sequence, named so that loading gives
      the sequence's name back, and numbers the scene files of the whole
      project consecutively, so no two share a number. */
  lemma {:induction false} SavedDirectoriesShape(seqs: seq<Sequence>)
    ensures SavedDirectories(seqs).Ok? ==>
      DirectoriesNamed(seqs, SavedDirectories(seqs).value.0) &&
      ProjectNumbered(SavedDirectories(seqs).value.0, SavedDirectories(seqs).value.1)
    decreases |seqs|
  {
    if seqs != [] && SavedDirectories(seqs).Ok? {
      var i := |seqs| - 1;
      SavedDirectoriesShape(seqs[..i]);
      var p := SavedDirectories(seqs[..i]).value;
      SavedSequenceNumbered(seqs[i].blocks, p.1, CarryCue);
      var st := SavedSequence(seqs[i].blocks, p.1, CarryCue).value;
      var d := SavedDirectory(SequenceDirName(i, seqs[i].name), st.files);
      assert SavedDirectories(seqs).value == (p.0 + [d], st.counter);
      SequenceNameRoundTrip(i, seqs[i].name);
      NamedSnoc(seqs, p.0, d);
      NumberedSnocDirectory(p.0, p.1, d);
    }
  }

  lemma NamedSnoc(seqs: seq<Sequence>, ds: seq<SavedDirectory>, d: SavedDirectory)
    requires seqs != [] && DirectoriesNamed(seqs[..|seqs| - 1], ds)
    requires SequenceName(d.name) == seqs[|seqs| - 1].name
    ensures DirectoriesNamed(seqs, ds + [d])
  {
    assert forall j :: 0 <= j < |ds| ==> (ds + [d])[j] == ds[j] && seqs[..|seqs| - 1][j] == seqs[j];
  }

  lemma NumberedSnocDirectory(ds: seq<SavedDirectory>, counter: nat, d: SavedDirectory)
    requires ProjectNumbered(ds, counter) && NumberedFrom(d.files, counter)
    ensures ProjectNumbered(ds + [d], counter + |d.files|)
  {
    assert (ds + [d])[..|ds|] == ds;
    NumberedAppend(AllFiles(ds), d.files, 0);
  }

  lemma SavedDirectoriesNext(seqs: seq<Sequence>, i: nat, p: (seq<SavedDirectory>, nat))
    requires i < |seqs| && SavedDirectories(seqs[..i]) == Ok(p)
    ensures SavedDirectories(seqs[..i + 1]) ==
      match SavedSequence(seqs[i].blocks, p.1, CarryCue)
      case Err(e) => Err(e)
      case Ok(st) => Ok((p.0 + [SavedDirectory(SequenceDirName(i, seqs[i].name), st.files)], st.counter))
  {
    assert seqs[..i + 1][..i] == seqs[..i];
  }

  /** A save that fails on some sequence fails as a whole. */
  lemma {:induction false} SavedDirectoriesPrefixErr(seqs: seq<Sequence>, k: nat)
    requires k <= |seqs| && SavedDirectories(seqs[..k]).Err?
    ensures SavedDirectories(seqs).Err?
    decreases |seqs| - k
  {
    if k < |seqs| {
      assert seqs[..k + 1][..k] == seqs[..k];
      SavedDirectoriesPrefixErr(seqs, k + 1);
    } else {
      assert seqs[..k] == seqs;
    }
  }

  lemma RegistryLinesNext(cs: seq<Character>, i: nat)
    requires i < |cs|
    ensures RegistryLines(cs[..i + 1]) == RegistryLines(cs[..i]) + CharacterLines(cs[i])
  {
    assert cs[..i + 1][..i] == cs[..i];
  }

  /** The block `ForEach` passes beside block `i`: the one after it, none for the last. */
  function NextOf(bs: seq<TextBlock>, i: nat): Option<TextBlock>
    requires i < |bs|
  {
    if i < |bs| - 1 then Some(bs[i + 1]) else None
  }

  /** The positions `ForEach` hands to a callback answering `skip`, from
      position `i` on: a true answer skips the next block. */
  function Visits(bs: seq<TextBlock>, skip: (TextBlock, Option<TextBlock>) -> bool, i: nat): seq<nat>
    decreases |bs| - i
  {
    if i >= |bs| then []
    else [i] + Visits(bs, skip, if skip(bs[i], NextOf(bs, i)) then i + 2 else i + 1)
  }

  /** The visited positions lie in `i..|bs|` and rise strictly. */
  lemma {:induction false} VisitsRange(bs: seq<TextBlock>, skip: (TextBlock, Option<TextBlock>) -> bool, i: nat)
    ensures forall k :: 0 <= k < |Visits(bs, skip, i)| ==> i <= Visits(bs, skip, i)[k] < |bs|
    ensures forall k, l :: 0 <= k < l < |Visits(bs, skip, i)| ==> Visits(bs, skip, i)[k] < Visits(bs, skip, i)[l]
    decreases |bs| - i
  {
    if i < |bs| {
      VisitsRange(bs, skip, if skip(bs[i], NextOf(bs, i)) then i + 2 else i + 1);
    }
  }

  /** From position `i` on, block `j` is left out exactly when block `j - 1`
      was visited and the callback answered true for it. */
  lemma {:induction false} VisitsSkip(bs: seq<TextBlock>, skip: (TextBlock, Option<TextBlock>) -> bool, i: nat, j: nat)
    requires i < j < |bs|
    ensures j !in Visits(bs, skip, i) <==> j - 1 in Visits(bs, skip, i) && skip(bs[j - 1], NextOf(bs, j - 1))
    decreases |bs| - i
  {
    var i' := if skip(bs[i], NextOf(bs, i)) then i + 2 else i + 1;
    VisitsRange(bs, skip, i');
    assert Visits(bs, skip, i) == [i] + Visits(bs, skip, i');
    if j == i + 1 {
      assert j !in Visits(bs, skip, i) <==> i' == i + 2;
    } else if j == i' {
      assert Visits(bs, skip, i')[0] == j;
      assert j - 1 !in Visits(bs, skip, i');
    } else {
      VisitsSkip(bs, skip, i', j);
    }
  }

  class Project {
    var sequences: seq<Sequence>
    const characters: CharacterCollection

    constructor()
      ensures sequences == [] && fresh(characters) && characters.data == []
    {
      sequences := [];
      characters := new CharacterCollection();
    }

    /** One line of `LoadScene`, with the current character and the blocks so far. */
    method ReadSceneLine(lastCharacter: string, blocks: seq<TextBlock>, raw: string)
      returns (r: Result<SceneState, SceneError>)
      ensures r == SceneLine(SceneState(lastCharacter, blocks), raw)
    {
      var line := Trim(raw);
      if line == [] {
        return Ok(SceneState(lastCharacter, blocks));
      }
      if line[0] == '#' {
        line := ToCaps(line);
        var content := Trim(line[1..]);
        return Ok(SceneState(lastCharacter, blocks + [NewBlock(Slug, "", content)]));
      }
      if line[0] == '[' {
        if ']' !in line {
          var cue := ToCaps(line[1..]);
          return Ok(SceneState(cue, blocks));
        }
        var closeIndex := FirstIndexOf(line, ']');
        var cue := ToCaps(line[1..closeIndex]);
        cue := Trim(cue);
        return Ok(SceneState(cue, blocks));
      }
      if line[0] == '*' {
        var content := Trim(line[1..]);
        return Ok(SceneState(lastCharacter, blocks + [NewBlock(Action, "", content)]));
      }
      if line[0] == '(' {
        if lastCharacter == [] {
          return Err(NoCharacterForParenthetical(line));
        }
        if ')' !in line {
          var content := Trim(line[1..]);
          return Ok(SceneState(lastCharacter, blocks + [NewBlock(Parenthetical, lastCharacter, content)]));
        }
        var endIndex := LastIndexOf(line, ')');
        var content := Trim(line[1..endIndex]);
        return Ok(SceneState(lastCharacter, blocks + [NewBlock(Parenthetical, lastCharacter, content)]));
      }
      if |line| >= 2 && line[..2] == "//" {
        var note := Trim(line[2..]);
        if note != [] {
          var content := Trim(note);
          TrimIdempotent(line[2..]);
          return Ok(SceneState(lastCharacter, blocks + [NewBlock(Note, "", content)]));
        }
        return Ok(SceneState(lastCharacter, blocks));
      }
      if lastCharacter == [] {
        return Err(NoCharacterForDialogue(line));
      }
      return Ok(SceneState(lastCharacter, blocks + [NewBlock(Dialogue, lastCharacter, line)]));
    }

    /** `LoadScene`: the lines of one scene file, read onto the blocks of the
        sequence with no current character at the start of the file; a spoken
        line with no current character is fatal. */
    method LoadScene(lines: seq<string>, blocks: seq<TextBlock>) returns (r: Result<seq<TextBlock>, SceneError>)
      ensures r == SceneBlocks(lines, blocks)
    {
      var lastCharacter := "";
      var acc := blocks;
      for i := 0 to |lines|
        invariant SceneFold(lines, SceneState("", blocks)) == SceneFold(lines[i..], SceneState(lastCharacter, acc))
      {
        assert lines[i..][0] == lines[i] && lines[i..][1..] == lines[i + 1..];
        var step := ReadSceneLine(lastCharacter, acc, lines[i]);
        if step.Err? {
          return Err(step.error);
        }
        lastCharacter := step.value.current;
        acc := step.value.blocks;
      }
      return Ok(acc);
    }

    /** `LoadSequence`: a new sequence named after its directory without the
        `NN_` prefix, holding the blocks of its `.txt` files in listing order. */
    method LoadSequence(dirName: string, files: seq<SceneFile>) returns (err: Option<SceneError>)
      modifies this
      ensures err.None? <==> LoadSceneFiles(files, []).Ok?
      ensures err.Some? ==> err.value == LoadSceneFiles(files, []).error
      ensures err.None? ==> sequences == old(sequences) + [Sequence(SequenceName(dirName), LoadSceneFiles(files, []).value)]
    {
      var name := dirName;
      if '_' in name {
        var underscoreIndex := FirstIndexOf(name, '_');
        name := name[underscoreIndex + 1..];
      }
      var blocks := [];
      for i := 0 to |files|
        invariant LoadSceneFiles(files, []) == LoadSceneFiles(files[i..], blocks)
        invariant sequences == old(sequences)
      {
        assert files[i..][0] == files[i] && files[i..][1..] == files[i + 1..];
        if !IsTextFileName(files[i].name) {
          continue;
        }
        var r := LoadScene(files[i].lines, blocks);
        if r.Err? {
          return Some(r.error);
        }
        blocks := r.value;
      }
      assert files[|files|..] == [];
      sequences := sequences + [Sequence(name, blocks)];
      return None;
    }

    /** The name of a header line: up to the first `]`; without one, from one
        character before the first `{`, or the whole rest; upper-cased, then trimmed. */
    method HeaderNameOf(line: string) returns (charName: string)
      requires line != [] && line[0] == '['
      ensures charName == HeaderName(line)
    {
      if ']' !in line {
        if '{' !in line {
          charName := line[1..];
        } else {
          var colBegin := FirstIndexOf(line, '{');
          charName := line[colBegin - 1..];
        }
      } else {
        var nameEnd := FirstIndexOf(line, ']');
        charName := line[1..nameEnd];
      }
      charName := ToCaps(charName);
      charName := Trim(charName);
    }

    /** The colour cells of a header, read into the four channels of the
        entry's colour in r, g, b, a order; whatever the colour was before, the
        result depends on the text alone. */
    method ReadColor(previous: Color, text: string) returns (color: Color)
      ensures color == ParseColor(text)
    {
      var cells := Fields(text, ',');
      var channels: seq<Byte> := [previous.r, previous.g, previous.b, previous.a];
      var count := 0;
      while count < |cells| && count < 4
        invariant count <= 4 && |channels| == 4
        invariant forall k :: 0 <= k < count ==> channels[k] == ChannelAt(cells, k)
      {
        var channel := ReadCell(cells[count]);
        channels := channels[count := channel];
        count := count + 1;
      }
      while count < 4
        invariant count <= 4 && |channels| == 4
        invariant forall k :: 0 <= k < count ==> channels[k] == ChannelAt(cells, k)
      {
        channels := channels[count := 255];
        count := count + 1;
      }
      color := Color(channels[0], channels[1], channels[2], channels[3]);
    }

    /** One colour cell: trimmed, then `std::stoi` cast to `uint8_t`, or 255
        when `std::stoi` throws. */
    method ReadCell(cell: string) returns (channel: Byte)
      ensures channel == CellChannel(cell)
    {
      var colCell := Trim(cell);
      match Stoi(colCell)
      case Some(v) =>
        channel := v % 256;
      case None =>
        channel := 255;
    }

    /** A header line of `LoadCharacters`: the named entry, appended when new,
        takes the header's colour and its name becomes the current one. */
    method ReadHeaderLine(line: string) returns (charName: string)
      requires line != [] && line[0] == '['
      modifies characters
      ensures RegistryState(charName, characters.data) == ReadHeader(RegistryState(charName, old(characters.data)), line)
    {
      charName := HeaderNameOf(line);
      var k := characters.Index(charName);
      assert characters.data[k := characters.data[k].(name := charName)] == characters.data;
      characters.data := characters.data[k := characters.data[k].(name := charName)];
      var color := White;
      if '{' in line {
        var text := ColorTextOf(line);
        color := ReadColor(characters.data[k].color, text);
      }
      characters.data := characters.data[k := characters.data[k].(color := color)];
    }

    /** The text between the colour braces of a header line. */
    method ColorTextOf(line: string) returns (text: string)
      requires '{' in line
      ensures text == ColorText(line)
    {
      var colBegin := FirstIndexOf(line, '{');
      if '}' in line && FirstIndexOf(line, '}') > colBegin {
        var colEnd := FirstIndexOf(line, '}');
        text := line[colBegin + 1..colEnd];
      } else {
        // With no `}`, or the first `}` before the `{`, the unsigned length
        // `colEnd - (colBegin + 1)` is huge and `substr` runs to the end.
        text := line[colBegin + 1..];
      }
    }

    /** A note line of `LoadCharacters`: appended to the current character's
        notes, after a newline when there are notes already. */
    method AppendNote(charName: string, line: string)
      requires charName != []
      modifies characters
      ensures ReadNote(RegistryState(charName, old(characters.data)), line) == Ok(RegistryState(charName, characters.data))
    {
      var k := characters.Index(charName);
      var c := characters.data[k];
      if c.notes != [] {
        c := c.(notes := c.notes + "\n" + line);
      } else {
        c := c.(notes := line);
      }
      characters.data := characters.data[k := c];
    }

    /** `LoadCharacters`: the lines of `_char.txt` read into the collection; a
        note line before any header is fatal. */
    method LoadCharacters(lines: seq<string>) returns (err: Option<RegistryError>)
      modifies characters
      ensures err.None? <==> LoadRegistry(lines, old(characters.data)).Ok?
      ensures err.Some? ==> err.value == LoadRegistry(lines, old(characters.data)).error
      ensures err.None? ==> characters.data == LoadRegistry(lines, old(characters.data)).value
    {
      var charName := "";
      for i := 0 to |lines|
        invariant RegistryFold(lines, RegistryState("", old(characters.data))) ==
          RegistryFold(lines[i..], RegistryState(charName, characters.data))
      {
        assert lines[i..][0] == lines[i] && lines[i..][1..] == lines[i + 1..];
        ghost var st := RegistryState(charName, characters.data);
        var line := Trim(lines[i]);
        if line == [] {
          continue;
        }
        if line[0] == '[' {
          charName := ReadHeaderLine(line);
          continue;
        }
        if charName == [] {
          return Some(NoCurrentCharacter(line));
        }
        AppendNote(charName, line);
      }
      assert lines[|lines|..] == [];
      return None;
    }

    /** `SaveCharacters`: the lines of `_char.txt`, character by character in
        collection order: the header, then the notes and a blank line. */
    method SaveCharacters() returns (file: seq<string>)
      ensures file == RegistryLines(characters.data)
    {
      file := [];
      var data := characters.data;
      for i := 0 to |data|
        invariant file == RegistryLines(data[..i])
      {
        RegistryLinesNext(data, i);
        var lines := WriteCharacter(data[i]);
        file := file + lines;
      }
      assert data[..|data|] == data;
    }

    /** The lines `SaveCharacters` writes for one character: the header, then a
        blank line, or the notes and a blank line. */
    method WriteCharacter(c: Character) returns (lines: seq<string>)
      ensures lines == CharacterLines(c)
    {
      var header := WriteHeader(c);
      lines := [header];
      if c.notes == [] {
        lines := lines + [""];
        return;
      }
      lines := lines + Split(c.notes, '\n') + [""];
    }

    /** The header `SaveCharacters` writes: `[NAME]{ r, g, b, a }`. */
    method WriteHeader(c: Character) returns (header: string)
      ensures header == HeaderLine(c)
    {
      var r, g, b, a := DecimalString(c.color.r), DecimalString(c.color.g),
        DecimalString(c.color.b), DecimalString(c.color.a);
      header := "[" + c.name + "]{ " + r + ", " + g + ", " + b + ", " + a + " }";
      assert ColorBody(c.color) == " " + r + ", " + g + ", " + b + ", " + a + " ";
    }

    /** The lines `SaveSequence` writes for a block that is not a slug, and
        the last cue written after it. */
    method WriteSceneBlock(block: TextBlock, lastCharName: string) returns (out: seq<string>, cue: string)
      requires block.kind != Slug
      ensures out == BlockLines(block, lastCharName) && cue == NextCue(block, lastCharName)
    {
      out := [];
      cue := lastCharName;
      match block.kind {
        case Action =>
          out := ["* " + block.content, ""];
        case Note =>
          out := ["// " + block.content, ""];
        case Parenthetical =>
          if block.character != cue {
            out := ["[" + block.character + "]"];
            cue := block.character;
          }
          out := out + ["(" + block.content + ")", ""];
        case Dialogue =>
          if block.character != cue {
            out := ["[" + block.character + "]"];
            cue := block.character;
          }
          out := out + [block.content, ""];
        case Unassigned =>
      }
    }

    /** `SaveSequence`, as written: one file per slug, numbered from the
        shared counter; the last cue written is carried across the files. */
    method SaveSequence(sequence: Sequence, fileCounter: nat) returns (r: Result<SaveState, SaveError>)
      ensures r == SavedSequence(sequence.blocks, fileCounter, CarryCue)
    {
      var blocks := sequence.blocks;
      var files: seq<SceneFile> := [];
      var counter := fileCounter;
      var lastCharName := "";
      for i := 0 to |blocks|
        invariant SavedSequence(blocks, fileCounter, CarryCue) ==
          SaveFold(blocks[i..], SaveState(files, counter, lastCharName), CarryCue)
      {
        assert blocks[i..][0] == blocks[i] && blocks[i..][1..] == blocks[i + 1..];
        var block := blocks[i];
        if block.kind == Slug {
          var stem := NameFromSlug(block.content);
          var filename := ThreeDig(counter) + "_" + stem + ".txt";
          counter := counter + 1;
          files := files + [SceneFile(filename, ["# " + block.content, ""])];
          continue;
        }
        if files == [] {
          return Err(SequenceWithoutSlug);
        }
        var out;
        out, lastCharName := WriteSceneBlock(block, lastCharName);
        var last := files[|files| - 1];
        files := files[..|files| - 1] + [last.(lines := last.lines + out)];
      }
      assert blocks[|blocks|..] == [];
      return Ok(SaveState(files, counter, lastCharName));
    }

    /** `Save`, file system aside: the lines of `_char.txt`, then each sequence
        saved under `TwoDig(i)_name` with the file counter threaded through. */
    method Save() returns (registry: seq<string>, r: Result<seq<SavedDirectory>, SaveError>)
      ensures registry == RegistryLines(characters.data)
      ensures r.Ok? <==> SavedDirectories(sequences).Ok?
      ensures r.Ok? ==> r.value == SavedDirectories(sequences).value.0
    {
      registry := SaveCharacters();
      var fileCounter := 0;
      var dirs := [];
      for i := 0 to |sequences|
        invariant SavedDirectories(sequences[..i]) == Ok((dirs, fileCounter))
      {
        var name := TwoDig(i) + "_" + sequences[i].name;
        var saved := SaveSequence(sequences[i], fileCounter);
        SavedDirectoriesNext(sequences, i, (dirs, fileCounter));
        if saved.Err? {
          SavedDirectoriesPrefixErr(sequences, i + 1);
          return registry, Err(saved.error);
        }
        dirs := dirs + [SavedDirectory(name, saved.value.files)];
        fileCounter := saved.value.counter;
      }
      assert sequences[..|sequences|] == sequences;
      return registry, Ok(dirs);
    }

    /** `ForEach` with a callback that answers from the block and the next
        one: the positions visited in each sequence. */
    method ForEach(skip: (TextBlock, Option<TextBlock>) -> bool) returns (visits: seq<seq<nat>>)
      ensures |visits| == |sequences|
      ensures forall s :: 0 <= s < |sequences| ==> visits[s] == Visits(sequences[s].blocks, skip, 0)
    {
      visits := [];
      for s := 0 to |sequences|
        invariant |visits| == s
        invariant forall t :: 0 <= t < s ==> visits[t] == Visits(sequences[t].blocks, skip, 0)
      {
        var blocks := sequences[s].blocks;
        var seen: seq<nat> := [];
        var i := 0;
        while i < |blocks|
          invariant Visits(blocks, skip, 0) == seen + Visits(blocks, skip, i)
          decreases |blocks| - i
        {
          var next := if i < |blocks| - 1 then Some(blocks[i + 1]) else None;
          seen := seen + [i];
          if skip(blocks[i], next) {
            i := i + 1;
          }
          i := i + 1;
        }
        visits := visits + [seen];
      }
    }
  }
}
