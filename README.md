# SimpleScript text pipeline in Dafny

SimpleScript keeps a screenplay as a project directory.
- Each sequence is a directory named `NN_name`.
- Each scene is a text file in a small line grammar: `# slug`, `[NAME]`, `* action`, `(parenthetical)`, `// note`, and plain dialogue.
- A character registry, `_char.txt`, holds `[NAME]{ r, g, b, a }` headers, each followed by note lines.

Two programs read a project:
- The exporter lays it out on 52-line pages for a Word document.
- The viewer lays it out as one continuous column of paragraphs, with clickable slug regions, a change detector on the project folder and a one-key settings file.

This project models that pipeline:
- the scene and registry readers and writers;
- the string helpers;
- the greedy word wrap;
- the exporter's page-budget state machine;
- the viewer's paragraph and region layout;
- the file checker and the settings parser.

It proves the properties the code promises: round trips, the page budget, region tiling, greedy packing and the header rules. The modules are:

| file | module | models |
|---|---|---|
| wrappers.dfy | Wrappers | `Option`, `Result` |
| strings.dfy | Strings | `std::getline` tokenising, `std::to_string`, `std::stoi` |
| text_block.dfy | TextBlocks | `TextBlock` and its `Type` enumeration |
| character.dfy | Characters | `Color` and `Character` with their defaults |
| project_text.dfy | ProjectText | `Trim`, `ToCaps`, `TwoDig`, `ThreeDig`, `NameFromSlug`, the `LoadSequence` name strip |
| scene.dfy | Scenes | the `LoadScene` line grammar, the `SaveSequence` writer, their round trip |
| registry.dfy | Registry | `CharacterCollection`, the `_char.txt` grammar, `SaveCharacters`, their round trip |
| project.dfy | ProjectModel | the `Project` class: loading, saving, `ForEach` |
| wrap.dfy | LineWrap | the greedy wrap shared by both programs, parenthetical decoration |
| docx.dfy | Docx | the `DocxExporter` class and its `WriteBlock` state machine |
| docx_pages.dfy | DocxPages | what the export promises about pages, headers, skipping and numbering |
| formatter.dfy | View | the viewer's `Formatter` class: paragraphs, slug regions, the cursor loop |
| file_checker.dfy | FileWatch | the `FileChecker` class |
| settings.dfy | ViewSettings | the `Settings` singleton |

Two things are inputs rather than effects:
- File contents are sequences of lines, and directory listings are sequences of entries.
- The two `exit(1)` paths of each reader, and the one of the writer, are `Err` results.

Where the code does something a reader may not expect, the model follows the code:
- Consecutive blocks by the same speaker get no header, even across an action or a new scene, because the header test looks at the last speaker only.
- A `[` line with no `]` sets an untrimmed cue (`Scenes.UnclosedCueUntrimmed`), which a save does not give back (see Findings).
- In the exporter, a slug followed by a note prints the note's text as the scene's action. The callback is handed the next block whatever its kind.
- A first word at or over the wrap limit yields a leading empty line (`LineWrap.WrapLongFirstWord`).
- A settings line that is just `fontPath`, with no `=`, sets the font path to `fontPath` itself (`ViewSettings.BareKeyLine`).
- The file checker skips `.git` and the other three names only as entries. Files inside a `.git` folder are still tracked.

## Model

| member | source | states |
|---|---|---|
| Characters.DefaultColor | ss-export/core/Character.h:7-13 | a value-initialised colour is (0, 0, 0, 255) |
| Characters.DefaultCharacter | ss-export/core/Character.h:16-21 | a value-initialised character has an empty name and notes, and the colour (255, 0, 0, 255), which differs from the colour's own default |
| TextBlocks.TypeCode | ss-view/core/TextBlock.h:6-14 | kinds map to -1..4, and -1 exactly for `Unassigned` |
| TextBlocks.DefaultBlock | ss-view/core/TextBlock.h:16-19 | a fresh block is `Unassigned`, with an empty speaker and text, and scene number 1 |
| Strings.JoinSplit | ss-export/core/Project.h:111 | splitting on a delimiter loses nothing: joining the pieces gives the text back |
| Strings.SplitPiecesFree | ss-export/core/Project.h:169 | no piece contains the delimiter |
| Strings.SplitAppend | ss-export/core/Project.h:169 | a delimiter between two texts separates their pieces |
| Strings.FieldsFree | ss-export/core/Project.h:111 | every token `std::getline` reads is free of the delimiter |
| Strings.DecimalString | ss-export/core/Project.h:413-416 | `std::to_string` gives at least one digit, and a leading `0` only for zero |
| Strings.DecimalStringValue | ss-export/core/Project.h:413-416 | the numeral's digits read back as the number |
| Strings.DecimalStringLength | ss-export/core/Project.h:508-524 | a number takes one digit below 10 and at most two below 100, in both directions |
| Strings.Stoi | ss-export/core/Project.h:192 | `std::stoi` succeeds only with a value in the `int` range |
| Strings.StoiDecimal | ss-export/core/Project.h:192 | `std::stoi` reads back what `std::to_string` wrote, for values up to `INT_MAX` |
| ProjectText.Trim | ss-export/core/Project.h:484-495 | the erase and pop loops give `Trimmed(str)`, which is a trimmed text |
| ProjectText.TrimWindow | ss-export/core/Project.h:484-495 | the result is one window of the input; everything cut off on either side is `\n`, `\t`, `\r` or a space; the result is trimmed |
| ProjectText.TrimIdempotent | ss-export/core/Project.h:484-495 | trimming twice is trimming once |
| ProjectText.TrimOfTrimmed | ss-export/core/Project.h:484-495 | a trimmed text is left unchanged |
| ProjectText.ToCaps | ss-export/core/Project.h:497-506 | the in-place loop gives `Caps(str)`: each character mapped on its own |
| ProjectText.CapsProperties | ss-export/core/Project.h:497-506 | upper-casing keeps the length, changes only a-z (each by -32), leaves no a-z, and is idempotent |
| ProjectText.CapsTrimCommute | ss-export/core/Project.h:137-146 | upper-casing and trimming commute, so the order `ToCaps` then `Trim` does not matter |
| ProjectText.TwoDig | ss-export/core/Project.h:508-514 | the digits read back as the value, with two digits below 100 and at least two always |
| ProjectText.ThreeDig | ss-export/core/Project.h:516-524 | the digits read back as the value, with three digits below 1000 and at least three always |
| ProjectText.SequenceName | ss-export/core/Project.h:247-252 | with a `_`, the name is strictly shorter than the directory name; without one, it is the directory name |
| ProjectText.SequenceNameRoundTrip | ss-export/core/Project.h:85 | stripping up to the first `_` recovers the name from `TwoDig(i) + "_" + name`, whatever the name holds |
| ProjectText.FirstIndexOf | ss-export/core/Project.h:119 | `find_first_of`: the position holds the character and no earlier one does |
| ProjectText.LastIndexOf | ss-export/core/Project.h:329 | `find_last_of`: the position holds the character and no later one does |
| ProjectText.SlugFileStemShape | ss-export/core/Project.h:526-552 | the file stem is made of A-Z and `_` only, never has two `_` in a row, keeps the slug's letters upper-cased and in order, and ends in `_` exactly when the flag is set; it equals `Collapse(s)`, read left to right, where each letter is upper-cased in place and each maximal run of non-letters, digits included, becomes exactly one `_` at its place |
| ProjectText.StemCollapse | ss-export/core/Project.h:526-552 | after any prefix, the loop appends the run collapse of the rest, with a non-letter run that continues the prefix's own run adding nothing |
| ProjectText.NameFromSlug | ss-export/core/Project.h:526-552 | the loop with the `lastWasSpecial` flag computes `SlugFileStem(line)` |
| Scenes.SceneLine | ss-export/core/Project.h:279-367 | a line adds at most one block and keeps the earlier ones; it is fatal exactly when it is spoken (not blank, slug, cue, action or note) while no cue is set; a new block is never `Unassigned` and carries scene number 1 |
| Scenes.SceneFoldAppend | ss-export/core/Project.h:279-367 | reading `a + b` is reading `a`, then `b` from where `a` stopped |
| Scenes.SceneFoldExtends | ss-export/core/Project.h:279-367 | reading never drops or alters a block already read |
| Scenes.LoadSceneFilesSnoc | ss-export/core/Project.h:258-262 | the files of a directory are read one after the other, and each file starts with no cue |
| Scenes.SceneFoldWellFormed | ss-export/core/Project.h:279-367 | readable lines read from a well-formed state give well-formed blocks: trimmed text, upper-case cues |
| Scenes.LoadSceneFilesWellFormed | ss-export/core/Project.h:258-262 | every block that readable scene files load to is well formed |
| Scenes.CueLines | ss-export/core/Project.h:462-474 | a `[NAME]` line is written exactly for a spoken block whose speaker is not the last cue written |
| Scenes.BlockLines | ss-export/core/Project.h:443-476 | a block writes nothing exactly when it is `Unassigned`; otherwise at least two lines, the last one empty |
| Scenes.SceneFileName | ss-export/core/Project.h:439 | the file name of a slug ends in `.txt` after a non-empty stem |
| Scenes.SaveStep | ss-export/core/Project.h:432-481 | one block: fatal exactly when it is not a slug and no file is open; a slug opens the file `ThreeDig(counter)_stem.txt` holding `# c` and an empty line, and advances the counter; any other block appends its lines to the open file |
| Scenes.SaveFold | ss-export/core/Project.h:428-482 | the counter advances by the number of files opened |
| Scenes.SavedSequenceNumbered | ss-export/core/Project.h:439 | the files of a saved sequence are numbered on from the counter given, and the counter comes back past the last one |
| Scenes.CueLineRead | ss-export/core/Project.h:294-308 | a written `[NAME]` line sets the reader's cue to that name and adds no block |
| Scenes.SlugLinesRead | ss-export/core/Project.h:285-293 | the lines of a written slug read back to the slug |
| Scenes.BlockLinesRead | ss-export/core/Project.h:309-366 | the lines of a written action, note, parenthetical or dialogue read back to the block, and leave the cue the writer tracks |
| Scenes.SaveThenLoad | ss-export/core/Project.h:428-482 | corrected writer (cue reset per file): saving well-formed blocks that start with a slug, then loading the files in order, gives the same blocks |
| Scenes.LoadSaveLoad | ss-export/core/Project.h:266-368 | readable files that load to blocks starting with a slug are written back (cue reset per file) as files that load to the same blocks |
| Scenes.CarriedCueSaved | ss-export/core/Project.h:431 | as written, the second scene of a sequence whose speaker closed the first scene gets no `[NAME]` line |
| Scenes.CarriedCueBreaksRoundTrip | ss-export/core/Project.h:431 | as written, loading those files stops on the fatal error for dialogue without a character |
| Scenes.CrossSceneSpeaker | ss-export/core/Project.h:431 | such a sequence exists among well-formed blocks |
| Scenes.UncuedDialogue | ss-export/core/Project.h:357-361 | a dialogue line read while no cue is set is fatal |
| Scenes.UnclosedCueBreaksRoundTrip | ss-export/core/Project.h:297-301 | as written, the file `# ROOM`, `[ eve`, `Hi` loads the speaker ` EVE`; saved in either cue mode and loaded again, it gives the speaker `EVE` |
| Scenes.TrimmedCueReadsBack | ss-export/core/Project.h:296-306 | corrected cue (trimmed in both forms): every cue read is empty or a name whose written `[NAME]` line reads back to it, and it equals the cue the code reads on lines without a space-led unclosed cue |
| Scenes.UnclosedCueUntrimmed | ss-export/core/Project.h:297-302 | a `[` line without `]` keeps the space after the bracket in the cue |
| Registry.NameIndex | ss-export/core/Project.h:560 | `std::find_if` finds the first character with exactly that name, or none when no character has it |
| Registry.Entry | ss-export/core/Project.h:558-568 | `collection[name]` returns an entry with that name; it appends a default character with that name exactly when none exists, keeps every earlier entry, and keeps names unique |
| Registry.CharacterCollection.constructor | ss-export/core/Project.h:555-569 | a new collection is empty |
| Registry.CharacterCollection.Index | ss-export/core/Project.h:558-568 | the find-or-append method updates the vector as `Entry` says |
| Registry.EntryUpdate | ss-export/core/Project.h:139-148 | writing through the returned reference keeps every name |
| Registry.ReadHeader | ss-export/core/Project.h:117-225 | a header line makes its name current and keeps every earlier name |
| Registry.ReadNote | ss-export/core/Project.h:227-241 | a note line is fatal exactly when no character is current; otherwise it keeps the current name and all names |
| Registry.RegistryLine | ss-export/core/Project.h:111-242 | a blank line changes nothing; a line is fatal exactly when it is a non-header line with no current character; names are kept |
| Registry.RegistryFoldKeepsNames | ss-export/core/Project.h:111-242 | reading keeps names unique and never renames or reorders an entry |
| Registry.LoadRegistryUnique | ss-export/core/Project.h:103-243 | a file read into an empty collection gives distinct names |
| Registry.ColorText | ss-export/core/Project.h:157-166 | the colour text is shorter than the header line |
| Registry.ColorBodyRead | ss-export/core/Project.h:165-222 | the colour written between the braces reads back as itself |
| Registry.SingleCellColor | ss-export/core/Project.h:202-222 | with no comma, green, blue and alpha are 255 |
| Registry.UnparsableCell | ss-export/core/Project.h:190-198 | a cell without a digit cannot be parsed and becomes 255 |
| Registry.NumeralCell | ss-export/core/Project.h:192 | a written numeral cell reads back modulo 256 (the `uint8_t` cast) |
| Registry.CharacterLines | ss-export/core/Project.h:410-425 | each character writes its header first and a blank line last, and exactly two lines when it has no notes |
| Registry.AppendNotesJoin | ss-export/core/Project.h:234-241 | note lines appended to empty notes are joined with `\n` |
| Registry.CharacterLinesRead | ss-export/core/Project.h:103-243 | the lines written for a well-formed character, read after characters of other names, append that character unchanged and make it current |
| Registry.RegistryRoundTrip | ss-export/core/Project.h:406-426 | `SaveCharacters` then `LoadCharacters` into an empty collection gives back a well-formed registry unchanged |
| Registry.OpenHeaderName | ss-export/core/Project.h:125-135 | a header with `{` and no `]` takes as its name everything from one character before the `{`: `[ANNA{1,2}` names `A{1,2}` |
| ProjectModel.SavedDirectoriesShape | ss-export/core/Project.h:75-89 | a save writes one directory per sequence, each named so that `LoadSequence` gives back the sequence's name; the scene files are numbered 0, 1, 2, … across the whole project |
| ProjectModel.SavedDirectoriesPrefixErr | ss-export/core/Project.h:83-88 | a save that fails on some sequence fails as a whole |
| ProjectModel.VisitsRange | ss-export/core/Project.h:24-35 | the positions `ForEach` visits lie in range and rise strictly |
| ProjectModel.VisitsSkip | ss-export/core/Project.h:28-33 | a block is left out exactly when the block before it was visited and the callback answered true |
| ProjectModel.Project.constructor | ss-export/core/Project.h:571-572 | a new project has no sequences and an empty registry |
| ProjectModel.Project.ReadSceneLine | ss-export/core/Project.h:279-367 | the loop body of `LoadScene` computes `SceneLine` |
| ProjectModel.Project.LoadScene | ss-export/core/Project.h:266-368 | the lines of a scene file read onto the blocks so far, as `SceneBlocks` says |
| ProjectModel.Project.LoadSequence | ss-export/core/Project.h:245-263 | fails exactly when the files fail to load, with the same error; otherwise appends one sequence named by the stripped directory name, holding the loaded blocks |
| ProjectModel.Project.HeaderNameOf | ss-export/core/Project.h:119-149 | the name of a header line is `HeaderName(line)` |
| ProjectModel.Project.ReadColor | ss-export/core/Project.h:157-222 | the colour read from the cells is `ParseColor(text)` |
| ProjectModel.Project.ReadCell | ss-export/core/Project.h:171-198 | one cell is trimmed, read with `std::stoi` and cast to `uint8_t`, or 255 |
| ProjectModel.Project.ReadHeaderLine | ss-export/core/Project.h:117-225 | a header line updates the collection as `ReadHeader` says |
| ProjectModel.Project.ColorTextOf | ss-export/core/Project.h:157-166 | the text between the braces is `ColorText(line)` |
| ProjectModel.Project.AppendNote | ss-export/core/Project.h:234-241 | a note line updates the collection as `ReadNote` says |
| ProjectModel.Project.LoadCharacters | ss-export/core/Project.h:103-243 | fails exactly when `LoadRegistry` over the current collection does, with the same error; otherwise the collection is what it reads |
| ProjectModel.Project.SaveCharacters | ss-export/core/Project.h:406-426 | writes `RegistryLines` of the collection |
| ProjectModel.Project.WriteCharacter | ss-export/core/Project.h:412-424 | the lines for one character are `CharacterLines(c)` |
| ProjectModel.Project.WriteHeader | ss-export/core/Project.h:412-416 | the header is `[NAME]{ r, g, b, a }` |
| ProjectModel.Project.WriteSceneBlock | ss-export/core/Project.h:453-480 | a non-slug block writes `BlockLines` and leaves `NextCue` as the last cue |
| ProjectModel.Project.SaveSequence | ss-export/core/Project.h:428-482 | as written (cue carried across files), the result is `SavedSequence(…, CarryCue)` |
| ProjectModel.Project.Save | ss-export/core/Project.h:75-89 | the registry lines, then each sequence saved under its `TwoDig` directory with the running file counter |
| ProjectModel.Project.ForEach | ss-export/core/Project.h:24-35 | the positions visited in each sequence are `Visits(blocks, skip, 0)` |
| LineWrap.Wrap | ss-export/core/DocxExporter.h:202-231 | the wrap never returns an empty list |
| LineWrap.BreakLines | ss-export/core/DocxExporter.h:202-231 | the word loop with its counter computes `Wrap(line, limit)` |
| LineWrap.WrapWithinLimit | ss-export/core/DocxExporter.h:211-228 | every line is within the limit, unless it is a single word without spaces |
| LineWrap.WrapGreedy | ss-export/core/DocxExporter.h:211-228 | greedy packing: each line but the last was closed only because the next line's first word, with one space, would not fit |
| LineWrap.WrapLongFirstWord | ss-export/core/DocxExporter.h:213-219 | a first word of at least `limit` characters gives a leading empty line |
| LineWrap.WrapJoin | ss-export/core/DocxExporter.h:211-228 | for single-spaced text whose words are all shorter than the limit, joining the lines with spaces gives the text back |
| LineWrap.WrapShortLine | ss-export/core/DocxExporter.h:211-228 | single-spaced text shorter than the limit stays on one line, unchanged |
| LineWrap.Parenthesized | ss-export/core/DocxExporter.h:82-100 | one line per wrapped line: `(` before the first, `)` after the last, one space before each other line; removing the decoration gives the wrapped line back |
| LineWrap.Parenthesize | ss-export/core/DocxExporter.h:85-99 | the in-place decoration loop computes `Parenthesized` |
| Docx.Broken | ss-export/core/DocxExporter.h:50-56 | `PageBreak` resets the counter to 0, appends a break item unless the page is exactly full, and keeps the other fields |
| Docx.SlugLine | ss-export/core/DocxExporter.h:297-311 | corrected padding: number, tab, text, spaces, number; the line is 58 plus the number's length when the slug fits, and nothing is padded when it does not |
| Docx.SlugPadAgrees | ss-export/core/DocxExporter.h:304 | when the slug fits, the source's unsigned padding count is the intended one |
| Docx.SlugPadAsWrittenOverflows | ss-export/core/DocxExporter.h:304 | when it does not fit, the unsigned count wraps past the largest `int` |
| Docx.SlugPadCounterexample | ss-export/core/DocxExporter.h:304 | scene 1 with a 57-character slug asks for 2^64 - 1 spaces |
| Docx.DocxExporter.constructor | ss-export/core/DocxExporter.h:313-319 | a new exporter has an empty document, slug counter 0, no last speaker and no dialogue |
| Docx.DocxExporter.Export | ss-export/core/DocxExporter.h:15-24 | the state is reset (counter 0, slug 1, no speaker), then every block is written in `ForEach` order: the result is `ExportSeqs(Start, sequences)` |
| Docx.DocxExporter.EmptyLine | ss-export/core/DocxExporter.h:39-48 | appends one empty item |
| Docx.DocxExporter.PageBreak | ss-export/core/DocxExporter.h:50-56 | the new state is `Broken` of the old one |
| Docx.DocxExporter.AddLine | ss-export/core/DocxExporter.h:58-71 | appends one line item with its bold flag |
| Docx.DocxExporter.AddLines | ss-export/core/DocxExporter.h:135-138 | the line loop appends the lines in order, each with the same indent |
| Docx.DocxExporter.WriteBlock | ss-export/core/DocxExporter.h:73-200 | the new state and the skip answer are `WriteBlockSpec` of the old state |
| Docx.DocxExporter.WriteSpokenBlock | ss-export/core/DocxExporter.h:78-144 | the dialogue and parenthetical branch computes `WriteSpoken` |
| Docx.DocxExporter.WriteSpokenLines | ss-export/core/DocxExporter.h:113-142 | the header decision and the lines computed as `SpokenBlock` |
| Docx.DocxExporter.WriteOtherBlock | ss-export/core/DocxExporter.h:146-199 | the slug and action branch computes `WriteOther` |
| Docx.DocxExporter.Separate | ss-export/core/DocxExporter.h:148-156 | the separator before a slug or an action computed as `Separated` |
| Docx.DocxExporter.WriteSlug | ss-export/core/DocxExporter.h:172-184 | the slug with its next block computed as `SlugBlock`, numbered with the counter before the increment |
| Docx.DocxExporter.WriteAction | ss-export/core/DocxExporter.h:187-199 | the action computed as `ActionBlock` |
| Docx.DocxExporter.DialogueLineBreaks | ss-export/core/DocxExporter.h:202-231 | `Wrap` at 36 |
| Docx.DocxExporter.ParentheticalLineBreaks | ss-export/core/DocxExporter.h:233-264 | `Wrap` at 31 |
| Docx.DocxExporter.ActionLineBreaks | ss-export/core/DocxExporter.h:266-295 | `Wrap` at 57 |
| Docx.DocxExporter.SlugFormat | ss-export/core/DocxExporter.h:297-311 | the corrected slug line `SlugLine(number, line)` |
| DocxPages.SeparatedKept | ss-export/core/DocxExporter.h:148-156 | the separator adds only blanks or breaks, keeps the counter in agreement with the page, and keeps the slug number |
| DocxPages.BlockKept | ss-export/core/DocxExporter.h:73-200 | on a page whose counter agrees with its fill, a block that fits on one page is written without turning a page inside its text, and the counter agrees afterwards |
| DocxPages.BlockTracked | ss-export/core/DocxExporter.h:113-198 | after every block the counter agrees with the page and is at most 52 |
| DocxPages.ExportTracked | ss-export/core/DocxExporter.h:24 | over a sequence whose blocks all fit, the counter stays in 0..52 and agrees with the page |
| DocxPages.ExportSeqsTracked | ss-export/core/DocxExporter.h:15-24 | the same for every sequence of the project, from the reset state |
| DocxPages.WriteBlockSkips | ss-export/core/DocxExporter.h:158-185 | `WriteBlock` asks `ForEach` to skip the next block exactly when it wrote a slug together with that block |
| DocxPages.ExportVisits | ss-export/core/Project.h:24-35 | the export writes, in order, exactly the blocks `ForEach` visits under that answer |
| DocxPages.NoteUntouched | ss-export/core/DocxExporter.h:75-76 | notes print nothing and leave all four fields as they were |
| DocxPages.SlugNumbered | ss-export/core/DocxExporter.h:158-185 | a block uses up a slug number exactly when it is a slug with a next block; that block's only bold line is `SlugLine` of the number held before |
| DocxPages.LoneSlugNumbered | ss-export/core/DocxExporter.h:160-169 | a slug with nothing after it prints nothing bold and takes no number |
| DocxPages.SpokenNotBold | ss-export/core/DocxExporter.h:113-142 | a spoken block prints nothing bold |
| DocxPages.SpokenKept | ss-export/core/DocxExporter.h:113-139 | a spoken block that fits keeps the counter in agreement, with its header and lines on one page |
| DocxPages.SlugBlockKept | ss-export/core/DocxExporter.h:172-183 | a slug with its action that fits keeps the counter in agreement |
| DocxPages.ActionBlockKept | ss-export/core/DocxExporter.h:188-198 | an action that fits keeps the counter in agreement |
| View.Indent | ss-view/core/Formatter.cpp:7-15 | `n` tabs are exactly `4n` spaces |
| View.Tab | ss-view/core/Formatter.cpp:7-15 | the append loop computes `Indent(num)` for every `uint8_t` count |
| View.RunsKeepText | ss-view/core/Formatter.cpp:97-107 | wherever the paragraph breaks fall, the paragraphs hold the indented lines' text, in order and complete |
| View.ByIndexOnePerLine | ss-view/core/Formatter.cpp:89-92 | corrected rule (compare positions): one paragraph per wrapped line |
| View.RulesAgree | ss-view/core/Formatter.cpp:103 | comparing texts breaks where comparing positions does exactly when no earlier line equals the last one |
| View.WrapTwoEqualWords | ss-view/core/Formatter.cpp:249-278 | two 20-letter words wrap at 36 onto two equal lines |
| View.RepeatedLineMerged | ss-view/core/Formatter.cpp:98-107 | as written, such dialogue lands in one paragraph holding both lines; the corrected rule gives one paragraph per line |
| View.RulesSameText | ss-view/core/Formatter.cpp:36-146 | both rules put the same text on screen, in the same order, and track speakers alike |
| View.SlugLineShape | ss-view/core/Formatter.cpp:344-360 | the viewer's slug line: the number padded to four columns, the text, spaces, and the number again |
| View.SlugLineLength | ss-view/core/Formatter.cpp:344-360 | a slug that fits ends at the same column whatever its text |
| View.SlugLinesAligned | ss-view/core/Formatter.cpp:344-360 | numbers below 10000 with slug texts that fit give slug lines of 61 characters |
| View.SlugPadCounterexample | ss-view/core/Formatter.cpp:353 | scene 1 with a 57-character slug asks the padding loop for 2^64 - 1 spaces; the corrected line has no padding |
| View.NewRegion | ss-view/core/Formatter.h:44-51 | `SlugRegion(i, s)` stores the paragraph index and the slug number, and its bounds start at zero |
| View.TopMonotone | ss-view/core/Formatter.cpp:150-164 | the cursor never moves up |
| View.RegionsTile | ss-view/core/Formatter.cpp:148-170 | each placed region ends where the next begins, the last ends at the content's height, and none is inverted |
| View.RenderAppends | ss-view/core/Formatter.cpp:36-146 | a block only appends paragraphs; only a slug appends a region, pointing at its slug line after a spacer |
| View.LayoutRegions | ss-view/core/Formatter.cpp:124-132 | one region per slug block, in document order, each carrying the slug's number and pointing at its slug line right after a spacer |
| View.NotesInvisible | ss-view/core/Formatter.cpp:38-39 | notes leave no trace, not even in the speaker tracking |
| View.RenderTracks | ss-view/core/Formatter.cpp:110-115 | a spoken block sets the speaker and the dialogue flag; a slug or action clears the flag; a note changes neither |
| View.SameSpeakerContinues | ss-view/core/Formatter.cpp:46 | the same speaker straight after their own lines gets no spacer and no header |
| View.ResumedSpeakerContinued | ss-view/core/Formatter.cpp:55-56 | a speaker resuming after a slug or an action, even in a new scene, gets a spacer and a `(CONT'D)` header |
| View.NewSpeakerHeader | ss-view/core/Formatter.cpp:46-67 | a new speaker gets a spacer and a plain `Tab(5)` header |
| View.Formatter.constructor | ss-view/core/Formatter.h:86-91 | no paragraphs, no regions, scroll offset and maximum 0, font size 20 |
| View.Formatter.SetFontSize | ss-view/core/Formatter.h:69-70 | `GetFontSize` returns the size set |
| View.Formatter.AppendParagraph | ss-view/core/Formatter.cpp:242-247 | appends an empty paragraph and hands back its index |
| View.Formatter.AppendRun | ss-view/core/Formatter.h:25-29 | the run goes after the paragraph's text; nothing is replaced |
| View.Formatter.LoadFromSequence | ss-view/core/Formatter.cpp:22-171 | the paragraphs are `LayoutOf(CompareText, blocks)`; the regions are placed at the cursor of their paragraphs; the scroll offset is reset unless `skipOffsetReset`; the scroll maximum is the total height; every paragraph sits at its cursor minus the offset |
| View.Formatter.WriteBlock | ss-view/core/Formatter.cpp:38-145 | one block of the loop renders as `Render(CompareText, …)` with the two loop variables |
| View.Formatter.WriteSpoken | ss-view/core/Formatter.cpp:43-113 | a spacer and header when needed, then the block's runs |
| View.Formatter.WriteSlug | ss-view/core/Formatter.cpp:117-131 | a spacer and the slug line, with a region at the slug line's index |
| View.Formatter.WriteAction | ss-view/core/Formatter.cpp:117-145 | a spacer, then the action's runs |
| View.Formatter.EmptyLine | ss-view/core/Formatter.cpp:115-122 | the open paragraph becomes a one-space spacer and a new empty paragraph is opened after it |
| View.Formatter.WriteHeader | ss-view/core/Formatter.cpp:46-67 | a spacer and the speaker line, plain or `(CONT'D)`, exactly when the header is needed |
| View.Formatter.AppendLine | ss-view/core/Formatter.cpp:97-107 | one line goes after the open paragraph's text, and a new paragraph is opened when the line closes it |
| View.Formatter.AppendRuns | ss-view/core/Formatter.cpp:86-107 | the line loops leave `Runs` of the indented lines under the rule |
| View.Formatter.SpokenLines | ss-view/core/Formatter.cpp:69-107 | the decorated parenthetical lines compared by position, or the dialogue lines compared by text, make the block's paragraphs |
| View.Formatter.DialogueLineBreaks | ss-view/core/Formatter.cpp:249-278 | `Wrap` at 36 |
| View.Formatter.ParentheticalLineBreaks | ss-view/core/Formatter.cpp:280-311 | `Wrap` at 31 |
| View.Formatter.ActionLineBreaks | ss-view/core/Formatter.cpp:313-342 | `Wrap` at 57 |
| View.Formatter.SlugFormat | ss-view/core/Formatter.cpp:344-360 | the corrected viewer slug line `SlugLine(number, line)` |
| View.Formatter.SetBounds | ss-view/core/Formatter.cpp:152-159 | the cursor at a region's paragraph closes the previous region and opens this one |
| View.Formatter.PlaceRegions | ss-view/core/Formatter.cpp:148-170 | the cursor loop places every region as `Placed` says and positions every paragraph |
| FileWatch.KeyOf | ss-view/core/FileChecker.h:24 | the key ends with the entry's own file name |
| FileWatch.SnapshotKeys | ss-view/core/FileChecker.h:35-36 | the new map's keys are exactly the tracked keys listed |
| FileWatch.SnapshotLastTime | ss-view/core/FileChecker.h:35-36 | each key holds the time of the last entry listed under it |
| FileWatch.FirstCall | ss-view/core/FileChecker.h:38-42 | a fresh checker reports a change exactly when something tracked is listed |
| FileWatch.SameListingUnchanged | ss-view/core/FileChecker.h:17-65 | listing the same entries twice, with no shared key, reports no change the second time |
| FileWatch.RepeatedNameAlwaysChanged | ss-view/core/FileChecker.h:24-49 | as written (bare names as keys), two files of the same name written at different times make every call report a change |
| FileWatch.FullPathsSettle | ss-view/core/FileChecker.h:24-49 | corrected (full paths as keys): a second identical call always reports no change |
| FileWatch.FileChecker.constructor | ss-view/core/FileChecker.h:68-75 | both maps start empty |
| FileWatch.FileChecker.CheckFiles | ss-view/core/FileChecker.h:17-66 | the answer is a new or touched tracked entry, or a previous key no longer listed; afterwards the old map is the new listing's snapshot, and the other map is the previous one, marked |
| FileWatch.FileChecker.Visit | ss-view/core/FileChecker.h:24-49 | one entry: recorded in the new map, marked in the old one, reported when new or touched |
| FileWatch.FileChecker.AnyUnvisited | ss-view/core/FileChecker.h:52-62 | some previous key was not listed again |
| ViewSettings.FirstIndex | ss-view/core/Settings.h:46 | the first `=`, or none exactly when there is none |
| ViewSettings.Key | ss-view/core/Settings.h:46 | the key is the text before the first `=`, or the whole line when there is none |
| ViewSettings.Value | ss-view/core/Settings.h:49 | key, `=` and value give the line back; with no `=`, the value is the line itself |
| ViewSettings.SavedText | ss-view/core/Settings.h:66 | the text is `fontPath=`, the path, and a newline |
| ViewSettings.LoadedInert | ss-view/core/Settings.h:39-56 | a file with no `fontPath` line keeps the current path |
| ViewSettings.LastPathWins | ss-view/core/Settings.h:39-56 | the last `fontPath` line wins |
| ViewSettings.EmptyLinesSkipped | ss-view/core/Settings.h:41-42 | dropping empty lines changes nothing |
| ViewSettings.BareKeyLine | ss-view/core/Settings.h:46-50 | a line that is just `fontPath` sets the path to `fontPath` |
| ViewSettings.KeyValue | ss-view/core/Settings.h:44-51 | a `key=value` line splits back into its key and value |
| ViewSettings.SaveThenLoad | ss-view/core/Settings.h:59-67 | the file `SaveDefault` writes reads back to the same path, whatever the path was before, if the path has no newline |
| ViewSettings.Settings.constructor | ss-view/core/Settings.h:24 | the default font path |
| ViewSettings.Settings.Load | ss-view/core/Settings.h:26-57 | with no file, the path is kept and the defaults are written; otherwise the path is `Loaded` from the file's lines |
| ViewSettings.Settings.SaveDefault | ss-view/core/Settings.h:59-67 | writes `SavedText(fontPath)` |

## Left out

- File system work takes place outside the model. Lines and listings are inputs instead. This covers `Project::Load`, the directory walk of `LoadSequence`, `NewBackup`, `create_directories`, and opening and saving files. It also covers the `%APPDATA%` path of the settings and the directory walk and write times of the file checker.
- `Print`, `std::cout` and the warnings are not modelled; they only write messages. `exit(1)` is an error result.
- The Word document library is not modelled. The document is a list of items: a line with its bold flag, an empty line, a page break. Fonts, sizes, spacing and margins are left out.
- The viewer's rendering is not modelled: fonts, colours, outlines, dark mode and the speaker colours. The same goes for `DrawTo`, `OnScroll`, `SetScroll`, `GetSlugScrollPositions` (float clamping and division) and `TryOpenFile` (a shell command).
- View.Formatter.LoadFromSequence: paragraph heights are an abstract function from text to `nat`, not SFML's float measurements. Positions are kept as a separate sequence instead of inside each text object.
- View.Formatter.LoadFromSequence: the parenthetical decoration is done on the whole wrapped list before the line loop. The source decorates each line inside the loop; the lines written are the same.
- View.Formatter.LoadFromSequence and Docx.DocxExporter.Export: `slugCount` and `m_slugCount` are `uint32_t`; the model uses unbounded numbers and does not wrap at 2^32.
- Docx.DocxExporter.constructor: `m_lineCount` is uninitialised in the source. The model starts it at 0; `Export` sets it before any use either way.
- Docx.DocxExporter.SlugFormat and View.Formatter.SlugFormat: the slug line has no padding when the slug is wider than the action column. The source's count wraps in that case (see Findings).
- Scenes.SaveThenLoad and Scenes.LoadSaveLoad: the round trip is stated for the corrected writer, which resets the cue per file. The writer as written is `ProjectModel.Project.SaveSequence`.
- Scenes.LoadSaveLoad: the round trip holds only for files with no unclosed cue line that has blank space after its `[`. The reader does not trim such a cue, so it cannot survive a save (see Findings, `Scenes.UnclosedCueBreaksRoundTrip`). `Scenes.SaveThenLoad` is stated for well-formed blocks: trimmed text, and upper-case cue names that are trimmed and free of `]` and newlines.
- Scenes.SaveThenLoad, Scenes.LoadSaveLoad and ProjectModel.Project.LoadSequence: the files of a sequence are read in the order of the given listing. The source walks `std::filesystem::directory_iterator`, whose order is unspecified. The round trip holds only when the listing comes back in the order written. Sorting by name gives that order only while the project-wide `ThreeDig` file counter stays below 1000: `1000_X.txt` sorts before `998_Y.txt`. The same applies to the `TwoDig` sequence prefix below 100.
- LineWrap.Wrap, Docx.SlugLine and View.SlugLine: one character stands for one byte. The source measures `std::string` lengths in bytes, so wrap widths and slug padding are exact for ASCII text only. For multi-byte UTF-8 text the source closes lines earlier and pads slug lines less.
- Registry.RegistryRoundTrip: the round trip requires well-formed characters. Names must be trimmed, upper-case, and free of `]`, `{`, `}` and newlines. Note lines must be non-blank, trimmed, and must not start with `[`.
- DocxPages.ExportSeqsTracked: the page bound requires that every block, with its header, fits on one page.
- LineWrap.WrapJoin: text is recovered only for single-spaced text whose words are all shorter than the limit. Other text loses spaces or gains an empty line.
- FileWatch.FileChecker.CheckFiles: a listing entry has a folder path, a name and an integer time; `file_time_type` is an integer here.
- The viewer's own `Project.h` (its slug numbering and `FileFromSlug`) is not part of this model. `slugCount` is an input to `LoadFromSequence`.

## Findings

| source | as written | input that shows it | evidently intended | confidence | as-written member | corrected member |
|---|---|---|---|---|---|---|
| ss-export/core/Project.h:431 | `lastCharName` is set once per sequence and never reset when a slug opens a new file, while `LoadScene` starts every file with no cue | slug, dialogue by ANNA, slug, dialogue by ANNA: the second file has no `[ANNA]` line and loading it is fatal | reset the last cue whenever a slug opens a file | high, not executed | Scenes.CarriedCueBreaksRoundTrip | Scenes.SaveThenLoad |
| ss-export/core/DocxExporter.h:304 | `ACTION_LIMIT - line.length() - numstr.length()` is unsigned, so a slug wider than 57 columns wraps the count to about 2^64 and the `int` counter overflows | scene 1 with a 57-character slug text: 2^64 - 1 spaces requested | no padding when the slug does not fit | high, not executed | Docx.SlugPadCounterexample | Docx.SlugLine |
| ss-view/core/Formatter.cpp:353 | the same unsigned padding count in the viewer | scene 1 with a 57-character slug text: 2^64 - 1 spaces requested | no padding when the slug does not fit | high, not executed | View.SlugPadCounterexample | View.SlugLinesAligned |
| ss-view/core/FileChecker.h:35 | entries are keyed by bare file name, so two files of the same name in different folders share one key | `a/x.txt` and `b/x.txt` with different write times: every call reports a change | key entries by their full path | medium, not executed | FileWatch.RepeatedNameAlwaysChanged | FileWatch.FullPathsSettle |
| ss-view/core/Formatter.cpp:103 | dialogue and action lines close their paragraph by comparing text with the last line, so an earlier line equal to the last one merges with the next | dialogue of two equal 20-letter words: both wrapped lines land in one paragraph | compare positions, as the parenthetical loop does | high, not executed | View.RepeatedLineMerged | View.ByIndexOnePerLine |
| ss-export/core/Project.h:297-301 | a `[` line without `]` sets the cue to `substr(1)` upper-cased but not trimmed, while the closed form is trimmed; the writer puts the cue back between brackets, and the closed form trims it | a file with `# ROOM`, `[ eve` and `Hi` loads the speaker ` EVE`, which is saved as `[ EVE]` and reloads as `EVE` | trim the unclosed cue as the closed one is, so every cue read is a name that survives a save | medium, not executed | Scenes.UnclosedCueBreaksRoundTrip | Scenes.TrimmedCueReadsBack |
