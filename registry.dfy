/**
 * The character registry of a project, the file `_char.txt`: the
 * find-or-append collection of characters (`CharacterCollection`), the reader
 * of `[NAME]{r, g, b, a}` headers and the note lines under them
 * (`Project::LoadCharacters`), the writer (`Project::SaveCharacters`), and the
 * round trip between the two.
 */
module Registry {
  import opened Wrappers
  import opened Strings
  import opened ProjectText
  import opened Characters

  // ---------------------------------------------------------------------
  // CharacterCollection::operator[]
  // ---------------------------------------------------------------------

  /** The position of the first character called `name`, as `std::find_if` finds it. */
  function NameIndex(cs: seq<Character>, name: string): (r: Option<nat>)
    ensures r.Some? ==> r.value < |cs| && cs[r.value].name == name
    ensures r.Some? ==> forall j :: 0 <= j < r.value ==> cs[j].name != name
    ensures r.None? ==> forall j :: 0 <= j < |cs| ==> cs[j].name != name
    decreases |cs|
  {
    if cs == [] then None
    else if cs[0].name == name then Some(0)
    else match NameIndex(cs[1..], name)
      case None => None
      case Some(k) => Some(k + 1)
  }

  /** No two characters of the collection share a name. */
  predicate UniqueNames(cs: seq<Character>)
  {
    forall i, j :: 0 <= i < j < |cs| ==> cs[i].name != cs[j].name
  }

  /** The collection after `collection[name]`, and the index of the entry that
      call returns: the existing entry with exactly that name, or a fresh one
      appended at the end. */
  function Entry(cs: seq<Character>, name: string): (r: (seq<Character>, nat))
    ensures r.1 < |r.0| && r.0[r.1].name == name
    ensures forall j :: 0 <= j < r.1 ==> r.0[j].name != name
    ensures |cs| <= |r.0| <= |cs| + 1 && r.0[..|cs|] == cs
    ensures r.0 == cs <==> exists j :: 0 <= j < |cs| && cs[j].name == name
    ensures r.0 != cs ==> r.1 == |cs| && r.0[r.1] == DefaultCharacter().(name := name)
    ensures UniqueNames(cs) ==> UniqueNames(r.0)
    ensures NameIndex(r.0, name) == Some(r.1)
  {
    match NameIndex(cs, name)
    case Some(i) => (cs, i)
    case None =>
      var cs' := cs + [DefaultCharacter().(name := name)];
      assert cs'[..|cs|] == cs;
      NameIndexAt(cs', name, |cs|);
      (cs', |cs|)
  }

  lemma NameIndexAt(cs: seq<Character>, name: string, i: nat)
    requires i < |cs| && cs[i].name == name
    requires forall j :: 0 <= j < i ==> cs[j].name != name
    ensures NameIndex(cs, name) == Some(i)
  {
    var r := NameIndex(cs, name);
  }

  /** `Project::CharacterCollection`: a vector of characters looked up by name. */
  class CharacterCollection {
    var data: seq<Character>

    constructor()
      ensures data == []
    {
      data := [];
    }

    /** `operator[]`: the index of the entry called `name`, appended when missing. */
    method Index(name: string) returns (i: nat)
      modifies this
      ensures (data, i) == Entry(old(data), name)
    {
      i := 0;
      while i < |data| && data[i].name != name
        invariant i <= |data|
        invariant forall j :: 0 <= j < i ==> data[j].name != name
      {
        i := i + 1;
      }
      if i == |data| {
        data := data + [DefaultCharacter().(name := name)];
      } else {
        NameIndexAt(data, name, i);
      }
    }
  }

  // ---------------------------------------------------------------------
  // Reading `_char.txt`
  // ---------------------------------------------------------------------

  /** The fatal error: a note line before any header. */
  datatype RegistryError = NoCurrentCharacter(line: string)

  /** The reader's state: the current character's name and the collection. */
  datatype RegistryState = RegistryState(current: string, chars: seq<Character>)

  /** The name a header names: the text up to the first `]`; without a `]`, the
      text from one character before the first `{`, or the whole rest.
      Upper-cased, then trimmed. */
  function HeaderName(t: string): string
    requires t != [] && t[0] == '['
  {
    var raw :=
      if ']' in t then t[1..FirstIndexOf(t, ']')]
      else if '{' in t then t[FirstIndexOf(t, '{') - 1..]
      else t[1..];
    Trimmed(Caps(raw))
  }

  /** The text inside the colour braces. Without a `}` after the `{` (none at
      all, or the first one before the `{`, where the unsigned length of the
      substring wraps around) it runs to the end of the line. */
  function ColorText(t: string): (r: string)
    requires '{' in t
    ensures |r| < |t|
  {
    var b := FirstIndexOf(t, '{');
    if '}' in t && FirstIndexOf(t, '}') > b then t[b + 1..FirstIndexOf(t, '}')]
    else t[b + 1..]
  }

  /** One colour cell: trimmed, read with `std::stoi` and cast to `uint8_t`
      (the value modulo 256); 255 when `std::stoi` throws. */
  function CellChannel(cell: string): Byte
  {
    match Stoi(Trimmed(cell))
    case Some(v) => v % 256
    case None => 255
  }

  /** The channel read from the `k`-th cell, 255 when there are fewer cells. */
  function ChannelAt(cells: seq<string>, k: nat): Byte
  {
    if k < |cells| then CellChannel(cells[k]) else 255
  }

  /** The colour from the comma-separated cells; cells after the fourth are ignored. */
  function ParseColor(text: string): Color
  {
    var cells := Fields(text, ',');
    Color(ChannelAt(cells, 0), ChannelAt(cells, 1), ChannelAt(cells, 2), ChannelAt(cells, 3))
  }

  /** The colour of a header: opaque white without a `{`. */
  function HeaderColor(t: string): Color
  {
    if '{' in t then ParseColor(ColorText(t)) else White
  }

  /** The collection after a line: at most one entry more, every earlier entry
      keeps its name and place, and distinct names stay distinct. */
  predicate KeepsNames(cs: seq<Character>, cs': seq<Character>)
  {
    |cs| <= |cs'| <= |cs| + 1 &&
    (forall j :: 0 <= j < |cs| ==> cs'[j].name == cs[j].name) &&
    (UniqueNames(cs) ==> UniqueNames(cs'))
  }

  /** Writing through the reference `collection[name]` returns keeps the names. */
  lemma EntryUpdate(cs: seq<Character>, name: string, c: Character)
    requires c.name == name
    ensures var e := Entry(cs, name); KeepsNames(cs, e.0[e.1 := c])
  {
    var e := Entry(cs, name);
    var cs' := e.0[e.1 := c];
    assert forall j :: 0 <= j < |cs'| ==> cs'[j].name == e.0[j].name;
  }

  /** A header line: the named entry (appended when new) takes the header's
      colour and becomes current; its notes are kept. */
  function ReadHeader(st: RegistryState, t: string): (r: RegistryState)
    requires t != [] && t[0] == '['
    ensures r.current == HeaderName(t) && KeepsNames(st.chars, r.chars)
  {
    var name := HeaderName(t);
    var e := Entry(st.chars, name);
    var c := e.0[e.1].(color := HeaderColor(t));
    EntryUpdate(st.chars, name, c);
    RegistryState(name, e.0[e.1 := c])
  }

  /** Notes grow line by line, joined with a newline. */
  function JoinNote(notes: string, line: string): string
  {
    if notes != [] then notes + "\n" + line else line
  }

  /** A note line: appended to the current character's notes; fatal without one. */
  function ReadNote(st: RegistryState, t: string): (r: Result<RegistryState, RegistryError>)
    ensures r.Err? <==> st.current == []
    ensures r.Ok? ==> r.value.current == st.current && KeepsNames(st.chars, r.value.chars)
  {
    if st.current == [] then Err(NoCurrentCharacter(t))
    else
      var e := Entry(st.chars, st.current);
      var c := e.0[e.1].(notes := JoinNote(e.0[e.1].notes, t));
      EntryUpdate(st.chars, st.current, c);
      Ok(RegistryState(st.current, e.0[e.1 := c]))
  }

  /** One line of `_char.txt`, trimmed first. */
  function RegistryLine(st: RegistryState, raw: string): (r: Result<RegistryState, RegistryError>)
    ensures Trimmed(raw) == [] ==> r == Ok(st)
    ensures r.Err? <==> Trimmed(raw) != [] && Trimmed(raw)[0] != '[' && st.current == []
    ensures r.Ok? ==> KeepsNames(st.chars, r.value.chars)
  {
    var t := Trimmed(raw);
    if t == [] then Ok(st)
    else if t[0] == '[' then Ok(ReadHeader(st, t))
    else ReadNote(st, t)
  }

  /** Reading a list of lines; the first fatal line stops it. */
  function RegistryFold(lines: seq<string>, st: RegistryState): Result<RegistryState, RegistryError>
    decreases |lines|
  {
    if lines == [] then Ok(st)
    else match RegistryLine(st, lines[0])
      case Err(e) => Err(e)
      case Ok(st') => RegistryFold(lines[1..], st')
  }

  /** `LoadCharacters` on the lines of `_char.txt`, into the collection `cs`. */
  function LoadRegistry(lines: seq<string>, cs: seq<Character>): Result<seq<Character>, RegistryError>
  {
    match RegistryFold(lines, RegistryState("", cs))
    case Err(e) => Err(e)
    case Ok(st) => Ok(st.chars)
  }

  /** Reading `a + b` is reading `a`, then `b` from where `a` left off. */
  lemma {:induction false} RegistryFoldAppend(a: seq<string>, b: seq<string>, st: RegistryState)
    ensures RegistryFold(a + b, st) ==
      match RegistryFold(a, st)
      case Err(e) => Err(e)
      case Ok(mid) => RegistryFold(b, mid)
    decreases |a|
  {
    if a == [] {
      assert a + b == b;
    } else {
      assert (a + b)[0] == a[0];
      assert (a + b)[1..] == a[1..] + b;
      match RegistryLine(st, a[0])
      case Err(_) =>
      case Ok(st') => RegistryFoldAppend(a[1..], b, st');
    }
  }

  lemma LastSplit<T>(s: seq<T>)
    requires s != []
    ensures s[..|s| - 1] + [s[|s| - 1]] == s
  {
  }

  lemma FoldThen(a: seq<string>, b: seq<string>, st: RegistryState, mid: RegistryState, fin: RegistryState)
    requires RegistryFold(a, st) == Ok(mid) && RegistryFold(b, mid) == Ok(fin)
    ensures RegistryFold(a + b, st) == Ok(fin)
  {
    RegistryFoldAppend(a, b, st);
  }

  /** Reading keeps names unique and never renames or reorders an entry:
      characters stay in the order of their first header. */
  lemma {:induction false} RegistryFoldKeepsNames(lines: seq<string>, st: RegistryState)
    requires UniqueNames(st.chars)
    ensures RegistryFold(lines, st).Ok? ==>
      var cs := RegistryFold(lines, st).value.chars;
      UniqueNames(cs) && |st.chars| <= |cs| &&
      forall j :: 0 <= j < |st.chars| ==> cs[j].name == st.chars[j].name
    decreases |lines|
  {
    if lines != [] {
      match RegistryLine(st, lines[0])
      case Err(_) =>
      case Ok(st') => RegistryFoldKeepsNames(lines[1..], st');
    }
  }

  /** A file read into an empty collection yields distinct names. */
  lemma LoadRegistryUnique(lines: seq<string>)
    ensures LoadRegistry(lines, []).Ok? ==> UniqueNames(LoadRegistry(lines, []).value)
  {
    RegistryFoldKeepsNames(lines, RegistryState("", []));
  }

  // ---------------------------------------------------------------------
  // Writing `_char.txt`
  // ---------------------------------------------------------------------

  /** The text between the braces of a written header: ` r, g, b, a `. */
  function ColorBody(c: Color): string
  {
    " " + DecimalString(c.r) + ", " + DecimalString(c.g) + ", " + DecimalString(c.b) + ", " + DecimalString(c.a) + " "
  }

  /** The header `[NAME]{ r, g, b, a }` written for a character. */
  function HeaderLine(c: Character): string
  {
    "[" + c.name + "]{" + ColorBody(c.color) + "}"
  }

  /** The lines written for one character: the header, the notes (their
      embedded newlines start new lines) and a blank line. */
  function CharacterLines(c: Character): (r: seq<string>)
    ensures |r| >= 2 && r[0] == HeaderLine(c) && r[|r| - 1] == []
    ensures c.notes == [] <==> |r| == 2
  {
    [HeaderLine(c)] + (if c.notes == [] then [] else Split(c.notes, '\n')) + [""]
  }

  /** The lines `SaveCharacters` writes, one character after another. */
  function RegistryLines(cs: seq<Character>): (r: seq<string>)
    ensures |r| >= 2 * |cs|
    decreases |cs|
  {
    if cs == [] then [] else RegistryLines(cs[..|cs| - 1]) + CharacterLines(cs[|cs| - 1])
  }

  // ---------------------------------------------------------------------
  // The round trip
  // ---------------------------------------------------------------------

  /** A name a header carries back unchanged. */
  predicate IsRegistryName(n: string)
  {
    n != [] && IsTrimmed(n) && IsCaps(n) && ']' !in n && '{' !in n && '}' !in n && '\n' !in n
  }

  /** A note line read back as itself: not blank, trimmed, not a header. */
  predicate IsNoteText(l: string)
  {
    l != [] && IsTrimmed(l) && l[0] != '['
  }

  predicate WellFormedNotes(notes: string)
  {
    notes == [] || forall l :: l in Split(notes, '\n') ==> IsNoteText(l)
  }

  predicate WellFormedCharacter(c: Character)
  {
    IsRegistryName(c.name) && WellFormedNotes(c.notes)
  }

  predicate WellFormedRegistry(cs: seq<Character>)
  {
    UniqueNames(cs) && forall c :: c in cs ==> WellFormedCharacter(c)
  }

  lemma DigitsFree(s: string)
    requires AllDigits(s)
    ensures '{' !in s && '}' !in s && ']' !in s && ',' !in s
  {
    forall i | 0 <= i < |s| ensures s[i] != '{' && s[i] != '}' && s[i] != ']' && s[i] != ',' {
      assert IsDigit(s[i]);
    }
  }

  lemma ColorBodyFree(c: Color)
    ensures '{' !in ColorBody(c) && '}' !in ColorBody(c) && ']' !in ColorBody(c)
  {
    DigitsFree(DecimalString(c.r));
    DigitsFree(DecimalString(c.g));
    DigitsFree(DecimalString(c.b));
    DigitsFree(DecimalString(c.a));
  }

  lemma TrailingSpace(s: string)
    requires s != [] && IsTrimmed(s)
    ensures Trimmed(s + " ") == s
  {
    var t := s + " ";
    assert TrimFront(t) == t by {
      assert t[0] == s[0];
    }
    assert t[..|t| - 1] == s;
    assert TrimBack(t) == TrimBack(s);
    assert TrimBack(s) == s;
  }

  lemma LeadingSpace(s: string)
    requires IsTrimmed(s)
    ensures Trimmed(" " + s) == s
  {
    TrimSpacePrefix(s);
    TrimOfTrimmed(s);
  }

  lemma Padded(s: string)
    requires s != [] && IsTrimmed(s)
    ensures Trimmed(" " + s + " ") == s
  {
    var u := " " + s + " ";
    var v := s + " ";
    assert u[1..] == v;
    assert TrimFront(u) == TrimFront(v);
    assert TrimFront(v) == v by {
      assert v[0] == s[0];
    }
    TrailingSpace(s);
  }

  /** A numeral with one space before it (and one after) trims to itself. */
  lemma PaddedNumeral(s: string)
    requires s != [] && AllDigits(s)
    ensures Trimmed(" " + s) == s && Trimmed(" " + s + " ") == s
  {
    assert IsTrimmed(s) by {
      assert IsDigit(s[0]) && IsDigit(s[|s| - 1]);
    }
    LeadingSpace(s);
    Padded(s);
  }

  /** The cell written for a value reads back as that value modulo 256. */
  lemma NumeralCell(n: nat)
    requires n <= IntMax
    ensures CellChannel(" " + DecimalString(n)) == n % 256
    ensures CellChannel(" " + DecimalString(n) + " ") == n % 256
  {
    PaddedNumeral(DecimalString(n));
    StoiDecimal(n);
  }

  /** Four comma-free pieces joined with commas split back into those pieces. */
  lemma FourCells(p1: string, p2: string, p3: string, p4: string)
    requires ',' !in p1 && ',' !in p2 && ',' !in p3 && ',' !in p4 && p4 != []
    ensures Fields(p1 + [','] + p2 + [','] + p3 + [','] + p4, ',') == [p1, p2, p3, p4]
  {
    var s3 := p3 + [','] + p4;
    var s2 := p2 + [','] + s3;
    var s1 := p1 + [','] + s2;
    assert s1 == p1 + [','] + p2 + [','] + p3 + [','] + p4;
    SplitWithout(p4, ',');
    CommaCell(p3, p4);
    CommaCell(p2, s3);
    CommaCell(p1, s2);
    assert s1[|s1| - 1] == p4[|p4| - 1];
  }

  /** A comma-free cell in front of a comma is the first cell. */
  lemma CommaCell(p: string, rest: string)
    requires ',' !in p
    ensures Split(p + [','] + rest, ',') == [p] + Split(rest, ',')
  {
    SplitWithout(p, ',');
    SplitAppend(p, rest, ',');
  }

  /** The cells of a written colour body. */
  lemma ColorBodyCells(c: Color)
    ensures Fields(ColorBody(c), ',') == [
      " " + DecimalString(c.r), " " + DecimalString(c.g),
      " " + DecimalString(c.b), " " + DecimalString(c.a) + " "]
  {
    var p1, p2, p3, p4 := " " + DecimalString(c.r), " " + DecimalString(c.g),
      " " + DecimalString(c.b), " " + DecimalString(c.a) + " ";
    DigitsFree(DecimalString(c.r));
    DigitsFree(DecimalString(c.g));
    DigitsFree(DecimalString(c.b));
    DigitsFree(DecimalString(c.a));
    assert ColorBody(c) == p1 + [','] + p2 + [','] + p3 + [','] + p4;
    FourCells(p1, p2, p3, p4);
  }

  lemma ByteCell(n: Byte)
    ensures CellChannel(" " + DecimalString(n)) == n
    ensures CellChannel(" " + DecimalString(n) + " ") == n
  {
    NumeralCell(n);
    SmallMod(n);
  }

  lemma SmallMod(n: int)
    requires 0 <= n < 256
    ensures n % 256 == n
  {
  }

  lemma FourChannels(text: string, c: Color, p1: string, p2: string, p3: string, p4: string)
    requires Fields(text, ',') == [p1, p2, p3, p4]
    requires CellChannel(p1) == c.r && CellChannel(p2) == c.g
    requires CellChannel(p3) == c.b && CellChannel(p4) == c.a
    ensures ParseColor(text) == c
  {
  }

  lemma CellsRead(text: string, c: Color)
    requires Fields(text, ',') == [
      " " + DecimalString(c.r), " " + DecimalString(c.g),
      " " + DecimalString(c.b), " " + DecimalString(c.a) + " "]
    ensures ParseColor(text) == c
  {
    var p1, p2, p3, p4 := " " + DecimalString(c.r), " " + DecimalString(c.g),
      " " + DecimalString(c.b), " " + DecimalString(c.a) + " ";
    assert CellChannel(p1) == c.r by { ByteCell(c.r); }
    assert CellChannel(p2) == c.g by { ByteCell(c.g); }
    assert CellChannel(p3) == c.b by { ByteCell(c.b); }
    assert CellChannel(p4) == c.a by { ByteCell(c.a); }
    FourChannels(text, c, p1, p2, p3, p4);
  }

  /** The colour written between the braces reads back as itself. */
  lemma ColorBodyRead(c: Color)
    ensures ParseColor(ColorBody(c)) == c
  {
    ColorBodyCells(c);
    CellsRead(ColorBody(c), c);
  }

  /** Where the brackets and braces of a written header are. */
  lemma HeaderLineShape(c: Character)
    requires IsRegistryName(c.name)
    ensures var t := HeaderLine(c);
      t != [] && t[0] == '[' && IsTrimmed(t) &&
      HeaderName(t) == c.name && '{' in t && ColorText(t) == ColorBody(c.color)
  {
    var t := HeaderLine(c);
    HeaderBracket(c);
    HeaderBraces(c);
    CapsProperties(c.name);
    TrimOfTrimmed(c.name);
  }

  /** The first `]` closes the name. */
  lemma HeaderBracket(c: Character)
    requires IsRegistryName(c.name)
    ensures var t := HeaderLine(c);
      |t| > |c.name| + 1 && t[0] == '[' && ']' in t &&
      FirstIndexOf(t, ']') == |c.name| + 1 && t[1..|c.name| + 1] == c.name
  {
    var t := HeaderLine(c);
    var n := |c.name|;
    var pre := "[" + c.name;
    assert t == pre + ("]{" + ColorBody(c.color) + "}");
    assert t[..n + 1] == pre;
    assert ']' !in pre;
    FirstIndexOfAt(t, ']', n + 1);
  }

  /** The first `{` follows the `]`, the first `}` ends the line, and the
      colour body lies between them. */
  lemma HeaderBraces(c: Character)
    requires IsRegistryName(c.name)
    ensures var t := HeaderLine(c);
      IsTrimmed(t) && '{' in t && ColorText(t) == ColorBody(c.color)
  {
    var t := HeaderLine(c);
    var n := |c.name|;
    var body := ColorBody(c.color);
    ColorBodyFree(c.color);
    var pre := "[" + c.name + "]";
    assert t == pre + "{" + body + "}";
    assert t[..n + 2] == pre;
    assert '{' !in pre;
    FirstIndexOfAt(t, '{', n + 2);
    var open := pre + "{" + body;
    assert t[..|t| - 1] == open;
    assert '}' !in open;
    FirstIndexOfAt(t, '}', |t| - 1);
    assert t[n + 3..|t| - 1] == body;
  }

  lemma HeaderStep(st: RegistryState, t: string)
    requires t != [] && t[0] == '[' && IsTrimmed(t)
    ensures RegistryLine(st, t) == Ok(ReadHeader(st, t))
  {
    TrimOfTrimmed(t);
  }

  lemma NoteStep(st: RegistryState, t: string)
    requires IsNoteText(t) && st.current != []
    ensures RegistryLine(st, t) == ReadNote(st, t)
  {
    TrimOfTrimmed(t);
  }

  lemma ReadHeaderNew(st: RegistryState, t: string, name: string, col: Color)
    requires t != [] && t[0] == '[' && HeaderName(t) == name && HeaderColor(t) == col
    requires forall j :: 0 <= j < |st.chars| ==> st.chars[j].name != name
    ensures ReadHeader(st, t) == RegistryState(name, st.chars + [Character(name, "", col)])
  {
  }

  /** A written header read for a new name appends that character, with its
      colour and no notes yet. */
  lemma HeaderLineRead(st: RegistryState, c: Character)
    requires IsRegistryName(c.name)
    requires forall j :: 0 <= j < |st.chars| ==> st.chars[j].name != c.name
    ensures RegistryLine(st, HeaderLine(c)) ==
      Ok(RegistryState(c.name, st.chars + [Character(c.name, "", c.color)]))
  {
    var t := HeaderLine(c);
    HeaderLineShape(c);
    assert HeaderColor(t) == c.color by {
      ColorBodyRead(c.color);
    }
    HeaderStep(st, t);
    ReadHeaderNew(st, t, c.name, c.color);
  }

  /** The notes after appending each of `ls` in turn, as `LoadCharacters` does. */
  function AppendNotes(notes: string, ls: seq<string>): string
    decreases |ls|
  {
    if ls == [] then notes else JoinNote(AppendNotes(notes, ls[..|ls| - 1]), ls[|ls| - 1])
  }

  /** Appending non-blank lines to empty notes joins them with newlines. */
  lemma {:induction false} AppendNotesJoin(ls: seq<string>)
    requires forall l :: l in ls ==> l != []
    ensures AppendNotes("", ls) == Join(ls, '\n')
    decreases |ls|
  {
    if ls != [] {
      var init := ls[..|ls| - 1];
      assert forall l :: l in init ==> l in ls;
      AppendNotesJoin(init);
      if init != [] {
        assert init[0] in ls;
        JoinNonEmpty(init, '\n');
        assert init + [ls[|ls| - 1]] == ls;
        JoinSnoc(init, ls[|ls| - 1], '\n');
      }
    }
  }

  lemma JoinNonEmpty(xs: seq<string>, d: char)
    requires xs != [] && xs[0] != []
    ensures Join(xs, d) != []
  {
  }

  /** Note lines read under the character just appended fill in its notes. */
  lemma {:induction false} NoteLinesRead(ls: seq<string>, cs: seq<Character>, c: Character)
    requires forall l :: l in ls ==> IsNoteText(l)
    requires c.name != [] && forall j :: 0 <= j < |cs| ==> cs[j].name != c.name
    ensures RegistryFold(ls, RegistryState(c.name, cs + [c])) ==
      Ok(RegistryState(c.name, cs + [c.(notes := AppendNotes(c.notes, ls))]))
    decreases |ls|
  {
    if ls == [] {
      assert c.(notes := c.notes) == c;
    } else {
      var init := ls[..|ls| - 1];
      var l := ls[|ls| - 1];
      assert forall x :: x in init ==> x in ls;
      assert l in ls;
      NoteLinesRead(init, cs, c);
      var c' := c.(notes := AppendNotes(c.notes, init));
      NoteLineRead(cs, c', l);
      assert init + [l] == ls by { LastSplit(ls); }
      NoteLinesStep(init, l, cs, c);
    }
  }

  lemma NoteLinesStep(init: seq<string>, l: string, cs: seq<Character>, c: Character)
    requires RegistryFold(init, RegistryState(c.name, cs + [c])) ==
      Ok(RegistryState(c.name, cs + [c.(notes := AppendNotes(c.notes, init))]))
    requires var c' := c.(notes := AppendNotes(c.notes, init));
      RegistryFold([l], RegistryState(c.name, cs + [c'])) ==
      Ok(RegistryState(c.name, cs + [c'.(notes := JoinNote(c'.notes, l))]))
    ensures RegistryFold(init + [l], RegistryState(c.name, cs + [c])) ==
      Ok(RegistryState(c.name, cs + [c.(notes := AppendNotes(c.notes, init + [l]))]))
  {
    var c' := c.(notes := AppendNotes(c.notes, init));
    assert AppendNotes(c.notes, init + [l]) == JoinNote(c'.notes, l) by {
      assert (init + [l])[..|init|] == init;
    }
    assert c'.(notes := JoinNote(c'.notes, l)) == c.(notes := AppendNotes(c.notes, init + [l]));
    FoldThen(init, [l], RegistryState(c.name, cs + [c]), RegistryState(c.name, cs + [c']),
      RegistryState(c.name, cs + [c.(notes := AppendNotes(c.notes, init + [l]))]));
  }

  lemma ReadNoteLast(cs: seq<Character>, c: Character, l: string)
    requires c.name != [] && forall j :: 0 <= j < |cs| ==> cs[j].name != c.name
    ensures ReadNote(RegistryState(c.name, cs + [c]), l) ==
      Ok(RegistryState(c.name, cs + [c.(notes := JoinNote(c.notes, l))]))
  {
    NameIndexAt(cs + [c], c.name, |cs|);
    var c' := c.(notes := JoinNote(c.notes, l));
    assert Entry(cs + [c], c.name) == (cs + [c], |cs|);
    assert (cs + [c])[|cs| := c'] == cs + [c'];
  }

  lemma NoteLineRead(cs: seq<Character>, c: Character, l: string)
    requires IsNoteText(l)
    requires c.name != [] && forall j :: 0 <= j < |cs| ==> cs[j].name != c.name
    ensures RegistryFold([l], RegistryState(c.name, cs + [c])) ==
      Ok(RegistryState(c.name, cs + [c.(notes := JoinNote(c.notes, l))]))
  {
    NoteStep(RegistryState(c.name, cs + [c]), l);
    ReadNoteLast(cs, c, l);
    assert [l][1..] == [];
  }

  lemma BlankLineRead(st: RegistryState)
    ensures RegistryFold([""], st) == Ok(st)
  {
    assert [""][1..] == [];
  }

  lemma HeaderLineFold(cur: string, cs: seq<Character>, c: Character)
    requires IsRegistryName(c.name)
    requires forall j :: 0 <= j < |cs| ==> cs[j].name != c.name
    ensures RegistryFold([HeaderLine(c)], RegistryState(cur, cs)) ==
      Ok(RegistryState(c.name, cs + [Character(c.name, "", c.color)]))
  {
    HeaderLineRead(RegistryState(cur, cs), c);
    assert [HeaderLine(c)][1..] == [];
  }

  /** The note lines written for a character fill in its notes again. */
  lemma NotesRead(cs: seq<Character>, c: Character)
    requires c.notes != [] && WellFormedCharacter(c)
    requires forall j :: 0 <= j < |cs| ==> cs[j].name != c.name
    ensures RegistryFold(Split(c.notes, '\n'), RegistryState(c.name, cs + [Character(c.name, "", c.color)])) ==
      Ok(RegistryState(c.name, cs + [c]))
  {
    var c0 := Character(c.name, "", c.color);
    var notes := Split(c.notes, '\n');
    NoteLinesRead(notes, cs, c0);
    AppendNotesJoin(notes);
    JoinSplit(c.notes, '\n');
    assert c0.(notes := c.notes) == c;
  }

  /** The lines written for a well-formed character, read after characters
      with other names, append exactly that character and make it current. */
  lemma CharacterLinesRead(cur: string, cs: seq<Character>, c: Character)
    requires WellFormedCharacter(c)
    requires forall j :: 0 <= j < |cs| ==> cs[j].name != c.name
    ensures RegistryFold(CharacterLines(c), RegistryState(cur, cs)) == Ok(RegistryState(c.name, cs + [c]))
  {
    HeaderLineFold(cur, cs, c);
    BlankLineRead(RegistryState(c.name, cs + [c]));
    if c.notes == [] {
      NotelessLinesRead(cur, cs, c);
    } else {
      NotesRead(cs, c);
      NotedLinesRead(cur, cs, c);
    }
  }

  lemma NotelessLinesRead(cur: string, cs: seq<Character>, c: Character)
    requires c.notes == []
    requires RegistryFold([HeaderLine(c)], RegistryState(cur, cs)) ==
      Ok(RegistryState(c.name, cs + [Character(c.name, "", c.color)]))
    requires RegistryFold([""], RegistryState(c.name, cs + [c])) == Ok(RegistryState(c.name, cs + [c]))
    ensures RegistryFold(CharacterLines(c), RegistryState(cur, cs)) == Ok(RegistryState(c.name, cs + [c]))
  {
    var fin := RegistryState(c.name, cs + [c]);
    assert Character(c.name, "", c.color) == c;
    assert CharacterLines(c) == [HeaderLine(c)] + [""];
    FoldThen([HeaderLine(c)], [""], RegistryState(cur, cs), fin, fin);
  }

  lemma NotedLinesRead(cur: string, cs: seq<Character>, c: Character)
    requires c.notes != []
    requires RegistryFold([HeaderLine(c)], RegistryState(cur, cs)) ==
      Ok(RegistryState(c.name, cs + [Character(c.name, "", c.color)]))
    requires RegistryFold(Split(c.notes, '\n'), RegistryState(c.name, cs + [Character(c.name, "", c.color)])) ==
      Ok(RegistryState(c.name, cs + [c]))
    requires RegistryFold([""], RegistryState(c.name, cs + [c])) == Ok(RegistryState(c.name, cs + [c]))
    ensures RegistryFold(CharacterLines(c), RegistryState(cur, cs)) == Ok(RegistryState(c.name, cs + [c]))
  {
    var st1 := RegistryState(c.name, cs + [Character(c.name, "", c.color)]);
    var fin := RegistryState(c.name, cs + [c]);
    var notes := Split(c.notes, '\n');
    assert CharacterLines(c) == [HeaderLine(c)] + notes + [""];
    FoldThen([HeaderLine(c)], notes, RegistryState(cur, cs), st1, fin);
    FoldThen([HeaderLine(c)] + notes, [""], RegistryState(cur, cs), fin, fin);
  }

  /** `SaveCharacters` then `LoadCharacters` into an empty collection gives the
      collection back, for distinct names that survive upper-casing and
      trimming and notes whose lines are not blank, trimmed and not headers. */
  lemma RegistryRoundTrip(cs: seq<Character>)
    requires WellFormedRegistry(cs)
    ensures LoadRegistry(RegistryLines(cs), []) == Ok(cs)
  {
    RegistryLinesRead(cs);
  }

  lemma {:induction false} RegistryLinesRead(cs: seq<Character>)
    requires WellFormedRegistry(cs)
    ensures RegistryFold(RegistryLines(cs), RegistryState("", [])) ==
      Ok(RegistryState(if cs == [] then "" else cs[|cs| - 1].name, cs))
    decreases |cs|
  {
    if cs != [] {
      var init := cs[..|cs| - 1];
      var c := cs[|cs| - 1];
      WellFormedLast(cs);
      RegistryLinesRead(init);
      var cur := if init == [] then "" else init[|init| - 1].name;
      CharacterLinesRead(cur, init, c);
      RegistryLinesStep(init, c, cur);
    }
  }

  lemma WellFormedLast(cs: seq<Character>)
    requires WellFormedRegistry(cs) && cs != []
    ensures var init := cs[..|cs| - 1];
      WellFormedRegistry(init) && WellFormedCharacter(cs[|cs| - 1]) &&
      (forall j :: 0 <= j < |init| ==> init[j].name != cs[|cs| - 1].name) &&
      init + [cs[|cs| - 1]] == cs
  {
    var init := cs[..|cs| - 1];
    assert forall x :: x in init ==> x in cs;
    assert cs[|cs| - 1] in cs;
    LastSplit(cs);
  }

  lemma RegistryLinesStep(init: seq<Character>, c: Character, cur: string)
    requires RegistryFold(RegistryLines(init), RegistryState("", [])) == Ok(RegistryState(cur, init))
    requires RegistryFold(CharacterLines(c), RegistryState(cur, init)) == Ok(RegistryState(c.name, init + [c]))
    ensures RegistryFold(RegistryLines(init + [c]), RegistryState("", [])) == Ok(RegistryState(c.name, init + [c]))
  {
    assert RegistryLines(init + [c]) == RegistryLines(init) + CharacterLines(c) by {
      assert (init + [c])[..|init|] == init;
    }
    FoldThen(RegistryLines(init), CharacterLines(c), RegistryState("", []), RegistryState(cur, init), RegistryState(c.name, init + [c]));
  }

  // ---------------------------------------------------------------------
  // Reader behaviour outside the round trip
  // ---------------------------------------------------------------------

  /** Without commas there is at most one cell: green, blue and alpha are 255. */
  lemma SingleCellColor(text: string)
    requires ',' !in text
    ensures ParseColor(text).g == 255 && ParseColor(text).b == 255 && ParseColor(text).a == 255
  {
    if text != [] {
      SplitWithout(text, ',');
    }
  }

  /** A cell without a digit cannot be parsed and becomes 255. */
  lemma UnparsableCell(cell: string)
    requires forall i :: 0 <= i < |cell| ==> !IsDigit(cell[i])
    ensures CellChannel(cell) == 255
  {
    var w, x := TrimWindow(cell);
    var t := Trimmed(cell);
    assert forall i :: 0 <= i < |t| ==> t[i] == cell[w + i];
    NoDigitStoi(t);
  }

  lemma NoDigitStoi(s: string)
    requires forall i :: 0 <= i < |s| ==> !IsDigit(s[i])
    ensures Stoi(s) == None
  {
    var t := SkipCSpace(s);
    var body := if t != [] && (t[0] == '-' || t[0] == '+') then t[1..] else t;
    assert forall i :: 0 <= i < |t| ==> t[i] == s[|s| - |t| + i];
    if body != [] {
      assert body[0] == t[|t| - |body|];
    }
  }

  /** An unclosed name followed by a colour keeps only the character before
      the `{`, and the colour text: `[ANNA{1,2}` names `A{1,2}`. */
  lemma OpenHeaderName()
    ensures HeaderName("[ANNA{1,2}") == "A{1,2}"
  {
    OpenHeaderNameOf("[ANNA{1,2}");
  }

  lemma OpenHeaderNameOf(t: string)
    requires t == "[ANNA{1,2}"
    ensures t != [] && t[0] == '[' && HeaderName(t) == "A{1,2}"
  {
    OpenHeaderShape(t);
    OpenNameText(t[4..]);
  }

  lemma OpenHeaderShape(t: string)
    requires t == "[ANNA{1,2}"
    ensures t[0] == '[' && ']' !in t && '{' in t && FirstIndexOf(t, '{') == 5
    ensures t[4..] == "A{1,2}"
  {
    var pre := "[ANNA";
    var post := "{1,2}";
    assert t == pre + post;
    assert ']' !in pre && ']' !in post && '{' !in pre;
    assert t[..5] == pre;
    FirstIndexOfAt(t, '{', 5);
  }

  lemma OpenNameText(raw: string)
    requires raw == "A{1,2}"
    ensures Trimmed(Caps(raw)) == raw
  {
    assert Caps(raw) == raw by {
      assert forall i :: 0 <= i < |raw| ==> !IsLower(raw[i]);
      CapsProperties(raw);
    }
    assert IsTrimmed(raw);
    TrimOfTrimmed(raw);
  }
}
