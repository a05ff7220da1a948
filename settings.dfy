/**
 * The viewer's settings singleton: one key, `fontPath`, read from a
 * `key=value` file and written back by `SaveDefault`.
 */
module ViewSettings {
  import opened Wrappers
  import opened Strings

  const DefaultFontPath: string := "C:/Windows/Fonts/CourierPrime-Regular.ttf"

  /** The index of the first `d` in `s`, if any. */
  function FirstIndex(s: string, d: char): (r: Option<nat>)
    ensures r.None? <==> d !in s
    ensures r.Some? ==> r.value < |s| && s[r.value] == d && d !in s[..r.value]
  {
    if s == [] then None
    else if s[0] == d then Some(0)
    else
      var t := FirstIndex(s[1..], d);
      if t.None? then None
      else
        assert s[..t.value + 1] == [s[0]] + s[1..][..t.value];
        Some(t.value + 1)
  }

  /** What `std::getline(linestream, cell, '=')` reads: the text before the
      first `=`, or the whole line when there is none. */
  function Key(line: string): (r: string)
    ensures r <= line && '=' !in r
    ensures r == line <==> '=' !in line
  {
    match FirstIndex(line, '=')
    case None => line
    case Some(k) => line[..k]
  }

  /** What the second `std::getline(linestream, cell)` leaves in `cell`:
      everything after the first `=`. With no `=` the stream is already
      exhausted, the read fails before it clears `cell`, and `cell` keeps the
      key it held. */
  function Value(line: string): (r: string)
    ensures '=' in line ==> Key(line) + "=" + r == line
    ensures '=' !in line ==> r == line
  {
    match FirstIndex(line, '=')
    case None => line
    case Some(k) => line[k + 1..]
  }

  /** The font path after one line of the file. */
  function LineEffect(path: string, line: string): string
  {
    if line == [] then path
    else if Key(line) == "fontPath" then Value(line)
    else path
  }

  /** The font path after the lines of the file, in order. */
  function Loaded(path: string, lines: seq<string>): string
    decreases |lines|
  {
    if lines == [] then path
    else LineEffect(Loaded(path, lines[..|lines| - 1]), lines[|lines| - 1])
  }

  /** The text `SaveDefault` writes. */
  function SavedText(path: string): (r: string)
    ensures |r| == |path| + 10 && r[..9] == "fontPath=" && r[|r| - 1] == '\n' && r[9..|r| - 1] == path
  {
    "fontPath=" + path + "\n"
  }

  /** Lines with a different key, and empty lines, change nothing. */
  predicate Inert(line: string)
  {
    line == [] || Key(line) != "fontPath"
  }

  /** A file without a `fontPath` line keeps the current path. */
  lemma {:induction false} LoadedInert(path: string, lines: seq<string>)
    requires forall i :: 0 <= i < |lines| ==> Inert(lines[i])
    ensures Loaded(path, lines) == path
    decreases |lines|
  {
    if lines != [] {
      LoadedInert(path, lines[..|lines| - 1]);
    }
  }

  /** Lines after the last `fontPath` line do not matter: the last one wins. */
  lemma {:induction false} LastPathWins(path: string, before: seq<string>, line: string, after: seq<string>)
    requires line != [] && Key(line) == "fontPath"
    requires forall i :: 0 <= i < |after| ==> Inert(after[i])
    ensures Loaded(path, before + [line] + after) == Value(line)
    decreases |after|
  {
    if after == [] {
      assert (before + [line] + after)[..|before|] == before;
    } else {
      var all := before + [line] + after;
      assert all[..|all| - 1] == before + [line] + after[..|after| - 1];
      LastPathWins(path, before, line, after[..|after| - 1]);
    }
  }

  /** Empty lines are skipped: dropping them does not change the result. */
  function NonEmpty(lines: seq<string>): (r: seq<string>)
    ensures forall i :: 0 <= i < |r| ==> r[i] != []
    decreases |lines|
  {
    if lines == [] then []
    else if lines[|lines| - 1] == [] then NonEmpty(lines[..|lines| - 1])
    else NonEmpty(lines[..|lines| - 1]) + [lines[|lines| - 1]]
  }

  lemma {:induction false} EmptyLinesSkipped(path: string, lines: seq<string>)
    ensures Loaded(path, NonEmpty(lines)) == Loaded(path, lines)
    decreases |lines|
  {
    if lines != [] {
      var last := lines[|lines| - 1];
      EmptyLinesSkipped(path, lines[..|lines| - 1]);
      if last != [] {
        var ne := NonEmpty(lines[..|lines| - 1]) + [last];
        assert ne[..|ne| - 1] == NonEmpty(lines[..|lines| - 1]);
      }
    }
  }

  /** A line that is just the key, with no `=`, sets the path to the key
      itself. */
  lemma BareKeyLine(path: string, line: string)
    requires line == "fontPath"
    ensures Loaded(path, [line]) == "fontPath"
  {
    assert [line][..0] == [];
    assert '=' !in line;
  }

  /** The first `d` in `k + [d] + v` is the one after `k`. */
  lemma {:induction false} FirstIndexAfter(k: string, d: char, v: string)
    requires d !in k
    ensures FirstIndex(k + [d] + v, d) == Some(|k|)
    decreases |k|
  {
    if k != [] {
      assert (k + [d] + v)[1..] == k[1..] + [d] + v;
      FirstIndexAfter(k[1..], d, v);
    }
  }

  /** A line `key=value` splits back into its key and its value. */
  lemma KeyValue(k: string, v: string)
    requires '=' !in k
    ensures Key(k + "=" + v) == k && Value(k + "=" + v) == v
  {
    FirstIndexAfter(k, '=', v);
    assert (k + "=" + v)[..|k|] == k;
    assert (k + "=" + v)[|k| + 1..] == v;
  }

  /** The file `SaveDefault` writes reads back to the same path, whatever the
      path was before, as long as the saved path has no line break. */
  lemma SaveThenLoad(before: string, path: string)
    requires '\n' !in path
    ensures Loaded(before, Fields(SavedText(path), '\n')) == path
  {
    var key := "fontPath";
    var text := SavedText(path);
    var line := key + "=" + path;
    assert text == line + "\n";
    assert text[..|text| - 1] == line;
    assert '\n' !in key + "=";
    SplitWithout(line, '\n');
    KeyValue(key, path);
    assert [line][..0] == [];
  }

  /** The settings singleton. */
  class Settings {
    var fontPath: string

    constructor()
      ensures fontPath == DefaultFontPath
    {
      fontPath := DefaultFontPath;
    }

    /** `file` is the content of the settings file, `None` when it does not
        exist; then the defaults are written out and returned as `written`. */
    method Load(file: Option<string>) returns (written: Option<string>)
      modifies this
      ensures file.None? ==> fontPath == old(fontPath) && written == Some(SavedText(fontPath))
      ensures file.Some? ==> fontPath == Loaded(old(fontPath), Fields(file.value, '\n')) && written.None?
    {
      if file.None? {
        var text := SaveDefault();
        return Some(text);
      }
      var lines := Fields(file.value, '\n');
      for i := 0 to |lines|
        invariant fontPath == Loaded(old(fontPath), lines[..i])
      {
        assert lines[..i + 1][..i] == lines[..i];
        var line := lines[i];
        if line == [] {
          continue;
        }
        var cell := Key(line);
        if cell == "fontPath" {
          cell := Value(line);
          fontPath := cell;
        }
      }
      assert lines[..|lines|] == lines;
      written := None;
    }

    /** The settings file's content. */
    method SaveDefault() returns (text: string)
      ensures text == SavedText(fontPath)
    {
      text := "fontPath=" + fontPath + "\n";
    }
  }
}
