/**
 * The string helpers of the project loader/saver: in-place trimming and
 * upper-casing, zero-padded counters and the file name derived from a slug.
 */
module ProjectText {
  import opened Strings

  // ---------------------------------------------------------------------
  // Trim
  // ---------------------------------------------------------------------

  /** The four characters `Trim` strips. */
  predicate IsTrimSpace(c: char)
  {
    c == '\n' || c == '\t' || c == '\r' || c == ' '
  }

  predicate IsTrimmed(s: string)
  {
    s == [] || (!IsTrimSpace(s[0]) && !IsTrimSpace(s[|s| - 1]))
  }

  function TrimFront(s: string): (r: string)
    ensures |r| <= |s|
    ensures r == [] || !IsTrimSpace(r[0])
    decreases |s|
  {
    if s != [] && IsTrimSpace(s[0]) then TrimFront(s[1..]) else s
  }

  function TrimBack(s: string): (r: string)
    ensures |r| <= |s|
    ensures r == [] || !IsTrimSpace(r[|r| - 1])
    decreases |s|
  {
    if s != [] && IsTrimSpace(s[|s| - 1]) then TrimBack(s[..|s| - 1]) else s
  }

  /** The text with its leading and trailing trim characters removed. */
  function Trimmed(s: string): string
  {
    TrimBack(TrimFront(s))
  }

  lemma {:induction false} TrimBackKeepsFront(s: string)
    requires s == [] || !IsTrimSpace(s[0])
    ensures TrimBack(s) == [] || !IsTrimSpace(TrimBack(s)[0])
  {
    var j := TrimBackWindow(s);
    var r := TrimBack(s);
    if r != [] { assert r[0] == s[0]; }
  }

  /** Trimming leaves a trimmed text. */
  lemma TrimmedIsTrimmed(s: string)
    ensures IsTrimmed(Trimmed(s))
  {
    TrimBackKeepsFront(TrimFront(s));
  }

  lemma {:induction false} TrimOfTrimmed(s: string)
    requires IsTrimmed(s)
    ensures Trimmed(s) == s
  {
  }

  /** `Trim` removes only the four trim characters, and only at the two ends:
      the result is the window `s[i..j]` with nothing but trim characters
      outside it, and it is itself trimmed. */
  lemma TrimWindow(s: string) returns (i: nat, j: nat)
    ensures i <= j <= |s| && Trimmed(s) == s[i..j]
    ensures forall k :: 0 <= k < i ==> IsTrimSpace(s[k])
    ensures forall k :: j <= k < |s| ==> IsTrimSpace(s[k])
    ensures IsTrimmed(Trimmed(s))
  {
    i := TrimFrontWindow(s);
    var f := TrimFront(s);
    var m := TrimBackWindow(f);
    j := i + m;
    assert f == s[i..];
    forall k | j <= k < |s| ensures IsTrimSpace(s[k]) {
      assert s[k] == f[k - i];
    }
    TrimmedIsTrimmed(s);
  }

  lemma {:induction false} TrimFrontWindow(s: string) returns (i: nat)
    ensures i <= |s| && TrimFront(s) == s[i..]
    ensures forall k :: 0 <= k < i ==> IsTrimSpace(s[k])
    decreases |s|
  {
    if s != [] && IsTrimSpace(s[0]) {
      var i' := TrimFrontWindow(s[1..]);
      i := i' + 1;
    } else {
      i := 0;
    }
  }

  lemma {:induction false} TrimBackWindow(s: string) returns (j: nat)
    ensures j <= |s| && TrimBack(s) == s[..j]
    ensures forall k :: j <= k < |s| ==> IsTrimSpace(s[k])
    decreases |s|
  {
    if s != [] && IsTrimSpace(s[|s| - 1]) {
      j := TrimBackWindow(s[..|s| - 1]);
    } else {
      j := |s|;
    }
  }

  /** Trimming twice is trimming once. */
  lemma TrimIdempotent(s: string)
    ensures Trimmed(Trimmed(s)) == Trimmed(s)
  {
    TrimmedIsTrimmed(s);
    TrimOfTrimmed(Trimmed(s));
  }

  /** A space in front of a text does not survive trimming. */
  lemma TrimSpacePrefix(c: string)
    ensures Trimmed(" " + c) == Trimmed(c)
  {
    assert (" " + c)[1..] == c;
  }

  /** `Trim(std::string&)`: erase from the front, then pop from the back,
      while the end character is one of the four trim characters. */
  method Trim(str: string) returns (t: string)
    ensures t == Trimmed(str)
    ensures IsTrimmed(t)
  {
    t := str;
    while t != [] && IsTrimSpace(t[0])
      invariant TrimFront(t) == TrimFront(str)
      decreases |t|
    {
      t := t[1..];
    }
    ghost var front := t;
    while t != [] && IsTrimSpace(t[|t| - 1])
      invariant TrimBack(t) == TrimBack(front)
      decreases |t|
    {
      t := t[..|t| - 1];
    }
    TrimmedIsTrimmed(str);
  }

  // ---------------------------------------------------------------------
  // ToCaps
  // ---------------------------------------------------------------------

  predicate IsLower(c: char) { 'a' <= c <= 'z' }
  predicate IsUpper(c: char) { 'A' <= c <= 'Z' }

  function UpperChar(c: char): char
  {
    if IsLower(c) then (c as int - 32) as char else c
  }

  /** The text with a-z mapped to A-Z and every other character kept. */
  function Caps(s: string): (r: string)
    ensures |r| == |s|
    ensures forall i :: 0 <= i < |s| ==> r[i] == UpperChar(s[i])
  {
    seq(|s|, i requires 0 <= i < |s| => UpperChar(s[i]))
  }

  predicate IsCaps(s: string)
  {
    forall i :: 0 <= i < |s| ==> !IsLower(s[i])
  }

  /** Upper-casing changes only a-z, leaves no a-z behind, keeps the length,
      and doing it twice is doing it once. */
  lemma CapsProperties(s: string)
    ensures |Caps(s)| == |s| && IsCaps(Caps(s)) && Caps(Caps(s)) == Caps(s)
    ensures forall i :: 0 <= i < |s| && !IsLower(s[i]) ==> Caps(s)[i] == s[i]
    ensures forall i :: 0 <= i < |s| && IsLower(s[i]) ==> Caps(s)[i] as int == s[i] as int - 32
    ensures IsCaps(s) ==> Caps(s) == s
  {
  }

  /** Upper-casing does not touch trim characters, so it commutes with
      trimming and keeps a trimmed text trimmed. */
  lemma {:induction false} CapsTrimCommute(s: string)
    ensures Trimmed(Caps(s)) == Caps(Trimmed(s))
    ensures IsTrimmed(s) ==> IsTrimmed(Caps(s))
  {
    CapsTrimFront(s);
    CapsTrimBack(TrimFront(s));
  }

  lemma {:induction false} CapsTrimFront(s: string)
    ensures TrimFront(Caps(s)) == Caps(TrimFront(s))
    decreases |s|
  {
    if s != [] && IsTrimSpace(s[0]) {
      assert Caps(s)[1..] == Caps(s[1..]);
      CapsTrimFront(s[1..]);
    }
  }

  lemma {:induction false} CapsTrimBack(s: string)
    ensures TrimBack(Caps(s)) == Caps(TrimBack(s))
    decreases |s|
  {
    if s != [] && IsTrimSpace(s[|s| - 1]) {
      assert Caps(s)[..|s| - 1] == Caps(s[..|s| - 1]);
      CapsTrimBack(s[..|s| - 1]);
    }
  }

  /** `ToCaps(std::string&)`: subtract 32 from every character in a-z. */
  method ToCaps(str: string) returns (t: string)
    ensures t == Caps(str)
  {
    t := str;
    for i := 0 to |t|
      invariant |t| == |str|
      invariant forall k :: 0 <= k < i ==> t[k] == UpperChar(str[k])
      invariant forall k :: i <= k < |t| ==> t[k] == str[k]
    {
      if 'a' <= t[i] <= 'z' {
        t := t[i := (t[i] as int - 32) as char];
      }
    }
  }

  // ---------------------------------------------------------------------
  // TwoDig, ThreeDig and the sequence-directory prefix
  // ---------------------------------------------------------------------

  /** `TwoDig`: the decimal value, with one leading zero below ten. */
  function TwoDig(val: nat): (r: string)
    ensures AllDigits(r) && DigitsValue(r) == val
    ensures |r| >= 2 && (val < 100 ==> |r| == 2)
  {
    DecimalStringValue(val);
    DecimalStringLength(val);
    LeadingZeros("0", DecimalString(val));
    if val < 10 then "0" + DecimalString(val) else DecimalString(val)
  }

  /** `ThreeDig`: the decimal value, zero-padded to three digits below 100. */
  function ThreeDig(val: nat): (r: string)
    ensures AllDigits(r) && DigitsValue(r) == val
    ensures |r| >= 3 && (val < 1000 ==> |r| == 3)
  {
    DecimalStringValue(val);
    DecimalStringLength(val);
    ThreeDigitsBelow1000(val);
    LeadingZeros("0", DecimalString(val));
    LeadingZeros("00", DecimalString(val));
    if val < 10 then "00" + DecimalString(val)
    else if val < 100 then "0" + DecimalString(val)
    else DecimalString(val)
  }

  lemma ThreeDigitsBelow1000(n: nat)
    ensures 100 <= n < 1000 ==> |DecimalString(n)| == 3
    ensures n >= 100 ==> |DecimalString(n)| >= 3
  {
    if n >= 100 {
      DecimalStringLength(n / 10);
    }
  }

  /** A leading zero does not change the value of a numeral. */
  lemma {:induction false} LeadingZeros(z: string, s: string)
    requires AllDigits(z) && AllDigits(s) && DigitsValue(z) == 0
    ensures AllDigits(z + s) && DigitsValue(z + s) == DigitsValue(s)
    decreases |s|
  {
    if s != [] {
      var zs := z + s;
      assert zs[..|zs| - 1] == z + s[..|s| - 1];
      LeadingZeros(z, s[..|s| - 1]);
    } else {
      assert z + s == z;
    }
  }

  /** The directory a sequence is saved under: `TwoDig(i) + "_" + name`. */
  function SequenceDirName(i: nat, name: string): string
  {
    TwoDig(i) + "_" + name
  }

  /** The name `LoadSequence` gives a sequence directory: everything after the
      first `_`, or the whole name when there is none. */
  function SequenceName(dirName: string): (r: string)
    ensures '_' in dirName ==> |r| < |dirName|
    ensures '_' !in dirName ==> r == dirName
  {
    if '_' in dirName then
      var k := FirstIndexOf(dirName, '_');
      dirName[k + 1..]
    else dirName
  }

  /** The index of the first occurrence of `c` (`find_first_of`). */
  function FirstIndexOf(s: string, c: char): (k: nat)
    requires c in s
    ensures k < |s| && s[k] == c && c !in s[..k]
    decreases |s|
  {
    if s[0] == c then 0 else 1 + FirstIndexOf(s[1..], c)
  }

  /** Any position holding the first `c` is the one `FirstIndexOf` finds. */
  lemma FirstIndexOfAt(s: string, c: char, k: nat)
    requires k < |s| && s[k] == c && c !in s[..k]
    ensures c in s && FirstIndexOf(s, c) == k
  {
    var j := FirstIndexOf(s, c);
    assert forall i :: 0 <= i < k ==> s[..k][i] == s[i];
    assert forall i :: 0 <= i < j ==> s[..j][i] == s[i];
  }

  /** The index of the last occurrence of `c` (`find_last_of`). */
  function LastIndexOf(s: string, c: char): (k: nat)
    requires c in s
    ensures k < |s| && s[k] == c && c !in s[k + 1..]
    decreases |s|
  {
    if s[|s| - 1] == c then |s| - 1
    else
      assert c in s[..|s| - 1] by {
        var j :| 0 <= j < |s| && s[j] == c;
        assert s[..|s| - 1][j] == c;
      }
      LastIndexOf(s[..|s| - 1], c)
  }

  /** Stripping the saved prefix gives the sequence name back, whatever the
      name contains (the counter itself holds no `_`). */
  lemma SequenceNameRoundTrip(i: nat, name: string)
    ensures SequenceName(SequenceDirName(i, name)) == name
  {
    var p := TwoDig(i);
    var dir := SequenceDirName(i, name);
    assert dir[|p|] == '_';
    assert '_' !in p by {
      forall k | 0 <= k < |p| ensures p[k] != '_' { assert IsDigit(p[k]); }
    }
    var k := FirstIndexOf(dir, '_');
    assert dir[..|p|] == p;
    assert forall m :: 0 <= m < k ==> dir[..k][m] == dir[m];
    assert k == |p|;
  }

  // ---------------------------------------------------------------------
  // NameFromSlug
  // ---------------------------------------------------------------------

  predicate IsLetter(c: char) { IsLower(c) || IsUpper(c) }

  /** The state of the file-name loop after some prefix of the slug: the name
      built so far and whether the last character was a non-letter. */
  datatype NameState = NameState(name: string, lastWasSpecial: bool)

  function NameStep(st: NameState, c: char): NameState
  {
    if IsUpper(c) then NameState(st.name + [c], false)
    else if IsLower(c) then NameState(st.name + [UpperChar(c)], false)
    else if st.lastWasSpecial then st
    else NameState(st.name + ['_'], true)
  }

  function NameFold(s: string): NameState
    decreases |s|
  {
    if s == [] then NameState([], false) else NameStep(NameFold(s[..|s| - 1]), s[|s| - 1])
  }

  /** The file-name stem derived from a slug line. */
  function SlugFileStem(s: string): string
  {
    NameFold(s).name
  }

  /** The letters of a text, in order. */
  function Letters(s: string): string
    decreases |s|
  {
    if s == [] then []
    else Letters(s[..|s| - 1]) + (if IsLetter(s[|s| - 1]) then [s[|s| - 1]] else [])
  }

  predicate StemChar(c: char) { IsUpper(c) || c == '_' }

  /** The text with its maximal leading run of non-letters removed. */
  function DropOthers(s: string): (r: string)
    ensures |r| <= |s|
    ensures r == [] || IsLetter(r[0])
    ensures r == s[|s| - |r|..]
    ensures forall i :: 0 <= i < |s| - |r| ==> !IsLetter(s[i])
  {
    if s == [] || IsLetter(s[0]) then s else DropOthers(s[1..])
  }

  /** The run-collapsing reading of a slug, left to right: every letter is
      upper-cased in place, and every maximal run of non-letters (digits,
      spaces, punctuation) becomes exactly one `_`. */
  function Collapse(s: string): string
    decreases |s|
  {
    if s == [] then []
    else if IsLetter(s[0]) then [UpperChar(s[0])] + Collapse(s[1..])
    else "_" + Collapse(DropOthers(s[1..]))
  }

  /** The derived name is made of A-Z and `_` only, never has two `_` in a row,
      and its letters are exactly the slug's letters upper-cased; each maximal
      run of other characters (digits included) became one `_` at its place,
      as `Collapse` reads it. */
  lemma SlugFileStemShape(s: string)
    ensures forall i :: 0 <= i < |SlugFileStem(s)| ==> StemChar(SlugFileStem(s)[i])
    ensures forall i :: 0 <= i < |SlugFileStem(s)| - 1 ==> !(SlugFileStem(s)[i] == '_' && SlugFileStem(s)[i + 1] == '_')
    ensures Letters(SlugFileStem(s)) == Caps(Letters(s))
    ensures NameFold(s).lastWasSpecial <==> (SlugFileStem(s) != [] && SlugFileStem(s)[|SlugFileStem(s)| - 1] == '_')
    ensures SlugFileStem(s) == Collapse(s)
  {
    StemChars(s);
    StemRuns(s);
    StemLetters(s);
    StemCollapse([], s);
    assert [] + s == s;
  }

  /** What the loop still appends after a prefix that left `flag` set: a
      pending non-letter run is already stood for by its `_`. */
  function CollapseAfter(flag: bool, s: string): string
  {
    if flag then Collapse(DropOthers(s)) else Collapse(s)
  }

  /** Reading `p + s` is reading `p`, then collapsing the runs of `s`. */
  lemma {:induction false} StemCollapse(p: string, s: string)
    ensures SlugFileStem(p + s) == SlugFileStem(p) + CollapseAfter(NameFold(p).lastWasSpecial, s)
    decreases |s|
  {
    if s == [] {
      assert p + s == p;
    } else {
      var c, r := s[0], s[1..];
      var st := NameFold(p);
      var u := NameStep(NameState([], st.lastWasSpecial), c);
      var rest := CollapseAfter(u.lastWasSpecial, r);
      calc {
        SlugFileStem(p + s);
        { assert p + s == (p + [c]) + r; }
        SlugFileStem((p + [c]) + r);
        { StemCollapse(p + [c], r); NameFoldSnoc(p, c); }
        (st.name + u.name) + rest;
        st.name + (u.name + rest);
        { CollapseAfterCons(st.lastWasSpecial, c, r); assert [c] + r == s; }
        st.name + CollapseAfter(st.lastWasSpecial, s);
      }
    }
  }

  /** One more character appends to the name what it would append to an
      empty name with the same flag. */
  lemma NameFoldSnoc(p: string, c: char)
    ensures NameFold(p + [c]).name == NameFold(p).name + NameStep(NameState([], NameFold(p).lastWasSpecial), c).name
    ensures NameFold(p + [c]).lastWasSpecial == NameStep(NameState([], NameFold(p).lastWasSpecial), c).lastWasSpecial
  {
    assert (p + [c])[..|p|] == p;
  }

  /** The first character of the rest, read with the flag the loop carries. */
  lemma CollapseAfterCons(flag: bool, c: char, r: string)
    ensures CollapseAfter(flag, [c] + r)
         == NameStep(NameState([], flag), c).name + CollapseAfter(NameStep(NameState([], flag), c).lastWasSpecial, r)
  {
    if IsLetter(c) {
      LetterCons(flag, c, r);
    } else if flag {
      SkippedCons(c, r);
    } else {
      RunStartCons(c, r);
    }
  }

  lemma LetterCons(flag: bool, c: char, r: string)
    requires IsLetter(c)
    ensures CollapseAfter(flag, [c] + r) == [UpperChar(c)] + Collapse(r)
  {
    var s := [c] + r;
    assert s[0] == c && s[1..] == r;
    assert DropOthers(s) == s;
  }

  lemma SkippedCons(c: char, r: string)
    requires !IsLetter(c)
    ensures CollapseAfter(true, [c] + r) == CollapseAfter(true, r)
  {
    var s := [c] + r;
    assert s[0] == c && s[1..] == r;
  }

  lemma RunStartCons(c: char, r: string)
    requires !IsLetter(c)
    ensures CollapseAfter(false, [c] + r) == "_" + CollapseAfter(true, r)
  {
    var s := [c] + r;
    assert s[0] == c && s[1..] == r;
  }

  lemma {:induction false} StemChars(s: string)
    ensures forall i :: 0 <= i < |SlugFileStem(s)| ==> StemChar(SlugFileStem(s)[i])
    decreases |s|
  {
    if s != [] {
      var s' := s[..|s| - 1];
      var c := s[|s| - 1];
      StemChars(s');
      var n' := SlugFileStem(s');
      var n := SlugFileStem(s);
      if IsUpper(c) || IsLower(c) {
        assert n == n' + [UpperChar(c)];
        assert IsUpper(UpperChar(c));
      } else if !NameFold(s').lastWasSpecial {
        assert n == n' + ['_'];
      }
    }
  }

  lemma {:induction false} StemRuns(s: string)
    ensures forall i :: 0 <= i < |SlugFileStem(s)| - 1 ==> !(SlugFileStem(s)[i] == '_' && SlugFileStem(s)[i + 1] == '_')
    ensures NameFold(s).lastWasSpecial <==> (SlugFileStem(s) != [] && SlugFileStem(s)[|SlugFileStem(s)| - 1] == '_')
    decreases |s|
  {
    if s != [] {
      var s' := s[..|s| - 1];
      var c := s[|s| - 1];
      StemRuns(s');
      var n' := SlugFileStem(s');
      var n := SlugFileStem(s);
      if IsUpper(c) || IsLower(c) {
        assert n == n' + [UpperChar(c)];
      } else if !NameFold(s').lastWasSpecial {
        assert n == n' + ['_'];
      }
    }
  }

  lemma LettersSnoc(a: string, x: char)
    ensures Letters(a + [x]) == Letters(a) + (if IsLetter(x) then [x] else [])
  {
    assert (a + [x])[..|a|] == a;
  }

  lemma CapsAppend(a: string, b: string)
    ensures Caps(a + b) == Caps(a) + Caps(b)
  {
  }

  lemma {:induction false} StemLetters(s: string)
    ensures Letters(SlugFileStem(s)) == Caps(Letters(s))
    decreases |s|
  {
    if s != [] {
      var s' := s[..|s| - 1];
      var c := s[|s| - 1];
      StemLetters(s');
      assert s' + [c] == s;
      if IsLetter(c) {
        LetterStep(s', c);
      } else {
        OtherStep(s', c);
      }
    }
  }

  lemma LetterStep(s': string, c: char)
    requires IsLetter(c) && Letters(SlugFileStem(s')) == Caps(Letters(s'))
    ensures Letters(SlugFileStem(s' + [c])) == Caps(Letters(s' + [c]))
  {
    var n' := SlugFileStem(s');
    assert (s' + [c])[..|s'|] == s';
    assert SlugFileStem(s' + [c]) == n' + [UpperChar(c)];
    LettersSnoc(s', c);
    LettersSnoc(n', UpperChar(c));
    CapsAppend(Letters(s'), [c]);
  }

  lemma OtherStep(s': string, c: char)
    requires !IsLetter(c) && Letters(SlugFileStem(s')) == Caps(Letters(s'))
    ensures Letters(SlugFileStem(s' + [c])) == Caps(Letters(s' + [c]))
  {
    var n' := SlugFileStem(s');
    assert (s' + [c])[..|s'|] == s';
    LettersSnoc(s', c);
    LettersSnoc(n', '_');
  }

  /** `NameFromSlug`: one pass over the slug with a "last was special" flag. */
  method NameFromSlug(line: string) returns (result: string)
    ensures result == SlugFileStem(line)
  {
    result := [];
    var lastWasSpecial := false;
    for i := 0 to |line|
      invariant NameFold(line[..i]) == NameState(result, lastWasSpecial)
    {
      assert line[..i + 1][..i] == line[..i];
      var c := line[i];
      if 'A' <= c <= 'Z' {
        lastWasSpecial := false;
        result := result + [c];
        continue;
      }
      if 'a' <= c <= 'z' {
        lastWasSpecial := false;
        result := result + [(c as int - 32) as char];
        continue;
      }
      if lastWasSpecial {
        continue;
      }
      lastWasSpecial := true;
      result := result + ['_'];
    }
    assert line[..|line|] == line;
  }
}
