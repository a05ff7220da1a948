/**
 * Character-level helpers for the C++ standard-library behaviour the
 * screenplay code relies on: splitting a stream with `std::getline` on a
 * delimiter, `std::to_string` of an unsigned value and `std::stoi`.
 */
module Strings {
  import opened Wrappers

  // ---------------------------------------------------------------------
  // Splitting and joining on a delimiter
  // ---------------------------------------------------------------------

  /** The pieces of `s` between occurrences of `d`; there is always one more
      piece than there are delimiters. */
  function Split(s: string, d: char): (r: seq<string>)
    ensures |r| >= 1
    decreases |s|
  {
    if s == [] then [[]]
    else
      var t := Split(s[..|s| - 1], d);
      if s[|s| - 1] == d then t + [[]]
      else t[..|t| - 1] + [t[|t| - 1] + [s[|s| - 1]]]
  }

  /** The pieces joined back with one `d` between neighbours. */
  function Join(xs: seq<string>, d: char): string
  {
    if |xs| == 0 then []
    else if |xs| == 1 then xs[0]
    else Join(xs[..|xs| - 1], d) + [d] + xs[|xs| - 1]
  }

  /** The tokens that a loop `while (std::getline(stream, tok, d))` reads from
      a stream holding `s`: an empty stream yields nothing, and a delimiter at
      the very end does not start another token. */
  function Fields(s: string, d: char): (r: seq<string>)
  {
    if s == [] then []
    else if s[|s| - 1] == d then Split(s[..|s| - 1], d)
    else Split(s, d)
  }

  lemma JoinSnoc(xs: seq<string>, x: string, d: char)
    requires |xs| >= 1
    ensures Join(xs + [x], d) == Join(xs, d) + [d] + x
  {
    assert (xs + [x])[..|xs|] == xs;
  }

  /** Splitting loses nothing: joining the pieces gives the text back. */
  lemma {:induction false} JoinSplit(s: string, d: char)
    ensures Join(Split(s, d), d) == s
    decreases |s|
  {
    if s != [] {
      var s' := s[..|s| - 1];
      var c := s[|s| - 1];
      var t := Split(s', d);
      JoinSplit(s', d);
      if c == d {
        JoinSnoc(t, [], d);
        assert s == s' + [c];
      } else {
        var k := |t| - 1;
        var t' := t[..k] + [t[k] + [c]];
        if k == 0 {
          assert s == s' + [c];
        } else {
          assert t'[..k] == t[..k];
          assert t[..k] + [t[k]] == t;
          JoinSnoc(t[..k], t[k] + [c], d);
          JoinSnoc(t[..k], t[k], d);
          assert s == s' + [c];
        }
      }
    }
  }

  /** No piece contains the delimiter. */
  lemma {:induction false} SplitPiecesFree(s: string, d: char)
    ensures forall i :: 0 <= i < |Split(s, d)| ==> d !in Split(s, d)[i]
    decreases |s|
  {
    if s != [] {
      SplitPiecesFree(s[..|s| - 1], d);
    }
  }

  /** A delimiter between two texts separates their pieces. */
  lemma {:induction false} SplitAppend(a: string, b: string, d: char)
    ensures Split(a + [d] + b, d) == Split(a, d) + Split(b, d)
    decreases |b|
  {
    var ab := a + [d] + b;
    if b == [] {
      assert ab[..|ab| - 1] == a;
    } else {
      var b' := b[..|b| - 1];
      var c := b[|b| - 1];
      assert ab[..|ab| - 1] == a + [d] + b';
      assert ab[|ab| - 1] == c;
      SplitAppend(a, b', d);
      var t := Split(a + [d] + b', d);
      var u := Split(b', d);
      assert t == Split(a, d) + u;
      if c == d {
        assert Split(ab, d) == t + [[]];
        assert Split(b, d) == u + [[]];
      } else {
        assert Split(ab, d) == t[..|t| - 1] + [t[|t| - 1] + [c]];
        assert Split(b, d) == u[..|u| - 1] + [u[|u| - 1] + [c]];
        assert t[..|t| - 1] == Split(a, d) + u[..|u| - 1];
        assert t[|t| - 1] == u[|u| - 1];
      }
    }
  }

  /** A text without the delimiter is a single piece. */
  lemma {:induction false} SplitWithout(s: string, d: char)
    requires d !in s
    ensures Split(s, d) == [s]
    decreases |s|
  {
    if s != [] {
      SplitWithout(s[..|s| - 1], d);
      assert s[..|s| - 1] + [s[|s| - 1]] == s;
    }
  }

  /** Every token read by `std::getline` is delimiter-free. */
  lemma FieldsFree(s: string, d: char)
    ensures forall i :: 0 <= i < |Fields(s, d)| ==> d !in Fields(s, d)[i]
  {
    if s != [] {
      if s[|s| - 1] == d { SplitPiecesFree(s[..|s| - 1], d); } else { SplitPiecesFree(s, d); }
    }
  }

  // ---------------------------------------------------------------------
  // Decimal numerals
  // ---------------------------------------------------------------------

  predicate IsDigit(c: char) { '0' <= c <= '9' }

  function DigitChar(n: nat): (c: char)
    requires n < 10
    ensures IsDigit(c)
  {
    ('0' as int + n) as char
  }

  function DigitValue(c: char): nat
    requires IsDigit(c)
  {
    c as int - '0' as int
  }

  predicate AllDigits(s: string)
  {
    forall i :: 0 <= i < |s| ==> IsDigit(s[i])
  }

  /** The value of a run of decimal digits. */
  function DigitsValue(s: string): nat
    requires AllDigits(s)
    decreases |s|
  {
    if s == [] then 0 else 10 * DigitsValue(s[..|s| - 1]) + DigitValue(s[|s| - 1])
  }

  /** `std::to_string` of a non-negative integer: the shortest decimal numeral. */
  function DecimalString(n: nat): (r: string)
    ensures |r| >= 1 && AllDigits(r)
    ensures r[0] == '0' ==> n == 0
    decreases n
  {
    if n < 10 then [DigitChar(n)] else DecimalString(n / 10) + [DigitChar(n % 10)]
  }

  /** Reading a numeral back gives the number that was written. */
  lemma {:induction false} DecimalStringValue(n: nat)
    ensures DigitsValue(DecimalString(n)) == n
    decreases n
  {
    if n >= 10 {
      DecimalStringValue(n / 10);
      var s := DecimalString(n);
      assert s[..|s| - 1] == DecimalString(n / 10);
    }
  }

  /** One digit below ten, two below a hundred, and so on. */
  lemma {:induction false} DecimalStringLength(n: nat)
    ensures n < 10 <==> |DecimalString(n)| == 1
    ensures n < 100 <==> |DecimalString(n)| <= 2
    decreases n
  {
    if n >= 10 {
      DecimalStringLength(n / 10);
    }
  }

  function Pow10(k: nat): (r: nat)
    ensures r >= 1
  {
    if k == 0 then 1 else 10 * Pow10(k - 1)
  }

  /** Numbers below 10^k take at most k digits. */
  lemma {:induction false} DecimalStringFits(n: nat, k: nat)
    requires 1 <= k && n < Pow10(k)
    ensures |DecimalString(n)| <= k
    decreases n
  {
    if n >= 10 {
      assert k >= 2;
      DecimalStringFits(n / 10, k - 1);
    }
  }

  /** A run of `k` spaces. */
  function Spaces(k: nat): (r: string)
    ensures |r| == k && forall c :: 0 <= c < k ==> r[c] == ' '
  {
    seq(k, _ => ' ')
  }

  // ---------------------------------------------------------------------
  // std::stoi
  // ---------------------------------------------------------------------

  /** The characters `isspace` accepts, which `std::stoi` skips first. */
  predicate IsCSpace(c: char)
  {
    c == ' ' || c == '\t' || c == '\n' || c == '\r' || c == 11 as char || c == 12 as char
  }

  function SkipCSpace(s: string): (r: string)
    ensures |r| <= |s| && r == s[|s| - |r|..]
    ensures r != [] ==> !IsCSpace(r[0])
    decreases |s|
  {
    if s != [] && IsCSpace(s[0]) then SkipCSpace(s[1..]) else s
  }

  /** The longest run of digits at the front of `s`. */
  function DigitPrefix(s: string): (r: string)
    ensures |r| <= |s| && r == s[..|r|] && AllDigits(r)
    ensures |r| < |s| ==> !IsDigit(s[|r|])
    decreases |s|
  {
    if s != [] && IsDigit(s[0]) then [s[0]] + DigitPrefix(s[1..]) else []
  }

  const IntMin: int := -2147483648
  const IntMax: int := 2147483647

  /** `std::stoi(s)` in base 10: leading white space, an optional sign and at
      least one digit; the rest of the text is ignored. `None` stands for the
      exceptions it throws (no digits, or a value outside a 32-bit int). */
  function Stoi(s: string): (r: Option<int>)
    ensures r.Some? ==> IntMin <= r.value <= IntMax
  {
    var t := SkipCSpace(s);
    var negative := t != [] && t[0] == '-';
    var body := if t != [] && (t[0] == '-' || t[0] == '+') then t[1..] else t;
    var digits := DigitPrefix(body);
    if digits == [] then None
    else
      var mag: int := DigitsValue(digits);
      var v := if negative then 0 - mag else mag;
      if IntMin <= v <= IntMax then Some(v) else None
  }

  /** `std::stoi` reads back what `std::to_string` wrote for a small value. */
  lemma StoiDecimal(n: nat)
    requires n <= IntMax
    ensures Stoi(DecimalString(n)) == Some(n)
  {
    var s := DecimalString(n);
    assert SkipCSpace(s) == s;
    DigitPrefixAll(s);
    DecimalStringValue(n);
  }

  lemma {:induction false} DigitPrefixAll(s: string)
    requires AllDigits(s)
    ensures DigitPrefix(s) == s
    decreases |s|
  {
    if s != [] {
      DigitPrefixAll(s[1..]);
    }
  }
}
