/**
 * The .NET string and number primitives the presence code relies on:
 * integer-to-decimal rendering, Char.IsWhiteSpace, String.IsNullOrWhiteSpace,
 * String.IndexOf, String.Split(' ', RemoveEmptyEntries) and ToUpperInvariant.
 */
module Text {
  import opened Wrappers

  // ---------------------------------------------------------------------------
  // Decimal digits

  predicate IsDigit(c: char) {
    '0' <= c <= '9'
  }

  predicate AllDigits(s: string) {
    forall i :: 0 <= i < |s| ==> IsDigit(s[i])
  }

  /** The character of decimal digit `d`. */
  function DigitChar(d: nat): (c: char)
    requires d < 10
    ensures IsDigit(c) && c as int - '0' as int == d
  {
    ('0' as int + d) as char
  }

  /** The number a string of decimal digits denotes, most significant digit first. */
  function DigitsValue(s: string): nat
    requires AllDigits(s)
    decreases |s|
  {
    if s == [] then 0
    else DigitsValue(s[..|s| - 1]) * 10 + (s[|s| - 1] as int - '0' as int)
  }

  /** Appending one digit shifts the value by one decimal place. */
  lemma DigitsValueSnoc(s: string, c: char)
    requires AllDigits(s) && IsDigit(c)
    ensures AllDigits(s + [c])
    ensures DigitsValue(s + [c]) == DigitsValue(s) * 10 + (c as int - '0' as int)
  {
    assert (s + [c])[..|s + [c]| - 1] == s;
  }

  /** `n.ToString()` for a non-negative integer (invariant culture): its decimal digits. */
  function NatToString(n: nat): (r: string)
    ensures r != [] && AllDigits(r)
    ensures r[0] == '0' <==> n == 0
    ensures n == 0 ==> r == "0"
    ensures n < 10 <==> |r| == 1
    ensures n < 100 ==> |r| <= 2
    decreases n
  {
    if n < 10 then [DigitChar(n)] else NatToString(n / 10) + [DigitChar(n % 10)]
  }

  /** Reading back the digits of `NatToString(n)` gives `n`. */
  lemma {:induction false} NatToStringRoundTrip(n: nat)
    ensures DigitsValue(NatToString(n)) == n
    decreases n
  {
    if n < 10 {
      assert NatToString(n)[..0] == [];
    } else {
      NatToStringRoundTrip(n / 10);
      DigitsValueSnoc(NatToString(n / 10), DigitChar(n % 10));
    }
  }

  function Abs(i: int): nat {
    if i < 0 then -i else i
  }

  /** `i.ToString()` for a C# integer (invariant culture): a minus sign for negatives, then the digits. */
  function IntToString(i: int): (r: string)
    ensures r != [] && (r[0] == '-' <==> i < 0)
    ensures forall k :: (if i < 0 then 1 else 0) <= k < |r| ==> IsDigit(r[k])
  {
    if i < 0 then "-" + NatToString(-i) else NatToString(i)
  }

  /** The rendering of `i` is an optional '-' (present exactly for negatives) and the digits of |i|. */
  lemma IntToStringMeaning(i: int)
    ensures var r := IntToString(i);
      var digits := if i < 0 then r[1..] else r;
      && r != []
      && (r[0] == '-' <==> i < 0)
      && AllDigits(digits)
      && DigitsValue(digits) == Abs(i)
      && (|digits| == 1 || digits[0] != '0')
  {
    NatToStringRoundTrip(Abs(i));
    if i < 0 {
      assert IntToString(i)[1..] == NatToString(-i);
    }
  }

  /** Two-digit, zero-padded rendering of `n < 100` (the `mm` and `ss` of a TimeSpan format). */
  function Pad2(n: nat): (r: string)
    requires n < 100
    ensures |r| == 2 && AllDigits(r) && DigitsValue(r) == n
  {
    var r := [DigitChar(n / 10), DigitChar(n % 10)];
    DigitsValueSnoc([DigitChar(n / 10)], DigitChar(n % 10));
    assert [DigitChar(n / 10)][..0] == [];
    r
  }

  // ---------------------------------------------------------------------------
  // Whitespace and case

  predicate IsLowerAscii(c: char) {
    'a' <= c <= 'z'
  }

  /**
   * Char.IsWhiteSpace: the Unicode space, line and paragraph separators, U+0009..U+000D
   * and U+0085. Within ASCII these are exactly space, tab, LF, VT, FF and CR; no
   * whitespace character is a letter, a digit or a bracket.
   */
  function IsWhiteSpace(c: char): (b: bool)
    ensures c as int < 128 ==> (b <==> c == ' ' || '\t' <= c <= '\r')
    ensures b ==> !IsDigit(c) && !IsLowerAscii(c) && !('A' <= c <= 'Z') && c != '[' && c != ']'
  {
    var x := c as int;
    || (0x09 <= x <= 0x0D) || x == 0x20 || x == 0x85 || x == 0xA0 || x == 0x1680
    || (0x2000 <= x <= 0x200A) || x == 0x2028 || x == 0x2029 || x == 0x202F
    || x == 0x205F || x == 0x3000
  }

  /**
   * String.IsNullOrWhiteSpace: null, empty, or whitespace only. Text made of spaces
   * alone is blank; text holding a bracket never is.
   */
  function IsNullOrWhiteSpace(s: Option<string>): (b: bool)
    ensures s.None? ==> b
    ensures s.Some? && (forall i :: 0 <= i < |s.value| ==> s.value[i] == ' ') ==> b
    ensures s.Some? && ('[' in s.value || ']' in s.value) ==> !b
  {
    s.None? || forall i :: 0 <= i < |s.value| ==> IsWhiteSpace(s.value[i])
  }

  /** Char.ToUpperInvariant on ASCII letters; every other character is kept. */
  function UpperInvariant(c: char): char {
    if IsLowerAscii(c) then (c as int - 32) as char else c
  }

  /**
   * String.ToUpperInvariant, character by character: each lower-case ASCII letter
   * becomes its capital, and every other character is kept.
   */
  function ToUpperInvariant(s: string): (r: string)
    ensures |r| == |s|
    ensures forall i :: 0 <= i < |s| ==>
      if IsLowerAscii(s[i]) then r[i] as int == s[i] as int - 32 else r[i] == s[i]
    ensures forall i :: 0 <= i < |r| ==> !IsLowerAscii(r[i])
    ensures forall i :: 0 <= i < |r| ==> (r[i] == ' ' <==> s[i] == ' ')
  {
    seq(|s|, i requires 0 <= i < |s| => UpperInvariant(s[i]))
  }

  // ---------------------------------------------------------------------------
  // Searching and splitting

  /**
   * String.IndexOf(c, from): the first position at or after `from` holding `c`, or -1.
   * (C# accepts `from == |s|` and answers -1.)
   */
  function IndexOf(s: string, c: char, from: nat): (r: int)
    requires from <= |s|
    ensures r == -1 || (from <= r < |s| && s[r] == c)
    ensures r == -1 <==> forall i :: from <= i < |s| ==> s[i] != c
    ensures r != -1 ==> forall i :: from <= i < r ==> s[i] != c
    decreases |s| - from
  {
    if from == |s| then -1
    else if s[from] == c then from
    else IndexOf(s, c, from + 1)
  }

  /** Length of the leading run of non-space characters of `s`. */
  function WordLength(s: string): (n: nat)
    ensures n <= |s|
    ensures forall i :: 0 <= i < n ==> s[i] != ' '
    ensures n < |s| ==> s[n] == ' '
  {
    var sp := IndexOf(s, ' ', 0);
    if sp < 0 then |s| else sp
  }

  /**
   * String.Split(' ', StringSplitOptions.RemoveEmptyEntries): the maximal runs of
   * non-space characters, in order. Only U+0020 separates; tabs stay inside tokens.
   */
  function Split(s: string): (r: seq<string>)
    ensures forall k :: 0 <= k < |r| ==> r[k] != [] && ' ' !in r[k]
    ensures r == [] <==> forall i :: 0 <= i < |s| ==> s[i] == ' '
    decreases |s|
  {
    if s == [] then []
    else if s[0] == ' ' then Split(s[1..])
    else
      var n := WordLength(s);
      [s[..n]] + Split(s[n..])
  }

  /** A slice of a slice is a slice of the original. */
  lemma SliceOfSlice(s: string, lo: nat, hi: nat, i: nat, j: nat)
    requires lo <= hi <= |s| && i <= j <= hi - lo
    ensures s[lo..hi][i..j] == s[lo + i..lo + j]
  {
    assert forall x :: 0 <= x < j - i ==> s[lo..hi][i..j][x] == s[lo + i + x];
  }

  /**
   * `Split(' ', RemoveEmptyEntries).FirstOrDefault()`: null exactly for all-space
   * text, otherwise a non-empty word without spaces.
   */
  function FirstToken(s: string): (r: Option<string>)
    ensures r.None? <==> forall i :: 0 <= i < |s| ==> s[i] == ' '
    ensures r.Some? ==> r.value != [] && ' ' !in r.value
  {
    var tokens := Split(s);
    if tokens == [] then None else Some(tokens[0])
  }

  /** The characters of `s` other than U+0020, in order. */
  function RemoveSpaces(s: string): (r: string)
    decreases |s|
  {
    if s == [] then []
    else (if s[0] == ' ' then [] else [s[0]]) + RemoveSpaces(s[1..])
  }

  function Concat(ss: seq<string>): string
    decreases |ss|
  {
    if ss == [] then [] else ss[0] + Concat(ss[1..])
  }

  lemma {:induction false} RemoveSpacesAppend(a: string, b: string)
    ensures RemoveSpaces(a + b) == RemoveSpaces(a) + RemoveSpaces(b)
    decreases |a|
  {
    if a != [] {
      assert (a + b)[1..] == a[1..] + b;
      RemoveSpacesAppend(a[1..], b);
    } else {
      assert a + b == b;
    }
  }

  lemma {:induction false} RemoveSpacesOfWord(w: string)
    requires ' ' !in w
    ensures RemoveSpaces(w) == w
    decreases |w|
  {
    if w != [] {
      RemoveSpacesOfWord(w[1..]);
    }
  }

  /** Splitting loses no character but the separators, and keeps the order. */
  lemma {:induction false} SplitKeepsText(s: string)
    ensures Concat(Split(s)) == RemoveSpaces(s)
    decreases |s|
  {
    if s != [] {
      if s[0] == ' ' {
        SplitKeepsText(s[1..]);
      } else {
        var n := WordLength(s);
        SplitKeepsText(s[n..]);
        assert s == s[..n] + s[n..];
        RemoveSpacesAppend(s[..n], s[n..]);
        RemoveSpacesOfWord(s[..n]);
        assert Split(s)[1..] == Split(s[n..]);
      }
    }
  }

  /**
   * The first token: when `s` is `k` spaces, then a space-free non-empty word `t`,
   * then the end or a space, the first entry of the split is `t`.
   */
  lemma {:induction false} SplitFirst(s: string, k: nat, t: string)
    requires t != [] && ' ' !in t
    requires k + |t| <= |s| && s[k..k + |t|] == t
    requires forall i :: 0 <= i < k ==> s[i] == ' '
    requires k + |t| == |s| || s[k + |t|] == ' '
    ensures Split(s) != [] && Split(s)[0] == t
    ensures FirstToken(s) == Some(t)
    decreases k
  {
    if k > 0 {
      SplitFirst(s[1..], k - 1, t);
    } else {
      assert s[0] == t[0];
    }
  }
}
