/**
 * The pure pieces of the presence text: the elapsed-time display, the progress
 * percentage, the KZ mode taken from the clan tag, and the difficulty tier label.
 */
module PresenceFormat {
  import opened Wrappers
  import opened Text

  // ---------------------------------------------------------------------------
  // Elapsed time

  /**
   * `TimeSpan.FromSeconds(seconds)` rendered with `h\:mm\:ss` when its TotalHours is
   * at least 1, and with `mm\:ss` otherwise. Custom TimeSpan formats print the
   * components of the absolute value without a sign, and `h` is the hours-of-day
   * component, so whole days are dropped. The display is `mm:ss` below an hour and
   * `h:mm:ss` from an hour on, and never carries a sign.
   */
  function TimerText(seconds: int): (r: string)
    ensures seconds < 3600 ==> |r| == 5 && r[2] == ':'
    ensures seconds >= 3600 ==> 7 <= |r| <= 8 && r[|r| - 6] == ':' && r[|r| - 3] == ':'
    ensures forall i :: 0 <= i < |r| ==> IsDigit(r[i]) || r[i] == ':'
  {
    var a := Abs(seconds);
    var ss := a % 60;
    var mm := a / 60 % 60;
    var hh := a / 3600 % 24;
    if seconds >= 3600 then NatToString(hh) + ":" + Pad2(mm) + ":" + Pad2(ss)
    else Pad2(mm) + ":" + Pad2(ss)
  }

  /** Minutes-of-hour and seconds-of-minute make up the remainder of `a` in an hour. */
  lemma ClockOfHour(a: nat)
    ensures a / 60 % 60 * 60 + a % 60 == a % 3600
  {
    var q := a / 60;
    assert a == 60 * q + a % 60;
    assert q == 60 * (q / 60) + q % 60;
    assert a == 3600 * (q / 60) + (60 * (q % 60) + a % 60);
  }

  /** Hours-of-day, minutes and seconds make up the remainder of `a` in a day. */
  lemma ClockOfDay(a: nat)
    ensures a / 3600 % 24 * 3600 + a / 60 % 60 * 60 + a % 60 == a % 86400
  {
    ClockOfHour(a);
    var q := a / 3600;
    assert a == 3600 * q + a % 3600;
    assert q == 24 * (q / 24) + q % 24;
    assert a == 86400 * (q / 24) + (3600 * (q % 24) + a % 3600);
  }

  /**
   * Below one hour the display is two-digit minutes, ':', two-digit seconds, and
   * reads back as the elapsed time (of the absolute value, within the hour).
   */
  lemma TimerTextBelowHour(seconds: int)
    requires seconds < 3600
    ensures var r := TimerText(seconds);
      && |r| == 5 && r[2] == ':'
      && AllDigits(r[..2]) && AllDigits(r[3..])
      && DigitsValue(r[..2]) < 60 && DigitsValue(r[3..]) < 60
      && DigitsValue(r[..2]) * 60 + DigitsValue(r[3..]) == Abs(seconds) % 3600
  {
    var a := Abs(seconds);
    var r := TimerText(seconds);
    assert r[..2] == Pad2(a / 60 % 60);
    assert r[3..] == Pad2(a % 60);
    ClockOfHour(a);
  }

  /**
   * From one hour on the display is unpadded hours, ':', two-digit minutes, ':',
   * two-digit seconds, and reads back as the elapsed time within its day.
   */
  lemma TimerTextFromHour(seconds: int)
    requires seconds >= 3600
    ensures var r := TimerText(seconds);
      var n := |r|;
      && n >= 7 && r[n - 6] == ':' && r[n - 3] == ':'
      && AllDigits(r[..n - 6]) && AllDigits(r[n - 5..n - 3]) && AllDigits(r[n - 2..])
      && (n - 6 == 1 || r[0] != '0')
      && DigitsValue(r[..n - 6]) < 24
      && DigitsValue(r[n - 5..n - 3]) < 60 && DigitsValue(r[n - 2..]) < 60
      && DigitsValue(r[..n - 6]) * 3600 + DigitsValue(r[n - 5..n - 3]) * 60 + DigitsValue(r[n - 2..])
         == seconds % 86400
  {
    var r := TimerText(seconds);
    var n := |r|;
    var h := NatToString(seconds / 3600 % 24);
    assert n == |h| + 6;
    assert r[..n - 6] == h;
    assert r[n - 5..n - 3] == Pad2(seconds / 60 % 60);
    assert r[n - 2..] == Pad2(seconds % 60);
    NatToStringRoundTrip(seconds / 3600 % 24);
    ClockOfDay(seconds);
  }

  /** Sample displays, including one past a whole day. */
  lemma TimerTextExamples()
    ensures TimerText(125) == "02:05"
    ensures TimerText(0) == "00:00"
    ensures TimerText(3725) == "1:02:05"
    ensures TimerText(86400 + 3725) == "1:02:05"
  {
    TimerTextShortExample();
    TimerTextHourExample(3725);
    TimerTextHourExample(86400 + 3725);
  }

  lemma TimerTextShortExample()
    ensures TimerText(125) == "02:05"
    ensures TimerText(0) == "00:00"
  {
    assert Pad2(0) == "00" && Pad2(2) == "02" && Pad2(5) == "05";
    assert 125 / 60 % 60 == 2 && 125 % 60 == 5;
  }

  /** An hour, two minutes and five seconds past any whole day. */
  lemma TimerTextHourExample(seconds: int)
    requires seconds == 3725 || seconds == 86400 + 3725
    ensures TimerText(seconds) == "1:02:05"
  {
    assert Pad2(2) == "02" && Pad2(5) == "05";
    assert NatToString(1) == "1";
    assert seconds / 60 % 60 == 2 && seconds % 60 == 5 && seconds / 3600 % 24 == 1;
  }

  // ---------------------------------------------------------------------------
  // Progress

  /**
   * `$"{score / 10.0:0.0}%"` for an integer score: the score in tenths, with
   * exactly one decimal, computed exactly on integers: a sign only for negative
   * scores, and always a '.', one digit and '%' at the end.
   */
  function ProgressText(score: int): (r: string)
    ensures |r| >= 4 && r[|r| - 1] == '%' && r[|r| - 3] == '.'
    ensures if score < 0 then r[0] == '-' else IsDigit(r[0])
  {
    var a := Abs(score);
    (if score < 0 then "-" else "") + NatToString(a / 10) + "." + [DigitChar(a % 10)] + "%"
  }

  /**
   * The progress text is an optional '-' (exactly for negative scores), the whole
   * part without leading zeros, '.', one decimal digit and '%', and whole part and
   * decimal read back as the score in tenths.
   */
  lemma ProgressTextMeaning(score: int)
    ensures var r := ProgressText(score);
      var sign := if score < 0 then 1 else 0;
      var n := |r|;
      && n >= sign + 4
      && (r[0] == '-' <==> score < 0)
      && r[n - 1] == '%' && r[n - 3] == '.' && IsDigit(r[n - 2])
      && AllDigits(r[sign..n - 3])
      && (n - 3 - sign == 1 || r[sign] != '0')
      && DigitsValue(r[sign..n - 3]) * 10 + (r[n - 2] as int - '0' as int) == Abs(score)
  {
    var a := Abs(score);
    var r := ProgressText(score);
    var sign := if score < 0 then 1 else 0;
    var w := NatToString(a / 10);
    var pre := if score < 0 then "-" else "";
    assert r == pre + w + "." + [DigitChar(a % 10)] + "%";
    assert |r| == sign + |w| + 3;
    assert r[sign..|r| - 3] == w;
    assert r[|r| - 2] == DigitChar(a % 10);
    NatToStringRoundTrip(a / 10);
  }

  lemma ProgressTextExamples()
    ensures ProgressText(47) == "4.7%"
    ensures ProgressText(0) == "0.0%"
    ensures ProgressText(1000) == "100.0%"
    ensures ProgressText(-5) == "-0.5%"
  {
  }

  // ---------------------------------------------------------------------------
  // KZ mode from the clan tag

  const DefaultMode: string := "KZT"

  /** The first '[' of `s` is at `li`, and the first ']' after it at `ri`. */
  ghost predicate BracketsAt(s: string, li: nat, ri: nat) {
    && li < ri < |s|
    && s[li] == '[' && (forall i :: 0 <= i < li ==> s[i] != '[')
    && s[ri] == ']' && (forall i :: li < i < ri ==> s[i] != ']')
  }

  /**
   * The text between the first '[' of `s` and the first ']' after it, when both exist
   * (`IndexOf('[')`, then `IndexOf(']', li + 1)` and `Substring`). There is such text
   * exactly when some '[' comes before some ']'.
   */
  function BracketContents(s: string): (r: Option<string>)
    ensures r.Some? <==> exists i, j :: 0 <= i < j < |s| && s[i] == '[' && s[j] == ']'
    ensures r.Some? ==> exists li: nat, ri: nat :: BracketsAt(s, li, ri) && r.value == s[li + 1..ri]
  {
    var li := IndexOf(s, '[', 0);
    var ri := if li >= 0 then IndexOf(s, ']', li + 1) else -1;
    if li >= 0 && ri > li then
      assert BracketsAt(s, li, ri);
      Some(s[li + 1..ri])
    else None
  }

  /**
   * The mode a first token gives: the default when it is missing or whitespace only,
   * otherwise the token itself up to case, in upper case.
   */
  function ModeOfToken(token: Option<string>): (r: string)
    ensures r != [] && forall i :: 0 <= i < |r| ==> !IsLowerAscii(r[i])
    ensures IsNullOrWhiteSpace(token) ==> r == DefaultMode
    ensures !IsNullOrWhiteSpace(token) ==>
      |r| == |token.value| && forall i :: 0 <= i < |r| ==> UpperInvariant(r[i]) == UpperInvariant(token.value[i])
  {
    if IsNullOrWhiteSpace(token) then DefaultMode else ToUpperInvariant(token.value)
  }

  /**
   * The KZ mode: "KZT", unless the clan tag holds a '[' with a ']' after it; then
   * the first space-separated token between the first '[' and the first ']'
   * following it, upper-cased, when that token exists and is not all whitespace.
   */
  function KzMode(clan: Option<string>): (r: string)
    ensures r != [] && ' ' !in r
    ensures forall i :: 0 <= i < |r| ==> !IsLowerAscii(r[i])
  {
    if IsNullOrWhiteSpace(clan) then DefaultMode
    else
      match BracketContents(clan.value)
      case None => DefaultMode
      case Some(inside) => ModeOfToken(FirstToken(inside))
  }

  /** Without a '[' that some later ']' closes, the mode is the default. */
  lemma KzModeWithoutBrackets(clan: Option<string>)
    requires clan.Some? ==>
      forall i, j :: 0 <= i < j < |clan.value| && clan.value[i] == '[' ==> clan.value[j] != ']'
    ensures KzMode(clan) == DefaultMode
  {
    if clan.Some? {
      assert BracketContents(clan.value) == None;
    }
  }

  /** With brackets at `li` and `ri`, the mode is that of the first token between them. */
  lemma KzModeOfBrackets(clan: string, li: nat, ri: nat)
    requires BracketsAt(clan, li, ri)
    ensures KzMode(Some(clan)) == ModeOfToken(FirstToken(clan[li + 1..ri]))
  {
    assert !IsWhiteSpace(clan[li]);
    assert !IsNullOrWhiteSpace(Some(clan));
    assert IndexOf(clan, '[', 0) == li;
    assert IndexOf(clan, ']', li + 1) == ri;
    assert BracketContents(clan) == Some(clan[li + 1..ri]);
  }

  /** Between the brackets only spaces (or nothing): the mode is the default. */
  lemma KzModeBlankBrackets(clan: string, li: nat, ri: nat)
    requires BracketsAt(clan, li, ri)
    requires forall i :: li < i < ri ==> clan[i] == ' '
    ensures KzMode(Some(clan)) == DefaultMode
  {
    KzModeOfBrackets(clan, li, ri);
    var inside := clan[li + 1..ri];
    assert forall i :: 0 <= i < |inside| ==> inside[i] == clan[li + 1 + i];
    assert FirstToken(inside) == None;
  }

  /** `k` spaces then the word `t` (ended by a space or by ']') between the brackets. */
  ghost predicate WordInBrackets(clan: string, li: nat, ri: nat, k: nat, t: string)
    requires BracketsAt(clan, li, ri)
  {
    && t != [] && ' ' !in t
    && li + 1 + k + |t| <= ri && clan[li + 1 + k..li + 1 + k + |t|] == t
    && (forall i :: li < i <= li + k ==> clan[i] == ' ')
    && (li + 1 + k + |t| == ri || clan[li + 1 + k + |t|] == ' ')
  }

  /** That word is the first token of the bracket contents. */
  lemma FirstTokenInBrackets(clan: string, li: nat, ri: nat, k: nat, t: string)
    requires BracketsAt(clan, li, ri) && WordInBrackets(clan, li, ri, k, t)
    ensures FirstToken(clan[li + 1..ri]) == Some(t)
  {
    var inside := clan[li + 1..ri];
    SliceOfSlice(clan, li + 1, ri, k, k + |t|);
    assert forall i :: 0 <= i < k ==> inside[i] == ' ' by {
      forall i | 0 <= i < k ensures inside[i] == ' ' {
        assert inside[i] == clan[li + 1 + i];
      }
    }
    SplitFirst(inside, k, t);
  }

  /**
   * Between the brackets, `k` spaces then the word `t` (ended by a space or by ']'):
   * the mode is `t` upper-cased, or the default when `t` is whitespace only.
   */
  lemma KzModeFromBrackets(clan: string, li: nat, ri: nat, k: nat, t: string)
    requires BracketsAt(clan, li, ri) && WordInBrackets(clan, li, ri, k, t)
    ensures KzMode(Some(clan)) ==
      if forall i :: 0 <= i < |t| ==> IsWhiteSpace(t[i]) then DefaultMode else ToUpperInvariant(t)
  {
    KzModeOfBrackets(clan, li, ri);
    FirstTokenInBrackets(clan, li, ri, k, t);
  }

  /** Sample clan tags, well-formed and malformed. */
  lemma KzModeExamples()
    ensures KzMode(Some("[KZT Semipro] Player")) == "KZT"
    ensures KzMode(Some("[skz] runner")) == "SKZ"
    ensures KzMode(Some("NoBrackets")) == "KZT"
    ensures KzMode(Some("[] empty")) == "KZT"
    ensures KzMode(Some("]vnl[")) == "KZT"
    ensures KzMode(None) == "KZT"
  {
    KzModeExample1();
    KzModeExample2();
    KzModeExample3();
    KzModeExample4();
    KzModeExample5();
  }

  lemma KzModeExample1()
    ensures KzMode(Some("[KZT Semipro] Player")) == "KZT"
  {
    var clan := "[KZT Semipro] Player";
    assert BracketsAt(clan, 0, 12);
    assert clan[1..4] == "KZT";
    assert !IsWhiteSpace("KZT"[0]);
    assert ToUpperInvariant("KZT") == "KZT";
    KzModeFromBrackets(clan, 0, 12, 0, "KZT");
  }

  lemma KzModeExample2()
    ensures KzMode(Some("[skz] runner")) == "SKZ"
  {
    var clan := "[skz] runner";
    assert BracketsAt(clan, 0, 4);
    assert clan[1..4] == "skz";
    var upper := ToUpperInvariant("skz");
    assert upper[0] == 'S' && upper[1] == 'K' && upper[2] == 'Z';
    assert upper == "SKZ";
    assert !IsWhiteSpace("skz"[0]);
    KzModeFromBrackets(clan, 0, 4, 0, "skz");
  }

  lemma KzModeExample3()
    ensures KzMode(Some("NoBrackets")) == "KZT"
  {
    var clan := "NoBrackets";
    assert forall i :: 0 <= i < |clan| ==> clan[i] != '[';
    KzModeWithoutBrackets(Some(clan));
  }

  lemma KzModeExample4()
    ensures KzMode(Some("[] empty")) == "KZT"
  {
    var clan := "[] empty";
    assert BracketsAt(clan, 0, 1);
    KzModeBlankBrackets(clan, 0, 1);
  }

  lemma KzModeExample5()
    ensures KzMode(Some("]vnl[")) == "KZT"
  {
    var clan := "]vnl[";
    assert forall i :: 0 <= i < 4 ==> clan[i] != '[';
    KzModeWithoutBrackets(Some(clan));
  }

  // ---------------------------------------------------------------------------
  // Difficulty tier

  /** What the cache holds: "T?" or 'T' and a positive number without leading zeros. */
  predicate IsTierLabel(s: string) {
    s == "T?" || (|s| >= 2 && s[0] == 'T' && AllDigits(s[1..]) && s[1] != '0')
  }

  /** `diff > 0 ? $"T{diff}" : "T?"` */
  function TierLabel(difficulty: int): (r: string)
    ensures IsTierLabel(r)
    ensures r == "T?" <==> difficulty <= 0
  {
    if difficulty > 0 then
      var digits := NatToString(difficulty);
      assert ("T" + digits)[1..] == digits && ("T" + digits)[1] == digits[0];
      "T" + digits
    else "T?"
  }

  /** The difficulty a tier label names, if any. */
  function ParseTier(s: string): Option<nat> {
    if |s| >= 2 && s[0] == 'T' && AllDigits(s[1..]) then Some(DigitsValue(s[1..])) else None
  }

  /** A positive difficulty is recovered from its label; any other gives the unknown tier. */
  lemma TierRoundTrip(difficulty: int)
    ensures ParseTier(TierLabel(difficulty)) == if difficulty > 0 then Some(difficulty) else None
  {
    if difficulty > 0 {
      assert TierLabel(difficulty)[1..] == NatToString(difficulty);
      NatToStringRoundTrip(difficulty);
    }
  }
}
