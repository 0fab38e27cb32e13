/**
  The countdown text of a periodic task: `_formatTime` renders a number of
  seconds as `m:ss`, and `_setRemainingTime` shows it, or nothing for zero.
 */
module TimeFormat {
  import opened Wrappers
  import opened Decimal

  /** JavaScript's `a % b` for `b > 0`: the remainder takes the sign of `a`. */
  function JsRem(a: int, b: int): (r: int)
    requires b > 0
    ensures a >= 0 ==> r == a % b
    ensures -b < r < b
  {
    if a >= 0 then a % b else -((-a) % b)
  }

  /**
    `_formatTime(t)`: minutes are `Math.floor(t / 60)` (Dafny's `/` by a
    positive divisor already floors), seconds are `t % 60` padded with a
    leading "0" when below 10.
   */
  function FormatTime(t: int): (r: string)
    ensures |r| >= 3
  {
    IntToString(t / 60) + ":" + PadSeconds(JsRem(t, 60))
  }

  /** The seconds part of `_formatTime`: `seconds < 10 ? '0' + seconds : seconds`. */
  function PadSeconds(seconds: int): (r: string)
    ensures |r| >= 1
  {
    if seconds < 10 then "0" + IntToString(seconds) else IntToString(seconds)
  }

  /** `_setRemainingTime(t)`: the text shown in the timer, blank exactly when `t` is 0. */
  function RemainingTimeText(t: int): (r: string)
    ensures r == "" <==> t == 0
  {
    if t != 0 then FormatTime(t) else ""
  }

  /** Reads `m:ss` back: a minute count, a colon and exactly two digits below 60. */
  function ParseTime(s: string): Option<int> {
    if |s| >= 4 && s[|s| - 3] == ':' then
      match (ParseNat(s[..|s| - 3]), ParseNat(s[|s| - 2..]))
      case (Some(m), Some(ss)) => if ss < 60 then Some(m * 60 + ss) else None
      case _ => None
    else
      None
  }

  /** The seconds field of the rendering of a non-negative time: two digits, denoting `t % 60`. */
  lemma SecondsField(sec: nat)
    requires sec < 60
    ensures var text := PadSeconds(sec);
      |text| == 2 && AllDigits(text) && ValueOf(text) == sec
  {
    ValueOfDigits(sec);
    if sec < 10 {
      var text := "0" + Digits(sec);
      assert text[..1] == "0";
      assert ValueOf("0") == 0;
    } else {
      assert Digits(sec) == Digits(sec / 10) + [DigitChar(sec % 10)];
    }
  }

  /**
    For t >= 0, `_formatTime(t)` is the minute count, a colon and two digits
    in 00..59, and reading it back gives `t` (minutes * 60 + seconds == t).
   */
  lemma FormatTimeRoundTrip(t: nat)
    ensures var s := FormatTime(t);
      && |s| >= 4 && s[|s| - 3] == ':'
      && s[..|s| - 3] == Digits(t / 60)
      && AllDigits(s[|s| - 2..]) && ValueOf(s[|s| - 2..]) < 60
    ensures ParseTime(FormatTime(t)) == Some(t)
  {
    var text := PadSeconds(t % 60);
    SecondsField(t % 60);
    var s := Digits(t / 60) + ":" + text;
    assert FormatTime(t) == s by {
      assert JsRem(t, 60) == t % 60;
      assert IntToString(t / 60) == Digits(t / 60);
    }
    assert s[..|s| - 3] == Digits(t / 60);
    assert s[|s| - 2..] == text;
    ParseDigits(t / 60);
    ParseSplit(s, t);
  }

  lemma ParseSplit(s: string, t: nat)
    requires |s| >= 4 && s[|s| - 3] == ':'
    requires ParseNat(s[..|s| - 3]) == Some(t / 60)
    requires ParseNat(s[|s| - 2..]) == Some(t % 60)
    ensures ParseTime(s) == Some(t)
  {
  }

  /** A positive countdown is shown and reads back as the remaining seconds. */
  lemma RemainingTimeRoundTrip(t: nat)
    requires t > 0
    ensures ParseTime(RemainingTimeText(t)) == Some(t)
  {
    FormatTimeRoundTrip(t);
  }
}
