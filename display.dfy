/**
 * The timer label of main.py's `update_timer_display`: `time_left` split by
 * `divmod(time_left, 60)` and rendered as `f"{minutes:02d}:{seconds:02d}"`.
 *
 * Python's `divmod` floors; with the positive divisor 60 that agrees with
 * Dafny's Euclidean `/` and `%` on every integer, negative ones included.
 */
module Display {
  import opened PomodoroSpec

  predicate IsDigit(c: char) {
    '0' <= c <= '9'
  }

  /** The character of a decimal digit. */
  function DigitChar(d: int): (c: char)
    requires 0 <= d < 10
    ensures IsDigit(c) && c as int - '0' as int == d
  {
    ('0' as int + d) as char
  }

  /** The value of a digit character. */
  function DigitValue(c: char): (d: int)
    requires IsDigit(c)
    ensures 0 <= d < 10
  {
    c as int - '0' as int
  }

  /** Python's `str(n)` for a natural number: its decimal digits, no leading zero. */
  function Digits(n: nat): (s: string)
    ensures 1 <= |s|
    ensures forall i :: 0 <= i < |s| ==> IsDigit(s[i])
    ensures n < 10 <==> |s| == 1
    ensures n > 0 ==> s[0] != '0'
    decreases n
  {
    if n < 10 then [DigitChar(n)] else Digits(n / 10) + [DigitChar(n % 10)]
  }

  /**
   * Python's `f"{n:02d}"`: the decimal digits padded with zeros, after any
   * sign, to a width of at least two.
   */
  function Pad2(n: int): (s: string)
    ensures 2 <= |s|
    ensures 0 <= n < 100 ==> |s| == 2
    ensures n < 0 <==> s[0] == '-'
    ensures n >= 0 ==> IsDigit(s[0])
    ensures n >= 10 ==> s[0] != '0'
    ensures n < 0 ==> s[1] != '0'
    ensures forall i :: 0 < i < |s| ==> IsDigit(s[i])
  {
    if n < 0 then "-" + Digits(-n)
    else if n < 10 then "0" + Digits(n)
    else Digits(n)
  }

  /** The label text for `timeLeft` seconds. */
  function TimerText(timeLeft: int): (s: string)
    ensures |s| >= 5 && s[|s| - 3] == ':'
    ensures IsDigit(s[|s| - 2]) && IsDigit(s[|s| - 1])
  {
    Pad2(timeLeft / SecondsPerMinute) + ":" + Pad2(timeLeft % SecondsPerMinute)
  }

  /** The value of a string of decimal digits (leading zeros allowed). */
  function ParseDigits(s: string): (n: nat)
    requires forall i :: 0 <= i < |s| ==> IsDigit(s[i])
  {
    if s == [] then 0 else 10 * ParseDigits(s[..|s| - 1]) + DigitValue(s[|s| - 1])
  }

  /** The value of a `02d` field: an optional minus sign, then digits. */
  function ParseField(s: string): int
    requires forall i :: 0 < i < |s| ==> IsDigit(s[i])
    requires |s| > 0 && s[0] != '-' ==> IsDigit(s[0])
  {
    if |s| > 0 && s[0] == '-' then -(ParseDigits(s[1..]) as int) else ParseDigits(s)
  }

  /** Reads a label back into seconds: minutes before the colon, two digits of seconds after it. */
  function ParseTimerText(s: string): int
    requires |s| >= 3
    requires forall i :: 0 < i < |s| - 3 ==> IsDigit(s[i])
    requires |s| > 3 && s[0] != '-' ==> IsDigit(s[0])
    requires IsDigit(s[|s| - 2]) && IsDigit(s[|s| - 1])
  {
    SecondsPerMinute * ParseField(s[..|s| - 3]) + ParseDigits(s[|s| - 2..])
  }

  /** Reading the digits of `n` gives back `n`. */
  lemma {:induction false} ParseDigitsOfDigits(n: nat)
    ensures ParseDigits(Digits(n)) == n
  {
    if n >= 10 {
      var s := Digits(n);
      assert s[..|s| - 1] == Digits(n / 10);
      ParseDigitsOfDigits(n / 10);
    }
  }

  /** A leading zero does not change the value read. */
  lemma LeadingZero(s: string)
    requires forall i :: 0 <= i < |s| ==> IsDigit(s[i])
    ensures ParseDigits("0" + s) == ParseDigits(s)
  {
    if s != [] {
      assert ("0" + s)[..|"0" + s| - 1] == "0" + s[..|s| - 1];
      LeadingZero(s[..|s| - 1]);
    }
  }

  /** Reading a padded field gives back the number. */
  lemma ParseFieldOfPad2(n: int)
    ensures ParseField(Pad2(n)) == n
  {
    if n < 0 {
      assert Pad2(n)[1..] == Digits(-n);
      ParseDigitsOfDigits(-n);
    } else if n < 10 {
      LeadingZero(Digits(n));
      ParseDigitsOfDigits(n);
    } else {
      ParseDigitsOfDigits(n);
    }
  }

  /** The label determines the time left: reading it back gives `timeLeft`. */
  lemma TimerTextRoundTrip(timeLeft: int)
    ensures ParseTimerText(TimerText(timeLeft)) == timeLeft
  {
    var m, sec := timeLeft / SecondsPerMinute, timeLeft % SecondsPerMinute;
    var s := TimerText(timeLeft);
    assert s[..|s| - 3] == Pad2(m);
    assert s[|s| - 2..] == Pad2(sec);
    ParseFieldOfPad2(m);
    ParseFieldOfPad2(sec);
  }

  /**
   * The two fields are the `divmod` split: seconds below 60, and sixty times
   * the minutes plus the seconds is the time left.
   */
  lemma TimerTextFields(timeLeft: int)
    ensures var s := TimerText(timeLeft);
      && s[..|s| - 3] == Pad2(timeLeft / SecondsPerMinute)
      && s[|s| - 2..] == Pad2(timeLeft % SecondsPerMinute)
      && 0 <= timeLeft % SecondsPerMinute < SecondsPerMinute
      && SecondsPerMinute * (timeLeft / SecondsPerMinute) + timeLeft % SecondsPerMinute == timeLeft
  {
    var s := TimerText(timeLeft);
    assert s[..|s| - 3] == Pad2(timeLeft / SecondsPerMinute);
    assert s[|s| - 2..] == Pad2(timeLeft % SecondsPerMinute);
  }

  /** A negative time left shows floored minutes with a sign and no zero padding after it. */
  lemma NegativeTimerText()
    ensures TimerText(-30) == "-1:30"
  {
    assert Pad2(-1) == "-" + [DigitChar(1)] == "-1";
    assert Digits(30) == Digits(3) + [DigitChar(0)] == "30";
  }

  /** The label a fresh timer shows: 25 minutes. */
  lemma FreshTimerText()
    ensures TimerText(1500) == "25:00"
  {
    assert Digits(25) == Digits(2) + [DigitChar(5)] == "25";
    assert Pad2(0) == "0" + [DigitChar(0)] == "00";
  }
}
