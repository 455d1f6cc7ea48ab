/**
 * The game clock: the end time derived from the shared start time, the
 * remaining time shown on the game screen and its `HH:MM:SS` rendering.
 * Time is in whole seconds.
 */
module SessionTimer {
  import opened Wrappers

  /** `gameDuration`: two hours. */
  const GameDuration: int := 2 * 60 * 60

  /** `startTime.addingTimeInterval(gameDuration)`. */
  function EndTime(start: int): (r: int)
    ensures r - start == 7200
  {
    start + GameDuration
  }

  /** `max(0, endTime - now)`. */
  function RemainingTime(endTime: int, now: int): (r: int)
    ensures r >= 0 && r >= endTime - now
    ensures r == 0 || r == endTime - now
  {
    if endTime - now > 0 then endTime - now else 0
  }

  /** `remaining <= 0`. */
  predicate TimerEnded(endTime: int, now: int)
  {
    endTime - now <= 0
  }

  /** The game has ended exactly when no time remains. */
  lemma EndedIffNothingRemains(endTime: int, now: int)
    ensures TimerEnded(endTime, now) <==> RemainingTime(endTime, now) == 0
  {
  }

  /** Once the game has started, at most the full duration remains. */
  lemma RemainingAtMostDuration(start: int, now: int)
    requires start <= now
    ensures RemainingTime(EndTime(start), now) <= GameDuration
  {
  }

  /** The remaining time never grows as the clock advances. */
  lemma RemainingMonotone(endTime: int, now1: int, now2: int)
    requires now1 <= now2
    ensures RemainingTime(endTime, now2) <= RemainingTime(endTime, now1)
  {
  }

  /** One second before the end one second remains; at the end nothing remains and the game has ended. */
  lemma LastSecond(t0: int)
    ensures RemainingTime(EndTime(t0), t0 + 7199) == 1 && !TimerEnded(EndTime(t0), t0 + 7199)
    ensures RemainingTime(EndTime(t0), t0 + 7200) == 0 && TimerEnded(EndTime(t0), t0 + 7200)
  {
  }

  /** The hours, minutes and seconds `formatTime` prints for `s` seconds. */
  datatype Clock = Clock(hours: nat, minutes: nat, seconds: nat)

  /** `Int(interval) / 3600`, `(Int(interval) % 3600) / 60`, `Int(interval) % 60`. */
  function ClockOf(s: nat): (c: Clock)
    ensures c.minutes < 60 && c.seconds < 60
    ensures c.hours * 3600 + c.minutes * 60 + c.seconds == s
  {
    var h, rem := s / 3600, s % 3600;
    var m := rem / 60;
    assert s == h * 3600 + rem;
    assert rem == m * 60 + rem % 60;
    assert s == (h * 60 + m) * 60 + rem % 60;
    ModOfSum60(s, h * 60 + m, rem % 60);
    Clock(h, m, s % 60)
  }

  lemma ModOfSum60(s: int, q: int, r: int)
    requires 0 <= r < 60 && s == q * 60 + r
    ensures s % 60 == r
  {
  }

  /** The digit character for `d`. */
  function DigitChar(d: nat): (c: char)
    requires d < 10
    ensures IsDigit(c)
  {
    (48 + d) as char
  }

  predicate IsDigit(c: char)
  {
    '0' <= c <= '9'
  }

  function DigitValue(c: char): (d: nat)
    requires IsDigit(c)
    ensures d < 10
  {
    (c as int) - 48
  }

  predicate AllDigits(s: string)
  {
    forall i :: 0 <= i < |s| ==> IsDigit(s[i])
  }

  /** `%d` for a non-negative number. */
  function Decimal(n: nat): (r: string)
    ensures r != [] && AllDigits(r)
    ensures n < 10 ==> |r| == 1
    ensures 10 <= n < 100 ==> |r| == 2
  {
    if n < 10 then [DigitChar(n)] else Decimal(n / 10) + [DigitChar(n % 10)]
  }

  /** `%02d` for a non-negative number: at least two digits, zero-padded. */
  function Pad2(n: nat): (r: string)
    ensures |r| >= 2 && AllDigits(r)
    ensures n < 100 ==> |r| == 2
  {
    if n < 10 then "0" + Decimal(n) else Decimal(n)
  }

  /** `formatTime`: `String(format: "%02d:%02d:%02d", hours, minutes, seconds)`. */
  function FormatTime(s: nat): (r: string)
    ensures |r| >= 8
    ensures s < 360000 ==> |r| == 8
  {
    var c := ClockOf(s);
    Pad2(c.hours) + ":" + Pad2(c.minutes) + ":" + Pad2(c.seconds)
  }

  /** Reads a string of decimal digits. */
  function ParseDecimal(s: string): nat
    requires AllDigits(s)
  {
    if s == [] then 0 else ParseDecimal(s[..|s| - 1]) * 10 + DigitValue(s[|s| - 1])
  }

  /** Reads an `H:MM:SS` clock back into seconds; `None` when the string has another shape. */
  function ParseClock(t: string): Option<nat>
  {
    if |t| >= 8 && t[|t| - 6] == ':' && t[|t| - 3] == ':'
       && AllDigits(t[..|t| - 6]) && AllDigits(t[|t| - 5..|t| - 3]) && AllDigits(t[|t| - 2..])
    then
      var h, m, sec := ParseDecimal(t[..|t| - 6]), ParseDecimal(t[|t| - 5..|t| - 3]), ParseDecimal(t[|t| - 2..]);
      Some(h * 3600 + m * 60 + sec)
    else None
  }

  lemma {:induction false} ParseDecimalOf(n: nat)
    ensures ParseDecimal(Decimal(n)) == n
  {
    if n >= 10 {
      var r := Decimal(n);
      assert r[..|r| - 1] == Decimal(n / 10);
      ParseDecimalOf(n / 10);
    }
  }

  lemma ParsePad2(n: nat)
    ensures ParseDecimal(Pad2(n)) == n
  {
    ParseDecimalOf(n);
    if n < 10 {
      var r := Pad2(n);
      assert r[..1] == "0";
    }
  }

  /** Reading a formatted clock gives back the number of seconds: the rendering loses nothing. */
  lemma FormatTimeRoundTrip(s: nat)
    ensures ParseClock(FormatTime(s)) == Some(s)
  {
    var c := ClockOf(s);
    var hs, ms, ss := Pad2(c.hours), Pad2(c.minutes), Pad2(c.seconds);
    var t := FormatTime(s);
    assert t == hs + ":" + ms + ":" + ss;
    assert |ms| == 2 && |ss| == 2;
    assert t[..|t| - 6] == hs;
    assert t[|t| - 5..|t| - 3] == ms;
    assert t[|t| - 2..] == ss;
    ParsePad2(c.hours);
    ParsePad2(c.minutes);
    ParsePad2(c.seconds);
  }
}
