/**
 * Time arithmetic of the tracker: the number of whole windows owed since the
 * last report, and the minutes:seconds countdown shown until the next one.
 * Instants are integer milliseconds since the epoch; the clock is a parameter.
 */
module Timing {

  /** Length of one reporting window in milliseconds (one hour). */
  const ONE_HOUR_MS: int := 60 * 60 * 1000
  const ONE_MINUTE_MS: int := 60 * 1000
  const ONE_SECOND_MS: int := 1000

  /**
   * `Math.floor((now - lastUpdate) / ONE_HOUR_MS)`. The result is the floor of
   * the real quotient, so it is negative, not clamped, when `now` precedes
   * `lastUpdate`.
   */
  function PendingCount(now: int, lastUpdate: int): (n: int)
    ensures n * ONE_HOUR_MS <= now - lastUpdate < (n + 1) * ONE_HOUR_MS
  {
    (now - lastUpdate) / ONE_HOUR_MS
  }

  /** A backlog exists exactly when at least one whole window has elapsed. */
  lemma BacklogIffWindowElapsed(now: int, lastUpdate: int)
    ensures PendingCount(now, lastUpdate) > 0 <==> now - lastUpdate >= ONE_HOUR_MS
  {
  }

  /** A clock that runs behind the last report yields a negative count, which reads as "no backlog". */
  lemma NegativeElapsedIsNegativeCount(now: int, lastUpdate: int)
    requires now < lastUpdate
    ensures PendingCount(now, lastUpdate) < 0
  {
  }

  /** More elapsed time never lowers the count. */
  lemma {:induction false} PendingCountMonotone(now: int, now': int, lastUpdate: int)
    requires now <= now'
    ensures PendingCount(now, lastUpdate) <= PendingCount(now', lastUpdate)
  {
  }

  /** Paying one window moves `lastUpdate` forward one window and lowers the count by exactly one. */
  lemma PendingCountAfterOneWindow(now: int, lastUpdate: int)
    ensures PendingCount(now, lastUpdate + ONE_HOUR_MS) == PendingCount(now, lastUpdate) - 1
  {
  }

  /** Each of the first n owed windows ended no later than `now`. */
  lemma OwedWindowsHaveEnded(now: int, lastUpdate: int, k: int)
    requires 1 <= k <= PendingCount(now, lastUpdate)
    ensures lastUpdate + k * ONE_HOUR_MS <= now
  {
    var n := PendingCount(now, lastUpdate);
    assert (n - k) * ONE_HOUR_MS >= 0;
  }

  /** Milliseconds until the next report is due: `lastUpdate + ONE_HOUR_MS - now`. */
  function TimeLeft(lastUpdate: int, now: int): (t: int)
    ensures t <= 0 <==> now >= lastUpdate + ONE_HOUR_MS
    ensures t > ONE_HOUR_MS <==> now < lastUpdate
  {
    lastUpdate + ONE_HOUR_MS - now
  }

  /** The countdown is due exactly when the backlog check would find a window owed. */
  lemma DueIffBacklog(lastUpdate: int, now: int)
    ensures TimeLeft(lastUpdate, now) <= 0 <==> PendingCount(now, lastUpdate) > 0
  {
    BacklogIffWindowElapsed(now, lastUpdate);
  }

  /** JavaScript's `%`: the remainder takes the sign of the dividend. */
  function JsRem(a: int, b: int): (r: int)
    requires b > 0
    ensures -b < r < b
    ensures a >= 0 ==> r == a % b
    ensures a < 0 ==> r <= 0 && (a - r) % b == 0
  {
    if a >= 0 then a % b
    else
      var q, m := (-a) / b, (-a) % b;
      assert a + m == (-q) * b;
      MultipleHasNoRemainder(-q, b);
      -m
  }

  /** A multiple of `b` leaves no remainder. */
  lemma MultipleHasNoRemainder(k: int, b: int)
    requires b > 0
    ensures (k * b) % b == 0
  {
    var x := k * b;
    var d := k - x / b;
    assert x % b == b * d;
  }

  /** What the timer shows: the due marker, or the minutes and seconds left. */
  datatype Countdown = Due | Remaining(minutes: nat, seconds: nat)

  /**
   * The arithmetic of `updateTimer`: due when no time is left, otherwise the
   * minutes within the hour and the seconds within the minute.
   */
  function CountdownOf(lastUpdate: int, now: int): (c: Countdown)
    ensures c.Due? <==> TimeLeft(lastUpdate, now) <= 0
    ensures c.Remaining? ==> c.minutes < 60 && c.seconds < 60
  {
    var timeLeft := TimeLeft(lastUpdate, now);
    if timeLeft <= 0 then Due
    else Remaining(JsRem(timeLeft, ONE_HOUR_MS) / ONE_MINUTE_MS, JsRem(timeLeft, ONE_MINUTE_MS) / ONE_SECOND_MS)
  }

  /**
   * Whenever time is left, the display is the time left with whole hours
   * dropped, cut down to whole seconds. A clock behind `lastUpdate` leaves
   * more than an hour, and the extra hours do not show.
   */
  lemma CountdownIsTimeLeftInSeconds(lastUpdate: int, now: int)
    requires TimeLeft(lastUpdate, now) > 0
    ensures var c := CountdownOf(lastUpdate, now);
      var shown := c.minutes * ONE_MINUTE_MS + c.seconds * ONE_SECOND_MS;
      c.Remaining? && shown <= TimeLeft(lastUpdate, now) % ONE_HOUR_MS < shown + ONE_SECOND_MS
  {
    var t := TimeLeft(lastUpdate, now) % ONE_HOUR_MS;
    assert TimeLeft(lastUpdate, now) % ONE_MINUTE_MS == t % ONE_MINUTE_MS;
    var m, s := t / ONE_MINUTE_MS, (t % ONE_MINUTE_MS) / ONE_SECOND_MS;
    assert t == m * ONE_MINUTE_MS + t % ONE_MINUTE_MS;
    assert t % ONE_MINUTE_MS == s * ONE_SECOND_MS + (t % ONE_MINUTE_MS) % ONE_SECOND_MS;
  }

  /** Whole hours are dropped: a full hour left (the instant of a report) reads 00:00. */
  lemma CountdownAtFullHour(lastUpdate: int)
    ensures CountdownOf(lastUpdate, lastUpdate) == Remaining(0, 0)
  {
  }

  /** The decimal character for a digit. */
  function DigitChar(d: int): char
    requires 0 <= d < 10
  {
    "0123456789"[d]
  }

  predicate IsDigit(c: char)
  {
    '0' <= c <= '9'
  }

  /** The value of a decimal digit character. */
  function DigitValue(c: char): int
  {
    c as int - '0' as int
  }

  /** `Number.prototype.toString()` for a non-negative integer: its decimal digits, most significant first. */
  function NatToString(n: nat): (s: string)
    ensures |s| >= 1 && forall i :: 0 <= i < |s| ==> IsDigit(s[i])
    ensures n < 10 ==> |s| == 1
    ensures 10 <= n < 100 ==> |s| == 2
  {
    if n < 10 then [DigitChar(n)] else NatToString(n / 10) + [DigitChar(n % 10)]
  }

  /** Reading a digit string back as a number, most significant digit first. */
  function DecimalValue(s: string): int
  {
    if s == [] then 0 else DecimalValue(s[..|s| - 1]) * 10 + DigitValue(s[|s| - 1])
  }

  /** The digits of `n` read back as `n`. */
  lemma {:induction false} NatToStringRoundTrip(n: nat)
    ensures DecimalValue(NatToString(n)) == n
  {
    if n >= 10 {
      var s := NatToString(n);
      NatToStringRoundTrip(n / 10);
      assert s[..|s| - 1] == NatToString(n / 10);
    }
  }

  /** `String.prototype.padStart(width, fill)` with a one-character fill. */
  function PadStart(s: string, width: nat, fill: char): (r: string)
    ensures |r| == if |s| >= width then |s| else width
  {
    if |s| >= width then s else [fill] + PadStart(s, width - 1, fill)
  }

  /** Padding yields `width` characters (or `s` unchanged if longer): fill characters, then `s`. */
  lemma {:induction false} PadStartSpec(s: string, width: nat, fill: char)
    ensures var r := PadStart(s, width, fill);
      |r| == (if |s| >= width then |s| else width)
      && r == Repeat(fill, |r| - |s|) + s
  {
    if |s| < width {
      PadStartSpec(s, width - 1, fill);
      var r' := PadStart(s, width - 1, fill);
      assert [fill] + Repeat(fill, |r'| - |s|) == Repeat(fill, |r'| + 1 - |s|);
    }
  }

  /** `k` copies of `c`. */
  function Repeat(c: char, k: nat): (r: string)
    ensures |r| == k && forall i :: 0 <= i < k ==> r[i] == c
  {
    if k == 0 then [] else [c] + Repeat(c, k - 1)
  }

  /** Leading zeros do not change the value of a digit string. */
  lemma {:induction false} LeadingZerosIgnored(k: nat, s: string)
    ensures DecimalValue(Repeat('0', k) + s) == DecimalValue(s)
    decreases k + |s|
  {
    var z := Repeat('0', k);
    if s == [] {
      assert z + s == z;
      if k > 0 {
        LeadingZerosIgnored(k - 1, []);
        assert z[..k - 1] == Repeat('0', k - 1) + [];
      }
    } else {
      LeadingZerosIgnored(k, s[..|s| - 1]);
      assert (z + s)[..|z + s| - 1] == z + s[..|s| - 1];
    }
  }

  /** `pad`: the decimal form of `n`, left-filled with '0' to at least two characters. */
  function Pad(n: nat): (p: string)
    ensures |p| >= 2 && (n < 100 ==> |p| == 2)
  {
    PadStart(NatToString(n), 2, '0')
  }

  /** A padded number has at least two characters, exactly two below 100, all of them digits. */
  lemma PadShape(n: nat)
    ensures |Pad(n)| >= 2 && (n < 100 ==> |Pad(n)| == 2)
    ensures forall i :: 0 <= i < |Pad(n)| ==> IsDigit(Pad(n)[i])
  {
    var s := NatToString(n);
    PadStartSpec(s, 2, '0');
    var z := Repeat('0', |Pad(n)| - |s|);
    forall i | 0 <= i < |Pad(n)|
      ensures IsDigit(Pad(n)[i])
    {
      if i >= |z| {
        assert Pad(n)[i] == s[i - |z|];
      }
    }
  }

  /** A padded number reads back as itself. */
  lemma PadReadsBack(n: nat)
    ensures DecimalValue(Pad(n)) == n
  {
    var s := NatToString(n);
    PadStartSpec(s, 2, '0');
    LeadingZerosIgnored(|Pad(n)| - |s|, s);
    NatToStringRoundTrip(n);
  }

  /** The timer text: "¡AHORA!" when due, otherwise MM:SS. */
  function CountdownText(c: Countdown): (text: string)
    ensures c.Due? <==> text == "¡AHORA!"
  {
    match c
    case Due => "¡AHORA!"
    case Remaining(m, s) =>
      PadShape(m);
      var text := Pad(m) + ":" + Pad(s);
      assert IsDigit(text[0]) && !IsDigit("¡AHORA!"[0]);
      text
  }

  /** The displayed MM:SS is five characters whose two fields read back as the minutes and seconds. */
  lemma CountdownTextReadsBack(lastUpdate: int, now: int)
    requires TimeLeft(lastUpdate, now) > 0
    ensures var c := CountdownOf(lastUpdate, now);
      var text := CountdownText(c);
      |text| == 5 && text[2] == ':'
      && (forall i :: 0 <= i < |text| && i != 2 ==> IsDigit(text[i]))
      && DecimalValue(text[..2]) == c.minutes && DecimalValue(text[3..]) == c.seconds
  {
    var c := CountdownOf(lastUpdate, now);
    var mm, ss := Pad(c.minutes), Pad(c.seconds);
    PadShape(c.minutes);
    PadShape(c.seconds);
    PadReadsBack(c.minutes);
    PadReadsBack(c.seconds);
    var text := mm + ":" + ss;
    assert text[..2] == mm;
    assert text[3..] == ss;
    forall i | 0 <= i < |text| && i != 2
      ensures IsDigit(text[i])
    {
      if i >= 3 {
        assert text[i] == ss[i - 3];
      }
    }
  }
}
