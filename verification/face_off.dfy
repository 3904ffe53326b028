/**
 * The face-off card: two candidates' tallies, their percentages with an
 * even 50/50 split before any vote, and the `m:ss` countdown.
 */
module FaceOffCard {
  import opened Wrappers
  import Tally

  datatype Side = Candidate1 | Candidate2

  function TotalVotes(votes1: nat, votes2: nat): (total: nat)
    ensures votes1 <= total && votes2 <= total
    ensures total == 0 <==> votes1 == 0 && votes2 == 0
  {
    votes1 + votes2
  }

  /** The percentage shown for a candidate; 50 for both before anyone has voted. */
  function Percentage(votes1: nat, votes2: nat, side: Side): (pct: real)
    ensures 0.0 <= pct <= 100.0
    ensures TotalVotes(votes1, votes2) == 0 ==> pct == 50.0
  {
    var mine := if side == Candidate1 then votes1 else votes2;
    Tally.Percentage(mine, TotalVotes(votes1, votes2), 50.0)
  }

  /** The two candidates' percentages always add up to 100, with or without votes. */
  lemma PercentagesSumTo100(votes1: nat, votes2: nat)
    ensures Percentage(votes1, votes2, Candidate1) + Percentage(votes1, votes2, Candidate2) == 100.0
  {
    if TotalVotes(votes1, votes2) > 0 {
      Tally.PercentagesAdd(votes1, votes2, TotalVotes(votes1, votes2), 50.0);
      Tally.PercentageOfTotal(TotalVotes(votes1, votes2), 50.0);
    }
  }

  // Decimal text of natural numbers, as `Number.prototype.toString` writes them.

  predicate IsDigit(c: char) {
    '0' <= c <= '9'
  }

  function Digit(d: nat): (c: char)
    requires d < 10
    ensures IsDigit(c)
  {
    (48 + d) as char
  }

  function Decimal(n: nat): (s: string)
    ensures 1 <= |s|
    ensures n < 10 ==> |s| == 1
    ensures 10 <= n < 100 ==> |s| == 2
    ensures s[0] == '0' ==> n == 0
  {
    if n < 10 then [Digit(n)] else Decimal(n / 10) + [Digit(n % 10)]
  }

  /** The value of a string of decimal digits (leading zeros allowed), or `None` if some character is not a digit. */
  function ParseDecimal(s: string): Option<nat> {
    if s == [] then Some(0)
    else if !IsDigit(s[|s| - 1]) then None
    else match ParseDecimal(s[..|s| - 1])
      case None => None
      case Some(init) => Some(init * 10 + (s[|s| - 1] as int - 48))
  }

  /** Decimal text reads back as the number written. */
  lemma {:induction false} DecimalRoundTrip(n: nat)
    ensures ParseDecimal(Decimal(n)) == Some(n)
  {
    if n >= 10 {
      var s := Decimal(n);
      assert s[..|s| - 1] == Decimal(n / 10);
      DecimalRoundTrip(n / 10);
    }
  }

  /** `n` copies of `c`. */
  function Repeat(c: char, n: nat): (r: string)
    ensures |r| == n && forall i :: 0 <= i < n ==> r[i] == c
  {
    if n == 0 then [] else [c] + Repeat(c, n - 1)
  }

  /** `s.padStart(width, pad)`. */
  function PadStart(s: string, width: nat, pad: char): (r: string)
    ensures |r| == if |s| >= width then |s| else width
    ensures r[|r| - |s|..] == s
    ensures forall i :: 0 <= i < |r| - |s| ==> r[i] == pad
  {
    if |s| >= width then s else Repeat(pad, width - |s|) + s
  }

  /**
   * `${Math.floor(t / 60)}:${(t % 60).toString().padStart(2, '0')}`: at least
   * one digit of minutes, a colon, then two characters of seconds.
   */
  function Clock(t: nat): (s: string)
    ensures |s| >= 4 && s[|s| - 3] == ':'
  {
    Decimal(t / 60) + [':'] + PadStart(Decimal(t % 60), 2, '0')
  }

  /**
   * What the card renders for `{timeLeft && timeLeft > 0 && (...)}`: nothing
   * when no `timeLeft` is given or it is negative, the bare number 0 when it
   * is 0 (a falsy number is rendered as text), and the countdown block otherwise.
   */
  datatype CountdownView = NoCountdown | StrayZero | TimeLeft(clock: string)

  function Countdown(timeLeft: Option<int>): (shown: CountdownView)
    ensures shown.TimeLeft? <==> timeLeft.Some? && timeLeft.value > 0
    ensures shown == StrayZero <==> timeLeft == Some(0)
    ensures shown.TimeLeft? ==> ParseClock(shown.clock) == Some(timeLeft.value)
  {
    if timeLeft.None? || timeLeft.value < 0 then NoCountdown
    else if timeLeft.value == 0 then StrayZero
    else
      ClockRoundTrip(timeLeft.value);
      TimeLeft(Clock(timeLeft.value))
  }

  /** Reads an `m:ss` countdown back into seconds; seconds of 60 or more are refused. */
  function ParseClock(s: string): Option<nat> {
    if |s| < 4 || s[|s| - 3] != ':' then None
    else
      var minutes := ParseDecimal(s[..|s| - 3]);
      var seconds := ParseDecimal(s[|s| - 2..]);
      if minutes.Some? && seconds.Some? && seconds.value < 60 then Some(minutes.value * 60 + seconds.value) else None
  }

  /** Seconds below 100, padded, are exactly two characters that read back as the seconds. */
  lemma TwoDigitsRoundTrip(n: nat)
    requires n < 100
    ensures |PadStart(Decimal(n), 2, '0')| == 2
    ensures ParseDecimal(PadStart(Decimal(n), 2, '0')) == Some(n)
  {
    DecimalRoundTrip(n);
    var d := Decimal(n);
    var p := PadStart(d, 2, '0');
    if n < 10 {
      assert p == ['0'] + d;
      assert p[..1] == ['0'];
      assert ParseDecimal(p[..1]) == Some(0);
    } else {
      assert p == d;
    }
  }

  /** Minutes, a colon and two characters of seconds below 60 read back from their parts. */
  lemma ParseClockOfParts(m: string, sec: string, minutes: nat, seconds: nat)
    requires 1 <= |m| && |sec| == 2 && seconds < 60
    requires ParseDecimal(m) == Some(minutes) && ParseDecimal(sec) == Some(seconds)
    ensures var s := m + [':'] + sec;
      && s[..|s| - 3] == m && s[|s| - 2..] == sec
      && ParseClock(s) == Some(minutes * 60 + seconds)
  {
    var s := m + [':'] + sec;
    assert s[..|s| - 3] == m;
    assert s[|s| - 2..] == sec;
  }

  lemma MinutesAndSeconds(t: nat)
    ensures (t / 60) * 60 + t % 60 == t && t % 60 < 60
  {
  }

  /**
   * The countdown shows the whole minutes `t / 60` before the colon and the
   * seconds `t % 60` as two digits after it, so reading it back gives the time left.
   */
  lemma ClockRoundTrip(t: nat)
    ensures var s := Clock(t);
      && ParseDecimal(s[..|s| - 3]) == Some(t / 60)
      && ParseDecimal(s[|s| - 2..]) == Some(t % 60)
      && ParseClock(s) == Some(t)
  {
    var q, r := t / 60, t % 60;
    var m, sec := Decimal(q), PadStart(Decimal(r), 2, '0');
    assert Clock(t) == m + [':'] + sec;
    MinutesAndSeconds(t);
    TwoDigitsRoundTrip(r);
    DecimalRoundTrip(q);
    ParseClockOfParts(m, sec, q, r);
  }
}
