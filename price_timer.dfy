/** The countdown shown next to a quote: every second the remaining time
    drops by one; when it would reach zero the quote is refreshed (the
    `onUpdate` callback) and the countdown starts again from the interval.
    The remaining time is shown as minutes, a colon and two-digit seconds. */
module PriceTimer {
  import opened Common
  import Strings

  const DEFAULT_INTERVAL: int := 120

  /** One tick of the reducer: the next remaining time, and whether the
      refresh callback was called. */
  datatype TickResult = TickResult(timeLeft: int, fired: bool)

  function Tick(prev: int, interval: int): (r: TickResult)
    // the callback runs exactly when the countdown is at (or below) one
    ensures r.fired <==> prev <= 1
    ensures r.fired ==> r.timeLeft == interval
    ensures !r.fired ==> r.timeLeft == prev - 1
    // the range 1..interval is kept
    ensures 1 <= prev <= interval ==> 1 <= r.timeLeft <= interval
  {
    if prev <= 1 then TickResult(interval, true) else TickResult(prev - 1, false)
  }

  /** The remaining time after n ticks from `start`. */
  function After(start: int, interval: int, n: nat): int {
    if n == 0 then start else Tick(After(start, interval, n - 1), interval).timeLeft
  }

  /** How many times the callback ran during the first n ticks. */
  function Fired(start: int, interval: int, n: nat): nat {
    if n == 0 then 0
    else Fired(start, interval, n - 1) + (if Tick(After(start, interval, n - 1), interval).fired then 1 else 0)
  }

  lemma MulAtLeast(k: int, x: int)
    requires k >= 1 && x >= 1
    ensures k * x >= k
  {
    assert k * x == k + k * (x - 1);
  }

  /** Quotient and remainder are the only pair that rebuilds the dividend. */
  lemma DivModUnique(n: int, k: int, q: int, r: int)
    requires k >= 1 && 0 <= r < k && n == k * q + r
    ensures n / k == q && n % k == r
  {
    var d := q - n / k;
    assert k * d == n % k - r by {
      assert n == k * (n / k) + n % k;
      assert k * q - k * (n / k) == k * d;
    }
    if d >= 1 {
      MulAtLeast(k, d);
    } else if d <= -1 {
      MulAtLeast(k, -d);
    }
  }

  lemma ModStep(n: nat, k: int)
    requires k >= 1
    ensures n % k == k - 1 ==> (n + 1) % k == 0 && (n + 1) / k == n / k + 1
    ensures n % k != k - 1 ==> (n + 1) % k == n % k + 1 && (n + 1) / k == n / k
  {
    var q, r := n / k, n % k;
    assert n == k * q + r;
    if r == k - 1 {
      DivModUnique(n + 1, k, q + 1, 0);
    } else {
      DivModUnique(n + 1, k, q, r + 1);
    }
  }

  /** Started at the interval, the countdown after n ticks shows
      `interval - n mod interval`, and the callback has run once for every
      full interval: exactly `n div interval` times. */
  lemma {:induction false} Periodic(interval: int, n: nat)
    requires interval >= 1
    ensures After(interval, interval, n) == interval - n % interval
    ensures Fired(interval, interval, n) == n / interval
  {
    if n > 0 {
      Periodic(interval, n - 1);
      ModStep(n - 1, interval);
    }
  }

  /** JavaScript's `%`, whose remainder takes the sign of the dividend. */
  function JsRem(a: int, b: int): (r: int)
    requires b > 0
    ensures a >= 0 ==> 0 <= r < b
    ensures a < 0 ==> -b < r <= 0
  {
    if a >= 0 then a % b else -((-a) % b)
  }

  /** `${Math.floor(t / 60)}:${(t % 60).toString().padStart(2, '0')}` */
  function Display(timeLeft: int): string {
    Strings.IntToString(timeLeft / 60) + ":" + Strings.PadStart(Strings.IntToString(JsRem(timeLeft, 60)), 2, '0')
  }

  /** Two digits for a number of seconds below one minute. */
  lemma TwoDigits(s: nat)
    requires s < 60
    ensures var t := Strings.PadStart(Strings.NatToString(s), 2, '0');
      |t| == 2 && Strings.AllDigits(t) && Strings.DigitsValue(t) == s
  {
    var d := Strings.NatToString(s);
    if s < 10 {
      assert |d| == 1;
      Strings.LeadingZero(d);
      assert Strings.PadStart(d, 2, '0') == "0" + d;
    } else {
      assert d == Strings.NatToString(s / 10) + [Strings.DigitChar(s % 10)];
    }
  }

  /** The display of a non-negative time reads back as minutes and seconds
      that make up that time, with the seconds always two digits wide. */
  lemma {:induction false} DisplayReadsBack(timeLeft: nat)
    ensures var parts := Strings.Split(Display(timeLeft), ':');
      && |parts| == 2 && |parts[1]| == 2
      && Strings.ParseInt(parts[0]) == Some(timeLeft / 60)
      && Strings.ParseInt(parts[1]) == Some(timeLeft % 60)
      && 60 * (timeLeft / 60) + timeLeft % 60 == timeLeft
  {
    var minutes := Strings.NatToString(timeLeft / 60);
    var seconds := Strings.PadStart(Strings.NatToString(timeLeft % 60), 2, '0');
    TwoDigits(timeLeft % 60);
    assert Display(timeLeft) == Strings.Join([minutes, seconds], ':');
    assert Strings.Separated([minutes, seconds], ':') by {
      assert !Strings.IsDigit(':');
    }
    Strings.SplitJoin([minutes, seconds], ':');
    Strings.ParseIntOfNatToString(timeLeft / 60);
    Strings.ParseIntOfDigits(seconds);
  }

  /** The two-minute default shows as 2:00; the last second as 0:01. */
  lemma DisplayExamples()
    ensures Display(DEFAULT_INTERVAL) == "2:00"
    ensures Display(1) == "0:01"
  {
    assert Strings.IntToString(2) == "2" && Strings.IntToString(0) == "0" && Strings.IntToString(1) == "1";
    assert Strings.PadStart("0", 2, '0') == "00" && Strings.PadStart("1", 2, '0') == "01";
  }

  /** The component's countdown state, advanced by the once-a-second timer. */
  class Countdown {
    const interval: int
    var timeLeft: int

    predicate Valid()
      reads this
    {
      interval >= 1 ==> 1 <= timeLeft <= interval
    }

    /** The countdown starts at the interval. */
    constructor(interval: int)
      ensures this.interval == interval && timeLeft == interval
      ensures Valid()
    {
      this.interval := interval;
      timeLeft := interval;
    }

    /** One timer callback; `fired` tells whether `onUpdate` was called. */
    method OnTimer() returns (fired: bool)
      requires Valid()
      modifies this`timeLeft
      ensures Valid()
      ensures TickResult(timeLeft, fired) == Tick(old(timeLeft), interval)
    {
      if timeLeft <= 1 {
        fired := true;
        timeLeft := interval;
      } else {
        fired := false;
        timeLeft := timeLeft - 1;
      }
    }
  }
}
