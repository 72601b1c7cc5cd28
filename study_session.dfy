/**
 * src/StudySession.jsx: the countdown of one study session and the
 * `m:ss` rendering of the remaining time.
 *
 * The `setInterval` callback runs the updater given to `setTimeLeft` once a
 * second; here one call of `Countdown.Tick` is one such run. `running` is
 * true while the interval is installed: the updater clears it when it
 * completes, and the effect's cleanup clears it when the component is torn
 * down (which is what cancelling a session does).
 */
module StudySession {
  import opened Wrappers
  import opened Roster

  /** `useState(subject.duration * 60)`. */
  function InitialSeconds(s: Subject): (r: int)
    ensures r % 60 == 0 && r / 60 == s.duration
    ensures r > 0 <==> s.duration > 0
  {
    s.duration * 60
  }

  /** The countdown's state: seconds left, and whether the interval still fires. */
  datatype Timer = Timer(remaining: int, running: bool)

  /** What one delivery of the interval does: the next state, and whether `onComplete` was called. */
  datatype TickResult = TickResult(next: Timer, fired: bool)

  /**
   * One tick: with the interval cleared nothing happens; otherwise `prev <= 1`
   * clears the interval, calls `onComplete` and yields 0, and any other
   * `prev` yields `prev - 1`.
   */
  function Step(t: Timer): (r: TickResult)
    ensures !t.running ==> r == TickResult(t, false)
    ensures r.fired <==> t.running && !r.next.running
    ensures r.fired ==> r.next.remaining == 0 && t.remaining <= 1
    ensures t.running && !r.fired ==> r.next.remaining == t.remaining - 1 >= 1
  {
    if !t.running then TickResult(t, false)
    else if t.remaining <= 1 then TickResult(Timer(0, false), true)
    else TickResult(Timer(t.remaining - 1, true), false)
  }

  /** The state after `k` ticks, and how many of them called `onComplete`. */
  datatype RunResult = RunResult(final: Timer, fires: nat)

  function Run(t: Timer, k: nat): (r: RunResult)
    ensures r.final.running ==> t.running && r.fires == 0 && r.final.remaining == t.remaining - k
    decreases k
  {
    if k == 0 then RunResult(t, 0)
    else
      var s := Step(t);
      var rest := Run(s.next, k - 1);
      RunResult(rest.final, rest.fires + if s.fired then 1 else 0)
  }

  /** Once the interval is cleared, further deliveries change nothing and complete nothing. */
  lemma {:induction false} RunStopped(t: Timer, k: nat)
    requires !t.running
    ensures Run(t, k) == RunResult(t, 0)
  {
    if k > 0 { RunStopped(t, k - 1); }
  }

  /** From `m >= 1` seconds, `k < m` ticks count down to `m - k` without completing. */
  lemma {:induction false} RunCountsDown(m: int, k: nat)
    requires 1 <= m && k < m
    ensures Run(Timer(m, true), k) == RunResult(Timer(m - k, true), 0)
  {
    if k > 0 {
      RunCountsDown(m - 1, k - 1);
    }
  }

  /**
   * From any starting value `m`, once `max(m, 1)` ticks have been delivered the
   * countdown stands at 0, stopped, and `onComplete` has fired exactly once.
   */
  lemma {:induction false} RunCompletes(m: int, k: nat)
    requires k >= 1 && k >= m
    ensures Run(Timer(m, true), k) == RunResult(Timer(0, false), 1)
  {
    if m <= 1 {
      RunStopped(Timer(0, false), k - 1);
    } else {
      RunCompletes(m - 1, k - 1);
    }
  }

  /** The remaining time never goes below zero when it starts at zero or above. */
  lemma {:induction false} RunNonNegative(t: Timer, k: nat)
    requires t.remaining >= 0
    ensures Run(t, k).final.remaining >= 0
    ensures Run(t, k).fires <= 1
    decreases k
  {
    if k > 0 {
      RunNonNegative(Step(t).next, k - 1);
      if Step(t).fired { RunStopped(Step(t).next, k - 1); }
    }
  }

  /** A one-minute subject: 59 ticks leave one second, the 60th completes it, once. */
  lemma OneMinuteSession(id: string, name: string)
    ensures InitialSeconds(Subject(id, name, 1)) == 60
    ensures Run(Timer(60, true), 59) == RunResult(Timer(1, true), 0)
    ensures Run(Timer(60, true), 60) == RunResult(Timer(0, false), 1)
  {
    RunCountsDown(60, 59);
    RunCompletes(60, 60);
  }

  /** The mounted `StudySession` component's countdown. */
  class Countdown {
    var remaining: int
    var running: bool
    /** How many times `onComplete` has been called. */
    ghost var fired: nat

    /** `onComplete` fires at most once, and only as the countdown stops at zero. */
    ghost predicate Valid()
      reads this
    {
      fired <= 1 && (fired == 1 ==> !running && remaining == 0)
    }

    function State(): Timer
      reads this
    {
      Timer(remaining, running)
    }

    /** Mounting the component: `timeLeft` starts at `InitialSeconds(subject)` and the interval is installed. */
    constructor (subject: Subject)
      ensures Valid()
      ensures remaining == InitialSeconds(subject) && running && fired == 0
    {
      remaining := InitialSeconds(subject);
      running := true;
      fired := 0;
    }

    /** One delivery of the interval; `completed` says whether it called `onComplete`. */
    method Tick() returns (completed: bool)
      requires Valid()
      modifies this
      ensures Valid()
      ensures TickResult(State(), completed) == Step(old(State()))
      ensures fired == old(fired) + if completed then 1 else 0
    {
      completed := false;
      if running {
        if remaining <= 1 {
          running := false;
          completed := true;
          fired := fired + 1;
          remaining := 0;
        } else {
          remaining := remaining - 1;
        }
      }
    }

    /** The effect's cleanup, `clearInterval(timer)`, run when the component unmounts. */
    method Teardown()
      requires Valid()
      modifies this
      ensures Valid()
      ensures remaining == old(remaining) && !running && fired == old(fired)
    {
      running := false;
    }
  }

  predicate IsDigit(c: char) { '0' <= c <= '9' }

  predicate AllDigits(s: string) { forall i :: 0 <= i < |s| ==> IsDigit(s[i]) }

  function DigitChar(d: nat): (c: char)
    requires d < 10
    ensures IsDigit(c) && c as int - '0' as int == d
  {
    (d + '0' as int) as char
  }

  /** The decimal text JavaScript gives a non-negative integer. */
  function Decimal(n: nat): (s: string)
    ensures |s| >= 1 && AllDigits(s)
    decreases n
  {
    if n < 10 then [DigitChar(n)] else Decimal(n / 10) + [DigitChar(n % 10)]
  }

  function DigitValue(c: char): nat
    requires IsDigit(c)
  {
    c as int - '0' as int
  }

  /** Reading a string of digits as a number. */
  function ParseDecimal(s: string): nat
    requires AllDigits(s)
  {
    if s == [] then 0 else ParseDecimal(s[..|s| - 1]) * 10 + DigitValue(s[|s| - 1])
  }

  lemma {:induction false} DecimalRoundTrip(n: nat)
    ensures ParseDecimal(Decimal(n)) == n
  {
    if n >= 10 {
      DecimalRoundTrip(n / 10);
      var s := Decimal(n);
      assert s[..|s| - 1] == Decimal(n / 10);
    }
  }

  /** The text of an integer in a template literal. */
  function NumberText(i: int): string
  {
    if i < 0 then "-" + Decimal(-i) else Decimal(i)
  }

  /** JavaScript's `a % b` for `b > 0`: the remainder takes the sign of `a`. */
  function JsRem(a: int, b: int): (r: int)
    requires b > 0
    ensures a >= 0 ==> r == a % b
    ensures a < 0 ==> -b < r <= 0 && r == -((-a) % b)
  {
    if a >= 0 then a % b else -((-a) % b)
  }

  /** The seconds part of `formatTime`: `${secs < 10 ? '0' : ''}${secs}`. */
  function Padded(secs: int): string
  {
    (if secs < 10 then "0" else "") + NumberText(secs)
  }

  /**
   * `formatTime(seconds)`: `Math.floor(seconds / 60)`, a colon, and
   * `seconds % 60` preceded by a `0` when it is below 10.
   */
  function FormatTime(seconds: int): (r: string)
    ensures |r| >= 3
    ensures r[0] == '-' <==> seconds < 0
  {
    NumberText(seconds / 60) + ":" + Padded(JsRem(seconds, 60))
  }

  /** Reads `m:ss` back as a number of seconds; `None` when the text does not have that shape. */
  function ParseTime(t: string): Option<int>
  {
    if |t| >= 4 && t[|t| - 3] == ':' && AllDigits(t[..|t| - 3]) && AllDigits(t[|t| - 2..])
    then Some(ParseDecimal(t[..|t| - 3]) * 60 + ParseDecimal(t[|t| - 2..]))
    else None
  }

  /** The seconds field: below 60, padded to exactly two digits that read back as the value. */
  lemma PaddedSeconds(secs: nat)
    requires secs < 60
    ensures |Padded(secs)| == 2 && AllDigits(Padded(secs)) && ParseDecimal(Padded(secs)) == secs
  {
    var ss := Padded(secs);
    DecimalRoundTrip(secs);
    if secs < 10 {
      assert ss == [DigitChar(0), DigitChar(secs)];
      assert ss[..1] == [DigitChar(0)];
    } else {
      assert Decimal(secs / 10) == [DigitChar(secs / 10)];
    }
  }

  /** Splitting `m:ss` at its colon gives back the minutes and the two-digit seconds. */
  lemma ParseJoined(m: string, ss: string)
    requires |m| >= 1 && AllDigits(m) && |ss| == 2 && AllDigits(ss)
    ensures var t := m + ":" + ss;
      && |t| >= 4 && t[|t| - 3] == ':' && t[..|t| - 3] == m && t[|t| - 2..] == ss
      && ParseTime(t) == Some(ParseDecimal(m) * 60 + ParseDecimal(ss))
  {
    var t := m + ":" + ss;
    assert t[|t| - 3] == ':' && t[..|t| - 3] == m && t[|t| - 2..] == ss by {
      assert |t| == |m| + 3;
    }
  }

  /**
   * For a non-negative count, `formatTime` writes the whole minutes, a colon
   * and exactly two digits of seconds, and reading that back gives the count.
   */
  lemma FormatTimeRoundTrip(seconds: nat)
    ensures var t := FormatTime(seconds);
      && |t| >= 4 && t[|t| - 3] == ':'
      && t[..|t| - 3] == Decimal(seconds / 60)
      && AllDigits(t[|t| - 2..]) && ParseDecimal(t[|t| - 2..]) == seconds % 60
      && ParseTime(t) == Some(seconds)
  {
    var mins, secs := seconds / 60, seconds % 60;
    assert mins * 60 + secs == seconds;
    assert FormatTime(seconds) == Decimal(mins) + ":" + Padded(secs);
    PaddedSeconds(secs);
    ParseJoined(Decimal(mins), Padded(secs));
    DecimalRoundTrip(mins);
  }

  /** A negative count, reachable only from a negative duration, renders both parts with a sign. */
  lemma FormatTimeNegative()
    ensures FormatTime(-90) == "-2:0-30"
  {
    assert Decimal(2) == "2";
    assert Decimal(30) == "30" by { assert Decimal(3) == "3"; assert Decimal(0) == "0"; }
  }
}
