/** The time helpers of roboclic.py:49-70 on integer inputs: `get_time`, the
    split done by `countdown`, and the text of `progression_bar`. */
module Timing {

  const SecondsPerDay: int := 24 * 60 * 60

  /** A `datetime.timedelta` as Python normalises it: whole days (possibly
      negative) and a second count within the day. Microseconds are left out. */
  datatype Delta = Delta(days: int, seconds: int)

  predicate Normalised(d: Delta) {
    0 <= d.seconds < SecondsPerDay
  }

  /** `get_time`: the number of seconds in the interval. */
  function GetTime(d: Delta): (t: int)
    ensures Normalised(d) ==> d.days * SecondsPerDay <= t < (d.days + 1) * SecondsPerDay
  {
    d.days * SecondsPerDay + d.seconds
  }

  /** The interval of `t` seconds, as `timedelta(seconds=t)` normalises it
      (floor division by a day; Dafny's `/` and `%` agree with Python's for a
      positive divisor). */
  function FromSeconds(t: int): (d: Delta)
    ensures Normalised(d)
  {
    Delta(t / SecondsPerDay, t % SecondsPerDay)
  }

  /** `get_time` and normalisation are inverse to each other. */
  lemma GetTimeRoundTrip(t: int, d: Delta)
    requires Normalised(d)
    ensures GetTime(FromSeconds(t)) == t
    ensures FromSeconds(GetTime(d)) == d
  {
  }

  /** `countdown`'s result `(days, hours, minutes)`. */
  datatype Remaining = Remaining(days: int, hours: int, minutes: int)

  /** The days of the interval, the whole hours of its second count, and the
      whole minutes left over after those hours. */
  function Countdown(d: Delta): (r: Remaining)
    requires Normalised(d)
    ensures r.days == d.days && 0 <= r.hours < 24 && 0 <= r.minutes < 60
    ensures 0 <= GetTime(d) - (r.days * SecondsPerDay + r.hours * 3600 + r.minutes * 60) < 60
  {
    Remaining(d.days, d.seconds / 3600, d.seconds % 3600 / 60)
  }

  /** Number of tiles of the progress bar. */
  const Total: int := 25

  /** `c * n`: empty for a count of zero or less. */
  function Repeat(c: char, n: int): (s: string)
    ensures |s| == if n <= 0 then 0 else n
    ensures forall i :: 0 <= i < |s| ==> s[i] == c
  {
    if n <= 0 then [] else [c] + Repeat(c, n - 1)
  }

  /** `progression_bar` given the already rounded `round(percent / 4)`. */
  function ProgressionBar(rounded: int): (bar: string)
    ensures |bar| == Total + 2 + (if rounded < 0 then -rounded else 0)
    ensures bar[0] == '[' && bar[|bar| - 1] == ']'
    ensures forall i :: 0 < i < |bar| - 1 ==> bar[i] in {'#', '-'}
  {
    var tiles := if rounded < Total then rounded else Total;
    "[" + Repeat('#', tiles) + Repeat('-', Total - tiles) + "]"
  }

  /** The number of filled tiles in a bar. */
  function Filled(bar: string): nat {
    if bar == [] then 0 else (if bar[0] == '#' then 1 else 0) + Filled(bar[1..])
  }

  lemma {:induction false} FilledAppend(a: string, b: string)
    ensures Filled(a + b) == Filled(a) + Filled(b)
  {
    if a == [] {
      assert a + b == b;
    } else {
      FilledAppend(a[1..], b);
      assert (a + b)[1..] == a[1..] + b;
    }
  }

  lemma {:induction false} FilledRepeat(c: char, n: int)
    ensures Filled(Repeat(c, n)) == if c == '#' && n > 0 then n else 0
  {
    if n > 0 {
      FilledRepeat(c, n - 1);
    }
  }

  /** For a non-negative rounded percentage the bar is 27 characters between
      brackets, with `min(25, rounded)` filled tiles followed by the empty
      ones; a negative one gives no filled tile and more than 25 empty ones. */
  lemma ProgressionBarShape(rounded: int)
    ensures var bar := ProgressionBar(rounded);
      var tiles := if rounded < 0 then 0 else if rounded < Total then rounded else Total;
      && bar[0] == '[' && bar[|bar| - 1] == ']'
      && Filled(bar) == tiles
      && (rounded >= 0 ==> |bar| == Total + 2)
      && (rounded < 0 ==> |bar| == Total + 2 - rounded)
      && (forall i :: 1 <= i <= tiles ==> bar[i] == '#')
      && (forall i :: tiles < i < |bar| - 1 ==> bar[i] == '-')
  {
    var t := if rounded < Total then rounded else Total;
    var bar := ProgressionBar(rounded);
    FilledAppend("[" + Repeat('#', t) + Repeat('-', Total - t), "]");
    FilledAppend("[" + Repeat('#', t), Repeat('-', Total - t));
    FilledAppend("[", Repeat('#', t));
    FilledRepeat('#', t);
    FilledRepeat('-', Total - t);
  }
}
