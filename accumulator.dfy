/**
  The elapsed-time accumulator of a periodic task. Each one-second tick adds
  one to `secondsSinceLastExecution`. Once the counter reaches the interval, the
  task executes and the counter goes back to 0. The interval is re-read on every
  tick, so changing it takes effect on the next tick without losing progress.
 */
module Accumulator {
  import opened Wrappers

  /** `elapsed >= interval` in JavaScript, where an interval of `None` is NaN and never reached. */
  predicate Reached(elapsed: int, interval: Option<int>) {
    interval.Some? && elapsed >= interval.value
  }

  datatype Tick = Tick(counter: nat, fired: bool)

  /** The counter after one tick, and whether that tick executed the task. */
  function Advance(counter: nat, interval: Option<int>): (t: Tick)
    ensures t.fired <==> Reached(counter + 1, interval)
    ensures interval.Some? && interval.value >= 1 ==> t.counter < interval.value
    ensures interval.Some? && counter >= interval.value ==> t.fired && t.counter == 0
  {
    var elapsed := counter + 1;
    if Reached(elapsed, interval) then Tick(0, true) else Tick(elapsed, false)
  }

  /** The counter and the number of executions after `n` ticks with a fixed interval. */
  function Run(counter: nat, interval: Option<int>, n: nat): (nat, nat) {
    if n == 0 then (counter, 0)
    else
      var (c, fires) := Run(counter, interval, n - 1);
      var t := Advance(c, interval);
      (t.counter, fires + if t.fired then 1 else 0)
  }

  lemma MulAtLeast(a: int, d: int)
    requires a >= 1 && d > 0
    ensures a * d >= d
  {
    assert a * d == (a - 1) * d + d;
    assert (a - 1) * d >= 0;
  }

  lemma DivModUnique(n: int, d: int, q: int, r: int)
    requires d > 0 && 0 <= r < d && n == q * d + r
    ensures n / d == q && n % d == r
  {
    var q', r' := n / d, n % d;
    assert n == q' * d + r';
    assert (q - q') * d == r' - r by {
      assert (q - q') * d == q * d - q' * d;
    }
    if q' > q {
      MulAtLeast(q' - q, d);
    } else if q' < q {
      MulAtLeast(q - q', d);
    }
  }

  lemma DivModNext(k: nat, d: int)
    requires d >= 1
    ensures k % d == d - 1 ==> (k + 1) % d == 0 && (k + 1) / d == k / d + 1
    ensures k % d != d - 1 ==> (k + 1) % d == k % d + 1 && (k + 1) / d == k / d
  {
    var q, r := k / d, k % d;
    if r == d - 1 {
      DivModUnique(k + 1, d, q + 1, 0);
    } else {
      DivModUnique(k + 1, d, q, r + 1);
    }
  }

  /**
    From counter `c` below a fixed interval `I` >= 1, `n` ticks leave the
    counter at `(c + n) % I` and execute the task `(c + n) / I` times. In
    particular, from 0 there are exactly `n / I` executions.
   */
  lemma {:induction false} RunOnSchedule(c: nat, interval: int, n: nat)
    requires 1 <= interval && c < interval
    ensures Run(c, Some(interval), n) == ((c + n) % interval, (c + n) / interval)
  {
    if n == 0 {
      DivModUnique(c, interval, 0, c);
    } else {
      RunOnSchedule(c, interval, n - 1);
      DivModNext(c + n - 1, interval);
    }
  }

  /** A tick executes the task at most once. */
  lemma {:induction false} AtMostOncePerTick(c: nat, interval: Option<int>, n: nat)
    ensures Run(c, interval, n).1 <= n
  {
    if n > 0 {
      AtMostOncePerTick(c, interval, n - 1);
    }
  }

  /** More ticks never mean fewer executions. */
  lemma {:induction false} FiresGrow(c: nat, interval: Option<int>, m: nat, n: nat)
    requires m <= n
    ensures Run(c, interval, m).1 <= Run(c, interval, n).1
  {
    if m < n {
      FiresGrow(c, interval, m, n - 1);
    }
  }

  /**
    A task active for at least one whole interval executes at least once,
    whatever its counter when it started: below the interval the schedule
    reaches it, at or above it the very first tick executes.
   */
  lemma FiresWithinInterval(c: nat, interval: int, n: nat)
    requires 1 <= interval <= n
    ensures Run(c, Some(interval), n).1 >= 1
  {
    if c < interval {
      RunOnSchedule(c, interval, n);
      DivModUnique(c + n, interval, (c + n) / interval, (c + n) % interval);
    } else {
      FiresGrow(c, Some(interval), 1, n);
    }
  }
}
