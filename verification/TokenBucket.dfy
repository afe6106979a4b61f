/**
 * `_TokenBucketRateLimiter` (services/broadcast_worker.py) over real arithmetic. Calls to `acquire`
 * are serialised by the limiter's lock, so a run is a sequence of calls; between two checks of the
 * clock any amount of time may pass.
 */
module TokenBucket {
  import opened Wrappers

  /** The monotonic clock and `asyncio.sleep`, which never wakes up early. */
  class Clock {
    var now: real

    constructor (start: real)
      ensures now == start
    {
      now := start;
    }

    method Read() returns (t: real)
      modifies this
      ensures old(now) <= now == t
    {
      var passed: real :| passed >= 0.0;
      now := now + passed;
      t := now;
    }

    method Sleep(duration: real)
      requires duration >= 0.0
      modifies this
      ensures now >= old(now) + duration
    {
      var late: real :| late >= 0.0;
      now := now + duration + late;
    }
  }

  /** `amount` tokens handed out at `time`. */
  datatype Grant = Grant(time: real, amount: real)

  function Total(log: seq<Grant>): real {
    if log == [] then 0.0 else log[0].amount + Total(log[1..])
  }

  /** What was handed out in the window from `start` to `end`, both included. */
  function InWindow(log: seq<Grant>, start: real, end: real): real {
    if log == [] then 0.0
    else (if start <= log[0].time <= end then log[0].amount else 0.0) + InWindow(log[1..], start, end)
  }

  /** The bucket level after `elapsed` time, starting from `level`. */
  function Level(level: real, elapsed: real, rate: real, capacity: real): real {
    if level + elapsed * rate < capacity then level + elapsed * rate else capacity
  }

  /** Grants in order of time, none of them negative, none after `last`. */
  predicate Chronicle(log: seq<Grant>, last: real) {
    && (forall i, j :: 0 <= i <= j < |log| ==> log[i].time <= log[j].time)
    && (forall i :: 0 <= i < |log| ==> log[i].time <= last && log[i].amount >= 0.0)
  }

  /** What the bucket can have handed out between two instants, at the most. */
  function Allowance(from: real, to: real, rate: real, capacity: real): real {
    capacity + rate * (to - from)
  }

  predicate BoundedAt(log: seq<Grant>, i: int, j: int, rate: real, capacity: real)
    requires 0 <= i < j <= |log|
  {
    Total(log[i..j]) <= Allowance(log[i].time, log[j - 1].time, rate, capacity)
  }

  predicate BackedAt(log: seq<Grant>, i: int, level: real, last: real, rate: real, capacity: real)
    requires 0 <= i < |log|
  {
    Total(log[i..]) + level <= Allowance(log[i].time, last, rate, capacity)
  }

  /** Between any two grants the bucket cannot have handed out more than it held and was refilled. */
  ghost predicate Bounded(log: seq<Grant>, rate: real, capacity: real) {
    forall i, j :: 0 <= i < j <= |log| ==> BoundedAt(log, i, j, rate, capacity)
  }

  /** The level still in the bucket counts towards the same bound. */
  ghost predicate Backed(log: seq<Grant>, level: real, last: real, rate: real, capacity: real) {
    forall i :: 0 <= i < |log| ==> BackedAt(log, i, level, last, rate, capacity)
  }

  lemma {:induction false} TotalAppend(x: seq<Grant>, y: seq<Grant>)
    ensures Total(x + y) == Total(x) + Total(y)
  {
    if x == [] {
      assert x + y == y;
    } else {
      assert (x + y)[1..] == x[1..] + y;
      TotalAppend(x[1..], y);
    }
  }

  lemma MulMonotone(rate: real, a: real, b: real)
    requires rate >= 0.0 && a <= b
    ensures rate * a <= rate * b
  {
  }

  lemma AllowanceGrows(from: real, last: real, now: real, rate: real, capacity: real)
    ensures Allowance(from, now, rate, capacity) == Allowance(from, last, rate, capacity) + (now - last) * rate
  {
  }

  lemma RefillKeepsBacked(log: seq<Grant>, level: real, last: real, now: real, rate: real, capacity: real)
    requires Backed(log, level, last, rate, capacity)
    ensures Backed(log, Level(level, now - last, rate, capacity), now, rate, capacity)
  {
    var refilled := Level(level, now - last, rate, capacity);
    forall i | 0 <= i < |log| ensures BackedAt(log, i, refilled, now, rate, capacity) {
      assert BackedAt(log, i, level, last, rate, capacity);
      AllowanceGrows(log[i].time, last, now, rate, capacity);
    }
  }

  lemma BackedAfterGrant(log: seq<Grant>, level: real, now: real, n: real, rate: real, capacity: real, i: nat)
    requires Backed(log, level, now, rate, capacity) && n <= level <= capacity && i <= |log|
    ensures BackedAt(log + [Grant(now, n)], i, level - n, now, rate, capacity)
  {
    var more := log + [Grant(now, n)];
    assert more[i..] == log[i..] + [Grant(now, n)];
    TotalAppend(log[i..], [Grant(now, n)]);
    if i < |log| {
      assert BackedAt(log, i, level, now, rate, capacity);
    } else {
      assert log[i..] == [];
      assert Allowance(now, now, rate, capacity) == capacity;
    }
  }

  lemma GrantKeepsBounded(log: seq<Grant>, level: real, now: real, n: real, rate: real, capacity: real)
    requires Bounded(log, rate, capacity) && Backed(log, level, now, rate, capacity)
    requires n <= level <= capacity
    ensures Bounded(log + [Grant(now, n)], rate, capacity)
    ensures Backed(log + [Grant(now, n)], level - n, now, rate, capacity)
  {
    var more := log + [Grant(now, n)];
    var left := level - n;
    forall i | 0 <= i < |more| ensures BackedAt(more, i, left, now, rate, capacity) {
      BackedAfterGrant(log, level, now, n, rate, capacity, i);
    }
    forall i, j | 0 <= i < j <= |more| ensures BoundedAt(more, i, j, rate, capacity) {
      if j <= |log| {
        assert more[i..j] == log[i..j];
        assert BoundedAt(log, i, j, rate, capacity);
      } else {
        assert more[i..j] == more[i..];
        BackedAfterGrant(log, level, now, n, rate, capacity, i);
      }
    }
  }

  /**
   * A window that starts at or after the first grant of a suffix: cut off what lies before the
   * window, then what lies after it.
   */
  lemma {:induction false} WindowIsSlice(log: seq<Grant>, last: real, start: real, end: real)
    returns (i: nat, j: nat)
    requires Chronicle(log, last)
    ensures i <= j <= |log| && InWindow(log, start, end) == Total(log[i..j])
    ensures i < j ==> start <= log[i].time && log[j - 1].time <= end
  {
    if log == [] {
      i, j := 0, 0;
    } else if log[0].time < start {
      i, j := WindowIsSlice(log[1..], last, start, end);
      assert log[1..][i..j] == log[i + 1..j + 1];
      i, j := i + 1, j + 1;
    } else {
      i := 0;
      j := PrefixUpTo(log, last, start, end);
      assert log[0..j] == log[..j];
    }
  }

  lemma {:induction false} PrefixUpTo(log: seq<Grant>, last: real, start: real, end: real) returns (j: nat)
    requires Chronicle(log, last) && (log != [] ==> start <= log[0].time)
    ensures j <= |log| && InWindow(log, start, end) == Total(log[..j])
    ensures j > 0 ==> log[j - 1].time <= end
  {
    if log == [] {
      j := 0;
    } else {
      j := PrefixUpTo(log[1..], last, start, end);
      if log[0].time <= end {
        assert log[..j + 1][1..] == log[1..][..j];
        j := j + 1;
      } else {
        assert j == 0;
      }
    }
  }

  lemma AllowanceMonotone(from: real, to: real, start: real, end: real, rate: real, capacity: real)
    requires start <= from && to <= end && rate > 0.0
    ensures Allowance(from, to, rate, capacity) <= Allowance(start, end, rate, capacity)
    ensures Allowance(start, start, rate, capacity) == capacity
  {
    MulMonotone(rate, to - from, end - start);
  }

  /** In any window the limiter hands out at most its capacity plus what the window refills. */
  lemma WindowBound(log: seq<Grant>, last: real, rate: real, capacity: real, start: real, end: real)
    requires Chronicle(log, last) && Bounded(log, rate, capacity)
    requires rate > 0.0 && capacity >= 0.0 && start <= end
    ensures InWindow(log, start, end) <= Allowance(start, end, rate, capacity)
  {
    var i, j := WindowIsSlice(log, last, start, end);
    if i < j {
      assert BoundedAt(log, i, j, rate, capacity);
      AllowanceMonotone(log[i].time, log[j - 1].time, start, end, rate, capacity);
    } else {
      assert log[i..j] == [];
      AllowanceMonotone(start, start, start, end, rate, capacity);
    }
  }

  /**
   * After a sleep of at least the deficit divided by the rate, the next check succeeds exactly for
   * requests within the capacity: larger requests never do.
   */
  lemma SleepIsEnough(level: real, n: real, elapsed: real, rate: real, capacity: real)
    requires 0.0 <= level <= capacity && rate > 0.0 && level < n
    requires elapsed >= (n - level) / rate
    ensures Level(level, elapsed, rate, capacity) >= n <==> n <= capacity
  {
    var d := (n - level) / rate;
    assert d * rate == n - level;
    MulMonotone(rate, d, elapsed);
    assert elapsed * rate >= n - level;
  }

  /** Two refills in a row act like one. */
  lemma RefillTwice(level: real, a: real, b: real, rate: real, capacity: real)
    requires a >= 0.0 && b >= 0.0 && rate > 0.0
    ensures Level(Level(level, a, rate, capacity), b, rate, capacity) == Level(level, a + b, rate, capacity)
  {
    assert (a + b) * rate == a * rate + b * rate;
    MulMonotone(rate, 0.0, b);
    assert b * rate >= 0.0;
  }

  class RateLimiter {
    const rate: real
    const capacity: real
    const clock: Clock
    var tokens: real
    var lastRefill: real
    /** Everything handed out so far. */
    ghost var log: seq<Grant>

    ghost predicate Valid()
      reads this, clock
    {
      && rate > 0.0
      && 0.0 <= tokens <= capacity
      && lastRefill <= clock.now
      && Chronicle(log, lastRefill)
      && Bounded(log, rate, capacity)
      && Backed(log, tokens, lastRefill, rate, capacity)
    }

    constructor (rate: real, capacity: Option<real>, clock: Clock)
      requires rate > 0.0 && (capacity.Some? ==> capacity.value >= 0.0)
      ensures Valid() && log == [] && this.clock == clock && this.rate == rate
      ensures this.capacity == (if capacity.Some? then capacity.value else rate) == tokens
    {
      this.rate := rate;
      this.capacity := if capacity.Some? then capacity.value else rate;
      this.clock := clock;
      tokens := if capacity.Some? then capacity.value else rate;
      lastRefill := clock.now;
      log := [];
    }

    /** The refill at the start of every check. */
    method Refill()
      requires Valid()
      modifies this, clock
      ensures Valid() && log == old(log)
      ensures lastRefill == clock.now >= old(clock.now)
      ensures tokens == Level(old(tokens), lastRefill - old(lastRefill), rate, capacity)
    {
      var now := clock.Read();
      var elapsed := now - lastRefill;
      RefillKeepsBacked(log, tokens, lastRefill, now, rate, capacity);
      MulMonotone(rate, 0.0, elapsed);
      tokens := if capacity < tokens + elapsed * rate then capacity else tokens + elapsed * rate;
      lastRefill := now;
    }

    /**
     * Waits until `n` tokens are there and takes them. The level left behind is the one a single
     * refill over the whole wait would give, the bucket is checked at most twice, and the time asked
     * for in sleeps is at most what refilling the tokens missing at the call takes.
     */
    method Acquire(n: real) returns (ghost checks: nat, ghost slept: real)
      requires Valid() && 0.0 <= n <= capacity
      modifies this, clock
      ensures Valid()
      ensures log == old(log) + [Grant(lastRefill, n)]
      ensures tokens == Level(old(tokens), lastRefill - old(lastRefill), rate, capacity) - n
      ensures checks <= 2
      ensures old(tokens) >= n ==> checks == 1 && slept == 0.0
      ensures old(tokens) < n ==> 0.0 <= slept <= (n - old(tokens)) / rate
    {
      checks, slept := 0, 0.0;
      assert 0.0 * rate == 0.0;
      while true
        invariant Valid() && log == old(log) && old(lastRefill) <= lastRefill
        invariant tokens == Level(old(tokens), lastRefill - old(lastRefill), rate, capacity)
        invariant checks <= 1
        invariant checks == 0 ==> slept == 0.0 && tokens == old(tokens) && lastRefill == old(lastRefill)
        invariant checks == 1 ==> old(tokens) < n && 0.0 <= slept <= (n - old(tokens)) / rate
        invariant checks == 1 ==> tokens < n && clock.now >= lastRefill + (n - tokens) / rate
        decreases 1 - checks
      {
        ghost var level, last := tokens, lastRefill;
        Refill();
        RefillTwice(old(tokens), last - old(lastRefill), lastRefill - last, rate, capacity);
        if checks == 1 {
          SleepIsEnough(level, n, lastRefill - last, rate, capacity);
        }
        checks := checks + 1;
        if tokens >= n {
          GrantKeepsBounded(log, tokens, lastRefill, n, rate, capacity);
          tokens := tokens - n;
          log := log + [Grant(lastRefill, n)];
          return;
        }
        var deficit := n - tokens;
        var sleepTime := deficit / rate;
        DivisionUndone(deficit, rate);
        LevelGrows(old(tokens), lastRefill - old(lastRefill), rate, capacity);
        DivisionMonotone(deficit, n - old(tokens), rate);
        clock.Sleep(sleepTime);
        slept := slept + sleepTime;
      }
    }
  }

  lemma DivisionUndone(d: real, rate: real)
    requires rate > 0.0 && d >= 0.0
    ensures d / rate * rate == d && d / rate >= 0.0
  {
  }

  lemma LevelGrows(level: real, elapsed: real, rate: real, capacity: real)
    requires level <= capacity && elapsed >= 0.0 && rate > 0.0
    ensures Level(level, elapsed, rate, capacity) >= level
  {
    MulMonotone(rate, 0.0, elapsed);
  }

  lemma DivisionMonotone(a: real, b: real, rate: real)
    requires a <= b && rate > 0.0
    ensures a / rate <= b / rate
  {
  }
}
