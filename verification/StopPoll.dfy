/**
 Waiting for processes to end (utils/start-stop-daemon.c, `do_stop_timeout`):
 the polls get rarer as they get slower, no pause is shorter than 20 ms, and the
 whole wait is bounded.
 */
module StopPoll {

  const NANOSEC_IN_SEC: int := 1_000_000_000
  const MIN_POLL_INTERVAL: int := 20_000_000
  const LONG_MAX: int := 0x7fff_ffff_ffff_ffff

  datatype Timespec = Timespec(sec: int, nsec: int)

  predicate Normal(t: Timespec) { 0 <= t.nsec < NANOSEC_IN_SEC }

  function Nanos(t: Timespec): int { t.sec * NANOSEC_IN_SEC + t.nsec }

  function FromNanos(n: nat): (t: Timespec)
    ensures Normal(t) && Nanos(t) == n
  {
    Timespec(n / NANOSEC_IN_SEC, n % NANOSEC_IN_SEC)
  }

  // ---- arithmetic ----

  /** `timespec_cmp` with `>`. */
  predicate Greater(a: Timespec, b: Timespec) { if a.sec == b.sec then a.nsec > b.nsec else a.sec > b.sec }

  /** `timespec_sub`. */
  function Sub(a: Timespec, b: Timespec): Timespec {
    if a.nsec - b.nsec < 0 then Timespec(a.sec - b.sec - 1, a.nsec - b.nsec + NANOSEC_IN_SEC)
    else Timespec(a.sec - b.sec, a.nsec - b.nsec)
  }

  /** `timespec_mul`. */
  function Mul(a: Timespec, b: nat): Timespec
    requires a.nsec >= 0
  {
    Timespec(a.sec * b + a.nsec * b / NANOSEC_IN_SEC, a.nsec * b % NANOSEC_IN_SEC)
  }

  lemma Comparing(a: Timespec, b: Timespec)
    requires Normal(a) && Normal(b)
    ensures Greater(a, b) <==> Nanos(a) > Nanos(b)
  { }

  lemma Subtracting(a: Timespec, b: Timespec)
    requires Normal(a) && Normal(b)
    ensures Normal(Sub(a, b)) && Nanos(Sub(a, b)) == Nanos(a) - Nanos(b)
    ensures Nanos(a) >= Nanos(b) ==> Sub(a, b).sec >= 0
  { }

  /** Exact, normal, and within 64 bits on the way for the factors used, for any time below a tenth of the range. */
  lemma Multiplying(a: Timespec, b: nat)
    requires Normal(a) && a.sec >= 0 && 1 <= b <= 10
    ensures Normal(Mul(a, b)) && Mul(a, b).sec >= 0
    ensures Nanos(Mul(a, b)) == Nanos(a) * b && a.nsec * b <= LONG_MAX
    ensures a.sec < LONG_MAX / 10 ==> a.sec * b <= Mul(a, b).sec <= LONG_MAX
  {
    var n := a.nsec * b;
    assert 0 <= n <= a.nsec * 10;
    assert n == n / NANOSEC_IN_SEC * NANOSEC_IN_SEC + n % NANOSEC_IN_SEC;
    assert 0 <= a.sec * b <= a.sec * 10;
    calc {
      Nanos(a) * b;
      (a.sec * NANOSEC_IN_SEC + a.nsec) * b;
      a.sec * b * NANOSEC_IN_SEC + n;
    }
  }

  // ---- one pause ----

  /** The length of the pause after a poll that lasted from `before` to `after`. */
  function Pause(before: Timespec, after: Timespec, stopat: Timespec, ratio: nat): Timespec
    requires Sub(after, before).nsec >= 0
  {
    var maxinterval := Sub(stopat, after);
    var i0 := Mul(Sub(after, before), ratio);
    var i1 := if i0.sec < 0 || i0.nsec < 0 then Timespec(0, 0) else i0;
    var i2 := if Greater(i1, maxinterval) then maxinterval else i1;
    if i2.sec == 0 && i2.nsec <= MIN_POLL_INTERVAL then Timespec(0, MIN_POLL_INTERVAL) else i2
  }

  function Max(a: int, b: int): int { if a > b then a else b }

  function Min(a: int, b: int): int { if a < b then a else b }

  /**
   A pause is the measured time of the poll times the ratio, but not past the
   end, and at least 20 ms.
   */
  lemma PauseIs(before: Timespec, after: Timespec, stopat: Timespec, ratio: nat)
    requires Normal(before) && Normal(after) && Normal(stopat) && 1 <= ratio <= 10
    requires Nanos(before) <= Nanos(after) < Nanos(stopat)
    ensures Sub(after, before).nsec >= 0
    ensures var p := Pause(before, after, stopat, ratio);
      && Normal(p) && p.sec >= 0
      && Nanos(p) == Max(MIN_POLL_INTERVAL, Min((Nanos(after) - Nanos(before)) * ratio, Nanos(stopat) - Nanos(after)))
      && MIN_POLL_INTERVAL <= Nanos(p)
      && Nanos(after) + Nanos(p) <= Max(Nanos(stopat), Nanos(after) + MIN_POLL_INTERVAL)
  {
    var d := Sub(after, before);
    var m := Sub(stopat, after);
    Subtracting(after, before);
    Subtracting(stopat, after);
    Multiplying(d, ratio);
    var i0 := Mul(d, ratio);
    Comparing(i0, m);
    hide Sub, Mul;
  }

  // ---- the whole wait ----

  /**
   One round as the world has it: how long until the clock is read, how long the
   poll takes, how many processes it finds, how long until the second reading,
   and how much longer than asked the pause lasts.
   */
  datatype Round = Round(lag: nat, poll: nat, left: nat, lag': nat, oversleep: nat)

  /** The ratio in round k: 2 at first, one more each time, at most 10. */
  function RatioAt(k: nat): nat { Min(k + 2, 10) }

  /** In nanoseconds: when round k begins, and when its poll is over, as long as the wait has not ended. */
  function Begin(start: nat, stop: nat, world: nat -> Round, k: nat): nat
    decreases k, 0
  {
    if k == 0 then start
    else
      var after := Polled(start, stop, world, k - 1);
      after + Max(MIN_POLL_INTERVAL, Min((world(k - 1).poll + world(k - 1).lag') * RatioAt(k - 1), stop - after)) + world(k - 1).oversleep
  }

  function Polled(start: nat, stop: nat, world: nat -> Round, k: nat): nat
    decreases k, 1
  {
    Begin(start, stop, world, k) + world(k).lag + world(k).poll + world(k).lag'
  }

  /** Rounds are at least 20 ms apart, so there is not much room for them before the end. */
  lemma {:induction false} RoundsApart(start: nat, stop: nat, world: nat -> Round, k: nat)
    ensures Begin(start, stop, world, k) >= start + k * MIN_POLL_INTERVAL
  {
    if k > 0 { RoundsApart(start, stop, world, k - 1); }
  }

  lemma FirstRound(start: nat, stop: nat, world: nat -> Round)
    ensures Begin(start, stop, world, 0) == start
  { }

  lemma NextRound(start: nat, stop: nat, world: nat -> Round, k: nat)
    ensures var after := Polled(start, stop, world, k);
      Begin(start, stop, world, k + 1)
      == after + Max(MIN_POLL_INTERVAL, Min((world(k).poll + world(k).lag') * RatioAt(k), stop - after)) + world(k).oversleep
  { }

  /** The pause that is computed leads to the beginning of the next round. */
  lemma PauseLeads(start: nat, stop: nat, world: nat -> Round, k: nat, before: Timespec, after: Timespec, stopat: Timespec, ratio: nat)
    requires Normal(before) && Normal(after) && Normal(stopat) && ratio == RatioAt(k) && Nanos(stopat) == stop
    requires Nanos(before) == Begin(start, stop, world, k) + world(k).lag
    requires Nanos(after) == Polled(start, stop, world, k) < stop
    ensures Sub(after, before).nsec >= 0
    ensures var p := Pause(before, after, stopat, ratio);
      Nanos(p) >= 0 && Nanos(after) + Nanos(p) + world(k).oversleep == Begin(start, stop, world, k + 1)
  {
    var b := Begin(start, stop, world, k);
    assert Nanos(after) == b + world(k).lag + world(k).poll + world(k).lag';
    hide Sub, Pause, Begin;
    PauseIs(before, after, stopat, ratio);
    NextRound(start, stop, world, k);
  }

  /** There is no time for more rounds. */
  lemma RoundsBound(start: nat, timeout: nat, k: nat, now: nat)
    requires start + k * MIN_POLL_INTERVAL <= now < start + timeout * NANOSEC_IN_SEC
    ensures k < 50 * timeout
  { }

  /** The wait goes on after round k: a process was left, and there was time. */
  predicate GoesOn(start: nat, stop: nat, world: nat -> Round, k: nat) {
    && Begin(start, stop, world, k) + world(k).lag <= stop
    && world(k).left > 0 && Polled(start, stop, world, k) < stop
  }

  ghost predicate AllGoOn(start: nat, stop: nat, world: nat -> Round, n: int) {
    forall k :: 0 <= k < n ==> GoesOn(start, stop, world, k)
  }

  /**
   What a wait comes to: it went on after every round but the last; it was
   successful exactly if the last poll found no process; and otherwise the time was
   over, past its end before another poll or at its end after the last one.
   */
  ghost predicate Outcome(start: nat, stop: nat, world: nat -> Round, gone: bool, polls: nat, now: nat) {
    && AllGoOn(start, stop, world, polls - 1)
    && (gone <==> polls > 0 && world(polls - 1).left == 0)
    && (gone ==> now == Begin(start, stop, world, polls - 1) + world(polls - 1).lag + world(polls - 1).poll)
    && (!gone ==>
          || (now > stop && now == Begin(start, stop, world, polls) + world(polls).lag)
          || (polls > 0 && now >= stop && now == Polled(start, stop, world, polls - 1)))
  }

  lemma EndsBefore(start: nat, stop: nat, world: nat -> Round, polls: nat, now: nat)
    requires AllGoOn(start, stop, world, polls) && now == Begin(start, stop, world, polls) + world(polls).lag && now > stop
    ensures Outcome(start, stop, world, false, polls, now)
  {
    hide Begin, Polled;
    if polls > 0 { assert GoesOn(start, stop, world, polls - 1); }
  }

  lemma EndsGone(start: nat, stop: nat, world: nat -> Round, k: nat, now: nat)
    requires AllGoOn(start, stop, world, k) && world(k).left == 0
    requires now == Begin(start, stop, world, k) + world(k).lag + world(k).poll
    ensures Outcome(start, stop, world, true, k + 1, now)
  {
    hide Begin, GoesOn;
  }

  lemma EndsAfter(start: nat, stop: nat, world: nat -> Round, k: nat, now: nat)
    requires AllGoOn(start, stop, world, k) && world(k).left > 0 && now >= stop
    requires now == Begin(start, stop, world, k) + world(k).lag + world(k).poll + world(k).lag'
    ensures Outcome(start, stop, world, false, k + 1, now)
  {
    assert now == Polled(start, stop, world, k);
    hide Begin, GoesOn, Polled;
  }

  lemma WentOn(start: nat, stop: nat, world: nat -> Round, k: nat, now: nat)
    requires AllGoOn(start, stop, world, k) && world(k).left > 0
    requires Begin(start, stop, world, k) + world(k).lag <= stop && now < stop
    requires now == Begin(start, stop, world, k) + world(k).lag + world(k).poll + world(k).lag'
    ensures AllGoOn(start, stop, world, k + 1) && now == Polled(start, stop, world, k)
  {
    assert GoesOn(start, stop, world, k);
    hide GoesOn, Polled;
  }

  /**
   `do_stop_timeout` for any clock that does not go back and any course of
   events.  The pauses come out as in `Begin`; there are at most 50 polls per
   second of timeout, and one more; the result is true exactly if the last poll
   found no process, and otherwise the timeout is over.
   */
  method StopTimeout(start: nat, timeout: nat, world: nat -> Round) returns (gone: bool, polls: nat, now: nat)
    ensures polls <= 50 * timeout + 1
    ensures Outcome(start, start + timeout * NANOSEC_IN_SEC, world, gone, polls, now)
  {
    var stopat := FromNanos(start);
    stopat := stopat.(sec := stopat.sec + timeout);
    ghost var stop := start + timeout * NANOSEC_IN_SEC;
    assert Normal(stopat) && Nanos(stopat) == stop;
    var ratio := 1;
    polls, now := 0, start;
    FirstRound(start, stop, world);
    assert AllGoOn(start, stop, world, 0);
    hide *;
    while true
      invariant 1 <= ratio == (if polls < 9 then polls + 1 else 10) && now == Begin(start, stop, world, polls)
      invariant polls <= 50 * timeout && AllGoOn(start, stop, world, polls)
      decreases 50 * timeout + 1 - polls
    {
      var round := world(polls);
      RoundsApart(start, stop, world, polls);
      now := now + round.lag;
      var before := FromNanos(now);
      Comparing(before, stopat);
      if Greater(before, stopat) {
        EndsBefore(start, stop, world, polls, now);
        return false, polls, now;
      }
      now := now + round.poll;
      polls := polls + 1;
      if round.left == 0 {
        EndsGone(start, stop, world, polls - 1, now);
        return true, polls, now;
      }
      now := now + round.lag';
      var after := FromNanos(now);
      Comparing(stopat, after);
      if !Greater(stopat, after) {
        EndsAfter(start, stop, world, polls - 1, now);
        return false, polls, now;
      }
      if ratio < 10 {
        ratio := ratio + 1;
      }
      RatioIs(polls - 1);
      WentOn(start, stop, world, polls - 1, now);
      RoundsBound(start, timeout, polls - 1, now);
      PauseLeads(start, stop, world, polls - 1, before, after, stopat, ratio);
      var interval := Pause(before, after, stopat, ratio);
      now := now + Nanos(interval) + round.oversleep;
    }
  }

  lemma RatioIs(k: nat)
    ensures RatioAt(k) == if k < 8 then k + 2 else 10
  { }
}
