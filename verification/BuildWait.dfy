/** Waiting for a template version build: validated settings, a poll interval that may double,
    and a loop that must end whatever the backend answers. Durations are int64 nanoseconds. */
module BuildWait {
  import opened Results

  const MIN_INT64: int := -0x8000_0000_0000_0000
  const MAX_INT64: int := 0x7FFF_FFFF_FFFF_FFFF
  const MAX_WAIT_TIMEOUT: int := 30 * 60 * 1_000_000_000

  type Duration = d: int | MIN_INT64 <= d <= MAX_INT64

  datatype WaitConfig = WaitConfig(waitTimeout: Duration, backoffAfter: Duration, initialPoll: Duration, maxPoll: Duration)

  predicate ValidConfig(c: WaitConfig) {
    && 0 < c.waitTimeout <= MAX_WAIT_TIMEOUT
    && 0 <= c.backoffAfter <= c.waitTimeout
    && 0 < c.initialPoll <= c.maxPoll
  }

  /** The bounds checks on the configured durations, in their order. */
  method LoadWaitConfig(waitTimeout: Duration, backoffAfter: Duration, initialPoll: Duration, maxPoll: Duration)
    returns (r: Option<WaitConfig>)
    ensures var c := WaitConfig(waitTimeout, backoffAfter, initialPoll, maxPoll);
            r == if ValidConfig(c) then Some(c) else None
  {
    if waitTimeout <= 0 || waitTimeout > MAX_WAIT_TIMEOUT {
      return None;
    }
    if backoffAfter < 0 || backoffAfter > waitTimeout {
      return None;
    }
    if initialPoll <= 0 {
      return None;
    }
    if maxPoll <= 0 || maxPoll < initialPoll {
      return None;
    }
    return Some(WaitConfig(waitTimeout, backoffAfter, initialPoll, maxPoll));
  }

  /** Two's-complement wrap-around to 64 bits. */
  function Wrap(x: int): Duration {
    (x - MIN_INT64) % 0x1_0000_0000_0000_0000 + MIN_INT64
  }

  function Doubled(c: WaitConfig, interval: Duration): Duration {
    var next := Wrap(interval * 2);
    if next <= 0 || next > c.maxPoll then c.maxPoll else next
  }

  /** The interval to wait after a poll that ended at time `now`. */
  function NextWait(c: WaitConfig, interval: Duration, now: int): Duration {
    if c.backoffAfter > 0 && now >= c.backoffAfter && interval < c.maxPoll then Doubled(c, interval) else interval
  }

  /** Doubling saturates at the maximum even when the product wraps around. */
  lemma DoubledSaturates(c: WaitConfig, interval: Duration)
    requires ValidConfig(c) && c.initialPoll <= interval <= c.maxPoll
    ensures Doubled(c, interval) == if 2 * interval <= c.maxPoll then 2 * interval else c.maxPoll
    ensures interval <= Doubled(c, interval) <= c.maxPoll
  {
    var x := interval * 2;
    if x <= MAX_INT64 {
      assert Wrap(x) == x;
    } else {
      assert Wrap(x) == x - 0x1_0000_0000_0000_0000;
    }
  }

  /** Once the backoff has begun every wait is twice the one before it, up to the maximum; until
      then the interval stays. */
  lemma WaitsGrowOnceBackingOff(c: WaitConfig, interval: Duration, now: int)
    requires ValidConfig(c) && c.initialPoll <= interval <= c.maxPoll
    ensures c.backoffAfter > 0 && now >= c.backoffAfter ==> NextWait(c, interval, now) == Min(2 * interval, c.maxPoll)
    ensures c.backoffAfter == 0 || now < c.backoffAfter ==> NextWait(c, interval, now) == interval
    ensures interval <= NextWait(c, interval, now) <= c.maxPoll
  {
    DoubledSaturates(c, interval);
  }

  datatype JobStatus = Pending | Running | Canceling | Unknown | Succeeded | Failed | Canceled | Unexpected

  /** One answer of the backend and how long it took; an empty status has become Unknown. */
  datatype Poll = Answer(status: JobStatus, took: nat) | CallError(took: nat)

  /** How late the timer is noticed, and whether it is preferred when the context is done too. */
  datatype Sleep = Sleep(late: nat, timerWins: bool)

  datatype Verdict = Built | BuildFailed(status: JobStatus) | TimedOut(lastStatus: JobStatus) | FetchFailed | AssertionFailed

  predicate KeepsPolling(p: Poll) {
    p.Answer? && (p.status.Pending? || p.status.Running? || p.status.Canceling? || p.status.Unknown?)
  }

  /** The only verdict the last poll allows, given when the loop ended. */
  predicate Explains(v: Verdict, last: Poll, now: int, done: nat) {
    match v
    case Built => last.Answer? && last.status == Succeeded
    case BuildFailed(status) => last.Answer? && last.status == status && (status == JobStatus.Failed || status == Canceled)
    case TimedOut(_) => now >= done && (last.CallError? || KeepsPolling(last))
    case FetchFailed => now < done && last.CallError?
    case AssertionFailed => last.Answer? && last.status == Unexpected
  }

  /** What an answer settles by itself. */
  function Judge(p: Poll, now: int, done: nat, lastStatus: JobStatus): (r: Option<Verdict>)
    ensures r.None? <==> KeepsPolling(p)
    ensures r.Some? ==> Explains(r.value, p, now, done)
    ensures r.Some? && r.value.TimedOut? ==> r.value.lastStatus == lastStatus
  {
    match p
    case CallError(_) => Some(if now >= done then TimedOut(lastStatus) else FetchFailed)
    case Answer(Succeeded, _) => Some(Built)
    case Answer(Failed, _) => Some(BuildFailed(JobStatus.Failed))
    case Answer(Canceled, _) => Some(BuildFailed(Canceled))
    case Answer(Unexpected, _) => Some(AssertionFailed)
    case Answer(_, _) => None
  }

  /** The status a timeout reports after `polls` polls that asked to wait. */
  function LastSeen(backend: nat -> Poll, polls: nat): JobStatus {
    if polls == 0 || !backend(polls - 1).Answer? then Unknown else backend(polls - 1).status
  }

  /** When the wait context is done, counted from the start of the wait: the configured timeout,
      shortened by the request's own deadline and by its cancellation. */
  function DoneAt(c: WaitConfig, remaining: Option<int>, canceledAt: Option<nat>): (done: nat)
    requires ValidConfig(c)
    ensures done <= c.waitTimeout
    ensures remaining.Some? ==> done == 0 || done <= remaining.value
    ensures canceledAt.Some? ==> done <= canceledAt.value
    ensures || done == c.waitTimeout || (remaining.Some? && (done == remaining.value || remaining.value < 0 == done))
            || (canceledAt.Some? && done == canceledAt.value)
  {
    var t := if remaining.Some? then Min(c.waitTimeout, if remaining.value > 0 then remaining.value else 0) else c.waitTimeout;
    if canceledAt.Some? then Min(t, canceledAt.value) else t
  }

  /** Non-decreasing, and within the bounds. */
  predicate Steady(waits: seq<Duration>, low: Duration, high: Duration) {
    && (forall i, j :: 0 <= i <= j < |waits| ==> waits[i] <= waits[j])
    && (forall i :: 0 <= i < |waits| ==> low <= waits[i] <= high)
  }

  // ----- The clock -----

  /** When a poll starts, and the interval of the wait before it. */
  datatype Tick = Tick(start: int, interval: Duration)

  /** The start of poll `k` if all polls before it ask to wait and are waited for: the sum of
      what the polls took, the waits, and how late the timers were noticed. */
  function TickAt(c: WaitConfig, backend: nat -> Poll, sleep: nat -> Sleep, k: nat): Tick
    decreases k, 0
  {
    if k == 0 then Tick(0, c.initialPoll)
    else
      var asked := Asked(c, backend, sleep, k - 1);
      var wait := NextWait(c, TickAt(c, backend, sleep, k - 1).interval, asked);
      Tick(asked + wait + sleep(k).late, wait)
  }

  /** When the answer of poll `k` is there. */
  function Asked(c: WaitConfig, backend: nat -> Poll, sleep: nat -> Sleep, k: nat): int
    decreases k, 1
  {
    TickAt(c, backend, sleep, k).start + backend(k).took
  }

  /** Poll `k` ends the loop: its answer does, or the context is done when the answer is there,
      or it is done before the timer is noticed. */
  predicate Stops(c: WaitConfig, done: nat, backend: nat -> Poll, sleep: nat -> Sleep, k: nat) {
    || !KeepsPolling(backend(k))
    || Asked(c, backend, sleep, k) >= done
    || (TickAt(c, backend, sleep, k + 1).start >= done && !sleep(k + 1).timerWins)
  }

  ghost predicate LastPoll(c: WaitConfig, done: nat, backend: nat -> Poll, sleep: nat -> Sleep, n: nat) {
    Stops(c, done, backend, sleep, n) && forall i: nat :: i < n ==> !Stops(c, done, backend, sleep, i)
  }

  /** What the loop reports when poll `n` is its last. */
  function VerdictAt(c: WaitConfig, done: nat, backend: nat -> Poll, sleep: nat -> Sleep, n: nat): Verdict {
    var judged := Judge(backend(n), Asked(c, backend, sleep, n), done, LastSeen(backend, n));
    if judged.Some? then judged.value else TimedOut(LastSeen(backend, n + 1))
  }

  /** The waits and the times at which they were chosen are those of the clock. */
  ghost predicate OnClock(c: WaitConfig, backend: nat -> Poll, sleep: nat -> Sleep, waits: seq<Duration>, at: seq<int>) {
    && |at| == |waits|
    && forall i: nat :: i < |waits| ==>
         waits[i] == TickAt(c, backend, sleep, i + 1).interval && at[i] == Asked(c, backend, sleep, i)
  }

  lemma TickZero(c: WaitConfig, backend: nat -> Poll, sleep: nat -> Sleep)
    ensures TickAt(c, backend, sleep, 0) == Tick(0, c.initialPoll)
  {
  }

  lemma TickNext(c: WaitConfig, backend: nat -> Poll, sleep: nat -> Sleep, k: nat)
    ensures var wait := NextWait(c, TickAt(c, backend, sleep, k).interval, Asked(c, backend, sleep, k));
            TickAt(c, backend, sleep, k + 1) == Tick(Asked(c, backend, sleep, k) + wait + sleep(k + 1).late, wait)
  {
  }

  lemma {:induction false} TickBounds(c: WaitConfig, backend: nat -> Poll, sleep: nat -> Sleep, k: nat)
    requires ValidConfig(c)
    ensures var t, next := TickAt(c, backend, sleep, k), TickAt(c, backend, sleep, k + 1);
            && c.initialPoll <= t.interval <= next.interval <= c.maxPoll
            && k * c.initialPoll <= t.start
            && next.start >= Asked(c, backend, sleep, k) + c.initialPoll >= t.start + c.initialPoll
  {
    hide NextWait;
    if k == 0 {
      TickZero(c, backend, sleep);
    } else {
      TickBounds(c, backend, sleep, k - 1);
      assert k * c.initialPoll == (k - 1) * c.initialPoll + c.initialPoll;
    }
    WaitsGrowOnceBackingOff(c, TickAt(c, backend, sleep, k).interval, Asked(c, backend, sleep, k));
  }

  lemma {:induction false} IntervalsGrow(c: WaitConfig, backend: nat -> Poll, sleep: nat -> Sleep, i: nat, j: nat)
    requires ValidConfig(c) && i <= j
    ensures TickAt(c, backend, sleep, i).interval <= TickAt(c, backend, sleep, j).interval
    decreases j
  {
    if i < j {
      IntervalsGrow(c, backend, sleep, i, j - 1);
      TickBounds(c, backend, sleep, j - 1);
    }
  }

  /** The waits of the clock never shrink and stay within the bounds. */
  lemma ClockIsSteady(c: WaitConfig, backend: nat -> Poll, sleep: nat -> Sleep, waits: seq<Duration>, at: seq<int>)
    requires ValidConfig(c) && OnClock(c, backend, sleep, waits, at)
    ensures Steady(waits, c.initialPoll, c.maxPoll)
  {
    hide TickAt, Asked;
    forall i, j | 0 <= i <= j < |waits| ensures waits[i] <= waits[j] {
      IntervalsGrow(c, backend, sleep, i + 1, j + 1);
    }
    forall i | 0 <= i < |waits| ensures c.initialPoll <= waits[i] <= c.maxPoll {
      TickBounds(c, backend, sleep, i);
    }
  }

  /** There is at most one last poll, and few polls before it. */
  lemma LastPollIsEarly(c: WaitConfig, done: nat, backend: nat -> Poll, sleep: nat -> Sleep, n: nat)
    requires ValidConfig(c) && LastPoll(c, done, backend, sleep, n)
    ensures forall i: nat :: i < n ==> KeepsPolling(backend(i))
    ensures n >= 1 ==> (n - 1) * c.initialPoll < done
    ensures forall m: nat :: LastPoll(c, done, backend, sleep, m) ==> m == n
    ensures KeepsPolling(backend(n)) ==> TickAt(c, backend, sleep, n + 1).start >= done
  {
    hide TickAt, KeepsPolling;
    assert forall i: nat :: i < n ==> !Stops(c, done, backend, sleep, i);
    if n >= 1 {
      assert !Stops(c, done, backend, sleep, n - 1);
      TickBounds(c, backend, sleep, n - 1);
    }
    TickBounds(c, backend, sleep, n);
  }

  /** A build that settles while there is time is seen: if poll `k` is the first that does not
      ask to wait, and every wake-up before it comes before the context is done, then it is the
      last poll, and decides the verdict. */
  lemma SettledInTimeIsSeen(c: WaitConfig, done: nat, backend: nat -> Poll, sleep: nat -> Sleep, k: nat)
    requires ValidConfig(c) && !KeepsPolling(backend(k))
    requires forall i: nat :: i < k ==> KeepsPolling(backend(i)) && TickAt(c, backend, sleep, i + 1).start < done
    ensures LastPoll(c, done, backend, sleep, k)
    ensures Explains(VerdictAt(c, done, backend, sleep, k), backend(k), Asked(c, backend, sleep, k), done)
  {
    hide TickAt, KeepsPolling, Explains;
    forall i: nat | i < k ensures !Stops(c, done, backend, sleep, i) {
      TickBounds(c, backend, sleep, i);
    }
  }

  /** The poll loop. For every backend and every scheduling it ends with the last poll of the
      clock and the verdict of that poll, after at most done/initial + 2 polls and waits in
      non-decreasing intervals within the configured bounds. `at` are the times at which the
      waits were chosen, `now` the time of return. */
  method WaitForBuild(c: WaitConfig, done: nat, backend: nat -> Poll, sleep: nat -> Sleep)
    returns (v: Verdict, polls: nat, waits: seq<Duration>, at: seq<int>, now: int)
    requires ValidConfig(c)
    ensures polls >= 1 && LastPoll(c, done, backend, sleep, polls - 1)
    ensures v == VerdictAt(c, done, backend, sleep, polls - 1)
    ensures polls >= 2 ==> (polls - 2) * c.initialPoll <= done
    ensures forall i :: 0 <= i < polls - 1 ==> KeepsPolling(backend(i))
    ensures Explains(v, backend(polls - 1), now, done)
    ensures v.TimedOut? ==>
              v.lastStatus == LastSeen(backend, if KeepsPolling(backend(polls - 1)) then polls else polls - 1)
    ensures v.TimedOut? && KeepsPolling(backend(polls - 1)) ==>
              |waits| == |at| == polls && at[polls - 1] + waits[polls - 1] + sleep(polls).late >= done
    ensures Steady(waits, c.initialPoll, c.maxPoll)
    ensures OnClock(c, backend, sleep, waits, at)
    ensures polls - 1 <= |waits| <= polls
    ensures now == Asked(c, backend, sleep, polls - 1) || (now == done && v.TimedOut?)
  {
    hide Steady, NextWait, Doubled, Judge, TickAt;
    TickZero(c, backend, sleep);
    var pollInterval := c.initialPoll;
    var lastStatus := Unknown;
    polls, waits, at, now := 0, [], [], 0;
    while true
      invariant |waits| == polls && OnClock(c, backend, sleep, waits, at)
      invariant Tick(now, pollInterval) == TickAt(c, backend, sleep, polls) && lastStatus == LastSeen(backend, polls)
      invariant forall i: nat :: i < polls ==> !Stops(c, done, backend, sleep, i)
      decreases if now >= done then 0 else done - now + 1
    {
      TickBounds(c, backend, sleep, polls);
      TickNext(c, backend, sleep, polls);
      ClockIsSteady(c, backend, sleep, waits, at);
      ghost var k := polls;
      var answer := backend(polls);
      polls := polls + 1;
      now := now + answer.took;
      var settled := Judge(answer, now, done, lastStatus);
      if settled.Some? {
        LastPollIsEarly(c, done, backend, sleep, k);
        return settled.value, polls, waits, at, now;
      }
      lastStatus := answer.status;
      pollInterval := BackedOff(c, pollInterval, now);
      var s := sleep(polls);
      var wake := now + pollInterval + s.late;
      waits, at := waits + [pollInterval], at + [now];
      ClockIsSteady(c, backend, sleep, waits, at);
      if now >= done {
        LastPollIsEarly(c, done, backend, sleep, k);
        return TimedOut(lastStatus), polls, waits, at, now;
      }
      if wake >= done && !s.timerWins {
        LastPollIsEarly(c, done, backend, sleep, k);
        return TimedOut(lastStatus), polls, waits, at, done;
      }
      now := wake;
    }
  }

  /** The backoff step of the loop. */
  method BackedOff(c: WaitConfig, interval: Duration, now: int) returns (next: Duration)
    ensures next == NextWait(c, interval, now)
  {
    next := interval;
    if c.backoffAfter > 0 && now >= c.backoffAfter && interval < c.maxPoll {
      next := Wrap(interval * 2);
      if next <= 0 || next > c.maxPoll {
        next := c.maxPoll;
      }
    }
  }

  /** The wait of a validated configuration ends with a poll that saw the build succeed. */
  ghost predicate BuildSeen(c: WaitConfig, remaining: Option<int>, canceledAt: Option<nat>,
                            backend: nat -> Poll, sleep: nat -> Sleep) {
    && ValidConfig(c)
    && exists n: nat :: LastPoll(c, DoneAt(c, remaining, canceledAt), backend, sleep, n)
                        && backend(n).Answer? && backend(n).status == Succeeded
  }

  /** The whole wait: configuration, effective timeout, loop. A bad configuration is an error
      before the first poll. Otherwise the number of polls is bounded by the effective timeout
      over the initial interval plus two, and success means the last poll saw it. */
  method WaitForVersion(config: WaitConfig, remaining: Option<int>, canceledAt: Option<nat>,
                        backend: nat -> Poll, sleep: nat -> Sleep) returns (v: Option<Verdict>, polls: nat)
    ensures v.None? <==> !ValidConfig(config)
    ensures v.None? ==> polls == 0
    ensures v.Some? ==> polls >= 1 && forall i :: 0 <= i < polls - 1 ==> KeepsPolling(backend(i))
    ensures v.Some? && polls >= 2 ==> (polls - 2) * config.initialPoll <= DoneAt(config, remaining, canceledAt)
    ensures v.Some? ==> (v.value.Built? <==> backend(polls - 1).Answer? && backend(polls - 1).status == Succeeded)
    ensures v.Some? ==> LastPoll(config, DoneAt(config, remaining, canceledAt), backend, sleep, polls - 1)
    ensures v.Some? ==> v.value == VerdictAt(config, DoneAt(config, remaining, canceledAt), backend, sleep, polls - 1)
    ensures v == Some(Built) <==> BuildSeen(config, remaining, canceledAt, backend, sleep)
  {
    hide LastPoll, Steady, OnClock, KeepsPolling;
    var loaded := LoadWaitConfig(config.waitTimeout, config.backoffAfter, config.initialPoll, config.maxPoll);
    if loaded.None? {
      return None, 0;
    }
    var verdict, n, _, _, _ := WaitForBuild(loaded.value, DoneAt(loaded.value, remaining, canceledAt), backend, sleep);
    LastPollIsEarly(config, DoneAt(config, remaining, canceledAt), backend, sleep, n - 1);
    return Some(verdict), n;
  }
}
