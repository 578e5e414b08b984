/** Looking at a task that a run is parked on: what a look finds, and how long to wait before the next. */
module TaskPoll {
  import opened Options

  const DEFAULT_TASK_POLL_INTERVAL_MS: int := 5_000
  const MAX_TASK_POLL_INTERVAL_MS: int := 30_000
  const MIN_TASK_POLL_INTERVAL_MS: int := 50

  datatype ParkedTaskPoll = Terminal | Pending(pollIntervalMs: Option<nat>) | Failed

  /** `Math.round`. */
  function Round(x: real): int {
    (x + 0.5).Floor
  }

  /** What was asked for, or the default, brought between the bounds. */
  function CappedMs(pollIntervalMs: Option<nat>): int {
    var asked: int := if pollIntervalMs.Some? then pollIntervalMs.value else DEFAULT_TASK_POLL_INTERVAL_MS;
    var raised := if asked < MIN_TASK_POLL_INTERVAL_MS then MIN_TASK_POLL_INTERVAL_MS else asked;
    if raised > MAX_TASK_POLL_INTERVAL_MS then MAX_TASK_POLL_INTERVAL_MS else raised
  }

  /** `random` is a draw from [0, 1). */
  function NextTaskPollDelayMs(pollIntervalMs: Option<nat>, random: real): int {
    Round(CappedMs(pollIntervalMs) as real * (0.8 + random * 0.4))
  }

  predicate IsDraw(random: real) {
    0.0 <= random < 1.0
  }

  lemma DelayBounds(pollIntervalMs: Option<nat>, random: real)
    requires IsDraw(random)
    ensures 40 <= NextTaskPollDelayMs(pollIntervalMs, random) <= 36_000
  {
    var jitter := 0.8 + random * 0.4;
    Scale(CappedMs(pollIntervalMs) as real, jitter);
  }

  /** The delay follows what was asked for: within a fifth of it, and exactly it half-way through the draws;
      asked for less than 50 ms is 50, more than 30 s is 30 s, and nothing is 5 s. */
  lemma DelayFollows(asked: nat, random: real)
    requires IsDraw(random)
    ensures 50 <= asked <= 30_000 ==>
              var delay := NextTaskPollDelayMs(Some(asked), random) as real;
              && asked as real * 0.8 - 0.5 <= delay <= asked as real * 1.2 + 0.5
              && NextTaskPollDelayMs(Some(asked), 0.5) == asked
    ensures asked < 50 ==> NextTaskPollDelayMs(Some(asked), random) == NextTaskPollDelayMs(Some(50), random)
    ensures asked > 30_000 ==> NextTaskPollDelayMs(Some(asked), random) == NextTaskPollDelayMs(Some(30_000), random)
    ensures NextTaskPollDelayMs(None, random) == NextTaskPollDelayMs(Some(5_000), random)
  {
    assert CappedMs(None) == CappedMs(Some(5_000));
    assert asked < 50 ==> CappedMs(Some(asked)) == CappedMs(Some(50));
    assert asked > 30_000 ==> CappedMs(Some(asked)) == CappedMs(Some(30_000));
    if 50 <= asked <= 30_000 {
      assert CappedMs(Some(asked)) == asked;
      hide CappedMs;
      Spread(asked as real, 0.8 + random * 0.4);
      HalfWay(asked);
    } else {
      hide CappedMs, Round;
    }
  }

  lemma HalfWay(asked: nat)
    ensures Round(asked as real * (0.8 + 0.5 * 0.4)) == asked
  {
    var jitter := 0.8 + 0.5 * 0.4;
    assert jitter == 1.0;
    assert asked as real * jitter == asked as real;
  }

  lemma Spread(asked: real, jitter: real)
    requires 0.0 <= asked && 0.8 <= jitter <= 1.2
    ensures asked * 0.8 <= asked * jitter <= asked * 1.2
  {
  }

  lemma Scale(capped: real, jitter: real)
    requires 50.0 <= capped <= 30_000.0 && 0.8 <= jitter <= 1.2
    ensures 40.0 <= capped * jitter <= 36_000.0
  {
    assert capped * jitter >= 50.0 * jitter;
    assert capped * jitter <= 30_000.0 * jitter;
  }

  function OrElse(first: Option<nat>, second: Option<nat>): Option<nat> {
    if first.Some? then first else second
  }
}
