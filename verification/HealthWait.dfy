/** The wait for a project's health check. Instants and durations count nanoseconds. */
module HealthWait {
  import opened Text

  const SECOND: int := 1_000_000_000

  /** A duration as the machine keeps it: 64 bits, wrapping around. */
  function Wrap64(n: int): int {
    (n + 0x8000_0000_0000_0000) % 0x1_0000_0000_0000_0000 - 0x8000_0000_0000_0000
  }

  function NormalizedHealthTimeout(path: string, timeoutSeconds: int): int {
    if Blank(path) then 0 else if timeoutSeconds <= 0 then 5 else timeoutSeconds
  }

  function StartupWindow(path: string, timeoutSeconds: int): int {
    Wrap64(Wrap64(NormalizedHealthTimeout(path, timeoutSeconds) * SECOND) * 3)
  }

  /** What one attempt meets: whether the check succeeds, how long it takes, whether the wait after it
      ends by itself, and by how much it overruns. */
  datatype Turn = Turn(healthy: bool, checkTakes: nat, waitEnds: bool, overrun: nat)

  datatype Verdict = Healthy | TimedOut | Cancelled

  /** How the wait ends, after how many attempts, when, how much waiting it asked for, and which failed
      attempts it announced. */
  datatype Report = Report(verdict: Verdict, attempts: nat, ended: int, requested: int, announced: seq<nat>)

  /** A report, with the waits and announcements before it. */
  function After(requested: int, announced: seq<nat>, r: Report): Report {
    r.(requested := requested + r.requested, announced := announced + r.announced)
  }

  lemma AfterAfter(requested: int, announced: seq<nat>, delay: int, attempt: nat, r: Report)
    ensures After(requested, announced, After(delay, [attempt], r)) == After(requested + delay, announced + [attempt], r)
  {
    assert announced + ([attempt] + r.announced) == announced + [attempt] + r.announced;
  }

  lemma AfterNothing(r: Report)
    ensures After(0, [], r) == r
  {
    assert [] + r.announced == r.announced;
  }

  lemma AfterLast(requested: int, announced: seq<nat>, verdict: Verdict, attempt: nat, ended: int, delay: int, more: seq<nat>)
    ensures After(requested, announced, Report(verdict, attempt, ended, delay, more))
         == Report(verdict, attempt, ended, requested + delay, announced + more)
    ensures announced + [] == announced
  {
  }

  /** The attempts from one on, against a world that decides every turn. */
  function Attempts(world: nat -> Turn, attempt: nat, now: int, deadline: int): Report
    decreases if deadline > now then deadline - now else 0
  {
    var turn := world(attempt);
    var after := now + turn.checkTakes;
    if turn.healthy then Report(Healthy, attempt, after, 0, [])
    else if deadline - after <= 0 then Report(TimedOut, attempt, after, 0, [])
    else
      var delay := if deadline - after < SECOND then deadline - after else SECOND;
      if !turn.waitEnds then Report(Cancelled, attempt, after, delay, [attempt])
      else
        After(delay, [attempt], Attempts(world, attempt + 1, after + delay + turn.overrun, deadline))
  }

  /** The whole wait, from an instant on. */
  function HealthReport(world: nat -> Turn, path: string, timeoutSeconds: int, start: int): Report {
    Attempts(world, 1, start, start + StartupWindow(path, timeoutSeconds))
  }

  class Clock {
    var now: int

    constructor (start: int)
      ensures now == start
    {
      now := start;
    }

    method Pass(time: nat)
      modifies this
      ensures now == old(now) + time
    {
      now := now + time;
    }
  }

  method WaitForProjectHealthy(clock: Clock, world: nat -> Turn, path: string, timeoutSeconds: int) returns (report: Report)
    modifies clock
    ensures report == HealthReport(world, path, timeoutSeconds, old(clock.now))
    ensures clock.now == report.ended
  {
    hide Wrap64, NormalizedHealthTimeout, After;
    var timeout := Wrap64(NormalizedHealthTimeout(path, timeoutSeconds) * SECOND);
    var deadline := clock.now + Wrap64(timeout * 3);
    var attempt, requested, announced := 1, 0, [];
    ghost var whole := HealthReport(world, path, timeoutSeconds, clock.now);
    AfterNothing(whole);
    while true
      invariant attempt >= 1
      invariant whole == After(requested, announced, Attempts(world, attempt, clock.now, deadline))
      decreases if deadline > clock.now then deadline - clock.now else 0
    {
      var turn := world(attempt);
      clock.Pass(turn.checkTakes);
      if turn.healthy {
        AfterLast(requested, announced, Healthy, attempt, clock.now, 0, []);
        return Report(Healthy, attempt, clock.now, requested, announced);
      }
      var remaining := deadline - clock.now;
      if remaining <= 0 {
        AfterLast(requested, announced, TimedOut, attempt, clock.now, 0, []);
        return Report(TimedOut, attempt, clock.now, requested, announced);
      }
      var delay := SECOND;
      if remaining < delay {
        delay := remaining;
      }
      if !turn.waitEnds {
        AfterLast(requested, announced, Cancelled, attempt, clock.now, delay, [attempt]);
        return Report(Cancelled, attempt, clock.now, requested + delay, announced + [attempt]);
      }
      clock.Pass(delay + turn.overrun);
      AfterAfter(requested, announced, delay, attempt, Attempts(world, attempt + 1, clock.now, deadline));
      requested, announced, attempt := requested + delay, announced + [attempt], attempt + 1;
    }
  }

  // ---- How long it can take, and what its verdict means ----

  /** With at most k seconds left, at most k more attempts and no more waiting than is left. */
  lemma {:induction false} AttemptsBound(world: nat -> Turn, attempt: nat, now: int, deadline: int, k: nat)
    requires deadline - now <= k * SECOND
    ensures var r := Attempts(world, attempt, now, deadline);
            && attempt <= r.attempts <= attempt + k
            && 0 <= r.requested <= (if deadline > now then deadline - now else 0)
    decreases if deadline > now then deadline - now else 0
  {
    var turn := world(attempt);
    var after := now + turn.checkTakes;
    if !turn.healthy && deadline - after > 0 && turn.waitEnds {
      var delay := if deadline - after < SECOND then deadline - after else SECOND;
      AttemptsBound(world, attempt + 1, after + delay + turn.overrun, deadline, k - 1);
    }
  }

  /** The last check decides, every check before it failed, time is up only when it is, and exactly the
      failed attempts that were followed by a wait are announced. */
  lemma {:induction false} AttemptsVerdict(world: nat -> Turn, attempt: nat, now: int, deadline: int)
    ensures var r := Attempts(world, attempt, now, deadline);
            && attempt <= r.attempts
            && (r.verdict.Healthy? <==> world(r.attempts).healthy)
            && (forall n :: attempt <= n < r.attempts ==> !world(n).healthy)
            && (r.verdict.TimedOut? ==> r.ended >= deadline)
            && r.announced == seq((if r.verdict.Cancelled? then r.attempts + 1 else r.attempts) - attempt, i requires 0 <= i => attempt + i)
    decreases if deadline > now then deadline - now else 0
  {
    var turn := world(attempt);
    var after := now + turn.checkTakes;
    if !turn.healthy && deadline - after > 0 && turn.waitEnds {
      var delay := if deadline - after < SECOND then deadline - after else SECOND;
      AttemptsVerdict(world, attempt + 1, after + delay + turn.overrun, deadline);
    }
  }

  /** However long the timeout, the window never exceeds three times it; it is three times it, where that
      fits the type. */
  lemma WindowIs(path: string, timeoutSeconds: int)
    ensures Blank(path) ==> StartupWindow(path, timeoutSeconds) == 0
    ensures !Blank(path) && timeoutSeconds <= 0 ==> StartupWindow(path, timeoutSeconds) == 15 * 1_000_000_000
    ensures !Blank(path) && timeoutSeconds > 0 ==>
              && StartupWindow(path, timeoutSeconds) <= 3 * timeoutSeconds * 1_000_000_000
              && (3 * timeoutSeconds * 1_000_000_000 < 0x8000_0000_0000_0000 ==> StartupWindow(path, timeoutSeconds) == 3 * timeoutSeconds * 1_000_000_000)
  {
    hide Trim;
  }

  /** A wait with a timeout of so many seconds, which makes at most three attempts for every second and one
      more, and asks for no more waiting than three times the timeout; it returns nil exactly when its last
      check succeeded, and gives up only when the window is over. */
  predicate Bounded(r: Report, world: nat -> Turn, seconds: nat, start: int) {
    && 1 <= r.attempts <= 3 * seconds + 1
    && 0 <= r.requested <= 3 * seconds * 1_000_000_000
    && (r.verdict.Healthy? <==> world(r.attempts).healthy)
    && (forall n :: 1 <= n < r.attempts ==> !world(n).healthy)
    && (r.verdict.TimedOut? && 3 * seconds * 1_000_000_000 < 0x8000_0000_0000_0000 ==> r.ended >= start + 3 * seconds * 1_000_000_000)
  }

  /** For a project with a health check, the bounds of its timeout; of five seconds, where none is set; and
      of none at all for a project without a health check. */
  lemma HealthWaitIsBounded(world: nat -> Turn, path: string, timeoutSeconds: int, start: int)
    ensures var r := HealthReport(world, path, timeoutSeconds, start);
            && (!Blank(path) && timeoutSeconds > 0 ==> Bounded(r, world, timeoutSeconds, start))
            && (!Blank(path) && timeoutSeconds <= 0 ==> Bounded(r, world, 5, start))
            && (Blank(path) ==> Bounded(r, world, 0, start))
  {
    hide StartupWindow, Attempts, Trim;
    var seconds := if Blank(path) then 0 else if timeoutSeconds <= 0 then 5 else timeoutSeconds;
    var deadline := start + StartupWindow(path, timeoutSeconds);
    WindowIs(path, timeoutSeconds);
    AttemptsBound(world, 1, start, deadline, 3 * seconds);
    AttemptsVerdict(world, 1, start, deadline);
  }

  // ---- Which attempt decides ----

  /** When attempt n ends, if the wait gets that far: each wait lasts a second, or what is left. */
  function EndOf(world: nat -> Turn, n: nat, start: int, deadline: int): int
    requires n >= 1
  {
    if n == 1 then start + world(1).checkTakes
    else
      var before := EndOf(world, n - 1, start, deadline);
      before + (if deadline - before < SECOND then deadline - before else SECOND) + world(n - 1).overrun + world(n).checkTakes
  }

  /** The wait goes on after attempt n: it failed inside the window, and the wait after it was not
      cancelled. */
  predicate GoesOn(world: nat -> Turn, n: nat, start: int, deadline: int)
    requires n >= 1
  {
    !world(n).healthy && world(n).waitEnds && EndOf(world, n, start, deadline) < deadline
  }

  /** How attempt n ends the wait. */
  predicate EndsWait(world: nat -> Turn, n: nat, start: int, deadline: int, verdict: Verdict)
    requires n >= 1
  {
    match verdict
    case Healthy => world(n).healthy
    case TimedOut => !world(n).healthy && EndOf(world, n, start, deadline) >= deadline
    case Cancelled => !world(n).healthy && EndOf(world, n, start, deadline) < deadline && !world(n).waitEnds
  }

  lemma {:induction false} AttemptsFrom(world: nat -> Turn, n: nat, start: int, deadline: int)
    requires n >= 1 && forall m :: 1 <= m < n ==> GoesOn(world, m, start, deadline)
    ensures var now := EndOf(world, n, start, deadline) - world(n).checkTakes;
            EndsFrom(world, n, start, deadline, Attempts(world, n, now, deadline))
    decreases var now := EndOf(world, n, start, deadline) - world(n).checkTakes; if deadline > now then deadline - now else 0
  {
    var now := EndOf(world, n, start, deadline) - world(n).checkTakes;
    var after := EndOf(world, n, start, deadline);
    if GoesOn(world, n, start, deadline) {
      AttemptsFrom(world, n + 1, start, deadline);
    }
  }

  /** The report names an attempt that ends the wait, and before which the wait goes on. */
  predicate EndsFrom(world: nat -> Turn, n: nat, start: int, deadline: int, r: Report)
    requires n >= 1
  {
    && r.attempts >= n
    && (forall m :: n <= m < r.attempts ==> GoesOn(world, m, start, deadline))
    && EndsWait(world, r.attempts, start, deadline, r.verdict)
    && r.ended == EndOf(world, r.attempts, start, deadline)
  }

  /** For every world, the wait ends at an attempt and with a verdict exactly when the wait goes on after
      each attempt before and that one ends it so. In particular, a check that succeeds for the first time
      after an attempt that ended inside the window is found, unless a wait before it was cancelled. */
  lemma EndsAtIff(world: nat -> Turn, path: string, timeoutSeconds: int, start: int, n: nat, verdict: Verdict)
    requires n >= 1 && !Blank(path) && timeoutSeconds > 0 && 3 * timeoutSeconds * SECOND < 0x8000_0000_0000_0000
    ensures var r, deadline := HealthReport(world, path, timeoutSeconds, start), start + 3 * timeoutSeconds * SECOND;
            && r.ended == EndOf(world, if r.attempts >= 1 then r.attempts else 1, start, deadline)
            && (r.attempts == n && r.verdict == verdict <==>
                  && (forall m :: 1 <= m < n ==> GoesOn(world, m, start, deadline))
                  && EndsWait(world, n, start, deadline, verdict))
  {
    hide Trim, Attempts, EndOf;
    WindowIs(path, timeoutSeconds);
    var deadline := start + 3 * timeoutSeconds * SECOND;
    FirstAttempt(world, start, deadline);
    AttemptsFrom(world, 1, start, deadline);
    var r := HealthReport(world, path, timeoutSeconds, start);
    OneEnding(world, n, start, deadline, verdict, r.verdict);
    OneEnding(world, r.attempts, start, deadline, r.verdict, verdict);
  }

  /** No attempt both ends the wait and lets it go on, and none ends it in two ways. */
  lemma OneEnding(world: nat -> Turn, n: nat, start: int, deadline: int, verdict: Verdict, other: Verdict)
    requires n >= 1
    ensures EndsWait(world, n, start, deadline, verdict) ==> !GoesOn(world, n, start, deadline)
    ensures EndsWait(world, n, start, deadline, verdict) && EndsWait(world, n, start, deadline, other) ==> verdict == other
  {
    hide EndOf;
  }

  lemma FirstAttempt(world: nat -> Turn, start: int, deadline: int)
    ensures EndOf(world, 1, start, deadline) - world(1).checkTakes == start
  {
  }

  /** A world in which checks take no time and fail, and waits are exact. */
  function NeverUp(attempt: nat): Turn {
    Turn(false, 0, true, 0)
  }

  lemma {:induction false} NeverUpAttempts(attempt: nat, now: int, k: nat)
    ensures var r := Attempts(NeverUp, attempt, now, now + k * SECOND);
            r.attempts == attempt + k && r.requested == k * SECOND && r.verdict.TimedOut?
    decreases k
  {
    if k > 0 {
      NeverUpAttempts(attempt + 1, now + SECOND, k - 1);
      assert now + SECOND + (k - 1) * SECOND == now + k * SECOND;
    }
  }

  /** Neither bound can be improved, as long as the window fits its type. */
  lemma BoundsAreReached(path: string, timeoutSeconds: nat, start: int)
    requires !Blank(path) && timeoutSeconds > 0 && 3 * timeoutSeconds * SECOND < 0x8000_0000_0000_0000
    ensures var r := HealthReport(NeverUp, path, timeoutSeconds, start);
            r.attempts == 3 * timeoutSeconds + 1 && r.requested == 3 * timeoutSeconds * SECOND && r.verdict.TimedOut?
  {
    hide StartupWindow, Attempts, Trim;
    WindowIs(path, timeoutSeconds);
    NeverUpAttempts(1, start, 3 * timeoutSeconds);
  }
}
