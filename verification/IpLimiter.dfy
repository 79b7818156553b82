/** The sliding window that limits login attempts per address. Instants count nanoseconds. */
module IpLimiter {

  /** The attempts that are not older than the window. */
  function Recent(times: seq<int>, now: int, window: int): seq<int> {
    if times == [] then []
    else
      var front, last := Recent(times[..|times| - 1], now, window), times[|times| - 1];
      if now - last <= window then front + [last] else front
  }

  /** How many instants lie in a closed interval. */
  function CountIn(times: seq<int>, from: int, to: int): nat {
    if times == [] then 0
    else CountIn(times[..|times| - 1], from, to) + (if from <= times[|times| - 1] <= to then 1 else 0)
  }

  type Attempts = map<string, seq<int>>

  function AttemptsOf(attempts: Attempts, ip: string): seq<int> {
    if ip in attempts then attempts[ip] else []
  }

  datatype Call = Allow(ip: string, now: int) | Clear(ip: string)

  predicate Admits(attempts: Attempts, ip: string, now: int, limit: int, window: int) {
    |Recent(AttemptsOf(attempts, ip), now, window)| < limit
  }

  /** The pruned state after some calls. */
  function AttemptsAfter(calls: seq<Call>, limit: int, window: int): Attempts {
    if calls == [] then map[]
    else
      var before := AttemptsAfter(calls[..|calls| - 1], limit, window);
      match calls[|calls| - 1]
      case Allow(ip, now) =>
        before[ip := Recent(AttemptsOf(before, ip), now, window) + (if Admits(before, ip, now, limit, window) then [now] else [])]
      case Clear(ip) => before - {ip}
  }

  /** The full history of an address: every call it was admitted for since it was last cleared. */
  function Admitted(calls: seq<Call>, ip: string, limit: int, window: int): seq<int> {
    if calls == [] then []
    else
      var front, last := calls[..|calls| - 1], calls[|calls| - 1];
      var before := Admitted(front, ip, limit, window);
      if last.ip != ip then before
      else if last.Clear? then []
      else if Admits(AttemptsAfter(front, limit, window), ip, last.now, limit, window) then before + [last.now]
      else before
  }

  /** The clock never went back, and stands at an instant. */
  predicate Ordered(calls: seq<Call>, now: int) {
    calls == [] ||
    var front, last := calls[..|calls| - 1], calls[|calls| - 1];
    if last.Allow? then last.now <= now && Ordered(front, last.now) else Ordered(front, now)
  }

  class Limiter {
    const limit: int
    const window: int
    var attempts: Attempts
    ghost var calls: seq<Call>

    ghost predicate Valid()
      reads this
    {
      attempts == AttemptsAfter(calls, limit, window)
    }

    constructor (limit: int, window: int)
      ensures Valid() && calls == [] && this.limit == limit && this.window == window
    {
      this.limit, this.window, attempts, calls := limit, window, map[], [];
    }

    /** An address that is not known is not limited. */
    method AllowIP(ip: string, now: int) returns (allowed: bool)
      requires Valid()
      modifies this
      ensures Valid()
      ensures calls == if ip == "" then old(calls) else old(calls) + [Allow(ip, now)]
      ensures allowed == (ip == "" || Admits(old(attempts), ip, now, limit, window))
    {
      if ip == "" {
        return true;
      }
      var kept: seq<int> := [];
      var stored, n := AttemptsOf(attempts, ip), 0;
      while n < |stored|
        invariant 0 <= n <= |stored|
        invariant kept == Recent(stored[..n], now, window)
      {
        assert stored[..n + 1][..n] == stored[..n];
        if now - stored[n] <= window {
          kept := kept + [stored[n]];
        }
        n := n + 1;
      }
      assert stored[..n] == stored;
      calls := calls + [Allow(ip, now)];
      assert calls[..|calls| - 1] == old(calls);
      if |kept| >= limit {
        assert kept + [] == kept;
        attempts := attempts[ip := kept];
        return false;
      }
      attempts := attempts[ip := kept + [now]];
      return true;
    }

    method ClearIPAttempts(ip: string)
      requires Valid()
      modifies this
      ensures Valid()
      ensures calls == if ip == "" then old(calls) else old(calls) + [Clear(ip)]
    {
      if ip == "" {
        return;
      }
      calls := calls + [Clear(ip)];
      assert calls[..|calls| - 1] == old(calls);
      attempts := attempts - {ip};
    }
  }

  // ---- Pruning loses nothing ----

  lemma RecentAppend(times: seq<int>, time: int, now: int, window: int)
    ensures Recent(times + [time], now, window) == Recent(times, now, window) + (if now - time <= window then [time] else [])
  {
    assert (times + [time])[..|times|] == times;
  }

  lemma {:induction false} RecentTwice(times: seq<int>, earlier: int, now: int, window: int)
    requires earlier <= now
    ensures Recent(Recent(times, earlier, window), now, window) == Recent(times, now, window)
  {
    if times != [] {
      var front, last := times[..|times| - 1], times[|times| - 1];
      RecentTwice(front, earlier, now, window);
      RecentAppend(Recent(front, earlier, window), last, now, window);
    }
  }

  lemma {:induction false} OrderedLater(calls: seq<Call>, earlier: int, now: int)
    requires Ordered(calls, earlier) && earlier <= now
    ensures Ordered(calls, now)
  {
    if calls != [] && calls[|calls| - 1].Clear? {
      OrderedLater(calls[..|calls| - 1], earlier, now);
    }
  }

  /** From now on, the pruned list and the full history show the same recent attempts. */
  lemma {:induction false} PrunedIsHistory(calls: seq<Call>, ip: string, now: int, limit: int, window: int)
    requires Ordered(calls, now)
    ensures Recent(AttemptsOf(AttemptsAfter(calls, limit, window), ip), now, window) == Recent(Admitted(calls, ip, limit, window), now, window)
    ensures forall t :: t in Admitted(calls, ip, limit, window) ==> t <= now
  {
    if calls != [] {
      var front, last := calls[..|calls| - 1], calls[|calls| - 1];
      var pruned, history := AttemptsOf(AttemptsAfter(front, limit, window), ip), Admitted(front, ip, limit, window);
      if last.Allow? {
        OrderedLater(front, last.now, now);
      }
      PrunedIsHistory(front, ip, now, limit, window);
      if last.Allow? && last.ip == ip {
        var kept := Recent(pruned, last.now, window);
        RecentTwice(pruned, last.now, now, window);
        RecentAppend(kept, last.now, now, window);
        RecentAppend(history, last.now, now, window);
        assert kept + [] == kept;
      }
    }
  }

  /** With a clock that never goes back, the pruned list decides every call as the full history would. */
  lemma DecidesAsFullHistory(calls: seq<Call>, ip: string, now: int, limit: int, window: int)
    requires Ordered(calls, now)
    ensures Admits(AttemptsAfter(calls, limit, window), ip, now, limit, window)
       <==> |Recent(Admitted(calls, ip, limit, window), now, window)| < limit
  {
    PrunedIsHistory(calls, ip, now, limit, window);
  }

  lemma {:induction false} CountedAreRecent(times: seq<int>, from: int, to: int, now: int, window: int)
    requires now <= to && to - from <= window
    ensures CountIn(times, from, to) <= |Recent(times, now, window)|
  {
    if times != [] {
      CountedAreRecent(times[..|times| - 1], from, to, now, window);
    }
  }

  /** With a clock that never goes back, no closed interval as long as the window holds more than the
      limit of admitted calls of one address. */
  lemma {:induction false} WindowBound(calls: seq<Call>, now: int, ip: string, from: int, limit: int, window: int)
    requires Ordered(calls, now)
    ensures CountIn(Admitted(calls, ip, limit, window), from, from + window) <= if limit > 0 then limit else 0
  {
    if calls != [] {
      var front, last := calls[..|calls| - 1], calls[|calls| - 1];
      WindowBound(front, if last.Allow? then last.now else now, ip, from, limit, window);
      if last.Allow? && last.ip == ip {
        var history := Admitted(front, ip, limit, window);
        assert (history + [last.now])[..|history|] == history;
        if from <= last.now <= from + window {
          DecidesAsFullHistory(front, ip, last.now, limit, window);
          CountedAreRecent(history, from, from + window, last.now, window);
        }
      }
    }
  }
}
