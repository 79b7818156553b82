/** The fixed windows that limit webhook calls per key. Instants count nanoseconds. */
module WebhookLimiter {
  import opened Text

  datatype Entry = Entry(count: int, started: int, lastSeen: int)

  type Entries = map<string, Entry>

  datatype Call = Call(key: string, now: int)

  /** The entries that are seen often enough to stay. */
  function Swept(entries: Entries, now: int, window: int): Entries {
    map key | key in entries && now - entries[key].lastSeen <= window :: entries[key]
  }

  predicate OpensWindow(entry: Option<Entry>, now: int, window: int) {
    entry.None? || now - entry.value.started >= window
  }

  /** What becomes of a key's entry, and whether the call is let through. */
  function Decide(entry: Option<Entry>, now: int, limit: int, window: int): (Entry, bool) {
    if OpensWindow(entry, now, window) then (Entry(1, now, now), true)
    else if entry.value.count >= limit then (entry.value.(lastSeen := now), false)
    else (entry.value.(count := entry.value.count + 1, lastSeen := now), true)
  }

  function EntryOf(entries: Entries, key: string): Option<Entry> {
    if key in entries then Some(entries[key]) else None
  }

  /** The entries after some calls, swept at each of them. */
  function EntriesAfter(calls: seq<Call>, limit: int, window: int): Entries {
    if calls == [] then map[]
    else
      var last := calls[|calls| - 1];
      var kept := Swept(EntriesAfter(calls[..|calls| - 1], limit, window), last.now, window);
      kept[last.key := Decide(EntryOf(kept, last.key), last.now, limit, window).0]
  }

  /** Whether the next call is let through. */
  predicate Allows(calls: seq<Call>, key: string, now: int, limit: int, window: int) {
    Decide(EntryOf(Swept(EntriesAfter(calls, limit, window), now, window), key), now, limit, window).1
  }

  /** The same limiter without the sweep: it forgets nothing, and each key only depends on itself. */
  function UnsweptAfter(calls: seq<Call>, key: string, limit: int, window: int): Option<Entry> {
    if calls == [] then None
    else
      var before, last := UnsweptAfter(calls[..|calls| - 1], key, limit, window), calls[|calls| - 1];
      if last.key == key then Some(Decide(before, last.now, limit, window).0) else before
  }

  predicate AllowsUnswept(calls: seq<Call>, key: string, now: int, limit: int, window: int) {
    Decide(UnsweptAfter(calls, key, limit, window), now, limit, window).1
  }

  /** The clock never went back, and stands at an instant. */
  predicate Ordered(calls: seq<Call>, now: int) {
    calls == [] || (calls[|calls| - 1].now <= now && Ordered(calls[..|calls| - 1], calls[|calls| - 1].now))
  }

  class Limiter {
    const limit: int
    const window: int
    var entries: Entries
    ghost var calls: seq<Call>

    ghost predicate Valid()
      reads this
    {
      entries == EntriesAfter(calls, limit, window)
    }

    constructor (limit: int, window: int)
      ensures Valid() && calls == [] && this.limit == limit && this.window == window
    {
      this.limit, this.window, entries, calls := limit, window, map[], [];
    }

    /** Drop the entries not seen within the window, in whatever order they come. */
    method Sweep(now: int)
      modifies this`entries
      ensures entries == Swept(old(entries), now, window)
    {
      var todo := entries.Keys;
      while todo != {}
        invariant todo <= entries.Keys <= old(entries.Keys)
        invariant forall key :: key in entries ==> entries[key] == old(entries)[key]
        invariant forall key :: key in old(entries) && key !in todo ==> (key in entries <==> now - old(entries)[key].lastSeen <= window)
        decreases todo
      {
        var key :| key in todo;
        if now - entries[key].lastSeen > window {
          entries := entries - {key};
        }
        todo := todo - {key};
      }
    }

    method Allow(key: string, now: int) returns (allowed: bool)
      requires Valid()
      modifies this
      ensures Valid() && calls == old(calls) + [Call(key, now)]
      ensures allowed == Allows(old(calls), key, now, limit, window)
    {
      Sweep(now);
      calls := calls + [Call(key, now)];
      assert calls[..|calls| - 1] == old(calls);
      var entry := EntryOf(entries, key);
      if entry.None? || now - entry.value.started >= window {
        entries := entries[key := Entry(1, now, now)];
        return true;
      }
      if entry.value.count >= limit {
        entries := entries[key := entry.value.(lastSeen := now)];
        return false;
      }
      entries := entries[key := entry.value.(count := entry.value.count + 1, lastSeen := now)];
      return true;
    }
  }

  // ---- The sweep changes no decision ----

  lemma {:induction false} OrderedLater(calls: seq<Call>, now: int, later: int)
    requires Ordered(calls, now) && now <= later
    ensures Ordered(calls, later)
  {
  }

  /** A swept entry is one that the next call would have replaced anyway. */
  lemma {:induction false} SweptIsStale(calls: seq<Call>, key: string, now: int, limit: int, window: int)
    requires Ordered(calls, now)
    ensures var kept, all := EntryOf(EntriesAfter(calls, limit, window), key), UnsweptAfter(calls, key, limit, window);
            && (kept == all || (kept.None? && now - all.value.lastSeen > window))
            && (all.Some? ==> all.value.started <= all.value.lastSeen <= now)
  {
    if calls != [] {
      var last := calls[|calls| - 1];
      SweptIsStale(calls[..|calls| - 1], key, last.now, limit, window);
    }
  }

  /** With a clock that never goes back, the limiter decides every call as one that forgets nothing. */
  lemma SweepChangesNothing(calls: seq<Call>, key: string, now: int, limit: int, window: int)
    requires Ordered(calls, now)
    ensures Allows(calls, key, now, limit, window) <==> AllowsUnswept(calls, key, now, limit, window)
  {
    SweptIsStale(calls, key, now, limit, window);
  }

  // ---- How many calls get through ----

  /** When a key's calls were let through. */
  function Admitted(calls: seq<Call>, key: string, limit: int, window: int): seq<int> {
    if calls == [] then []
    else
      var front, last := calls[..|calls| - 1], calls[|calls| - 1];
      var before := Admitted(front, key, limit, window);
      if last.key == key && Allows(front, key, last.now, limit, window) then before + [last.now] else before
  }

  /** When the key's windows were opened. */
  function Openings(calls: seq<Call>, key: string, limit: int, window: int): seq<int> {
    if calls == [] then []
    else
      var front, last := calls[..|calls| - 1], calls[|calls| - 1];
      var before := Openings(front, key, limit, window);
      if last.key == key && OpensWindow(UnsweptAfter(front, key, limit, window), last.now, window) then before + [last.now] else before
  }

  /** How many instants lie in the half-open interval of some length from one on. */
  function CountFrom(times: seq<int>, from: int, length: int): nat {
    if times == [] then 0
    else CountFrom(times[..|times| - 1], from, length) + (if from <= times[|times| - 1] < from + length then 1 else 0)
  }

  lemma CountAppend(times: seq<int>, time: int, from: int, length: int)
    ensures CountFrom(times + [time], from, length) == CountFrom(times, from, length) + (if from <= time < from + length then 1 else 0)
  {
    assert (times + [time])[..|times|] == times;
  }

  lemma {:induction false} CountNone(times: seq<int>, from: int, length: int)
    requires forall i :: 0 <= i < |times| ==> times[i] < from
    ensures CountFrom(times, from, length) == 0
  {
    if times != [] {
      CountNone(times[..|times| - 1], from, length);
    }
  }

  function AtLeastOne(limit: int): int {
    if limit > 1 then limit else 1
  }

  /** What a key's entry knows of its admitted calls: it counts those of its window, all others came
      before, and an interval of one window length meets at most two windows. */
  ghost predicate Counted(admitted: seq<int>, entry: Option<Entry>, from: int, limit: int, window: int) {
    match entry
    case None => admitted == []
    case Some(e) =>
      && 1 <= e.count <= AtLeastOne(limit)
      && (forall i :: 0 <= i < |admitted| ==> admitted[i] < e.started + window)
      && CountFrom(admitted, e.started, window) == e.count
      && CountFrom(admitted, from, window) <=
           (if e.started < from then e.count - 1
            else if e.started < from + window then AtLeastOne(limit) - 1 + e.count
            else 2 * AtLeastOne(limit) - 1)
  }

  lemma CountedNext(admitted: seq<int>, entry: Option<Entry>, from: int, now: int, limit: int, window: int)
    requires window > 0 && Counted(admitted, entry, from, limit, window)
    requires entry.Some? ==> entry.value.started <= now
    ensures var (next, allowed) := Decide(entry, now, limit, window);
            Counted(if allowed then admitted + [now] else admitted, Some(next), from, limit, window)
  {
    var (next, allowed) := Decide(entry, now, limit, window);
    CountAppend(admitted, now, from, window);
    CountAppend(admitted, now, next.started, window);
    if OpensWindow(entry, now, window) {
      CountNone(admitted, now, window);
      if now < from {
        CountNone(admitted, from, window);
      }
    }
  }

  lemma {:induction false} CountedAfter(calls: seq<Call>, now: int, key: string, from: int, limit: int, window: int)
    requires Ordered(calls, now) && window > 0
    ensures Counted(Admitted(calls, key, limit, window), UnsweptAfter(calls, key, limit, window), from, limit, window)
  {
    if calls != [] {
      var front, last := calls[..|calls| - 1], calls[|calls| - 1];
      CountedAfter(front, last.now, key, from, limit, window);
      if last.key == key {
        SweepChangesNothing(front, key, last.now, limit, window);
        SweptIsStale(front, key, last.now, limit, window);
        CountedNext(Admitted(front, key, limit, window), UnsweptAfter(front, key, limit, window), from, last.now, limit, window);
      }
    }
  }

  /** With a clock that never goes back, any half-open interval as long as the window holds fewer than
      twice the limit of admitted calls of one key. */
  lemma AnyIntervalBound(calls: seq<Call>, now: int, key: string, from: int, limit: int, window: int)
    requires Ordered(calls, now) && window > 0 && limit >= 1
    ensures CountFrom(Admitted(calls, key, limit, window), from, window) <= 2 * limit - 1
  {
    CountedAfter(calls, now, key, from, limit, window);
  }

  /** And each of its windows admits at most the limit, or one call if the limit is less. */
  lemma {:induction false} WindowBound(calls: seq<Call>, now: int, key: string, opening: int, limit: int, window: int)
    requires Ordered(calls, now) && window > 0
    requires opening in Openings(calls, key, limit, window)
    ensures CountFrom(Admitted(calls, key, limit, window), opening, window) <= AtLeastOne(limit)
    ensures UnsweptAfter(calls, key, limit, window).Some? && opening <= UnsweptAfter(calls, key, limit, window).value.started
    ensures opening == UnsweptAfter(calls, key, limit, window).value.started
         || opening + window <= UnsweptAfter(calls, key, limit, window).value.started
  {
    var front, last := calls[..|calls| - 1], calls[|calls| - 1];
    CountedAfter(calls, now, key, opening, limit, window);
    if opening in Openings(front, key, limit, window) {
      WindowBound(front, last.now, key, opening, limit, window);
      CountAppend(Admitted(front, key, limit, window), last.now, opening, window);
      SweptIsStale(front, key, last.now, limit, window);
    }
  }

  // ---- The bound on intervals is the best one ----

  /** So many calls of a key at one instant. */
  function Burst(key: string, now: int, n: nat): seq<Call> {
    if n == 0 then [] else Burst(key, now, n - 1) + [Call(key, now)]
  }

  lemma OneMore(calls: seq<Call>, key: string, now: int, from: int, limit: int, window: int)
    requires Ordered(calls, now) && from <= now < from + window
    requires var entry := UnsweptAfter(calls, key, limit, window);
             entry.Some? && now - entry.value.started < window && entry.value.count < limit
    ensures var after, entry := calls + [Call(key, now)], UnsweptAfter(calls, key, limit, window).value;
            && Ordered(after, now)
            && UnsweptAfter(after, key, limit, window) == Some(Entry(entry.count + 1, entry.started, now))
            && CountFrom(Admitted(after, key, limit, window), from, window) == CountFrom(Admitted(calls, key, limit, window), from, window) + 1
  {
    hide Allows;
    var after := calls + [Call(key, now)];
    assert after[..|calls|] == calls;
    SweepChangesNothing(calls, key, now, limit, window);
    CountAppend(Admitted(calls, key, limit, window), now, from, window);
  }

  /** In an open window with room for them, a burst is let through. */
  lemma {:induction false} BurstAdmitted(calls: seq<Call>, key: string, now: int, n: nat, from: int, limit: int, window: int)
    requires Ordered(calls, now) && from <= now < from + window
    requires var entry := UnsweptAfter(calls, key, limit, window);
             entry.Some? && now - entry.value.started < window && entry.value.count + n <= limit
    ensures var after, entry := calls + Burst(key, now, n), UnsweptAfter(calls, key, limit, window).value;
            && Ordered(after, now)
            && UnsweptAfter(after, key, limit, window) == Some(Entry(entry.count + n, entry.started, if n == 0 then entry.lastSeen else now))
            && CountFrom(Admitted(after, key, limit, window), from, window) == CountFrom(Admitted(calls, key, limit, window), from, window) + n
  {
    hide Ordered, UnsweptAfter, Admitted, CountFrom;
    if n == 0 {
      assert calls + [] == calls;
    } else {
      var before := calls + Burst(key, now, n - 1);
      BurstAdmitted(calls, key, now, n - 1, from, limit, window);
      OneMore(before, key, now, from, limit, window);
      assert calls + Burst(key, now, n) == before + [Call(key, now)];
    }
  }

  /** One call opens a window, the rest of the limit comes at its end, and the next window lets as many
      through again at once. */
  lemma IntervalBoundIsReached(key: string, limit: nat, window: int) returns (calls: seq<Call>)
    requires limit >= 1 && window >= 2
    ensures Ordered(calls, window)
    ensures CountFrom(Admitted(calls, key, limit, window), window - 1, window) == 2 * limit - 1
  {
    hide Allows;
    var first := [Call(key, 0)];
    assert first[..0] == [];
    SweepChangesNothing([], key, 0, limit, window);
    assert Admitted(first, key, limit, window) == [0];
    assert [0][..0] == [];
    var full := first + Burst(key, window - 1, limit - 1);
    BurstAdmitted(first, key, window - 1, limit - 1, window - 1, limit, window);
    var next := full + [Call(key, window)];
    assert next[..|full|] == full;
    SweepChangesNothing(full, key, window, limit, window);
    CountAppend(Admitted(full, key, limit, window), window, window - 1, window);
    BurstAdmitted(next, key, window, limit - 1, window - 1, limit, window);
    calls := next + Burst(key, window, limit - 1);
  }
}
