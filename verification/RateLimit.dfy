/** The sliding-window limiter: a store that forgets old failures agrees with one
    that never forgets, and concurrent sign-ins can overshoot the limit only by
    the number of requests between their check and their record. */
module RateLimit {

  /** The moments of a log later than `since`, in order. */
  function After(log: seq<int>, since: int): seq<int> {
    if log == [] then []
    else After(log[..|log| - 1], since) + (if log[|log| - 1] > since then [log[|log| - 1]] else [])
  }

  lemma {:induction false} AfterSnoc(log: seq<int>, at: int, since: int)
    ensures After([], since) == []
    ensures After(log + [at], since) == After(log, since) + (if at > since then [at] else [])
  {
    assert (log + [at])[..|log|] == log;
  }

  lemma {:induction false} AfterAfter(log: seq<int>, early: int, late: int)
    ensures After(After(log, early), late) == After(log, if early < late then late else early)
  {
    hide After;
    if log == [] {
      AfterSnoc([], 0, early);
      AfterSnoc([], 0, late);
    } else {
      var init, last := log[..|log| - 1], log[|log| - 1];
      assert log == init + [last];
      AfterAfter(init, early, late);
      AfterSnoc(init, last, early);
      AfterSnoc(init, last, if early < late then late else early);
      AfterSnoc(After(init, early), last, late);
      if last <= early {
        assert After(log, early) == After(init, early);
      }
    }
  }

  /** The positions of a log whose moment is later than `since`. */
  function Later(log: seq<int>, since: int): set<int> {
    set k | 0 <= k < |log| && log[k] > since
  }

  lemma {:induction false} AfterCounts(log: seq<int>, since: int)
    ensures |After(log, since)| == |Later(log, since)|
  {
    if log == [] {
      assert Later(log, since) == {};
    } else {
      var init, n := log[..|log| - 1], |log| - 1;
      AfterCounts(init, since);
      assert Later(log, since) == if log[n] > since then Later(init, since) + {n} else Later(init, since);
    }
  }

  /** What is forgotten at `since` was at or before it; a list already pruned at
      `mark` still counts right from there on. */
  lemma PruneKeepsLater(present: seq<int>, log: seq<int>, marked: bool, mark: int, since: int)
    requires if marked then After(present, mark) == After(log, mark) else present == log
    ensures var reach := if marked && mark > since then mark else since;
            After(After(present, since), reach) == After(log, reach)
    ensures !marked || mark <= since ==> After(present, since) == After(log, since)
  {
    if marked {
      AfterAfter(present, mark, since);
      AfterAfter(log, mark, since);
      AfterAfter(present, since, mark);
    }
    AfterAfter(present, since, since);
  }

  /** MemoryRateLimitStore. `logs` is the history the store would keep if it
      never pruned; `marks` the latest `since` each key was pruned with. */
  class Store {
    var events: map<string, seq<int>>
    ghost var logs: map<string, seq<int>>
    ghost var marks: map<string, int>

    /** Beyond its mark a key has lost nothing. */
    ghost predicate Valid()
      reads this
    {
      && events.Keys == logs.Keys && marks.Keys <= events.Keys
      && forall key :: key in events ==>
           if key in marks then After(events[key], marks[key]) == After(logs[key], marks[key])
           else events[key] == logs[key]
    }

    ghost function Log(key: string): seq<int>
      reads this
    {
      if key in logs then logs[key] else []
    }

    /** True if no earlier count for the key looked at a later moment. */
    ghost predicate NotBefore(key: string, since: int)
      reads this
    {
      key in marks ==> marks[key] <= since
    }

    constructor ()
      ensures Valid() && logs == map[] && marks == map[]
    {
      events, logs, marks := map[], map[], map[];
    }

    /** Counts, and forgets what it did not count. As long as `since` has not
        gone back for this key, the count is that of the full history. */
    method FailedAttempts(key: string, since: int) returns (count: nat)
      requires Valid()
      modifies this
      ensures Valid()
      ensures forall k :: Log(k) == old(Log(k))
      ensures forall k :: k != key ==> (k in marks <==> k in old(marks)) && (k in marks ==> marks[k] == old(marks)[k])
      ensures old(NotBefore(key, since)) ==> count == |After(Log(key), since)| && key in marks && marks[key] == since
    {
      hide After;
      var present := if key in events then events[key] else [];
      var kept := Prune(present, since);
      ghost var log := Log(key);
      ghost var mark := if key in marks && marks[key] > since then marks[key] else since;
      PruneKeepsLater(present, log, key in marks, if key in marks then marks[key] else since, since);
      events, logs, marks := events[key := kept], logs[key := log], marks[key := mark];
      return |kept|;
    }

    /** The list comprehension of the store. */
    static method Prune(present: seq<int>, since: int) returns (kept: seq<int>)
      ensures kept == After(present, since)
    {
      kept := [];
      for k := 0 to |present|
        invariant kept == After(present[..k], since)
      {
        assert present[..k + 1][..k] == present[..k];
        if present[k] > since {
          kept := kept + [present[k]];
        } else {
          assert kept + [] == kept;
        }
      }
      assert present[..|present|] == present;
    }

    method RecordFailure(key: string, at: int)
      requires Valid()
      modifies this
      ensures Valid() && marks == old(marks)
      ensures Log(key) == old(Log(key)) + [at] && forall k :: k != key ==> Log(k) == old(Log(k))
    {
      var present := if key in events then events[key] else [];
      ghost var log := Log(key);
      assert (log + [at])[..|log|] == log && (present + [at])[..|present|] == present;
      events, logs := events[key := present + [at]], logs[key := log + [at]];
    }

    method Clear(key: string)
      requires Valid()
      modifies this
      ensures Valid()
      ensures Log(key) == [] && forall k :: k != key ==> Log(k) == old(Log(k))
      ensures marks == old(marks) - {key}
    {
      events, logs, marks := events - {key}, logs - {key}, marks - {key};
    }
  }

  const MAX_FAILED_ATTEMPTS: nat := 5
  const FAILURE_WINDOW_SECONDS: nat := 900

  class RateLimiter {
    const store: Store
    const maximum: nat
    const window: nat

    constructor (store: Store, maximum: nat := MAX_FAILED_ATTEMPTS, window: nat := FAILURE_WINDOW_SECONDS)
      ensures this.store == store && this.maximum == maximum && this.window == window
    {
      this.store, this.maximum, this.window := store, maximum, window;
    }

    /** With a clock that does not go back, the pruning limiter blocks exactly
        when one that keeps every failure would. */
    method IsBlocked(key: string, now: int) returns (blocked: bool)
      requires store.Valid()
      modifies store
      ensures store.Valid() && forall k :: store.Log(k) == old(store.Log(k))
      ensures old(store.NotBefore(key, now - window)) ==>
                && (blocked <==> |Later(store.Log(key), now - window)| >= maximum)
                && (blocked <==> Blocked(Limiter(store.Log(key), {}), now, maximum, window))
                && store.NotBefore(key, now - window)
    {
      var count := store.FailedAttempts(key, now - window);
      AfterCounts(store.Log(key), now - window);
      return count >= maximum;
    }
  }

  // ------------------------------------------------------------------ whole runs

  /** One key's requests: each checks the limit, and if it was let through may
      later record a failure, or go away without (success, crash). */
  datatype Event =
    | Check(now: int, request: nat)
    | Record(now: int, request: nat)
    | Leave(now: int, request: nat)
    | Reset(now: int)

  /** `passed` are the requests between a check that let them through and their
      record. */
  datatype Limiter = Limiter(log: seq<int>, passed: set<nat>)

  predicate Blocked(s: Limiter, now: int, maximum: nat, window: nat) {
    |After(s.log, now - window)| >= maximum
  }

  function Next(s: Limiter, e: Event, maximum: nat, window: nat): Limiter {
    match e
    case Check(now, request) =>
      if Blocked(s, now, maximum, window) then s else s.(passed := s.passed + {request})
    case Record(now, request) =>
      if request in s.passed then Limiter(s.log + [now], s.passed - {request}) else s
    case Leave(_, request) => s.(passed := s.passed - {request})
    case Reset(_) => s.(log := [])
  }

  function Run(events: seq<Event>, maximum: nat, window: nat): Limiter {
    if events == [] then Limiter([], {})
    else Next(Run(events[..|events| - 1], maximum, window), events[|events| - 1], maximum, window)
  }

  /** A request is let through, and its failure then recorded, exactly if fewer
      than the limit were recorded in the window before its check. */
  lemma CheckedThenRecorded(s: Limiter, now: int, later: int, request: nat, maximum: nat, window: nat)
    requires request !in s.passed
    ensures var s' := Next(Next(s, Check(now, request), maximum, window), Record(later, request), maximum, window);
            && s'.passed == s.passed
            && s'.log == if |Later(s.log, now - window)| < maximum then s.log + [later] else s.log
  {
    AfterCounts(s.log, now - window);
  }

  predicate Recorded(s: Limiter, e: Event) {
    e.Record? && e.request in s.passed
  }

  /** Failures recorded in the half-open window that starts after `start`. */
  function RecordedIn(events: seq<Event>, start: int, maximum: nat, window: nat): nat {
    if events == [] then 0
    else
      var init, last := events[..|events| - 1], events[|events| - 1];
      RecordedIn(init, start, maximum, window) +
      (if Recorded(Run(init, maximum, window), last) && start < last.now <= start + window then 1 else 0)
  }

  ghost predicate Monotone(events: seq<Event>) {
    forall j, k :: 0 <= j <= k < |events| ==> events[j].now <= events[k].now
  }

  /** No reset falls into the window, and never more than `n` requests stand
      between check and record. */
  ghost predicate Steady(events: seq<Event>, start: int, n: nat, maximum: nat, window: nat) {
    && (forall k :: 0 <= k < |events| && events[k].Reset? ==> !(start < events[k].now <= start + window))
    && (forall k :: 0 <= k <= |events| ==> |Run(events[..k], maximum, window).passed| <= n)
  }

  lemma {:induction false} AfterEverything(log: seq<int>, since: int)
    requires forall k :: 0 <= k < |log| ==> log[k] <= since
    ensures After(log, since) == []
  {
    if log != [] {
      AfterEverything(log[..|log| - 1], since);
    }
  }

  lemma {:induction false} LaterSinceCountsLess(log: seq<int>, early: int, late: int)
    requires early <= late
    ensures |After(log, late)| <= |After(log, early)|
  {
    if log != [] {
      LaterSinceCountsLess(log[..|log| - 1], early, late);
    }
  }

  /** Until the window closes, its failures are exactly what the log holds after
      its start; and whatever is beyond the limit was already under way when
      the limit was reached. */
  ghost predicate InWindow(s: Limiter, count: nat, now: int, start: int, n: nat, maximum: nat, window: nat) {
    && (forall k :: 0 <= k < |s.log| ==> s.log[k] <= now)
    && (now <= start + window ==>
          && count == |After(s.log, start)|
          && (count >= maximum ==> count + |s.passed| <= maximum - 1 + n))
    && (count >= maximum ==> count <= maximum - 1 + n)
  }

  lemma CheckKeepsWindow(s: Limiter, count: nat, now: int, request: nat, start: int, n: nat, maximum: nat, window: nat)
    requires InWindow(s, count, now, start, n, maximum, window)
    ensures InWindow(Next(s, Check(now, request), maximum, window), count, now, start, n, maximum, window)
  {
    if now <= start + window {
      LaterSinceCountsLess(s.log, now - window, start);
    }
  }

  lemma RecordKeepsWindow(s: Limiter, count: nat, now: int, request: nat, start: int, n: nat, maximum: nat, window: nat)
    requires InWindow(s, count, now, start, n, maximum, window)
    requires request in s.passed && |s.passed| <= n && maximum > 0
    ensures InWindow(Next(s, Record(now, request), maximum, window),
                     count + (if start < now <= start + window then 1 else 0), now, start, n, maximum, window)
  {
    assert (s.log + [now])[..|s.log|] == s.log;
    if now <= start {
      AfterEverything(s.log, start);
    }
  }

  lemma StepKeepsWindow(
    s: Limiter, e: Event, count: nat, now: int, start: int, n: nat, maximum: nat, window: nat)
    requires InWindow(s, count, now, start, n, maximum, window) && now <= e.now
    requires |s.passed| <= n && maximum > 0
    requires e.Reset? ==> !(start < e.now <= start + window)
    ensures InWindow(Next(s, e, maximum, window),
                     count + (if Recorded(s, e) && start < e.now <= start + window then 1 else 0),
                     e.now, start, n, maximum, window)
  {
    assert InWindow(s, count, e.now, start, n, maximum, window);
    match e
    case Check(now, request) => CheckKeepsWindow(s, count, now, request, start, n, maximum, window);
    case Record(now, request) =>
      if request in s.passed {
        RecordKeepsWindow(s, count, now, request, start, n, maximum, window);
      }
    case Leave(_, request) =>
      assert |s.passed - {request}| <= |s.passed|;
    case Reset(now) =>
      if now <= start {
        AfterEverything(s.log, start);
      }
  }

  lemma {:induction false} WindowInvariant(events: seq<Event>, start: int, n: nat, maximum: nat, window: nat)
    requires events != [] && Monotone(events) && Steady(events, start, n, maximum, window) && maximum > 0
    ensures InWindow(Run(events, maximum, window), RecordedIn(events, start, maximum, window),
                     events[|events| - 1].now, start, n, maximum, window)
  {
    hide InWindow, Next, RecordedIn;
    var init, last := events[..|events| - 1], events[|events| - 1];
    assert forall k :: 0 <= k <= |init| ==> init[..k] == events[..k];
    var now := if init == [] then last.now else init[|init| - 1].now;
    if init == [] {
      NothingInWindow(last.now, start, n, maximum, window);
    } else {
      WindowInvariant(init, start, n, maximum, window);
      assert init[|init| - 1] == events[|init| - 1];
    }
    StepKeepsWindow(Run(init, maximum, window), last, RecordedIn(init, start, maximum, window), now, start, n,
        maximum, window);
    RecordedInLast(events, start, maximum, window);
  }

  lemma RecordedInLast(events: seq<Event>, start: int, maximum: nat, window: nat)
    requires events != []
    ensures var init, last := events[..|events| - 1], events[|events| - 1];
            RecordedIn(events, start, maximum, window) == RecordedIn(init, start, maximum, window) +
              (if Recorded(Run(init, maximum, window), last) && start < last.now <= start + window then 1 else 0)
  {
  }

  lemma NothingInWindow(now: int, start: int, n: nat, maximum: nat, window: nat)
    requires maximum > 0
    ensures InWindow(Run([], maximum, window), RecordedIn([], start, maximum, window), now, start, n, maximum, window)
  {
  }

  /** With at most `n` requests for a key between check and record, no window
      of the configured length without a reset holds more than
      `maximum - 1 + n` failures. */
  lemma WindowBound(events: seq<Event>, start: int, n: nat, maximum: nat, window: nat)
    requires Monotone(events) && Steady(events, start, n, maximum, window) && maximum > 0
    ensures RecordedIn(events, start, maximum, window) <= maximum - 1 + n
  {
    if events != [] {
      WindowInvariant(events, start, n, maximum, window);
    }
  }
}
