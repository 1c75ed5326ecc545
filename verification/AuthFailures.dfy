// The tracker of failed authentications: counts per key in a ten-minute window, growing back-off past a
// threshold, and a bound on the number of keys. Times are in nanoseconds; 0 is the zero time.
module AuthFailures {
  import opened Wrappers
  import opened Maps

  const SECOND := 1_000_000_000
  const WINDOW := 600 * SECOND
  const THRESHOLD := 5
  const MAX_BACKOFF := 300 * SECOND
  const MAX_ENTRIES := 4096

  datatype FailureState = FailureState(count: nat, first: int, blockedUntil: int)

  const NO_FAILURES := FailureState(0, 0, 0)

  datatype Event = Failed(key: string, at: int) | Cleared(key: string)

  function Min(a: nat, b: nat): nat {
    if a < b then a else b
  }

  function Pow2(n: nat): nat {
    if n == 0 then 1 else 2 * Pow2(n - 1)
  }

  // What one more failure makes of a key's state, back-off cap and all.
  function Recorded(state: FailureState, now: int): FailureState {
    var started := if state.first == 0 || now - state.first > WINDOW then FailureState(0, now, 0) else state;
    var counted := started.(count := started.count + 1);
    if counted.count > THRESHOLD then
      var backoff := Pow2(Min(counted.count - THRESHOLD - 1, 8)) * SECOND;
      counted.(blockedUntil := now + if backoff > MAX_BACKOFF then MAX_BACKOFF else backoff)
    else counted
  }

  // ----- the event log, as a reference -----

  // A key's state by its log alone, as if nothing were ever swept or evicted.
  function StateOf(log: seq<Event>, key: string): Option<FailureState> {
    if log == [] then None
    else
      var before := StateOf(log[..|log| - 1], key);
      match log[|log| - 1]
      case Failed(k, at) =>
        if k == key then Some(Recorded(if before.Some? then before.value else NO_FAILURES, at)) else before
      case Cleared(k) => if k == key then None else before
  }

  // Times do not go back along the log, and now is not before any of them.
  ghost predicate Timed(log: seq<Event>, now: int) {
    && (forall i :: 0 <= i < |log| && log[i].Failed? ==> 0 < log[i].at <= now)
    && (forall i, j :: 0 <= i < j < |log| && log[i].Failed? && log[j].Failed? ==> log[i].at <= log[j].at)
  }

  function Failures(log: seq<Event>, key: string): nat {
    if log == [] then 0
    else Failures(log[..|log| - 1], key) + if log[|log| - 1].Failed? && log[|log| - 1].key == key then 1 else 0
  }

  // The i-th event is the failure that opened the key's present window: all its failures since are in the
  // window, it has not been cleared since, and just before it there was no window it could belong to.
  ghost predicate Opens(log: seq<Event>, key: string, i: nat) {
    && i < |log| && log[i].Failed? && log[i].key == key
    && (forall j :: i <= j < |log| && log[j].key == key ==> log[j].Failed? && log[j].at - log[i].at <= WINDOW)
    && (StateOf(log[..i], key).Some? ==> log[i].at - StateOf(log[..i], key).value.first > WINDOW)
  }

  // The time of a key's last failure.
  function LastFailure(log: seq<Event>, key: string): int {
    if log == [] then 0
    else if log[|log| - 1].Failed? && log[|log| - 1].key == key then log[|log| - 1].at
    else LastFailure(log[..|log| - 1], key)
  }

  lemma {:induction false} BackOffIsCapped(n: nat)
    ensures n <= 8 ==> 1 <= Pow2(n) <= 256
  {
    if 0 < n <= 8 {
      BackOffIsCapped(n - 1);
      assert Pow2(n) == 2 * Pow2(n - 1);
      if n == 8 {
        assert Pow2(8) == 256;
      } else {
        Pow2Grows(n, 7);
        assert Pow2(7) == 128;
      }
    }
  }

  lemma {:induction false} Pow2Grows(m: nat, n: nat)
    requires m <= n
    ensures Pow2(m) <= Pow2(n)
    decreases n
  {
    if m < n {
      Pow2Grows(m, n - 1);
    }
  }

  // Recorded state, said without the cap: count, first time and last time of a window determine it.
  lemma RecordedMeans(state: FailureState, now: int)
    requires now > 0
    ensures var r := Recorded(state, now);
            && r.count >= 1 && r.first != 0
            && (r.count > THRESHOLD ==> r.blockedUntil == now + Pow2(Min(r.count - 6, 8)) * SECOND
                                        && now + SECOND <= r.blockedUntil <= now + 256 * SECOND)
  {
    var r := Recorded(state, now);
    if r.count > THRESHOLD {
      BackOffIsCapped(Min(r.count - 6, 8));
    }
  }

  // What the state of a key says about its log: the number and first time of the failures of its window,
  // and past the threshold a block from the last of them that doubles from one second up to 256.
  ghost predicate Means(log: seq<Event>, key: string, i: nat, s: FailureState) {
    && Opens(log, key, i)
    && s.first == log[i].at && s.count == Failures(log, key) - Failures(log[..i], key)
    && (s.count > THRESHOLD ==> s.blockedUntil == LastFailure(log, key) + Pow2(Min(s.count - 6, 8)) * SECOND)
    && (s.count <= THRESHOLD ==> s.blockedUntil == 0)
  }

  lemma MeansNext(log: seq<Event>, key: string, i: nat, s: FailureState, e: Event)
    requires Means(log, key, i, s) && (e.key == key ==> e.Failed? && e.at > 0 && e.at - s.first <= WINDOW && s.first != 0)
    ensures Means(log + [e], key, i, if e.key == key then Recorded(s, e.at) else s)
  {
    var next := log + [e];
    assert next[..i] == log[..i] && next[..|log|] == log;
    if e.key == key {
      RecordedMeans(s, e.at);
    }
    forall j | i <= j < |next| && next[j].key == key
      ensures next[j].Failed? && next[j].at - next[i].at <= WINDOW
    {
      assert next[i] == log[i];
      if j < |log| {
        assert next[j] == log[j];
      }
    }
  }

  lemma MeansFirst(log: seq<Event>, key: string, at: int)
    requires at > 0
    requires StateOf(log, key).Some? ==> at - StateOf(log, key).value.first > WINDOW
    ensures StateOf(log + [Failed(key, at)], key).Some?
            && Means(log + [Failed(key, at)], key, |log|, StateOf(log + [Failed(key, at)], key).value)
  {
    var next := log + [Failed(key, at)];
    assert next[..|log|] == log;
  }

  lemma {:induction false} StateMeans(log: seq<Event>, key: string, now: int) returns (i: nat)
    requires Timed(log, now) && StateOf(log, key).Some?
    ensures Means(log, key, i, StateOf(log, key).value)
  {
    var rest, last := log[..|log| - 1], log[|log| - 1];
    assert log == rest + [last];
    var before := StateOf(rest, key);
    if last.key != key || (before.Some? && last.at - before.value.first <= WINDOW) {
      i := StateMeans(rest, key, now);
      MeansNext(rest, key, i, before.value, last);
    } else {
      i := |rest|;
      MeansFirst(rest, key, last.at);
    }
  }

  lemma {:induction false} LastFailureBefore(log: seq<Event>, key: string, now: int)
    requires Timed(log, now) && now >= 0
    ensures LastFailure(log, key) <= now
  {
    if log != [] {
      LastFailureBefore(log[..|log| - 1], key, now);
    }
  }

  // Within a window one more failure never shortens the block.
  lemma BlockNeverShrinks(log: seq<Event>, key: string, now: int)
    requires Timed(log, now) && now > 0
    requires StateOf(log, key).Some? && now - StateOf(log, key).value.first <= WINDOW
    ensures Recorded(StateOf(log, key).value, now).blockedUntil >= StateOf(log, key).value.blockedUntil
    ensures Recorded(StateOf(log, key).value, now).first == StateOf(log, key).value.first
  {
    var s := StateOf(log, key).value;
    var i := StateMeans(log, key, now);
    LastFailureBefore(log, key, now);
    RecordedMeans(s, now);
    if s.count > THRESHOLD {
      Pow2Grows(Min(s.count - 6, 8), Min(s.count - 5, 8));
    }
  }

  // ----- the tracker -----

  predicate Expired(s: FailureState, now: int) {
    s.first == 0 || now - s.first > WINDOW
  }

  // A key that has never been evicted is in the map with exactly the state its log gives it, unless
  // that window is over.
  ghost predicate Agrees(failures: map<string, FailureState>, log: seq<Event>, evicted: set<string>, now: int) {
    forall key :: key !in evicted ==>
      if key in failures then StateOf(log, key) == Some(failures[key])
      else StateOf(log, key).Some? ==> Expired(StateOf(log, key).value, now)
  }

  // The first n keys are not in the map.
  ghost predicate Gone(failures: map<string, FailureState>, keys: seq<string>, n: nat)
    requires n <= |keys|
  {
    n > 0 ==> keys[n - 1] !in failures && Gone(failures, keys, n - 1)
  }

  lemma {:induction false} GoneStays(failures: map<string, FailureState>, keys: seq<string>, n: nat, key: string)
    requires n <= |keys| && Gone(failures, keys, n)
    ensures Gone(failures - {key}, keys, n)
  {
    if n > 0 {
      GoneStays(failures, keys, n - 1, key);
    }
  }

  lemma GoneStep(failures: map<string, FailureState>, keys: seq<string>, n: nat)
    requires n < |keys| && Gone(failures, keys, n)
    ensures Gone(failures - {keys[n]}, keys, n + 1)
  {
    GoneStays(failures, keys, n, keys[n]);
  }

  ghost function ClearedAll(keys: seq<string>): seq<Event> {
    if keys == [] then [] else ClearedAll(keys[..|keys| - 1]) + [Cleared(keys[|keys| - 1])]
  }

  class Tracker {
    var failures: map<string, FailureState>
    ghost var log: seq<Event>
    ghost var evicted: set<string>
    ghost var clock: int

    ghost predicate Valid()
      reads this
    {
      && |failures| <= MAX_ENTRIES && "" !in failures && clock > 0
      && Timed(log, clock) && Agrees(failures, log, evicted, clock)
    }

    constructor ()
      ensures Valid() && log == [] && evicted == {}
    {
      failures, log, evicted, clock := map[], [], {}, 1;
    }

    // sweepExpiredLocked.
    method Sweep(now: int)
      requires Valid() && clock <= now
      modifies this`failures, this`clock
      ensures Valid() && clock == now
      ensures failures == map k | k in old(failures) && !Expired(old(failures)[k], now) :: old(failures)[k]
      ensures |failures| <= |old(failures)|
    {
      clock := now;
      var left := failures.Keys;
      while left != {}
        invariant left <= old(failures).Keys && clock == now
        invariant failures == map k | k in old(failures) && (k in left || !Expired(old(failures)[k], now)) :: old(failures)[k]
        decreases left
      {
        var k :| k in left;
        left := left - {k};
        if Expired(failures[k], now) { failures := failures - {k}; }
      }
      FewerKeys(failures, old(failures));
    }

    // evictOldestLocked: some key whose window opened first.
    method EvictOldest()
      requires Valid() && failures != map[]
      modifies this`failures, this`evicted
      ensures Valid() && |failures| == |old(failures)| - 1
      ensures exists k :: k in old(failures) && failures == old(failures) - {k} && evicted == old(evicted) + {k}
                          && forall n :: n in old(failures) ==> old(failures)[k].first <= old(failures)[n].first
    {
      var oldest := "";
      var left := failures.Keys;
      while left != {}
        invariant left <= failures.Keys
        invariant oldest == "" ==> left == failures.Keys
        invariant oldest != "" ==> oldest in failures && forall n :: n in failures && n !in left ==> failures[oldest].first <= failures[n].first
        decreases left
      {
        var k :| k in left;
        left := left - {k};
        if oldest == "" || failures[k].first < failures[oldest].first { oldest := k; }
      }
      assert (failures - {oldest}).Keys == failures.Keys - {oldest};
      failures, evicted := failures - {oldest}, evicted + {oldest};
    }

    // Record: one failure of every key.
    method Record(keys: seq<string>, now: int)
      requires Valid() && clock <= now && "" !in keys
      modifies this
      ensures Valid() && clock == now && log == old(log) + seq(|keys|, i requires 0 <= i < |keys| => Failed(keys[i], now))
      ensures |old(failures)| + |keys| <= MAX_ENTRIES ==> evicted == old(evicted)
    {
      Sweep(now);
      for i := 0 to |keys|
        invariant Valid() && clock == now
        invariant log == old(log) + seq(i, j requires 0 <= j < i => Failed(keys[j], now))
        invariant |failures| <= |old(failures)| + i && (|old(failures)| + i <= MAX_ENTRIES ==> evicted == old(evicted))
      {
        RecordOne(keys[i], now);
      }
    }

    method RecordOne(key: string, now: int)
      requires Valid() && key != "" && clock == now
      modifies this`failures, this`log, this`evicted
      ensures Valid() && log == old(log) + [Failed(key, now)]
      ensures |failures| <= |old(failures)| + 1 && (|old(failures)| < MAX_ENTRIES ==> evicted == old(evicted))
    {
      if key !in failures && |failures| >= MAX_ENTRIES { EvictOldest(); }
      var state := if key in failures then failures[key] else NO_FAILURES;
      RecordAgrees(failures, log, evicted, now, key, state);
      assert failures[key := Recorded(state, now)].Keys == failures.Keys + {key};
      log := log + [Failed(key, now)];
      failures := failures[key := Recorded(state, now)];
    }

    // Clear.
    method Clear(keys: seq<string>)
      requires Valid()
      modifies this`failures, this`log
      ensures Valid() && Gone(failures, keys, |keys|)
      ensures log == old(log) + ClearedAll(keys)
    {
      for i := 0 to |keys|
        invariant Valid() && Gone(failures, keys, i)
        invariant log == old(log) + ClearedAll(keys[..i])
      {
        assert keys[..i + 1][..i] == keys[..i];
        GoneStep(failures, keys, i);
        ClearOne(keys[i]);
      }
      assert keys[..|keys|] == keys;
    }

    method ClearOne(key: string)
      requires Valid()
      modifies this`failures, this`log
      ensures Valid() && failures == old(failures) - {key} && log == old(log) + [Cleared(key)]
    {
      ClearAgrees(failures, log, evicted, clock, key);
      FewerKeys(failures - {key}, failures);
      log := log + [Cleared(key)];
      failures := failures - {key};
    }

    // RetryAfter: the rest of the block of the first blocked key, in seconds, rounded up to the next whole
    // one. The sweep comes first, so a block ends with its window even if it was to last longer.
    method RetryAfter(keys: seq<string>, now: int) returns (seconds: int)
      requires Valid() && clock <= now
      modifies this`failures, this`clock
      ensures Valid() && clock == now
      ensures seconds == 0 ==> forall k :: k in keys && k !in evicted ==> !Blocked(log, k, now)
      ensures seconds != 0 ==> exists i :: 0 <= i < |keys| && keys[i] in failures && failures[keys[i]].blockedUntil > now
                                           && seconds == (failures[keys[i]].blockedUntil - now) / SECOND + 1
                                           && (keys[i] !in evicted ==> Blocked(log, keys[i], now) && 1 <= seconds <= 257)
    {
      Sweep(now);
      for i := 0 to |keys|
        invariant forall j :: 0 <= j < i && keys[j] !in evicted ==> !Blocked(log, keys[j], now)
      {
        if keys[i] in failures && failures[keys[i]].blockedUntil > now {
          if keys[i] !in evicted { BlockIsShort(log, keys[i], now); }
          return (failures[keys[i]].blockedUntil - now) / SECOND + 1;
        }
      }
      return 0;
    }
  }

  // By its log a key is blocked: its window is still open and its block still runs.
  ghost predicate Blocked(log: seq<Event>, key: string, now: int) {
    StateOf(log, key).Some? && !Expired(StateOf(log, key).value, now) && StateOf(log, key).value.blockedUntil > now
  }

  lemma BlockIsShort(log: seq<Event>, key: string, now: int)
    requires Timed(log, now) && now > 0 && StateOf(log, key).Some?
    ensures StateOf(log, key).value.blockedUntil <= now + 256 * SECOND
  {
    var i := StateMeans(log, key, now);
    LastFailureBefore(log, key, now);
    var s := StateOf(log, key).value;
    if s.count > THRESHOLD {
      BackOffIsCapped(Min(s.count - 6, 8));
    }
  }

  // Failures of a key: one, and n more in the last instant of its window.
  function LateFailures(key: string, n: nat): seq<Event> {
    seq(n + 1, i => Failed(key, if i == 0 then 1 else 1 + WINDOW))
  }

  lemma {:induction false} LateFailuresCount(key: string, n: nat)
    ensures StateOf(LateFailures(key, n), key)
            == Some(FailureState(n + 1, 1, if n < 5 then 0 else 1 + WINDOW + Pow2(Min(n - 5, 8)) * SECOND))
  {
    var log := LateFailures(key, n);
    if n == 0 {
      assert log[..0] == [];
    } else {
      LateFailuresCount(key, n - 1);
      assert log[..n] == LateFailures(key, n - 1);
      RecordedMeans(StateOf(log[..n], key).value, 1 + WINDOW);
    }
  }

  // The sixth failure blocks for a second, of which the window leaves it one nanosecond.
  lemma BlockEndsWithItsWindow(key: string)
    ensures var log := LateFailures(key, 5);
            && Timed(log, 1 + WINDOW)
            && StateOf(log, key).Some? && StateOf(log, key).value.blockedUntil == 1 + WINDOW + SECOND
            && Blocked(log, key, 1 + WINDOW) && !Blocked(log, key, 2 + WINDOW)
  {
    LateFailuresCount(key, 5);
  }

  lemma RecordAgrees(failures: map<string, FailureState>, log: seq<Event>, evicted: set<string>, now: int, key: string, state: FailureState)
    requires Agrees(failures, log, evicted, now) && Timed(log, now) && now > 0
    requires state == if key in failures then failures[key] else NO_FAILURES
    ensures Agrees(failures[key := Recorded(state, now)], log + [Failed(key, now)], evicted, now)
    ensures Timed(log + [Failed(key, now)], now)
  {
    assert (log + [Failed(key, now)])[..|log|] == log;
  }

  lemma ClearAgrees(failures: map<string, FailureState>, log: seq<Event>, evicted: set<string>, now: int, key: string)
    requires Agrees(failures, log, evicted, now) && Timed(log, now)
    ensures Agrees(failures - {key}, log + [Cleared(key)], evicted, now)
    ensures Timed(log + [Cleared(key)], now)
  {
    assert (log + [Cleared(key)])[..|log|] == log;
  }
}
