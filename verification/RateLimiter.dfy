// The fixed-window limiter on mutations: per minute, per actor and per address. Times are in nanoseconds.
module RateLimiter {
  const MINUTE := 60_000_000_000
  const MAX_KEYS := 4096

  // One call; the actor is the address where the request names none. A call is not counted when the
  // key map has no room for it, and is then not allowed either.
  datatype Call = Call(actor: string, remote: string, at: int, counted: bool, allowed: bool)

  // now.Truncate(time.Minute).
  function Window(at: int): int {
    at - at % MINUTE
  }

  function ActorKey(actor: string): string {
    "actor:" + actor
  }

  function AddressKey(remote: string): string {
    "ip:" + remote
  }

  // The keys a call is counted under.
  predicate Under(c: Call, key: string) {
    key == ActorKey(c.actor) || (c.remote != "" && key == AddressKey(c.remote))
  }

  // How many calls of a log were counted under a key in the window that starts at w.
  function CountedIn(log: seq<Call>, key: string, w: int): nat {
    if log == [] then 0
    else CountedIn(log[..|log| - 1], key, w)
         + var c := log[|log| - 1]; if c.counted && Under(c, key) && Window(c.at) == w then 1 else 0
  }

  // How many were allowed.
  function AllowedIn(log: seq<Call>, key: string, w: int): nat {
    if log == [] then 0
    else AllowedIn(log[..|log| - 1], key, w)
         + var c := log[|log| - 1]; if c.allowed && Under(c, key) && Window(c.at) == w then 1 else 0
  }

  // How many were allowed under a key within a minute from t, both ends included.
  function AllowedSpan(log: seq<Call>, key: string, t: int): nat {
    if log == [] then 0
    else AllowedSpan(log[..|log| - 1], key, t)
         + var c := log[|log| - 1]; if c.allowed && Under(c, key) && t <= c.at <= t + MINUTE then 1 else 0
  }

  lemma WindowsOfSpan(t: int, at: int)
    requires t <= at <= t + MINUTE
    ensures Window(at) == Window(t) || Window(at) == Window(t) + MINUTE
  {
    var q, d := t / MINUTE, at / MINUTE;
    assert d == q || d == q + 1;
  }

  lemma {:induction false} SpanIsTwoWindows(log: seq<Call>, key: string, t: int)
    ensures AllowedSpan(log, key, t) <= AllowedIn(log, key, Window(t)) + AllowedIn(log, key, Window(t) + MINUTE)
  {
    if log != [] {
      var c := log[|log| - 1];
      SpanIsTwoWindows(log[..|log| - 1], key, t);
      if t <= c.at <= t + MINUTE {
        WindowsOfSpan(t, c.at);
      }
    }
  }

  lemma {:induction false} NoneLater(log: seq<Call>, key: string, w: int)
    requires forall c :: c in log ==> Window(c.at) < w
    ensures CountedIn(log, key, w) == AllowedIn(log, key, w) == 0
  {
    if log != [] {
      NoneLater(log[..|log| - 1], key, w);
    }
  }

  lemma Snoc(log: seq<Call>, c: Call, key: string, w: int)
    ensures CountedIn(log + [c], key, w)
            == CountedIn(log, key, w) + if c.counted && Under(c, key) && Window(c.at) == w then 1 else 0
    ensures AllowedIn(log + [c], key, w)
            == AllowedIn(log, key, w) + if c.allowed && Under(c, key) && Window(c.at) == w then 1 else 0
  {
    assert (log + [c])[..|log|] == log;
  }

  // ----- the counts -----

  function Tally(counts: map<string, nat>, key: string): nat {
    if key in counts then counts[key] else 0
  }

  function Bump(counts: map<string, nat>, key: string): map<string, nat> {
    counts[key := Tally(counts, key) + 1]
  }

  function NewKeys(counts: map<string, nat>, c: Call): nat {
    (if ActorKey(c.actor) in counts then 0 else 1)
    + if c.remote != "" && AddressKey(c.remote) !in counts then 1 else 0
  }

  function Counted(counts: map<string, nat>, c: Call): map<string, nat> {
    var named := Bump(counts, ActorKey(c.actor));
    if c.remote != "" then Bump(named, AddressKey(c.remote)) else named
  }

  lemma BumpSize(counts: map<string, nat>, key: string)
    ensures |Bump(counts, key)| == |counts| + if key in counts then 0 else 1
  {
    assert Bump(counts, key).Keys == counts.Keys + {key};
  }

  lemma CountedTally(counts: map<string, nat>, c: Call)
    ensures |Counted(counts, c)| == |counts| + NewKeys(counts, c)
    ensures forall key :: Tally(Counted(counts, c), key) == Tally(counts, key) + if Under(c, key) then 1 else 0
  {
    var actor, address := ActorKey(c.actor), AddressKey(c.remote);
    assert actor[0] != address[0];
    BumpSize(counts, actor);
    BumpSize(Bump(counts, actor), address);
  }

  // In every window every key is within the limit, and what the present window has counted is known.
  ghost predicate Within(log: seq<Call>, counts: map<string, nat>, window: int, limit: nat) {
    && (forall key, w :: AllowedIn(log, key, w) <= limit)
    && (forall key :: AllowedIn(log, key, window) <= CountedIn(log, key, window) == Tally(counts, key))
  }

  // Logging a call keeps every bound, if it is allowed only within the limit.
  lemma StaysWithin(log: seq<Call>, c: Call, before: map<string, nat>, after: map<string, nat>, limit: nat)
    requires Within(log, before, Window(c.at), limit)
    requires c.allowed ==> c.counted && forall key :: Under(c, key) ==> Tally(before, key) < limit
    requires forall key :: Tally(after, key) == Tally(before, key) + if c.counted && Under(c, key) then 1 else 0
    ensures Within(log + [c], after, Window(c.at), limit)
  {
    forall key, w
      ensures AllowedIn(log + [c], key, w) <= limit
      ensures w == Window(c.at) ==> AllowedIn(log + [c], key, w) <= CountedIn(log + [c], key, w) == Tally(after, key)
    {
      Snoc(log, c, key, w);
    }
  }

  // The log has grown by one call, answered by the number of calls counted before it.
  ghost predicate Answered(before: seq<Call>, log: seq<Call>, actor: string, remote: string, at: int, limit: nat, ok: bool) {
    && |log| == |before| + 1 && log == before + [Call(actor, remote, at, log[|log| - 1].counted, ok)]
    && (ok <==> log[|log| - 1].counted
                && CountedIn(before, ActorKey(actor), Window(at)) < limit
                && (remote == "" || CountedIn(before, AddressKey(remote), Window(at)) < limit))
  }

  lemma AnsweredByTally(log: seq<Call>, c: Call, counts: map<string, nat>, limit: nat)
    requires Within(log, counts, Window(c.at), limit)
    requires c.allowed <==> c.counted && Tally(counts, ActorKey(c.actor)) < limit
                            && (c.remote == "" || Tally(counts, AddressKey(c.remote)) < limit)
    ensures Answered(log, log + [c], c.actor, c.remote, c.at, limit, c.allowed)
  {
  }

  // A call that is counted, and is allowed by what the count has become.
  lemma CountedCall(log: seq<Call>, counts: map<string, nat>, c: Call, limit: nat)
    requires Within(log, counts, Window(c.at), limit) && c.counted
    requires c.allowed <==> Tally(Counted(counts, c), ActorKey(c.actor)) <= limit
                            && (c.remote == "" || Tally(Counted(counts, c), AddressKey(c.remote)) <= limit)
    ensures Within(log + [c], Counted(counts, c), Window(c.at), limit)
    ensures Answered(log, log + [c], c.actor, c.remote, c.at, limit, c.allowed)
  {
    CountedTally(counts, c);
    AnsweredByTally(log, c, counts, limit);
    StaysWithin(log, c, counts, Counted(counts, c), limit);
  }

  class Limiter {
    var window: int
    var counts: map<string, nat>
    ghost var log: seq<Call>

    ghost predicate Valid(limit: nat)
      reads this
    {
      && |counts| <= MAX_KEYS
      && (forall c :: c in log ==> Window(c.at) <= window)
      && Within(log, counts, window, limit)
    }

    constructor ()
      ensures log == [] && forall limit: nat :: Valid(limit)
    {
      window, counts, log := 0, map[], [];
    }

    // Allow, for a request of `name` (or of nobody) from `remote`. A counted call is allowed exactly while
    // fewer than `limit` calls were counted before it in its window, under its actor and its address.
    method Allow(name: string, remote: string, at: int, limit: int) returns (ok: bool)
      requires limit > 0 ==> Valid(limit) && window <= Window(at)
      modifies this
      ensures limit <= 0 ==> ok && log == old(log)
      ensures limit > 0 ==> Valid(limit) && window == Window(at)
      ensures limit > 0 ==> Answered(old(log), log, if name == "" then remote else name, remote, at, limit, ok)
      ensures limit > 0 ==> log[|log| - 1].counted || |counts| > MAX_KEYS - 2
    {
      if limit <= 0 { return true; }
      Enter(Window(at), limit);
      ok := Count(if name == "" then remote else name, remote, at, limit);
    }

    method Count(actor: string, remote: string, at: int, limit: nat) returns (ok: bool)
      requires Valid(limit) && window == Window(at)
      modifies this`counts, this`log
      ensures Valid(limit) && Answered(old(log), log, actor, remote, at, limit, ok)
      ensures log[|log| - 1].counted || |counts| > MAX_KEYS - 2
    {
      var c := Call(actor, remote, at, true, false);
      if |counts| + NewKeys(counts, c) > MAX_KEYS {
        ok := false;
        c := c.(counted := false);
        StaysWithin(log, c, counts, counts, limit);
        AnsweredByTally(log, c, counts, limit);
        log := log + [c];
        return;
      }
      CountedTally(counts, c);
      var counted := Counted(counts, c);
      ok := counted[ActorKey(actor)] <= limit && (remote == "" || counted[AddressKey(remote)] <= limit);
      c := c.(allowed := ok);
      CountedCall(log, counts, c, limit);
      counts := counted;
      log := log + [c];
    }

    // A new minute starts an empty count.
    method Enter(w: int, limit: nat)
      requires Valid(limit) && window <= w
      modifies this`window, this`counts
      ensures Valid(limit) && window == w
    {
      if window != w {
        window, counts := w, map[];
        forall key ensures AllowedIn(log, key, w) == CountedIn(log, key, w) == 0 {
          NoneLater(log, key, w);
        }
      }
    }
  }

  // Over any run at one limit, no minute-long span allows more than twice the limit under any key.
  lemma SpanAllowsTwice(log: seq<Call>, counts: map<string, nat>, window: int, limit: nat, key: string, t: int)
    requires Within(log, counts, window, limit)
    ensures AllowedSpan(log, key, t) <= 2 * limit
  {
    SpanIsTwoWindows(log, key, t);
  }
}
