// The replay guard of the service and the token check that uses it. Times are in nanoseconds.
module NonceGuard {
  import opened Wrappers
  import opened GoStrings
  import opened Maps

  const SECOND := 1_000_000_000
  const TOKEN_MAX_AGE := 300 * SECOND
  const CLOCK_SKEW := 30 * SECOND
  const DEFAULT_MAX_SIZE: nat := 4096

  datatype Event =
    | Accepted(nonce: string, expires: int, at: int)
    | Evicted(nonce: string, expires: int, at: int, held: map<string, int>)

  // A guard full of unexpired nonces gave up one that none of the others would have outlived.
  ghost predicate FairEviction(e: Event, nonce: string, expires: int, maxSize: nat) {
    && e.Evicted? && e.nonce == nonce && e.expires == expires
    && |e.held| == maxSize && nonce in e.held && e.held[nonce] == expires
    && forall n :: n in e.held ==> e.at < e.held[n] && expires <= e.held[n]
  }

  ghost predicate EvictedSince(log: seq<Event>, i: nat, nonce: string, expires: int, maxSize: nat) {
    exists k :: i < k < |log| && FairEviction(log[k], nonce, expires, maxSize)
  }

  // The replay property of a whole run: accepted again strictly before its expiry only if evicted between.
  ghost predicate ReplaySafe(log: seq<Event>, maxSize: nat) {
    forall i, j :: 0 <= i < j < |log| && log[i].Accepted? && log[j].Accepted?
                   && log[i].nonce == log[j].nonce && log[j].at < log[i].expires ==>
                   EvictedSince(log[..j], i, log[i].nonce, log[i].expires, maxSize)
  }

  // Where every acceptance stands: expired, still held, or evicted since.
  ghost predicate Accounted(log: seq<Event>, seen: map<string, int>, now: int, maxSize: nat) {
    forall i :: 0 <= i < |log| && log[i].Accepted? ==>
      || log[i].expires <= now
      || (log[i].nonce in seen && seen[log[i].nonce] == log[i].expires)
      || EvictedSince(log, i, log[i].nonce, log[i].expires, maxSize)
  }

  lemma EvictedSinceGrows(log: seq<Event>, e: Event, i: nat, nonce: string, expires: int, maxSize: nat)
    requires EvictedSince(log, i, nonce, expires, maxSize)
    ensures EvictedSince(log + [e], i, nonce, expires, maxSize)
  {
    var k :| i < k < |log| && FairEviction(log[k], nonce, expires, maxSize);
    assert (log + [e])[k] == log[k];
  }

  lemma EvictionIsAccounted(log: seq<Event>, seen: map<string, int>, now: int, maxSize: nat, e: Event)
    requires Accounted(log, seen, now, maxSize) && ReplaySafe(log, maxSize)
    requires FairEviction(e, e.nonce, e.expires, maxSize) && e.nonce in seen && seen[e.nonce] == e.expires
    ensures Accounted(log + [e], seen - {e.nonce}, now, maxSize) && ReplaySafe(log + [e], maxSize)
  {
    var next := log + [e];
    forall i | 0 <= i < |next| && next[i].Accepted?
      ensures || next[i].expires <= now
              || (next[i].nonce in seen - {e.nonce} && (seen - {e.nonce})[next[i].nonce] == next[i].expires)
              || EvictedSince(next, i, next[i].nonce, next[i].expires, maxSize)
    {
      assert next[i] == log[i];
      if log[i].nonce == e.nonce && log[i].expires == e.expires {
        assert FairEviction(next[|log|], log[i].nonce, log[i].expires, maxSize);
      } else if EvictedSince(log, i, log[i].nonce, log[i].expires, maxSize) {
        EvictedSinceGrows(log, e, i, log[i].nonce, log[i].expires, maxSize);
      }
    }
    forall i, j | 0 <= i < j < |next| && next[i].Accepted? && next[j].Accepted?
                  && next[i].nonce == next[j].nonce && next[j].at < next[i].expires
      ensures EvictedSince(next[..j], i, next[i].nonce, next[i].expires, maxSize)
    {
      assert next[..j] == log[..j];
    }
  }

  lemma AcceptanceIsAccounted(log: seq<Event>, seen: map<string, int>, now: int, maxSize: nat, e: Event)
    requires Accounted(log, seen, now, maxSize) && ReplaySafe(log, maxSize)
    requires e.Accepted? && e.at == now && e.nonce !in seen
    ensures Accounted(log + [e], seen[e.nonce := e.expires], now, maxSize) && ReplaySafe(log + [e], maxSize)
  {
    var next := log + [e];
    forall i | 0 <= i < |next| && next[i].Accepted?
      ensures || next[i].expires <= now
              || (next[i].nonce in seen[e.nonce := e.expires] && seen[e.nonce := e.expires][next[i].nonce] == next[i].expires)
              || EvictedSince(next, i, next[i].nonce, next[i].expires, maxSize)
    {
      if i < |log| {
        assert next[i] == log[i];
        if EvictedSince(log, i, log[i].nonce, log[i].expires, maxSize) {
          EvictedSinceGrows(log, e, i, log[i].nonce, log[i].expires, maxSize);
        }
      }
    }
    forall i, j | 0 <= i < j < |next| && next[i].Accepted? && next[j].Accepted?
                  && next[i].nonce == next[j].nonce && next[j].at < next[i].expires
      ensures EvictedSince(next[..j], i, next[i].nonce, next[i].expires, maxSize)
    {
      assert next[i] == log[i];
      if j < |log| {
        assert next[..j] == log[..j];
      } else {
        assert next[..j] == log;
      }
    }
  }

  class Guard {
    var seen: map<string, int>
    const maxSize: nat
    ghost var log: seq<Event>
    ghost var clock: int

    // The guard never outgrows its size, and every run so far is safe against replays.
    ghost predicate Valid()
      reads this
    {
      && maxSize > 0 && |seen| <= maxSize && "" !in seen
      && Accounted(log, seen, clock, maxSize) && ReplaySafe(log, maxSize)
    }

    constructor (size: int)
      ensures Valid() && log == [] && maxSize == if size <= 0 then DEFAULT_MAX_SIZE else size
    {
      maxSize := if size <= 0 then DEFAULT_MAX_SIZE else size;
      seen, log, clock := map[], [], 0;
    }

    method Purge(now: int)
      modifies this`seen
      ensures seen == map n | n in old(seen) && now < old(seen)[n] :: old(seen)[n]
      ensures seen.Keys <= old(seen).Keys
    {
      var left := seen.Keys;
      while left != {}
        invariant left <= old(seen).Keys
        invariant seen == map n | n in old(seen) && (n in left || now < old(seen)[n]) :: old(seen)[n]
        decreases left
      {
        var n :| n in left;
        left := left - {n};
        if seen[n] <= now { seen := seen - {n}; }
      }
    }

    // The nonce that expires first; the empty name stands for none yet.
    method Oldest() returns (oldest: string)
      requires seen != map[] && "" !in seen
      ensures oldest in seen && forall n :: n in seen ==> seen[oldest] <= seen[n]
    {
      oldest := "";
      var left := seen.Keys;
      while left != {}
        invariant left <= seen.Keys
        invariant oldest == "" ==> left == seen.Keys
        invariant oldest != "" ==> oldest in seen && forall n :: n in seen && n !in left ==> seen[oldest] <= seen[n]
        decreases left
      {
        var n :| n in left;
        left := left - {n};
        if oldest == "" || seen[n] < seen[oldest] { oldest := n; }
      }
    }

    // A guard full of unexpired nonces gives up the one that expires first.
    method MakeRoom()
      requires Valid() && |seen| == maxSize && forall n :: n in seen ==> clock < seen[n]
      modifies this`seen, this`log
      ensures Valid() && |seen| < maxSize && seen.Keys <= old(seen).Keys
      ensures old(log) <= log
    {
      var oldest := Oldest();
      ghost var e := Evicted(oldest, seen[oldest], clock, seen);
      EvictionIsAccounted(log, seen, clock, maxSize, e);
      log := log + [e];
      seen := seen - {oldest};
    }

    // Accept. The clock does not go back. A nonce is turned down exactly while it is held unexpired.
    method Accept(raw: string, expires: int, now: int) returns (ok: bool)
      requires Valid() && clock <= now
      modifies this
      ensures Valid() && clock == now
      ensures ok <==> Trim(raw) != "" && !(Trim(raw) in old(seen) && now < old(seen)[Trim(raw)])
      ensures ok ==> Trim(raw) in seen && seen[Trim(raw)] == expires
      ensures ok ==> |log| > 0 && log[|log| - 1] == Accepted(Trim(raw), expires, now) && old(log) <= log
      ensures !ok ==> log == old(log)
    {
      var nonce := Trim(raw);
      clock := now;
      if nonce == "" { return false; }
      Purge(now);
      FewerKeys(seen, old(seen));
      if nonce in seen { return false; }
      if |seen| >= maxSize { MakeRoom(); }
      AcceptanceIsAccounted(log, seen, now, maxSize, Accepted(nonce, expires, now));
      log := log + [Accepted(nonce, expires, now)];
      seen := seen[nonce := expires];
      ok := true;
    }
  }

  // ----- validateServiceBearerTokenBound -----

  // The claims of a token whose signature matches; a malformed or forged token has none.
  datatype Claims = Claims(issuedAt: int, nonce: string, verb: string, path: string, body: string)
  datatype Binding = Binding(verb: string, path: string, body: string)

  datatype Verdict = Valid | Malformed | BadTime | FromFuture | Expired | NoNonce | Unbound | Replayed

  predicate BoundTo(c: Claims, b: Binding) {
    && (Trim(c.verb) != "" ==> EqualFold(Trim(c.verb), Trim(b.verb)))
    && (Trim(c.path) != "" ==> Trim(c.path) == Trim(b.path))
    && (Trim(c.body) != "" ==> Trim(c.body) == Trim(b.body))
  }

  function IssuedAt(c: Claims): int {
    c.issuedAt * SECOND
  }

  // Everything the check asks of a token but that its nonce is new.
  predicate Fresh(decoded: Option<Claims>, binding: Binding, now: int) {
    && decoded.Some? && decoded.value.issuedAt > 0
    && IssuedAt(decoded.value) - CLOCK_SKEW <= now <= IssuedAt(decoded.value) + TOKEN_MAX_AGE
    && Trim(decoded.value.nonce) != "" && BoundTo(decoded.value, binding)
  }

  // A token passes exactly if it is fresh and its nonce is not held unexpired; a pass is logged with the
  // end of the token's five minutes, so the guard's replay safety is the token's.
  method Validate(decoded: Option<Claims>, binding: Binding, now: int, guard: Guard) returns (v: Verdict)
    requires guard.Valid() && guard.clock <= now
    modifies guard
    ensures guard.Valid() && guard.clock <= now
    ensures v == Verdict.Valid <==>
              Fresh(decoded, binding, now)
              && !(Trim(decoded.value.nonce) in old(guard.seen) && now < old(guard.seen)[Trim(decoded.value.nonce)])
    ensures v == Replayed ==> Fresh(decoded, binding, now)
    ensures v == Verdict.Valid ==> var expires := IssuedAt(decoded.value) + TOKEN_MAX_AGE;
              && |guard.log| > 0 && old(guard.log) <= guard.log
              && guard.log[|guard.log| - 1] == Accepted(Trim(decoded.value.nonce), expires, now)
              && Trim(decoded.value.nonce) in guard.seen && guard.seen[Trim(decoded.value.nonce)] == expires
    ensures v != Verdict.Valid ==> guard.log == old(guard.log)
  {
    if decoded.None? { return Malformed; }
    var c := decoded.value;
    if c.issuedAt <= 0 { return BadTime; }
    if IssuedAt(c) > now + CLOCK_SKEW { return FromFuture; }
    if now - IssuedAt(c) > TOKEN_MAX_AGE { return Expired; }
    if Trim(c.nonce) == "" { return NoNonce; }
    if !BoundTo(c, binding) { return Unbound; }
    var ok := guard.Accept(c.nonce, IssuedAt(c) + TOKEN_MAX_AGE, now);
    v := if ok then Verdict.Valid else Replayed;
  }

  // The last instant of a token is not covered: presented twice, it passes a second time exactly then.
  method ReplayAtTheLastInstant(c: Claims, binding: Binding, first: int, second: int, guard: Guard)
    returns (v: Verdict, w: Verdict)
    requires guard.Valid() && guard.clock <= first <= second
    modifies guard
    ensures v == Verdict.Valid ==> (w == Verdict.Valid <==> second == IssuedAt(c) + TOKEN_MAX_AGE)
  {
    v := Validate(Some(c), binding, first, guard);
    w := Validate(Some(c), binding, second, guard);
  }
}
