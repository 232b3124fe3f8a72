/** The failed-password limiter (`src/server.rs`): a sliding window of failures for each address and share. */
module Limiter {
  import opened Common

  const MAX_FAILURES: nat := 5
  const MAX_KEYS: nat := 4096
  const WINDOW: nat := 60 * SECOND

  datatype Key = Key(ip: IpAddr, share: string)

  /** Oldest failure first. */
  type Deque = seq<Instant>
  type Failures = map<Key, Deque>

  predicate Recent(at: Instant, now: Instant) {
    Since(now, at) < WINDOW
  }

  /** The loop of `prune_auth_failures`: pops expired failures, from the front only. */
  function PopExpired(q: Deque, now: Instant): Deque {
    if q != [] && !Recent(q[0], now) then PopExpired(q[1..], now) else q
  }

  /** Every failure still in the window, wherever it stands. */
  function InWindow(q: Deque, now: Instant): Deque {
    if q == [] then [] else (if Recent(q[0], now) then [q[0]] else []) + InWindow(q[1..], now)
  }

  predicate Sorted(q: Deque) {
    forall i, j :: 0 <= i < j < |q| ==> q[i] <= q[j]
  }

  function Prune(m: Failures, now: Instant): Failures {
    map k | k in m && PopExpired(m[k], now) != [] :: PopExpired(m[k], now)
  }

  /** `auth_rate_limited` after its sweep. */
  predicate Refuses(m: Failures, key: Key) {
    (key in m && |m[key]| >= MAX_FAILURES) || (key !in m && |m| >= MAX_KEYS)
  }

  /** `record_auth_failure` after its sweep. */
  function Push(m: Failures, key: Key, now: Instant): Failures {
    if |m| >= MAX_KEYS && key !in m then m
    else
      var values := if key in m then m[key] else [];
      if |values| < MAX_FAILURES then m[key := values + [now]] else m[key := values]
  }

  function Recorded(m: Failures, key: Key): Deque {
    if key in m then m[key] else []
  }

  // ---- popping from the front ----

  lemma {:induction false} NoneRecent(q: Deque, now: Instant)
    requires forall i :: 0 <= i < |q| ==> !Recent(q[i], now)
    ensures InWindow(q, now) == [] && PopExpired(q, now) == []
  {
    if q == [] {
    } else {
      NoneRecent(q[1..], now);
    }
  }

  lemma {:induction false} AllRecent(q: Deque, now: Instant)
    requires forall i :: 0 <= i < |q| ==> Recent(q[i], now)
    ensures InWindow(q, now) == q
  {
    if q == [] {
    } else {
      AllRecent(q[1..], now);
    }
  }

  lemma {:induction false} InWindowIn(q: Deque, now: Instant)
    ensures forall i :: 0 <= i < |InWindow(q, now)| ==> Recent(InWindow(q, now)[i], now)
    ensures |InWindow(q, now)| <= |q|
    ensures |InWindow(q, now)| == |q| ==> InWindow(q, now) == q
  {
    if q == [] {
    } else {
      InWindowIn(q[1..], now);
    }
  }

  /** No expired failure stands behind a recent one. */
  predicate ExpiredFirst(q: Deque, now: Instant) {
    forall i, j :: 0 <= i < j < |q| && Recent(q[i], now) ==> Recent(q[j], now)
  }

  lemma StopsAtRecent(q: Deque, now: Instant)
    requires q != [] && Recent(q[0], now)
    ensures PopExpired(q, now) == InWindow(q, now) <==> ExpiredFirst(q, now)
  {
    InWindowIn(q, now);
    if ExpiredFirst(q, now) {
      forall i | 0 <= i < |q| ensures Recent(q[i], now) {}
      AllRecent(q, now);
    }
  }

  lemma ExpiredFirstTail(q: Deque, now: Instant)
    requires q != [] && !Recent(q[0], now)
    ensures ExpiredFirst(q, now) <==> ExpiredFirst(q[1..], now)
  {
    if ExpiredFirst(q[1..], now) {
      forall i, j | 0 <= i < j < |q| && Recent(q[i], now) ensures Recent(q[j], now) {
        assert q[i] == q[1..][i - 1] && q[j] == q[1..][j - 1];
      }
    }
  }

  /** Front-only pruning is full pruning exactly when the expired failures all come first. */
  lemma {:induction false} FrontPopsExactly(q: Deque, now: Instant)
    ensures PopExpired(q, now) == InWindow(q, now) <==> ExpiredFirst(q, now)
  {
    if q == [] {
    } else {
      if Recent(q[0], now) {
        StopsAtRecent(q, now);
      } else {
        FrontPopsExactly(q[1..], now);
        ExpiredFirstTail(q, now);
      }
    }
  }

  /** Which a deque that grows in time order always satisfies. */
  lemma SortedPops(q: Deque, now: Instant)
    requires Sorted(q)
    ensures PopExpired(q, now) == InWindow(q, now)
  {
    FrontPopsExactly(q, now);
  }
}
