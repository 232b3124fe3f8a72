/** The limiter against its log: what the deques hold, the bound on any window, and when a failure is recorded. */
module LimiterHistory {
  import opened Common
  import opened Limiter

  /** `Checked` reads its clock before it takes the lock, so a later sweep may already have used a later time. */
  datatype Event =
    | Checked(key: Key, now: Instant)
    | Failed(key: Key, now: Instant)
    | Succeeded(key: Key)

  /** A finished event; `passed` is false for a refused check and for a failure that was not recorded. */
  datatype Done = Done(event: Event, passed: bool)
  type Log = seq<Done>

  /** `mark` is the latest clock reading any sweep has used. */
  datatype World = World(failures: Failures, log: Log, mark: Instant)

  const EMPTY: World := World(map[], [], 0)

  function Later(a: Instant, b: Instant): Instant {
    if a < b then b else a
  }

  /** A failure is recorded with a clock reading made under the lock, hence no earlier than any sweep before it. */
  predicate Possible(w: World, e: Event) {
    e.Failed? ==> w.mark <= e.now
  }

  function Next(w: World, e: Event): World {
    match e
    case Checked(key, now) =>
      var m := Prune(w.failures, now);
      World(m, w.log + [Done(e, !Refuses(m, key))], Later(w.mark, now))
    case Failed(key, now) =>
      var m := Prune(w.failures, now);
      var m' := Push(m, key, now);
      World(m', w.log + [Done(e, Recorded(m', key) != Recorded(m, key))], now)
    case Succeeded(key) => World(w.failures - {key}, w.log + [Done(e, true)], w.mark)
  }

  ghost predicate ValidRun(w: World, es: seq<Event>)
    decreases |es|
  {
    es == [] || (Possible(w, es[0]) && ValidRun(Next(w, es[0]), es[1..]))
  }

  function Run(w: World, es: seq<Event>): World
    decreases |es|
  {
    if es == [] then w else Run(Next(w, es[0]), es[1..])
  }

  // ---- what the log says ----

  /** The recorded failures of a key since its last success. */
  function Accepted(h: Log, key: Key): Deque {
    if h == [] then []
    else
      var d, before := h[|h| - 1], h[..|h| - 1];
      if d.event == Succeeded(key) then []
      else if d.event.Failed? && d.event.key == key && d.passed then Accepted(before, key) + [d.event.now]
      else Accepted(before, key)
  }

  /** All its failed verifications since then, recorded or not. */
  function Attempts(h: Log, key: Key): Deque {
    if h == [] then []
    else
      var d, before := h[|h| - 1], h[..|h| - 1];
      if d.event == Succeeded(key) then []
      else if d.event.Failed? && d.event.key == key then Attempts(before, key) + [d.event.now]
      else Attempts(before, key)
  }

  /** No 60 seconds hold more than five. */
  predicate Spread(q: Deque) {
    forall i :: 0 <= i < |q| - MAX_FAILURES ==> q[i] + WINDOW <= q[i + MAX_FAILURES]
  }

  ghost predicate KeyOk(m: Failures, h: Log, mark: Instant, key: Key) {
    var a := Accepted(h, key);
    && Sorted(a)
    && (forall i :: 0 <= i < |a| ==> a[i] <= mark)
    && Spread(a)
    && Recorded(m, key) == InWindow(a, mark)
    && (key in m ==> 1 <= |m[key]| <= MAX_FAILURES)
  }

  ghost predicate Inv(w: World) {
    && |w.failures| <= MAX_KEYS
    && forall key :: KeyOk(w.failures, w.log, w.mark, key)
  }

  // ---- windows ----

  lemma {:induction false} InWindowTwice(q: Deque, a: Instant, b: Instant)
    ensures InWindow(InWindow(q, a), b) == InWindow(q, Later(a, b))
  {
    if q == [] {
    } else {
      InWindowTwice(q[1..], a, b);
      if Recent(q[0], a) {
        assert InWindow(q, a)[0] == q[0] && InWindow(q, a)[1..] == InWindow(q[1..], a);
      } else {
        assert InWindow(q, a) == InWindow(q[1..], a);
      }
    }
  }

  lemma SortedCons(x: Instant, q: Deque)
    requires Sorted(q) && forall y :: y in q ==> x <= y
    ensures Sorted([x] + q)
  {
    forall i, j | 0 <= i < j < |[x] + q| ensures ([x] + q)[i] <= ([x] + q)[j] {
      assert ([x] + q)[j] == q[j - 1];
      if i > 0 {
        assert ([x] + q)[i] == q[i - 1];
      } else {
        assert q[j - 1] in q;
      }
    }
  }

  lemma {:induction false} InWindowSorted(q: Deque, now: Instant)
    requires Sorted(q)
    ensures Sorted(InWindow(q, now))
    ensures forall x :: x in InWindow(q, now) ==> x in q
  {
    if q == [] {
    } else {
      var tail := q[1..];
      InWindowSorted(tail, now);
      forall x | x in tail ensures q[0] <= x && x in q {
        var i :| 0 <= i < |tail| && tail[i] == x;
        assert q[i + 1] == x;
      }
      if Recent(q[0], now) {
        SortedCons(q[0], InWindow(tail, now));
      } else {
        assert InWindow(q, now) == InWindow(tail, now);
      }
    }
  }

  lemma {:induction false} InWindowAppend(q: Deque, now: Instant)
    ensures InWindow(q + [now], now) == InWindow(q, now) + [now]
  {
    if q == [] {
      assert q + [now] == [now];
    } else {
      InWindowAppend(q[1..], now);
      assert (q + [now])[1..] == q[1..] + [now];
    }
  }

  /** In time order, a recent failure brings everything behind it along. */
  lemma {:induction false} InWindowLong(q: Deque, now: Instant, i: nat)
    requires Sorted(q) && i < |q| && Recent(q[i], now)
    ensures |InWindow(q, now)| >= |q| - i
  {
    if i == 0 {
      forall j | 0 <= j < |q| ensures Recent(q[j], now) {
        assert q[0] <= q[j];
      }
      AllRecent(q, now);
    } else {
      InWindowLong(q[1..], now, i - 1);
    }
  }

  lemma SpreadAppend(q: Deque, now: Instant)
    requires Sorted(q) && Spread(q) && |InWindow(q, now)| < MAX_FAILURES
    requires forall i :: 0 <= i < |q| ==> q[i] <= now
    ensures Sorted(q + [now]) && Spread(q + [now])
  {
    if |q| >= MAX_FAILURES && Recent(q[|q| - MAX_FAILURES], now) {
      InWindowLong(q, now, |q| - MAX_FAILURES);
    }
  }

  // ---- every event keeps every key right ----

  lemma SweptKey(m: Failures, h: Log, mark: Instant, now: Instant, key: Key)
    requires KeyOk(m, h, mark, key)
    ensures KeyOk(Prune(m, now), h, Later(mark, now), key)
  {
    var a := Accepted(h, key);
    InWindowSorted(a, mark);
    SortedPops(Recorded(m, key), now);
    InWindowTwice(a, mark, now);
    InWindowIn(Recorded(m, key), now);
  }

  lemma LogGrows(h: Log, d: Done, key: Key)
    ensures Accepted(h + [d], key) ==
      if d.event == Succeeded(key) then []
      else if d.event.Failed? && d.event.key == key && d.passed then Accepted(h, key) + [d.event.now]
      else Accepted(h, key)
    ensures Attempts(h + [d], key) ==
      if d.event == Succeeded(key) then []
      else if d.event.Failed? && d.event.key == key then Attempts(h, key) + [d.event.now]
      else Attempts(h, key)
  {
    assert (h + [d])[..|h|] == h;
  }

  lemma PushedRecord(m: Failures, key: Key, now: Instant)
    requires !Refuses(m, key)
    ensures Recorded(Push(m, key, now), key) == Recorded(m, key) + [now] && key in Push(m, key, now)
    ensures |Recorded(m, key)| < MAX_FAILURES
  {}

  /** Pushing onto a deque with room adds the reading to what the log accepts. */
  lemma PushedOnto(m: Failures, h: Log, key: Key, now: Instant)
    requires KeyOk(m, h, now, key) && !Refuses(m, key)
    ensures var m', h' := Push(m, key, now), h + [Done(Failed(key, now), true)];
      Recorded(m', key) == Recorded(m, key) + [now] && KeyOk(m', h', now, key)
  {
    PushedRecord(m, key, now);
    assert Accepted(h + [Done(Failed(key, now), true)], key) == Accepted(h, key) + [now] by {
      LogGrows(h, Done(Failed(key, now), true), key);
    }
    SpreadAppend(Accepted(h, key), now);
    InWindowAppend(Accepted(h, key), now);
  }

  lemma PushedElsewhere(m: Failures, h: Log, key: Key, now: Instant, k: Key, passed: bool)
    requires KeyOk(m, h, now, k) && (k == key ==> Refuses(m, key) && !passed)
    ensures KeyOk(Push(m, key, now), h + [Done(Failed(key, now), passed)], now, k)
  {
    LogGrows(h, Done(Failed(key, now), passed), k);
  }

  lemma PushedKey(w: World, key: Key, now: Instant, k: Key)
    requires KeyOk(w.failures, w.log, w.mark, k) && w.mark <= now
    ensures var w' := Next(w, Failed(key, now)); KeyOk(w'.failures, w'.log, w'.mark, k)
  {
    var m := Prune(w.failures, now);
    SweptKey(w.failures, w.log, w.mark, now, k);
    if k == key && !Refuses(m, key) {
      PushedOnto(m, w.log, key, now);
    } else {
      PushedElsewhere(m, w.log, key, now, k, Recorded(Push(m, key, now), key) != Recorded(m, key));
    }
  }

  lemma SuccessKey(w: World, key: Key, k: Key)
    requires KeyOk(w.failures, w.log, w.mark, k)
    ensures var w' := Next(w, Succeeded(key)); KeyOk(w'.failures, w'.log, w'.mark, k)
  {
    LogGrows(w.log, Done(Succeeded(key), true), k);
  }

  lemma CheckedKey(w: World, key: Key, now: Instant, k: Key)
    requires KeyOk(w.failures, w.log, w.mark, k)
    ensures var w' := Next(w, Checked(key, now)); KeyOk(w'.failures, w'.log, w'.mark, k)
  {
    SweptKey(w.failures, w.log, w.mark, now, k);
    LogGrows(w.log, Next(w, Checked(key, now)).log[|w.log|], k);
  }

  lemma PruneSize(m: Failures, now: Instant)
    ensures |Prune(m, now)| <= |m|
    ensures forall k :: k in m && k !in Prune(m, now) ==> |Prune(m, now)| < |m|
  {
    var p := Prune(m, now);
    assert m.Keys == p.Keys + (m.Keys - p.Keys);
    assert |p.Keys| == |p| && |m.Keys| == |m|;
    forall k | k in m && k !in p ensures |p| < |m| {
      assert k in m.Keys - p.Keys;
    }
  }

  lemma PushSize(m: Failures, key: Key, now: Instant)
    requires |m| <= MAX_KEYS
    ensures |Push(m, key, now)| <= MAX_KEYS
  {
    var m' := Push(m, key, now);
    assert m'.Keys == m.Keys || (|m| < MAX_KEYS && m'.Keys == m.Keys + {key});
    assert |m'.Keys| == |m'| && |m.Keys| == |m|;
  }

  lemma StepKeeps(w: World, e: Event)
    requires Inv(w) && Possible(w, e)
    ensures Inv(Next(w, e))
  {
    var w' := Next(w, e);
    match e {
      case Checked(_, now) => PruneSize(w.failures, now);
      case Failed(key, now) =>
        PruneSize(w.failures, now);
        PushSize(Prune(w.failures, now), key, now);
      case Succeeded(key) =>
        assert w.failures.Keys == w'.failures.Keys + (w.failures.Keys - w'.failures.Keys);
        assert |w'.failures.Keys| == |w'.failures| && |w.failures.Keys| == |w.failures|;
    }
    forall k ensures KeyOk(w'.failures, w'.log, w'.mark, k) {
      assert KeyOk(w.failures, w.log, w.mark, k);
      match e {
        case Checked(key, now) => CheckedKey(w, key, now, k);
        case Failed(key, now) => PushedKey(w, key, now, k);
        case Succeeded(key) => SuccessKey(w, key, k);
      }
    }
  }

  lemma {:induction false} RunKeeps(w: World, es: seq<Event>)
    requires Inv(w) && ValidRun(w, es)
    ensures Inv(Run(w, es))
    decreases |es|
  {
    if es == [] {
    } else {
      StepKeeps(w, es[0]);
      RunKeeps(Next(w, es[0]), es[1..]);
    }
  }

  lemma EmptyOk()
    ensures Inv(EMPTY)
  {}

  lemma {:induction false} InWindowMembers(q: Deque, now: Instant, x: Instant)
    ensures x in InWindow(q, now) <==> x in q && now < x + 60_000_000_000
  {
    if q == [] {
    } else {
      InWindowMembers(q[1..], now, x);
      assert x in q <==> x == q[0] || x in q[1..];
    }
  }

  /** In any interleaving: a deque holds exactly the recorded failures since the last success that are less than 60 seconds
      old, in order; a key is in the map exactly while there are some; there are at most five; any sixth comes at
      least 60 seconds after the first; and the map has at most 4096 keys. */
  lemma EveryWindowHoldsFive(es: seq<Event>, key: Key)
    requires ValidRun(EMPTY, es)
    ensures var w := Run(EMPTY, es);
      && Recorded(w.failures, key) == InWindow(Accepted(w.log, key), w.mark)
      && (forall x: Instant :: x in Recorded(w.failures, key) <==> x in Accepted(w.log, key) && w.mark < x + 60_000_000_000)
      && (key in w.failures <==> InWindow(Accepted(w.log, key), w.mark) != [])
      && |Recorded(w.failures, key)| <= 5
      && (forall i :: 0 <= i < |Accepted(w.log, key)| - 5 ==>
            Accepted(w.log, key)[i] + 60_000_000_000 <= Accepted(w.log, key)[i + 5])
      && |w.failures| <= 4096
  {
    EmptyOk();
    RunKeeps(EMPTY, es);
    var w := Run(EMPTY, es);
    assert KeyOk(w.failures, w.log, w.mark, key);
    forall x: Instant ensures x in Recorded(w.failures, key) <==> x in Accepted(w.log, key) && w.mark < x + 60_000_000_000 {
      InWindowMembers(Accepted(w.log, key), w.mark, x);
    }
  }

  // ---- when is a failure recorded ----

  /** A failed verification is recorded exactly when a check at that instant would have let it through. */
  lemma RecordedExactly(w: World, key: Key, now: Instant)
    requires Inv(w) && w.mark <= now
    ensures Next(w, Failed(key, now)).log == w.log + [Done(Failed(key, now), !Refuses(Prune(w.failures, now), key))]
    ensures Next(w, Checked(key, now)).log == w.log + [Done(Checked(key, now), !Refuses(Prune(w.failures, now), key))]
  {
    assert KeyOk(w.failures, w.log, w.mark, key);
  }

  /** Time alone never turns a check that passed into one that refuses. */
  lemma PassesLater(m: Failures, key: Key, now: Instant)
    requires !Refuses(m, key) && |m| <= MAX_KEYS
    ensures !Refuses(Prune(m, now), key)
  {
    PruneSize(m, now);
    if key in m {
      PopsShorten(m[key], now);
    }
  }

  lemma {:induction false} PopsShorten(q: Deque, now: Instant)
    ensures |PopExpired(q, now)| <= |q|
  {
    if q == [] {
    } else {
      PopsShorten(q[1..], now);
    }
  }

  // ---- unlock calls that do not overlap ----

  /** One `unlock` of a password share: check at `checkedAt`, verify, then record or clear at `doneAt`. */
  datatype Unlock = Unlock(key: Key, correct: bool, checkedAt: Instant, doneAt: Instant)

  function UnlockStep(w: World, u: Unlock): World {
    var w1 := Next(w, Checked(u.key, u.checkedAt));
    if Refuses(w1.failures, u.key) then w1
    else if u.correct then Next(w1, Succeeded(u.key))
    else Next(w1, Failed(u.key, u.doneAt))
  }

  predicate InOrder(w: World, u: Unlock) {
    w.mark <= u.checkedAt <= u.doneAt
  }

  /** A correct password that the check lets through forgets every failure of its key; a wrong one is the newest of those
      still in the window; a refused call changes no record. No other key loses or gains a failure. */
  lemma UnlockExactly(w: World, u: Unlock, k: Key)
    requires Inv(w) && w.mark <= u.doneAt && u.checkedAt <= u.doneAt
    ensures var w', refused := UnlockStep(w, u), Refuses(Prune(w.failures, u.checkedAt), u.key);
      && Inv(w')
      && (!refused && u.correct ==>
            u.key !in w'.failures && Attempts(w'.log, u.key) == [] && Accepted(w'.log, u.key) == [])
      && (!refused && !u.correct ==>
            && Recorded(w'.failures, u.key) == InWindow(Accepted(w.log, u.key), u.doneAt) + [u.doneAt]
            && Accepted(w'.log, u.key) == Accepted(w.log, u.key) + [u.doneAt])
      && (refused ==> Accepted(w'.log, u.key) == Accepted(w.log, u.key) && Attempts(w'.log, u.key) == Attempts(w.log, u.key))
      && (k != u.key ==> Accepted(w'.log, k) == Accepted(w.log, k) && Attempts(w'.log, k) == Attempts(w.log, k))
  {
    var w1 := Next(w, Checked(u.key, u.checkedAt));
    StepKeeps(w, Checked(u.key, u.checkedAt));
    LogGrows(w.log, w1.log[|w.log|], u.key);
    LogGrows(w.log, w1.log[|w.log|], k);
    if !Refuses(w1.failures, u.key) {
      var e := if u.correct then Succeeded(u.key) else Failed(u.key, u.doneAt);
      var w2 := Next(w1, e);
      StepKeeps(w1, e);
      LogGrows(w1.log, w2.log[|w1.log|], k);
      LogGrows(w1.log, w2.log[|w1.log|], u.key);
      if !u.correct {
        WrongIsNewest(w1, u.key, u.doneAt);
      }
    }
  }

  lemma WrongIsNewest(w: World, key: Key, now: Instant)
    requires Inv(w) && w.mark <= now && !Refuses(w.failures, key)
    ensures var w' := Next(w, Failed(key, now));
      && Recorded(w'.failures, key) == InWindow(Accepted(w.log, key), now) + [now]
      && Accepted(w'.log, key) == Accepted(w.log, key) + [now]
  {
    PassesLater(w.failures, key, now);
    RecordedExactly(w, key, now);
    PushedRecord(Prune(w.failures, now), key, now);
    assert KeyOk(w.failures, w.log, w.mark, key);
    SweptKey(w.failures, w.log, w.mark, now, key);
    LogGrows(w.log, Done(Failed(key, now), true), key);
  }

  ghost predicate ValidUnlocks(w: World, us: seq<Unlock>)
    decreases |us|
  {
    us == [] || (InOrder(w, us[0]) && ValidUnlocks(UnlockStep(w, us[0]), us[1..]))
  }

  function RunUnlocks(w: World, us: seq<Unlock>): World
    decreases |us|
  {
    if us == [] then w else RunUnlocks(UnlockStep(w, us[0]), us[1..])
  }

  ghost predicate AllRecorded(h: Log) {
    forall key :: Attempts(h, key) == Accepted(h, key)
  }

  lemma UnlockKeeps(w: World, u: Unlock)
    requires Inv(w) && InOrder(w, u) && AllRecorded(w.log)
    ensures Inv(UnlockStep(w, u)) && AllRecorded(UnlockStep(w, u).log)
  {
    var w1 := Next(w, Checked(u.key, u.checkedAt));
    StepKeeps(w, Checked(u.key, u.checkedAt));
    forall k ensures Attempts(w1.log, k) == Accepted(w1.log, k) {
      LogGrows(w.log, w1.log[|w.log|], k);
    }
    if !Refuses(w1.failures, u.key) {
      var e := if u.correct then Succeeded(u.key) else Failed(u.key, u.doneAt);
      StepKeeps(w1, e);
      if !u.correct {
        PassesLater(w1.failures, u.key, u.doneAt);
        RecordedExactly(w1, u.key, u.doneAt);
      }
      var w2 := Next(w1, e);
      forall k ensures Attempts(w2.log, k) == Accepted(w2.log, k) {
        LogGrows(w1.log, w2.log[|w1.log|], k);
      }
    }
  }

  /** Without overlap every failed verification is recorded, so five in 60 seconds bounds the
      verifications themselves, not only their records. */
  lemma {:induction false} UnlocksBounded(w: World, us: seq<Unlock>, key: Key)
    requires Inv(w) && AllRecorded(w.log) && ValidUnlocks(w, us)
    ensures var h := RunUnlocks(w, us).log; Attempts(h, key) == Accepted(h, key) && Spread(Attempts(h, key))
    decreases |us|
  {
    if us == [] {
      assert KeyOk(w.failures, w.log, w.mark, key);
    } else {
      UnlockKeeps(w, us[0]);
      UnlocksBounded(UnlockStep(w, us[0]), us[1..], key);
    }
  }
}
