/** What the limiter promises when `unlock` calls overlap: exactly when the bound still holds for the verifications
    themselves, how far it can be exceeded, and that without a limit on the overlap there is no bound. */
module LimiterOverlap {
  import opened Common
  import opened Limiter
  import opened LimiterHistory

  // ---- exactly when ----

  predicate Fails(e: Event, key: Key) {
    e.Failed? && e.key == key
  }

  /** A failure of `key` finds room in its deque: the guard of the push. */
  predicate FindsRoom(w: World, e: Event, key: Key) {
    Fails(e, key) ==> |Recorded(Prune(w.failures, e.now), key)| < MAX_FAILURES
  }

  /** It does not meet a map full of other keys. */
  predicate NotCrowdedOut(w: World, e: Event, key: Key) {
    Fails(e, key) ==> key in Prune(w.failures, e.now) || |Prune(w.failures, e.now)| < MAX_KEYS
  }

  ghost predicate AlwaysRoom(w: World, es: seq<Event>, key: Key)
    decreases |es|
  {
    es != [] ==> FindsRoom(w, es[0], key) && AlwaysRoom(Next(w, es[0]), es[1..], key)
  }

  ghost predicate NeverCrowdedOut(w: World, es: seq<Event>, key: Key)
    decreases |es|
  {
    es != [] ==> NotCrowdedOut(w, es[0], key) && NeverCrowdedOut(Next(w, es[0]), es[1..], key)
  }

  /** After every event, no 60 seconds hold more than five failed verifications of the key. */
  ghost predicate AlwaysSpread(w: World, es: seq<Event>, key: Key)
    decreases |es|
  {
    Spread(Attempts(w.log, key)) && (es != [] ==> AlwaysSpread(Next(w, es[0]), es[1..], key))
  }

  ghost predicate Complete(h: Log, key: Key) {
    Attempts(h, key) == Accepted(h, key)
  }

  /** After every event, every failed verification of the key since its last success is on record. */
  ghost predicate AlwaysComplete(w: World, es: seq<Event>, key: Key)
    decreases |es|
  {
    Complete(w.log, key) && (es != [] ==> AlwaysComplete(Next(w, es[0]), es[1..], key))
  }

  lemma {:induction false} InWindowShort(q: Deque, now: Instant, i: nat)
    requires Sorted(q) && i < |q| && !Recent(q[i], now)
    ensures |InWindow(q, now)| < |q| - i
  {
    assert q[0] <= q[i];
    if i == 0 {
      InWindowIn(q[1..], now);
    } else {
      InWindowShort(q[1..], now, i - 1);
    }
  }

  /** A sixth failure inside the window breaks the bound. */
  lemma SixthBreaks(q: Deque, now: Instant)
    requires Sorted(q) && |InWindow(q, now)| >= MAX_FAILURES
    ensures !Spread(q + [now])
  {
    InWindowIn(q, now);
    var i := |q| - MAX_FAILURES;
    if !Recent(q[i], now) {
      InWindowShort(q, now, i);
    }
    assert (q + [now])[i] == q[i] && (q + [now])[i + MAX_FAILURES] == now;
  }

  lemma CompleteGrows(w: World, e: Event, key: Key)
    requires Inv(w) && Possible(w, e) && Complete(w.log, key)
    ensures var h' := Next(w, e).log;
      Complete(h', key) <==> !(Fails(e, key) && Refuses(Prune(w.failures, e.now), key))
  {
    if e.Failed? {
      RecordedExactly(w, e.key, e.now);
    }
    var w' := Next(w, e);
    LogGrows(w.log, w'.log[|w.log|], key);
    assert w'.log == w.log + [w'.log[|w.log|]];
  }

  /** One event: a failure that finds no room both goes unrecorded and breaks the bound. */
  lemma RoomExactly(w: World, e: Event, key: Key)
    requires Inv(w) && Possible(w, e) && Complete(w.log, key) && NotCrowdedOut(w, e, key)
    ensures var h' := Next(w, e).log;
      (FindsRoom(w, e, key) <==> Spread(Attempts(h', key))) && (FindsRoom(w, e, key) <==> Complete(h', key))
  {
    var w' := Next(w, e);
    CompleteGrows(w, e, key);
    StepKeeps(w, e);
    assert KeyOk(w'.failures, w'.log, w'.mark, key);
    if !FindsRoom(w, e, key) {
      RecordedExactly(w, key, e.now);
      assert KeyOk(w.failures, w.log, w.mark, key);
      SweptKey(w.failures, w.log, w.mark, e.now, key);
      SixthBreaks(Attempts(w.log, key), e.now);
      LogGrows(w.log, Done(e, false), key);
    }
  }

  /** Over whole runs of any overlap, as long as no failure of the key meets a map full of other keys: the bound of five in
      60 seconds holds for the verifications of a key after every event exactly when each of its failures finds room in
      its deque, and exactly when none goes unrecorded. */
  lemma {:induction false} VerificationsBoundedExactly(w: World, es: seq<Event>, key: Key)
    requires Inv(w) && ValidRun(w, es) && Complete(w.log, key) && NeverCrowdedOut(w, es, key)
    ensures AlwaysSpread(w, es, key) <==> AlwaysRoom(w, es, key)
    ensures AlwaysComplete(w, es, key) <==> AlwaysRoom(w, es, key)
    decreases |es|
  {
    assert KeyOk(w.failures, w.log, w.mark, key);
    if es == [] {
    } else {
      StepKeeps(w, es[0]);
      RoomExactly(w, es[0], key);
      if FindsRoom(w, es[0], key) {
        VerificationsBoundedExactly(Next(w, es[0]), es[1..], key);
      } else {
        assert !AlwaysSpread(Next(w, es[0]), es[1..], key);
      }
    }
  }

  ghost predicate AlwaysPasses(w: World, es: seq<Event>, key: Key)
    decreases |es|
  {
    es != [] ==>
      && !(Fails(es[0], key) && Refuses(Prune(w.failures, es[0].now), key))
      && AlwaysPasses(Next(w, es[0]), es[1..], key)
  }

  /** In any run at all, full map or not: every failure of a key is recorded exactly when a check made
      in its place would have passed each time, and then the bound holds for the verifications. */
  lemma {:induction false} AllRecordedExactly(w: World, es: seq<Event>, key: Key)
    requires Inv(w) && ValidRun(w, es) && Complete(w.log, key)
    ensures AlwaysComplete(w, es, key) <==> AlwaysPasses(w, es, key)
    ensures AlwaysPasses(w, es, key) ==> AlwaysSpread(w, es, key)
    decreases |es|
  {
    assert KeyOk(w.failures, w.log, w.mark, key);
    if es == [] {
    } else {
      StepKeeps(w, es[0]);
      CompleteGrows(w, es[0], key);
      if Complete(Next(w, es[0]).log, key) {
        AllRecordedExactly(Next(w, es[0]), es[1..], key);
      }
    }
  }

  // ---- with a limit on the overlap ----

  /** The passed checks of a key that have not led to a failure or a success yet. */
  function InFlight(h: Log, key: Key): int {
    if h == [] then 0
    else
      var d, before := h[|h| - 1], h[..|h| - 1];
      if d.event.key != key then InFlight(before, key)
      else if d.event.Checked? then InFlight(before, key) + (if d.passed then 1 else 0)
      else InFlight(before, key) - 1
  }

  /** Every failure and success of the key follows a passed check of its own, and at most `k` calls of the key are
      ever past their check at once. */
  ghost predicate AtMostInFlight(w: World, es: seq<Event>, key: Key, k: nat)
    decreases |es|
  {
    && InFlight(w.log, key) <= k
    && (es != [] ==>
          && (es[0].key == key && !es[0].Checked? ==> InFlight(w.log, key) > 0)
          && AtMostInFlight(Next(w, es[0]), es[1..], key, k))
  }

  /** The positions of the recorded failures among all of them. */
  function Marks(h: Log, key: Key): seq<nat> {
    if h == [] then []
    else
      var d, before := h[|h| - 1], h[..|h| - 1];
      if d.event == Succeeded(key) then []
      else if Fails(d.event, key) && d.passed then Marks(before, key) + [|Attempts(before, key)|]
      else Marks(before, key)
  }

  /** `marks` are positions in `all`, at most `k` apart from the first to the end, and what stands there is `recorded`. */
  ghost predicate Grouped(all: Deque, recorded: Deque, marks: seq<nat>, k: nat) {
    && |marks| == |recorded|
    && (forall e :: 0 <= e < |marks| ==> marks[e] < |all| && all[marks[e]] == recorded[e])
    && (all != [] ==> marks != [] && marks[0] == 0)
    && (forall e :: 0 < e < |marks| ==> marks[e - 1] < marks[e] <= marks[e - 1] + k)
    && (marks != [] ==> |all| <= marks[|marks| - 1] + k)
  }

  /** `size` is the length of the deque. While it is full no further check passes, so the calls in flight
      are all that can still fail unrecorded. */
  ghost predicate Sound(all: Deque, recorded: Deque, marks: seq<nat>, size: nat, flight: int, mark: Instant, k: nat) {
    && Grouped(all, recorded, marks, k)
    && Sorted(all) && (forall i :: 0 <= i < |all| ==> all[i] <= mark)
    && size <= |recorded|
    && (size >= MAX_FAILURES ==> |all| - marks[|marks| - 1] + flight <= k)
  }

  ghost predicate FlightOk(w: World, key: Key, k: nat) {
    Sound(Attempts(w.log, key), Accepted(w.log, key), Marks(w.log, key), |Recorded(w.failures, key)|,
          InFlight(w.log, key), w.mark, k)
  }

  lemma FlightGrows(h: Log, d: Done, key: Key)
    ensures InFlight(h + [d], key) == InFlight(h, key) +
      (if d.event.key != key then 0 else if d.event.Checked? then (if d.passed then 1 else 0) else -1)
    ensures Marks(h + [d], key) ==
      if d.event == Succeeded(key) then []
      else if Fails(d.event, key) && d.passed then Marks(h, key) + [|Attempts(h, key)|]
      else Marks(h, key)
  {
    assert (h + [d])[..|h|] == h;
  }

  /** What one event does to the key, apart from the log. */
  lemma RecordedAfter(w: World, e: Event, key: Key)
    requires Inv(w) && Possible(w, e) && NotCrowdedOut(w, e, key)
    ensures var w' := Next(w, e);
      && |w'.log| == |w.log| + 1 && w'.log[..|w.log|] == w.log && w'.log[|w.log|].event == e
      && w'.mark >= w.mark && (e.Failed? ==> w'.mark == e.now)
      && (!Fails(e, key) ==> |Recorded(w'.failures, key)| <= |Recorded(w.failures, key)|)
      && (e.Checked? && e.key == key && w'.log[|w.log|].passed ==> |Recorded(w'.failures, key)| < MAX_FAILURES)
      && (Fails(e, key) && !w'.log[|w.log|].passed ==> |Recorded(w.failures, key)| >= MAX_FAILURES)
  {
    assert KeyOk(w.failures, w.log, w.mark, key);
    if !e.Succeeded? {
      PopsShorten(Recorded(w.failures, key), e.now);
    }
    if e.Failed? {
      RecordedExactly(w, e.key, e.now);
    }
  }

  lemma SoundQuiet(all: Deque, recorded: Deque, marks: seq<nat>, size: nat, flight: int, mark: Instant, k: nat,
                   mark': Instant, size': nat, flight': int)
    requires Sound(all, recorded, marks, size, flight, mark, k) && mark <= mark' && size' <= size
    requires size' >= MAX_FAILURES ==> flight' <= flight
    ensures Sound(all, recorded, marks, size', flight', mark', k)
  {}

  lemma FlightKept(w: World, e: Event, key: Key, k: nat)
    requires Inv(w) && Possible(w, e) && NotCrowdedOut(w, e, key) && FlightOk(w, key, k) && !Fails(e, key)
    ensures FlightOk(Next(w, e), key, k)
  {
    RecordedAfter(w, e, key);
    var w' := Next(w, e);
    var d := w'.log[|w.log|];
    assert w'.log == w.log + [d];
    FlightGrows(w.log, d, key);
    LogGrows(w.log, d, key);
    if e == Succeeded(key) {
      assert |Recorded(w'.failures, key)| == 0;
    } else {
      SoundQuiet(Attempts(w.log, key), Accepted(w.log, key), Marks(w.log, key), |Recorded(w.failures, key)|,
                 InFlight(w.log, key), w.mark, k, w'.mark, |Recorded(w'.failures, key)|, InFlight(w'.log, key));
    }
  }

  lemma SoundRecorded(all: Deque, recorded: Deque, marks: seq<nat>, size: nat, flight: int, mark: Instant, k: nat,
                      now: Instant, size': nat)
    requires Sound(all, recorded, marks, size, flight, mark, k) && 0 < flight <= k && mark <= now
    requires size' <= |recorded| + 1
    ensures Sound(all + [now], recorded + [now], marks + [|all|], size', flight - 1, now, k)
  {}

  lemma SoundUnrecorded(all: Deque, recorded: Deque, marks: seq<nat>, size: nat, flight: int, mark: Instant, k: nat,
                        now: Instant, size': nat)
    requires Sound(all, recorded, marks, size, flight, mark, k) && 0 < flight <= k && mark <= now
    requires size >= MAX_FAILURES && size' <= |recorded|
    ensures Sound(all + [now], recorded, marks, size', flight - 1, now, k)
  {}

  lemma FlightFails(w: World, e: Event, key: Key, k: nat)
    requires Inv(w) && Possible(w, e) && NotCrowdedOut(w, e, key) && FlightOk(w, key, k) && Fails(e, key)
    requires 0 < InFlight(w.log, key) <= k
    ensures FlightOk(Next(w, e), key, k)
  {
    RecordedAfter(w, e, key);
    StepKeeps(w, e);
    var w' := Next(w, e);
    var d := w'.log[|w.log|];
    assert w'.log == w.log + [d];
    FlightGrows(w.log, d, key);
    LogGrows(w.log, d, key);
    RecordedIsShorter(w', key);
    var all, recorded, marks := Attempts(w.log, key), Accepted(w.log, key), Marks(w.log, key);
    var size, size', flight := |Recorded(w.failures, key)|, |Recorded(w'.failures, key)|, InFlight(w.log, key);
    if d.passed {
      SoundRecorded(all, recorded, marks, size, flight, w.mark, k, e.now, size');
    } else {
      SoundUnrecorded(all, recorded, marks, size, flight, w.mark, k, e.now, size');
    }
  }

  lemma RecordedIsShorter(w: World, key: Key)
    requires Inv(w)
    ensures |Recorded(w.failures, key)| <= |Accepted(w.log, key)|
  {
    assert KeyOk(w.failures, w.log, w.mark, key);
    InWindowIn(Accepted(w.log, key), w.mark);
  }

  lemma {:induction false} RunKeepsFlight(w: World, es: seq<Event>, key: Key, k: nat)
    requires Inv(w) && FlightOk(w, key, k)
    requires ValidRun(w, es) && NeverCrowdedOut(w, es, key) && AtMostInFlight(w, es, key, k)
    ensures Inv(Run(w, es)) && FlightOk(Run(w, es), key, k)
    decreases |es|
  {
    if es == [] {
    } else {
      StepKeeps(w, es[0]);
      if Fails(es[0], key) {
        FlightFails(w, es[0], key, k);
      } else {
        FlightKept(w, es[0], key, k);
      }
      RunKeepsFlight(Next(w, es[0]), es[1..], key, k);
    }
  }

  /** No 60 seconds hold more than `n`. */
  predicate SpreadBy(q: Deque, n: nat) {
    forall i :: 0 <= i < |q| - n ==> q[i] + WINDOW <= q[i + n]
  }

  /** The first mark at or after position `i` is less than `k` further on. */
  lemma {:induction false} NextMark(all: Deque, recorded: Deque, marks: seq<nat>, k: nat, i: nat, e: nat) returns (m: nat)
    requires Grouped(all, recorded, marks, k) && k > 0 && e < |marks| && marks[e] <= i && i + k <= |all|
    ensures m < |marks| && i <= marks[m] < i + k
    decreases |marks| - e
  {
    if marks[e] == i {
      m := e;
    } else if e + 1 == |marks| || marks[e + 1] > i {
      m := e + 1;
    } else {
      m := NextMark(all, recorded, marks, k, i, e + 1);
    }
  }

  /** Six groups of at most `k` failures each hold six recorded ones, and those take 60 seconds. */
  lemma GroupsSpread(all: Deque, recorded: Deque, marks: seq<nat>, k: nat, i: nat)
    requires Grouped(all, recorded, marks, k) && k > 0 && Sorted(all) && Spread(recorded)
    requires i + 6 * k <= |all|
    ensures all[i] + WINDOW <= all[i + 6 * k - 1]
  {
    var m := NextMark(all, recorded, marks, k, i, 0);
    FiveMarksOn(all, recorded, marks, k, m);
    assert recorded[m] + WINDOW <= recorded[m + 5];
    assert all[i] <= all[marks[m]];
    assert all[marks[m + 5]] <= all[i + 6 * k - 1];
  }

  lemma FiveMarksOn(all: Deque, recorded: Deque, marks: seq<nat>, k: nat, m: nat)
    requires Grouped(all, recorded, marks, k) && k > 0 && m < |marks| && marks[m] + 5 * k < |all|
    ensures m + 5 < |marks| && marks[m + 5] <= marks[m] + 5 * k
  {
    MarkOn(all, recorded, marks, k, m, k * 5);
    MarkOn(all, recorded, marks, k, m + 1, k * 4);
    MarkOn(all, recorded, marks, k, m + 2, k * 3);
    MarkOn(all, recorded, marks, k, m + 3, k * 2);
    MarkOn(all, recorded, marks, k, m + 4, k);
  }

  lemma MarkOn(all: Deque, recorded: Deque, marks: seq<nat>, k: nat, m: nat, rest: nat)
    requires Grouped(all, recorded, marks, k) && m < |marks| && k <= rest && marks[m] + rest < |all|
    ensures m + 1 < |marks| && marks[m + 1] <= marks[m] + k
  {}

  /** With at most `k` calls of a key past their check at once, and no failure of it crowded out by a full map, no 60 seconds
      hold more than `6 * k - 1` failed verifications of the key. One call at a time gives the five again. */
  lemma OverlapBound(es: seq<Event>, key: Key, k: nat)
    requires k > 0 && ValidRun(EMPTY, es) && NeverCrowdedOut(EMPTY, es, key) && AtMostInFlight(EMPTY, es, key, k)
    ensures SpreadBy(Attempts(Run(EMPTY, es).log, key), 6 * k - 1)
  {
    EmptyOk();
    RunKeepsFlight(EMPTY, es, key, k);
    var w := Run(EMPTY, es);
    var all := Attempts(w.log, key);
    assert KeyOk(w.failures, w.log, w.mark, key);
    forall i | 0 <= i < |all| - (6 * k - 1) ensures all[i] + WINDOW <= all[i + (6 * k - 1)] {
      GroupsSpread(all, Accepted(w.log, key), Marks(w.log, key), k, i);
    }
  }

  // ---- without a limit on the overlap ----

  function Zeros(n: nat): Deque {
    if n == 0 then [] else Zeros(n - 1) + [0]
  }

  lemma {:induction false} ZerosStay(n: nat)
    ensures |Zeros(n)| == n && PopExpired(Zeros(n), 0) == Zeros(n) && InWindow(Zeros(n), 0) == Zeros(n)
    ensures forall i :: 0 <= i < n ==> Zeros(n)[i] == 0
  {
    if n == 0 {
    } else {
      ZerosStay(n - 1);
      InWindowAppend(Zeros(n - 1), 0);
    }
  }

  /** `n` failures of one key at time zero, with every check before them passed. */
  ghost predicate Piled(w: World, key: Key, n: nat) {
    && w.mark == 0
    && Attempts(w.log, key) == Zeros(n)
    && w.failures == Pile(key, n)
  }

  /** Only the first five are kept. */
  function Pile(key: Key, n: nat): Failures {
    if n == 0 then map[] else map[key := Zeros(if n < MAX_FAILURES then n else MAX_FAILURES)]
  }

  lemma PileGrows(key: Key, n: nat)
    ensures Push(Pile(key, n), key, 0) == Pile(key, n + 1)
    ensures Recorded(Pile(key, n + 1), key) != Recorded(Pile(key, n), key) <==> n < MAX_FAILURES
  {
    var k := if n < MAX_FAILURES then n else MAX_FAILURES;
    ZerosStay(k);
    ZerosStay(k + 1);
    assert Zeros(k + 1) == Zeros(k) + [0];
  }

  lemma PruneNothing(m: Failures, key: Key, n: nat)
    requires n > 0 ==> m == map[key := Zeros(n)]
    requires n == 0 ==> m == map[]
    ensures Prune(m, 0) == m
  {
    ZerosStay(n);
  }

  lemma CheckPasses(w: World, key: Key)
    requires Piled(w, key, 0)
    ensures Piled(Next(w, Checked(key, 0)), key, 0) && Next(w, Checked(key, 0)).log[|w.log|].passed
  {
    PruneNothing(w.failures, key, 0);
    LogGrows(w.log, Next(w, Checked(key, 0)).log[|w.log|], key);
  }

  lemma FailurePiles(w: World, key: Key, n: nat)
    requires Piled(w, key, n)
    ensures Piled(Next(w, Failed(key, 0)), key, n + 1)
    ensures Next(w, Failed(key, 0)).log[|w.log|].passed <==> n < MAX_FAILURES
  {
    PruneNothing(w.failures, key, if n < MAX_FAILURES then n else MAX_FAILURES);
    PileGrows(key, n);
    LogGrows(w.log, Next(w, Failed(key, 0)).log[|w.log|], key);
  }

  lemma {:induction false} ChecksPass(w: World, key: Key, es: seq<Event>)
    requires Piled(w, key, 0) && forall d :: d in w.log ==> d.passed
    requires forall i :: 0 <= i < |es| ==> es[i] == Checked(key, 0)
    ensures ValidRun(w, es) && Piled(Run(w, es), key, 0) && forall d :: d in Run(w, es).log ==> d.passed
    decreases |es|
  {
    if es == [] {
    } else {
      CheckPasses(w, key);
      ChecksPass(Next(w, es[0]), key, es[1..]);
    }
  }

  lemma {:induction false} FailuresPile(w: World, key: Key, n: nat, es: seq<Event>, all: nat)
    requires Piled(w, key, n) && all == n + |es|
    requires forall i :: 0 <= i < |es| ==> es[i] == Failed(key, 0)
    ensures ValidRun(w, es) && Piled(Run(w, es), key, all)
    decreases |es|
  {
    if es == [] {
    } else {
      FailurePiles(w, key, n);
      FailuresPile(Next(w, es[0]), key, n + 1, es[1..], all);
    }
  }

  function Times(e: Event, n: nat): seq<Event> {
    seq(n, _ => e)
  }

  /** Calls that overlap can verify any number of wrong passwords within one window: the checks all
      pass before the first failure is recorded, and only the first five failures are. */
  lemma OverlapEscapesBound(key: Key, n: nat)
    requires n > MAX_FAILURES
    ensures var checks, failures := Times(Checked(key, 0), n), Times(Failed(key, 0), n);
      && ValidRun(EMPTY, checks) && ValidRun(Run(EMPTY, checks), failures)
      && (forall d :: d in Run(EMPTY, checks).log ==> d.passed)
      && var w := Run(Run(EMPTY, checks), failures);
      && |Attempts(w.log, key)| == n && !Spread(Attempts(w.log, key))
      && |Recorded(w.failures, key)| == MAX_FAILURES
  {
    var checks, failures := Times(Checked(key, 0), n), Times(Failed(key, 0), n);
    ChecksPass(EMPTY, key, checks);
    FailuresPile(Run(EMPTY, checks), key, 0, failures, n);
    ZerosStay(n);
    ZerosStay(MAX_FAILURES);
    assert Zeros(n)[0] == 0 == Zeros(n)[MAX_FAILURES];
  }
}
