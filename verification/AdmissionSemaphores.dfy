/** Whether an address can come to use two limits at once: exactly when, and what holds while it cannot. */
module AdmissionSemaphores {
  import opened Common
  import opened Admission
  import opened AdmissionSafety
  import opened AdmissionRegistry

  // ---- one semaphore per address ----

  /** A call uses a limit while it holds a handle, a request slot or a stream slot of it. */
  predicate InUse(g: Stage) {
    HoldsHandle(g) || HoldsRequest(g) || HoldsStream(g)
  }

  ghost predicate SameLimit(s: State, t: TaskId, u: TaskId) {
    t in s.tasks && u in s.tasks && InUse(s.tasks[t].stage) && InUse(s.tasks[u].stage) ==>
      s.tasks[t].limit.ip == s.tasks[u].limit.ip ==> s.tasks[t].limit == s.tasks[u].limit
  }

  /** No address uses two limits. */
  ghost predicate OnePerAddress(s: State) {
    forall t, u :: SameLimit(s, t, u)
  }

  predicate AllSlotsBack(s: State, l: LimitId)
    requires l in s.limits
  {
    s.limits[l].streams.available == STREAM_SLOTS && s.limits[l].requests == REQUEST_SLOTS
  }

  ghost predicate Outlived(s: State, l: LimitId)
    requires l in s.limits
  {
    !Registered(s, l) && !AllSlotsBack(s, l)
  }

  /** Some limit of the address has left the registry and is still missing slots. */
  ghost predicate HasOutlived(s: State, ip: IpAddr) {
    exists l :: l in s.limits && l.ip == ip && Outlived(s, l)
  }

  predicate Refused(s: State, ip: IpAddr)
    requires Linked(s)
  {
    ip !in s.clients && |s.clients| == CLIENT_CAPACITY && forall k :: k in s.clients ==> !Unreferenced(s, k)
  }

  /** A full limit is one nobody holds a slot of. */
  lemma AllSlotsBackMeansUnused(s: State, l: LimitId)
    requires Inv(s) && l in s.limits
    ensures AllSlotsBack(s, l) <==>
      forall t :: t in s.tasks && s.tasks[t].limit == l ==> !HoldsRequest(s.tasks[t].stage) && !HoldsStream(s.tasks[t].stage)
  {
    assert LimitConserved(s, l);
    var rs, ss := Owners(s.tasks, RequestOf(l)), Owners(s.tasks, StreamOf(l));
    forall t | t in s.tasks && s.tasks[t].limit == l
      ensures t in rs <==> HoldsRequest(s.tasks[t].stage)
      ensures t in ss <==> HoldsStream(s.tasks[t].stage)
    {}
    if AllSlotsBack(s, l) {
      assert rs == {} && ss == {};
    } else {
      assert |rs| > 0 || |ss| > 0;
      assert rs != {} || ss != {};
    }
  }

  ghost predicate UsesOld(s: State, t: TaskId, ip: IpAddr) {
    && t in s.tasks && s.tasks[t].limit.ip == ip && InUse(s.tasks[t].stage) && !Registered(s, s.tasks[t].limit)
  }

  lemma OutlivedIsUsed(s: State, l: LimitId)
    requires Inv(s) && l in s.limits && Outlived(s, l)
    ensures exists t :: UsesOld(s, t, l.ip)
  {
    AllSlotsBackMeansUnused(s, l);
    var t :| t in s.tasks && s.tasks[t].limit == l && (HoldsRequest(s.tasks[t].stage) || HoldsStream(s.tasks[t].stage));
    assert UsesOld(s, t, l.ip);
  }

  lemma UsedOutlives(s: State, t: TaskId, ip: IpAddr)
    requires Inv(s) && UsesOld(s, t, ip)
    ensures s.tasks[t].limit in s.limits && Outlived(s, s.tasks[t].limit)
  {
    AllSlotsBackMeansUnused(s, s.tasks[t].limit);
  }

  /** A limit outlives its entry exactly when some call still uses it. */
  lemma OutlivedHasUser(s: State, ip: IpAddr)
    requires Inv(s)
    ensures HasOutlived(s, ip) <==> exists t :: UsesOld(s, t, ip)
  {
    if l :| l in s.limits && l.ip == ip && Outlived(s, l) {
      OutlivedIsUsed(s, l);
    }
    if t :| UsesOld(s, t, ip) {
      UsedOutlives(s, t, ip);
    }
  }

  lemma ArrivalExactly(s: State, s': State, t: TaskId, l: LimitId)
    requires OnePerAddress(s) && t !in s.tasks && s'.tasks == s.tasks[t := Task(l, Fresh)]
    ensures OnePerAddress(s') <==>
      forall u :: u in s.tasks && InUse(s.tasks[u].stage) && s.tasks[u].limit.ip == l.ip ==> s.tasks[u].limit == l
  {
    if OnePerAddress(s') {
      forall u | u in s.tasks && InUse(s.tasks[u].stage) && s.tasks[u].limit.ip == l.ip ensures s.tasks[u].limit == l {
        assert SameLimit(s', t, u);
      }
    } else {
      var u, v :| !SameLimit(s', u, v);
      assert SameLimit(s, u, v);
    }
  }

  /** An address comes to use two limits exactly when a lookup of it is admitted while an older limit of the
      address is out of the registry and still missing slots. */
  lemma OnePerAddressExactly(s: State, t: TaskId, ip: IpAddr, now: Instant, victim: IpAddr)
    requires Inv(s) && OnePerAddress(s) && Enabled(s, Lookup(t, ip, now, victim))
    ensures OnePerAddress(LookupStep(s, t, ip, now, victim)) <==> Refused(s, ip) || !HasOutlived(s, ip)
  {
    RefusedExactlyWhenFull(s, t, ip, now, victim);
    if !Refused(s, ip) {
      var s' := LookupStep(s, t, ip, now, victim);
      var l := s'.clients[ip].limit;
      if ip in s.clients {
        KnownAddressKeepsLimit(s, t, ip, now, victim);
      } else {
        NewAddressGetsFreshLimit(s, t, ip, now, victim);
      }
      ArrivalExactly(s, s', t, l);
      OutlivedHasUser(s, ip);
      forall u | u in s.tasks && InUse(s.tasks[u].stage) && s.tasks[u].limit.ip == ip
        ensures s.tasks[u].limit != l <==> UsesOld(s, u, ip)
      {}
    }
  }

  /** A step only ends uses; it starts none. */
  lemma InUseBefore(s: State, t: TaskId, action: Action, u: TaskId)
    requires Enabled(s, Act(t, action)) && HeadsWait(s, s.tasks[t].limit)
    ensures var s' := ActStep(s, t, action);
      && s'.tasks.Keys == s.tasks.Keys
      && (u in s.tasks ==>
            s'.tasks[u].limit == s.tasks[u].limit && (InUse(s'.tasks[u].stage) ==> InUse(s.tasks[u].stage)))
  {}

  lemma ActKeepsOnePerAddress(s: State, t: TaskId, action: Action)
    requires Inv(s) && OnePerAddress(s) && Enabled(s, Act(t, action))
    ensures OnePerAddress(ActStep(s, t, action))
  {
    HeadsDoWait(s, s.tasks[t].limit);
    forall u, v ensures SameLimit(ActStep(s, t, action), u, v) {
      InUseBefore(s, t, action, u);
      InUseBefore(s, t, action, v);
      assert SameLimit(s, u, v);
    }
  }

  /** The next event does not bring an address back while an older limit of it is missing slots. */
  ghost predicate NoEarlyReturn(s: State, e: Event)
    requires Linked(s)
  {
    e.Lookup? ==> Refused(s, e.ip) || !HasOutlived(s, e.ip)
  }

  ghost predicate AlwaysOnePerAddress(s: State, es: seq<Event>)
    requires ValidRun(s, es)
    decreases |es|
  {
    OnePerAddress(s) && (es != [] ==> AlwaysOnePerAddress(Apply(s, es[0]), es[1..]))
  }

  ghost predicate NeverEarlyReturn(s: State, es: seq<Event>)
    requires Inv(s) && ValidRun(s, es)
    decreases |es|
  {
    es != [] ==>
      && NoEarlyReturn(s, es[0])
      && (StepKeeps(s, es[0]); NeverEarlyReturn(Apply(s, es[0]), es[1..]))
  }

  lemma StepOnePerAddressExactly(s: State, e: Event)
    requires Inv(s) && OnePerAddress(s) && Enabled(s, e)
    ensures OnePerAddress(Apply(s, e)) <==> NoEarlyReturn(s, e)
  {
    match e
    case Lookup(t, ip, now, victim) => OnePerAddressExactly(s, t, ip, now, victim);
    case Act(t, action) => ActKeepsOnePerAddress(s, t, action);
  }

  /** Over whole runs: no address ever uses two limits exactly when none is admitted again while an older
      limit of it is out of the registry and missing slots. */
  lemma {:induction false} RunOnePerAddressExactly(s: State, es: seq<Event>)
    requires Inv(s) && OnePerAddress(s) && ValidRun(s, es)
    ensures AlwaysOnePerAddress(s, es) <==> NeverEarlyReturn(s, es)
    ensures NeverEarlyReturn(s, es) ==> OnePerAddress(Run(s, es))
    decreases |es|
  {
    if es == [] {
    } else {
      StepKeeps(s, es[0]);
      StepOnePerAddressExactly(s, es[0]);
      if OnePerAddress(Apply(s, es[0])) {
        RunOnePerAddressExactly(Apply(s, es[0]), es[1..]);
      }
    }
  }

  /** A call that lets go of its handle last never outlives its entry: with drops that are one step, or that
      release the handle last, every held slot is of the registered limit, and no address uses two. */
  lemma HandlesKeepOneSemaphore(s: State)
    requires Inv(s)
    requires forall t :: t in s.tasks && !HoldsHandle(s.tasks[t].stage) ==>
      !HoldsRequest(s.tasks[t].stage) && !HoldsStream(s.tasks[t].stage)
    ensures forall t :: t in s.tasks && InUse(s.tasks[t].stage) ==> Registered(s, s.tasks[t].limit)
    ensures OnePerAddress(s) && forall ip :: !HasOutlived(s, ip)
  {
    forall t | t in s.tasks && InUse(s.tasks[t].stage) ensures Registered(s, s.tasks[t].limit) {
      assert HoldsHandle(s.tasks[t].stage);
    }
    forall t, u ensures SameLimit(s, t, u) {}
    forall ip ensures !HasOutlived(s, ip) {
      OutlivedHasUser(s, ip);
    }
  }

  // ---- what an address can hold ----

  /** Every stream slot of an address, of whatever limit and however far its permit is dropped. */
  ghost function StreamsOf(s: State, ip: IpAddr): set<TaskId> {
    set t | t in s.tasks && s.tasks[t].limit.ip == ip && HoldsStream(s.tasks[t].stage)
  }

  ghost function RequestsOf(s: State, ip: IpAddr): set<TaskId> {
    set t | t in s.tasks && s.tasks[t].limit.ip == ip && HoldsRequest(s.tasks[t].stage)
  }

  lemma UsersShareLimit(s: State, ip: IpAddr, t: TaskId)
    requires OnePerAddress(s) && t in StreamsOf(s, ip) + RequestsOf(s, ip)
    ensures forall u :: u in StreamsOf(s, ip) || u in RequestsOf(s, ip) ==> s.tasks[u].limit == s.tasks[t].limit
  {
    forall u | u in StreamsOf(s, ip) || u in RequestsOf(s, ip) ensures s.tasks[u].limit == s.tasks[t].limit {
      assert SameLimit(s, t, u);
    }
  }

  lemma TaskLimitConserved(s: State, t: TaskId)
    requires Inv(s) && t in s.tasks
    ensures s.tasks[t].limit in s.limits && LimitConserved(s, s.tasks[t].limit)
  {}

  lemma OneLimitHoldsAll(s: State, ip: IpAddr, l: LimitId)
    requires l in s.limits && LimitConserved(s, l)
    requires forall t :: t in StreamsOf(s, ip) || t in RequestsOf(s, ip) ==> s.tasks[t].limit == l
    ensures |StreamsOf(s, ip)| <= 4 && |RequestsOf(s, ip)| <= 16
  {
    SubsetSize(StreamsOf(s, ip), Owners(s.tasks, StreamOf(l)));
    SubsetSize(RequestsOf(s, ip), Owners(s.tasks, RequestOf(l)));
  }

  /** While no address uses two limits, each has at most 4 streams and 16 requests, half dropped ones included. */
  lemma OnePerAddressBounds(s: State, ip: IpAddr)
    requires Inv(s) && OnePerAddress(s)
    ensures |StreamsOf(s, ip)| <= 4 && |RequestsOf(s, ip)| <= 16
  {
    var users := StreamsOf(s, ip) + RequestsOf(s, ip);
    if users == {} {
      assert StreamsOf(s, ip) == {} == RequestsOf(s, ip);
    } else {
      var t :| t in users;
      UsersShareLimit(s, ip, t);
      TaskLimitConserved(s, t);
      OneLimitHoldsAll(s, ip, s.tasks[t].limit);
    }
  }

  /** The same for every state of a run in which no address returns early. */
  lemma ReachableBounds(es: seq<Event>, ip: IpAddr)
    requires ValidRun(INITIAL, es)
    requires Inv(INITIAL) && NeverEarlyReturn(INITIAL, es)
    ensures var s := Run(INITIAL, es); |StreamsOf(s, ip)| <= 4 && |RequestsOf(s, ip)| <= 16
  {
    assert OnePerAddress(INITIAL);
    RunOnePerAddressExactly(INITIAL, es);
    RunKeeps(INITIAL, es);
    OnePerAddressBounds(Run(INITIAL, es), ip);
  }

  // ---- a run in which an address does get a second semaphore ----

  /** One permit is admitted and half dropped: its handle is gone, its slots are not. */
  const HALF_DROPPED: seq<Event> := [
    Lookup(0, 1, 0, 0), Act(0, TryRequest), Act(0, PollStream), Act(0, PollGlobal), Act(0, Close), Act(0, DropHandle)]

  /** 300 seconds later another client's insertion sweeps the entry, and the first address returns. */
  const RETURNS: seq<Event> := [
    Lookup(1, 2, 300 * SECOND, 0), Lookup(2, 1, 300 * SECOND, 0), Act(2, TryRequest), Act(2, PollStream)]

  lemma StepRun(s: State, e: Event, s': State, es: seq<Event>)
    requires Enabled(s, e) && Apply(s, e) == s' && ValidRun(s', es)
    ensures ValidRun(s, [e] + es) && Run(s, [e] + es) == Run(s', es)
  {
    assert ([e] + es)[1..] == es;
  }

  function OneTask(global: nat, streams: nat, requests: nat, handles: nat, stage: Stage): State {
    var l := LimitId(1, 0);
    State(Semaphore(global, []), map[1 := Entry(l, 0)], map[l := ClientLimit(Semaphore(streams, []), requests, handles)],
          map[0 := Task(l, stage)], 1)
  }

  lemma ClosesHalf()
    ensures var s, es := OneTask(16, 3, 15, 1, HasStream), HALF_DROPPED[3..];
      ValidRun(s, es) && Run(s, es) == OneTask(15, 3, 15, 0, Closing(false, true, true, true))
  {
    var es := HALF_DROPPED;
    var s3, s4 := OneTask(16, 3, 15, 1, HasStream), OneTask(15, 3, 15, 1, Complete);
    var s5, s6 := OneTask(15, 3, 15, 1, Closing(true, true, true, true)), OneTask(15, 3, 15, 0, Closing(false, true, true, true));
    assert es[3..] == [es[3]] + ([es[4]] + ([es[5]] + []));
    StepRun(s5, es[5], s6, []);
    StepRun(s4, es[4], s5, [es[5]] + []);
    StepRun(s3, es[3], s4, [es[4]] + ([es[5]] + []));
  }

  lemma HalfDroppedRun()
    ensures ValidRun(INITIAL, HALF_DROPPED)
    ensures Run(INITIAL, HALF_DROPPED) == OneTask(15, 3, 15, 0, Closing(false, true, true, true))
  {
    var es := HALF_DROPPED;
    var s1, s2, s3 := OneTask(16, 4, 16, 1, Fresh), OneTask(16, 4, 15, 1, Ready), OneTask(16, 3, 15, 1, HasStream);
    assert es == [es[0]] + ([es[1]] + ([es[2]] + es[3..]));
    ClosesHalf();
    FirstLookup();
    StepRun(s2, es[2], s3, es[3..]);
    StepRun(s1, es[1], s2, [es[2]] + es[3..]);
    StepRun(INITIAL, es[0], s1, [es[1]] + ([es[2]] + es[3..]));
  }

  lemma FirstLookup()
    ensures Retained(INITIAL, 0) == map[]
    ensures Enabled(INITIAL, Lookup(0, 1, 0, 0)) && LookupStep(INITIAL, 0, 1, 0, 0) == OneTask(16, 4, 16, 1, Fresh)
  {
    assert Retained(INITIAL, 0) == map[];
  }

  lemma SweepsHalfDropped(s: State, now: Instant)
    requires s == OneTask(15, 3, 15, 0, Closing(false, true, true, true)) && now == 300 * SECOND
    ensures Enabled(s, Lookup(1, 2, now, 0))
    ensures LookupStep(s, 1, 2, now, 0) == Insert(s, map[], 1, 2, now)
  {
    assert Retained(s, now) == map[];
  }

  lemma FirstAddressReturns(s: State, now: Instant)
    requires s == Insert(OneTask(15, 3, 15, 0, Closing(false, true, true, true)), map[], 1, 2, now)
    ensures Enabled(s, Lookup(2, 1, now, 0))
    ensures LookupStep(s, 2, 1, now, 0) == Insert(s, s.clients, 2, 1, now)
  {
    assert Retained(s, now) == s.clients;
    assert s.clients.Keys == {2} && |s.clients.Keys| == |s.clients|;
  }

  lemma TakesStream(s: State, l: LimitId)
    requires 2 in s.tasks && s.tasks[2] == Task(l, Fresh)
    requires l in s.limits && s.limits[l].requests > 0 && s.limits[l].streams.available > 0
    ensures var es := [Act(2, TryRequest), Act(2, PollStream)];
      && ValidRun(s, es)
      && Run(s, es).tasks == s.tasks[2 := Task(l, HasStream)]
  {
    var s1 := ActStep(s, 2, TryRequest);
    var s2 := ActStep(s1, 2, PollStream);
    StepRun(s1, Act(2, PollStream), s2, []);
    StepRun(s, Act(2, TryRequest), s1, [Act(2, PollStream)] + []);
    assert [Act(2, TryRequest), Act(2, PollStream)] == [Act(2, TryRequest)] + ([Act(2, PollStream)] + []);
  }

  lemma ReturnsRun(s: State)
    requires s == OneTask(15, 3, 15, 0, Closing(false, true, true, true))
    ensures ValidRun(s, RETURNS)
    ensures 0 in Run(s, RETURNS).tasks && Run(s, RETURNS).tasks[0] == s.tasks[0]
    ensures 2 in Run(s, RETURNS).tasks && Run(s, RETURNS).tasks[2] == Task(LimitId(1, 2), HasStream)
  {
    var now := 300 * SECOND;
    SweepsHalfDropped(s, now);
    var s1 := Insert(s, map[], 1, 2, now);
    FirstAddressReturns(s1, now);
    var s2 := Insert(s1, s1.clients, 2, 1, now);
    TakesStream(s2, LimitId(1, 2));
    StepRun(s1, RETURNS[1], s2, RETURNS[2..]);
    StepRun(s, RETURNS[0], s1, [RETURNS[1]] + RETURNS[2..]);
    assert RETURNS == [RETURNS[0]] + ([RETURNS[1]] + RETURNS[2..]);
  }

  /** What the comment at `src/admission.rs:51-52` rules out does happen between two drops of one permit:
      an address holds streams of two independent semaphores at once. */
  lemma SecondSemaphoreHappens()
    ensures ValidRun(INITIAL, HALF_DROPPED)
    ensures var s := Run(INITIAL, HALF_DROPPED);
      && ValidRun(s, RETURNS)
      && var s' := Run(s, RETURNS);
      && 0 in s'.tasks && 2 in s'.tasks
      && s'.tasks[0].limit.ip == s'.tasks[2].limit.ip && s'.tasks[0].limit != s'.tasks[2].limit
      && HoldsStream(s'.tasks[0].stage) && HoldsStream(s'.tasks[2].stage)
      && !OnePerAddress(s')
  {
    HalfDroppedRun();
    ReturnsRun(OneTask(15, 3, 15, 0, Closing(false, true, true, true)));
    assert !SameLimit(Run(Run(INITIAL, HALF_DROPPED), RETURNS), 0, 2);
  }
}
