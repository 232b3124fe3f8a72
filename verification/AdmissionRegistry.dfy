/** The registry of client limits: what a lookup keeps, evicts and refuses, and the safety of whole runs. */
module AdmissionRegistry {
  import opened Common
  import opened Admission
  import opened AdmissionSafety

  // ---- lookups keep the invariant ----

  lemma FreshTaskCounts(s: State, t: TaskId, l: LimitId, slot: Slot)
    requires t !in s.tasks
    ensures Count(s.tasks[t := Task(l, Fresh)], slot)
         == Count(s.tasks, slot) + (if slot == HandleOf(l) then 1 else 0)
  {
    CountUpdate(s.tasks, t, Task(l, Fresh), slot);
  }

  lemma FreshTaskConserves(s: State, s': State, t: TaskId, l: LimitId, k: LimitId)
    requires t !in s.tasks && s'.tasks == s.tasks[t := Task(l, Fresh)]
    requires k in s.limits && k in s'.limits && LimitConserved(s, k)
    requires s'.limits[k] == if k == l then s.limits[k].(handles := s.limits[k].handles + 1) else s.limits[k]
    ensures LimitConserved(s', k)
  {
    FreshTaskCounts(s, t, l, StreamOf(k));
    FreshTaskCounts(s, t, l, RequestOf(k));
    FreshTaskCounts(s, t, l, HandleOf(k));
  }

  lemma FreshTaskQueues(s: State, s': State, t: TaskId, l: LimitId)
    requires QueuesOk(s) && t !in s.tasks && s'.tasks == s.tasks[t := Task(l, Fresh)]
    requires s'.global == s.global
    ensures GlobalQueueOk(s')
    ensures forall k :: k in s.limits && k in s'.limits && s'.limits[k].streams == s.limits[k].streams ==> LimitQueueOk(s', k)
  {
    forall u ensures u in s'.global.queue <==> WaitsOnGlobal(s', u) {
      assert WaitsOnGlobal(s', u) <==> WaitsOnGlobal(s, u);
    }
    forall k | k in s.limits && k in s'.limits && s'.limits[k].streams == s.limits[k].streams ensures LimitQueueOk(s', k) {
      assert LimitQueueOk(s, k);
      forall u ensures u in s'.limits[k].streams.queue <==> WaitsOn(s', u, k) {
        assert WaitsOn(s', u, k) <==> WaitsOn(s, u, k);
      }
    }
  }

  lemma JoinKeepsRegistry(s: State, t: TaskId, ip: IpAddr, now: Instant)
    requires RegistryOk(s) && HandlesRegistered(s) && ip in s.clients
    ensures RegistryOk(Join(s, t, ip, now)) && HandlesRegistered(Join(s, t, ip, now))
  {
    var s' := Join(s, t, ip, now);
    assert s'.clients.Keys == s.clients.Keys;
    assert |s'.clients.Keys| == |s'.clients| && |s.clients.Keys| == |s.clients|;
  }

  lemma JoinConserves(s: State, t: TaskId, ip: IpAddr, now: Instant)
    requires Linked(s) && Conserved(s) && t !in s.tasks && ip in s.clients
    ensures Conserved(Join(s, t, ip, now))
  {
    var s', l := Join(s, t, ip, now), s.clients[ip].limit;
    FreshTaskCounts(s, t, l, GlobalSlot);
    forall k | k in s'.limits ensures LimitConserved(s', k) {
      FreshTaskConserves(s, s', t, l, k);
    }
  }

  lemma JoinKeepsQueues(s: State, t: TaskId, ip: IpAddr, now: Instant)
    requires Linked(s) && QueuesOk(s) && AllTight(s) && t !in s.tasks && ip in s.clients
    ensures QueuesOk(Join(s, t, ip, now)) && AllTight(Join(s, t, ip, now))
  {
    FreshTaskQueues(s, Join(s, t, ip, now), t, s.clients[ip].limit);
  }

  lemma JoinKeeps(s: State, t: TaskId, ip: IpAddr, now: Instant)
    requires Inv(s) && t !in s.tasks && ip in s.clients
    ensures Inv(Join(s, t, ip, now))
  {
    JoinKeepsRegistry(s, t, ip, now);
    JoinConserves(s, t, ip, now);
    JoinKeepsQueues(s, t, ip, now);
  }

  lemma HandlesKeepReferenced(s: State, t: TaskId)
    requires Inv(s) && t in s.tasks && HoldsHandle(s.tasks[t].stage)
    ensures Registered(s, s.tasks[t].limit) && !Unreferenced(s, s.tasks[t].limit.ip)
  {
    TasksAreLocal(s, t);
  }

  /** A limit nobody has yet starts full. */
  lemma FreshLimitConserves(s: State, s': State, t: TaskId, l: LimitId)
    requires (forall u :: u in s.tasks ==> s.tasks[u].limit != l) && t !in s.tasks
    requires s'.tasks == s.tasks[t := Task(l, Fresh)]
    requires l in s'.limits && s'.limits[l] == ClientLimit(Semaphore(STREAM_SLOTS, []), REQUEST_SLOTS, 1)
    ensures LimitConserved(s', l) && LimitQueueOk(s', l)
  {
    FreshTaskCounts(s, t, l, StreamOf(l));
    FreshTaskCounts(s, t, l, RequestOf(l));
    FreshTaskCounts(s, t, l, HandleOf(l));
    assert Owners(s.tasks, StreamOf(l)) == {} == Owners(s.tasks, RequestOf(l));
    assert Owners(s.tasks, HandleOf(l)) == {};
  }

  ghost predicate OnlyUnreferencedGone(s: State, kept: map<IpAddr, Entry>)
    requires Linked(s)
  {
    && (forall ip :: ip in kept ==> ip in s.clients && kept[ip] == s.clients[ip])
    && (forall ip :: ip in s.clients && ip !in kept ==> Unreferenced(s, ip))
  }

  lemma InsertedSize(kept: map<IpAddr, Entry>, ip: IpAddr, entry: Entry)
    requires ip !in kept
    ensures |kept[ip := entry]| == |kept| + 1
  {
    assert kept[ip := entry].Keys == kept.Keys + {ip};
    assert |kept[ip := entry].Keys| == |kept[ip := entry]| && |kept.Keys| == |kept|;
  }

  lemma InsertKeepsRegistry(s: State, kept: map<IpAddr, Entry>, t: TaskId, ip: IpAddr, now: Instant)
    requires RegistryOk(s) && HandlesRegistered(s)
    requires forall u :: u in s.tasks && HoldsHandle(s.tasks[u].stage) ==> s.tasks[u].limit.ip in kept
    requires t !in s.tasks && ip !in s.clients && |kept| < CLIENT_CAPACITY
    requires forall k :: k in kept ==> k in s.clients && kept[k] == s.clients[k]
    ensures RegistryOk(Insert(s, kept, t, ip, now)) && HandlesRegistered(Insert(s, kept, t, ip, now))
  {
    InsertedSize(kept, ip, Entry(LimitId(ip, s.serial), now));
  }

  lemma InsertConserves(s: State, kept: map<IpAddr, Entry>, t: TaskId, ip: IpAddr, now: Instant)
    requires Conserved(s) && t !in s.tasks && LimitId(ip, s.serial) !in s.limits
    requires forall u :: u in s.tasks ==> s.tasks[u].limit in s.limits
    ensures Conserved(Insert(s, kept, t, ip, now))
  {
    var s', l := Insert(s, kept, t, ip, now), LimitId(ip, s.serial);
    FreshLimitConserves(s, s', t, l);
    FreshTaskCounts(s, t, l, GlobalSlot);
    forall k | k in s.limits ensures LimitConserved(s', k) {
      FreshTaskConserves(s, s', t, l, k);
    }
  }

  lemma InsertKeepsQueues(s: State, kept: map<IpAddr, Entry>, t: TaskId, ip: IpAddr, now: Instant)
    requires QueuesOk(s) && AllTight(s) && t !in s.tasks && LimitId(ip, s.serial) !in s.limits
    requires forall u :: u in s.tasks ==> s.tasks[u].limit in s.limits
    ensures QueuesOk(Insert(s, kept, t, ip, now)) && AllTight(Insert(s, kept, t, ip, now))
  {
    var s', l := Insert(s, kept, t, ip, now), LimitId(ip, s.serial);
    FreshTaskQueues(s, s', t, l);
    FreshLimitConserves(s, s', t, l);
  }

  lemma InsertKeeps(s: State, kept: map<IpAddr, Entry>, t: TaskId, ip: IpAddr, now: Instant)
    requires Inv(s) && t !in s.tasks && ip !in s.clients && OnlyUnreferencedGone(s, kept) && |kept| < CLIENT_CAPACITY
    ensures Inv(Insert(s, kept, t, ip, now))
  {
    forall u | u in s.tasks && HoldsHandle(s.tasks[u].stage) ensures s.tasks[u].limit.ip in kept {
      HandlesKeepReferenced(s, u);
    }
    InsertKeepsRegistry(s, kept, t, ip, now);
    InsertConserves(s, kept, t, ip, now);
    InsertKeepsQueues(s, kept, t, ip, now);
  }

  lemma SubmapSize(a: map<IpAddr, Entry>, b: map<IpAddr, Entry>)
    requires forall ip :: ip in a ==> ip in b && a[ip] == b[ip]
    ensures |a| <= |b|
    ensures |a| == |b| ==> a == b
  {
    assert |a.Keys| == |a| && |b.Keys| == |b| && a.Keys <= b.Keys;
    SubsetSize(a.Keys, b.Keys);
  }

  lemma SubsetSize<T>(a: set<T>, b: set<T>)
    requires a <= b
    ensures |a| <= |b|
    ensures |a| == |b| ==> a == b
  {
    assert b == a + (b - a);
  }

  lemma RetainedSize(s: State, now: Instant)
    requires RegistryOk(s)
    ensures |Retained(s, now)| <= |s.clients|
    ensures |Retained(s, now)| == |s.clients| ==> Retained(s, now) == s.clients
    ensures OnlyUnreferencedGone(s, Retained(s, now))
  {
    SubmapSize(Retained(s, now), s.clients);
  }

  lemma EvictedSize(kept: map<IpAddr, Entry>, victim: IpAddr)
    requires victim in kept
    ensures |kept - {victim}| == |kept| - 1
  {
    var after := kept - {victim};
    assert after.Keys == kept.Keys - {victim};
    assert |after.Keys| == |after| && |kept.Keys| == |kept|;
  }

  /** The entries a lookup of an unknown address starts from, after the sweep and any eviction. */
  function Remaining(s: State, now: Instant, victim: IpAddr): map<IpAddr, Entry>
    requires Linked(s)
  {
    var kept := Retained(s, now);
    if |kept| < CLIENT_CAPACITY || Evictable(s, now) == {} then kept else kept - {victim}
  }

  lemma RemainingOk(s: State, now: Instant, victim: IpAddr)
    requires RegistryOk(s)
    requires |Retained(s, now)| >= CLIENT_CAPACITY && Evictable(s, now) != {} ==> victim in Evictable(s, now)
    ensures OnlyUnreferencedGone(s, Remaining(s, now, victim))
    ensures |Remaining(s, now, victim)| <= CLIENT_CAPACITY
    ensures |Remaining(s, now, victim)| == CLIENT_CAPACITY <==> |Retained(s, now)| >= CLIENT_CAPACITY && Evictable(s, now) == {}
  {
    var kept := Retained(s, now);
    RetainedSize(s, now);
    if victim in kept {
      EvictedSize(kept, victim);
    }
  }

  lemma LookupShape(s: State, t: TaskId, ip: IpAddr, now: Instant, victim: IpAddr)
    requires RegistryOk(s) && ip !in s.clients
    ensures LookupStep(s, t, ip, now, victim)
         == if |Retained(s, now)| >= CLIENT_CAPACITY && Evictable(s, now) == {} then s
            else Insert(s, Remaining(s, now, victim), t, ip, now)
  {
    RetainedSize(s, now);
  }

  lemma LookupKeeps(s: State, t: TaskId, ip: IpAddr, now: Instant, victim: IpAddr)
    requires Inv(s) && Enabled(s, Lookup(t, ip, now, victim))
    ensures Inv(LookupStep(s, t, ip, now, victim))
  {
    if ip in s.clients {
      JoinKeeps(s, t, ip, now);
    } else {
      LookupShape(s, t, ip, now, victim);
      RemainingOk(s, now, victim);
      if |Remaining(s, now, victim)| < CLIENT_CAPACITY {
        InsertKeeps(s, Remaining(s, now, victim), t, ip, now);
      }
    }
  }

  // ---- whole runs ----

  lemma StepKeeps(s: State, e: Event)
    requires Inv(s) && Enabled(s, e)
    ensures Inv(Apply(s, e))
  {
    match e
    case Lookup(t, ip, now, victim) => LookupKeeps(s, t, ip, now, victim);
    case Act(t, action) => ActKeeps(s, t, action);
  }

  lemma InitialOk()
    ensures Inv(INITIAL)
  {
    assert Owners(INITIAL.tasks, GlobalSlot) == {};
  }

  lemma {:induction false} RunKeeps(s: State, es: seq<Event>)
    requires Inv(s) && ValidRun(s, es)
    ensures Inv(Run(s, es))
    decreases |es|
  {
    if es == [] {
    } else {
      StepKeeps(s, es[0]);
      RunKeeps(Apply(s, es[0]), es[1..]);
    }
  }

  // ---- safety of every reachable state ----

  /** The stream permits of one address that nobody has begun to give back. */
  ghost function LiveStreams(s: State, ip: IpAddr): set<TaskId> {
    set t | t in s.tasks && s.tasks[t].limit.ip == ip && HoldsHandle(s.tasks[t].stage) && HoldsStream(s.tasks[t].stage)
  }

  ghost function LiveRequests(s: State, ip: IpAddr): set<TaskId> {
    set t | t in s.tasks && s.tasks[t].limit.ip == ip && HoldsHandle(s.tasks[t].stage) && HoldsRequest(s.tasks[t].stage)
  }

  lemma OneLimitBounds(s: State, ip: IpAddr)
    requires Inv(s)
    ensures |LiveStreams(s, ip)| <= STREAM_SLOTS && |LiveRequests(s, ip)| <= REQUEST_SLOTS
  {
    if ip in s.clients {
      var l := s.clients[ip].limit;
      assert LimitConserved(s, l);
      SubsetSize(LiveStreams(s, ip), Owners(s.tasks, StreamOf(l)));
      SubsetSize(LiveRequests(s, ip), Owners(s.tasks, RequestOf(l)));
    } else {
      assert LiveStreams(s, ip) == {} == LiveRequests(s, ip);
    }
  }

  /** In every state of every interleaving: outstanding handles for one address point to the one
      limit registered for it, the address has at most 4 live streams and 16 live requests, all
      addresses together hold at most 16 global slots, and the registry has at most 1024 entries. */
  lemma ReachableIsSafe(es: seq<Event>, ip: IpAddr)
    requires ValidRun(INITIAL, es)
    ensures var s := Run(INITIAL, es);
      && (forall t :: t in s.tasks && HoldsHandle(s.tasks[t].stage) && s.tasks[t].limit.ip == ip ==>
            ip in s.clients && s.clients[ip].limit == s.tasks[t].limit)
      && |LiveStreams(s, ip)| <= 4
      && |LiveRequests(s, ip)| <= 16
      && Count(s.tasks, GlobalSlot) <= 16
      && |s.clients| <= 1024
  {
    InitialOk();
    RunKeeps(INITIAL, es);
    OneLimitBounds(Run(INITIAL, es), ip);
  }

  /** An acquire that fails, times out or is cancelled gives back exactly what it took: once it has
      let go of everything, what is missing from each semaphore is held by the other tasks. */
  lemma ReleasedMeansGone(s: State, t: TaskId, l: LimitId)
    requires Inv(s) && t in s.tasks && l in s.limits && s.tasks[t].stage == Closing(false, false, false, false)
    ensures s.global.available == GLOBAL_SLOTS - Count(s.tasks - {t}, GlobalSlot)
    ensures s.limits[l].streams.available == STREAM_SLOTS - Count(s.tasks - {t}, StreamOf(l))
    ensures s.limits[l].requests == REQUEST_SLOTS - Count(s.tasks - {t}, RequestOf(l))
    ensures s.limits[l].handles == Count(s.tasks - {t}, HandleOf(l))
  {
    EmptyOwner(s.tasks, t, GlobalSlot);
    EmptyOwner(s.tasks, t, StreamOf(l));
    EmptyOwner(s.tasks, t, RequestOf(l));
    EmptyOwner(s.tasks, t, HandleOf(l));
    assert LimitConserved(s, l);
  }

  lemma EmptyOwner(tasks: map<TaskId, Task>, t: TaskId, slot: Slot)
    requires t in tasks && tasks[t].stage == Closing(false, false, false, false)
    ensures Count(tasks, slot) == Count(tasks - {t}, slot)
  {
    assert Owners(tasks, slot) == Owners(tasks - {t}, slot);
  }

  // ---- lookups, seen from the registry ----

  /** A known address keeps its limit, and nobody is evicted. */
  lemma KnownAddressKeepsLimit(s: State, t: TaskId, ip: IpAddr, now: Instant, victim: IpAddr)
    requires RegistryOk(s) && Enabled(s, Lookup(t, ip, now, victim)) && ip in s.clients
    ensures var s' := LookupStep(s, t, ip, now, victim);
      && s'.clients.Keys == s.clients.Keys
      && (forall k :: k in s.clients ==> s'.clients[k].limit == s.clients[k].limit)
      && (forall k :: k in s.clients && k != ip ==> s'.clients[k] == s.clients[k])
      && s'.clients[ip].accessed == now
      && s'.tasks[t] == Task(s.clients[ip].limit, Fresh)
  {}

  ghost predicate Idle(s: State, ip: IpAddr, now: Instant)
    requires ip in s.clients
  {
    s.clients[ip].accessed + 300_000_000_000 <= now
  }

  /** An insertion removes an entry exactly when it is unreferenced and either idle for 300 seconds, or
      the chosen least recently accessed one of a registry that the sweep left full. */
  lemma InsertionEvicts(s: State, t: TaskId, ip: IpAddr, now: Instant, victim: IpAddr, k: IpAddr)
    requires RegistryOk(s) && Enabled(s, Lookup(t, ip, now, victim)) && ip !in s.clients && k in s.clients
    ensures var s' := LookupStep(s, t, ip, now, victim);
      k !in s'.clients <==>
        && Unreferenced(s, k)
        && (Idle(s, k, now)
            || (k == victim
                && |Retained(s, now)| == 1024
                && forall j :: j in s.clients && Unreferenced(s, j) && !Idle(s, j, now) ==>
                     s.clients[k].accessed <= s.clients[j].accessed))
  {
    LookupShape(s, t, ip, now, victim);
    RetainedSize(s, now);
    var kept := Retained(s, now);
    assert k in kept <==> !Unreferenced(s, k) || !Idle(s, k, now);
    if |kept| >= CLIENT_CAPACITY && Evictable(s, now) != {} {
      assert kept == s.clients;
      assert victim in Evictable(s, now);
      forall j | j in s.clients && Unreferenced(s, j) ensures s.clients[victim].accessed <= s.clients[j].accessed {
        assert j in Evictable(s, now);
      }
      assert k !in LookupStep(s, t, ip, now, victim).clients <==> k == victim;
    } else if |kept| >= CLIENT_CAPACITY {
      assert k !in Evictable(s, now);
    }
  }

  /** An admitted new address gets a limit that nobody had before, with all its slots free and one handle;
      every entry that stays is untouched. */
  lemma NewAddressGetsFreshLimit(s: State, t: TaskId, ip: IpAddr, now: Instant, victim: IpAddr)
    requires RegistryOk(s) && Enabled(s, Lookup(t, ip, now, victim)) && ip !in s.clients
    ensures var s' := LookupStep(s, t, ip, now, victim);
      t in s'.tasks ==>
        && ip in s'.clients && s'.clients[ip].accessed == now
        && var l := s'.clients[ip].limit;
        && l.ip == ip && l !in s.limits && s'.tasks == s.tasks[t := Task(l, Fresh)]
        && s'.limits == s.limits[l := ClientLimit(Semaphore(4, []), 16, 1)]
        && s'.global == s.global
        && forall k :: k in s'.clients && k != ip ==> k in s.clients && s'.clients[k] == s.clients[k]
  {
    LookupShape(s, t, ip, now, victim);
  }

  lemma FullKeepsReferenced(s: State, now: Instant)
    requires RegistryOk(s) && |Retained(s, now)| >= CLIENT_CAPACITY && Evictable(s, now) == {}
    ensures |s.clients| == CLIENT_CAPACITY && forall k :: k in s.clients ==> !Unreferenced(s, k)
  {
    RetainedSize(s, now);
    assert Retained(s, now) == s.clients;
    forall k | k in s.clients ensures !Unreferenced(s, k) {
      assert k in Retained(s, now) && k !in Evictable(s, now);
    }
  }

  lemma ReferencedStayFull(s: State, now: Instant)
    requires RegistryOk(s) && |s.clients| == CLIENT_CAPACITY && forall k :: k in s.clients ==> !Unreferenced(s, k)
    ensures |Retained(s, now)| >= CLIENT_CAPACITY && Evictable(s, now) == {}
  {
    assert Retained(s, now) == s.clients;
    forall k ensures k !in Evictable(s, now) {}
  }

  lemma FullOfReferenced(s: State, now: Instant)
    requires RegistryOk(s)
    ensures |Retained(s, now)| >= CLIENT_CAPACITY && Evictable(s, now) == {}
       <==> |s.clients| == CLIENT_CAPACITY && forall k :: k in s.clients ==> !Unreferenced(s, k)
  {
    if |Retained(s, now)| >= CLIENT_CAPACITY && Evictable(s, now) == {} {
      FullKeepsReferenced(s, now);
    } else if |s.clients| == CLIENT_CAPACITY && forall k :: k in s.clients ==> !Unreferenced(s, k) {
      ReferencedStayFull(s, now);
    }
  }

  /** A lookup is refused exactly when the address is new and all 1024 entries are referenced;
      a refusal changes nothing. */
  lemma RefusedExactlyWhenFull(s: State, t: TaskId, ip: IpAddr, now: Instant, victim: IpAddr)
    requires RegistryOk(s) && Enabled(s, Lookup(t, ip, now, victim))
    ensures var s' := LookupStep(s, t, ip, now, victim);
      && (t !in s'.tasks <==>
            ip !in s.clients && |s.clients| == 1024 && forall k :: k in s.clients ==> !Unreferenced(s, k))
      && (t !in s'.tasks ==> s' == s)
      && (t in s'.tasks ==> ip in s'.clients && s'.tasks[t] == Task(s'.clients[ip].limit, Fresh))
  {
    if ip !in s.clients {
      LookupShape(s, t, ip, now, victim);
      FullOfReferenced(s, now);
    }
  }
}
