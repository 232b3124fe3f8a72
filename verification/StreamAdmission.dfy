/** The admission object itself: each atomic section of `src/admission.rs` updates the fields in place
    and takes exactly the step of the same name. */
module StreamAdmissionObject {
  import opened Common
  import opened Admission
  import opened AdmissionSafety
  import opened AdmissionRegistry
  import opened AdmissionEffects

  class StreamAdmission {
    var global: Semaphore
    var clients: map<IpAddr, Entry>
    /** The `ClientLimit` allocations, by name; an `Arc` to one is its name. */
    var limits: map<LimitId, ClientLimit>
    /** The `acquire` calls under way and the permits they produced. */
    var tasks: map<TaskId, Task>
    var serial: nat

    ghost function View(): State
      reads this
    {
      State(global, clients, limits, tasks, serial)
    }

    ghost predicate Valid()
      reads this
    {
      Inv(View())
    }

    constructor ()
      ensures Valid() && View() == INITIAL
    {
      global := Semaphore(GLOBAL_SLOTS, []);
      clients, limits, tasks, serial := map[], map[], map[], 0;
      new;
      InitialOk();
    }

    /** A least recently accessed entry among those with strong count 1, if there is any. */
    method Oldest() returns (oldest: Option<IpAddr>)
      requires Linked(View())
      ensures oldest.None? <==> forall ip :: ip in clients ==> !Unreferenced(View(), ip)
      ensures oldest.Some? ==>
        && oldest.value in clients && Unreferenced(View(), oldest.value)
        && forall ip :: ip in clients && Unreferenced(View(), ip) ==> clients[oldest.value].accessed <= clients[ip].accessed
    {
      oldest := None;
      var rest := clients.Keys;
      while rest != {}
        invariant rest <= clients.Keys
        invariant oldest.Some? ==> oldest.value in clients && Unreferenced(View(), oldest.value)
        invariant forall ip :: ip in clients && ip !in rest && Unreferenced(View(), ip) ==>
          oldest.Some? && clients[oldest.value].accessed <= clients[ip].accessed
        decreases rest
      {
        var ip :| ip in rest;
        if limits[clients[ip].limit].handles == 0
           && (oldest.None? || clients[ip].accessed < clients[oldest.value].accessed) {
          oldest := Some(ip);
        }
        rest := rest - {ip};
      }
    }

    /** `StreamAdmission::client`: `None` is "too many active clients". */
    method Client(task: TaskId, ip: IpAddr, now: Instant) returns (limit: Option<LimitId>)
      requires RegistryOk(View()) && task !in tasks
      modifies this
      ensures exists victim :: (
        && Enabled(old(View()), Lookup(task, ip, now, victim))
        && View() == LookupStep(old(View()), task, ip, now, victim))
      ensures limit.None? <==>
        ip !in old(clients) && |old(clients)| == CLIENT_CAPACITY
        && forall k :: k in old(clients) ==> !Unreferenced(old(View()), k)
      ensures limit.Some? ==> ip in clients && limit.value == clients[ip].limit && tasks[task] == Task(limit.value, Fresh)
      ensures ip in old(clients) ==> limit == Some(old(clients)[ip].limit)
    {
      ghost var s := View();
      if ip in clients {
        limit := Rejoin(task, ip, now);
        assert Enabled(s, Lookup(task, ip, now, 0)) && View() == LookupStep(s, task, ip, now, 0);
        return;
      }
      RetainedSize(s, now);
      FullOfReferenced(s, now);
      ghost var victim;
      var full;
      full, victim := MakeRoom(now);
      if full {
        limit := None;
      } else {
        limit := AddNew(task, ip, now);
      }
      assert Enabled(s, Lookup(task, ip, now, victim)) && View() == LookupStep(s, task, ip, now, victim);
    }

    /** The idle sweep, and the eviction of one unreferenced entry when the registry is still full. */
    method MakeRoom(now: Instant) returns (full: bool, ghost victim: IpAddr)
      requires RegistryOk(View())
      modifies this`clients
      ensures full <==> |Retained(old(View()), now)| >= CLIENT_CAPACITY && Evictable(old(View()), now) == {}
      ensures clients == Remaining(old(View()), now, victim)
      ensures |Retained(old(View()), now)| >= CLIENT_CAPACITY && !full ==> IsOldest(old(View()), now, victim)
    {
      ghost var s := View();
      clients := map k | k in clients
        && (limits[clients[k].limit].handles > 0 || Since(now, clients[k].accessed) < CLIENT_IDLE) :: clients[k];
      assert clients == Retained(s, now);
      RetainedSize(s, now);
      FullOfReferenced(s, now);
      full, victim := false, 0;
      if |clients| >= CLIENT_CAPACITY {
        assert View() == s;
        var oldest := Oldest();
        if oldest.None? {
          full := true;
        } else {
          victim := oldest.value;
          OldestIsOldest(s, now, victim);
          clients := clients - {oldest.value};
        }
      }
    }

    method Rejoin(task: TaskId, ip: IpAddr, now: Instant) returns (limit: Option<LimitId>)
      requires Linked(View()) && ip in clients
      modifies this
      ensures View() == Join(old(View()), task, ip, now) && limit == Some(old(clients)[ip].limit)
    {
      var l := clients[ip].limit;
      clients := clients[ip := Entry(l, now)];
      limits := limits[l := limits[l].(handles := limits[l].handles + 1)];
      tasks := tasks[task := Task(l, Fresh)];
      limit := Some(l);
    }

    method AddNew(task: TaskId, ip: IpAddr, now: Instant) returns (limit: Option<LimitId>)
      modifies this
      ensures limit == Some(LimitId(ip, old(serial)))
      ensures View() == Insert(old(View()), old(clients), task, ip, now)
    {
      var l := LimitId(ip, serial);
      clients := clients[ip := Entry(l, now)];
      limits := limits[l := ClientLimit(Semaphore(STREAM_SLOTS, []), REQUEST_SLOTS, 1)];
      tasks := tasks[task := Task(l, Fresh)];
      serial := serial + 1;
      limit := Some(l);
    }

    /** `try_acquire_owned` on the request slots; on failure the call begins to unwind. */
    method TryRequest(task: TaskId) returns (ok: bool)
      requires Enabled(View(), Act(task, Action.TryRequest))
      modifies this
      ensures View() == ActStep(old(View()), task, Action.TryRequest)
      ensures ok <==> old(limits)[old(tasks)[task].limit].requests > 0
    {
      var l := tasks[task].limit;
      ok := limits[l].requests > 0;
      if ok {
        limits := limits[l := limits[l].(requests := limits[l].requests - 1)];
        tasks := tasks[task := Task(l, Ready)];
      } else {
        tasks := tasks[task := Task(l, Closing(true, false, false, false))];
      }
    }

    /** First poll of `acquire_owned` on the client's streams: take a slot or join the queue. */
    method PollStream(task: TaskId) returns (ready: bool)
      requires Enabled(View(), Act(task, Action.PollStream))
      modifies this
      ensures View() == ActStep(old(View()), task, Action.PollStream)
      ensures ready <==> HoldsStream(tasks[task].stage)
    {
      var l := tasks[task].limit;
      var m := limits[l].streams;
      ready := m.available > 0;
      if ready {
        limits := limits[l := limits[l].(streams := m.(available := m.available - 1))];
        tasks := tasks[task := Task(l, HasStream)];
      } else {
        limits := limits[l := limits[l].(streams := m.(queue := m.queue + [task]))];
        tasks := tasks[task := Task(l, WaitStream)];
      }
    }

    /** First poll of `acquire_owned` on the global slots. */
    method PollGlobal(task: TaskId) returns (ready: bool)
      requires Enabled(View(), Act(task, Action.PollGlobal))
      modifies this
      ensures View() == ActStep(old(View()), task, Action.PollGlobal)
      ensures ready <==> HoldsGlobal(tasks[task].stage)
    {
      ready := global.available > 0;
      if ready {
        global := global.(available := global.available - 1);
        tasks := tasks[task := tasks[task].(stage := Complete)];
      } else {
        global := global.(queue := global.queue + [task]);
        tasks := tasks[task := tasks[task].(stage := WaitGlobal)];
      }
    }

    /** Releases one stream slot of `l`: the first waiter gets it, or the pool does. */
    method AddStreamPermit(l: LimitId)
      requires l in limits && (limits[l].streams.queue != [] ==> limits[l].streams.queue[0] in tasks)
      modifies this`limits, this`tasks
      ensures View() == ReleaseStream(old(View()), l)
    {
      var m := limits[l].streams;
      if m.queue == [] {
        limits := limits[l := limits[l].(streams := m.(available := m.available + 1))];
      } else {
        limits := limits[l := limits[l].(streams := m.(queue := m.queue[1..]))];
        tasks := tasks[m.queue[0] := tasks[m.queue[0]].(stage := HasStream)];
      }
    }

    method AddGlobalPermit()
      requires global.queue != [] ==> global.queue[0] in tasks
      modifies this`global, this`tasks
      ensures View() == ReleaseGlobal(old(View()))
    {
      if global.queue == [] {
        global := global.(available := global.available + 1);
      } else {
        tasks := tasks[global.queue[0] := tasks[global.queue[0]].(stage := Complete)];
        global := global.(queue := global.queue[1..]);
      }
    }

    /** The permit's `_stream` field is dropped. */
    method DropStream(task: TaskId)
      requires Enabled(View(), Act(task, Action.DropStream))
      requires var q := limits[tasks[task].limit].streams.queue; q != [] ==> q[0] in tasks
      modifies this
      ensures View() == ActStep(old(View()), task, Action.DropStream)
    {
      var l := tasks[task].limit;
      tasks := tasks[task := tasks[task].(stage := tasks[task].stage.(stream := false))];
      AddStreamPermit(l);
    }

    /** The permit's `_global` field is dropped. */
    method DropGlobal(task: TaskId)
      requires Enabled(View(), Act(task, Action.DropGlobal))
      requires global.queue != [] ==> global.queue[0] in tasks
      modifies this
      ensures View() == ActStep(old(View()), task, Action.DropGlobal)
    {
      tasks := tasks[task := tasks[task].(stage := tasks[task].stage.(global := false))];
      AddGlobalPermit();
    }

    /** The permit's `_request` field is dropped. */
    method DropRequest(task: TaskId)
      requires Enabled(View(), Act(task, Action.DropRequest))
      modifies this
      ensures View() == ActStep(old(View()), task, Action.DropRequest)
    {
      var l := tasks[task].limit;
      limits := limits[l := limits[l].(requests := limits[l].requests + 1)];
      tasks := tasks[task := tasks[task].(stage := tasks[task].stage.(request := false))];
    }

    /** The permit's `_client` field is dropped. */
    method DropHandle(task: TaskId)
      requires Enabled(View(), Act(task, Action.DropHandle))
      modifies this
      ensures View() == ActStep(old(View()), task, Action.DropHandle)
    {
      var l := tasks[task].limit;
      limits := limits[l := limits[l].(handles := limits[l].handles - 1)];
      tasks := tasks[task := tasks[task].(stage := tasks[task].stage.(handle := false))];
    }

    /** A timeout, a cancellation, or the end of a finished permit: a waiter leaves its queue. */
    method Close(task: TaskId)
      requires Enabled(View(), Act(task, Action.Close))
      modifies this
      ensures View() == ActStep(old(View()), task, Action.Close)
      ensures old(Valid()) ==> OnlyLeft(old(View()), View(), task)
    {
      ghost var s := View();
      var l, stage := tasks[task].limit, tasks[task].stage;
      if stage.WaitStream? {
        var m := limits[l].streams;
        limits := limits[l := limits[l].(streams := m.(queue := Without(m.queue, task)))];
      } else if stage.WaitGlobal? {
        global := global.(queue := Without(global.queue, task));
      }
      tasks := tasks[task := Task(l, Leftovers(stage))];
      if Inv(s) {
        CloseTakesNothing(s, task);
      }
    }

    /** A lookup keeps the whole admission state consistent. */
    method LookUp(task: TaskId, ip: IpAddr, now: Instant) returns (limit: Option<LimitId>)
      requires Valid() && task !in tasks
      modifies this
      ensures Valid()
      ensures limit.Some? ==> ip in clients && clients[ip].limit == limit.value
      ensures ip in old(clients) ==> limit == Some(old(clients)[ip].limit)
    {
      ghost var s := View();
      limit := Client(task, ip, now);
      ghost var victim :| Enabled(s, Lookup(task, ip, now, victim)) && View() == LookupStep(s, task, ip, now, victim);
      LookupKeeps(s, task, ip, now, victim);
    }

    /** The next step of one task, whichever it is, keeps it consistent too. */
    method Step(task: TaskId, action: Action)
      requires Valid() && Enabled(View(), Act(task, action))
      modifies this
      ensures Valid() && View() == ActStep(old(View()), task, action)
    {
      ghost var s := View();
      WaitersAreThere(s, task);
      Dispatch(task, action);
      ActKeeps(s, task, action);
    }

    method Dispatch(task: TaskId, action: Action)
      requires Enabled(View(), Act(task, action)) && HeadsKnown(View(), task)
      modifies this
      ensures View() == ActStep(old(View()), task, action)
    {
      match action
      case TryRequest => var _ := TryRequest(task);
      case PollStream => var _ := PollStream(task);
      case PollGlobal => var _ := PollGlobal(task);
      case Close => Close(task);
      case DropHandle => DropHandle(task);
      case DropRequest => DropRequest(task);
      case DropStream => DropStream(task);
      case DropGlobal => DropGlobal(task);
    }
  }

  ghost predicate HeadsKnown(s: State, t: TaskId) {
    && t in s.tasks && s.tasks[t].limit in s.limits
    && (var q := s.limits[s.tasks[t].limit].streams.queue; q != [] ==> q[0] in s.tasks)
    && (s.global.queue != [] ==> s.global.queue[0] in s.tasks)
  }

  lemma WaitersAreThere(s: State, t: TaskId)
    requires Inv(s) && t in s.tasks
    ensures HeadsKnown(s, t)
  {
    TasksAreLocal(s, t);
    if s.limits[s.tasks[t].limit].streams.queue != [] {
      WaiterIsThere(s, s.tasks[t].limit);
    }
    if s.global.queue != [] {
      GlobalQueueMember(s, s.global.queue[0]);
    }
  }

  lemma OldestIsOldest(s: State, now: Instant, victim: IpAddr)
    requires RegistryOk(s) && Retained(s, now) == s.clients && victim in s.clients && Unreferenced(s, victim)
    requires forall ip :: ip in s.clients && Unreferenced(s, ip) ==> s.clients[victim].accessed <= s.clients[ip].accessed
    ensures IsOldest(s, now, victim)
  {}
}
