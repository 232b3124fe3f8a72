/** Isolation between clients, freedom from deadlock, and draining. */
module AdmissionProgress {
  import opened Common
  import opened Admission
  import opened AdmissionSafety
  import opened AdmissionRegistry
  import opened AdmissionSemaphores

  lemma SomeOwner(tasks: map<TaskId, Task>, slot: Slot) returns (t: TaskId)
    requires Count(tasks, slot) > 0
    ensures t in tasks && Owns(tasks[t], slot)
  {
    var owners := Owners(tasks, slot);
    t :| t in owners;
  }

  /** A waiter waits for a semaphore whose slots are all held. */
  lemma StreamWaiterSeesFull(s: State, t: TaskId, l: LimitId)
    requires Inv(s) && WaitsOn(s, t, l)
    ensures l in s.limits && s.limits[l].streams.available == 0 && s.limits[l].streams.queue != []
    ensures Count(s.tasks, StreamOf(l)) == STREAM_SLOTS
  {
    assert LimitQueueOk(s, l) && LimitConserved(s, l);
    assert t in s.limits[l].streams.queue;
  }

  lemma GlobalWaiterSeesFull(s: State, t: TaskId)
    requires Inv(s) && WaitsOnGlobal(s, t)
    ensures s.global.available == 0 && s.global.queue != [] && Count(s.tasks, GlobalSlot) == GLOBAL_SLOTS
  {
    assert t in s.global.queue;
  }

  /** A request slot is granted exactly while fewer than 16 are held; otherwise the call unwinds. */
  lemma RequestGrantedWhileSlotsLast(s: State, t: TaskId, l: LimitId)
    requires l in s.limits && LimitConserved(s, l) && t in s.tasks && s.tasks[t] == Task(l, Fresh)
    ensures ActStep(s, t, TryRequest).tasks[t].stage
         == if Count(s.tasks, RequestOf(l)) < 16 then Ready else Closing(true, false, false, false)
  {}

  /** A stream slot is granted exactly while fewer than 4 are held; otherwise the call joins the end of the line. */
  lemma StreamGrantedWhileSlotsLast(s: State, t: TaskId, l: LimitId)
    requires l in s.limits && LimitConserved(s, l) && t in s.tasks && s.tasks[t] == Task(l, Ready)
    ensures var s' := ActStep(s, t, PollStream);
      if Count(s.tasks, StreamOf(l)) < 4 then s'.tasks[t].stage == HasStream
      else s'.tasks[t].stage == WaitStream && s'.limits[l].streams.queue == s.limits[l].streams.queue + [t]
  {}

  lemma GlobalGrantedWhileSlotsLast(s: State, t: TaskId, l: LimitId)
    requires l in s.limits && GlobalConserved(s) && t in s.tasks && s.tasks[t] == Task(l, HasStream)
    ensures var s' := ActStep(s, t, PollGlobal);
      if Count(s.tasks, GlobalSlot) < 16 then s'.tasks[t].stage == Complete
      else s'.tasks[t].stage == WaitGlobal && s'.global.queue == s.global.queue + [t]
  {}

  // ---- isolation ----

  /** The limits some task holds a stream slot of. */
  ghost function BusyLimits(tasks: map<TaskId, Task>): set<LimitId> {
    set t | t in tasks && HoldsStream(tasks[t].stage) :: tasks[t].limit
  }

  ghost function StreamHolders(tasks: map<TaskId, Task>, ls: set<LimitId>): set<TaskId> {
    set t | t in tasks && HoldsStream(tasks[t].stage) && tasks[t].limit in ls
  }

  /** Tasks half way through dropping: the stream slot is back, the global slot is not. */
  ghost function OnlyGlobal(tasks: map<TaskId, Task>): set<TaskId> {
    set t | t in tasks && HoldsGlobal(tasks[t].stage) && !HoldsStream(tasks[t].stage)
  }

  lemma {:induction false} StreamsPerLimit(tasks: map<TaskId, Task>, ls: set<LimitId>)
    requires forall l :: l in ls ==> Count(tasks, StreamOf(l)) <= STREAM_SLOTS
    ensures |StreamHolders(tasks, ls)| <= STREAM_SLOTS * |ls|
    decreases |ls|
  {
    if ls == {} {
      assert StreamHolders(tasks, ls) == {};
    } else {
      var l :| l in ls;
      StreamsPerLimit(tasks, ls - {l});
      assert Count(tasks, StreamOf(l)) <= STREAM_SLOTS;
      assert StreamHolders(tasks, ls) == StreamHolders(tasks, ls - {l}) + Owners(tasks, StreamOf(l));
    }
  }

  lemma WaiterPlusHolders(tasks: map<TaskId, Task>, t: TaskId)
    requires t in tasks && tasks[t].stage.WaitGlobal? && Count(tasks, GlobalSlot) == GLOBAL_SLOTS
    ensures |StreamHolders(tasks, BusyLimits(tasks))| + |OnlyGlobal(tasks)| >= GLOBAL_SLOTS + 1
  {
    var holders, globals, only := StreamHolders(tasks, BusyLimits(tasks)), Owners(tasks, GlobalSlot), OnlyGlobal(tasks);
    forall u | u in globals + {t} ensures u in holders + only {
      assert HoldsStream(tasks[u].stage) ==> tasks[u].limit in BusyLimits(tasks);
    }
    assert t !in globals && |globals + {t}| == GLOBAL_SLOTS + 1;
    SubsetSize(globals + {t}, holders + only);
  }

  lemma AtMostFourEach(s: State, l: LimitId)
    requires Inv(s) && l in BusyLimits(s.tasks)
    ensures Count(s.tasks, StreamOf(l)) <= STREAM_SLOTS
  {
    assert LimitConserved(s, l);
  }

  /** A task with a stream slot is blocked on the global semaphore only when enough other clients are
      busy: four slots for each busy limit, and one for each half dropped permit, come to at least 17. */
  lemma BlockedOnGlobalNeedsManyLimits(s: State, t: TaskId)
    requires Inv(s) && WaitsOnGlobal(s, t)
    ensures STREAM_SLOTS * |BusyLimits(s.tasks)| + |OnlyGlobal(s.tasks)| >= GLOBAL_SLOTS + 1
  {
    GlobalWaiterSeesFull(s, t);
    WaiterPlusHolders(s.tasks, t);
    forall l | l in BusyLimits(s.tasks) ensures Count(s.tasks, StreamOf(l)) <= STREAM_SLOTS {
      AtMostFourEach(s, l);
    }
    StreamsPerLimit(s.tasks, BusyLimits(s.tasks));
  }

  /** The addresses some task holds a stream slot for. */
  ghost function BusyAddresses(tasks: map<TaskId, Task>): set<IpAddr> {
    set t | t in tasks && HoldsStream(tasks[t].stage) :: tasks[t].limit.ip
  }

  ghost function AddressesOf(ls: set<LimitId>): set<IpAddr> {
    set l | l in ls :: l.ip
  }

  lemma {:induction false} OneAddressEach(ls: set<LimitId>)
    requires forall l, k :: l in ls && k in ls && l.ip == k.ip ==> l == k
    ensures |AddressesOf(ls)| == |ls|
    decreases |ls|
  {
    if ls == {} {
      assert AddressesOf(ls) == {};
    } else {
      var l :| l in ls;
      OneAddressEach(ls - {l});
      assert AddressesOf(ls) == AddressesOf(ls - {l}) + {l.ip};
    }
  }

  lemma OneBusyLimitEach(s: State)
    requires OnePerAddress(s)
    ensures |BusyLimits(s.tasks)| == |BusyAddresses(s.tasks)|
  {
    var ls := BusyLimits(s.tasks);
    forall l, k | l in ls && k in ls && l.ip == k.ip ensures l == k {
      var t :| t in s.tasks && HoldsStream(s.tasks[t].stage) && s.tasks[t].limit == l;
      var u :| u in s.tasks && HoldsStream(s.tasks[u].stage) && s.tasks[u].limit == k;
      assert SameLimit(s, t, u);
    }
    OneAddressEach(ls);
    assert AddressesOf(ls) == BusyAddresses(s.tasks);
  }

  /** While no address uses two limits and no permit is half dropped, at most four addresses with
      streams never block one another on the global slots. */
  lemma FourClientsNeverBlock(s: State, t: TaskId)
    requires Inv(s) && OnePerAddress(s) && OnlyGlobal(s.tasks) == {}
    requires |BusyAddresses(s.tasks)| <= 4
    ensures !WaitsOnGlobal(s, t)
  {
    OneBusyLimitEach(s);
    if WaitsOnGlobal(s, t) {
      BlockedOnGlobalNeedsManyLimits(s, t);
    }
  }

  // ---- freedom from deadlock ----

  /** Steps that need no new arrival and no timeout: a task goes on, or a finished permit is dropped. */
  predicate Cooperative(s: State, e: Event) {
    e.Act? && e.task in s.tasks && (e.action.Close? ==> s.tasks[e.task].stage.Complete?)
  }

  ghost predicate CanGoOn(s: State, t: TaskId) {
    exists action :: Enabled(s, Act(t, action)) && Cooperative(s, Act(t, action))
  }

  predicate Done(g: Stage) {
    g == Closing(false, false, false, false)
  }

  lemma NextAction(s: State, t: TaskId) returns (action: Action)
    requires Inv(s) && t in s.tasks && !Waiting(s.tasks[t].stage) && !Done(s.tasks[t].stage)
    ensures Enabled(s, Act(t, action)) && Cooperative(s, Act(t, action))
  {
    TasksAreLocal(s, t);
    match s.tasks[t].stage
    case Fresh => action := TryRequest;
    case Ready => action := PollStream;
    case HasStream => action := PollGlobal;
    case Complete => action := Close;
    case WaitStream => assert false; action := Close;
    case WaitGlobal => assert false; action := Close;
    case Closing(h, r, m, g) =>
      action := if h then DropHandle else if r then DropRequest else if m then DropStream else DropGlobal;
  }

  ghost predicate Waiting(g: Stage) {
    g.WaitStream? || g.WaitGlobal?
  }

  lemma GlobalHolder(s: State, t: TaskId) returns (u: TaskId)
    requires Inv(s) && WaitsOnGlobal(s, t)
    ensures u in s.tasks && HoldsGlobal(s.tasks[u].stage) && !Waiting(s.tasks[u].stage)
  {
    GlobalWaiterSeesFull(s, t);
    u := SomeOwner(s.tasks, GlobalSlot);
  }

  lemma SlotHolder(s: State, t: TaskId) returns (u: TaskId)
    requires Inv(s) && t in s.tasks && Waiting(s.tasks[t].stage)
    ensures u in s.tasks && !Waiting(s.tasks[u].stage)
    ensures HoldsGlobal(s.tasks[u].stage) || (HoldsStream(s.tasks[u].stage) && s.tasks[u].limit == s.tasks[t].limit)
  {
    if s.tasks[t].stage.WaitGlobal? {
      u := GlobalHolder(s, t);
    } else {
      StreamWaiterSeesFull(s, t, s.tasks[t].limit);
      u := SomeOwner(s.tasks, StreamOf(s.tasks[t].limit));
      if s.tasks[u].stage.WaitGlobal? {
        u := GlobalHolder(s, u);
      }
    }
  }

  /** Whenever some task waits, some task that holds a slot it waits for, directly or through the global
      semaphore, does not wait itself and can go on without any timeout. */
  lemma NoDeadlock(s: State, t: TaskId)
    requires Inv(s) && t in s.tasks && Waiting(s.tasks[t].stage)
    ensures exists u :: (
      && u in s.tasks && !Waiting(s.tasks[u].stage) && CanGoOn(s, u)
      && (HoldsGlobal(s.tasks[u].stage) || (HoldsStream(s.tasks[u].stage) && s.tasks[u].limit == s.tasks[t].limit)))
  {
    var u := SlotHolder(s, t);
    var action := NextAction(s, u);
    assert CanGoOn(s, u);
  }

  /** `w` is first in line for the stream that `t` is about to drop. */
  ghost predicate NextForStream(s: State, t: TaskId, w: TaskId)
    requires Enabled(s, Act(t, DropStream))
  {
    var q := s.limits[s.tasks[t].limit].streams.queue;
    q != [] && q[0] == w
  }

  predicate NextForGlobal(s: State, w: TaskId) {
    s.global.queue != [] && s.global.queue[0] == w
  }

  lemma FirstForStream(s: State, t: TaskId, w: TaskId)
    requires Enabled(s, Act(t, DropStream)) && NextForStream(s, t, w) && Inv(s)
    ensures WaitsOn(s, w, s.tasks[t].limit) && s.limits[s.tasks[t].limit].streams.available == 0
  {
    TasksAreLocal(s, t);
    WaiterIsThere(s, s.tasks[t].limit);
  }

  lemma FirstForGlobal(s: State, w: TaskId)
    requires NextForGlobal(s, w) && Inv(s)
    ensures WaitsOnGlobal(s, w) && s.global.available == 0
  {
    GlobalQueueMember(s, w);
  }

  /** The stream that `t` drops goes to `w`, and the pool stays empty. */
  ghost predicate HandsStreamTo(s: State, t: TaskId, w: TaskId)
    requires Enabled(s, Act(t, DropStream))
  {
    var l, s' := s.tasks[t].limit, ActStep(s, t, DropStream);
    && l in s'.limits && s.limits[l].streams.queue != []
    && s'.tasks == s.tasks[t := Task(l, s.tasks[t].stage.(stream := false))][w := Task(l, HasStream)]
    && s'.limits[l].streams == Semaphore(0, s.limits[l].streams.queue[1..])
  }

  ghost predicate HandsGlobalTo(s: State, t: TaskId, w: TaskId)
    requires Enabled(s, Act(t, DropGlobal))
  {
    var l, s' := s.tasks[t].limit, ActStep(s, t, DropGlobal);
    && w in s.tasks && s.global.queue != []
    && s'.tasks == s.tasks[t := Task(l, s.tasks[t].stage.(global := false))][w := Task(s.tasks[w].limit, Complete)]
    && s'.global == Semaphore(0, s.global.queue[1..])
  }

  lemma StreamHandedOver(s: State, t: TaskId, w: TaskId)
    requires Enabled(s, Act(t, DropStream)) && NextForStream(s, t, w)
    requires WaitsOn(s, w, s.tasks[t].limit) && s.limits[s.tasks[t].limit].streams.available == 0
    ensures HandsStreamTo(s, t, w)
  {}

  lemma GlobalHandedOver(s: State, t: TaskId, w: TaskId)
    requires Enabled(s, Act(t, DropGlobal)) && NextForGlobal(s, w)
    requires WaitsOnGlobal(s, w) && s.global.available == 0
    ensures HandsGlobalTo(s, t, w)
  {}

  /** Whenever the queue for a stream of a limit is not empty, its first member waits for it, dropping one
      admits exactly that one, and the slot never returns to the pool. */
  lemma ReleaseMovesWaiter(s: State, t: TaskId, w: TaskId)
    requires Inv(s) && Enabled(s, Act(t, DropStream)) && NextForStream(s, t, w)
    ensures WaitsOn(s, w, s.tasks[t].limit) && HandsStreamTo(s, t, w)
  {
    FirstForStream(s, t, w);
    StreamHandedOver(s, t, w);
  }

  lemma ReleaseMovesGlobalWaiter(s: State, t: TaskId, w: TaskId)
    requires Inv(s) && Enabled(s, Act(t, DropGlobal)) && NextForGlobal(s, w)
    ensures WaitsOnGlobal(s, w) && HandsGlobalTo(s, t, w)
  {
    FirstForGlobal(s, w);
    GlobalHandedOver(s, t, w);
  }

  // ---- draining ----

  /** How many steps a task in stage `g` can still take. */
  function Rank(g: Stage): nat {
    match g
    case Fresh => 10
    case Ready => 9
    case WaitStream => 8
    case HasStream => 7
    case WaitGlobal => 6
    case Complete => 5
    case Closing(h, r, m, n) =>
      (if h then 1 else 0) + (if r then 1 else 0) + (if m then 1 else 0) + (if n then 1 else 0)
  }

  ghost function RankedFrom(tasks: map<TaskId, Task>, k: nat): set<TaskId> {
    set t | t in tasks && Rank(tasks[t].stage) >= k
  }

  /** The sum over all tasks of their rank, capped at `k`: one for each level a task reaches. */
  ghost function Work(tasks: map<TaskId, Task>, k: nat): nat {
    if k == 0 then 0 else |RankedFrom(tasks, k)| + Work(tasks, k - 1)
  }

  function Min(a: nat, b: nat): nat {
    if a < b then a else b
  }

  lemma {:induction false} WorkUpdate(tasks: map<TaskId, Task>, t: TaskId, task: Task, k: nat)
    requires t in tasks
    ensures Work(tasks[t := task], k) - Min(k, Rank(task.stage)) == Work(tasks, k) - Min(k, Rank(tasks[t].stage))
  {
    if k == 0 {
    } else {
      WorkUpdate(tasks, t, task, k - 1);
      var a, b := RankedFrom(tasks[t := task], k), RankedFrom(tasks, k);
      forall u | u != t ensures u in a <==> u in b {
        assert u in tasks[t := task] <==> u in tasks;
      }
      SameButOne(a, b, t);
    }
  }

  /** A step without a hand-off changes only the acting task, to a stage with less left to do. */
  lemma ActsAlone(s: State, t: TaskId, action: Action)
    requires Enabled(s, Act(t, action))
    requires action.DropStream? ==> s.limits[s.tasks[t].limit].streams.queue == []
    requires action.DropGlobal? ==> s.global.queue == []
    ensures var s' := ActStep(s, t, action);
      && t in s'.tasks && s'.tasks == s.tasks[t := s'.tasks[t]]
      && Rank(s'.tasks[t].stage) < Rank(s.tasks[t].stage)
  {}

  lemma WorkHandedOn(tasks: map<TaskId, Task>, t: TaskId, a: Task, w: TaskId, b: Task)
    requires t in tasks && w in tasks && t != w
    requires Rank(a.stage) < Rank(tasks[t].stage) <= 10 && Rank(b.stage) < Rank(tasks[w].stage) <= 10
    ensures Work(tasks[t := a][w := b], 10) < Work(tasks, 10)
  {
    WorkUpdate(tasks, t, a, 10);
    WorkUpdate(tasks[t := a], w, b, 10);
  }

  lemma StreamHandOffStepsDown(s: State, t: TaskId, w: TaskId)
    requires Enabled(s, Act(t, DropStream)) && NextForStream(s, t, w)
    requires WaitsOn(s, w, s.tasks[t].limit) && s.limits[s.tasks[t].limit].streams.available == 0
    ensures Work(ActStep(s, t, DropStream).tasks, 10) < Work(s.tasks, 10)
  {
    var l := s.tasks[t].limit;
    StreamHandedOver(s, t, w);
    WorkHandedOn(s.tasks, t, Task(l, s.tasks[t].stage.(stream := false)), w, Task(l, HasStream));
  }

  lemma GlobalHandOffStepsDown(s: State, t: TaskId, w: TaskId)
    requires Enabled(s, Act(t, DropGlobal)) && NextForGlobal(s, w)
    requires WaitsOnGlobal(s, w) && s.global.available == 0
    ensures Work(ActStep(s, t, DropGlobal).tasks, 10) < Work(s.tasks, 10)
  {
    GlobalHandedOver(s, t, w);
    WorkHandedOn(s.tasks, t, Task(s.tasks[t].limit, s.tasks[t].stage.(global := false)), w, Task(s.tasks[w].limit, Complete));
  }

  lemma AloneStepsDown(s: State, t: TaskId, action: Action)
    requires Enabled(s, Act(t, action))
    requires action.DropStream? ==> s.limits[s.tasks[t].limit].streams.queue == []
    requires action.DropGlobal? ==> s.global.queue == []
    ensures Work(ActStep(s, t, action).tasks, 10) < Work(s.tasks, 10)
  {
    ActsAlone(s, t, action);
    WorkUpdate(s.tasks, t, ActStep(s, t, action).tasks[t], 10);
  }

  /** Every step of a task leaves less work. */
  lemma StepsDown(s: State, t: TaskId, action: Action)
    requires Enabled(s, Act(t, action)) && Inv(s)
    ensures Work(ActStep(s, t, action).tasks, 10) < Work(s.tasks, 10)
  {
    if action.DropStream? && s.limits[s.tasks[t].limit].streams.queue != [] {
      var w := s.limits[s.tasks[t].limit].streams.queue[0];
      FirstForStream(s, t, w);
      StreamHandOffStepsDown(s, t, w);
    } else if action.DropGlobal? && s.global.queue != [] {
      FirstForGlobal(s, s.global.queue[0]);
      GlobalHandOffStepsDown(s, t, s.global.queue[0]);
    } else {
      AloneStepsDown(s, t, action);
    }
  }

  ghost predicate NoArrivals(es: seq<Event>) {
    forall e :: e in es ==> e.Act?
  }

  /** Without new arrivals every run ends: it has at most as many steps as there is work left. */
  lemma {:induction false} DrainingEnds(s: State, es: seq<Event>)
    requires Inv(s) && ValidRun(s, es) && NoArrivals(es)
    ensures |es| <= Work(s.tasks, 10)
    decreases |es|
  {
    if es == [] {
    } else {
      assert es[0] in es;
      StepKeeps(s, es[0]);
      StepsDown(s, es[0].task, es[0].action);
      DrainingEnds(Apply(s, es[0]), es[1..]);
    }
  }

  ghost predicate Quiescent(s: State) {
    forall e :: Cooperative(s, e) ==> !Enabled(s, e)
  }

  predicate AllFull(s: State) {
    && s.global == Semaphore(GLOBAL_SLOTS, [])
    && forall l :: l in s.limits ==> s.limits[l] == ClientLimit(Semaphore(STREAM_SLOTS, []), REQUEST_SLOTS, 0)
  }

  lemma QuiescentMeansDone(s: State, t: TaskId)
    requires Inv(s) && Quiescent(s) && t in s.tasks
    ensures Done(s.tasks[t].stage)
  {
    if Waiting(s.tasks[t].stage) {
      NoDeadlock(s, t);
    } else if !Done(s.tasks[t].stage) {
      var action := NextAction(s, t);
    }
  }

  /** A run that only lets tasks go on and drops finished permits can stop nowhere but with every waiter
      gone and every semaphore full again. */
  lemma QuiescentMeansFull(s: State)
    requires Inv(s) && Quiescent(s)
    ensures AllFull(s) && forall t :: t in s.tasks ==> Done(s.tasks[t].stage)
  {
    forall t | t in s.tasks ensures Done(s.tasks[t].stage) {
      QuiescentMeansDone(s, t);
    }
    NobodyOwns(s, GlobalSlot);
    forall l | l in s.limits ensures s.limits[l] == ClientLimit(Semaphore(STREAM_SLOTS, []), REQUEST_SLOTS, 0) {
      NobodyOwns(s, HandleOf(l));
      NobodyOwns(s, RequestOf(l));
      NobodyOwns(s, StreamOf(l));
      assert LimitConserved(s, l);
    }
  }

  lemma NobodyOwns(s: State, slot: Slot)
    requires forall t :: t in s.tasks ==> Done(s.tasks[t].stage)
    ensures Count(s.tasks, slot) == 0
  {
    assert Owners(s.tasks, slot) == {};
  }

  ghost predicate CooperativeRun(s: State, es: seq<Event>)
    decreases |es|
  {
    es == [] || (Enabled(s, es[0]) && Cooperative(s, es[0]) && CooperativeRun(Apply(s, es[0]), es[1..]))
  }

  ghost function After(s: State, es: seq<Event>): State
    requires CooperativeRun(s, es)
    decreases |es|
  {
    if es == [] then s else After(Apply(s, es[0]), es[1..])
  }

  /** `t` holds a complete permit at some point of the run. */
  ghost predicate Admitted(s: State, es: seq<Event>, t: TaskId)
    requires CooperativeRun(s, es)
    decreases |es|
  {
    || (t in s.tasks && s.tasks[t].stage.Complete?)
    || (es != [] && Admitted(Apply(s, es[0]), es[1..], t))
  }

  predicate Pending(g: Stage) {
    g.Ready? || g.WaitStream? || g.HasStream? || g.WaitGlobal?
  }

  lemma OwnActGoesOn(s: State, t: TaskId, action: Action)
    requires Enabled(s, Act(t, action)) && Cooperative(s, Act(t, action)) && Pending(s.tasks[t].stage)
    ensures var s' := ActStep(s, t, action);
      t in s'.tasks && (Pending(s'.tasks[t].stage) || s'.tasks[t].stage.Complete?)
  {}

  lemma OtherActGoesOn(s: State, u: TaskId, action: Action, t: TaskId)
    requires Enabled(s, Act(u, action)) && u != t && t in s.tasks && Pending(s.tasks[t].stage)
    ensures var s' := ActStep(s, u, action);
      t in s'.tasks && (Pending(s'.tasks[t].stage) || s'.tasks[t].stage.Complete?)
  {}

  lemma PendingGoesOn(s: State, e: Event, t: TaskId)
    requires Enabled(s, e) && Cooperative(s, e) && t in s.tasks && Pending(s.tasks[t].stage)
    ensures t in Apply(s, e).tasks
    ensures Pending(Apply(s, e).tasks[t].stage) || Apply(s, e).tasks[t].stage.Complete?
  {
    if e.task == t {
      OwnActGoesOn(s, t, e.action);
    } else {
      OtherActGoesOn(s, e.task, e.action, t);
    }
  }

  /** Releasing permits admits every waiter: along any cooperative run that cannot go further, each task
      that had a request slot comes to hold a complete permit. */
  lemma {:induction false} DrainingAdmits(s: State, es: seq<Event>, t: TaskId)
    requires Inv(s) && CooperativeRun(s, es) && Quiescent(After(s, es))
    requires t in s.tasks && Pending(s.tasks[t].stage)
    ensures Admitted(s, es, t)
    decreases |es|
  {
    if es == [] {
      QuiescentMeansDone(s, t);
    } else {
      StepKeeps(s, es[0]);
      PendingGoesOn(s, es[0], t);
      var s' := Apply(s, es[0]);
      if !s'.tasks[t].stage.Complete? {
        DrainingAdmits(s', es[1..], t);
      }
    }
  }

  /** From every reachable state there is such a run. */
  lemma {:induction false} DrainingIsPossible(s: State) returns (es: seq<Event>)
    requires Inv(s)
    ensures CooperativeRun(s, es) && Quiescent(After(s, es)) && AllFull(After(s, es))
    decreases Work(s.tasks, 10)
  {
    if Quiescent(s) {
      es := [];
      QuiescentMeansFull(s);
    } else {
      var e :| Cooperative(s, e) && Enabled(s, e);
      StepKeeps(s, e);
      StepsDown(s, e.task, e.action);
      var rest := DrainingIsPossible(Apply(s, e));
      es := [e] + rest;
      assert es[1..] == rest;
    }
  }
}
