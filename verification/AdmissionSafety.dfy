/** What every step of stream admission keeps, and the safety of whole runs. */
module AdmissionSafety {
  import opened Common
  import opened Admission

  // ---- counting owners ----

  ghost function Owners(tasks: map<TaskId, Task>, slot: Slot): set<TaskId> {
    set t | t in tasks && Owns(tasks[t], slot)
  }

  ghost function Count(tasks: map<TaskId, Task>, slot: Slot): nat {
    |Owners(tasks, slot)|
  }

  ghost function Share(tasks: map<TaskId, Task>, t: TaskId, slot: Slot): nat {
    if t in tasks && Owns(tasks[t], slot) then 1 else 0
  }

  lemma SameButOne(a: set<TaskId>, b: set<TaskId>, t: TaskId)
    requires forall u :: u != t ==> (u in a <==> u in b)
    ensures |a| - (if t in a then 1 else 0) == |b| - (if t in b then 1 else 0)
  {
    assert a - {t} == b - {t};
    assert a == if t in a then (a - {t}) + {t} else a - {t};
    assert b == if t in b then (b - {t}) + {t} else b - {t};
  }

  /** Changing one task moves every count by that task's own share. */
  lemma CountUpdate(tasks: map<TaskId, Task>, t: TaskId, task: Task, slot: Slot)
    ensures Count(tasks[t := task], slot) == Count(tasks, slot) - Share(tasks, t, slot) + (if Owns(task, slot) then 1 else 0)
  {
    var before, after := Owners(tasks, slot), Owners(tasks[t := task], slot);
    forall u | u != t ensures u in before <==> u in after {
      assert u in tasks[t := task] <==> u in tasks;
    }
    SameButOne(before, after, t);
  }

  // ---- the invariant ----

  /** The registry maps an address to a limit that exists and was made for that address. */
  ghost predicate RegistryOk(s: State) {
    && |s.clients| <= CLIENT_CAPACITY
    && (forall ip :: ip in s.clients ==> s.clients[ip].limit in s.limits && s.clients[ip].limit.ip == ip)
    && (forall l :: l in s.limits ==> l.serial < s.serial)
  }

  ghost predicate Registered(s: State, l: LimitId) {
    l.ip in s.clients && s.clients[l.ip].limit == l
  }

  /** Every outstanding handle points to the limit registered for its address. */
  ghost predicate HandlesRegistered(s: State) {
    forall t :: t in s.tasks ==>
      s.tasks[t].limit in s.limits && (HoldsHandle(s.tasks[t].stage) ==> Registered(s, s.tasks[t].limit))
  }

  ghost predicate LimitConserved(s: State, l: LimitId)
    requires l in s.limits
  {
    && s.limits[l].streams.available + Count(s.tasks, StreamOf(l)) == STREAM_SLOTS
    && s.limits[l].requests + Count(s.tasks, RequestOf(l)) == REQUEST_SLOTS
    && s.limits[l].handles == Count(s.tasks, HandleOf(l))
  }

  ghost predicate GlobalConserved(s: State) {
    s.global.available + Count(s.tasks, GlobalSlot) == GLOBAL_SLOTS
  }

  /** For each limit and for the global semaphore, available plus held is the initial count. */
  ghost predicate Conserved(s: State) {
    GlobalConserved(s) && forall l :: l in s.limits ==> LimitConserved(s, l)
  }

  ghost predicate NoDuplicates(q: seq<TaskId>) {
    forall i, j :: 0 <= i < j < |q| ==> q[i] != q[j]
  }

  ghost predicate WaitsOn(s: State, t: TaskId, l: LimitId) {
    t in s.tasks && s.tasks[t] == Task(l, WaitStream)
  }

  ghost predicate WaitsOnGlobal(s: State, t: TaskId) {
    t in s.tasks && s.tasks[t].stage.WaitGlobal?
  }

  ghost predicate LimitQueueOk(s: State, l: LimitId)
    requires l in s.limits
  {
    && NoDuplicates(s.limits[l].streams.queue)
    && forall t :: t in s.limits[l].streams.queue <==> WaitsOn(s, t, l)
  }

  ghost predicate GlobalQueueOk(s: State) {
    && NoDuplicates(s.global.queue)
    && forall t :: t in s.global.queue <==> WaitsOnGlobal(s, t)
  }

  /** The queues hold exactly the waiters, once each. */
  ghost predicate QueuesOk(s: State) {
    GlobalQueueOk(s) && forall l :: l in s.limits ==> LimitQueueOk(s, l)
  }

  predicate Tight(m: Semaphore) {
    m.queue != [] ==> m.available == 0
  }

  /** Nobody waits beside a free slot. */
  ghost predicate AllTight(s: State) {
    Tight(s.global) && forall l :: l in s.limits ==> Tight(s.limits[l].streams)
  }

  ghost predicate Inv(s: State) {
    RegistryOk(s) && HandlesRegistered(s) && Conserved(s) && QueuesOk(s) && AllTight(s)
  }

  // ---- queues ----

  lemma WithoutKeeps(q: seq<TaskId>, t: TaskId)
    ensures forall u :: u in Without(q, t) <==> u in q && u != t
    ensures NoDuplicates(q) ==> NoDuplicates(Without(q, t))
    ensures Without(q, t) != [] ==> q != []
  {
    if q != [] {
      WithoutKeeps(q[1..], t);
      assert forall u :: u in q <==> u == q[0] || u in q[1..];
      if NoDuplicates(q) {
        assert NoDuplicates(q[1..]);
        assert q[0] !in q[1..];
      }
    }
  }

  // ---- one task changes stage ----

  /** The part of the invariant that does not speak of queues. */
  ghost predicate Core(s: State) {
    RegistryOk(s) && HandlesRegistered(s) && Conserved(s)
  }

  ghost function Delta(g: Stage, g': Stage, slot: Slot): int {
    var l := if slot.GlobalSlot? then LimitId(0, 0) else slot.limit;
    (if Owns(Task(l, g'), slot) then 1 else 0) - (if Owns(Task(l, g), slot) then 1 else 0)
  }

  /** `t` moves to stage `g` while its limit and the global semaphore become `limit` and `global`. */
  function Moved(s: State, t: TaskId, g: Stage, limit: ClientLimit, global: Semaphore): State
    requires t in s.tasks
  {
    var l := s.tasks[t].limit;
    State(global, s.clients, s.limits[l := limit], s.tasks[t := Task(l, g)], s.serial)
  }

  lemma MovedKeepsRegistry(s: State, t: TaskId, g: Stage, limit: ClientLimit, global: Semaphore)
    requires RegistryOk(s) && HandlesRegistered(s) && t in s.tasks
    requires HoldsHandle(g) ==> HoldsHandle(s.tasks[t].stage)
    ensures RegistryOk(Moved(s, t, g, limit, global)) && HandlesRegistered(Moved(s, t, g, limit, global))
  {}

  lemma MovedConserves(s: State, t: TaskId, g: Stage, limit: ClientLimit, global: Semaphore, k: LimitId)
    requires t in s.tasks && s.tasks[t].limit in s.limits && k in s.limits && LimitConserved(s, k)
    requires var l := s.tasks[t].limit; var g0 := s.tasks[t].stage;
      && limit.streams.available == s.limits[l].streams.available - Delta(g0, g, StreamOf(l))
      && limit.requests == s.limits[l].requests - Delta(g0, g, RequestOf(l))
      && limit.handles == s.limits[l].handles + Delta(g0, g, HandleOf(l))
    ensures LimitConserved(Moved(s, t, g, limit, global), k)
  {
    var task := Task(s.tasks[t].limit, g);
    CountUpdate(s.tasks, t, task, StreamOf(k));
    CountUpdate(s.tasks, t, task, RequestOf(k));
    CountUpdate(s.tasks, t, task, HandleOf(k));
  }

  /** A move keeps everything conserved when the semaphores lose exactly what the task gains. */
  lemma MovedKeepsConserved(s: State, t: TaskId, g: Stage, limit: ClientLimit, global: Semaphore)
    requires Conserved(s) && t in s.tasks && s.tasks[t].limit in s.limits
    requires var l := s.tasks[t].limit; var g0 := s.tasks[t].stage;
      && limit.streams.available == s.limits[l].streams.available - Delta(g0, g, StreamOf(l))
      && limit.requests == s.limits[l].requests - Delta(g0, g, RequestOf(l))
      && limit.handles == s.limits[l].handles + Delta(g0, g, HandleOf(l))
      && global.available == s.global.available - Delta(g0, g, GlobalSlot)
    ensures Conserved(Moved(s, t, g, limit, global))
  {
    CountUpdate(s.tasks, t, Task(s.tasks[t].limit, g), GlobalSlot);
    forall k | k in s.limits ensures LimitConserved(Moved(s, t, g, limit, global), k) {
      MovedConserves(s, t, g, limit, global, k);
    }
  }

  // ---- queues under a move ----

  /** `q'` is `q` with `t` in it just when it waits, and every other waiter as before. */
  ghost predicate QueueAfter(q: seq<TaskId>, q': seq<TaskId>, t: TaskId, waits: bool) {
    NoDuplicates(q') && forall u :: u in q' <==> if u == t then waits else u in q
  }

  lemma MovedKeepsLimitQueue(s: State, t: TaskId, g: Stage, limit: ClientLimit, global: Semaphore, k: LimitId)
    requires t in s.tasks && s.tasks[t].limit in s.limits && k in s.limits && LimitQueueOk(s, k)
    requires QueueAfter(s.limits[s.tasks[t].limit].streams.queue, limit.streams.queue, t, g.WaitStream?)
    ensures LimitQueueOk(Moved(s, t, g, limit, global), k)
  {
    var s' := Moved(s, t, g, limit, global);
    forall u ensures u in s'.limits[k].streams.queue <==> WaitsOn(s', u, k) {
      if u != t {
        assert WaitsOn(s', u, k) <==> WaitsOn(s, u, k);
      }
    }
  }

  lemma MovedKeepsGlobalQueue(s: State, t: TaskId, g: Stage, limit: ClientLimit, global: Semaphore)
    requires t in s.tasks && GlobalQueueOk(s)
    requires QueueAfter(s.global.queue, global.queue, t, g.WaitGlobal?)
    ensures GlobalQueueOk(Moved(s, t, g, limit, global))
  {
    var s' := Moved(s, t, g, limit, global);
    forall u ensures u in s'.global.queue <==> WaitsOnGlobal(s', u) {
      if u != t {
        assert WaitsOnGlobal(s', u) <==> WaitsOnGlobal(s, u);
      }
    }
  }

  ghost predicate Loose(s: State) {
    Core(s) && QueuesOk(s)
  }

  /** The semaphores lose exactly what the task gains, and its queues follow its stage. */
  ghost predicate Balanced(s: State, t: TaskId, g: Stage, limit: ClientLimit, global: Semaphore)
    requires t in s.tasks && s.tasks[t].limit in s.limits
  {
    var l, g0 := s.tasks[t].limit, s.tasks[t].stage;
    var before := s.limits[l];
    && (HoldsHandle(g) ==> HoldsHandle(g0))
    && limit.streams.available == before.streams.available - Delta(g0, g, StreamOf(l))
    && limit.requests == before.requests - Delta(g0, g, RequestOf(l))
    && limit.handles == before.handles + Delta(g0, g, HandleOf(l))
    && global.available == s.global.available - Delta(g0, g, GlobalSlot)
    && QueueAfter(before.streams.queue, limit.streams.queue, t, g.WaitStream?)
    && QueueAfter(s.global.queue, global.queue, t, g.WaitGlobal?)
  }

  lemma MovedKeeps(s: State, t: TaskId, g: Stage, limit: ClientLimit, global: Semaphore)
    requires Loose(s) && t in s.tasks && Balanced(s, t, g, limit, global)
    ensures Loose(Moved(s, t, g, limit, global))
  {
    MovedKeepsRegistry(s, t, g, limit, global);
    MovedKeepsConserved(s, t, g, limit, global);
    MovedKeepsGlobalQueue(s, t, g, limit, global);
    forall k | k in s.limits ensures LimitQueueOk(Moved(s, t, g, limit, global), k) {
      MovedKeepsLimitQueue(s, t, g, limit, global, k);
    }
  }

  lemma MovedKeepsTight(s: State, t: TaskId, g: Stage, limit: ClientLimit, global: Semaphore)
    requires AllTight(s) && t in s.tasks && s.tasks[t].limit in s.limits && Tight(limit.streams) && Tight(global)
    ensures AllTight(Moved(s, t, g, limit, global))
  {}

  /** What the invariant says about one task, its limit and the two queues. */
  ghost predicate Local(s: State, t: TaskId) {
    && t in s.tasks
    && var l := s.tasks[t].limit;
    && l in s.limits
    && NoDuplicates(s.limits[l].streams.queue)
    && (t in s.limits[l].streams.queue <==> s.tasks[t].stage.WaitStream?)
    && Tight(s.limits[l].streams)
    && NoDuplicates(s.global.queue)
    && (t in s.global.queue <==> s.tasks[t].stage.WaitGlobal?)
    && Tight(s.global)
  }

  lemma TasksAreLocal(s: State, t: TaskId)
    requires Inv(s) && t in s.tasks
    ensures Local(s, t)
    ensures HoldsHandle(s.tasks[t].stage) ==> s.limits[s.tasks[t].limit].handles > 0
  {
    var l := s.tasks[t].limit;
    assert LimitQueueOk(s, l);
    assert t in s.limits[l].streams.queue <==> WaitsOn(s, t, l);
    assert LimitConserved(s, l);
    if HoldsHandle(s.tasks[t].stage) {
      assert t in Owners(s.tasks, HandleOf(l));
    }
  }

  // ---- the actions ----

  lemma QuietMove(s: State, t: TaskId, action: Action)
    requires Local(s, t) && Enabled(s, Act(t, action))
    requires action.TryRequest? || action.DropHandle? || action.DropRequest?
    ensures IsMove(s, t, action)
  {
    var l := s.tasks[t].limit;
    var s' := ActStep(s, t, action);
    assert s'.limits == s.limits[l := s'.limits[l]];
  }

  /** The action is one balanced move, and leaves no waiter beside a free slot. */
  ghost predicate IsMove(s: State, t: TaskId, action: Action)
    requires Enabled(s, Act(t, action))
  {
    var s' := ActStep(s, t, action);
    var l := s.tasks[t].limit;
    && t in s'.tasks && l in s'.limits
    && var g, limit := s'.tasks[t].stage, s'.limits[l];
    && s' == Moved(s, t, g, limit, s'.global)
    && Balanced(s, t, g, limit, s'.global)
    && Tight(limit.streams) && Tight(s'.global)
  }

  lemma PollStreamMove(s: State, t: TaskId)
    requires Local(s, t) && Enabled(s, Act(t, PollStream))
    ensures IsMove(s, t, PollStream)
  {
    var l := s.tasks[t].limit;
    var s' := ActStep(s, t, PollStream);
    assert s'.limits == s.limits[l := s'.limits[l]];
  }

  lemma PollGlobalMove(s: State, t: TaskId)
    requires Local(s, t) && Enabled(s, Act(t, PollGlobal))
    ensures IsMove(s, t, PollGlobal)
  {
    var l := s.tasks[t].limit;
    var s' := ActStep(s, t, PollGlobal);
    assert s'.limits == s.limits[l := s'.limits[l]];
  }

  lemma CloseMove(s: State, t: TaskId)
    requires Local(s, t) && Enabled(s, Act(t, Close))
    ensures IsMove(s, t, Close)
  {
    var l := s.tasks[t].limit;
    var s' := ActStep(s, t, Close);
    WithoutKeeps(s.limits[l].streams.queue, t);
    WithoutKeeps(s.global.queue, t);
    assert s'.limits == s.limits[l := s'.limits[l]];
  }

  lemma PooledStreamMove(s: State, t: TaskId)
    requires Local(s, t) && Enabled(s, Act(t, DropStream)) && s.limits[s.tasks[t].limit].streams.queue == []
    ensures IsMove(s, t, DropStream)
  {
    var l := s.tasks[t].limit;
    var s' := ActStep(s, t, DropStream);
    assert s'.limits == s.limits[l := s'.limits[l]];
  }

  lemma PooledGlobalMove(s: State, t: TaskId)
    requires Local(s, t) && Enabled(s, Act(t, DropGlobal)) && s.global.queue == []
    ensures IsMove(s, t, DropGlobal)
  {
    var l := s.tasks[t].limit;
    var s' := ActStep(s, t, DropGlobal);
    assert s'.limits == s.limits[l := s'.limits[l]];
  }

  lemma TailAfter(q: seq<TaskId>)
    requires q != [] && NoDuplicates(q)
    ensures QueueAfter(q, q[1..], q[0], false)
  {
    assert forall u :: u in q <==> u == q[0] || u in q[1..];
  }

  lemma WaiterIsThere(s: State, l: LimitId)
    requires QueuesOk(s) && l in s.limits && s.limits[l].streams.queue != []
    ensures WaitsOn(s, s.limits[l].streams.queue[0], l)
  {
    assert LimitQueueOk(s, l);
    assert s.limits[l].streams.queue[0] in s.limits[l].streams.queue;
  }

  lemma GlobalQueueMember(s: State, t: TaskId)
    requires QueuesOk(s)
    ensures NoDuplicates(s.global.queue) && (t in s.global.queue <==> WaitsOnGlobal(s, t))
  {}

  lemma LimitQueueMember(s: State, t: TaskId)
    requires QueuesOk(s) && t in s.tasks && s.tasks[t].limit in s.limits
    ensures var q := s.limits[s.tasks[t].limit].streams.queue;
      NoDuplicates(q) && (t in q <==> s.tasks[t].stage.WaitStream?)
  {
    assert LimitQueueOk(s, s.tasks[t].limit);
    assert WaitsOn(s, t, s.tasks[t].limit) <==> s.tasks[t].stage.WaitStream?;
  }

  /** Whoever a released slot goes to is waiting. */
  ghost predicate HeadsWait(s: State, l: LimitId) {
    && l in s.limits
    && (var q := s.limits[l].streams.queue; q != [] ==> WaitsOn(s, q[0], l))
    && (s.global.queue != [] ==> WaitsOnGlobal(s, s.global.queue[0]))
  }

  lemma HeadsDoWait(s: State, l: LimitId)
    requires QueuesOk(s) && l in s.limits
    ensures HeadsWait(s, l)
  {
    if s.limits[l].streams.queue != [] {
      WaiterIsThere(s, l);
    }
    if s.global.queue != [] {
      GlobalQueueMember(s, s.global.queue[0]);
    }
  }

  function OneMoreStream(limit: ClientLimit): ClientLimit {
    limit.(streams := limit.streams.(available := limit.streams.available + 1))
  }

  /** The slot of a closing task comes back to the pool. */
  function StreamFreed(s: State, t: TaskId): State
    requires Enabled(s, Act(t, DropStream))
  {
    Moved(s, t, s.tasks[t].stage.(stream := false), OneMoreStream(s.limits[s.tasks[t].limit]), s.global)
  }

  function GlobalFreed(s: State, t: TaskId): State
    requires Enabled(s, Act(t, DropGlobal))
  {
    Moved(s, t, s.tasks[t].stage.(global := false), s.limits[s.tasks[t].limit],
          s.global.(available := s.global.available + 1))
  }

  /** The first waiter for a stream of its limit takes a free slot. */
  function StreamGiven(s: State, w: TaskId): State
    requires w in s.tasks && s.tasks[w].limit in s.limits
    requires var m := s.limits[s.tasks[w].limit].streams; m.queue != [] && m.available > 0
  {
    var limit := s.limits[s.tasks[w].limit];
    var m := limit.streams;
    Moved(s, w, HasStream, limit.(streams := Semaphore(m.available - 1, m.queue[1..])), s.global)
  }

  function GlobalGiven(s: State, w: TaskId): State
    requires w in s.tasks && s.tasks[w].limit in s.limits && s.global.queue != [] && s.global.available > 0
  {
    Moved(s, w, Complete, s.limits[s.tasks[w].limit], Semaphore(s.global.available - 1, s.global.queue[1..]))
  }

  lemma StreamFreedBalanced(s: State, t: TaskId)
    requires Local(s, t) && Enabled(s, Act(t, DropStream))
    ensures Balanced(s, t, s.tasks[t].stage.(stream := false), OneMoreStream(s.limits[s.tasks[t].limit]), s.global)
  {}

  lemma StreamFreedKeeps(s: State, t: TaskId)
    requires Loose(s) && Local(s, t) && Enabled(s, Act(t, DropStream))
    ensures Loose(StreamFreed(s, t))
  {
    StreamFreedBalanced(s, t);
    MovedKeeps(s, t, s.tasks[t].stage.(stream := false), OneMoreStream(s.limits[s.tasks[t].limit]), s.global);
  }

  lemma GlobalFreedBalanced(s: State, t: TaskId)
    requires Local(s, t) && Enabled(s, Act(t, DropGlobal))
    ensures Balanced(s, t, s.tasks[t].stage.(global := false), s.limits[s.tasks[t].limit],
                     s.global.(available := s.global.available + 1))
  {}

  lemma GlobalFreedKeeps(s: State, t: TaskId)
    requires Loose(s) && Local(s, t) && Enabled(s, Act(t, DropGlobal))
    ensures Loose(GlobalFreed(s, t))
  {
    GlobalFreedBalanced(s, t);
    MovedKeeps(s, t, s.tasks[t].stage.(global := false), s.limits[s.tasks[t].limit],
               s.global.(available := s.global.available + 1));
  }

  lemma StreamGivenBalanced(s: State, w: TaskId)
    requires w in s.tasks && s.tasks[w].limit in s.limits && s.tasks[w].stage.WaitStream?
    requires var m := s.limits[s.tasks[w].limit].streams;
      m.queue != [] && m.queue[0] == w && m.available > 0 && NoDuplicates(m.queue)
    requires NoDuplicates(s.global.queue) && w !in s.global.queue
    ensures var limit := s.limits[s.tasks[w].limit];
      Balanced(s, w, HasStream,
               limit.(streams := Semaphore(limit.streams.available - 1, limit.streams.queue[1..])), s.global)
  {
    TailAfter(s.limits[s.tasks[w].limit].streams.queue);
  }

  lemma StreamGivenKeeps(s: State, w: TaskId)
    requires Loose(s) && w in s.tasks
    requires var m := s.limits[s.tasks[w].limit].streams; m.queue != [] && m.queue[0] == w && m.available > 0
    ensures Loose(StreamGiven(s, w))
  {
    var limit := s.limits[s.tasks[w].limit];
    var m := limit.streams;
    LimitQueueMember(s, w);
    GlobalQueueMember(s, w);
    StreamGivenBalanced(s, w);
    MovedKeeps(s, w, HasStream, limit.(streams := Semaphore(m.available - 1, m.queue[1..])), s.global);
  }

  lemma GlobalGivenBalanced(s: State, w: TaskId)
    requires w in s.tasks && s.tasks[w].limit in s.limits && s.tasks[w].stage.WaitGlobal?
    requires s.global.queue != [] && s.global.queue[0] == w && s.global.available > 0 && NoDuplicates(s.global.queue)
    requires var q := s.limits[s.tasks[w].limit].streams.queue; NoDuplicates(q) && w !in q
    ensures Balanced(s, w, Complete, s.limits[s.tasks[w].limit], Semaphore(s.global.available - 1, s.global.queue[1..]))
  {
    TailAfter(s.global.queue);
  }

  lemma GlobalGivenKeeps(s: State, w: TaskId)
    requires Loose(s) && w in s.tasks && s.global.queue != [] && s.global.queue[0] == w && s.global.available > 0
    ensures Loose(GlobalGiven(s, w))
  {
    LimitQueueMember(s, w);
    GlobalQueueMember(s, w);
    GlobalGivenBalanced(s, w);
    MovedKeeps(s, w, Complete, s.limits[s.tasks[w].limit], Semaphore(s.global.available - 1, s.global.queue[1..]));
  }

  lemma StreamHandOffIsTwoMoves(s: State, t: TaskId, w: TaskId)
    requires Enabled(s, Act(t, DropStream)) && w in s.tasks && w != t && s.tasks[w].limit == s.tasks[t].limit
    requires var m := s.limits[s.tasks[t].limit].streams; m.queue != [] && m.queue[0] == w && m.available == 0
    ensures ActStep(s, t, DropStream) == StreamGiven(StreamFreed(s, t), w)
  {
    var a, b := ActStep(s, t, DropStream), StreamGiven(StreamFreed(s, t), w);
    assert a.limits == b.limits;
    assert a.tasks == b.tasks;
  }

  lemma GlobalHandOffIsTwoMoves(s: State, t: TaskId, w: TaskId)
    requires Enabled(s, Act(t, DropGlobal)) && w in s.tasks && w != t && s.tasks[w].limit in s.limits
    requires s.global.queue != [] && s.global.queue[0] == w && s.global.available == 0
    ensures ActStep(s, t, DropGlobal) == GlobalGiven(GlobalFreed(s, t), w)
  {
    var a, b := ActStep(s, t, DropGlobal), GlobalGiven(GlobalFreed(s, t), w);
    assert a.limits == b.limits;
    assert a.tasks == b.tasks;
  }

  /** A hand-off is two balanced moves: the slot comes back, then the first waiter takes it. */
  lemma StreamHandOff(s: State, t: TaskId)
    requires Inv(s) && Enabled(s, Act(t, DropStream)) && s.limits[s.tasks[t].limit].streams.queue != []
    ensures Loose(ActStep(s, t, DropStream))
  {
    var l := s.tasks[t].limit;
    var w := s.limits[l].streams.queue[0];
    WaiterIsThere(s, l);
    TasksAreLocal(s, t);
    StreamFreedKeeps(s, t);
    StreamGivenKeeps(StreamFreed(s, t), w);
    StreamHandOffIsTwoMoves(s, t, w);
  }

  lemma GlobalHandOff(s: State, t: TaskId)
    requires Inv(s) && Enabled(s, Act(t, DropGlobal)) && s.global.queue != []
    ensures Loose(ActStep(s, t, DropGlobal))
  {
    var w := s.global.queue[0];
    GlobalQueueMember(s, w);
    TasksAreLocal(s, t);
    GlobalFreedKeeps(s, t);
    GlobalGivenKeeps(GlobalFreed(s, t), w);
    GlobalHandOffIsTwoMoves(s, t, w);
  }

  lemma HandOffTight(s: State, t: TaskId, action: Action)
    requires AllTight(s) && Enabled(s, Act(t, action))
    requires (action.DropStream? && s.limits[s.tasks[t].limit].streams.queue != [])
          || (action.DropGlobal? && s.global.queue != [])
    ensures AllTight(ActStep(s, t, action))
  {}

  /** Every step of a task keeps the invariant. */
  lemma ActKeeps(s: State, t: TaskId, action: Action)
    requires Inv(s) && Enabled(s, Act(t, action))
    ensures Inv(ActStep(s, t, action))
  {
    var handsStream := action.DropStream? && s.limits[s.tasks[t].limit].streams.queue != [];
    var handsGlobal := action.DropGlobal? && s.global.queue != [];
    if handsStream {
      StreamHandOff(s, t);
      HandOffTight(s, t, action);
    } else if handsGlobal {
      GlobalHandOff(s, t);
      HandOffTight(s, t, action);
    } else {
      ActIsMove(s, t, action);
      var s' := ActStep(s, t, action);
      var g, limit := s'.tasks[t].stage, s'.limits[s.tasks[t].limit];
      MovedKeeps(s, t, g, limit, s'.global);
      MovedKeepsTight(s, t, g, limit, s'.global);
    }
  }

  lemma ActIsMove(s: State, t: TaskId, action: Action)
    requires Inv(s) && Enabled(s, Act(t, action))
    requires action.DropStream? ==> s.limits[s.tasks[t].limit].streams.queue == []
    requires action.DropGlobal? ==> s.global.queue == []
    ensures IsMove(s, t, action)
  {
    TasksAreLocal(s, t);
    match action
    case PollStream => PollStreamMove(s, t);
    case PollGlobal => PollGlobalMove(s, t);
    case Close => CloseMove(s, t);
    case DropStream => PooledStreamMove(s, t);
    case DropGlobal => PooledGlobalMove(s, t);
    case _ => QuietMove(s, t, action);
  }
}
