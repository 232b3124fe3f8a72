/** Stream admission as a step system (`src/admission.rs`).

    Every atomic section of the source is one event: the locked registry lookup,
    `try_acquire_owned` on the request slots, the two semaphore polls, the moment
    a future or a finished permit starts to be dropped, and the release of each
    single thing it holds. Events of different tasks interleave freely. */
module Admission {
  import opened Common

  const CLIENT_CAPACITY: nat := 1024
  const CLIENT_IDLE: nat := 300 * SECOND
  const GLOBAL_SLOTS: nat := 16
  const STREAM_SLOTS: nat := 4
  const REQUEST_SLOTS: nat := 16

  /** One `acquire` call, together with the permit it may produce. */
  type TaskId = nat

  /** Names one allocation of a `ClientLimit`; the serial tells apart two allocations for one address. */
  datatype LimitId = LimitId(ip: IpAddr, serial: nat)

  /** A fair semaphore: a released slot goes straight to the first waiter. */
  datatype Semaphore = Semaphore(available: nat, queue: seq<TaskId>)

  /** `handles` counts the clones of the `Arc` outside the registry, so a registered
      limit has strong count `1 + handles`. */
  datatype ClientLimit = ClientLimit(streams: Semaphore, requests: nat, handles: nat)

  datatype Entry = Entry(limit: LimitId, accessed: Instant)

  /** How far an `acquire` call has come. `HasStream` and `Complete` also cover a waiter
      that was handed its slot and has not been polled yet. `Closing` says what is still to be released. */
  datatype Stage =
    | Fresh
    | Ready
    | WaitStream
    | HasStream
    | WaitGlobal
    | Complete
    | Closing(handle: bool, request: bool, stream: bool, global: bool)

  datatype Task = Task(limit: LimitId, stage: Stage)

  datatype State = State(
    global: Semaphore,
    clients: map<IpAddr, Entry>,
    limits: map<LimitId, ClientLimit>,
    tasks: map<TaskId, Task>,
    serial: nat)

  /** Everything a task can own. */
  datatype Slot = HandleOf(limit: LimitId) | RequestOf(limit: LimitId) | StreamOf(limit: LimitId) | GlobalSlot

  predicate HoldsHandle(g: Stage) {
    if g.Closing? then g.handle else true
  }

  predicate HoldsRequest(g: Stage) {
    if g.Closing? then g.request else !g.Fresh?
  }

  predicate HoldsStream(g: Stage) {
    if g.Closing? then g.stream else g.HasStream? || g.WaitGlobal? || g.Complete?
  }

  predicate HoldsGlobal(g: Stage) {
    if g.Closing? then g.global else g.Complete?
  }

  predicate Owns(task: Task, slot: Slot) {
    match slot
    case HandleOf(l) => task.limit == l && HoldsHandle(task.stage)
    case RequestOf(l) => task.limit == l && HoldsRequest(task.stage)
    case StreamOf(l) => task.limit == l && HoldsStream(task.stage)
    case GlobalSlot => HoldsGlobal(task.stage)
  }

  /** What a task does next on its own account. */
  datatype Action = TryRequest | PollStream | PollGlobal | Close | DropHandle | DropRequest | DropStream | DropGlobal

  datatype Event =
    | Lookup(task: TaskId, ip: IpAddr, now: Instant, victim: IpAddr)
    | Act(task: TaskId, action: Action)

  const INITIAL: State := State(Semaphore(GLOBAL_SLOTS, []), map[], map[], map[], 0)

  // ---- the registry ----

  /** Every registered limit exists. */
  predicate Linked(s: State) {
    forall ip :: ip in s.clients ==> s.clients[ip].limit in s.limits
  }

  /** `Arc::strong_count(&entry.limit) == 1`. */
  predicate Unreferenced(s: State, ip: IpAddr)
    requires Linked(s) && ip in s.clients
  {
    s.limits[s.clients[ip].limit].handles == 0
  }

  predicate Keeps(s: State, ip: IpAddr, now: Instant)
    requires Linked(s) && ip in s.clients
  {
    !Unreferenced(s, ip) || Since(now, s.clients[ip].accessed) < CLIENT_IDLE
  }

  /** The registry after the idle sweep. */
  function Retained(s: State, now: Instant): map<IpAddr, Entry>
    requires Linked(s)
  {
    map ip | ip in s.clients && Keeps(s, ip, now) :: s.clients[ip]
  }

  /** The addresses the eviction may choose from when the sweep left the registry full. */
  function Evictable(s: State, now: Instant): set<IpAddr>
    requires Linked(s)
  {
    set ip | ip in Retained(s, now) && Unreferenced(s, ip)
  }

  ghost predicate IsOldest(s: State, now: Instant, victim: IpAddr)
    requires Linked(s)
  {
    && victim in Evictable(s, now)
    && forall ip :: ip in Evictable(s, now) ==> s.clients[victim].accessed <= s.clients[ip].accessed
  }

  function Join(s: State, task: TaskId, ip: IpAddr, now: Instant): State
    requires Linked(s) && ip in s.clients
  {
    var l := s.clients[ip].limit;
    s.(clients := s.clients[ip := Entry(l, now)],
       limits := s.limits[l := s.limits[l].(handles := s.limits[l].handles + 1)],
       tasks := s.tasks[task := Task(l, Fresh)])
  }

  function Insert(s: State, kept: map<IpAddr, Entry>, task: TaskId, ip: IpAddr, now: Instant): State {
    var l := LimitId(ip, s.serial);
    s.(clients := kept[ip := Entry(l, now)],
       limits := s.limits[l := ClientLimit(Semaphore(STREAM_SLOTS, []), REQUEST_SLOTS, 1)],
       tasks := s.tasks[task := Task(l, Fresh)],
       serial := s.serial + 1)
  }

  /** `StreamAdmission::client`. A refused lookup leaves the state as it was: with a full
      registry of referenced entries the sweep removes nothing either. */
  function LookupStep(s: State, task: TaskId, ip: IpAddr, now: Instant, victim: IpAddr): State
    requires Linked(s)
  {
    if ip in s.clients then Join(s, task, ip, now)
    else
      var kept := Retained(s, now);
      if |kept| < CLIENT_CAPACITY then Insert(s, kept, task, ip, now)
      else if Evictable(s, now) != {} then Insert(s, kept - {victim}, task, ip, now)
      else s.(clients := kept)
  }

  // ---- semaphores and stages ----

  function SetStage(s: State, t: TaskId, stage: Stage): State
    requires t in s.tasks
  {
    s.(tasks := s.tasks[t := s.tasks[t].(stage := stage)])
  }

  function SetLimit(s: State, l: LimitId, limit: ClientLimit): State {
    s.(limits := s.limits[l := limit])
  }

  function SetStreams(s: State, l: LimitId, streams: Semaphore): State
    requires l in s.limits
  {
    SetLimit(s, l, s.limits[l].(streams := streams))
  }

  function Without(q: seq<TaskId>, t: TaskId): seq<TaskId> {
    if q == [] then [] else if q[0] == t then Without(q[1..], t) else [q[0]] + Without(q[1..], t)
  }

  /** Returns one stream slot of `l`: to its first waiter, or to the pool. */
  function ReleaseStream(s: State, l: LimitId): State
    requires l in s.limits
  {
    var m := s.limits[l].streams;
    if m.queue == [] then SetStreams(s, l, m.(available := m.available + 1))
    else if m.queue[0] in s.tasks then
      SetStage(SetStreams(s, l, m.(queue := m.queue[1..])), m.queue[0], HasStream)
    else s
  }

  function ReleaseGlobal(s: State): State {
    var m := s.global;
    if m.queue == [] then s.(global := m.(available := m.available + 1))
    else if m.queue[0] in s.tasks then
      SetStage(s.(global := m.(queue := m.queue[1..])), m.queue[0], Complete)
    else s
  }

  /** What is left to release when a task in stage `g` is dropped. */
  function Leftovers(g: Stage): Stage {
    Closing(HoldsHandle(g), HoldsRequest(g), HoldsStream(g), HoldsGlobal(g))
  }

  // ---- the step relation ----

  predicate Allows(g: Stage, action: Action) {
    match action
    case TryRequest => g.Fresh?
    case PollStream => g.Ready?
    case PollGlobal => g.HasStream?
    case Close => !g.Closing?
    case DropHandle => g.Closing? && g.handle
    case DropRequest => g.Closing? && g.request
    case DropStream => g.Closing? && g.stream
    case DropGlobal => g.Closing? && g.global
  }

  /** A lookup that has to evict takes a least recently accessed unreferenced entry; which of
      several equally old ones depends on the hash map's iteration order. */
  ghost predicate Enabled(s: State, e: Event) {
    match e
    case Lookup(t, ip, now, victim) =>
      && t !in s.tasks
      && Linked(s)
      && (ip !in s.clients && |Retained(s, now)| >= CLIENT_CAPACITY && Evictable(s, now) != {} ==> IsOldest(s, now, victim))
    case Act(t, action) =>
      && t in s.tasks
      && s.tasks[t].limit in s.limits
      && Allows(s.tasks[t].stage, action)
      && (action.DropHandle? ==> s.limits[s.tasks[t].limit].handles > 0)
  }

  /** Taking a waiter out of the queue it waits in, when its future is dropped. */
  function Dequeue(s: State, t: TaskId, task: Task): State
    requires task.limit in s.limits
  {
    var streams := s.limits[task.limit].streams;
    if task.stage.WaitStream? then SetStreams(s, task.limit, streams.(queue := Without(streams.queue, t)))
    else if task.stage.WaitGlobal? then s.(global := s.global.(queue := Without(s.global.queue, t)))
    else s
  }

  function ActStep(s: State, t: TaskId, action: Action): State
    requires Enabled(s, Act(t, action))
  {
    var g := s.tasks[t].stage;
    var l := s.tasks[t].limit;
    var limit := s.limits[l];
    match action
    case TryRequest =>
      if limit.requests > 0 then SetStage(SetLimit(s, l, limit.(requests := limit.requests - 1)), t, Ready)
      else SetStage(s, t, Leftovers(g))
    case PollStream =>
      var m := limit.streams;
      if m.available > 0 then SetStage(SetStreams(s, l, m.(available := m.available - 1)), t, HasStream)
      else SetStage(SetStreams(s, l, m.(queue := m.queue + [t])), t, WaitStream)
    case PollGlobal =>
      var m := s.global;
      if m.available > 0 then SetStage(s.(global := m.(available := m.available - 1)), t, Complete)
      else SetStage(s.(global := m.(queue := m.queue + [t])), t, WaitGlobal)
    case Close => SetStage(Dequeue(s, t, s.tasks[t]), t, Leftovers(g))
    case DropHandle =>
      SetStage(SetLimit(s, l, limit.(handles := limit.handles - 1)), t, g.(handle := false))
    case DropRequest =>
      SetStage(SetLimit(s, l, limit.(requests := limit.requests + 1)), t, g.(request := false))
    case DropStream => ReleaseStream(SetStage(s, t, g.(stream := false)), l)
    case DropGlobal => ReleaseGlobal(SetStage(s, t, g.(global := false)))
  }

  function Apply(s: State, e: Event): State
    requires Enabled(s, e)
  {
    match e
    case Lookup(t, ip, now, victim) => LookupStep(s, t, ip, now, victim)
    case Act(t, action) => ActStep(s, t, action)
  }

  ghost predicate ValidRun(s: State, es: seq<Event>)
    decreases |es|
  {
    es == [] || (Enabled(s, es[0]) && ValidRun(Apply(s, es[0]), es[1..]))
  }

  function Run(s: State, es: seq<Event>): State
    requires ValidRun(s, es)
    decreases |es|
  {
    if es == [] then s else Run(Apply(s, es[0]), es[1..])
  }
}
