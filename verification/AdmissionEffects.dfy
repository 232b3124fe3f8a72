/** What each step takes and gives back, said slot by slot: a step of a call touches one slot of its own at most,
    a cancelled call takes nothing on its way out, and others notice only a slot handed to the first in line. */
module AdmissionEffects {
  import opened Common
  import opened Admission
  import opened AdmissionSafety
  import opened AdmissionRegistry

  predicate Takes(action: Action, l: LimitId, slot: Slot) {
    || (action.TryRequest? && slot == RequestOf(l))
    || (action.PollStream? && slot == StreamOf(l))
    || (action.PollGlobal? && slot == GlobalSlot)
  }

  predicate Gives(action: Action, l: LimitId, slot: Slot) {
    || (action.DropHandle? && slot == HandleOf(l))
    || (action.DropRequest? && slot == RequestOf(l))
    || (action.DropStream? && slot == StreamOf(l))
    || (action.DropGlobal? && slot == GlobalSlot)
  }

  function Limit(slot: Slot): nat {
    if slot.StreamOf? then 4 else 16
  }

  predicate Asks(action: Action) {
    action.TryRequest? || action.PollStream? || action.PollGlobal?
  }

  lemma SlotsAfterAsking(s: State, t: TaskId, action: Action, slot: Slot)
    requires Enabled(s, Act(t, action)) && Local(s, t) && HeadsWait(s, s.tasks[t].limit)
    requires GlobalConserved(s) && LimitConserved(s, s.tasks[t].limit)
    requires Asks(action)
    ensures var s', l, before := ActStep(s, t, action), s.tasks[t].limit, s.tasks[t];
      && t in s'.tasks && s'.tasks[t].limit == l
      && (Owns(s'.tasks[t], slot) <==>
            if Takes(action, l, slot) then Count(s.tasks, slot) < Limit(slot)
            else Owns(before, slot) && !Gives(action, l, slot))
  {}

  lemma SlotsAfterLeaving(s: State, t: TaskId, action: Action, slot: Slot)
    requires Enabled(s, Act(t, action)) && Local(s, t) && HeadsWait(s, s.tasks[t].limit)
    requires GlobalConserved(s) && LimitConserved(s, s.tasks[t].limit)
    requires !Asks(action)
    ensures var s', l, before := ActStep(s, t, action), s.tasks[t].limit, s.tasks[t];
      && t in s'.tasks && s'.tasks[t].limit == l
      && (Owns(s'.tasks[t], slot) <==>
            if Takes(action, l, slot) then Count(s.tasks, slot) < Limit(slot)
            else Owns(before, slot) && !Gives(action, l, slot))
  {}

  /** A call takes a slot exactly where it asks for one and one is left, gives one back exactly where it drops one,
      and keeps every other. */
  lemma OwnSlots(s: State, t: TaskId, action: Action, slot: Slot)
    requires Enabled(s, Act(t, action)) && Local(s, t) && HeadsWait(s, s.tasks[t].limit)
    requires GlobalConserved(s) && LimitConserved(s, s.tasks[t].limit)
    ensures var s', l, before := ActStep(s, t, action), s.tasks[t].limit, s.tasks[t];
      && t in s'.tasks && s'.tasks[t].limit == l
      && (Owns(s'.tasks[t], slot) <==>
            if Takes(action, l, slot) then Count(s.tasks, slot) < Limit(slot)
            else Owns(before, slot) && !Gives(action, l, slot))
  {
    if Asks(action) {
      SlotsAfterAsking(s, t, action, slot);
    } else {
      SlotsAfterLeaving(s, t, action, slot);
    }
  }

  /** It unwinds exactly after a close or a refused request. */
  lemma Unwinds(s: State, t: TaskId, action: Action)
    requires Enabled(s, Act(t, action)) && Local(s, t) && HeadsWait(s, s.tasks[t].limit)
    requires LimitConserved(s, s.tasks[t].limit)
    ensures var s', l := ActStep(s, t, action), s.tasks[t].limit;
      && t in s'.tasks
      && (s'.tasks[t].stage.Closing? <==>
            s.tasks[t].stage.Closing? || action.Close? || (action.TryRequest? && Count(s.tasks, RequestOf(l)) >= 16))
  {}

  /** Another call changes only when it is first in line for the slot that is dropped: then it has that slot. */
  lemma OtherCalls(s: State, t: TaskId, action: Action, u: TaskId)
    requires Enabled(s, Act(t, action)) && HeadsWait(s, s.tasks[t].limit) && u in s.tasks && u != t
    ensures var s', l := ActStep(s, t, action), s.tasks[t].limit;
      && u in s'.tasks
      && s'.tasks[u] ==
           if action.DropStream? && s.limits[l].streams.queue != [] && s.limits[l].streams.queue[0] == u
           then Task(l, HasStream)
           else if action.DropGlobal? && s.global.queue != [] && s.global.queue[0] == u
           then Task(s.tasks[u].limit, Complete)
           else s.tasks[u]
  {}

  lemma KeepsCalls(s: State, t: TaskId, action: Action)
    requires Enabled(s, Act(t, action))
    ensures ActStep(s, t, action).tasks.Keys == s.tasks.Keys
  {}

  /** No step of a call touches the registry or another limit. */
  lemma OtherLimits(s: State, t: TaskId, action: Action)
    requires Enabled(s, Act(t, action))
    ensures var s', l := ActStep(s, t, action), s.tasks[t].limit;
      && s'.clients == s.clients && s'.serial == s.serial && s'.limits.Keys == s.limits.Keys
      && forall k :: k in s.limits && k != l ==> s'.limits[k] == s.limits[k]
  {}

  /** `t` holds in `s'` what it held in `s`, is on its way out and waits for nothing; nothing else is different. */
  ghost predicate OnlyLeft(s: State, s': State, t: TaskId) {
    && s'.tasks.Keys == s.tasks.Keys && t in s.tasks
    && s'.tasks[t].limit == s.tasks[t].limit && s'.tasks[t].stage.Closing?
    && (forall slot :: Owns(s'.tasks[t], slot) <==> Owns(s.tasks[t], slot))
    && (forall u :: u in s.tasks && u != t ==> s'.tasks[u] == s.tasks[u])
    && s'.clients == s.clients && s'.serial == s.serial
    && s'.global.available == s.global.available && LeftQueue(s.global.queue, s'.global.queue, t)
    && s'.limits.Keys == s.limits.Keys
    && forall l :: l in s.limits ==> OnlyLeftLimit(s.limits[l], s'.limits[l], t)
  }

  ghost predicate LeftQueue(q: seq<TaskId>, q': seq<TaskId>, t: TaskId) {
    t !in q' && q' == Without(q, t)
  }

  ghost predicate OnlyLeftLimit(a: ClientLimit, b: ClientLimit, t: TaskId) {
    && b.streams.available == a.streams.available && b.requests == a.requests && b.handles == a.handles
    && LeftQueue(a.streams.queue, b.streams.queue, t)
  }

  lemma {:induction false} WithoutStranger(q: seq<TaskId>, t: TaskId)
    requires t !in q
    ensures Without(q, t) == q
  {
    if q == [] {
    } else {
      WithoutStranger(q[1..], t);
    }
  }

  lemma Leaves(q: seq<TaskId>, q': seq<TaskId>, t: TaskId)
    requires q' == (if t in q then Without(q, t) else q)
    ensures LeftQueue(q, q', t)
  {
    WithoutKeeps(q, t);
    if t !in q {
      WithoutStranger(q, t);
    }
  }

  lemma LimitAfterClose(s: State, t: TaskId, l: LimitId)
    requires Enabled(s, Act(t, Close)) && l in s.limits
    requires t in s.limits[l].streams.queue <==> WaitsOn(s, t, l)
    ensures var q, s' := s.limits[l].streams.queue, ActStep(s, t, Close);
      l in s'.limits && s'.limits[l] ==
        if t in q then s.limits[l].(streams := s.limits[l].streams.(queue := Without(q, t))) else s.limits[l]
  {}

  lemma LeavesLimit(s: State, t: TaskId, l: LimitId)
    requires QueuesOk(s) && Enabled(s, Act(t, Close)) && l in s.limits
    ensures l in ActStep(s, t, Close).limits
    ensures OnlyLeftLimit(s.limits[l], ActStep(s, t, Close).limits[l], t)
  {
    assert LimitQueueOk(s, l);
    LimitAfterClose(s, t, l);
    Leaves(s.limits[l].streams.queue, ActStep(s, t, Close).limits[l].streams.queue, t);
  }

  lemma GlobalAfterClose(s: State, t: TaskId)
    requires Enabled(s, Act(t, Close)) && (t in s.global.queue <==> WaitsOnGlobal(s, t))
    ensures var q := s.global.queue; ActStep(s, t, Close).global.queue == if t in q then Without(q, t) else q
  {}

  lemma LeavesGlobal(s: State, t: TaskId)
    requires QueuesOk(s) && Enabled(s, Act(t, Close))
    ensures LeftQueue(s.global.queue, ActStep(s, t, Close).global.queue, t)
  {
    GlobalQueueMember(s, t);
    GlobalAfterClose(s, t);
    Leaves(s.global.queue, ActStep(s, t, Close).global.queue, t);
  }

  lemma ClosesOwn(s: State, t: TaskId)
    requires Enabled(s, Act(t, Close))
    ensures var s' := ActStep(s, t, Close);
      && s'.tasks.Keys == s.tasks.Keys
      && s'.tasks[t].limit == s.tasks[t].limit && s'.tasks[t].stage.Closing?
      && (forall slot :: Owns(s'.tasks[t], slot) <==> Owns(s.tasks[t], slot))
      && (forall u :: u in s.tasks && u != t ==> s'.tasks[u] == s.tasks[u])
      && s'.clients == s.clients && s'.serial == s.serial && s'.limits.Keys == s.limits.Keys
      && s'.global.available == s.global.available
  {}

  /** A call can be closed at any stage, by a timeout or a cancellation; closing takes nothing, gives nothing back
      yet, and only takes the call out of its queue. Each thing it held can then be released, in any order. */
  lemma CloseTakesNothing(s: State, t: TaskId)
    requires Inv(s) && t in s.tasks && !s.tasks[t].stage.Closing?
    ensures Enabled(s, Act(t, Close)) && OnlyLeft(s, ActStep(s, t, Close), t)
  {
    TasksAreLocal(s, t);
    ClosesOwn(s, t);
    LeavesGlobal(s, t);
    forall l | l in s.limits ensures OnlyLeftLimit(s.limits[l], ActStep(s, t, Close).limits[l], t) {
      LeavesLimit(s, t, l);
    }
  }

  lemma DropsAreEnabled(s: State, t: TaskId, action: Action, slot: Slot)
    requires Inv(s) && t in s.tasks && s.tasks[t].stage.Closing? && Owns(s.tasks[t], slot)
    requires Gives(action, s.tasks[t].limit, slot)
    ensures Enabled(s, Act(t, action))
  {
    TasksAreLocal(s, t);
  }

  /** The effects of a step in any reachable state. */
  lemma StepEffects(s: State, t: TaskId, action: Action, slot: Slot, u: TaskId)
    requires Inv(s) && Enabled(s, Act(t, action))
    ensures var s', l := ActStep(s, t, action), s.tasks[t].limit;
      && s'.tasks.Keys == s.tasks.Keys
      && (Owns(s'.tasks[t], slot) <==>
            if Takes(action, l, slot) then Count(s.tasks, slot) < Limit(slot)
            else Owns(s.tasks[t], slot) && !Gives(action, l, slot))
      && (u in s.tasks && u != t && s'.tasks[u] != s.tasks[u] ==>
            || (action.DropStream? && s.tasks[u] == Task(l, WaitStream) && s'.tasks[u] == Task(l, HasStream))
            || (action.DropGlobal? && s.tasks[u].stage.WaitGlobal? && s'.tasks[u] == s.tasks[u].(stage := Complete)))
  {
    TasksAreLocal(s, t);
    HeadsDoWait(s, s.tasks[t].limit);
    OwnSlots(s, t, action, slot);
    KeepsCalls(s, t, action);
    if u in s.tasks && u != t {
      OtherCalls(s, t, action, u);
    }
  }
}
