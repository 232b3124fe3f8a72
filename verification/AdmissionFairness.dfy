/** First come, first served: both kinds of queue hand their slots out in order, whatever else arrives meanwhile. */
module AdmissionFairness {
  import opened Common
  import opened Admission
  import opened AdmissionSafety
  import opened AdmissionRegistry

  // ---- the two kinds of queue ----

  function Line(s: State, slot: Slot): seq<TaskId> {
    match slot
    case StreamOf(l) => if l in s.limits then s.limits[l].streams.queue else []
    case GlobalSlot => s.global.queue
    case _ => []
  }

  ghost predicate Waits(s: State, t: TaskId, slot: Slot) {
    match slot
    case StreamOf(l) => WaitsOn(s, t, l)
    case GlobalSlot => WaitsOnGlobal(s, t)
    case _ => false
  }

  /** The event gives one slot of this kind back. */
  predicate Releases(s: State, e: Event, slot: Slot) {
    && e.Act? && e.task in s.tasks && Owns(s.tasks[e.task], slot)
    && ((slot.StreamOf? && e.action.DropStream?) || (slot.GlobalSlot? && e.action.DropGlobal?))
  }

  predicate Has(s: State, t: TaskId, slot: Slot) {
    t in s.tasks && Owns(s.tasks[t], slot)
  }

  /** `t` has its slot and has not begun to give it back. */
  ghost predicate Settled(s: State, t: TaskId, slot: Slot) {
    Has(s, t, slot) && !s.tasks[t].stage.Closing?
  }

  /** Those in line before `t`. */
  function Ahead(q: seq<TaskId>, t: TaskId): seq<TaskId> {
    if q == [] || q[0] == t then [] else [q[0]] + Ahead(q[1..], t)
  }

  lemma {:induction false} WithoutShorter(q: seq<TaskId>, u: TaskId)
    ensures |Without(q, u)| <= |q|
    ensures forall v :: v in Without(q, u) ==> v in q
  {
    if q == [] {
    } else {
      WithoutShorter(q[1..], u);
    }
  }

  lemma {:induction false} AheadOfWithout(q: seq<TaskId>, t: TaskId, u: TaskId)
    requires t in q && u != t
    ensures t in Without(q, u) && Ahead(Without(q, u), t) == Without(Ahead(q, t), u)
  {
    if q[0] == t {
      assert Without(q, u) == [t] + Without(q[1..], u);
    } else {
      AheadOfWithout(q[1..], t, u);
      assert Ahead(q, t)[1..] == Ahead(q[1..], t);
      if q[0] != u {
        assert Without(q, u)[1..] == Without(q[1..], u);
      }
    }
  }

  lemma {:induction false} AheadOfAppended(q: seq<TaskId>, t: TaskId, u: TaskId)
    requires t in q
    ensures Ahead(q + [u], t) == Ahead(q, t)
  {
    if q[0] == t {
    } else {
      AheadOfAppended(q[1..], t, u);
      assert (q + [u])[1..] == q[1..] + [u];
    }
  }

  // ---- one event ----

  /** How an event moves a queue: a release takes the first away, a closing waiter leaves, a new one joins at the end. */
  ghost predicate MovesUp(s: State, e: Event, q': seq<TaskId>, slot: Slot) {
    var q := Line(s, slot);
    if Releases(s, e, slot) && q != [] then q' == q[1..]
    else if e.Act? && e.action.Close? && e.task in q then q' == Without(q, e.task)
    else q' == q || (e.Act? && q' == q + [e.task])
  }

  predicate IsQueued(slot: Slot) {
    slot.StreamOf? || slot.GlobalSlot?
  }

  function Free(s: State, slot: Slot): nat {
    match slot
    case StreamOf(l) => if l in s.limits then s.limits[l].streams.available else 0
    case GlobalSlot => s.global.available
    case _ => 0
  }

  /** `t` is in line, the line holds exactly the waiters, and no slot is free beside it. */
  ghost predicate InLine(s: State, t: TaskId, slot: Slot) {
    && IsQueued(slot) && (slot.StreamOf? ==> slot.limit in s.limits)
    && t in Line(s, slot) && Free(s, slot) == 0
    && forall u :: u in Line(s, slot) <==> Waits(s, u, slot)
  }

  lemma StreamWaiterInLine(s: State, t: TaskId, l: LimitId)
    requires Inv(s) && WaitsOn(s, t, l)
    ensures InLine(s, t, StreamOf(l))
  {
    assert l in s.limits && LimitQueueOk(s, l) && Tight(s.limits[l].streams);
    assert t in s.limits[l].streams.queue;
  }

  lemma GlobalWaiterInLine(s: State, t: TaskId)
    requires GlobalQueueOk(s) && Tight(s.global) && WaitsOnGlobal(s, t)
    ensures InLine(s, t, GlobalSlot)
  {
    assert t in s.global.queue;
  }

  lemma WaitersAreInLine(s: State, t: TaskId, slot: Slot)
    requires Inv(s) && Waits(s, t, slot)
    ensures InLine(s, t, slot)
  {
    match slot
    case StreamOf(l) => StreamWaiterInLine(s, t, l);
    case GlobalSlot => GlobalWaiterInLine(s, t);
  }

  lemma LookupKeepsLine(s: State, e: Event, t: TaskId, slot: Slot)
    requires RegistryOk(s) && Enabled(s, e) && e.Lookup? && InLine(s, t, slot)
    ensures Line(Apply(s, e), slot) == Line(s, slot)
    ensures forall u :: Has(Apply(s, e), u, slot) ==> Has(s, u, slot)
  {
    if e.ip !in s.clients {
      LookupShape(s, e.task, e.ip, e.now, e.victim);
    }
  }

  lemma StreamLineMovesUp(s: State, e: Event, t: TaskId, l: LimitId)
    requires Enabled(s, e) && e.Act? && InLine(s, t, StreamOf(l)) && HeadsWait(s, s.tasks[e.task].limit)
    ensures MovesUp(s, e, Line(Apply(s, e), StreamOf(l)), StreamOf(l))
  {}

  lemma GlobalLineMovesUp(s: State, e: Event, t: TaskId)
    requires Enabled(s, e) && e.Act? && InLine(s, t, GlobalSlot) && HeadsWait(s, s.tasks[e.task].limit)
    ensures MovesUp(s, e, Line(Apply(s, e), GlobalSlot), GlobalSlot)
  {}

  lemma LineMovesUp(s: State, e: Event, t: TaskId, slot: Slot)
    requires Enabled(s, e) && e.Act? && InLine(s, t, slot) && HeadsWait(s, s.tasks[e.task].limit)
    ensures MovesUp(s, e, Line(Apply(s, e), slot), slot)
  {
    match slot
    case StreamOf(l) => StreamLineMovesUp(s, e, t, l);
    case GlobalSlot => GlobalLineMovesUp(s, e, t);
  }

  /** A release beside a queue hands its slot to the first in line. */
  lemma FirstIsServed(s: State, e: Event, t: TaskId, slot: Slot)
    requires Enabled(s, e) && InLine(s, t, slot) && Releases(s, e, slot) && HeadsWait(s, s.tasks[e.task].limit)
    ensures Settled(Apply(s, e), Line(s, slot)[0], slot)
  {}

  lemma ActorGetsNoStream(s: State, e: Event, t: TaskId, l: LimitId)
    requires Enabled(s, e) && e.Act? && InLine(s, t, StreamOf(l)) && HeadsWait(s, s.tasks[e.task].limit)
    ensures Has(Apply(s, e), e.task, StreamOf(l)) ==> Has(s, e.task, StreamOf(l))
  {}

  lemma OnlyFirstGetsStream(s: State, e: Event, t: TaskId, l: LimitId, u: TaskId)
    requires Enabled(s, e) && e.Act? && u != e.task && HeadsWait(s, s.tasks[e.task].limit)
    requires Has(Apply(s, e), u, StreamOf(l)) && !Has(s, u, StreamOf(l))
    ensures Releases(s, e, StreamOf(l)) && Line(s, StreamOf(l)) != [] && u == Line(s, StreamOf(l))[0]
  {}

  lemma OnlyFirstGetsGlobal(s: State, e: Event, t: TaskId, u: TaskId)
    requires Enabled(s, e) && e.Act? && InLine(s, t, GlobalSlot) && HeadsWait(s, s.tasks[e.task].limit)
    requires Has(Apply(s, e), u, GlobalSlot) && !Has(s, u, GlobalSlot)
    ensures Releases(s, e, GlobalSlot) && u == Line(s, GlobalSlot)[0]
  {}

  /** And nobody else gets one. */
  lemma NobodyElseIsServed(s: State, e: Event, t: TaskId, slot: Slot, u: TaskId)
    requires Enabled(s, e) && e.Act? && InLine(s, t, slot) && HeadsWait(s, s.tasks[e.task].limit)
    requires Has(Apply(s, e), u, slot) && !Has(s, u, slot)
    ensures Releases(s, e, slot) && u == Line(s, slot)[0]
  {
    match slot
    case StreamOf(l) =>
      ActorGetsNoStream(s, e, t, l);
      OnlyFirstGetsStream(s, e, t, l, u);
    case GlobalSlot => OnlyFirstGetsGlobal(s, e, t, u);
  }

  lemma LineHoldsWaiters(s: State, t: TaskId, slot: Slot)
    requires Inv(s) && t in Line(s, slot)
    ensures Waits(s, t, slot)
  {
    match slot
    case StreamOf(l) => assert LimitQueueOk(s, l);
    case GlobalSlot =>
  }

  function AsNat(b: bool): nat {
    if b then 1 else 0
  }

  lemma AheadMovesUp(s: State, e: Event, t: TaskId, q': seq<TaskId>, slot: Slot)
    requires t in Line(s, slot) && MovesUp(s, e, q', slot) && e != Act(t, Close)
    requires Releases(s, e, slot) ==> Line(s, slot)[0] != t
    ensures var before, after := Ahead(Line(s, slot), t), Ahead(q', t);
      && t in q'
      && |after| + AsNat(Releases(s, e, slot)) <= |before|
      && forall u :: u in after ==> u in before
  {
    var q := Line(s, slot);
    if Releases(s, e, slot) {
      assert Ahead(q, t) == [q[0]] + Ahead(q', t);
    } else if e.Act? && e.action.Close? && e.task in q {
      AheadOfWithout(q, t, e.task);
      WithoutShorter(Ahead(q, t), e.task);
    } else if q' != q {
      AheadOfAppended(q, t, e.task);
    }
  }

  /** One event: the first in line is served by a release, everybody else in line moves up by it and is never moved back. */
  lemma WaiterStep(s: State, e: Event, t: TaskId, slot: Slot)
    requires Inv(s) && Enabled(s, e) && Waits(s, t, slot) && e != Act(t, Close)
    ensures var s', q := Apply(s, e), Line(s, slot);
      if Releases(s, e, slot) && q != [] && q[0] == t then Settled(s', t, slot)
      else
        && Waits(s', t, slot)
        && |Ahead(Line(s', slot), t)| + AsNat(Releases(s, e, slot)) <= |Ahead(q, t)|
        && forall u :: u in Ahead(Line(s', slot), t) ==> u in Ahead(q, t)
  {
    WaitersAreInLine(s, t, slot);
    var s' := Apply(s, e);
    if e.Lookup? {
      LookupKeepsLine(s, e, t, slot);
    } else {
      HeadsDoWait(s, s.tasks[e.task].limit);
      LineMovesUp(s, e, t, slot);
    }
    if Releases(s, e, slot) && Line(s, slot)[0] == t {
      FirstIsServed(s, e, t, slot);
    } else {
      StepKeeps(s, e);
      AheadMovesUp(s, e, t, Line(s', slot), slot);
      LineHoldsWaiters(s', t, slot);
    }
  }

  /** Nobody who comes later, or stands behind, gets a slot while `t` waits for one. */
  lemma NobodyOvertakes(s: State, e: Event, t: TaskId, slot: Slot, u: TaskId)
    requires Inv(s) && Enabled(s, e) && Waits(s, t, slot)
    requires Has(Apply(s, e), u, slot) && !Has(s, u, slot)
    ensures u == t || u in Ahead(Line(s, slot), t)
  {
    WaitersAreInLine(s, t, slot);
    if e.Lookup? {
      LookupKeepsLine(s, e, t, slot);
    } else {
      HeadsDoWait(s, s.tasks[e.task].limit);
      NobodyElseIsServed(s, e, t, slot, u);
    }
  }

  // ---- whole runs ----

  function ReleaseCount(s: State, es: seq<Event>, slot: Slot): nat
    requires ValidRun(s, es)
    decreases |es|
  {
    if es == [] then 0 else AsNat(Releases(s, es[0], slot)) + ReleaseCount(Apply(s, es[0]), es[1..], slot)
  }

  lemma LookupStaysSettled(s: State, e: Event, t: TaskId, slot: Slot)
    requires Enabled(s, e) && e.Lookup? && Settled(s, t, slot)
    ensures Settled(Apply(s, e), t, slot)
  {}

  lemma ActStaysSettled(s: State, e: Event, t: TaskId, slot: Slot)
    requires Enabled(s, e) && e.Act? && HeadsWait(s, s.tasks[e.task].limit)
    requires IsQueued(slot) && Settled(s, t, slot) && e != Act(t, Close)
    ensures Settled(Apply(s, e), t, slot)
  {}

  lemma StaysSettled(s: State, e: Event, t: TaskId, slot: Slot)
    requires Inv(s) && Enabled(s, e) && IsQueued(slot) && Settled(s, t, slot) && e != Act(t, Close)
    ensures Settled(Apply(s, e), t, slot)
  {
    if e.Lookup? {
      LookupStaysSettled(s, e, t, slot);
    } else {
      HeadsDoWait(s, s.tasks[e.task].limit);
      ActStaysSettled(s, e, t, slot);
    }
  }

  lemma {:induction false} RunStaysSettled(s: State, es: seq<Event>, t: TaskId, slot: Slot)
    requires Inv(s) && ValidRun(s, es) && IsQueued(slot) && Settled(s, t, slot) && Act(t, Close) !in es
    ensures Settled(Run(s, es), t, slot)
    decreases |es|
  {
    if es == [] {
    } else {
      assert es[0] in es;
      StepKeeps(s, es[0]);
      StaysSettled(s, es[0], t, slot);
      RunStaysSettled(Apply(s, es[0]), es[1..], t, slot);
    }
  }

  /** What `t`, waiting in `s`, can say in `s'` after `n` releases. */
  ghost predicate InTurn(s: State, s': State, n: nat, t: TaskId, slot: Slot) {
    var ahead := Ahead(Line(s, slot), t);
    && (Settled(s', t, slot) || Waits(s', t, slot))
    && (n > |ahead| ==> Settled(s', t, slot))
    && (Waits(s', t, slot) ==> forall u :: Has(s', u, slot) ==> Has(s, u, slot) || u in ahead)
  }

  lemma StepBefore(s: State, e: Event, s': State, n: nat, t: TaskId, slot: Slot)
    requires Inv(s) && Enabled(s, e) && Waits(s, t, slot) && Waits(Apply(s, e), t, slot)
    requires InTurn(Apply(s, e), s', n, t, slot)
    requires var next := Apply(s, e);
      && |Ahead(Line(next, slot), t)| + AsNat(Releases(s, e, slot)) <= |Ahead(Line(s, slot), t)|
      && forall u :: u in Ahead(Line(next, slot), t) ==> u in Ahead(Line(s, slot), t)
    ensures InTurn(s, s', n + AsNat(Releases(s, e, slot)), t, slot)
  {
    var next := Apply(s, e);
    forall u | Has(next, u, slot) && !Has(s, u, slot) ensures u == t || u in Ahead(Line(s, slot), t) {
      NobodyOvertakes(s, e, t, slot, u);
    }
  }

  lemma SettledIsNotWaiting(s: State, t: TaskId, slot: Slot)
    requires Waits(s, t, slot)
    ensures !Has(s, t, slot) && IsQueued(slot)
  {}

  lemma {:induction false} ServedAfterThoseAhead(s: State, es: seq<Event>, t: TaskId, slot: Slot)
    requires Inv(s) && ValidRun(s, es) && Waits(s, t, slot) && Act(t, Close) !in es
    ensures InTurn(s, Run(s, es), ReleaseCount(s, es, slot), t, slot)
    decreases |es|
  {
    SettledIsNotWaiting(s, t, slot);
    if es == [] {
    } else {
      assert es[0] in es;
      var next := Apply(s, es[0]);
      WaiterStep(s, es[0], t, slot);
      StepKeeps(s, es[0]);
      if Waits(next, t, slot) {
        SettledIsNotWaiting(next, t, slot);
        ServedAfterThoseAhead(next, es[1..], t, slot);
        StepBefore(s, es[0], Run(s, es), ReleaseCount(next, es[1..], slot), t, slot);
      } else {
        RunStaysSettled(next, es[1..], t, slot);
        SettledStops(Run(s, es), t, slot);
      }
    }
  }

  lemma SettledStops(s: State, t: TaskId, slot: Slot)
    requires Settled(s, t, slot) && IsQueued(slot)
    ensures !Waits(s, t, slot)
  {}

  lemma {:induction false} AheadIsPrefix(q: seq<TaskId>, k: nat)
    requires NoDuplicates(q) && k < |q|
    ensures Ahead(q, q[k]) == q[..k]
  {
    if k == 0 {
    } else {
      assert q[0] != q[k];
      AheadIsPrefix(q[1..], k - 1);
      assert q[1..][k - 1] == q[k] && q[..k] == [q[0]] + q[1..][..k - 1];
    }
  }

  /** A call at position `k` of a queue has its slot after `k + 1` releases at the latest, whatever lookups, polls,
      timeouts and drops of others happen in between; and as long as it waits, every slot that was
      handed out went to somebody who stood before it. */
  lemma ServedInTurn(s: State, es: seq<Event>, k: nat, slot: Slot)
    requires Inv(s) && ValidRun(s, es) && k < |Line(s, slot)| && Act(Line(s, slot)[k], Close) !in es
    ensures var s', t := Run(s, es), Line(s, slot)[k];
      && (Settled(s', t, slot) || Waits(s', t, slot))
      && (ReleaseCount(s, es, slot) >= k + 1 ==> Settled(s', t, slot))
      && (Waits(s', t, slot) ==> forall u :: Has(s', u, slot) ==> Has(s, u, slot) || u in Line(s, slot)[..k])
  {
    var t := Line(s, slot)[k];
    LineHoldsWaiters(s, t, slot);
    LineHasNoDuplicates(s, t, slot);
    AheadIsPrefix(Line(s, slot), k);
    ServedAfterThoseAhead(s, es, t, slot);
  }

  lemma LineHasNoDuplicates(s: State, t: TaskId, slot: Slot)
    requires Inv(s) && t in Line(s, slot)
    ensures NoDuplicates(Line(s, slot))
  {
    match slot
    case StreamOf(l) => assert LimitQueueOk(s, l);
    case GlobalSlot =>
  }
}
