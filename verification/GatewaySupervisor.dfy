/** The supervisor object: `reconfigure` written out as the source writes it, with other tasks running
    at every await point. */
module GatewaySupervisorObject {
  import opened Common
  import opened Supervisor
  import Sessions
  import SessionHistory

  // ---- what the rest of the program can do at an await point ----

  predicate Outside(e: Event) {
    e.Finish? || e.Cancelled? || e.Request?
  }

  ghost predicate OutsideRun(s: State, es: seq<Event>) {
    ValidRun(s, es) && forall e :: e in es ==> Outside(e)
  }

  /** Nothing outside moves the call itself, and without an unfinished task nothing outside writes a status. */
  lemma {:induction false} OutsideKeeps(s: State, es: seq<Event>)
    requires Inv(s) && OutsideRun(s, es)
    ensures var s' := Run(s, es);
      && Inv(s')
      && s'.phase == s.phase && s'.settings == s.settings && s'.round == s.round
      && s'.running == s.running && s'.author == s.author
      && (forall t: nat :: IsServing(s', t) ==> IsServing(s, t))
      && ((forall t: nat :: !IsServing(s, t)) ==> s'.status == s.status && s'.published == s.published)
    decreases |es|
  {
    if es == [] {
    } else {
      assert es[0] in es;
      StepKeeps(s, es[0]);
      var next := Apply(s, es[0]);
      forall t: nat | IsServing(next, t) ensures IsServing(s, t) {}
      OutsideKeeps(next, es[1..]);
    }
  }

  lemma OutsideDooms(s: State, es: seq<Event>, r: nat)
    requires OutsideRun(s, es)
    ensures forall t :: Doomed(s, r, t) ==> Doomed(Run(s, es), r, t)
  {
    forall t | Doomed(s, r, t) ensures Doomed(Run(s, es), r, t) {
      RunStaysDoomed(s, es, r, t);
    }
  }

  class GatewaySupervisor {
    var settings: Settings
    var running: Option<nat>
    var status: Status
    var published: Status
    /** The lock's holder, the spawned tasks and the sessions, which the other tasks share. */
    ghost var phase: Phase
    var round: nat
    ghost var author: nat
    var tasks: map<nat, Task>
    ghost var sessions: SessionHistory.World

    ghost function View(): State
      reads this
    {
      State(phase, settings, round, running, tasks, status, published, author, sessions)
    }

    ghost predicate Valid()
      reads this
    {
      Inv(View())
    }

    ghost predicate AllDoomed(ts: set<Sessions.Token>, r: nat)
      reads this
    {
      forall t :: t in ts ==> Doomed(View(), r, t)
    }

    /** An await point: any number of outside steps. A caller learns no more than this contract. */
    method Await()
      requires Valid()
      modifies this
      ensures exists es :: OutsideRun(old(View()), es) && View() == Run(old(View()), es)
      ensures Valid()
    {
      assert OutsideRun(View(), []) && View() == Run(View(), []);
    }

    method AwaitDoomed(ghost ts: set<Sessions.Token>)
      requires Valid() && AllDoomed(ts, round)
      modifies this
      ensures Valid() && AllDoomed(ts, round)
      ensures phase == old(phase) && settings == old(settings) && round == old(round)
      ensures running == old(running) && author == old(author)
      ensures forall t: nat :: IsServing(View(), t) ==> IsServing(old(View()), t)
      ensures (forall t: nat :: !IsServing(old(View()), t)) ==> status == old(status) && published == old(published)
    {
      ghost var s := View();
      Await();
      ghost var es :| OutsideRun(s, es) && View() == Run(s, es);
      OutsideKeeps(s, es);
      OutsideDooms(s, es, s.round);
    }

    /** Waits for the old task to end, if need be by aborting it: it then either has made its final
        write already or is cancelled without one. */
    method AwaitEnd(task: nat, ghost ts: set<Sessions.Token>)
      requires Valid() && phase == Stopping(task) && AllDoomed(ts, round)
      modifies this
      ensures Valid() && (phase == Stopping(task) || phase == Aborting(task)) && !IsServing(View(), task)
      ensures settings == old(settings) && round == old(round) && AllDoomed(ts, round)
    {
      AwaitDoomed(ts);
      if task in tasks && tasks[task].Serving? {
        StepKeeps(View(), GiveUp);
        phase := Aborting(task);
        AwaitDoomed(ts);
        if task in tasks && tasks[task].Serving? {
          StepKeeps(View(), Cancelled(task));
          tasks := tasks[task := Ended];
        }
      }
    }

    /** Takes the installed task out, signals it, and waits; after five seconds it is aborted and awaited. */
    method StopOld(newSettings: Settings)
      requires Valid() && phase.Idle?
      modifies this
      ensures Valid() && phase.Clearing? && settings == newSettings && round == old(round) + 1
      ensures AllDoomed(Sessions.DrawnTokens(old(sessions).log), round)
    {
      ghost var ts := Sessions.DrawnTokens(sessions.log);
      var stopped := running;
      StepKeeps(View(), Begin(newSettings));
      phase := if running.Some? then Stopping(running.value) else Clearing;
      settings, round, running := newSettings, round + 1, None;
      if stopped.Some? {
        var task := stopped.value;
        AwaitEnd(task, ts);
        StepKeeps(View(), SeeEnd);
        phase := Clearing;
      }
    }

    method ClearSessions(ghost ts: set<Sessions.Token>)
      requires Valid() && phase.Clearing? && AllDoomed(ts, round)
      modifies this
      ensures Valid() && phase.Deciding? && settings == old(settings) && round == old(round)
      ensures AllDoomed(ts, round)
    {
      ghost var s := View();
      StepKeeps(s, Clear);
      forall t | t in ts ensures Doomed(Apply(s, Clear), round, t) {
        StaysDoomed(s, Clear, round, t);
      }
      sessions, phase := SessionHistory.Next(sessions, Sessions.RevokeAll, 0), Deciding;
    }

    /** Stores a status and publishes it, with an await between the two. */
    method Announce(next: Status, spawns: bool, ghost e: Event, ghost ts: set<Sessions.Token>)
      requires Valid() && phase.Deciding? && AllDoomed(ts, round)
      requires e.WriteDisabled? || e.BindFails? || e.BindSucceeds?
      requires Enabled(View(), e) && Apply(View(), e) == Write(View(), next, spawns)
      modifies this
      ensures Valid() && phase == (if spawns then Spawning else Idle)
      ensures settings == old(settings) && round == old(round) && status == next && published == next
      ensures AllDoomed(ts, round) && running == old(running)
    {
      StepKeeps(View(), e);
      status, author, phase := next, round, Publishing(spawns);
      AwaitDoomed(ts);
      StepKeeps(View(), Publish);
      published, phase := status, if spawns then Spawning else Idle;
    }

    /** `reconfigure`, for settings that validate. `bindError` and `addresses` are what binding the port and
        listing the interfaces return. */
    method Reconfigure(newSettings: Settings, bindError: Option<string>, addresses: seq<string>)
      returns (result: Option<Status>)
      requires Valid() && phase.Idle?
      modifies this
      ensures Valid() && phase.Idle? && settings == newSettings && round == old(round) + 1
      ensures status == published
      ensures status.enabled == newSettings.enabled && status.port == newSettings.port && status.siteName == newSettings.siteName
      ensures status.running <==> newSettings.enabled && bindError.None?
      ensures status.lastError == if newSettings.enabled then bindError else None
      ensures status.sessionCount == 0 && status.addresses == if status.running then addresses else []
      ensures status.running ==> running == Some(round) && IsServing(View(), round)
      ensures !status.running ==> running.None?
      ensures result == if newSettings.enabled && bindError.Some? then None else Some(status)
      ensures forall t: nat :: IsServing(View(), t) ==> t == round
      ensures forall t :: t in Sessions.DrawnTokens(old(sessions).log) ==> t !in sessions.store
    {
      ghost var ts := Sessions.DrawnTokens(sessions.log);
      StopOld(newSettings);
      ClearSessions(ts);
      var next: Status;
      AwaitDoomed(ts);
      if !settings.enabled {
        next := Status(false, false, settings.port, settings.siteName, [], 0, None);
        Announce(next, false, WriteDisabled, ts);
        return Some(next);
      }
      if bindError.Some? {
        next := Status(true, false, settings.port, settings.siteName, [], 0, bindError);
        Announce(next, false, BindFails(bindError.value), ts);
        return None;
      }
      next := Status(true, true, settings.port, settings.siteName, addresses, 0, None);
      Announce(next, true, BindSucceeds(addresses), ts);
      StepKeeps(View(), Spawn);
      tasks, running, phase := tasks[round := Serving], Some(round), Idle;
      return Some(next);
    }
  }
}
