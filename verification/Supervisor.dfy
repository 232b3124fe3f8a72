/** The gateway supervisor (`src/lib.rs`) as a state machine: one `reconfigure` at a time walks through its
    await points while the server task it replaces, and the session calls of requests, go on beside it. */
module Supervisor {
  import opened Common
  import Sessions
  import SessionHistory

  datatype Settings = Settings(enabled: bool, port: nat, siteName: string)

  datatype Status = Status(
    enabled: bool, running: bool, port: nat, siteName: string, addresses: seq<string>,
    sessionCount: nat, lastError: Option<string>)

  /** A server task is named by the round of `reconfigure` that spawned it. Its final write and its end are
      one step: it takes the status lock, writes and publishes without awaiting in between. */
  datatype Task = Serving | Ended

  /** Where the `reconfigure` call that holds the lock stands. */
  datatype Phase =
    | Idle
    | Stopping(task: nat)
    | Aborting(task: nat)
    | Clearing
    | Deciding
    | Publishing(spawns: bool)
    | Spawning

  datatype State = State(
    phase: Phase,
    settings: Settings,
    /** How many `reconfigure` calls have taken the lock. */
    round: nat,
    running: Option<nat>,
    tasks: map<nat, Task>,
    status: Status,
    published: Status,
    /** The round that wrote `status`, apart from the final write of its own task. */
    author: nat,
    sessions: SessionHistory.World)

  datatype Event =
    | Begin(settings: Settings)
    | SeeEnd
    | GiveUp
    | Clear
    | WriteDisabled
    | BindFails(message: string)
    | BindSucceeds(addresses: seq<string>)
    | Publish
    | Spawn
    | Finish(task: nat, error: Option<string>)
    | Cancelled(task: nat)
    | Request(call: Sessions.Call, idle: nat)

  const DEFAULT_STATUS: Status := Status(false, false, 8767, "", [], 0, None)

  const INITIAL: State :=
    State(Idle, Settings(false, 8767, ""), 0, None, map[], DEFAULT_STATUS, DEFAULT_STATUS, 0, SessionHistory.EMPTY)

  predicate IsServing(s: State, t: nat) {
    t in s.tasks && s.tasks[t] == Serving
  }

  ghost predicate Enabled(s: State, e: Event) {
    match e
    case Begin(_) => s.phase.Idle?
    case SeeEnd => (s.phase.Stopping? || s.phase.Aborting?) && !IsServing(s, s.phase.task)
    case GiveUp => s.phase.Stopping?
    case Clear => s.phase.Clearing?
    case WriteDisabled => s.phase.Deciding? && !s.settings.enabled
    case BindFails(_) => s.phase.Deciding? && s.settings.enabled
    case BindSucceeds(_) => s.phase.Deciding? && s.settings.enabled
    case Publish => s.phase.Publishing?
    case Spawn => s.phase.Spawning?
    case Finish(t, _) => IsServing(s, t)
    case Cancelled(t) => s.phase == Aborting(t) && IsServing(s, t)
    case Request(c, idle) => SessionHistory.Possible(s.sessions, c, idle)
  }

  function Write(s: State, status: Status, spawns: bool): State {
    s.(status := status, author := s.round, phase := Publishing(spawns))
  }

  /** The final write of a server task. */
  function FinalStatus(s: State, error: Option<string>): Status {
    var stopped := s.status.(running := false, sessionCount := |s.sessions.store|);
    if error.Some? then stopped.(lastError := error) else stopped
  }

  function Apply(s: State, e: Event): State
    requires Enabled(s, e)
  {
    match e
    case Begin(settings) =>
      var phase := if s.running.Some? then Stopping(s.running.value) else Clearing;
      s.(phase := phase, settings := settings, round := s.round + 1, running := None)
    case SeeEnd => s.(phase := Clearing)
    case GiveUp => s.(phase := Aborting(s.phase.task))
    case Clear => s.(phase := Deciding, sessions := SessionHistory.Next(s.sessions, Sessions.RevokeAll, 0))
    case WriteDisabled =>
      Write(s, Status(false, false, s.settings.port, s.settings.siteName, [], 0, None), false)
    case BindFails(message) =>
      Write(s, Status(true, false, s.settings.port, s.settings.siteName, [], 0, Some(message)), false)
    case BindSucceeds(addresses) =>
      Write(s, Status(true, true, s.settings.port, s.settings.siteName, addresses, 0, None), true)
    case Publish => s.(published := s.status, phase := if s.phase.spawns then Spawning else Idle)
    case Spawn => s.(tasks := s.tasks[s.round := Serving], running := Some(s.round), phase := Idle)
    case Finish(t, error) =>
      var status := FinalStatus(s, error);
      s.(tasks := s.tasks[t := Ended], status := status, published := status)
    case Cancelled(t) => s.(tasks := s.tasks[t := Ended])
    case Request(c, idle) => s.(sessions := SessionHistory.Next(s.sessions, c, idle))
  }

  ghost predicate ValidRun(s: State, es: seq<Event>)
    decreases |es|
  {
    es == [] || (Enabled(s, es[0]) && ValidRun(Apply(s, es[0]), es[1..]))
  }

  function Run(s: State, es: seq<Event>): State
    requires ValidRun(s, es)
    decreases |es|
  {
    if es == [] then s else Run(Apply(s, es[0]), es[1..])
  }

  // ---- the invariant ----

  /** The one task that may be unfinished: the installed one, or the one being stopped. */
  predicate MayServe(s: State, t: nat) {
    s.running == Some(t) || s.phase == Stopping(t) || s.phase == Aborting(t)
  }

  ghost predicate Inv(s: State) {
    && s.author <= s.round
    && (!s.phase.Idle? ==> s.running.None?)
    // Only that task may still write, and it was spawned by the round whose status it would overwrite.
    && (forall t: nat :: IsServing(s, t) ==> MayServe(s, t) && t == s.author)
    && (s.running.Some? ==> s.running.value in s.tasks && s.running.value == s.author)
    && ((s.phase.Stopping? || s.phase.Aborting?) ==> s.phase.task in s.tasks && s.phase.task == s.author < s.round)
    && (!s.phase.Publishing? ==> s.published == s.status)
    && (s.phase.Idle? ==> (s.status.running <==> s.running.Some? && IsServing(s, s.running.value)))
    && (s.phase.Stopping? ==> (s.status.running <==> IsServing(s, s.phase.task)))
    && (s.phase.Publishing? || s.phase.Spawning? ==> s.author == s.round)
    && (s.phase.Publishing? ==> s.status.running == s.phase.spawns)
    && (s.phase.Spawning? ==> s.status.running)
    && (s.author == s.round ==>
          s.status.enabled == s.settings.enabled && s.status.port == s.settings.port && s.status.siteName == s.settings.siteName)
    && (s.phase.Clearing? || s.phase.Deciding? ==> s.author < s.round)
    && (s.phase.Idle? ==> s.author == s.round)
  }

  lemma StepKeeps(s: State, e: Event)
    requires Inv(s) && Enabled(s, e)
    ensures Inv(Apply(s, e))
  {
    var s' := Apply(s, e);
    forall t: nat | IsServing(s', t) ensures MayServe(s', t) && t == s'.author {
      assert IsServing(s, t) || (e.Spawn? && t == s.round);
    }
  }

  lemma {:induction false} RunKeeps(s: State, es: seq<Event>)
    requires Inv(s) && ValidRun(s, es)
    ensures Inv(Run(s, es))
    decreases |es|
  {
    if es == [] {
    } else {
      StepKeeps(s, es[0]);
      RunKeeps(Apply(s, es[0]), es[1..]);
    }
  }

  /** In every state with no `reconfigure` in progress: at most the installed task is unfinished, the status
      says running exactly while it is, it carries the latest settings, and the last published status is
      the stored one. */
  lemma QuietStateIsConsistent(es: seq<Event>)
    requires ValidRun(INITIAL, es) && Run(INITIAL, es).phase.Idle?
    ensures var s := Run(INITIAL, es);
      && (forall t: nat :: IsServing(s, t) ==> s.running == Some(t))
      && (s.status.running <==> s.running.Some? && IsServing(s, s.running.value))
      && s.status.enabled == s.settings.enabled && s.status.port == s.settings.port && s.status.siteName == s.settings.siteName
      && s.published == s.status
  {
    RunKeeps(INITIAL, es);
  }

  /** An old task's final write never lands on a newer configuration's status: whoever finishes writes over
      the status of its own round, and no two tasks are ever unfinished together. */
  lemma FinalWriteIsOwn(es: seq<Event>, t: nat, u: nat)
    requires ValidRun(INITIAL, es) && IsServing(Run(INITIAL, es), t)
    ensures Run(INITIAL, es).author == t
    ensures IsServing(Run(INITIAL, es), u) ==> u == t
  {
    RunKeeps(INITIAL, es);
  }

  // ---- what the status reports ----

  /** Nothing has gone wrong yet for a task that serves, or is about to. */
  ghost predicate NoErrorYet(s: State) {
    ((exists t: nat :: IsServing(s, t)) || s.phase.Spawning? || (s.phase.Publishing? && s.phase.spawns)) ==>
      s.status.lastError.None?
  }

  lemma StepNoErrorYet(s: State, e: Event)
    requires Inv(s) && Enabled(s, e) && NoErrorYet(s)
    ensures NoErrorYet(Apply(s, e))
  {
    var s' := Apply(s, e);
    if t: nat :| IsServing(s', t) {
      assert IsServing(s, t) || (e.Spawn? && t == s.round);
    }
  }

  /** The final write reports how the task ended: not running, the sessions left, and its error if it had one. The addresses
      and settings of its round stay, it is published at once, and the session count is that of the moment. */
  lemma FinalWriteReports(s: State, t: nat, error: Option<string>)
    requires Inv(s) && NoErrorYet(s) && Enabled(s, Finish(t, error))
    ensures var s' := Apply(s, Finish(t, error));
      && s'.status == s.status.(running := false, sessionCount := |s.sessions.store|, lastError := error)
      && s'.published == s'.status && !IsServing(s', t)
  {
    assert IsServing(s, t);
  }

  /** The sessions after a run, from its session calls and clearings alone. */
  function SessionsAfter(es: seq<Event>): SessionHistory.World {
    if es == [] then SessionHistory.EMPTY
    else
      var before := SessionsAfter(es[..|es| - 1]);
      match es[|es| - 1]
      case Clear => SessionHistory.Next(before, Sessions.RevokeAll, 0)
      case Request(c, idle) => SessionHistory.Next(before, c, idle)
      case _ => before
  }

  /** The settings of the latest `reconfigure`. */
  function SettingsAfter(es: seq<Event>): Settings {
    if es == [] then INITIAL.settings
    else if es[|es| - 1].Begin? then es[|es| - 1].settings
    else SettingsAfter(es[..|es| - 1])
  }

  datatype Report = Report(running: bool, error: Option<string>, addresses: seq<string>, sessions: nat)

  /** What a run should have reported in the end: the outcome of its latest binding, or how the task it led to ended. */
  function Reported(es: seq<Event>): Report {
    if es == [] then Report(false, None, [], 0)
    else
      var before := es[..|es| - 1];
      match es[|es| - 1]
      case WriteDisabled => Report(false, None, [], 0)
      case BindFails(message) => Report(false, Some(message), [], 0)
      case BindSucceeds(addresses) => Report(true, None, addresses, 0)
      case Finish(_, error) => Report(false, error, Reported(before).addresses, |SessionsAfter(before).store|)
      case _ => Reported(before)
  }

  lemma {:induction false} RunLast(s: State, es: seq<Event>)
    requires es != [] && ValidRun(s, es)
    ensures var before := es[..|es| - 1];
      && ValidRun(s, before) && Enabled(Run(s, before), es[|es| - 1])
      && Run(s, es) == Apply(Run(s, before), es[|es| - 1])
    decreases |es|
  {
    if |es| == 1 {
      assert es[..0] == [] && es[1..] == [];
    } else {
      RunLast(Apply(s, es[0]), es[1..]);
      assert es[1..][..|es| - 2] == es[..|es| - 1][1..];
    }
  }

  ghost predicate Reports(status: Status, r: Report) {
    && status.running == r.running && status.lastError == r.error
    && status.addresses == r.addresses && status.sessionCount == r.sessions
  }

  lemma {:induction false} RunReports(es: seq<Event>)
    requires ValidRun(INITIAL, es)
    ensures var s := Run(INITIAL, es);
      && Inv(s) && NoErrorYet(s)
      && s.settings == SettingsAfter(es) && s.sessions == SessionsAfter(es)
      && Reports(s.status, Reported(es))
    decreases |es|
  {
    if es == [] {
    } else {
      var before, e := es[..|es| - 1], es[|es| - 1];
      RunLast(INITIAL, es);
      RunReports(before);
      var s := Run(INITIAL, before);
      StepKeeps(s, e);
      StepNoErrorYet(s, e);
      if e.Finish? {
        FinalWriteReports(s, e.task, e.error);
      }
    }
  }

  /** In every state with no `reconfigure` in progress the published status reports what the run brought: the latest settings,
      the bind error or the final error of the latest round, the addresses of its binding, and the sessions counted at its
      final write. */
  lemma PublishedReports(es: seq<Event>)
    requires ValidRun(INITIAL, es) && Run(INITIAL, es).phase.Idle?
    ensures var published, settings := Run(INITIAL, es).published, SettingsAfter(es);
      && Reports(published, Reported(es))
      && published.enabled == settings.enabled && published.port == settings.port && published.siteName == settings.siteName
  {
    RunReports(es);
  }

  // ---- sessions across a reconfiguration ----

  predicate Early(p: Phase) {
    p.Stopping? || p.Aborting? || p.Clearing?
  }

  /** `t` was drawn before round `r` and is dead, or round `r` has yet to clear the sessions. */
  ghost predicate Doomed(s: State, r: nat, t: Sessions.Token) {
    && t in Sessions.DrawnTokens(s.sessions.log)
    && s.round >= r
    && (t !in s.sessions.store || (s.round == r && Early(s.phase)))
  }

  lemma StaysDoomed(s: State, e: Event, r: nat, t: Sessions.Token)
    requires Enabled(s, e) && Doomed(s, r, t)
    ensures Doomed(Apply(s, e), r, t)
  {
    match e
    case Clear => SessionHistory.DrawnGrows(s.sessions, Sessions.RevokeAll, 0);
    case Request(c, idle) =>
      SessionHistory.DrawnGrows(s.sessions, c, idle);
      if t !in s.sessions.store {
        SessionHistory.StaysOut(s.sessions, c, idle, t);
      }
    case _ =>
  }

  lemma {:induction false} RunStaysDoomed(s: State, es: seq<Event>, r: nat, t: Sessions.Token)
    requires ValidRun(s, es) && Doomed(s, r, t)
    ensures Doomed(Run(s, es), r, t)
    decreases |es|
  {
    if es == [] {
    } else {
      StaysDoomed(s, es[0], r, t);
      RunStaysDoomed(Apply(s, es[0]), es[1..], r, t);
    }
  }

  /** Once a `reconfigure` has returned, no token issued before it began authorizes anything again,
      whatever requests and further reconfigurations follow or ran beside it. */
  lemma ReconfigureRevokes(s: State, settings: Settings, es: seq<Event>, t: Sessions.Token, c: Sessions.Call, idle: nat)
    requires s.phase.Idle? && t in Sessions.DrawnTokens(s.sessions.log)
    requires ValidRun(Apply(s, Begin(settings)), es)
    requires var s' := Run(Apply(s, Begin(settings)), es);
      && (s'.phase.Idle? || s'.round > s.round + 1)
      && c.Authorized? && c.token == Some(t)
    ensures var s' := Run(Apply(s, Begin(settings)), es);
      t !in s'.sessions.store && Sessions.Step(s'.sessions.store, c, idle).1 == Sessions.Allowed(false)
  {
    RunStaysDoomed(Apply(s, Begin(settings)), es, s.round + 1, t);
  }
}
