/** Lazy expiry refines eager expiry: a store that sweeps before every call answers the same. */
module SessionExpiry {
  import opened Common
  import opened Sessions
  import opened SessionHistory

  /** The eager store deletes every expired session at `at`, just before the call. */
  function EagerStep(m: Store, c: Call, at: Instant, idle: nat): (Store, Answer) {
    Step(Prune(m, at, idle), c, idle)
  }

  /** Both stores hold the same unexpired sessions at `now`. */
  ghost predicate Agree(lazy: Store, eager: Store, now: Instant, idle: nat) {
    Prune(lazy, now, idle) == Prune(eager, now, idle)
  }

  lemma PruneLater(m: Store, early: Instant, late: Instant, idle: nat)
    requires early <= late
    ensures Prune(Prune(m, early, idle), late, idle) == Prune(m, late, idle)
  {}

  lemma AgreeLater(lazy: Store, eager: Store, early: Instant, late: Instant, idle: nat)
    requires Agree(lazy, eager, early, idle) && early <= late
    ensures Agree(lazy, eager, late, idle)
  {
    PruneLater(lazy, early, late, idle);
    PruneLater(eager, early, late, idle);
  }

  /** A call never starts before `at`, and ends no earlier. */
  predicate StartsAt(c: Call, at: Instant) {
    match c
    case CreateOrAuthorize(_, _, _, _, pruned, created, accessed, _, _) => at <= pruned <= created <= accessed
    case Authorized(_, _, _, _, checked, accessed) => at <= checked <= accessed
    case _ => true
  }

  lemma CreateAgrees(lazy: Store, eager: Store, c: Call, at: Instant, idle: nat)
    requires Agree(lazy, eager, at, idle) && StartsAt(c, at) && c.CreateOrAuthorize?
    ensures Step(lazy, c, idle) == EagerStep(eager, c, at, idle)
  {
    AgreeLater(lazy, eager, at, c.prunedAt, idle);
    PruneLater(eager, at, c.prunedAt, idle);
  }

  /** What the two stores know of one token, if it is unexpired. */
  lemma AgreeOn(lazy: Store, eager: Store, now: Instant, idle: nat, t: Token)
    requires Agree(lazy, eager, now, idle)
    ensures t in lazy && Live(lazy[t], now, idle) <==> t in eager && Live(eager[t], now, idle)
    ensures t in lazy && Live(lazy[t], now, idle) ==> lazy[t] == eager[t]
  {
    assert t in Prune(lazy, now, idle) <==> t in Prune(eager, now, idle);
    if t in Prune(lazy, now, idle) {
      assert Prune(lazy, now, idle)[t] == Prune(eager, now, idle)[t];
    }
  }

  lemma AuthorizedAgrees(lazy: Store, eager: Store, c: Call, at: Instant, idle: nat)
    requires Agree(lazy, eager, at, idle) && StartsAt(c, at) && c.Authorized?
    ensures Step(lazy, c, idle).1 == EagerStep(eager, c, at, idle).1
    ensures Agree(Step(lazy, c, idle).0, EagerStep(eager, c, at, idle).0, c.accessedAt, idle)
  {
    AgreeLater(lazy, eager, at, c.checkedAt, idle);
    PruneLater(eager, at, c.checkedAt, idle);
    var swept := Prune(eager, at, idle);
    assert Agree(lazy, swept, c.checkedAt, idle);
    if c.token.Some? {
      AgreeOn(lazy, swept, c.checkedAt, idle, c.token.value);
      ExpireAgrees(lazy, swept, c, idle);
    } else {
      AgreeLater(lazy, swept, c.checkedAt, c.accessedAt, idle);
    }
  }

  lemma ExpireAgrees(lazy: Store, eager: Store, c: Call, idle: nat)
    requires c.Authorized? && Agree(lazy, eager, c.checkedAt, idle) && c.checkedAt <= c.accessedAt && c.token.Some?
    ensures Agree(AuthorizedStep(lazy, c, idle).0, AuthorizedStep(eager, c, idle).0, c.accessedAt, idle)
  {
    var l, e := AuthorizedStep(lazy, c, idle).0, AuthorizedStep(eager, c, idle).0;
    forall t ensures SameOn(l, e, c.accessedAt, idle, t) {
      AgreeOn(lazy, eager, c.checkedAt, idle, t);
      AgreeOn(lazy, eager, c.checkedAt, idle, c.token.value);
    }
    SameEverywhere(l, e, c.accessedAt, idle);
  }

  ghost predicate SameOn(lazy: Store, eager: Store, now: Instant, idle: nat, t: Token) {
    && (t in lazy && Live(lazy[t], now, idle) <==> t in eager && Live(eager[t], now, idle))
    && (t in lazy && Live(lazy[t], now, idle) ==> lazy[t] == eager[t])
  }

  lemma SameEverywhere(lazy: Store, eager: Store, now: Instant, idle: nat)
    requires forall t :: SameOn(lazy, eager, now, idle, t)
    ensures Agree(lazy, eager, now, idle)
  {
    var l, e := Prune(lazy, now, idle), Prune(eager, now, idle);
    forall t ensures (t in l <==> t in e) && (t in l ==> l[t] == e[t]) {
      assert SameOn(lazy, eager, now, idle, t);
    }
  }

  lemma RevocationAgrees(lazy: Store, eager: Store, c: Call, at: Instant, idle: nat)
    requires Agree(lazy, eager, at, idle) && !c.CreateOrAuthorize? && !c.Authorized?
    ensures Agree(Step(lazy, c, idle).0, EagerStep(eager, c, at, idle).0, at, idle)
  {
    var l, e := Step(lazy, c, idle).0, EagerStep(eager, c, at, idle).0;
    forall t ensures SameOn(l, e, at, idle, t) {
      AgreeOn(lazy, eager, at, idle, t);
    }
    SameEverywhere(l, e, at, idle);
  }

  // ---- whole runs ----

  /** A call and the moment just before it. */
  datatype Timed = Timed(call: Call, at: Instant)

  function EndOf(x: Timed): Instant {
    ClockAfter(x.call, x.at)
  }

  predicate WellTimed(xs: seq<Timed>, clock: Instant)
    decreases |xs|
  {
    xs == [] || (clock <= xs[0].at && StartsAt(xs[0].call, xs[0].at) && WellTimed(xs[1..], EndOf(xs[0])))
  }

  function LazyRun(m: Store, xs: seq<Timed>, idle: nat): Store
    decreases |xs|
  {
    if xs == [] then m else LazyRun(Step(m, xs[0].call, idle).0, xs[1..], idle)
  }

  function EagerRun(m: Store, xs: seq<Timed>, idle: nat): Store
    decreases |xs|
  {
    if xs == [] then m else EagerRun(EagerStep(m, xs[0].call, xs[0].at, idle).0, xs[1..], idle)
  }

  function FinalClock(xs: seq<Timed>, clock: Instant): Instant
    decreases |xs|
  {
    if xs == [] then clock else FinalClock(xs[1..], EndOf(xs[0]))
  }

  lemma StepAgrees(lazy: Store, eager: Store, x: Timed, clock: Instant, idle: nat)
    requires Agree(lazy, eager, clock, idle) && clock <= x.at && StartsAt(x.call, x.at)
    ensures Agree(Step(lazy, x.call, idle).0, EagerStep(eager, x.call, x.at, idle).0, EndOf(x), idle)
    ensures x.call.CreateOrAuthorize? || x.call.Authorized? ==>
      Step(lazy, x.call, idle).1 == EagerStep(eager, x.call, x.at, idle).1
  {
    AgreeLater(lazy, eager, clock, x.at, idle);
    if x.call.CreateOrAuthorize? {
      CreateAgrees(lazy, eager, x.call, x.at, idle);
    } else if x.call.Authorized? {
      AuthorizedAgrees(lazy, eager, x.call, x.at, idle);
    } else {
      RevocationAgrees(lazy, eager, x.call, x.at, idle);
    }
  }

  /** After any run the eager store and the lazy one have the same unexpired sessions. */
  lemma {:induction false} RunAgrees(lazy: Store, eager: Store, xs: seq<Timed>, clock: Instant, idle: nat)
    requires Agree(lazy, eager, clock, idle) && WellTimed(xs, clock)
    ensures Agree(LazyRun(lazy, xs, idle), EagerRun(eager, xs, idle), FinalClock(xs, clock), idle)
    decreases |xs|
  {
    if xs == [] {
    } else {
      var x := xs[0];
      StepAgrees(lazy, eager, x, clock, idle);
      RunAgrees(Step(lazy, x.call, idle).0, EagerStep(eager, x.call, x.at, idle).0, xs[1..], EndOf(x), idle);
    }
  }

  /** So the next authorization, or the next creation, is answered alike. */
  lemma LazyAnswersLikeEager(xs: seq<Timed>, x: Timed, idle: nat)
    requires WellTimed(xs, 0) && FinalClock(xs, 0) <= x.at && StartsAt(x.call, x.at)
    requires x.call.CreateOrAuthorize? || x.call.Authorized?
    ensures Step(LazyRun(map[], xs, idle), x.call, idle).1 == EagerStep(EagerRun(map[], xs, idle), x.call, x.at, idle).1
  {
    RunAgrees(map[], map[], xs, 0, idle);
    StepAgrees(LazyRun(map[], xs, idle), EagerRun(map[], xs, idle), x, FinalClock(xs, 0), idle);
  }

  // ---- where the two differ ----

  ghost function ExpiredHolders(m: Store, share: ShareId, now: Instant, idle: nat): set<Token> {
    set t | t in Holders(m, share) && !Live(m[t], now, idle)
  }

  /** The count `revoke_share` reports is the one thing lazy expiry shows: it also counts expired sessions
      that no sweep has met, and equals the eager count exactly when none of them holds the share. */
  lemma RevokedCountExactly(lazy: Store, eager: Store, share: ShareId, at: Instant, idle: nat)
    requires Agree(lazy, eager, at, idle)
    ensures var counted, swept := Step(lazy, RevokeShare(share), idle).1, EagerStep(eager, RevokeShare(share), at, idle).1;
      && counted.Counted? && swept.Counted?
      && counted.n == swept.n + |ExpiredHolders(lazy, share, at, idle)|
      && (counted == swept <==> forall t :: t in Holders(lazy, share) ==> Live(lazy[t], at, idle))
  {
    var all, live, dead := Holders(lazy, share), Holders(Prune(lazy, at, idle), share), ExpiredHolders(lazy, share, at, idle);
    assert all == live + dead && live * dead == {};
    assert |all| == |live| + |dead|;
    assert dead == {} <==> forall t :: t in all ==> Live(lazy[t], at, idle);
  }

  /** The two counts do differ: one session, created at time zero and expired without any sweep, is still counted. */
  lemma ExpiredHolderIsCounted(idle: nat, at: Instant)
    requires at >= idle
    ensures var xs := [Timed(CreateOrAuthorize(None, 1, "photos", 0, 0, 0, 0, "token", ""), 0)];
      && WellTimed(xs, 0) && FinalClock(xs, 0) <= at
      && Step(LazyRun(map[], xs, idle), RevokeShare("photos"), idle).1 == Counted(1)
      && EagerStep(EagerRun(map[], xs, idle), RevokeShare("photos"), at, idle).1 == Counted(0)
  {
    var x := Timed(CreateOrAuthorize(None, 1, "photos", 0, 0, 0, 0, "token", ""), 0);
    var m: Store := map["token" := Session(map["photos" := 0], 1, 0, 0)];
    assert Prune(map[], 0, idle) == map[];
    assert Step(map[], x.call, idle).0 == m && EagerStep(map[], x.call, 0, idle).0 == m;
    assert [x][1..] == [];
    assert Holders(m, "photos") == {"token"};
    assert Prune(m, at, idle) == map[];
    assert Holders(map[], "photos") == {};
  }
}
