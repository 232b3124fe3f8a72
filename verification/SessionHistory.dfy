/** The store answers as its log says: the history-based meaning of an authorization, over every run. */
module SessionHistory {
  import opened Common
  import opened Sessions

  datatype World = World(store: Store, log: Log, clock: Instant)

  const EMPTY: World := World(map[], [], 0)

  function ClockAfter(c: Call, clock: Instant): Instant {
    if c.CreateOrAuthorize? || c.Authorized? then c.accessedAt else clock
  }

  /** The clock never runs backwards and tokens are never drawn twice; a full store evicts an oldest session. */
  ghost predicate Possible(w: World, c: Call, idle: nat) {
    match c
    case CreateOrAuthorize(_, _, _, _, pruned, created, accessed, drawn, victim) =>
      && w.clock <= pruned <= created <= accessed
      && drawn !in DrawnTokens(w.log)
      && (Evicts(Prune(w.store, pruned, idle), c) ==> IsOldest(Prune(w.store, pruned, idle), victim))
    case Authorized(_, _, _, _, checked, accessed) => w.clock <= checked <= accessed
    case _ => true
  }

  function Next(w: World, c: Call, idle: nat): World {
    World(Step(w.store, c, idle).0, w.log + [Record(w.store, c, idle)], ClockAfter(c, w.clock))
  }

  ghost predicate ValidRun(w: World, cs: seq<Call>, idle: nat)
    decreases |cs|
  {
    cs == [] || (Possible(w, cs[0], idle) && ValidRun(Next(w, cs[0], idle), cs[1..], idle))
  }

  function Run(w: World, cs: seq<Call>, idle: nat): World
    decreases |cs|
  {
    if cs == [] then w else Run(Next(w, cs[0], idle), cs[1..], idle)
  }

  // ---- the invariant ----

  /** A stored session is what the log says of its token. */
  ghost predicate Matches(h: Log, t: Token, s: Session) {
    && Origin(h, t) == Some((s.ip, s.created))
    && LatestAccess(h, t) == Some(s.accessed)
    && forall share :: LatestGrant(h, t, share) == Get(s.grants, share)
  }

  ghost predicate TokenOk(m: Store, h: Log, clock: Instant, idle: nat, t: Token) {
    && (t in m ==> t in DrawnTokens(h) && Matches(h, t, m[t]))
    && (t !in m ==> !Unexpired(h, t, clock, idle))
    && (t !in DrawnTokens(h) ==> Origin(h, t).None? && forall share :: LatestGrant(h, t, share).None?)
  }

  ghost predicate Inv(w: World, idle: nat) {
    && |w.store| <= MAX_SESSIONS
    && forall t :: TokenOk(w.store, w.log, w.clock, idle, t)
  }

  // ---- one more call, seen by one token ----

  lemma LogGrows(h: Log, d: Done, t: Token)
    ensures Origin(h + [d], t) ==
      if Creates(d, t) then Some((d.call.ip, d.call.createdAt)) else if Ends(d, t) then None else Origin(h, t)
    ensures LatestAccess(h + [d], t) == if Accesses(d, t) then Some(d.call.accessedAt) else LatestAccess(h, t)
    ensures DrawnTokens(h + [d]) == DrawnTokens(h) +
      (if d.call.CreateOrAuthorize? && d.answer == Issued(d.call.drawn) then {d.call.drawn} else {})
  {
    assert Front(h + [d]) == h;
  }

  lemma LogGrowsGrant(h: Log, d: Done, t: Token, share: ShareId)
    ensures LatestGrant(h + [d], t, share) ==
      if Grants(d, t, share) then Some(d.call.revision) else if Withdraws(d, t, share) then None else LatestGrant(h, t, share)
  {
    assert Front(h + [d]) == h;
  }

  ghost predicate OkAfter(w: World, c: Call, idle: nat, t: Token) {
    var w' := Next(w, c, idle);
    TokenOk(w'.store, w'.log, w'.clock, idle, t)
  }

  ghost predicate OkBefore(w: World, idle: nat, t: Token) {
    TokenOk(w.store, w.log, w.clock, idle, t)
  }

  lemma StillAbsent(w: World, c: Call, idle: nat, t: Token)
    requires OkBefore(w, idle, t) && w.clock <= ClockAfter(c, w.clock)
    requires t !in w.store && t !in Step(w.store, c, idle).0
    requires var d := Record(w.store, c, idle); !Creates(d, t) && !Accesses(d, t)
    ensures OkAfter(w, c, idle, t)
  {
    var d := Record(w.store, c, idle);
    LogGrows(w.log, d, t);
    forall share ensures LatestGrant(w.log + [d], t, share).Some? ==> LatestGrant(w.log, t, share).Some? {
      LogGrowsGrant(w.log, d, t, share);
    }
  }

  /** A session leaves the store because the call ends it, or because it has expired. */
  lemma Gone(w: World, c: Call, idle: nat, t: Token, now: Instant)
    requires OkBefore(w, idle, t) && now <= ClockAfter(c, w.clock)
    requires t in w.store && t !in Step(w.store, c, idle).0
    requires var d := Record(w.store, c, idle);
      !Creates(d, t) && !Accesses(d, t) && (Ends(d, t) || !Live(w.store[t], now, idle))
    ensures OkAfter(w, c, idle, t)
  {
    LogGrows(w.log, Record(w.store, c, idle), t);
  }

  lemma Kept(w: World, c: Call, idle: nat, t: Token)
    requires OkBefore(w, idle, t) && t in w.store && t in Step(w.store, c, idle).0
    requires var d, s, s' := Record(w.store, c, idle), w.store[t], Step(w.store, c, idle).0[t];
      && !Creates(d, t) && !Ends(d, t)
      && s'.ip == s.ip && s'.created == s.created
      && s'.accessed == (if Accesses(d, t) then d.call.accessedAt else s.accessed)
      && forall share :: Get(s'.grants, share) ==
           if Grants(d, t, share) then Some(d.call.revision) else if Withdraws(d, t, share) then None else Get(s.grants, share)
    ensures OkAfter(w, c, idle, t)
  {
    var d := Record(w.store, c, idle);
    LogGrows(w.log, d, t);
    forall share ensures LatestGrant(w.log + [d], t, share) == Get(Step(w.store, c, idle).0[t].grants, share) {
      LogGrowsGrant(w.log, d, t, share);
    }
  }

  lemma Drawn(w: World, c: Call, idle: nat, t: Token)
    requires OkBefore(w, idle, t) && Possible(w, c, idle) && c.CreateOrAuthorize? && t == c.drawn
    requires !Reuses(Prune(w.store, c.prunedAt, idle), c)
    ensures OkAfter(w, c, idle, t)
  {
    var d := Record(w.store, c, idle);
    LogGrows(w.log, d, t);
    forall share ensures LatestGrant(w.log + [d], t, share) == Get(Step(w.store, c, idle).0[t].grants, share) {
      LogGrowsGrant(w.log, d, t, share);
    }
  }

  // ---- every call keeps every token right ----

  lemma CreateKeeps(w: World, c: Call, idle: nat, t: Token)
    requires OkBefore(w, idle, t) && Possible(w, c, idle) && c.CreateOrAuthorize?
    requires forall u :: u in w.store ==> u in DrawnTokens(w.log)
    ensures OkAfter(w, c, idle, t)
  {
    var kept := Prune(w.store, c.prunedAt, idle);
    var reuses := Reuses(kept, c);
    if !reuses && t == c.drawn {
      Drawn(w, c, idle, t);
    } else if t !in w.store {
      StillAbsent(w, c, idle, t);
    } else if t !in Step(w.store, c, idle).0 {
      Gone(w, c, idle, t, c.prunedAt);
    } else {
      Kept(w, c, idle, t);
    }
  }

  lemma AuthorizedKeeps(w: World, c: Call, idle: nat, t: Token)
    requires OkBefore(w, idle, t) && Possible(w, c, idle) && c.Authorized?
    ensures OkAfter(w, c, idle, t)
  {
    if t !in w.store {
      StillAbsent(w, c, idle, t);
    } else if t !in Step(w.store, c, idle).0 {
      Gone(w, c, idle, t, c.checkedAt);
    } else {
      Kept(w, c, idle, t);
    }
  }

  lemma RevocationKeeps(w: World, c: Call, idle: nat, t: Token)
    requires OkBefore(w, idle, t) && !c.CreateOrAuthorize? && !c.Authorized?
    ensures OkAfter(w, c, idle, t)
  {
    if t !in w.store {
      StillAbsent(w, c, idle, t);
    } else if t !in Step(w.store, c, idle).0 {
      Gone(w, c, idle, t, w.clock);
    } else {
      Kept(w, c, idle, t);
    }
  }

  lemma SizeAfterInsert(m: Store, t: Token, s: Session)
    requires t !in m
    ensures |m[t := s]| == |m| + 1
  {
    assert m[t := s].Keys == m.Keys + {t};
    assert |m[t := s].Keys| == |m[t := s]| && |m.Keys| == |m|;
  }

  lemma SizeAfterRemove(m: Store, t: Token)
    requires t in m
    ensures |m - {t}| == |m| - 1
  {
    assert (m - {t}).Keys == m.Keys - {t};
    assert |(m - {t}).Keys| == |m - {t}| && |m.Keys| == |m|;
  }

  lemma CreationStaysSmall(kept: Store, c: Call)
    requires c.CreateOrAuthorize? && |kept| <= MAX_SESSIONS && c.drawn !in kept
    requires Evicts(kept, c) ==> c.victim in kept
    ensures |CreateSwept(kept, c).0| <= MAX_SESSIONS
  {
    if Reuses(kept, c) {
      assert CreateSwept(kept, c).0.Keys == kept.Keys;
      KeysBound(CreateSwept(kept, c).0, kept);
    } else {
      var room := if |kept| >= MAX_SESSIONS then kept - {c.victim} else kept;
      if |kept| >= MAX_SESSIONS {
        SizeAfterRemove(kept, c.victim);
      }
      SizeAfterInsert(room, c.drawn, Session(map[c.share := c.revision], c.ip, c.createdAt, c.accessedAt));
    }
  }

  lemma StoreStaysSmall(w: World, c: Call, idle: nat)
    requires |w.store| <= MAX_SESSIONS && Possible(w, c, idle)
    requires forall u :: u in w.store ==> u in DrawnTokens(w.log)
    ensures |Step(w.store, c, idle).0| <= 1024
  {
    if c.CreateOrAuthorize? {
      KeysBound(Prune(w.store, c.prunedAt, idle), w.store);
      CreationStaysSmall(Prune(w.store, c.prunedAt, idle), c);
    } else {
      KeysBound(Step(w.store, c, idle).0, w.store);
    }
  }

  lemma KeysBound(a: Store, b: Store)
    requires a.Keys <= b.Keys
    ensures |a| <= |b|
  {
    assert b.Keys == a.Keys + (b.Keys - a.Keys);
    assert |a.Keys| == |a| && |b.Keys| == |b|;
  }

  lemma StepKeeps(w: World, c: Call, idle: nat)
    requires Inv(w, idle) && Possible(w, c, idle)
    ensures Inv(Next(w, c, idle), idle)
  {
    forall u | u in w.store ensures u in DrawnTokens(w.log) {
      assert OkBefore(w, idle, u);
    }
    StoreStaysSmall(w, c, idle);
    var w' := Next(w, c, idle);
    forall t ensures TokenOk(w'.store, w'.log, w'.clock, idle, t) {
      assert OkBefore(w, idle, t);
      if c.CreateOrAuthorize? {
        CreateKeeps(w, c, idle, t);
      } else if c.Authorized? {
        AuthorizedKeeps(w, c, idle, t);
      } else {
        RevocationKeeps(w, c, idle, t);
      }
      assert OkAfter(w, c, idle, t);
    }
  }

  lemma {:induction false} RunKeeps(w: World, cs: seq<Call>, idle: nat)
    requires Inv(w, idle) && ValidRun(w, cs, idle)
    ensures Inv(Run(w, cs, idle), idle)
    decreases |cs|
  {
    if cs == [] {
    } else {
      StepKeeps(w, cs[0], idle);
      RunKeeps(Next(w, cs[0], idle), cs[1..], idle);
    }
  }

  lemma EmptyOk(idle: nat)
    ensures Inv(EMPTY, idle)
  {}

  // ---- what an authorization means ----

  /** `authorized` answers true exactly when the log alone says so. */
  lemma AuthorizedExactly(w: World, c: Call, idle: nat)
    requires Inv(w, idle) && Possible(w, c, idle) && c.Authorized?
    ensures Step(w.store, c, idle).1 == Allowed(
      c.token.Some? && HistoryAllows(w.log, c.token.value, c.ip, c.share, c.revision, c.checkedAt, idle))
  {
    if c.token.Some? {
      assert OkBefore(w, idle, c.token.value);
    }
  }

  /** `create_or_authorize` returns the caller's own token exactly when the log shows its session unexpired
      and created from the same address; every other call gets the newly drawn token. */
  lemma ReusedExactly(w: World, c: Call, idle: nat)
    requires Inv(w, idle) && Possible(w, c, idle) && c.CreateOrAuthorize?
    ensures Step(w.store, c, idle).1 == Issued(
      if c.existing.Some? && Unexpired(w.log, c.existing.value, c.prunedAt, idle)
         && Origin(w.log, c.existing.value).value.0 == c.ip
      then c.existing.value else c.drawn)
  {
    if c.existing.Some? {
      assert OkBefore(w, idle, c.existing.value);
    }
  }

  /** Over every run from an empty store. */
  lemma AuthorizedMeansHistory(cs: seq<Call>, c: Call, idle: nat)
    requires ValidRun(EMPTY, cs, idle) && Possible(Run(EMPTY, cs, idle), c, idle) && c.Authorized?
    ensures var w := Run(EMPTY, cs, idle);
      Step(w.store, c, idle).1 == Allowed(
        c.token.Some? && HistoryAllows(w.log, c.token.value, c.ip, c.share, c.revision, c.checkedAt, idle))
  {
    EmptyOk(idle);
    RunKeeps(EMPTY, cs, idle);
    AuthorizedExactly(Run(EMPTY, cs, idle), c, idle);
  }

  ghost predicate GrantedAt(h: Log, t: Token, share: ShareId, revision: nat, i: nat) {
    && i < |h| && Grants(h[i], t, share) && h[i].call.revision == revision
    && forall j :: i < j < |h| ==> !Grants(h[j], t, share) && !Withdraws(h[j], t, share)
  }

  /** The latest grant, by position in the log: nothing after it grants or withdraws the share. */
  lemma {:induction false} LatestGrantIs(h: Log, t: Token, share: ShareId, revision: nat)
    ensures LatestGrant(h, t, share) == Some(revision) <==> exists i: nat :: GrantedAt(h, t, share, revision, i)
  {
    if h == [] {
    } else {
      var f := Front(h);
      LatestGrantIs(f, t, share, revision);
      if Grants(Last(h), t, share) && Last(h).call.revision == revision {
        assert GrantedAt(h, t, share, revision, |h| - 1);
      } else if !Grants(Last(h), t, share) && !Withdraws(Last(h), t, share) {
        if i: nat :| GrantedAt(f, t, share, revision, i) {
          assert GrantedAt(h, t, share, revision, i);
        }
        if i: nat :| GrantedAt(h, t, share, revision, i) {
          assert GrantedAt(f, t, share, revision, i);
        }
      }
    }
  }

  ghost predicate CreatedAt(h: Log, t: Token, ip: IpAddr, created: Instant, i: nat) {
    && i < |h| && Creates(h[i], t) && h[i].call.ip == ip && h[i].call.createdAt == created
    && forall j :: i < j < |h| ==> !Creates(h[j], t) && !Ends(h[j], t)
  }

  lemma {:induction false} OriginIs(h: Log, t: Token, ip: IpAddr, created: Instant)
    ensures Origin(h, t) == Some((ip, created)) <==> exists i: nat :: CreatedAt(h, t, ip, created, i)
  {
    if h == [] {
    } else {
      var f := Front(h);
      OriginIs(f, t, ip, created);
      if Creates(Last(h), t) && Last(h).call.ip == ip && Last(h).call.createdAt == created {
        assert CreatedAt(h, t, ip, created, |h| - 1);
      } else if !Creates(Last(h), t) && !Ends(Last(h), t) {
        if i: nat :| CreatedAt(f, t, ip, created, i) {
          assert CreatedAt(h, t, ip, created, i);
        }
        if i: nat :| CreatedAt(h, t, ip, created, i) {
          assert CreatedAt(f, t, ip, created, i);
        }
      }
    }
  }

  ghost predicate AccessedAt(h: Log, t: Token, at: Instant, i: nat) {
    && i < |h| && Accesses(h[i], t) && h[i].call.accessedAt == at
    && forall j :: i < j < |h| ==> !Accesses(h[j], t)
  }

  lemma {:induction false} LatestAccessIs(h: Log, t: Token, at: Instant)
    ensures LatestAccess(h, t) == Some(at) <==> exists i: nat :: AccessedAt(h, t, at, i)
  {
    if h == [] {
    } else {
      var f := Front(h);
      LatestAccessIs(f, t, at);
      if Accesses(Last(h), t) && Last(h).call.accessedAt == at {
        assert AccessedAt(h, t, at, |h| - 1);
      } else if !Accesses(Last(h), t) {
        if i: nat :| AccessedAt(f, t, at, i) {
          assert AccessedAt(h, t, at, i);
        }
        if i: nat :| AccessedAt(h, t, at, i) {
          assert AccessedAt(f, t, at, i);
        }
      }
    }
  }

  function FirstReading(c: Call): Instant
    requires c.CreateOrAuthorize? || c.Authorized?
  {
    if c.CreateOrAuthorize? then c.prunedAt else c.checkedAt
  }

  /** Every access but the creation finds the session less than 24 hours old and less than the idle
      lifetime after the access before it: no sequence of calls carries it over either limit. */
  lemma AccessNeedsLiveSession(w: World, c: Call, idle: nat, t: Token)
    requires Inv(w, idle) && Possible(w, c, idle)
    requires var d := Record(w.store, c, idle); Accesses(d, t) && !Creates(d, t)
    ensures Unexpired(w.log, t, FirstReading(c), idle) && Origin(w.log, t).value.0 == c.ip
  {
    assert OkBefore(w, idle, t);
  }

  ghost predicate AccessOk(h: Log, j: nat, t: Token, idle: nat)
    requires j < |h|
  {
    Accesses(h[j], t) && !Creates(h[j], t) ==>
      && Unexpired(h[..j], t, FirstReading(h[j].call), idle)
      && Origin(h[..j], t).value.0 == h[j].call.ip
  }

  /** Every access in the log but a creation found its session alive. */
  ghost predicate AccessesOk(h: Log, idle: nat) {
    forall j: nat, t :: j < |h| ==> AccessOk(h, j, t, idle)
  }

  lemma StepAccessesOk(w: World, c: Call, idle: nat)
    requires Inv(w, idle) && Possible(w, c, idle) && AccessesOk(w.log, idle)
    ensures AccessesOk(Next(w, c, idle).log, idle)
  {
    var h, d := w.log, Record(w.store, c, idle);
    forall j: nat, t | j < |h + [d]| ensures AccessOk(h + [d], j, t, idle) {
      if j < |h| {
        assert AccessOk(h, j, t, idle);
        assert (h + [d])[..j] == h[..j];
      } else if Accesses(d, t) && !Creates(d, t) {
        AccessNeedsLiveSession(w, c, idle, t);
        assert (h + [d])[..j] == h;
      }
    }
  }

  lemma {:induction false} RunAccessesOk(w: World, cs: seq<Call>, idle: nat)
    requires Inv(w, idle) && ValidRun(w, cs, idle) && AccessesOk(w.log, idle)
    ensures AccessesOk(Run(w, cs, idle).log, idle)
    decreases |cs|
  {
    if cs == [] {
    } else {
      StepAccessesOk(w, cs[0], idle);
      StepKeeps(w, cs[0], idle);
      RunAccessesOk(Next(w, cs[0], idle), cs[1..], idle);
    }
  }

  /** Over the whole log of any run: between two successive accesses of a session, up to the clock reading that decides the
      later one, less than the idle lifetime passes; less than 24 hours have passed since its creation, from the same address;
      and nothing has ended it in between. */
  lemma AccessesNeverGap(cs: seq<Call>, idle: nat, t: Token, i: nat, j: nat)
    requires ValidRun(EMPTY, cs, idle)
    requires var h := Run(EMPTY, cs, idle).log;
      && i < j < |h| && Accesses(h[i], t) && Accesses(h[j], t) && !Creates(h[j], t)
      && forall m :: i < m < j ==> !Accesses(h[m], t)
    ensures var h := Run(EMPTY, cs, idle).log;
      && Since(FirstReading(h[j].call), h[i].call.accessedAt) < idle
      && exists c: nat :: (
           && c <= i && h[c].call.CreateOrAuthorize? && CreatedAt(h[..j], t, h[j].call.ip, h[c].call.createdAt, c)
           && Since(FirstReading(h[j].call), h[c].call.createdAt) < 86_400_000_000_000)
  {
    EmptyOk(idle);
    RunAccessesOk(EMPTY, cs, idle);
    AccessesApart(Run(EMPTY, cs, idle).log, idle, t, i, j);
  }

  lemma AccessesApart(h: Log, idle: nat, t: Token, i: nat, j: nat)
    requires i < j < |h| && AccessOk(h, j, t, idle) && Accesses(h[i], t) && Accesses(h[j], t) && !Creates(h[j], t)
    requires forall m :: i < m < j ==> !Accesses(h[m], t)
    ensures Since(FirstReading(h[j].call), h[i].call.accessedAt) < idle
    ensures exists c: nat :: (
      && c <= i && h[c].call.CreateOrAuthorize? && CreatedAt(h[..j], t, h[j].call.ip, h[c].call.createdAt, c)
      && Since(FirstReading(h[j].call), h[c].call.createdAt) < ABSOLUTE_LIFETIME)
  {
    var before := h[..j];
    assert AccessedAt(before, t, h[i].call.accessedAt, i);
    LatestAccessIs(before, t, h[i].call.accessedAt);
    var created := Origin(before, t).value.1;
    OriginIs(before, t, h[j].call.ip, created);
    var c: nat :| CreatedAt(before, t, h[j].call.ip, created, c);
    assert Accesses(h[c], t) && h[c].call.createdAt == created;
  }

  // ---- tokens ----

  /** An answered token was drawn by the store: just now, or earlier for this very address. */
  lemma NeverAdopted(w: World, c: Call, idle: nat, t: Token)
    requires Inv(w, idle) && Possible(w, c, idle) && Step(w.store, c, idle).1 == Issued(t)
    ensures t == c.drawn || (t in DrawnTokens(w.log) && t in w.store && w.store[t].ip == c.ip)
  {
    assert OkBefore(w, idle, t);
  }

  lemma DrawnGrows(w: World, c: Call, idle: nat)
    ensures DrawnTokens(w.log) <= DrawnTokens(Next(w, c, idle).log)
  {
    LogGrows(w.log, Record(w.store, c, idle), "");
  }

  lemma StaysOut(w: World, c: Call, idle: nat, t: Token)
    requires Possible(w, c, idle) && t in DrawnTokens(w.log) && t !in w.store
    ensures t !in Step(w.store, c, idle).0
  {}

  /** A drawn token that has left the store never comes back, whatever the callers do. */
  lemma {:induction false} NeverReturns(w: World, cs: seq<Call>, idle: nat, t: Token)
    requires ValidRun(w, cs, idle) && t in DrawnTokens(w.log) && t !in w.store
    ensures t !in Run(w, cs, idle).store && t in DrawnTokens(Run(w, cs, idle).log)
    decreases |cs|
  {
    if cs == [] {
    } else {
      DrawnGrows(w, cs[0], idle);
      StaysOut(w, cs[0], idle, t);
      NeverReturns(Next(w, cs[0], idle), cs[1..], idle, t);
    }
  }

  lemma AbsentIsRefused(m: Store, c: Call, idle: nat, t: Token)
    requires t !in m && (c.Authorized? ==> c.token == Some(t)) && (c.CreateOrAuthorize? ==> c.drawn != t)
    ensures Step(m, c, idle).1 != Issued(t)
    ensures c.Authorized? ==> Step(m, c, idle).1 == Allowed(false)
  {}

  lemma RevokedStaysOut(w: World, cs: seq<Call>, idle: nat, t: Token)
    requires t in DrawnTokens(w.log) && ValidRun(Next(w, RevokeAll, idle), cs, idle)
    ensures var w' := Run(Next(w, RevokeAll, idle), cs, idle); t !in w'.store && t in DrawnTokens(w'.log)
  {
    DrawnGrows(w, RevokeAll, idle);
    NeverReturns(Next(w, RevokeAll, idle), cs, idle, t);
  }

  lemma DrawnIsNotRedrawn(w: World, c: Call, idle: nat, t: Token)
    requires Possible(w, c, idle) && t in DrawnTokens(w.log) && c.CreateOrAuthorize?
    ensures c.drawn != t
  {}

  /** After revoke-all no token issued earlier authorizes anything, in any continuation. */
  lemma RevokedForever(w: World, cs: seq<Call>, c: Call, idle: nat, t: Token)
    requires t in DrawnTokens(w.log)
    requires ValidRun(Next(w, RevokeAll, idle), cs, idle)
    requires var w' := Run(Next(w, RevokeAll, idle), cs, idle);
      Possible(w', c, idle) && (c.Authorized? ==> c.token == Some(t))
    ensures var w' := Run(Next(w, RevokeAll, idle), cs, idle);
      && t !in w'.store
      && Step(w'.store, c, idle).1 != Issued(t)
      && (c.Authorized? ==> Step(w'.store, c, idle).1 == Allowed(false))
  {
    var w' := Run(Next(w, RevokeAll, idle), cs, idle);
    RevokedStaysOut(w, cs, idle, t);
    if c.CreateOrAuthorize? {
      DrawnIsNotRedrawn(w', c, idle, t);
    }
    AbsentIsRefused(w'.store, c, idle, t);
  }

  lemma OneStepFixed(w: World, c: Call, idle: nat, t: Token)
    requires Inv(w, idle) && Possible(w, c, idle) && t in w.store && t in Step(w.store, c, idle).0
    ensures var s, s' := w.store[t], Step(w.store, c, idle).0[t]; s'.ip == s.ip && s'.created == s.created
  {
    assert OkBefore(w, idle, t);
  }

  /** No sequence of calls moves a session to another address or makes it younger. */
  lemma {:induction false} OriginFixed(w: World, cs: seq<Call>, idle: nat, t: Token)
    requires Inv(w, idle) && ValidRun(w, cs, idle) && t in w.store && t in Run(w, cs, idle).store
    ensures var s, s' := w.store[t], Run(w, cs, idle).store[t]; s'.ip == s.ip && s'.created == s.created
    decreases |cs|
  {
    if cs == [] {
    } else {
      assert OkBefore(w, idle, t);
      StepKeeps(w, cs[0], idle);
      DrawnGrows(w, cs[0], idle);
      var next := Next(w, cs[0], idle);
      if t in next.store {
        OneStepFixed(w, cs[0], idle, t);
        OriginFixed(next, cs[1..], idle, t);
      } else {
        NeverReturns(next, cs[1..], idle, t);
      }
    }
  }

  // ---- eviction and revocation ----

  /** A creation removes the expired sessions, and one more only when 1024 unexpired ones remain:
      one that nobody else's last access is older than. */
  lemma CreationEvicts(w: World, c: Call, idle: nat, t: Token)
    requires Inv(w, idle) && Possible(w, c, idle) && c.CreateOrAuthorize? && t in w.store
    ensures var live := Prune(w.store, c.prunedAt, idle);
      t !in Step(w.store, c, idle).0 <==>
        || w.store[t].created + 86_400_000_000_000 <= c.prunedAt
        || w.store[t].accessed + idle <= c.prunedAt
        || idle == 0
        || (t == c.victim && |live| == 1024 && !Reuses(live, c)
            && forall u :: u in live ==> w.store[t].accessed <= w.store[u].accessed)
  {
    assert OkBefore(w, idle, t);
    KeysBound(Prune(w.store, c.prunedAt, idle), w.store);
  }

  /** `authorized` removes a session exactly when it is the one it asks about and it has expired: 24 hours old, or idle for the
      idle lifetime. It changes nothing else but the access time of a session it lets through. */
  lemma AuthorizedRemovesExpired(m: Store, c: Call, idle: nat, t: Token)
    requires c.Authorized? && t in m
    ensures var (m', answer) := Step(m, c, idle);
      && m'.Keys <= m.Keys
      && (t !in m' <==>
            && c.token == Some(t)
            && (m[t].created + 86_400_000_000_000 <= c.checkedAt || m[t].accessed + idle <= c.checkedAt || idle == 0))
      && (t in m' ==>
            m'[t] == if c.token == Some(t) && answer == Allowed(true) then m[t].(accessed := c.accessedAt) else m[t])
  {}

  /** `revoke_share` counts the sessions that held the share, leaves none, and touches nothing else. */
  lemma RevokeShareExactly(m: Store, share: ShareId, idle: nat)
    ensures var (m', answer) := Step(m, RevokeShare(share), idle);
      && answer == Counted(|Holders(m, share)|)
      && Holders(m', share) == {}
      && m'.Keys == m.Keys
      && forall t, other :: t in m && other != share ==>
           Get(m'[t].grants, other) == Get(m[t].grants, other) && m'[t].(grants := m[t].grants) == m[t]
  {}

  /** `revoke_all` leaves no session and counts as many as it removed. */
  lemma RevokeAllExactly(m: Store, idle: nat)
    ensures var (m', answer) := Step(m, RevokeAll, idle); m' == map[] && answer == Counted(|m.Keys|)
  {
    assert |m.Keys| == |m|;
  }
}
