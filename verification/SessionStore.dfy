/** The store object: the methods of `src/session.rs` updating the session map in place. Each one takes
    the step of its call, so the object carries its log, and `Valid` ties the map to that log. */
module SessionStoreObject {
  import opened Common
  import opened Sessions
  import opened SessionHistory

  /** Half way through `revoke_share`: the sessions in `rest` are still to be visited. */
  ghost predicate HalfStripped(before: Store, m: Store, rest: set<Token>, share: ShareId) {
    && rest <= before.Keys && m.Keys == before.Keys
    && forall t :: t in before ==> m[t] == if t in rest then before[t] else WithoutGrant(before[t], share)
  }

  lemma StripsOne(before: Store, m: Store, rest: set<Token>, t: Token, share: ShareId)
    requires HalfStripped(before, m, rest, share) && t in rest
    ensures share in m[t].grants ==> HalfStripped(before, m[t := WithoutGrant(m[t], share)], rest - {t}, share)
    ensures share !in m[t].grants ==> HalfStripped(before, m, rest - {t}, share)
  {
    if share !in m[t].grants {
      assert m[t].grants - {share} == m[t].grants;
    }
  }

  lemma CountsOne(before: Store, rest: set<Token>, t: Token, share: ShareId)
    requires rest <= before.Keys && t in rest
    ensures |Holders(before, share) - (rest - {t})| ==
      |Holders(before, share) - rest| + (if share in before[t].grants then 1 else 0)
  {
    var seen := Holders(before, share) - rest;
    assert t !in seen;
    assert Holders(before, share) - (rest - {t}) == if share in before[t].grants then seen + {t} else seen;
  }

  class SessionStore {
    var sessions: Store
    ghost var log: Log
    ghost var clock: Instant
    /** The idle lifetime, fixed by the settings the gateway runs with. */
    const idle: nat

    ghost function View(): World
      reads this
    {
      World(sessions, log, clock)
    }

    ghost predicate Valid()
      reads this
    {
      Inv(View(), idle)
    }

    constructor (idle: nat)
      ensures Valid() && View() == EMPTY && this.idle == idle
    {
      sessions, log, clock := map[], [], 0;
      this.idle := idle;
    }

    /** A session with the least last access, if there is any. */
    method Oldest() returns (oldest: Option<Token>)
      ensures oldest.None? <==> sessions == map[]
      ensures oldest.Some? ==> IsOldest(sessions, oldest.value)
    {
      oldest := None;
      var rest := sessions.Keys;
      while rest != {}
        invariant rest <= sessions.Keys
        invariant oldest.Some? ==> oldest.value in sessions
        invariant forall t :: t in sessions && t !in rest ==>
          oldest.Some? && sessions[oldest.value].accessed <= sessions[t].accessed
        decreases rest
      {
        var t :| t in rest;
        if oldest.None? || sessions[t].accessed < sessions[oldest.value].accessed {
          oldest := Some(t);
        }
        rest := rest - {t};
      }
    }

    /** The map part of `create_or_authorize`, after its sweep. */
    method CreateSweptInPlace(existing: Option<Token>, ip: IpAddr, share: ShareId, revision: nat,
                              createdAt: Instant, accessedAt: Instant, drawn: Token)
      returns (token: Token, ghost victim: Token)
      modifies this`sessions
      ensures forall prunedAt ::
        var c := Call.CreateOrAuthorize(existing, ip, share, revision, prunedAt, createdAt, accessedAt, drawn, victim);
        && (sessions, Issued(token)) == CreateSwept(old(sessions), c)
        && (Evicts(old(sessions), c) ==> IsOldest(old(sessions), victim))
    {
      victim := drawn;
      if existing.Some? && existing.value in sessions && sessions[existing.value].ip == ip {
        token := existing.value;
        var session := sessions[token];
        sessions := sessions[token := session.(grants := session.grants[share := revision], accessed := accessedAt)];
        return;
      }
      if |sessions| >= MAX_SESSIONS {
        var oldest := Oldest();
        if oldest.Some? {
          victim := oldest.value;
          sessions := sessions - {oldest.value};
        }
      }
      token := drawn;
      sessions := sessions[token := Session(map[share := revision], ip, createdAt, accessedAt)];
    }

    method CreateOrAuthorize(existing: Option<Token>, ip: IpAddr, share: ShareId, revision: nat,
                             prunedAt: Instant, createdAt: Instant, accessedAt: Instant, drawn: Token)
      returns (token: Token)
      requires Valid() && clock <= prunedAt <= createdAt <= accessedAt && drawn !in DrawnTokens(log)
      modifies this
      ensures Valid()
      ensures exists victim :: (
        var c := Call.CreateOrAuthorize(existing, ip, share, revision, prunedAt, createdAt, accessedAt, drawn, victim);
        Possible(old(View()), c, idle) && View() == Next(old(View()), c, idle))
      ensures token ==
        if existing.Some? && Unexpired(old(log), existing.value, prunedAt, idle) && Origin(old(log), existing.value).value.0 == ip
        then existing.value else drawn
    {
      ghost var w := View();
      sessions := map t | t in sessions && Live(sessions[t], prunedAt, idle) :: sessions[t];
      assert sessions == Prune(w.store, prunedAt, idle);
      ghost var victim;
      token, victim := CreateSweptInPlace(existing, ip, share, revision, createdAt, accessedAt, drawn);
      ghost var c := Call.CreateOrAuthorize(existing, ip, share, revision, prunedAt, createdAt, accessedAt, drawn, victim);
      log, clock := log + [Sessions.Record(w.store, c, idle)], accessedAt;
      assert Possible(w, c, idle) && View() == Next(w, c, idle);
      StepKeeps(w, c, idle);
      ReusedExactly(w, c, idle);
    }

    method Authorized(token: Option<Token>, ip: IpAddr, share: ShareId, revision: nat, checkedAt: Instant, accessedAt: Instant)
      returns (ok: bool)
      requires Valid() && clock <= checkedAt <= accessedAt
      modifies this
      ensures Valid()
      ensures View() == Next(old(View()), Call.Authorized(token, ip, share, revision, checkedAt, accessedAt), idle)
      ensures ok <==> token.Some? && HistoryAllows(old(log), token.value, ip, share, revision, checkedAt, idle)
    {
      ghost var w := View();
      ghost var c := Call.Authorized(token, ip, share, revision, checkedAt, accessedAt);
      AuthorizedExactly(w, c, idle);
      StepKeeps(w, c, idle);
      ok := AuthorizedInPlace(token, ip, share, revision, checkedAt, accessedAt);
      log, clock := log + [Sessions.Record(w.store, c, idle)], accessedAt;
    }

    method AuthorizedInPlace(token: Option<Token>, ip: IpAddr, share: ShareId, revision: nat,
                             checkedAt: Instant, accessedAt: Instant) returns (ok: bool)
      modifies this`sessions
      ensures (sessions, Allowed(ok)) ==
        AuthorizedStep(old(sessions), Call.Authorized(token, ip, share, revision, checkedAt, accessedAt), idle)
    {
      if token.None? {
        return false;
      }
      var t := token.value;
      if t in sessions
         && (Since(checkedAt, sessions[t].created) >= ABSOLUTE_LIFETIME || Since(checkedAt, sessions[t].accessed) >= idle) {
        sessions := sessions - {t};
      }
      if t !in sessions {
        return false;
      }
      if sessions[t].ip != ip || Get(sessions[t].grants, share) != Some(revision) {
        return false;
      }
      sessions := sessions[t := sessions[t].(accessed := accessedAt)];
      ok := true;
    }

    method LockShare(token: Option<Token>, share: ShareId)
      requires Valid()
      modifies this
      ensures Valid() && View() == Next(old(View()), Call.LockShare(token, share), idle)
    {
      ghost var w, c := View(), Call.LockShare(token, share);
      StepKeeps(w, c, idle);
      if token.Some? && token.value in sessions {
        var session := sessions[token.value];
        sessions := sessions[token.value := session.(grants := session.grants - {share})];
      }
      log := log + [Sessions.Record(w.store, c, idle)];
    }

    method Logout(token: Option<Token>)
      requires Valid()
      modifies this
      ensures Valid() && View() == Next(old(View()), Call.Logout(token), idle)
    {
      ghost var w, c := View(), Call.Logout(token);
      StepKeeps(w, c, idle);
      if token.Some? {
        sessions := sessions - {token.value};
      }
      log := log + [Sessions.Record(w.store, c, idle)];
    }

    /** The loop of `revoke_share`: visits every session once, in any order, and counts the grants removed. */
    method StripInPlace(share: ShareId) returns (revoked: nat)
      modifies this`sessions
      ensures sessions == StripShare(old(sessions), share)
      ensures revoked == |Holders(old(sessions), share)|
    {
      revoked := 0;
      var before, rest := sessions, sessions.Keys;
      while rest != {}
        invariant HalfStripped(before, sessions, rest, share)
        invariant revoked == |Holders(before, share) - rest|
        decreases rest
      {
        var t :| t in rest;
        StripsOne(before, sessions, rest, t, share);
        CountsOne(before, rest, t, share);
        if share in sessions[t].grants {
          sessions := sessions[t := WithoutGrant(sessions[t], share)];
          revoked := revoked + 1;
        }
        rest := rest - {t};
      }
      assert sessions == StripShare(before, share);
      assert Holders(before, share) - rest == Holders(before, share);
    }

    method RevokeShare(share: ShareId) returns (revoked: nat)
      requires Valid()
      modifies this
      ensures Valid() && View() == Next(old(View()), Call.RevokeShare(share), idle)
      ensures revoked == |Holders(old(sessions), share)| && Holders(sessions, share) == {}
    {
      ghost var w, c := View(), Call.RevokeShare(share);
      StepKeeps(w, c, idle);
      revoked := StripInPlace(share);
      log := log + [Sessions.Record(w.store, c, idle)];
    }

    method RevokeAll() returns (count: nat)
      requires Valid()
      modifies this
      ensures Valid() && View() == Next(old(View()), Call.RevokeAll, idle)
      ensures count == |old(sessions)| && sessions == map[]
    {
      ghost var w, c := View(), Call.RevokeAll;
      StepKeeps(w, c, idle);
      count := |sessions|;
      sessions := map[];
      log := log + [Sessions.Record(w.store, c, idle)];
    }
  }
}
