/** The session store (`src/session.rs`) on values: one function for each method, the log of calls and
    answers, and what a log says about a token without looking at any store. */
module Sessions {
  import opened Common

  type Token = string
  type ShareId = string

  const MAX_SESSIONS: nat := 1024
  const ABSOLUTE_LIFETIME: nat := 24 * 60 * 60 * SECOND

  datatype Session = Session(grants: map<ShareId, nat>, ip: IpAddr, created: Instant, accessed: Instant)

  type Store = map<Token, Session>

  /** A call with the clock readings it makes under the lock, in order; `drawn` is the random token a
      creation would draw, `victim` the oldest session the map iteration would meet first. */
  datatype Call =
    | CreateOrAuthorize(existing: Option<Token>, ip: IpAddr, share: ShareId, revision: nat,
                        prunedAt: Instant, createdAt: Instant, accessedAt: Instant, drawn: Token, victim: Token)
    | Authorized(token: Option<Token>, ip: IpAddr, share: ShareId, revision: nat, checkedAt: Instant, accessedAt: Instant)
    | LockShare(token: Option<Token>, share: ShareId)
    | Logout(token: Option<Token>)
    | RevokeShare(share: ShareId)
    | RevokeAll

  datatype Answer = Issued(token: Token) | Allowed(ok: bool) | Counted(n: nat) | Nothing

  // ---- the methods ----

  predicate Live(s: Session, now: Instant, idle: nat) {
    Since(now, s.created) < ABSOLUTE_LIFETIME && Since(now, s.accessed) < idle
  }

  /** `prune`. */
  function Prune(m: Store, now: Instant, idle: nat): Store {
    map t | t in m && Live(m[t], now, idle) :: m[t]
  }

  ghost predicate IsOldest(m: Store, victim: Token) {
    victim in m && forall t :: t in m ==> m[victim].accessed <= m[t].accessed
  }

  predicate Reuses(m: Store, c: Call)
    requires c.CreateOrAuthorize?
  {
    c.existing.Some? && c.existing.value in m && m[c.existing.value].ip == c.ip
  }

  predicate Evicts(m: Store, c: Call)
    requires c.CreateOrAuthorize?
  {
    !Reuses(m, c) && |m| >= MAX_SESSIONS
  }

  /** `create_or_authorize` after its sweep. */
  function CreateSwept(m: Store, c: Call): (r: (Store, Answer))
    requires c.CreateOrAuthorize?
  {
    if Reuses(m, c) then
      var t := c.existing.value;
      (m[t := m[t].(grants := m[t].grants[c.share := c.revision], accessed := c.accessedAt)], Issued(t))
    else
      var room := if |m| >= MAX_SESSIONS then m - {c.victim} else m;
      (room[c.drawn := Session(map[c.share := c.revision], c.ip, c.createdAt, c.accessedAt)], Issued(c.drawn))
  }

  function Expire(m: Store, t: Token, now: Instant, idle: nat): Store {
    if t in m && !Live(m[t], now, idle) then m - {t} else m
  }

  function AuthorizedStep(m: Store, c: Call, idle: nat): (Store, Answer)
    requires c.Authorized?
  {
    if c.token.None? then (m, Allowed(false))
    else
      var t := c.token.value;
      var kept := Expire(m, t, c.checkedAt, idle);
      if t !in kept || kept[t].ip != c.ip || Get(kept[t].grants, c.share) != Some(c.revision) then (kept, Allowed(false))
      else (kept[t := kept[t].(accessed := c.accessedAt)], Allowed(true))
  }

  function WithoutGrant(s: Session, share: ShareId): Session {
    s.(grants := s.grants - {share})
  }

  /** The sessions holding a grant for `share`. */
  function Holders(m: Store, share: ShareId): set<Token> {
    set t | t in m && share in m[t].grants
  }

  function StripShare(m: Store, share: ShareId): Store {
    map t | t in m :: WithoutGrant(m[t], share)
  }

  function Step(m: Store, c: Call, idle: nat): (Store, Answer) {
    match c
    case CreateOrAuthorize(_, _, _, _, _, _, _, _, _) => CreateSwept(Prune(m, c.prunedAt, idle), c)
    case Authorized(_, _, _, _, _, _) => AuthorizedStep(m, c, idle)
    case LockShare(token, share) =>
      if token.Some? && token.value in m then (m[token.value := WithoutGrant(m[token.value], share)], Nothing)
      else (m, Nothing)
    case Logout(token) => (if token.Some? then m - {token.value} else m, Nothing)
    case RevokeShare(share) => (StripShare(m, share), Counted(|Holders(m, share)|))
    case RevokeAll => (map[], Counted(|m|))
  }

  // ---- the log ----

  /** A finished call; `evicted` names the session a creation pushed out of a full store. */
  datatype Done = Done(call: Call, answer: Answer, evicted: Option<Token>)

  function Record(m: Store, c: Call, idle: nat): Done {
    var evicted :=
      if c.CreateOrAuthorize? && Evicts(Prune(m, c.prunedAt, idle), c) then Some(c.victim) else None;
    Done(c, Step(m, c, idle).1, evicted)
  }

  /** What one finished call means for one token. */
  predicate Creates(d: Done, t: Token) {
    d.call.CreateOrAuthorize? && d.call.drawn == t && d.answer == Issued(t)
  }

  predicate Grants(d: Done, t: Token, share: ShareId) {
    d.call.CreateOrAuthorize? && d.answer == Issued(t) && d.call.share == share
  }

  predicate Accesses(d: Done, t: Token) {
    || (d.call.CreateOrAuthorize? && d.answer == Issued(t))
    || (d.call.Authorized? && d.call.token == Some(t) && d.answer == Allowed(true))
  }

  predicate Ends(d: Done, t: Token) {
    d.call == Logout(Some(t)) || d.call.RevokeAll? || d.evicted == Some(t)
  }

  predicate Withdraws(d: Done, t: Token, share: ShareId) {
    Ends(d, t) || d.call == LockShare(Some(t), share) || d.call == RevokeShare(share)
  }

  type Log = seq<Done>

  function Last(h: Log): Done
    requires h != []
  {
    h[|h| - 1]
  }

  function Front(h: Log): Log
    requires h != []
  {
    h[..|h| - 1]
  }

  /** Where and when the session of `t` was created, unless it was ended since. */
  function Origin(h: Log, t: Token): Option<(IpAddr, Instant)> {
    if h == [] then None
    else if Creates(Last(h), t) then Some((Last(h).call.ip, Last(h).call.createdAt))
    else if Ends(Last(h), t) then None
    else Origin(Front(h), t)
  }

  /** The revision of the latest grant of `share` to `t`, unless it was withdrawn since. */
  function LatestGrant(h: Log, t: Token, share: ShareId): Option<nat> {
    if h == [] then None
    else if Grants(Last(h), t, share) then Some(Last(h).call.revision)
    else if Withdraws(Last(h), t, share) then None
    else LatestGrant(Front(h), t, share)
  }

  function LatestAccess(h: Log, t: Token): Option<Instant> {
    if h == [] then None
    else if Accesses(Last(h), t) then Some(Last(h).call.accessedAt)
    else LatestAccess(Front(h), t)
  }

  /** The tokens the store ever drew. */
  function DrawnTokens(h: Log): set<Token> {
    if h == [] then {}
    else DrawnTokens(Front(h)) + (if Last(h).call.CreateOrAuthorize? && Last(h).answer == Issued(Last(h).call.drawn)
                            then {Last(h).call.drawn} else {})
  }

  predicate Unexpired(h: Log, t: Token, now: Instant, idle: nat) {
    && Origin(h, t).Some? && Since(now, Origin(h, t).value.1) < ABSOLUTE_LIFETIME
    && LatestAccess(h, t).Some? && Since(now, LatestAccess(h, t).value) < idle
  }

  /** What the log alone says about an authorization. */
  predicate HistoryAllows(h: Log, t: Token, ip: IpAddr, share: ShareId, revision: nat, now: Instant, idle: nat) {
    && Unexpired(h, t, now, idle)
    && Origin(h, t).value.0 == ip
    && LatestGrant(h, t, share) == Some(revision)
  }
}
