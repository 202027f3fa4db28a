/**
  Pairing, device login, refresh rotation and revocation (crates/identity/src/pairing.rs, device.rs,
  session.rs, refresh.rs; crates/public-api/src/credentials.rs, devices.rs), as one store whose handlers
  commit or roll back.

  A minted secret is a fresh value and stands for its digest: a link and a pairing code are keyed by
  theirs. A rotation is two steps, because it reads the session before it writes it while only the link
  is locked; every other transaction holds the lock that makes it one step.
*/
module Identity {
  import opened Common

  const DEVICE_SESSION_TTL: int := 3600 * SECOND
  const REFRESH_TTL: int := 30 * 24 * 3600 * SECOND
  const PAIRING_CODE_TTL: int := 600 * SECOND
  const ATTEMPT_LIMIT: nat := 5

  datatype DeviceKind = Mobile | BrowserExtension | ExportAgent | ObsidianPlugin | SiteDeployer

  datatype SessionKind = Browser | DeviceBound | TelegramMiniApp | Service | ApiToken | SiteOwner

  /** One row of `identity.registered_devices`; `grantedBy` is history: the code that paired it. */
  datatype Device = Device(user: Uuid, kind: DeviceKind, site: Option<string>, secret: Uuid,
                           createdAt: Instant, revokedAt: Option<Instant>, grantedBy: Uuid)

  datatype Session = Session(user: Uuid, kind: SessionKind, device: Option<Uuid>, token: Uuid,
                             issuedAt: Instant, expiresAt: Instant, revokedAt: Option<Instant>)

  datatype Link = Link(session: Uuid, issuedAt: Instant, expiresAt: Instant,
                       consumedAt: Option<Instant>, replacedBy: Option<Uuid>)

  datatype Code = Code(user: Uuid, kind: Option<DeviceKind>, site: Option<string>, createdAt: Instant,
                       expiresAt: Instant, failedAttempts: nat, supersededAt: Option<Instant>,
                       consumedAt: Option<Instant>, consumedBy: Option<Uuid>)

  /** What a rotation decided when it read the locked link and its session. */
  datatype Verdict = Proceeds | Replayed

  /** An open rotation: it holds the lock of its link. */
  datatype Rotation = Rotation(link: Uuid, now: Instant, verdict: Verdict)

  /** The tables, the open rotations, and for each session the links it was given, oldest first. */
  datatype Db = Db(
    devices: map<Uuid, Device>, sessions: map<Uuid, Session>, links: map<Uuid, Link>, codes: map<Uuid, Code>,
    rotations: map<nat, Rotation>, chains: map<Uuid, seq<Uuid>>, minted: Uuid)

  datatype Refusal = Unknown | Expired | SessionNotLive | Replay | NotAccepted | Unauthenticated | NotFound
                   | StatementRefused

  function Empty(): Db {
    Db(map[], map[], map[], map[], map[], map[], 0)
  }

  /** Whether a session authenticates at `now`. */
  predicate LiveAt(s: Session, now: Instant) {
    s.revokedAt.None? && now < s.expiresAt
  }

  predicate PendingCode(c: Code) {
    c.supersededAt.None? && c.consumedAt.None?
  }

  // ---------------------------------------------------------------------------------------------
  // What each transaction commits
  // ---------------------------------------------------------------------------------------------

  predicate CanCreateCode(db: Db, user: Uuid, kind: Option<DeviceKind>, site: Option<string>, now: Instant) {
    && (kind == Some(SiteDeployer) <==> site.Some?)
    && (forall c | c in db.codes && db.codes[c].user == user && PendingCode(db.codes[c]) :: db.codes[c].createdAt <= now)
  }

  /** The owner's pending codes set aside. */
  function Superseded(codes: map<Uuid, Code>, user: Uuid, now: Instant): map<Uuid, Code> {
    map c | c in codes ::
      if codes[c].user == user && PendingCode(codes[c]) then codes[c].(supersededAt := Some(now)) else codes[c]
  }

  function CodeCreated(db: Db, user: Uuid, kind: Option<DeviceKind>, site: Option<string>, now: Instant): Db {
    db.(codes := Superseded(db.codes, user, now)[db.minted :=
          Code(user, kind, site, now, now + PAIRING_CODE_TTL, 0, None, None, None)],
        minted := db.minted + 1)
  }

  /** Whether the code refuses the kind a device declares. */
  predicate KindRefused(c: Code, declared: DeviceKind) {
    if c.kind.Some? then c.kind.value != declared else declared.SiteDeployer?
  }

  predicate Redeemable(db: Db, code: Uuid, declared: DeviceKind, now: Instant) {
    && code in db.codes && PendingCode(db.codes[code]) && now < db.codes[code].expiresAt
    && db.codes[code].failedAttempts < ATTEMPT_LIMIT && !KindRefused(db.codes[code], declared)
  }

  /** A session of `device` and the first link of its chain. */
  function SessionOpened(db: Db, user: Uuid, device: Uuid, now: Instant): Db {
    var session, link, token := db.minted, db.minted + 1, db.minted + 2;
    db.(sessions := db.sessions[session :=
          Session(user, DeviceBound, Some(device), token, now, now + DEVICE_SESSION_TTL, None)],
        links := db.links[link := Link(session, now, now + REFRESH_TTL, None, None)],
        chains := db.chains[session := [link]],
        minted := db.minted + 3)
  }

  /** The device registered and the code consumed. */
  function Registered(db: Db, code: Uuid, declared: DeviceKind, now: Instant): Db
    requires code in db.codes
  {
    var c := db.codes[code];
    var device, secret := db.minted, db.minted + 1;
    db.(devices := db.devices[device := Device(c.user, declared, c.site, secret, now, None, code)],
        codes := db.codes[code := c.(consumedAt := Some(now), consumedBy := Some(device))],
        minted := db.minted + 2)
  }

  function Redeemed(db: Db, code: Uuid, declared: DeviceKind, now: Instant): Db
    requires code in db.codes
  {
    SessionOpened(Registered(db, code, declared, now), db.codes[code].user, db.minted, now)
  }

  predicate Authenticates(db: Db, device: Uuid, secret: Uuid) {
    device in db.devices && db.devices[device].revokedAt.None? && db.devices[device].secret == secret
  }

  /** What presenting a link at `now` decides, from the link and its session as read. */
  function Presented(db: Db, link: Uuid, now: Instant): Result<Verdict, Refusal> {
    if link !in db.links || db.links[link].session !in db.sessions then Err(Unknown)
    else
      var l, s := db.links[link], db.sessions[db.links[link].session];
      if l.consumedAt.Some? then Ok(Replayed)
      else if l.expiresAt <= now then Err(Expired)
      else if s.revokedAt.Some? || s.expiresAt <= now then Err(SessionNotLive)
      else Ok(Proceeds)
  }

  predicate Locked(db: Db, link: Uuid) {
    exists t | t in db.rotations :: db.rotations[t].link == link
  }

  predicate CanBegin(db: Db, t: nat, link: Uuid, now: Instant) {
    t !in db.rotations && !Locked(db, link) && Presented(db, link, now).Ok?
  }

  predicate MayRevoke(s: Session, now: Instant) {
    s.revokedAt.Some? || s.issuedAt <= now
  }

  function RevokedAt(s: Session, now: Instant): Session {
    if s.revokedAt.None? then s.(revokedAt := Some(now)) else s
  }

  /** Whether the statements of the second half of a rotation all succeed. */
  predicate CanFinish(db: Db, t: nat) {
    && t in db.rotations && db.rotations[t].link in db.links
    && db.links[db.rotations[t].link].session in db.sessions
    && var r := db.rotations[t];
       var l := db.links[r.link];
       var s := db.sessions[l.session];
       match r.verdict
       case Replayed => MayRevoke(s, r.now)
       case Proceeds => l.issuedAt <= r.now && s.issuedAt < r.now + DEVICE_SESSION_TTL && s.revokedAt.None?
  }

  function Burned(db: Db, session: Uuid, now: Instant): Db
    requires session in db.sessions
  {
    db.(sessions := db.sessions[session := RevokedAt(db.sessions[session], now)])
  }

  /** The link spent, its successor issued and the session's credential and expiry swapped. */
  function Rotated(db: Db, link: Uuid, now: Instant): Db
    requires link in db.links && db.links[link].session in db.sessions
  {
    var session := db.links[link].session;
    var successor, token := db.minted, db.minted + 1;
    db.(links := db.links[link := db.links[link].(consumedAt := Some(now), replacedBy := Some(successor))]
                         [successor := Link(session, now, now + REFRESH_TTL, None, None)],
        sessions := db.sessions[session :=
          db.sessions[session].(token := token, expiresAt := now + DEVICE_SESSION_TTL)],
        chains := db.chains[session := Chain(db, session) + [successor]],
        minted := db.minted + 2)
  }

  function Chain(db: Db, session: Uuid): seq<Uuid> {
    if session in db.chains then db.chains[session] else []
  }

  /** The end of a rotation: it commits what it may, or everything is dropped. */
  function Finished(db: Db, t: nat, commits: bool): Db
    requires t in db.rotations
  {
    var open, r := db.(rotations := db.rotations - {t}), db.rotations[t];
    if !commits || !CanFinish(db, t) then open
    else if r.verdict.Replayed? then Burned(open, db.links[r.link].session, r.now)
    else Rotated(open, r.link, r.now)
  }

  /** Every session that satisfies the statement's condition revoked, unless a CHECK refuses one. */
  predicate CanRevokeAll(db: Db, user: Option<Uuid>, device: Option<Uuid>, now: Instant) {
    forall s | s in db.sessions && Matches(db.sessions[s], user, device) :: MayRevoke(db.sessions[s], now)
  }

  predicate Matches(s: Session, user: Option<Uuid>, device: Option<Uuid>) {
    (user.None? || user.value == s.user) && (device.None? || s.device == device)
  }

  function RevokeMatching(db: Db, user: Option<Uuid>, device: Option<Uuid>, now: Instant): Db {
    db.(sessions := map s | s in db.sessions ::
          if Matches(db.sessions[s], user, device) then RevokedAt(db.sessions[s], now) else db.sessions[s])
  }

  predicate CanRevokeDevice(db: Db, actor: Uuid, device: Uuid, now: Instant) {
    && device in db.devices && db.devices[device].user == actor && db.devices[device].revokedAt.None?
    && db.devices[device].createdAt <= now && CanRevokeAll(db, None, Some(device), now)
  }

  function DeviceRevoked(db: Db, device: Uuid, now: Instant): Db
    requires device in db.devices
  {
    RevokeMatching(db.(devices := db.devices[device := db.devices[device].(revokedAt := Some(now))]),
                   None, Some(device), now)
  }

  // ---------------------------------------------------------------------------------------------
  // Events
  // ---------------------------------------------------------------------------------------------

  datatype Event =
    | CreateCode(user: Uuid, kind: Option<DeviceKind>, site: Option<string>, now: Instant)
    | Redeem(code: Uuid, declared: DeviceKind, now: Instant)
    | OpenSession(device: Uuid, secret: Uuid, now: Instant)
    | OpenOther(user: Uuid, sessionKind: SessionKind, now: Instant, expiresAt: Instant)
    | BeginRotation(t: nat, link: Uuid, now: Instant)
    | EndRotation(t: nat, commits: bool)
    | RevokeSession(session: Uuid, now: Instant)
    | RevokeUser(user: Uuid, now: Instant)
    | RevokeDevice(actor: Uuid, device: Uuid, now: Instant)

  /** The effect of one event; one that is refused, rolled back or blocked changes nothing. */
  function Step(db: Db, e: Event): Db {
    match e
    case CreateCode(user, kind, site, now) =>
      if CanCreateCode(db, user, kind, site, now) then CodeCreated(db, user, kind, site, now) else db
    case Redeem(code, declared, now) =>
      if Redeemable(db, code, declared, now) && db.codes[code].createdAt <= now
      then Redeemed(db, code, declared, now) else db
    case OpenSession(device, secret, now) =>
      if Authenticates(db, device, secret) then SessionOpened(db, db.devices[device].user, device, now) else db
    case OpenOther(user, kind, now, expiresAt) =>
      if kind.DeviceBound? || expiresAt <= now then db
      else db.(sessions := db.sessions[db.minted := Session(user, kind, None, db.minted + 1, now, expiresAt, None)],
               minted := db.minted + 2)
    case BeginRotation(t, link, now) =>
      if CanBegin(db, t, link, now)
      then db.(rotations := db.rotations[t := Rotation(link, now, Presented(db, link, now).value)]) else db
    case EndRotation(t, commits) => if t in db.rotations then Finished(db, t, commits) else db
    case RevokeSession(session, now) =>
      if session in db.sessions && MayRevoke(db.sessions[session], now) then Burned(db, session, now) else db
    case RevokeUser(user, now) =>
      if CanRevokeAll(db, Some(user), None, now) then RevokeMatching(db, Some(user), None, now) else db
    case RevokeDevice(actor, device, now) =>
      if CanRevokeDevice(db, actor, device, now) then DeviceRevoked(db, device, now) else db
  }

  function Run(db: Db, events: seq<Event>): Db
    decreases |events|
  {
    if events == [] then db else Run(Step(db, events[0]), events[1..])
  }
}
