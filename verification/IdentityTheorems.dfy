/** What every run of pairing, login, rotation and revocation keeps. */
module IdentityTheorems {
  import opened Common
  import opened Identity

  ghost predicate Fresh(db: Db) {
    && (forall d | d in db.devices :: d < db.minted)
    && (forall s | s in db.sessions :: s < db.minted)
    && (forall l | l in db.links :: l < db.minted)
    && (forall c | c in db.codes :: c < db.minted)
  }

  /** A device session has a device of its own user, unrevoked as long as the session is. */
  ghost predicate Bound(db: Db) {
    forall s | s in db.sessions ::
      var session := db.sessions[s];
      && (session.kind.DeviceBound? <==> session.device.Some?)
      && (session.device.Some? ==>
            && session.device.value in db.devices
            && db.devices[session.device.value].user == session.user
            && (session.revokedAt.None? ==> db.devices[session.device.value].revokedAt.None?))
  }

  ghost predicate OnePending(db: Db) {
    && (forall c | c in db.codes :: db.codes[c].kind == Some(SiteDeployer) <==> db.codes[c].site.Some?)
    && (forall a, b | a in db.codes && b in db.codes && PendingCode(db.codes[a]) && PendingCode(db.codes[b])
          && db.codes[a].user == db.codes[b].user :: a == b)
  }

  /** Devices and consumed codes name each other, and the device is what the code approved. */
  ghost predicate Granted(db: Db) {
    && (forall d | d in db.devices ::
          var device := db.devices[d];
          && device.grantedBy in db.codes && db.codes[device.grantedBy].consumedBy == Some(d)
          && device.user == db.codes[device.grantedBy].user && device.site == db.codes[device.grantedBy].site
          && !KindRefused(db.codes[device.grantedBy], device.kind))
    && (forall c | c in db.codes ::
          && (db.codes[c].consumedAt.Some? <==> db.codes[c].consumedBy.Some?)
          && (db.codes[c].consumedBy.Some? ==>
                db.codes[c].consumedBy.value in db.devices && db.devices[db.codes[c].consumedBy.value].grantedBy == c))
  }

  lemma GrantingKeepsFresh(db: Db, e: Event)
    requires Fresh(db) && (e.Redeem? || e.OpenSession? || e.EndRotation?)
    ensures Fresh(Step(db, e)) && db.minted <= Step(db, e).minted
  {
  }

  lemma StepKeepsFresh(db: Db, e: Event)
    requires Fresh(db)
    ensures Fresh(Step(db, e)) && db.minted <= Step(db, e).minted
  {
    if e.Redeem? || e.OpenSession? || e.EndRotation? {
      GrantingKeepsFresh(db, e);
    }
  }

  lemma OpeningKeepsBound(db: Db, user: Uuid, device: Uuid, now: Instant)
    requires Fresh(db) && Bound(db)
    requires device in db.devices && db.devices[device].user == user && db.devices[device].revokedAt.None?
    ensures Bound(SessionOpened(db, user, device, now))
  {
  }

  lemma RedeemKeepsBound(db: Db, e: Event)
    requires Fresh(db) && Bound(db) && e.Redeem?
    ensures Bound(Step(db, e))
  {
    if Step(db, e) != db {
      OpeningKeepsBound(Registered(db, e.code, e.declared, e.now), db.codes[e.code].user, db.minted, e.now);
    }
  }

  lemma RevocationKeepsBound(db: Db, e: Event)
    requires Bound(db) && (e.RevokeDevice? || e.RevokeUser? || e.RevokeSession?)
    ensures Bound(Step(db, e))
  {
  }

  lemma StepKeepsBound(db: Db, e: Event)
    requires Fresh(db) && Bound(db)
    ensures Bound(Step(db, e))
  {
    match e {
      case Redeem(_, _, _) => RedeemKeepsBound(db, e);
      case OpenSession(device, secret, now) =>
        if Authenticates(db, device, secret) {
          OpeningKeepsBound(db, db.devices[device].user, device, now);
        }
      case RevokeSession(_, _) => RevocationKeepsBound(db, e);
      case RevokeUser(_, _) => RevocationKeepsBound(db, e);
      case RevokeDevice(_, _, _) => RevocationKeepsBound(db, e);
      case _ =>
    }
  }

  lemma StepKeepsPending(db: Db, e: Event)
    requires Fresh(db) && OnePending(db)
    ensures OnePending(Step(db, e))
  {
  }

  lemma RedeemKeepsGranted(db: Db, e: Event)
    requires Fresh(db) && Granted(db) && e.Redeem?
    ensures Granted(Step(db, e))
  {
  }

  lemma CreateKeepsGranted(db: Db, e: Event)
    requires Fresh(db) && Granted(db) && e.CreateCode?
    ensures Granted(Step(db, e))
  {
  }

  lemma RevokeKeepsGranted(db: Db, e: Event)
    requires Granted(db) && e.RevokeDevice?
    ensures Granted(Step(db, e))
  {
  }

  lemma StepKeepsGranted(db: Db, e: Event)
    requires Fresh(db) && Granted(db)
    ensures Granted(Step(db, e))
  {
    match e {
      case Redeem(_, _, _) => RedeemKeepsGranted(db, e);
      case CreateCode(_, _, _, _) => CreateKeepsGranted(db, e);
      case RevokeDevice(_, _, _) => RevokeKeepsGranted(db, e);
      case _ => assert Step(db, e).devices == db.devices && Step(db, e).codes == db.codes;
    }
  }

  // ---------------------------------------------------------------------------------------------
  // Refresh chains
  // ---------------------------------------------------------------------------------------------

  predicate Unspent(l: Link) {
    l.consumedAt.None? && l.replacedBy.None?
  }

  /** Every link but the last is spent and names the next; the last outlives the session's expiry. */
  ghost predicate ChainAt(links: map<Uuid, Link>, session: Uuid, chain: seq<Uuid>, expiresAt: Instant) {
    && chain != []
    && (forall i | 0 <= i < |chain| :: chain[i] in links && links[chain[i]].session == session)
    && (forall i, j | 0 <= i < j < |chain| :: chain[i] != chain[j])
    && (forall i | 0 <= i < |chain| - 1 ::
          links[chain[i]].consumedAt.Some? && links[chain[i]].replacedBy == Some(chain[i + 1]))
    && Unspent(links[chain[|chain| - 1]]) && expiresAt <= links[chain[|chain| - 1]].expiresAt
  }

  ghost predicate ChainsKept(db: Db) {
    && (forall s | s in db.sessions ::
          if db.sessions[s].kind.DeviceBound? then ChainAt(db.links, s, Chain(db, s), db.sessions[s].expiresAt)
          else Chain(db, s) == [])
    && (forall l | l in db.links ::
          db.links[l].session in db.sessions && l in Chain(db, db.links[l].session))
    && (forall s | s in db.chains :: s in db.sessions)
  }

  /** An open rotation holds its link alone, and the link is still as it was read. */
  ghost predicate RotationsKept(db: Db) {
    && (forall t | t in db.rotations ::
          var r := db.rotations[t];
          && r.link in db.links
          && (r.verdict.Replayed? <==> db.links[r.link].consumedAt.Some?))
    && (forall t, u | t in db.rotations && u in db.rotations && db.rotations[t].link == db.rotations[u].link :: t == u)
  }

  /** Rows other than the chain's own may change: the chain stays. */
  lemma ChainStays(links: map<Uuid, Link>, after: map<Uuid, Link>, session: Uuid, chain: seq<Uuid>, expiresAt: Instant)
    requires ChainAt(links, session, chain, expiresAt)
    requires forall l | l in links && links[l].session == session :: l in after && after[l] == links[l]
    ensures ChainAt(after, session, chain, expiresAt)
  {
  }

  lemma ChainGrows(links: map<Uuid, Link>, after: map<Uuid, Link>, session: Uuid, chain: seq<Uuid>, expiresAt: Instant,
                   link: Uuid, successor: Uuid, now: Instant)
    requires ChainAt(links, session, chain, expiresAt)
    requires link in chain && links[link].consumedAt.None? && successor !in links
    requires after == links[link := links[link].(consumedAt := Some(now), replacedBy := Some(successor))]
                           [successor := Link(session, now, now + REFRESH_TTL, None, None)]
    ensures ChainAt(after, session, chain + [successor], now + DEVICE_SESSION_TTL)
    ensures link == chain[|chain| - 1]
  {
    var i :| 0 <= i < |chain| && chain[i] == link;
    assert i == |chain| - 1;
  }

  lemma RotatedKeepsChains(db: Db, link: Uuid, now: Instant)
    requires Fresh(db) && Bound(db) && ChainsKept(db)
    requires link in db.links && db.links[link].consumedAt.None?
    ensures ChainsKept(Rotated(db, link, now))
  {
    var session := db.links[link].session;
    var after := Rotated(db, link, now);
    assert link in Chain(db, session);
    ChainGrows(db.links, after.links, session, Chain(db, session), db.sessions[session].expiresAt, link, db.minted, now);
    forall s | s in after.sessions && s != session && after.sessions[s].kind.DeviceBound?
      ensures ChainAt(after.links, s, Chain(after, s), after.sessions[s].expiresAt)
    {
      ChainStays(db.links, after.links, s, Chain(db, s), db.sessions[s].expiresAt);
    }
    forall l | l in after.links ensures after.links[l].session in after.sessions
      ensures l in Chain(after, after.links[l].session)
    {
      if l == db.minted {
        assert Chain(after, session)[|Chain(db, session)|] == l;
      } else {
        assert l in Chain(db, db.links[l].session);
      }
    }
  }

  lemma OpenedKeepsChains(db: Db, user: Uuid, device: Uuid, now: Instant)
    requires Fresh(db) && ChainsKept(db)
    ensures ChainsKept(SessionOpened(db, user, device, now))
  {
    var after := SessionOpened(db, user, device, now);
    forall s | s in after.sessions && after.sessions[s].kind.DeviceBound?
      ensures ChainAt(after.links, s, Chain(after, s), after.sessions[s].expiresAt)
    {
      if s == db.minted {
        assert Chain(after, s) == [db.minted + 1];
      } else {
        ChainStays(db.links, after.links, s, Chain(db, s), db.sessions[s].expiresAt);
      }
    }
    forall l | l in after.links ensures after.links[l].session in after.sessions
      ensures l in Chain(after, after.links[l].session)
    {
      if l != db.minted + 1 {
        assert l in Chain(db, db.links[l].session);
      }
    }
  }

  /** A step that leaves links, chains, kinds and expiries alone keeps the chains. */
  lemma UnrelatedKeepsChains(db: Db, after: Db)
    requires ChainsKept(db) && after.links == db.links && after.chains == db.chains
    requires db.sessions.Keys <= after.sessions.Keys
    requires forall s | s in db.sessions ::
      after.sessions[s].kind == db.sessions[s].kind && after.sessions[s].expiresAt == db.sessions[s].expiresAt
    requires forall s | s in after.sessions && s !in db.sessions :: !after.sessions[s].kind.DeviceBound?
    ensures ChainsKept(after)
  {
  }

  lemma RedeemKeepsChains(db: Db, e: Event)
    requires Fresh(db) && ChainsKept(db) && e.Redeem?
    ensures ChainsKept(Step(db, e))
  {
    if Step(db, e) != db {
      var registered := Registered(db, e.code, e.declared, e.now);
      UnrelatedKeepsChains(db, registered);
      OpenedKeepsChains(registered, db.codes[e.code].user, db.minted, e.now);
    }
  }

  lemma BurnedKeepsChains(db: Db, session: Uuid, now: Instant)
    requires ChainsKept(db) && session in db.sessions
    ensures ChainsKept(Burned(db, session, now))
  {
    UnrelatedKeepsChains(db, Burned(db, session, now));
  }

  lemma RevokedKeepsChains(db: Db, user: Option<Uuid>, device: Option<Uuid>, now: Instant)
    requires ChainsKept(db)
    ensures ChainsKept(RevokeMatching(db, user, device, now))
  {
    UnrelatedKeepsChains(db, RevokeMatching(db, user, device, now));
  }

  lemma DeviceRevokedKeepsChains(db: Db, device: Uuid, now: Instant)
    requires ChainsKept(db) && device in db.devices
    ensures ChainsKept(DeviceRevoked(db, device, now))
  {
    var marked := db.(devices := db.devices[device := db.devices[device].(revokedAt := Some(now))]);
    UnrelatedKeepsChains(db, marked);
    RevokedKeepsChains(marked, None, Some(device), now);
  }

  lemma EndKeepsChains(db: Db, t: nat)
    requires Fresh(db) && Bound(db) && ChainsKept(db) && RotationsKept(db) && CanFinish(db, t)
    ensures ChainsKept(Finished(db, t, true))
  {
    var open, r := db.(rotations := db.rotations - {t}), db.rotations[t];
    UnrelatedKeepsChains(db, open);
    if r.verdict.Proceeds? {
      assert Bound(open) && Fresh(open);
      RotatedKeepsChains(open, r.link, r.now);
    } else {
      BurnedKeepsChains(open, db.links[r.link].session, r.now);
    }
  }

  lemma DropKeepsChains(db: Db, t: nat)
    requires ChainsKept(db)
    ensures ChainsKept(db.(rotations := db.rotations - {t}))
  {
  }

  lemma OtherSessionKeepsChains(db: Db, session: Session)
    requires Fresh(db) && ChainsKept(db) && !session.kind.DeviceBound?
    ensures ChainsKept(db.(sessions := db.sessions[db.minted := session], minted := db.minted + 2))
  {
    UnrelatedKeepsChains(db, db.(sessions := db.sessions[db.minted := session], minted := db.minted + 2));
  }

  /** Codes and open rotations are not part of a chain. */
  lemma SameTablesKeepChains(db: Db, after: Db)
    requires ChainsKept(db)
    requires after.sessions == db.sessions && after.links == db.links && after.chains == db.chains
    ensures ChainsKept(after)
  {
    UnrelatedKeepsChains(db, after);
  }

  lemma RotationEndKeepsChains(db: Db, t: nat, commits: bool)
    requires Fresh(db) && Bound(db) && ChainsKept(db) && RotationsKept(db) && t in db.rotations
    ensures ChainsKept(Finished(db, t, commits))
  {
    if commits && CanFinish(db, t) {
      EndKeepsChains(db, t);
    } else {
      DropKeepsChains(db, t);
    }
  }

  /** The events that issue nothing. */
  lemma RevocationsKeepChains(db: Db, e: Event)
    requires ChainsKept(db) && (e.RevokeSession? || e.RevokeUser? || e.RevokeDevice?)
    ensures ChainsKept(Step(db, e))
  {
    match e {
      case RevokeSession(session, now) =>
        if session in db.sessions {
          BurnedKeepsChains(db, session, now);
        }
      case RevokeUser(user, now) => RevokedKeepsChains(db, Some(user), None, now);
      case RevokeDevice(_, device, now) =>
        if device in db.devices {
          DeviceRevokedKeepsChains(db, device, now);
        }
    }
  }

  lemma OpenSessionKeepsChains(db: Db, device: Uuid, secret: Uuid, now: Instant)
    requires Fresh(db) && ChainsKept(db)
    ensures ChainsKept(Step(db, OpenSession(device, secret, now)))
  {
    if Authenticates(db, device, secret) {
      OpenedKeepsChains(db, db.devices[device].user, device, now);
    }
  }

  lemma OpenOtherKeepsChains(db: Db, user: Uuid, kind: SessionKind, now: Instant, expiresAt: Instant)
    requires Fresh(db) && ChainsKept(db)
    ensures ChainsKept(Step(db, OpenOther(user, kind, now, expiresAt)))
  {
    if !kind.DeviceBound? {
      OtherSessionKeepsChains(db, Session(user, kind, None, db.minted + 1, now, expiresAt, None));
    }
  }

  lemma CreateCodeTouchesNoSession(db: Db, user: Uuid, kind: Option<DeviceKind>, site: Option<string>, now: Instant)
    ensures var after := Step(db, CreateCode(user, kind, site, now));
      after.sessions == db.sessions && after.links == db.links && after.chains == db.chains
  {
  }

  lemma CreateCodeKeepsChains(db: Db, user: Uuid, kind: Option<DeviceKind>, site: Option<string>, now: Instant)
    requires ChainsKept(db)
    ensures ChainsKept(Step(db, CreateCode(user, kind, site, now)))
  {
    CreateCodeTouchesNoSession(db, user, kind, site, now);
    SameTablesKeepChains(db, Step(db, CreateCode(user, kind, site, now)));
  }

  lemma BeginKeepsChains(db: Db, t: nat, link: Uuid, now: Instant)
    requires ChainsKept(db)
    ensures ChainsKept(Step(db, BeginRotation(t, link, now)))
  {
    SameTablesKeepChains(db, Step(db, BeginRotation(t, link, now)));
  }

  lemma StepKeepsChains(db: Db, e: Event)
    requires Fresh(db) && Bound(db) && ChainsKept(db) && RotationsKept(db)
    ensures ChainsKept(Step(db, e))
  {
    match e {
      case Redeem(_, _, _) => RedeemKeepsChains(db, e);
      case EndRotation(t, commits) =>
        if t in db.rotations {
          RotationEndKeepsChains(db, t, commits);
        }
      case RevokeSession(_, _) => RevocationsKeepChains(db, e);
      case RevokeUser(_, _) => RevocationsKeepChains(db, e);
      case RevokeDevice(_, _, _) => RevocationsKeepChains(db, e);
      case OpenSession(device, secret, now) => OpenSessionKeepsChains(db, device, secret, now);
      case OpenOther(user, kind, now, expiresAt) => OpenOtherKeepsChains(db, user, kind, now, expiresAt);
      case CreateCode(user, kind, site, now) => CreateCodeKeepsChains(db, user, kind, site, now);
      case BeginRotation(t, link, now) => BeginKeepsChains(db, t, link, now);
    }
  }

  lemma EndKeepsRotations(db: Db, t: nat, commits: bool)
    requires Fresh(db) && RotationsKept(db) && t in db.rotations
    ensures RotationsKept(Finished(db, t, commits))
  {
    var after := Finished(db, t, commits);
    forall u | u in after.rotations
      ensures after.rotations[u].link in after.links
      ensures after.rotations[u].verdict.Replayed? <==> after.links[after.rotations[u].link].consumedAt.Some?
    {
      assert db.rotations[u].link != db.rotations[t].link;
    }
  }

  /** A step that only adds links and opens no rotation. */
  lemma UnrelatedKeepsRotations(db: Db, after: Db)
    requires RotationsKept(db) && after.rotations == db.rotations
    requires forall l | l in db.links :: l in after.links && after.links[l] == db.links[l]
    ensures RotationsKept(after)
  {
  }

  lemma BeginKeepsRotations(db: Db, t: nat, link: Uuid, now: Instant)
    requires RotationsKept(db) && CanBegin(db, t, link, now)
    ensures RotationsKept(Step(db, BeginRotation(t, link, now)))
  {
  }

  lemma StepKeepsRotations(db: Db, e: Event)
    requires Fresh(db) && RotationsKept(db)
    ensures RotationsKept(Step(db, e))
  {
    match e {
      case EndRotation(t, commits) =>
        if t in db.rotations {
          EndKeepsRotations(db, t, commits);
        }
      case BeginRotation(t, link, now) =>
        if CanBegin(db, t, link, now) {
          BeginKeepsRotations(db, t, link, now);
        }
      case _ => UnrelatedKeepsRotations(db, Step(db, e));
    }
  }

  // ---------------------------------------------------------------------------------------------
  // Whole runs
  // ---------------------------------------------------------------------------------------------

  ghost predicate Kept(db: Db) {
    Fresh(db) && Bound(db) && OnePending(db) && Granted(db) && ChainsKept(db) && RotationsKept(db)
  }

  lemma StepKeeps(db: Db, e: Event)
    requires Kept(db)
    ensures Kept(Step(db, e))
  {
    StepKeepsFresh(db, e);
    StepKeepsBound(db, e);
    StepKeepsPending(db, e);
    StepKeepsGranted(db, e);
    StepKeepsChains(db, e);
    StepKeepsRotations(db, e);
  }

  lemma {:induction false} RunKeeps(db: Db, events: seq<Event>)
    requires Kept(db)
    ensures Kept(Run(db, events))
    decreases |events|
  {
    if events != [] {
      StepKeeps(db, events[0]);
      RunKeeps(Step(db, events[0]), events[1..]);
    }
  }

  /**
    For every interleaving of pairing, login, rotation and revocation, on any clocks: an unrevoked
    session bound to a device has an unrevoked device of the same user.
  */
  lemma DeviceCascade(events: seq<Event>, s: Uuid)
    requires s in Run(Empty(), events).sessions
    ensures var db := Run(Empty(), events);
      var session := db.sessions[s];
      && (session.kind.DeviceBound? <==> session.device.Some?)
      && (session.device.Some? ==>
            && session.device.value in db.devices && db.devices[session.device.value].user == session.user
            && (session.revokedAt.None? ==> db.devices[session.device.value].revokedAt.None?))
  {
    RunKeeps(Empty(), events);
  }

  /**
    A user has at most one pending code. A device was granted by one code, belongs to that code's
    creator, has its site and a kind it does not refuse; and a code grants at most one device.
  */
  lemma PairingGrants(events: seq<Event>, a: Uuid, b: Uuid)
    ensures var db := Run(Empty(), events);
      (a in db.codes && b in db.codes && PendingCode(db.codes[a]) && PendingCode(db.codes[b])
       && db.codes[a].user == db.codes[b].user) ==> a == b
    ensures var db := Run(Empty(), events);
      a in db.devices ==>
        var code := db.devices[a].grantedBy;
        && code in db.codes && db.codes[code].consumedBy == Some(a) && db.codes[code].consumedAt.Some?
        && db.devices[a].user == db.codes[code].user && db.devices[a].site == db.codes[code].site
        && !KindRefused(db.codes[code], db.devices[a].kind)
        && (b in db.devices && db.devices[b].grantedBy == code ==> a == b)
  {
    RunKeeps(Empty(), events);
  }

  /** Redeeming never meets the device table's rule that exactly a site deployer has a site. */
  lemma RedeemingNeverBreaksTheSiteRule(events: seq<Event>, code: Uuid, declared: DeviceKind, now: Instant)
    requires Redeemable(Run(Empty(), events), code, declared, now)
    ensures declared.SiteDeployer? <==> Run(Empty(), events).codes[code].site.Some?
  {
    RunKeeps(Empty(), events);
  }

  lemma ChainPosition(links: map<Uuid, Link>, session: Uuid, chain: seq<Uuid>, expiresAt: Instant, l: Uuid)
    requires ChainAt(links, session, chain, expiresAt) && l in chain
    ensures l in links
    ensures links[l].consumedAt.None? <==> l == chain[|chain| - 1]
    ensures links[l].replacedBy.None? <==> l == chain[|chain| - 1]
    ensures l == chain[|chain| - 1] ==> expiresAt <= links[l].expiresAt
  {
    var i :| 0 <= i < |chain| && chain[i] == l;
    if i < |chain| - 1 {
      assert chain[i] != chain[|chain| - 1];
      assert links[l].replacedBy == Some(chain[i + 1]);
      assert links[l].consumedAt.Some?;
    } else {
      assert i == |chain| - 1;
      assert Unspent(links[l]);
    }
  }

  /**
    In every reachable state the links of a device session are one chain: every one but the last is
    spent and names the next, no link is outside it, and the one unspent link is the last and outlives
    the session's own expiry.
  */
  lemma RefreshChains(events: seq<Event>, s: Uuid, l: Uuid)
    requires var db := Run(Empty(), events);
      s in db.sessions && db.sessions[s].kind.DeviceBound? && l in db.links && db.links[l].session == s
    ensures var db := Run(Empty(), events);
      var chain := Chain(db, s);
      && l in chain
      && (forall i | 0 <= i < |chain| - 1 ::
            chain[i] in db.links && db.links[chain[i]].consumedAt.Some?
            && db.links[chain[i]].replacedBy == Some(chain[i + 1]))
      && (db.links[l].consumedAt.None? <==> l == chain[|chain| - 1])
      && (db.links[l].replacedBy.None? <==> l == chain[|chain| - 1])
      && (l == chain[|chain| - 1] ==> db.sessions[s].expiresAt <= db.links[l].expiresAt)
  {
    RunKeeps(Empty(), events);
    var db := Run(Empty(), events);
    var chain := Chain(db, s);
    assert ChainAt(db.links, s, chain, db.sessions[s].expiresAt) && l in chain;
    ChainPosition(db.links, s, chain, db.sessions[s].expiresAt, l);
  }

  ghost predicate SessionsGrow(db: Db, after: Db) {
    forall s | s in db.sessions ::
      && s in after.sessions && after.sessions[s].issuedAt == db.sessions[s].issuedAt
      && after.sessions[s].device == db.sessions[s].device
      && (db.sessions[s].revokedAt.Some? ==> after.sessions[s].revokedAt == db.sessions[s].revokedAt)
  }

  ghost predicate LinksGrow(db: Db, after: Db) {
    forall l | l in db.links ::
      && l in after.links && after.links[l].session == db.links[l].session && after.links[l].issuedAt == db.links[l].issuedAt
      && (db.links[l].consumedAt.Some? ==> after.links[l] == db.links[l])
  }

  ghost predicate DevicesGrow(db: Db, after: Db) {
    forall d | d in db.devices ::
      d in after.devices && (db.devices[d].revokedAt.Some? ==> after.devices[d] == db.devices[d])
  }

  /** What no step undoes: revocations, spent links, and who belongs to whom. */
  ghost predicate Grows(db: Db, after: Db) {
    SessionsGrow(db, after) && LinksGrow(db, after) && DevicesGrow(db, after)
  }

  lemma RevocationGrowsSessions(db: Db, user: Option<Uuid>, device: Option<Uuid>, now: Instant)
    ensures SessionsGrow(db, RevokeMatching(db, user, device, now))
  {
  }

  lemma EndGrowsSessions(db: Db, t: nat, commits: bool)
    requires t in db.rotations
    ensures SessionsGrow(db, Finished(db, t, commits))
  {
  }

  lemma StepGrowsSessions(db: Db, e: Event)
    requires Fresh(db)
    ensures SessionsGrow(db, Step(db, e))
  {
    match e {
      case RevokeUser(user, now) => RevocationGrowsSessions(db, Some(user), None, now);
      case RevokeDevice(_, device, now) =>
        if device in db.devices {
          var marked := db.(devices := db.devices[device := db.devices[device].(revokedAt := Some(now))]);
          RevocationGrowsSessions(marked, None, Some(device), now);
        }
      case EndRotation(t, commits) =>
        if t in db.rotations {
          EndGrowsSessions(db, t, commits);
        }
      case _ =>
    }
  }

  lemma StepGrowsLinks(db: Db, e: Event)
    requires Fresh(db) && RotationsKept(db)
    ensures LinksGrow(db, Step(db, e))
  {
  }

  lemma StepGrowsDevices(db: Db, e: Event)
    requires Fresh(db)
    ensures DevicesGrow(db, Step(db, e))
  {
  }

  lemma StepGrows(db: Db, e: Event)
    requires Fresh(db) && RotationsKept(db)
    ensures Grows(db, Step(db, e))
  {
    StepGrowsSessions(db, e);
    StepGrowsLinks(db, e);
    StepGrowsDevices(db, e);
  }

  lemma {:induction false} RunGrows(db: Db, events: seq<Event>)
    requires Kept(db)
    ensures Grows(db, Run(db, events))
    decreases |events|
  {
    if events != [] {
      StepGrows(db, events[0]);
      StepKeeps(db, events[0]);
      RunGrows(Step(db, events[0]), events[1..]);
    }
  }

  /** Once a device is revoked, every session bound to it is revoked in every later state. */
  lemma RevokedDeviceHasNoSession(db: Db, events: seq<Event>, d: Uuid, s: Uuid)
    requires Kept(db) && d in db.devices && db.devices[d].revokedAt.Some?
    requires s in Run(db, events).sessions && Run(db, events).sessions[s].device == Some(d)
    ensures Run(db, events).sessions[s].revokedAt.Some?
  {
    RunGrows(db, events);
    RunKeeps(db, events);
  }

  predicate Names(e: Event, t: nat) {
    (e.BeginRotation? || e.EndRotation?) && e.t == t
  }

  lemma {:induction false} OthersKeepRotation(db: Db, events: seq<Event>, t: nat)
    requires t in db.rotations && forall e | e in events :: !Names(e, t)
    ensures t in Run(db, events).rotations && Run(db, events).rotations[t] == db.rotations[t]
    decreases |events|
  {
    if events != [] {
      assert events[0] in events;
      OthersKeepRotation(Step(db, events[0]), events[1..], t);
    }
  }

  lemma BurnRevokes(db: Db, t: nat, link: Uuid, s: Uuid, now: Instant)
    requires t in db.rotations && db.rotations[t] == Rotation(link, now, Replayed)
    requires link in db.links && db.links[link].session == s
    requires s in db.sessions && db.sessions[s].issuedAt <= now
    ensures var after := Step(db, EndRotation(t, true));
      s in after.sessions && after.sessions[s].revokedAt.Some? && after.links == db.links
  {
    assert CanFinish(db, t);
  }

  /** What an open presentation still finds when it comes to its end. */
  lemma PresentationStays(db: Db, t: nat, link: Uuid, s: Uuid, between: seq<Event>)
    requires Kept(db) && t in db.rotations && forall e | e in between :: !Names(e, t)
    requires link in db.links && db.links[link].consumedAt.Some? && db.links[link].session == s && s in db.sessions
    ensures var after := Run(db, between);
      && t in after.rotations && after.rotations[t] == db.rotations[t]
      && link in after.links && after.links[link] == db.links[link]
      && s in after.sessions && after.sessions[s].issuedAt == db.sessions[s].issuedAt
  {
    RunGrows(db, between);
    OthersKeepRotation(db, between, t);
  }

  lemma BeginsReplay(db: Db, t: nat, link: Uuid, now: Instant)
    requires link in db.links && db.links[link].consumedAt.Some? && CanBegin(db, t, link, now)
    ensures Step(db, BeginRotation(t, link, now)) == db.(rotations := db.rotations[t := Rotation(link, now, Replayed)])
    ensures db.links[link].session in db.sessions
  {
  }

  /**
    Presenting a spent link burns its session. Whatever commits while the presentation is open, once it
    commits the session is revoked and the link still has the one successor it had.
  */
  lemma ReplayBurns(db: Db, t: nat, link: Uuid, now: Instant, between: seq<Event>)
    requires Kept(db) && link in db.links && db.links[link].consumedAt.Some? && CanBegin(db, t, link, now)
    requires db.links[link].session in db.sessions && db.sessions[db.links[link].session].issuedAt <= now
    requires forall e | e in between :: !Names(e, t)
    ensures var begun := Step(db, BeginRotation(t, link, now));
      var after := Step(Run(begun, between), EndRotation(t, true));
      var s := db.links[link].session;
      && s in after.sessions && after.sessions[s].revokedAt.Some?
      && link in after.links && after.links[link] == db.links[link]
  {
    var begun := Step(db, BeginRotation(t, link, now));
    BeginsReplay(db, t, link, now);
    StepKeeps(db, BeginRotation(t, link, now));
    PresentationStays(begun, t, link, db.links[link].session, between);
    BurnRevokes(Run(begun, between), t, link, db.links[link].session, now);
  }

  lemma GivesSuccessor(db: Db, t: nat)
    requires Fresh(db) && CanFinish(db, t) && db.rotations[t].verdict.Proceeds?
    ensures var link := db.rotations[t].link;
      var after := Step(db, EndRotation(t, true));
      link in after.links && after.links[link].replacedBy == Some(db.minted) && after.links[link].consumedAt.Some?
  {
  }

  /**
    Of two presentations of one link at most one gets a successor: while the first is open the second
    cannot begin, and once the first has committed its successor stays for good and the second is a replay.
  */
  lemma OneSuccessor(db: Db, t: nat, events: seq<Event>, second: nat, later: Instant)
    requires Kept(db) && CanFinish(db, t) && db.rotations[t].verdict.Proceeds?
    ensures !CanBegin(db, second, db.rotations[t].link, later)
    ensures var link := db.rotations[t].link;
      var after := Run(Step(db, EndRotation(t, true)), events);
      && link in after.links && after.links[link].replacedBy == Some(db.minted)
      && (CanBegin(after, second, link, later) ==> Presented(after, link, later) == Ok(Replayed))
  {
    var link := db.rotations[t].link;
    assert Locked(db, link);
    var ended := Step(db, EndRotation(t, true));
    GivesSuccessor(db, t);
    StepKeeps(db, EndRotation(t, true));
    SpentStays(ended, events, link);
  }

  lemma SpentStays(db: Db, events: seq<Event>, link: Uuid)
    requires Kept(db) && link in db.links && db.links[link].consumedAt.Some?
    ensures link in Run(db, events).links && Run(db, events).links[link] == db.links[link]
  {
    RunGrows(db, events);
  }

  /** An open rotation that found this session live and whose statements would still succeed. */
  predicate CanRotate(db: Db, t: nat, s: Uuid) {
    CanFinish(db, t) && db.rotations[t].verdict.Proceeds? && db.links[db.rotations[t].link].session == s
  }

  /** Some open rotation of the session would, if it commits now, give it an expiry after `instant`. */
  predicate MayRevive(db: Db, s: Uuid, instant: Instant) {
    exists t | t in db.rotations :: CanRotate(db, t, s) && instant < db.rotations[t].now + DEVICE_SESSION_TTL
  }

  predicate PresentsNotBefore(e: Event, instant: Instant) {
    e.BeginRotation? ==> instant <= e.now
  }

  /** A rotation that can still rotate could before: nothing lifts a revocation or rewrites a link's start. */
  lemma CouldRotateBefore(db: Db, after: Db, t: nat, s: Uuid)
    requires Grows(db, after) && RotationsKept(db) && s in db.sessions && CanRotate(after, t, s)
    requires t in db.rotations && db.rotations[t] == after.rotations[t]
    ensures CanRotate(db, t, s)
  {
  }

  /** A rotation of another session changes nothing for this one. */
  lemma OpeningKeepsHarmless(db: Db, t: nat, r: Rotation, s: Uuid, instant: Instant)
    requires t !in db.rotations && !MayRevive(db, s, instant)
    requires r.verdict.Proceeds? && r.link in db.links ==> db.links[r.link].session != s
    ensures !MayRevive(db.(rotations := db.rotations[t := r]), s, instant)
  {
    var after := db.(rotations := db.rotations[t := r]);
    forall u | u in after.rotations && CanRotate(after, u, s)
      ensures after.rotations[u].now + DEVICE_SESSION_TTL <= instant
    {
      assert u != t;
      assert CanRotate(db, u, s);
    }
  }

  lemma BeginKeepsHarmless(db: Db, t: nat, link: Uuid, now: Instant, s: Uuid, instant: Instant)
    requires s in db.sessions && !LiveAt(db.sessions[s], instant) && !MayRevive(db, s, instant)
    requires instant <= now && CanBegin(db, t, link, now)
    ensures !MayRevive(Step(db, BeginRotation(t, link, now)), s, instant)
  {
    OpeningKeepsHarmless(db, t, Rotation(link, now, Presented(db, link, now).value), s, instant);
  }

  lemma OthersOpenNothing(db: Db, e: Event)
    requires !e.BeginRotation?
    ensures forall t | t in Step(db, e).rotations :: t in db.rotations && Step(db, e).rotations[t] == db.rotations[t]
  {
    if !e.EndRotation? {
      assert Step(db, e).rotations == db.rotations;
    }
  }

  lemma OthersKeepHarmless(db: Db, after: Db, s: Uuid, instant: Instant)
    requires Grows(db, after) && RotationsKept(db) && s in db.sessions && !MayRevive(db, s, instant)
    requires forall t | t in after.rotations :: t in db.rotations && after.rotations[t] == db.rotations[t]
    ensures !MayRevive(after, s, instant)
  {
    forall t | t in after.rotations && CanRotate(after, t, s)
      ensures after.rotations[t].now + DEVICE_SESSION_TTL <= instant
    {
      CouldRotateBefore(db, after, t, s);
    }
  }

  lemma StepKeepsHarmless(db: Db, e: Event, s: Uuid, instant: Instant)
    requires Kept(db) && s in db.sessions && !LiveAt(db.sessions[s], instant) && !MayRevive(db, s, instant)
    requires PresentsNotBefore(e, instant)
    ensures !MayRevive(Step(db, e), s, instant)
  {
    if e.BeginRotation? {
      if CanBegin(db, e.t, e.link, e.now) {
        BeginKeepsHarmless(db, e.t, e.link, e.now, s, instant);
      }
    } else {
      StepGrows(db, e);
      OthersOpenNothing(db, e);
      OthersKeepHarmless(db, Step(db, e), s, instant);
    }
  }

  /** Only a rotation moves an expiry. */
  lemma ExpiryStays(db: Db, e: Event, s: Uuid)
    requires Fresh(db) && s in db.sessions && !e.EndRotation?
    ensures s in Step(db, e).sessions && Step(db, e).sessions[s].expiresAt == db.sessions[s].expiresAt
  {
  }

  lemma EndMovesExpiry(db: Db, t: nat, commits: bool, s: Uuid)
    requires t in db.rotations && s in db.sessions
    ensures var after := Finished(db, t, commits);
      && s in after.sessions
      && (after.sessions[s].expiresAt == db.sessions[s].expiresAt
          || (CanRotate(db, t, s) && after.sessions[s].expiresAt == db.rotations[t].now + DEVICE_SESSION_TTL))
  {
  }

  lemma StepKeepsDead(db: Db, e: Event, s: Uuid, instant: Instant)
    requires Kept(db) && s in db.sessions && !LiveAt(db.sessions[s], instant) && !MayRevive(db, s, instant)
    requires PresentsNotBefore(e, instant)
    ensures var after := Step(db, e);
      s in after.sessions && !LiveAt(after.sessions[s], instant) && !MayRevive(after, s, instant)
  {
    StepGrows(db, e);
    StepKeepsHarmless(db, e, s, instant);
    if e.EndRotation? {
      if e.t in db.rotations {
        EndMovesExpiry(db, e.t, e.commits, s);
      }
    } else {
      ExpiryStays(db, e, s);
    }
  }

  /**
    Once a session is dead at an instant, no step makes it live at that or any later instant, as long as
    links are presented on clocks that do not lie before it and no open rotation may revive it.
  */
  lemma {:induction false} DeadStaysDead(db: Db, events: seq<Event>, s: Uuid, instant: Instant, later: Instant)
    requires Kept(db) && s in db.sessions && !LiveAt(db.sessions[s], instant) && instant <= later
    requires !MayRevive(db, s, instant) && forall e | e in events :: PresentsNotBefore(e, instant)
    ensures s in Run(db, events).sessions && !LiveAt(Run(db, events).sessions[s], later)
    decreases |events|
  {
    if events != [] {
      assert events[0] in events;
      StepKeepsDead(db, events[0], s, instant);
      StepKeeps(db, events[0]);
      DeadStaysDead(Step(db, events[0]), events[1..], s, instant, later);
    }
  }

  /** A run whose presentations do not lie before an instant, and after which the session is live again. */
  ghost predicate Revives(db: Db, events: seq<Event>, s: Uuid, instant: Instant, later: Instant) {
    && (forall e | e in events :: PresentsNotBefore(e, instant)) && instant <= later
    && s in Run(db, events).sessions && LiveAt(Run(db, events).sessions[s], later)
  }

  lemma OpenRotationRevives(db: Db, t: nat, s: Uuid, instant: Instant)
    requires CanRotate(db, t, s) && instant < db.rotations[t].now + DEVICE_SESSION_TTL
    ensures Revives(db, [EndRotation(t, true)], s, instant, instant)
  {
    var e := EndRotation(t, true);
    assert [e][1..] == [];
    assert Run(db, [e]) == Step(db, e);
  }

  lemma NothingRevives(db: Db, events: seq<Event>, s: Uuid, instant: Instant, later: Instant)
    requires Kept(db) && s in db.sessions && !LiveAt(db.sessions[s], instant) && !MayRevive(db, s, instant)
    ensures !Revives(db, events, s, instant, later)
  {
    if (forall e | e in events :: PresentsNotBefore(e, instant)) && instant <= later {
      DeadStaysDead(db, events, s, instant, later);
    }
  }

  lemma SomethingRevives(db: Db, s: Uuid, instant: Instant)
    requires MayRevive(db, s, instant)
    ensures exists events, later :: Revives(db, events, s, instant, later)
  {
    var t :| t in db.rotations && CanRotate(db, t, s) && instant < db.rotations[t].now + DEVICE_SESSION_TTL;
    OpenRotationRevives(db, t, s, instant);
  }

  /**
    A dead session can become live again exactly when a rotation that found it live is still open, can
    still commit, and was presented less than a session lifetime before the instant.
  */
  lemma DeadIsFinalUnlessARotationIsOpen(db: Db, s: Uuid, instant: Instant)
    requires Kept(db) && s in db.sessions && !LiveAt(db.sessions[s], instant)
    ensures (exists events, later :: Revives(db, events, s, instant, later)) <==> MayRevive(db, s, instant)
  {
    if MayRevive(db, s, instant) {
      SomethingRevives(db, s, instant);
    } else {
      forall events, later ensures !Revives(db, events, s, instant, later) {
        NothingRevives(db, events, s, instant, later);
      }
    }
  }

  /** A code created and redeemed at 0: device 1, session 3 and its first link 4. */
  function PairedAtZero(): seq<Event> {
    [CreateCode(0, None, None, 0), Redeem(0, Mobile, 0)]
  }

  lemma PairedState()
    ensures var db := Run(Empty(), PairedAtZero());
      && db.sessions == map[3 := Session(0, DeviceBound, Some(1), 5, 0, DEVICE_SESSION_TTL, None)]
      && db.links == map[4 := Link(3, 0, REFRESH_TTL, None, None)] && db.rotations == map[]
  {
    var create, redeem := CreateCode(0, None, None, 0), Redeem(0, Mobile, 0);
    var created := Step(Empty(), create);
    assert created.codes == map[0 := Code(0, None, None, 0, PAIRING_CODE_TTL, 0, None, None, None)];
    var paired := Step(created, redeem);
    assert paired == Redeemed(created, 0, Mobile, 0);
    assert PairedAtZero()[1..] == [redeem] && [redeem][1..] == [];
    assert Run(created, [redeem]) == Run(paired, []);
  }

  lemma {:induction false} RunAppend(db: Db, first: seq<Event>, last: seq<Event>)
    ensures Run(db, first + last) == Run(Run(db, first), last)
    decreases |first|
  {
    if first == [] {
      assert first + last == last;
    } else {
      assert (first + last)[1..] == first[1..] + last;
      RunAppend(Step(db, first[0]), first[1..], last);
    }
  }

  /** The exception is reached: the link is presented while the session lives and stays open past its expiry. */
  lemma RevivalIsReachable(now: Instant, instant: Instant)
    requires 0 <= now < DEVICE_SESSION_TTL <= instant < now + DEVICE_SESSION_TTL
    ensures var db := Run(Empty(), PairedAtZero() + [BeginRotation(0, 4, now)]);
      3 in db.sessions && !LiveAt(db.sessions[3], instant) && MayRevive(db, 3, instant)
  {
    PairedState();
    var begin := BeginRotation(0, 4, now);
    RunAppend(Empty(), PairedAtZero(), [begin]);
    var paired := Run(Empty(), PairedAtZero());
    assert [begin][1..] == [];
    var db := Step(paired, begin);
    assert Run(paired, [begin]) == db;
    assert db.rotations[0] == Rotation(4, now, Proceeds);
    assert 0 in db.rotations && CanRotate(db, 0, 3);
  }

  /** And clocks matter: presenting on a clock that lies before the instant revives without any open rotation. */
  lemma EarlierClockRevives(now: Instant, instant: Instant)
    requires 0 <= now < DEVICE_SESSION_TTL <= instant < now + DEVICE_SESSION_TTL
    ensures var db := Run(Empty(), PairedAtZero());
      var after := Run(db, [BeginRotation(0, 4, now), EndRotation(0, true)]);
      && 3 in db.sessions && !LiveAt(db.sessions[3], instant) && !MayRevive(db, 3, instant)
      && 3 in after.sessions && LiveAt(after.sessions[3], instant)
  {
    PairedState();
    RevivalIsReachable(now, instant);
    var begin, end := BeginRotation(0, 4, now), EndRotation(0, true);
    var paired := Run(Empty(), PairedAtZero());
    RunAppend(Empty(), PairedAtZero(), [begin]);
    assert [begin][1..] == [];
    var db := Step(paired, begin);
    assert Run(paired, [begin]) == db;
    assert db.rotations == map[0 := Rotation(4, now, Proceeds)];
    assert CanRotate(db, 0, 3);
    OpenRotationRevives(db, 0, 3, instant);
    assert [begin, end][1..] == [end];
  }
}
