/**
  What each credential of the identity schema opens, and for how long: access credentials of sessions,
  refresh links, device secrets and pairing codes, over every run of the transactions of `Identity`.
*/
module IdentityCredentials {
  import opened Common
  import opened Identity
  import opened IdentityTheorems

  // ---------------------------------------------------------------------------------------------
  // Access credentials
  // ---------------------------------------------------------------------------------------------

  /** No credential is about to be minted again, and no two sessions share one. */
  ghost predicate TokensKept(db: Db) {
    && (forall s | s in db.sessions :: db.sessions[s].token < db.minted)
    && (forall s, u | s in db.sessions && u in db.sessions && db.sessions[s].token == db.sessions[u].token :: s == u)
  }

  predicate SameToken(db: Db, after: Db, s: Uuid)
    requires s in after.sessions
  {
    s in db.sessions && after.sessions[s].token == db.sessions[s].token
  }

  /** At most one session got another credential, and that one is new. */
  ghost predicate TokensMove(db: Db, after: Db) {
    && db.minted <= after.minted
    && (forall s | s in after.sessions ::
          SameToken(db, after, s) || db.minted <= after.sessions[s].token < after.minted)
    && (forall s, u | s in after.sessions && u in after.sessions
                      && !SameToken(db, after, s) && !SameToken(db, after, u) :: s == u)
  }

  lemma OpeningMovesTokens(db: Db, user: Uuid, device: Uuid, now: Instant)
    requires Fresh(db)
    ensures TokensMove(db, SessionOpened(db, user, device, now))
  {
  }

  lemma RedeemMovesTokens(db: Db, code: Uuid, declared: DeviceKind, now: Instant)
    requires Fresh(db)
    ensures TokensMove(db, Step(db, Redeem(code, declared, now)))
  {
    if code in db.codes {
      OpeningMovesTokens(Registered(db, code, declared, now), db.codes[code].user, db.minted, now);
    }
  }

  lemma EndMovesTokens(db: Db, t: nat, commits: bool)
    requires Fresh(db) && t in db.rotations
    ensures TokensMove(db, Finished(db, t, commits))
  {
  }

  lemma RevokingMovesTokens(db: Db, user: Option<Uuid>, device: Option<Uuid>, now: Instant)
    ensures TokensMove(db, RevokeMatching(db, user, device, now))
  {
  }

  lemma RevokingDeviceMovesTokens(db: Db, device: Uuid, now: Instant)
    requires device in db.devices
    ensures TokensMove(db, DeviceRevoked(db, device, now))
  {
    var marked := db.(devices := db.devices[device := db.devices[device].(revokedAt := Some(now))]);
    RevokingMovesTokens(marked, None, Some(device), now);
  }

  lemma OpenOtherMovesTokens(db: Db, user: Uuid, kind: SessionKind, now: Instant, expiresAt: Instant)
    requires Fresh(db)
    ensures TokensMove(db, Step(db, OpenOther(user, kind, now, expiresAt)))
  {
  }

  lemma SameSessionsMoveNoToken(db: Db, after: Db)
    requires after.sessions == db.sessions && db.minted <= after.minted
    ensures TokensMove(db, after)
  {
  }

  lemma StepMovesTokens(db: Db, e: Event)
    requires Fresh(db)
    ensures TokensMove(db, Step(db, e))
  {
    match e {
      case CreateCode(user, kind, site, now) =>
        CreateCodeTouchesNoSession(db, user, kind, site, now);
        SameSessionsMoveNoToken(db, Step(db, e));
      case BeginRotation(_, _, _) => SameSessionsMoveNoToken(db, Step(db, e));
      case OpenOther(user, kind, now, expiresAt) => OpenOtherMovesTokens(db, user, kind, now, expiresAt);
      case Redeem(code, declared, now) => RedeemMovesTokens(db, code, declared, now);
      case OpenSession(device, _, now) =>
        if device in db.devices {
          OpeningMovesTokens(db, db.devices[device].user, device, now);
        }
      case EndRotation(t, commits) =>
        if t in db.rotations {
          EndMovesTokens(db, t, commits);
        }
      case RevokeUser(user, now) => RevokingMovesTokens(db, Some(user), None, now);
      case RevokeDevice(_, device, now) =>
        if device in db.devices {
          RevokingDeviceMovesTokens(db, device, now);
        }
      case _ =>
    }
  }

  lemma MovesKeepTokens(db: Db, after: Db)
    requires TokensKept(db) && TokensMove(db, after)
    ensures TokensKept(after)
  {
  }

  lemma {:induction false} RunKeepsTokens(db: Db, events: seq<Event>)
    requires Kept(db) && TokensKept(db)
    ensures TokensKept(Run(db, events))
    decreases |events|
  {
    if events != [] {
      StepMovesTokens(db, events[0]);
      MovesKeepTokens(db, Step(db, events[0]));
      StepKeeps(db, events[0]);
      RunKeepsTokens(Step(db, events[0]), events[1..]);
    }
  }

  /** A credential that was minted and that no session carries. */
  ghost predicate Retired(db: Db, token: Uuid) {
    token < db.minted && forall s | s in db.sessions :: db.sessions[s].token != token
  }

  lemma {:induction false} RetiredStays(db: Db, events: seq<Event>, token: Uuid)
    requires Kept(db) && Retired(db, token)
    ensures Retired(Run(db, events), token)
    decreases |events|
  {
    if events != [] {
      StepMovesTokens(db, events[0]);
      StepKeeps(db, events[0]);
      RetiredStays(Step(db, events[0]), events[1..], token);
    }
  }

  /** A rotation that commits replaces the access credential by one that no session had, and only that one. */
  lemma RotationReplacesToken(db: Db, t: nat, s: Uuid)
    requires Fresh(db) && TokensKept(db) && CanRotate(db, t, s)
    ensures var after := Step(db, EndRotation(t, true));
      && s in after.sessions && (forall u | u in db.sessions :: db.sessions[u].token != after.sessions[s].token)
      && Retired(after, db.sessions[s].token)
      && forall u | u in db.sessions && u != s :: u in after.sessions && after.sessions[u] == db.sessions[u]
  {
  }

  /**
    An access credential is one session's alone, and once a rotation has replaced it, it authenticates
    nothing in any later state, whatever runs.
  */
  lemma ReplacedTokenIsDead(before: seq<Event>, t: nat, s: Uuid, events: seq<Event>)
    requires CanRotate(Run(Empty(), before), t, s)
    ensures var db := Run(Empty(), before);
      var after := Run(Step(db, EndRotation(t, true)), events);
      && s in db.sessions && TokensKept(after)
      && forall u | u in after.sessions :: after.sessions[u].token != db.sessions[s].token
  {
    RunKeeps(Empty(), before);
    RunKeepsTokens(Empty(), before);
    var db := Run(Empty(), before);
    var rotated := Step(db, EndRotation(t, true));
    RotationReplacesToken(db, t, s);
    StepMovesTokens(db, EndRotation(t, true));
    MovesKeepTokens(db, rotated);
    StepKeeps(db, EndRotation(t, true));
    RunKeepsTokens(rotated, events);
    RetiredStays(rotated, events, db.sessions[s].token);
  }

  // ---------------------------------------------------------------------------------------------
  // How long a session and a refresh link last
  // ---------------------------------------------------------------------------------------------

  /** Nothing that is stored can be looked up by this value: it is a secret and no identifier. */
  predicate NoIdentifier(db: Db, secret: Uuid) {
    secret !in db.devices && secret !in db.sessions && secret !in db.links && secret !in db.codes
  }

  /** A session begun or rotated at `now` lives an hour, and its link is good for it and refused after. */
  ghost predicate Begun(db: Db, s: Uuid, link: Uuid, now: Instant) {
    && s in db.sessions && link in db.links && db.links[link].session == s && link in Chain(db, s)
    && NoIdentifier(db, db.sessions[s].token)
    && (forall t :: LiveAt(db.sessions[s], t) <==> t < now + 3600 * SECOND)
    && (forall t :: Presented(db, link, t) ==
          if t < now + 3600 * SECOND then Ok(Proceeds)
          else if t < now + 30 * 24 * 3600 * SECOND then Err(SessionNotLive)
          else Err(Expired))
  }

  lemma LoginBegins(db: Db, device: Uuid, secret: Uuid, now: Instant)
    requires Fresh(db) && device in db.devices && db.devices[device].revokedAt.None?
    requires db.devices[device].secret == secret
    ensures var after := Step(db, OpenSession(device, secret, now));
      exists s, link :: s !in db.sessions && link !in db.links && Begun(after, s, link, now)
        && after.sessions[s].device == Some(device) && after.sessions[s].user == db.devices[device].user
        && after.sessions.Keys == db.sessions.Keys + {s} && after.links.Keys == db.links.Keys + {link}
  {
    var after := Step(db, OpenSession(device, secret, now));
    assert Begun(after, db.minted, db.minted + 1, now);
  }

  /** Nothing but the device's own root secret logs it in, and nothing once it is revoked. */
  lemma LoginNeedsTheSecret(db: Db, device: Uuid, secret: Uuid, now: Instant)
    requires Fresh(db)
    ensures Step(db, OpenSession(device, secret, now)) != db <==>
      device in db.devices && db.devices[device].revokedAt.None? && db.devices[device].secret == secret
    ensures var after := Step(db, OpenSession(device, secret, now));
      && after.devices == db.devices && after.codes == db.codes && after.rotations == db.rotations
      && (forall s | s in db.sessions :: s in after.sessions && after.sessions[s] == db.sessions[s])
      && (forall l | l in db.links :: l in after.links && after.links[l] == db.links[l])
  {
  }

  /** A committed rotation spends the presented link, begins the session anew and touches nothing else. */
  lemma RotationBegins(db: Db, t: nat, s: Uuid)
    requires Fresh(db) && CanRotate(db, t, s)
    ensures var r := db.rotations[t];
      var after := Step(db, EndRotation(t, true));
      exists link :: link !in db.links && Begun(after, s, link, r.now)
        && after.links.Keys == db.links.Keys + {link} && after.sessions.Keys == db.sessions.Keys
        && after.links[r.link].consumedAt == Some(r.now) && after.links[r.link].replacedBy == Some(link)
        && (forall l | l in db.links && l != r.link :: after.links[l] == db.links[l])
        && (forall u | u in db.sessions && u != s :: after.sessions[u] == db.sessions[u])
        && after.sessions[s].user == db.sessions[s].user && after.sessions[s].device == db.sessions[s].device
        && after.devices == db.devices && after.codes == db.codes
  {
    var after := Step(db, EndRotation(t, true));
    assert Begun(after, s, db.minted, db.rotations[t].now);
  }

  lemma OpenedRotation(db: Db, t: nat, link: Uuid, now: Instant)
    requires t !in db.rotations && !Locked(db, link) && link in db.links && db.links[link].session in db.sessions
    ensures var after, open := Step(db, BeginRotation(t, link, now)), Presented(db, link, now);
      && after.links == db.links && after.sessions == db.sessions
      && (open.Ok? ==> after.rotations == db.rotations[t := Rotation(link, now, open.value)])
      && (open.Err? ==> after == db)
  {
    assert CanBegin(db, t, link, now) <==> Presented(db, link, now).Ok?;
  }

  /**
    Presenting a link and committing at once refreshes the session exactly when the link is unspent and not
    expired, its session is live, and the clock is not behind the link's and the session's own start.
  */
  lemma RefreshExactly(db: Db, t: nat, link: Uuid, now: Instant)
    requires t !in db.rotations && !Locked(db, link) && link in db.links && db.links[link].session in db.sessions
    ensures var l := db.links[link];
      var s := db.sessions[l.session];
      CanRotate(Step(db, BeginRotation(t, link, now)), t, l.session) <==>
        && l.consumedAt.None? && l.issuedAt <= now < l.expiresAt
        && s.revokedAt.None? && now < s.expiresAt && s.issuedAt < now + 3600 * SECOND
  {
    OpenedRotation(db, t, link, now);
  }

  // ---------------------------------------------------------------------------------------------
  // Pairing codes
  // ---------------------------------------------------------------------------------------------

  /** What a device must declare: the pinned kind, or any but a site deployer when none is pinned. */
  predicate Declares(pinned: Option<DeviceKind>, declared: DeviceKind) {
    if pinned.None? then declared != SiteDeployer else pinned == Some(declared)
  }

  lemma KindsAgree(c: Code, declared: DeviceKind)
    ensures KindRefused(c, declared) <==> !Declares(c.kind, declared)
  {
  }

  /** A code is accepted for ten minutes from its creation, by a device of the kind it is for. */
  lemma CodeLasts(db: Db, user: Uuid, kind: Option<DeviceKind>, site: Option<string>, now: Instant,
                  declared: DeviceKind, later: Instant)
    requires Fresh(db) && Step(db, CreateCode(user, kind, site, now)) != db
    ensures var after := Step(db, CreateCode(user, kind, site, now));
      exists code :: code !in db.codes && after.codes.Keys == db.codes.Keys + {code}
        && after.codes[code].user == user && after.codes[code].site == site
        && (Step(after, Redeem(code, declared, later)) != after <==>
              now <= later < now + 600 * SECOND && Declares(kind, declared))
  {
    var after := Step(db, CreateCode(user, kind, site, now));
    var code := db.minted;
    KindsAgree(after.codes[code], declared);
    RedeemMints(after, code, declared, later);
  }

  lemma RedeemMints(db: Db, code: Uuid, declared: DeviceKind, now: Instant)
    ensures Step(db, Redeem(code, declared, now)) != db <==>
      Redeemable(db, code, declared, now) && db.codes[code].createdAt <= now
    ensures Step(db, Redeem(code, declared, now)) != db ==>
      Step(db, Redeem(code, declared, now)) == Redeemed(db, code, declared, now)
  {
    if Redeemable(db, code, declared, now) && db.codes[code].createdAt <= now {
      assert Step(db, Redeem(code, declared, now)).minted == db.minted + 5;
    }
  }

  /** A code is redeemed exactly while it is pending, unexpired and under five failed attempts, by a kind it is for. */
  lemma RedeemsExactly(db: Db, code: Uuid, declared: DeviceKind, now: Instant)
    ensures Step(db, Redeem(code, declared, now)) != db <==>
      && code in db.codes && db.codes[code].supersededAt.None? && db.codes[code].consumedAt.None?
      && db.codes[code].createdAt <= now < db.codes[code].expiresAt && db.codes[code].failedAttempts < 5
      && Declares(db.codes[code].kind, declared)
  {
    RedeemMints(db, code, declared, now);
    if code in db.codes {
      KindsAgree(db.codes[code], declared);
    }
  }

  /** A new code sets aside its owner's pending ones and nobody else's. */
  lemma NewCodeReplacesTheOwners(db: Db, user: Uuid, kind: Option<DeviceKind>, site: Option<string>, now: Instant,
                                 c: Uuid)
    requires Fresh(db) && c in db.codes
    ensures var after := Step(db, CreateCode(user, kind, site, now));
      && c in after.codes
      && (after == db || db.codes[c].user != user || !PendingCode(after.codes[c]))
      && (db.codes[c].user != user || !PendingCode(db.codes[c]) ==> after.codes[c] == db.codes[c])
  {
  }

  /** A code is created exactly when it names a site if and only if it is for a deployer, on a clock not gone back. */
  lemma CodesAreCreated(db: Db, user: Uuid, kind: Option<DeviceKind>, site: Option<string>, now: Instant)
    ensures Step(db, CreateCode(user, kind, site, now)) != db <==>
      && (site.Some? <==> kind == Some(SiteDeployer))
      && forall c | c in db.codes && db.codes[c].user == user && db.codes[c].supersededAt.None?
                    && db.codes[c].consumedAt.None? :: db.codes[c].createdAt <= now
  {
    if CanCreateCode(db, user, kind, site, now) {
      assert Step(db, CreateCode(user, kind, site, now)).minted == db.minted + 1;
    }
  }

  /**
    A code that is redeemed gives one new device of its owner, of the declared kind and the code's site, with
    a secret no device had, and one session of it that lives an hour. It is spent by that.
  */
  lemma PairingGives(db: Db, code: Uuid, declared: DeviceKind, now: Instant)
    requires Fresh(db) && Step(db, Redeem(code, declared, now)) != db
    ensures code in db.codes && PendingCode(db.codes[code])
    ensures var after := Step(db, Redeem(code, declared, now));
      exists device, s, link :: device !in db.devices && s !in db.sessions && Begun(after, s, link, now)
        && after.devices.Keys == db.devices.Keys + {device} && after.sessions.Keys == db.sessions.Keys + {s}
        && after.devices[device].user == after.sessions[s].user == db.codes[code].user
        && after.devices[device].kind == declared && after.devices[device].site == db.codes[code].site
        && after.devices[device].createdAt == now && after.devices[device].revokedAt.None?
        && db.minted <= after.devices[device].secret < after.minted && NoIdentifier(after, after.devices[device].secret)
        && after.devices[device].secret != after.sessions[s].token
        && after.sessions[s].device == Some(device)
        && after.codes[code].consumedAt == Some(now) && after.codes[code].consumedBy == Some(device)
  {
    RedeemMints(db, code, declared, now);
    var after := Step(db, Redeem(code, declared, now));
    assert Begun(after, db.minted + 2, db.minted + 3, now);
  }

  // ---------------------------------------------------------------------------------------------
  // Revocation reaches what it names and nothing else
  // ---------------------------------------------------------------------------------------------

  /** The session is as it was, or revoked at `now` if it was not. */
  predicate RevokedAlone(before: Session, after: Session, named: bool, now: Instant) {
    after == if named && before.revokedAt.None? then before.(revokedAt := Some(now)) else before
  }

  ghost predicate OnlySessionsChange(db: Db, after: Db) {
    && after.sessions.Keys == db.sessions.Keys && after.links == db.links && after.codes == db.codes
    && after.rotations == db.rotations
  }

  /** A clock behind a session it would revoke refuses the whole revocation. */
  lemma RevokingAUser(db: Db, user: Uuid, now: Instant)
    ensures var after := Step(db, RevokeUser(user, now));
      var refused := exists s | s in db.sessions ::
        db.sessions[s].user == user && db.sessions[s].revokedAt.None? && now < db.sessions[s].issuedAt;
      && OnlySessionsChange(db, after) && after.devices == db.devices
      && (refused ==> after == db)
      && (!refused ==> forall s | s in db.sessions ::
            RevokedAlone(db.sessions[s], after.sessions[s], db.sessions[s].user == user, now))
  {
    var after := Step(db, RevokeUser(user, now));
    if CanRevokeAll(db, Some(user), None, now) {
      forall s | s in db.sessions && db.sessions[s].user == user && db.sessions[s].revokedAt.None?
        ensures db.sessions[s].issuedAt <= now
      {
        assert Matches(db.sessions[s], Some(user), None);
      }
    } else {
      var s :| s in db.sessions && Matches(db.sessions[s], Some(user), None) && !MayRevoke(db.sessions[s], now);
      assert s in db.sessions;
    }
  }

  lemma RevokingASession(db: Db, session: Uuid, now: Instant)
    ensures var after := Step(db, RevokeSession(session, now));
      && OnlySessionsChange(db, after) && after.devices == db.devices
      && forall s | s in db.sessions ::
           RevokedAlone(db.sessions[s], after.sessions[s], s == session && db.sessions[s].issuedAt <= now, now)
  {
  }

  /** Only its owner deletes a device: with it goes every session bound to it, and no other. */
  lemma DeletingADevice(db: Db, actor: Uuid, device: Uuid, now: Instant)
    ensures var after := Step(db, RevokeDevice(actor, device, now));
      var refused := exists s | s in db.sessions ::
        db.sessions[s].device == Some(device) && db.sessions[s].revokedAt.None? && now < db.sessions[s].issuedAt;
      && OnlySessionsChange(db, after)
      && (after != db <==>
            && device in db.devices && db.devices[device].user == actor && db.devices[device].revokedAt.None?
            && db.devices[device].createdAt <= now && !refused)
      && (after != db ==>
            && after.devices == db.devices[device := db.devices[device].(revokedAt := Some(now))]
            && forall s | s in db.sessions ::
                 RevokedAlone(db.sessions[s], after.sessions[s], db.sessions[s].device == Some(device), now))
  {
    if CanRevokeAll(db, None, Some(device), now) {
      forall s | s in db.sessions && db.sessions[s].device == Some(device) && db.sessions[s].revokedAt.None?
        ensures db.sessions[s].issuedAt <= now
      {
        assert Matches(db.sessions[s], None, Some(device));
      }
    } else {
      var s :| s in db.sessions && Matches(db.sessions[s], None, Some(device)) && !MayRevoke(db.sessions[s], now);
      assert s in db.sessions;
    }
    if CanRevokeDevice(db, actor, device, now) {
      assert Step(db, RevokeDevice(actor, device, now)).devices[device] != db.devices[device];
    }
  }

  /** A burn revokes the family's session and nothing else. */
  lemma BurningIsNarrow(db: Db, t: nat)
    requires CanFinish(db, t) && db.rotations[t].verdict.Replayed?
    ensures var after := Step(db, EndRotation(t, true));
      var s := db.links[db.rotations[t].link].session;
      && after.sessions.Keys == db.sessions.Keys && after.links == db.links && after.devices == db.devices
      && after.codes == db.codes
      && forall u | u in db.sessions ::
           RevokedAlone(db.sessions[u], after.sessions[u], u == s, db.rotations[t].now)
  {
  }

  /** A rotation that is rolled back leaves the tables as they were. */
  lemma RollbackLeavesNothing(db: Db, t: nat)
    requires t in db.rotations
    ensures Step(db, EndRotation(t, false)) == db.(rotations := db.rotations - {t})
    ensures !CanFinish(db, t) ==> Step(db, EndRotation(t, true)) == db.(rotations := db.rotations - {t})
  {
  }

  /** A session of another kind is the user's, on no device, and lives until the instant it was given. */
  lemma OtherSessionsLast(db: Db, user: Uuid, kind: SessionKind, now: Instant, expiresAt: Instant)
    requires Fresh(db)
    ensures var after := Step(db, OpenOther(user, kind, now, expiresAt));
      && (after != db <==> kind != DeviceBound && now < expiresAt)
      && (after != db ==>
            exists s :: (
              && s !in db.sessions && after.sessions.Keys == db.sessions.Keys + {s}
              && after.sessions[s].user == user && after.sessions[s].kind == kind && after.sessions[s].device.None?
              && (forall t :: LiveAt(after.sessions[s], t) <==> t < expiresAt)
              && forall u | u in db.sessions :: after.sessions[u] == db.sessions[u]))
      && after.links == db.links && after.devices == db.devices && after.codes == db.codes
  {
    var after := Step(db, OpenOther(user, kind, now, expiresAt));
    if kind != DeviceBound && now < expiresAt {
      assert after.minted == db.minted + 2;
      assert db.minted in after.sessions;
    }
  }
}
