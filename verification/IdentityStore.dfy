/**
  The handlers of pairing, login, rotation and revocation, statement by statement, each in a
  transaction that it commits or drops (crates/identity/src; crates/public-api/src/credentials.rs,
  devices.rs).
*/
module IdentityStore {
  import opened Common
  import opened Identity

  lemma AllMayBeRevoked(db: Db, user: Option<Uuid>, device: Option<Uuid>, now: Instant, rows: set<Uuid>)
    requires rows == set s | s in db.sessions && Matches(db.sessions[s], user, device) && db.sessions[s].revokedAt.None?
    requires forall s | s in rows :: db.sessions[s].issuedAt <= now
    ensures CanRevokeAll(db, user, device, now)
    ensures RevokeMatching(db, user, device, now) == db.(sessions := map s | s in db.sessions ::
      if s in rows then db.sessions[s].(revokedAt := Some(now)) else db.sessions[s])
  {
  }

  /** The tables one transaction works on. Dropping it without a commit rolls everything back. */
  class Transaction {
    var devices: map<Uuid, Device>
    var sessions: map<Uuid, Session>
    var links: map<Uuid, Link>
    var codes: map<Uuid, Code>
    var chains: map<Uuid, seq<Uuid>>
    var minted: Uuid
    const rotations: map<nat, Rotation>

    constructor (db: Db)
      ensures View() == db
    {
      devices, sessions, links, codes := db.devices, db.sessions, db.links, db.codes;
      chains, minted, rotations := db.chains, db.minted, db.rotations;
    }

    function View(): Db
      reads this
    {
      Db(devices, sessions, links, codes, rotations, chains, minted)
    }

    /** Set the owner's pending codes aside; a CHECK refuses an instant before their creation. */
    method Supersede(user: Uuid, now: Instant) returns (ok: bool)
      modifies this`codes
      ensures ok <==> forall c | c in old(codes) && old(codes)[c].user == user && PendingCode(old(codes)[c]) ::
        old(codes)[c].createdAt <= now
      ensures codes == if ok then Superseded(old(codes), user, now) else old(codes)
    {
      ok := forall c | c in codes && codes[c].user == user && PendingCode(codes[c]) :: codes[c].createdAt <= now;
      if ok {
        codes := map c | c in codes ::
          if codes[c].user == user && PendingCode(codes[c]) then codes[c].(supersededAt := Some(now)) else codes[c];
      }
    }

    method InsertCode(user: Uuid, kind: Option<DeviceKind>, site: Option<string>, now: Instant)
      returns (ok: bool)
      modifies this`codes, this`minted
      ensures ok <==> (kind == Some(SiteDeployer) <==> site.Some?)
      ensures ok ==> minted == old(minted) + 1 && codes == old(codes)[old(minted) :=
        Code(user, kind, site, now, now + PAIRING_CODE_TTL, 0, None, None, None)]
    {
      if (kind == Some(SiteDeployer)) != site.Some? {
        return false;
      }
      codes := codes[minted := Code(user, kind, site, now, now + PAIRING_CODE_TTL, 0, None, None, None)];
      minted := minted + 1;
      ok := true;
    }

    /** A pinned kind that differs counts against the code, inside this transaction. */
    method RefusesKind(code: Uuid, declared: DeviceKind) returns (refused: bool)
      requires code in codes
      modifies this`codes
      ensures refused == KindRefused(old(codes)[code], declared)
      ensures !refused ==> codes == old(codes)
      ensures refused && old(codes)[code].kind.Some? && old(codes)[code].failedAttempts < ATTEMPT_LIMIT ==>
        codes == old(codes)[code := old(codes)[code].(failedAttempts := old(codes)[code].failedAttempts + 1)]
    {
      var c := codes[code];
      if c.kind.Some? && c.kind.value != declared {
        if c.failedAttempts < ATTEMPT_LIMIT {
          codes := codes[code := c.(failedAttempts := c.failedAttempts + 1)];
        }
        return true;
      }
      refused := declared.SiteDeployer? && c.kind.None?;
    }

    /** Insert the device; the table refuses a site on any kind but a site deployer, and the reverse. */
    method RegisterSiteDevice(user: Uuid, kind: DeviceKind, site: Option<string>, now: Instant, code: Uuid)
      returns (r: Result<Uuid, Refusal>)
      modifies this`devices, this`minted
      ensures r.Ok? <==> (kind.SiteDeployer? <==> site.Some?)
      ensures r.Ok? ==>
        && r.value == old(minted) && minted == old(minted) + 2
        && devices == old(devices)[r.value := Device(user, kind, site, old(minted) + 1, now, None, code)]
    {
      if kind.SiteDeployer? != site.Some? {
        return Err(StatementRefused);
      }
      devices := devices[minted := Device(user, kind, site, minted + 1, now, None, code)];
      r := Ok(minted);
      minted := minted + 2;
    }

    /** Consume the code if it is still pending: how many rows, unless the CHECK refuses the instant. */
    method ConsumeCode(code: Uuid, device: Uuid, now: Instant) returns (r: Result<nat, Refusal>)
      modifies this`codes
      ensures code in old(codes) && PendingCode(old(codes)[code]) ==>
        && (r == if old(codes)[code].createdAt <= now then Ok(1) else Err(StatementRefused))
        && (r.Ok? ==> codes == old(codes)[code := old(codes)[code].(consumedAt := Some(now), consumedBy := Some(device))])
      ensures !(code in old(codes) && PendingCode(old(codes)[code])) ==> r == Ok(0) && codes == old(codes)
    {
      if code !in codes || !PendingCode(codes[code]) {
        return Ok(0);
      }
      if now < codes[code].createdAt {
        return Err(StatementRefused);
      }
      codes := codes[code := codes[code].(consumedAt := Some(now), consumedBy := Some(device))];
      r := Ok(1);
    }

    /** A device session and the first link of its chain. */
    method OpenDeviceSession(user: Uuid, device: Uuid, now: Instant) returns (session: Uuid)
      modifies this`sessions, this`links, this`chains, this`minted
      ensures session == old(minted) && View() == SessionOpened(old(View()), user, device, now)
    {
      session := minted;
      var link, token := minted + 1, minted + 2;
      sessions := sessions[session :=
        Session(user, DeviceBound, Some(device), token, now, now + DEVICE_SESSION_TTL, None)];
      links := links[link := Link(session, now, now + REFRESH_TTL, None, None)];
      chains := chains[session := [link]];
      minted := minted + 3;
    }

    /** Issue the successor of a locked link and spend the link. */
    method SpendLink(link: Uuid, now: Instant) returns (r: Result<Uuid, Refusal>)
      requires link in links
      modifies this`links, this`minted
      ensures r.Ok? <==> old(links)[link].issuedAt <= now
      ensures r.Ok? ==>
        && r.value == old(minted) && minted == old(minted) + 2
        && links == old(links)[link := old(links)[link].(consumedAt := Some(now), replacedBy := Some(r.value))]
                              [r.value := Link(old(links)[link].session, now, now + REFRESH_TTL, None, None)]
    {
      var successor := minted;
      var spent := links[link].(consumedAt := Some(now), replacedBy := Some(successor));
      if now < spent.issuedAt {
        return Err(StatementRefused);
      }
      links := links[link := spent][successor := Link(spent.session, now, now + REFRESH_TTL, None, None)];
      minted := minted + 2;
      r := Ok(successor);
    }

    /** Swap the session's credential and expiry if it is not revoked: how many rows, unless refused. */
    method SwapCredential(session: Uuid, token: Uuid, successor: Uuid, now: Instant) returns (r: Result<nat, Refusal>)
      modifies this`sessions, this`chains
      ensures session in old(sessions) && old(sessions)[session].revokedAt.None? ==>
        && (r.Ok? <==> old(sessions)[session].issuedAt < now + DEVICE_SESSION_TTL)
        && (r.Ok? ==>
              && r.value == 1
              && sessions == old(sessions)[session :=
                   old(sessions)[session].(token := token, expiresAt := now + DEVICE_SESSION_TTL)]
              && chains == old(chains)[session := Chain(old(View()), session) + [successor]])
      ensures !(session in old(sessions) && old(sessions)[session].revokedAt.None?) ==> r == Ok(0)
    {
      if session !in sessions || sessions[session].revokedAt.Some? {
        return Ok(0);
      }
      if now + DEVICE_SESSION_TTL <= sessions[session].issuedAt {
        return Err(StatementRefused);
      }
      sessions := sessions[session := sessions[session].(token := token, expiresAt := now + DEVICE_SESSION_TTL)];
      chains := chains[session := (if session in chains then chains[session] else []) + [successor]];
      r := Ok(1);
    }

    /** `update ... set revoked_at ... where revoked_at is null` over the matching sessions. */
    method RevokeSessions(user: Option<Uuid>, device: Option<Uuid>, now: Instant) returns (r: Result<nat, Refusal>)
      modifies this`sessions
      ensures r.Ok? <==> CanRevokeAll(old(View()), user, device, now)
      ensures r.Err? ==> r.error == StatementRefused
      ensures r.Ok? ==>
        && View() == RevokeMatching(old(View()), user, device, now)
        && r.value == |set s | s in old(sessions) && Matches(old(sessions)[s], user, device)
                         && old(sessions)[s].revokedAt.None?|
    {
      var rows := set s | s in sessions && Matches(sessions[s], user, device) && sessions[s].revokedAt.None?;
      if exists s | s in rows :: now < sessions[s].issuedAt {
        ghost var s :| s in rows && now < sessions[s].issuedAt;
        assert !MayRevoke(sessions[s], now);
        return Err(StatementRefused);
      }
      AllMayBeRevoked(View(), user, device, now, rows);
      sessions := map s | s in sessions :: if s in rows then sessions[s].(revokedAt := Some(now)) else sessions[s];
      r := Ok(|rows|);
    }

    /** `update ... set revoked_at ... where session_id = $1 and revoked_at is null`. */
    method RevokeOne(session: Uuid, now: Instant) returns (r: Result<bool, Refusal>)
      modifies this`sessions
      ensures session !in old(sessions) ==> r == Ok(false) && sessions == old(sessions)
      ensures session in old(sessions) ==>
        && (r.Ok? <==> MayRevoke(old(sessions)[session], now)) && (r.Err? ==> r.error == StatementRefused)
        && (r.Ok? ==>
              && sessions == old(sessions)[session := RevokedAt(old(sessions)[session], now)]
              && (r.value <==> old(sessions)[session].revokedAt.None?))
    {
      if session !in sessions || sessions[session].revokedAt.Some? {
        return Ok(false);
      }
      if now < sessions[session].issuedAt {
        return Err(StatementRefused);
      }
      sessions := sessions[session := sessions[session].(revokedAt := Some(now))];
      r := Ok(true);
    }
  }

  class Store {
    var stored: Db

    constructor ()
      ensures stored == Empty()
    {
      stored := Empty();
    }

    method CreatePairingCode(user: Uuid, kind: Option<DeviceKind>, site: Option<string>, now: Instant)
      returns (r: Result<Uuid, Refusal>)
      modifies this
      ensures stored == Step(old(stored), CreateCode(user, kind, site, now))
      ensures r ==
        if CanCreateCode(old(stored), user, kind, site, now) then Ok(old(stored).minted) else Err(StatementRefused)
    {
      var tx := new Transaction(stored);
      var superseded := tx.Supersede(user, now);
      if !superseded {
        return Err(StatementRefused);
      }
      var id := tx.minted;
      var inserted := tx.InsertCode(user, kind, site, now);
      if !inserted {
        return Err(StatementRefused);
      }
      stored := tx.View();
      r := Ok(id);
    }

    /** The pairing exchange. A refusal drops the transaction, and with it everything it wrote. */
    method Pair(code: Uuid, declared: DeviceKind, now: Instant) returns (r: Result<Uuid, Refusal>)
      requires code in stored.codes ==> (stored.codes[code].kind == Some(SiteDeployer) <==> stored.codes[code].site.Some?)
      modifies this
      ensures stored == Step(old(stored), Redeem(code, declared, now))
      ensures r ==
        if !Redeemable(old(stored), code, declared, now) then Err(NotAccepted)
        else if now < old(stored).codes[code].createdAt then Err(StatementRefused)
        else Ok(old(stored).minted)
    {
      var tx := new Transaction(stored);
      if code !in tx.codes || !PendingCode(tx.codes[code]) || tx.codes[code].expiresAt <= now
         || tx.codes[code].failedAttempts >= ATTEMPT_LIMIT {
        return Err(NotAccepted);
      }
      var refused := tx.RefusesKind(code, declared);
      if refused {
        return Err(NotAccepted);
      }
      var row := tx.codes[code];
      var device := tx.RegisterSiteDevice(row.user, declared, row.site, now, code);
      if device.Err? {
        return Err(StatementRefused);
      }
      var claimed := tx.ConsumeCode(code, device.value, now);
      if claimed.Err? {
        return Err(StatementRefused);
      }
      if claimed.value != 1 {
        return Err(NotAccepted);
      }
      var session := tx.OpenDeviceSession(row.user, device.value, now);
      stored := tx.View();
      r := Ok(device.value);
    }

    /** Log a device in with its root secret. */
    method OpenDeviceSession(device: Uuid, secret: Uuid, now: Instant) returns (r: Result<Uuid, Refusal>)
      modifies this
      ensures stored == Step(old(stored), OpenSession(device, secret, now))
      ensures r == if Authenticates(old(stored), device, secret) then Ok(old(stored).minted) else Err(Unauthenticated)
    {
      var tx := new Transaction(stored);
      if device !in tx.devices || tx.devices[device].revokedAt.Some? || tx.devices[device].secret != secret {
        return Err(Unauthenticated);
      }
      var session := tx.OpenDeviceSession(tx.devices[device].user, device, now);
      stored := tx.View();
      r := Ok(session);
    }

    /** The first half of a rotation: lock the presented link and decide on what the read returned. */
    method LockLink(t: nat, link: Uuid, now: Instant) returns (r: Result<Verdict, Refusal>)
      requires t !in stored.rotations && !Locked(stored, link)
      modifies this
      ensures stored == Step(old(stored), BeginRotation(t, link, now))
      ensures r == Presented(old(stored), link, now)
    {
      if link !in stored.links || stored.links[link].session !in stored.sessions {
        return Err(Unknown);
      }
      var l, s := stored.links[link], stored.sessions[stored.links[link].session];
      if l.consumedAt.Some? {
        stored := stored.(rotations := stored.rotations[t := Rotation(link, now, Replayed)]);
        return Ok(Replayed);
      }
      if l.expiresAt <= now {
        return Err(Expired);
      }
      if s.revokedAt.Some? || s.expiresAt <= now {
        return Err(SessionNotLive);
      }
      stored := stored.(rotations := stored.rotations[t := Rotation(link, now, Proceeds)]);
      r := Ok(Proceeds);
    }

    /**
      The second half: burn the family of a spent link, or spend the link and swap the session's
      credential. Only a full rotation and a burn are committed; `fails` is a failure of the audit
      record or of the commit.
    */
    method FinishRotation(t: nat, fails: bool) returns (r: Result<Uuid, Refusal>)
      requires t in stored.rotations && stored.rotations[t].link in stored.links
      requires stored.links[stored.rotations[t].link].session in stored.sessions
      modifies this
      ensures stored == Step(old(stored), EndRotation(t, !fails))
      ensures r.Ok? <==> !fails && CanFinish(old(stored), t) && old(stored).rotations[t].verdict.Proceeds?
      ensures r.Ok? ==> r.value == old(stored).minted
      ensures r == Err(Replay) <==> !fails && CanFinish(old(stored), t) && old(stored).rotations[t].verdict.Replayed?
      ensures var rotation := old(stored).rotations[t];
        var link := old(stored).links[rotation.link];
        r == Err(SessionNotLive) <==>
          rotation.verdict.Proceeds? && link.issuedAt <= rotation.now && old(stored).sessions[link.session].revokedAt.Some?
      ensures r.Err? ==> r.error == Replay || r.error == SessionNotLive || r.error == StatementRefused
      ensures r.Ok? ==>
        var s := old(stored).links[old(stored).rotations[t].link].session;
        && s in stored.sessions && r.value in stored.links && stored.links[r.value].session == s
        && forall u | u in old(stored).sessions && old(stored).sessions[u].token < old(stored).minted ::
             old(stored).sessions[u].token != stored.sessions[s].token
    {
      var rotation := stored.rotations[t];
      var session := stored.links[rotation.link].session;
      stored := stored.(rotations := stored.rotations - {t});
      var tx := new Transaction(stored);
      if rotation.verdict.Replayed? {
        var burned := tx.RevokeOne(session, rotation.now);
        if burned.Err? || fails {
          return Err(StatementRefused);
        }
        stored := tx.View();
        return Err(Replay);
      }
      var spent := tx.SpendLink(rotation.link, rotation.now);
      if spent.Err? {
        return Err(StatementRefused);
      }
      var swapped := tx.SwapCredential(session, spent.value + 1, spent.value, rotation.now);
      if swapped.Err? {
        return Err(StatementRefused);
      }
      if swapped.value != 1 {
        return Err(SessionNotLive);
      }
      if fails {
        return Err(StatementRefused);
      }
      stored := tx.View();
      r := Ok(spent.value);
    }

    method RevokeSessionById(session: Uuid, now: Instant) returns (r: Result<bool, Refusal>)
      modifies this
      ensures stored == Step(old(stored), RevokeSession(session, now))
      ensures r == Ok(true) <==>
        session in old(stored).sessions && old(stored).sessions[session].revokedAt.None?
        && old(stored).sessions[session].issuedAt <= now
      ensures r == Ok(false) <==> session in old(stored).sessions ==> old(stored).sessions[session].revokedAt.Some?
      ensures r.Err? ==> r.error == StatementRefused
    {
      var tx := new Transaction(stored);
      r := tx.RevokeOne(session, now);
      if r.Ok? {
        stored := tx.View();
      }
    }

    method RevokeAllOfUser(user: Uuid, now: Instant) returns (r: Result<nat, Refusal>)
      modifies this
      ensures stored == Step(old(stored), RevokeUser(user, now))
      ensures r.Ok? ==> forall s | s in stored.sessions && stored.sessions[s].user == user ::
        stored.sessions[s].revokedAt.Some?
      ensures r.Ok? <==> CanRevokeAll(old(stored), Some(user), None, now)
      ensures r.Ok? ==> r.value == |set s | s in old(stored).sessions && Matches(old(stored).sessions[s], Some(user), None)
                                     && old(stored).sessions[s].revokedAt.None?|
    {
      var tx := new Transaction(stored);
      r := tx.RevokeSessions(Some(user), None, now);
      if r.Ok? {
        stored := tx.View();
      }
    }

    /** Revoke the caller's device and every live session bound to it. */
    method DeleteDevice(actor: Uuid, device: Uuid, now: Instant) returns (r: Result<nat, Refusal>)
      modifies this
      ensures stored == Step(old(stored), RevokeDevice(actor, device, now))
      ensures r.Ok? <==> CanRevokeDevice(old(stored), actor, device, now)
      ensures r.Ok? ==> forall s | s in stored.sessions && stored.sessions[s].device == Some(device) ::
        stored.sessions[s].revokedAt.Some?
      ensures r.Ok? ==> r.value == |set s | s in old(stored).sessions && Matches(old(stored).sessions[s], None, Some(device))
                                     && old(stored).sessions[s].revokedAt.None?|
      ensures r == Err(NotFound) <==>
        !(device in old(stored).devices && old(stored).devices[device].user == actor
          && old(stored).devices[device].revokedAt.None?)
    {
      var tx := new Transaction(stored);
      if device !in tx.devices || tx.devices[device].user != actor || tx.devices[device].revokedAt.Some? {
        return Err(NotFound);
      }
      if now < tx.devices[device].createdAt {
        return Err(StatementRefused);
      }
      tx.devices := tx.devices[device := tx.devices[device].(revokedAt := Some(now))];
      r := tx.RevokeSessions(None, Some(device), now);
      if r.Ok? {
        stored := tx.View();
      }
    }
  }
}
