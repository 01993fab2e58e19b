/** portal/program_ingest.py: who may publish a room's floor, one room at a time, and at most max_rooms of
    them. What one operation does to a room's row and health record, and the class that does it in place. */
module ProgramIngest {
  import opened Wrappers

  datatype Protocol = Rtmp | WebRtc | OtherProtocol

  /** A stored digest and when it expires. */
  datatype Credential = Credential(digest: nat, expires: real)

  datatype Settings = Settings(ingestEnabled: bool, relayEnabled: bool, maxRooms: nat, grace: real)

  /** The columns of a room that decide about its floor. `programIngest` and `relayMode` are the two values
      of floor_source and of program_ingest_mode. */
  datatype Row = Row(
    programIngest: bool, relayMode: bool, session: Option<nat>, key: Option<Credential>, sender: Option<Credential>)

  /** reservation_started_at and missing_since. */
  datatype Health = Health(reservation: Option<real>, missing: Option<real>)

  /** A room's row and, if the portal holds one, its health record. */
  datatype Floor = Floor(row: Row, health: Option<Health>)

  /** The media server's path: the session that publishes to it, and whether it can be read. */
  datatype Path = Path(source: Option<nat>, ready: bool)

  const NO_HEALTH := Health(None, None)
  const RESERVATION_RECENT := 5.0
  const SENDER_PENDING_SECS := 15.0

  // ---- Credentials ----

  predicate Live(credential: Option<Credential>, wall: real) {
    credential.Some? && credential.value.expires > wall
  }

  predicate Matches(credential: Option<Credential>, digest: nat, wall: real) {
    Live(credential, wall) && credential.value.digest == digest
  }

  predicate KeyDigestValid(row: Row, digest: nat, wall: real) {
    row.programIngest && Matches(row.key, digest, wall)
  }

  predicate CredentialDigestValid(row: Row, digest: nat, wall: real) {
    KeyDigestValid(row, digest, wall) || (row.programIngest && Matches(row.sender, digest, wall))
  }

  predicate HasValidCredential(row: Row, wall: real) {
    Live(row.key, wall) || Live(row.sender, wall)
  }

  predicate PublishPermitted(cfg: Settings, row: Row, protocol: Protocol, digest: nat, wall: real) {
    if row.relayMode then protocol == Rtmp && cfg.relayEnabled && KeyDigestValid(row, digest, wall)
    else protocol == WebRtc && CredentialDigestValid(row, digest, wall)
  }

  /** A credential opens one transport only, and none once it is revoked or expired. */
  lemma OneTransport(cfg: Settings, row: Row, p: Protocol, q: Protocol, digest: nat, other: nat, wall: real)
    requires PublishPermitted(cfg, row, p, digest, wall) && PublishPermitted(cfg, row, q, other, wall)
    ensures p == q && p != OtherProtocol && row.programIngest && HasValidCredential(row, wall)
    ensures (row.key.Some? && wall < row.key.value.expires) || (row.sender.Some? && wall < row.sender.value.expires)
    ensures p == Rtmp ==> digest == other == row.key.value.digest
  {
  }

  // ---- authorize_publish, first phase ----

  predicate Recent(health: Option<Health>, now: real, window: real) {
    health.Some? && health.value.reservation.Some? && health.value.reservation.value != 0.0
    && now - health.value.reservation.value < window
  }

  predicate SourceGone(path: Option<Path>) { path.None? || path.value.source.None? }

  /** A reservation of another session that no source backs any more is dropped. */
  function ClearStale(f: Floor, session: nat, now: real, path: Option<Path>): Floor {
    if f.row.session.Some? && f.row.session != Some(session) && !Recent(f.health, now, RESERVATION_RECENT)
       && SourceGone(path)
    then Floor(f.row.(session := None), None) else f
  }

  predicate Free(row: Row, session: nat) { row.session.None? || row.session == Some(session) }

  // ---- configure_source and the revocation that precedes it ----

  datatype Action = Enable(relayMode: bool) | Rotate | Revoke | Disable

  predicate ActionAllowed(cfg: Settings, row: Row, action: Action) {
    && (action.Enable? || action.Rotate? ==> cfg.ingestEnabled)
    && (action.Enable? && action.relayMode ==> cfg.relayEnabled)
    && (action.Rotate? || action.Revoke? ==> row.programIngest)
  }

  function Configured(f: Floor, action: Action, credential: Credential): Floor {
    var key := if action.Enable? || action.Rotate? then Some(credential) else None;
    var relayMode := if action.Enable? then action.relayMode else f.row.relayMode;
    Floor(Row(!action.Disable?, relayMode, None, key, None), None)
  }

  /** The first transaction of a revocation. */
  function Revoked(f: Floor): Floor {
    f.(row := f.row.(session := None, key := None, sender := None))
  }

  // ---- The browser sender ----

  predicate SenderRefused(f: Floor, path: Option<Path>, now: real) {
    f.row.programIngest && (f.row.relayMode || !SourceGone(path) || Recent(f.health, now, SENDER_PENDING_SECS))
  }

  function Opened(f: Floor, credential: Credential, now: real): Floor {
    Floor(Row(true, false, None, f.row.key, Some(credential)), Some(Health(Some(now), None)))
  }

  /** `kicked`: the media server confirmed the disconnect. A failure keeps what was done before it. */
  function Closed(f: Floor, secret: Option<nat>, kicked: bool): Floor {
    if secret.None? || f.row.sender.None? || f.row.sender.value.digest != secret.value then f
    else if f.row.session.Some? && !kicked then f.(row := f.row.(sender := None))
    else Floor(f.row.(session := None, sender := None), None)
  }

  // ---- What a change of source or credential means ----

  /** Whatever change of source or credential: nothing that opened the floor before opens it afterwards. */
  lemma ChangeRevokesOld(
    cfg: Settings, f: Floor, action: Action, secret: Credential, protocol: Protocol, digest: nat, wall: real)
    requires digest != secret.digest
    ensures !PublishPermitted(cfg, Configured(f, action, secret).row, protocol, digest, wall)
    ensures !PublishPermitted(cfg, Revoked(f).row, protocol, digest, wall)
  {
  }

  /** The new secret opens it exactly when one was asked for, over the transport of the room's mode, which
      only enabling chooses. */
  lemma NewSecretOpens(cfg: Settings, f: Floor, action: Action, secret: Credential, protocol: Protocol, wall: real)
    requires ActionAllowed(cfg, f.row, action)
    ensures var row := Configured(f, action, secret).row;
            && row.relayMode == (if action.Enable? then action.relayMode else f.row.relayMode)
            && (PublishPermitted(cfg, row, protocol, secret.digest, wall) <==>
                  (action.Enable? || action.Rotate?) && wall < secret.expires
                  && (if row.relayMode then protocol == Rtmp && cfg.relayEnabled else protocol == WebRtc))
  {
  }

  /** A browser sender's secret opens the floor over WebRTC only, beside the encoder key the room had. */
  lemma SenderSecretOpens(
    cfg: Settings, f: Floor, secret: Credential, now: real, protocol: Protocol, digest: nat, wall: real)
    ensures PublishPermitted(cfg, Opened(f, secret, now).row, protocol, digest, wall) <==>
              protocol == WebRtc && (Matches(f.row.key, digest, wall) || Matches(Some(secret), digest, wall))
  {
  }

  /** A second start is refused while the first sender may still be negotiating, and as soon as it publishes.
      A clock of 0.0 counts as no reservation. */
  lemma SecondStartIsRefused(f: Floor, secret: Credential, now: real, path: Option<Path>, later: real)
    requires now <= later
    ensures SenderRefused(Opened(f, secret, now), path, later) <==>
              (now != 0.0 && later - now < 15.0) || !SourceGone(path)
  {
  }

  // ---- reconcile_room ----

  predicate SessionLive(row: Row, path: Option<Path>) {
    path.Some? && path.value.source.Some? && row.session == path.value.source
  }

  /** The source at the path has no business there. */
  predicate Intruder(cfg: Settings, row: Row, path: Option<Path>, wall: real) {
    var permitted := cfg.ingestEnabled && (HasValidCredential(row, wall) || SessionLive(row, path));
    !SourceGone(path) && (!permitted || path.value.source != row.session)
  }

  predicate Connected(cfg: Settings, row: Row, path: Option<Path>, wall: real) {
    !Intruder(cfg, row, path, wall) && !SourceGone(path) && path.value.ready
  }

  /** A floor counts as connected exactly while the reserved session itself publishes and can be read, in a
      portal that takes ingest; a source that is not the reserved session never does. */
  lemma ConnectedExactly(cfg: Settings, row: Row, path: Option<Path>, wall: real)
    ensures Connected(cfg, row, path, wall) <==>
              cfg.ingestEnabled && path.Some? && path.value.ready && path.value.source.Some?
              && path.value.source == row.session
    ensures path.Some? && path.value.source.Some? && path.value.source != row.session ==>
              Intruder(cfg, row, path, wall)
  {
  }

  /** missing_since is set on the first look that finds neither a source nor a reservation. */
  function Missed(health: Option<Health>, now: real): (h: Health)
    ensures h.reservation.Some? || h.missing.Some?
  {
    var h := health.GetOr(NO_HEALTH);
    if h.reservation.None? && h.missing.None? then h.(missing := Some(now)) else h
  }

  function GraceStart(h: Health): real
    requires h.reservation.Some? || h.missing.Some?
  {
    if h.reservation.Some? then h.reservation.value else h.missing.value
  }

  /** `kicks.0`: an intruder could be disconnected, `kicks.1`: so could the reserved session. */
  function Reconciled(cfg: Settings, f: Floor, path: Option<Path>, now: real, wall: real, kicks: (bool, bool)): Floor {
    if Intruder(cfg, f.row, path, wall) && !kicks.0 then Floor(f.row, Some(f.health.GetOr(NO_HEALTH)))
    else if Connected(cfg, f.row, path, wall) then Floor(f.row, Some(NO_HEALTH))
    else
      var h := Missed(f.health, now);
      if now - GraceStart(h) < cfg.grace || (f.row.session.Some? && !kicks.1) then Floor(f.row, Some(h))
      else Floor(f.row.(session := None), Some(h.(reservation := None)))
  }

  /** Nobody publishes a readable feed, and an intruder, if there was one, is out. */
  ghost predicate Silent(cfg: Settings, row: Row, path: Option<Path>, wall: real, kicks: (bool, bool)) {
    !Connected(cfg, row, path, wall) && (Intruder(cfg, row, path, wall) ==> kicks.0)
  }

  /** A look at a silent floor waits for the grace period, from the reservation or else from the first such
      look since it was last well, and then gives the reservation up for good, nothing of it left to count. */
  lemma SilenceEnds(
    cfg: Settings, f: Floor, first: Option<Path>, now: real, wall: real, kicks: (bool, bool),
    second: Option<Path>, later: real, wall2: real, kicks2: (bool, bool))
    requires cfg.grace > 0.0 && now <= later && f.health in {None, Some(NO_HEALTH)}
    requires Silent(cfg, f.row, first, wall, kicks) && Silent(cfg, f.row, second, wall2, kicks2) && kicks2.1
    ensures var waiting := Reconciled(cfg, f, first, now, wall, kicks);
            && waiting == Floor(f.row, Some(Health(None, Some(now))))
            && (later - now < cfg.grace ==> Reconciled(cfg, waiting, second, later, wall2, kicks2) == waiting)
            && (later - now >= cfg.grace ==>
                  Reconciled(cfg, waiting, second, later, wall2, kicks2)
                  == Floor(f.row.(session := None), Some(Health(None, Some(now)))))
  {
  }

  /** A reservation that never connects is given up a grace period after it began, and a disconnect that fails
      leaves everything to the next look. */
  lemma ReservationEnds(
    cfg: Settings, row: Row, began: real, path: Option<Path>, now: real, wall: real, kicks: (bool, bool))
    requires !Connected(cfg, row, path, wall)
    ensures var f := Floor(row, Some(Health(Some(began), None)));
            Reconciled(cfg, f, path, now, wall, kicks)
            == if (Intruder(cfg, row, path, wall) && !kicks.0) || now - began < cfg.grace
                  || (row.session.Some? && !kicks.1)
               then f else Floor(row.(session := None), Some(NO_HEALTH))
    ensures Intruder(cfg, row, path, wall) && !kicks.0 ==>
              Reconciled(cfg, Floor(row, None), path, now, wall, kicks) == Floor(row, Some(Health(None, None)))
  {
  }

  /** One room's row and health record, updated in place as the portal does. */
  class FloorRecord {
    var programIngest: bool
    var relayMode: bool
    var session: Option<nat>
    var key: Option<Credential>
    var sender: Option<Credential>
    var health: Option<Health>

    constructor ()
      ensures Value() == Floor(Row(false, false, None, None, None), None)
    {
      programIngest, relayMode, session, key, sender, health := false, false, None, None, None, None;
    }

    function Stored(): Row
      reads this
    {
      Row(programIngest, relayMode, session, key, sender)
    }

    ghost function Value(): Floor
      reads this
    {
      Floor(Stored(), health)
    }

    /** The room's part of authorize_publish's first phase: whether the call may go on to the capacity check. */
    method BeginPublish(
      cfg: Settings, id: Option<nat>, protocol: Protocol, digest: nat, path: Option<Path>, now: real, wall: real)
      returns (proceed: bool)
      modifies this
      ensures proceed <==> programIngest && cfg.ingestEnabled && id.Some? && Free(Stored(), id.value)
                           && PublishPermitted(cfg, old(Stored()), protocol, digest, wall)
      ensures Value() == if proceed then ClearStale(old(Value()), id.value, now, path) else old(Value())
    {
      if !programIngest || !cfg.ingestEnabled || !PublishPermitted(cfg, Stored(), protocol, digest, wall) || id.None? {
        return false;
      }
      if session.Some? && session != id && !Recent(health, now, RESERVATION_RECENT) && SourceGone(path) {
        session := None;
        health := None;
      }
      return session.None? || session == id;
    }

    /** Whether the change is allowed, and the change. */
    method ConfigureSource(cfg: Settings, action: Action, secret: Credential) returns (ok: bool)
      modifies this
      ensures ok <==> match action
                      case Enable(relay) => cfg.ingestEnabled && (relay ==> cfg.relayEnabled)
                      case Rotate => cfg.ingestEnabled && old(programIngest)
                      case Revoke => old(programIngest)
                      case Disable => true
      ensures ok <==> ActionAllowed(cfg, old(Stored()), action)
      ensures Value() == if ok then Configured(old(Value()), action, secret) else old(Value())
    {
      if (action.Enable? || action.Rotate?) && !cfg.ingestEnabled { return false; }
      if action.Enable? && action.relayMode && !cfg.relayEnabled { return false; }
      if (action.Rotate? || action.Revoke?) && !programIngest { return false; }
      session := None;
      key := None;
      sender := None;
      programIngest := !action.Disable?;
      if action.Enable? { relayMode := action.relayMode; }
      health := None;
      if action.Enable? || action.Rotate? { key := Some(secret); }
      return true;
    }

    method OpenSenderSession(path: Option<Path>, secret: Credential, now: real) returns (ok: bool)
      modifies this
      ensures ok <==> !SenderRefused(old(Value()), path, now)
      ensures Value() == if ok then Opened(old(Value()), secret, now) else old(Value())
    {
      if programIngest && relayMode { return false; }
      if programIngest && (!SourceGone(path) || Recent(health, now, SENDER_PENDING_SECS)) { return false; }
      if session.Some? { session := None; }
      programIngest, relayMode, sender := true, false, Some(secret);
      var pending := health.GetOr(NO_HEALTH);
      health := Some(pending.(reservation := Some(now), missing := None));
      return true;
    }

    method CloseSenderSession(secret: Option<nat>, kicked: bool)
      modifies this
      ensures Value() == Closed(old(Value()), secret, kicked)
    {
      if secret.None? || sender.None? { return; }
      if sender.value.digest != secret.value { return; }
      sender := None;
      if session.Some? {
        if !kicked { return; }
        session := None;
      }
      health := None;
    }

    method ReconcileRoom(cfg: Settings, path: Option<Path>, now: real, wall: real, kicks: (bool, bool))
      modifies this
      ensures Value() == Reconciled(cfg, old(Value()), path, now, wall, kicks)
    {
      var current := health.GetOr(NO_HEALTH);
      health := Some(current);
      var seen := path;
      if Intruder(cfg, Stored(), path, wall) {
        if !kicks.0 { return; }
        seen := None;
      }
      if SourceGone(seen) || !seen.value.ready {
        if current.reservation.None? {
          current := current.(missing := Some(current.missing.GetOr(now)));
        }
        health := Some(current);
        if now - GraceStart(current) >= cfg.grace {
          if session.Some? {
            if !kicks.1 { return; }
            session := None;
          }
          health := Some(current.(reservation := None));
        }
      } else {
        health := Some(NO_HEALTH);
      }
    }
  }
}
