/**
 * Readiness snapshots: the rows the probes write and the pure reading of them
 * (src/clients/readiness_store.py).
 */
module ReadinessStore {
  import opened Common

  datatype Status = Ready | Error | NotAuthorized | TempConnect | Other(name: string)

  datatype Snapshot = Snapshot(status: Status, failureCode: Option<string>, reason: Option<string>,
                               checkedAt: Option<int>, expiresAt: Option<int>)

  // The lifetimes are read from the environment without bounds.
  datatype Ttl = Ttl(ready: int, temp: int, error: int, material: int, trust: int)

  function StatusTtl(ttl: Ttl, s: Status): int {
    match s
    case TempConnect => ttl.temp
    case Error => ttl.error
    case NotAuthorized => ttl.error
    case _ => ttl.ready
  }

  predicate Expired(ttl: Ttl, s: Snapshot, now: int) {
    if s.expiresAt.Some? then now >= s.expiresAt.value
    else s.checkedAt.None? || now - s.checkedAt.value > StatusTtl(ttl, s.status) * SECOND
  }

  predicate Trusted(ttl: Ttl, s: Option<Snapshot>, now: int) {
    && s.Some? && !Expired(ttl, s.value, now) && s.value.status == Ready
    && s.value.checkedAt.Some? && now - s.value.checkedAt.value <= ttl.trust * SECOND
  }

  // Dashboard overlay

  // The readiness fields of a dashboard row; None when the row has no such key.
  datatype Overlay = Overlay(status: Option<string>, state: Option<string>)

  function StatusText(s: Status): string {
    match s
    case Ready => "READY"
    case Error => "ERROR"
    case NotAuthorized => "NOT_AUTHORIZED"
    case TempConnect => "TEMP_CONNECT"
    case Other(name) => name
  }

  function StateText(ttl: Ttl, s: Option<Snapshot>, now: int): string {
    if s.None? || Expired(ttl, s.value, now) then "UNKNOWN"
    else match s.value.status
      case Ready => if Trusted(ttl, s, now) then "READY" else "STALE"
      case TempConnect => "RETRY"
      case NotAuthorized => "NOT_AUTHORIZED"
      case Error => "ERROR"
      case Other(name) => name
  }

  function Overlaid(ttl: Ttl, row: Overlay, s: Option<Snapshot>, now: int): Overlay {
    if s.None? then Overlay(Some(row.status.GetOr("UNKNOWN")), Some(row.state.GetOr("UNKNOWN")))
    else if Expired(ttl, s.value, now) then
      Overlay(Some("UNKNOWN"), Some(if s.value.status == Ready then "STALE" else "UNKNOWN"))
    else Overlay(Some(StatusText(s.value.status)), Some(StateText(ttl, s, now)))
  }

  predicate CampaignReady(purpose: string, accountStatus: string, error: bool, row: Overlay) {
    && purpose != "ai_agent" && (accountStatus == "" || accountStatus == "active") && !error
    && row.status == Some("READY") && row.state == Some("READY")
  }

  // A row that starts without readiness fields shows as ready exactly when its account may serve
  // campaigns, is active and without error, and its snapshot is trusted.  `Other` statuses never
  // spell READY.
  lemma CampaignReadyIffTrusted(ttl: Ttl, s: Option<Snapshot>, now: int, purpose: string, accountStatus: string, error: bool)
    requires s.Some? && s.value.status.Other? ==> s.value.status.name != "READY"
    ensures CampaignReady(purpose, accountStatus, error, Overlaid(ttl, Overlay(None, None), s, now))
       <==> && Trusted(ttl, s, now) && purpose != "ai_agent"
            && (accountStatus == "" || accountStatus == "active") && !error
  {
    assert "UNKNOWN"[0] != "READY"[0] && "STALE"[0] != "READY"[0];
    assert |"ERROR"| == 5 && "ERROR"[0] != "READY"[0] && "NOT_AUTHORIZED"[0] != "READY"[0] && "TEMP_CONNECT"[0] != "READY"[0];
  }

  // Without an end of life of its own a snapshot lasts as long as its status does, and one that was
  // never taken is over.
  lemma LifetimeByStatus(ttl: Ttl, s: Snapshot, now: int)
    ensures s.expiresAt.Some? ==> (Expired(ttl, s, now) <==> now >= s.expiresAt.value)
    ensures s.expiresAt.None? && s.checkedAt.None? ==> Expired(ttl, s, now)
    ensures s.expiresAt.None? && s.checkedAt.Some? ==>
              var lived := now - s.checkedAt.value;
              && (s.status == TempConnect ==> (Expired(ttl, s, now) <==> lived > ttl.temp * SECOND))
              && (s.status == Error || s.status == NotAuthorized ==> (Expired(ttl, s, now) <==> lived > ttl.error * SECOND))
              && (s.status == Ready || s.status.Other? ==> (Expired(ttl, s, now) <==> lived > ttl.ready * SECOND))
  {
  }

  // What the dashboard shows for a snapshot, whatever the row held before.
  lemma ShownReadiness(ttl: Ttl, row: Overlay, s: Snapshot, now: int)
    ensures var shown := Overlaid(ttl, row, Some(s), now);
            if Expired(ttl, s, now) then
              shown == Overlay(Some("UNKNOWN"), Some(if s.status == Ready then "STALE" else "UNKNOWN"))
            else
              && (s.status == Ready ==> shown == Overlay(Some("READY"), Some(if Trusted(ttl, Some(s), now) then "READY" else "STALE")))
              && (s.status == Error ==> shown == Overlay(Some("ERROR"), Some("ERROR")))
              && (s.status == NotAuthorized ==> shown == Overlay(Some("NOT_AUTHORIZED"), Some("NOT_AUTHORIZED")))
              && (s.status == TempConnect ==> shown == Overlay(Some("TEMP_CONNECT"), Some("RETRY")))
              && (s.status.Other? ==> shown == Overlay(Some(s.status.name), Some(s.status.name)))
  {
  }

  // Writes

  function Clipped(text: Option<string>, limit: nat): Option<string> {
    if text.None? || text.value == "" then None
    else Some(if |text.value| <= limit then text.value else text.value[..limit])
  }

  function Written(status: Status, reason: Option<string>, code: Option<string>, at: int, expires: Option<int>): Snapshot {
    Snapshot(status, Clipped(code, 64), Clipped(reason, 4000), Some(at), expires)
  }

  function MarkReady(ttl: Ttl, reason: string, at: int): Snapshot {
    Written(Ready, Clipped(Some(reason), 500), None, at, Some(at + ttl.ready * SECOND))
  }

  function MarkNotAuthorized(reason: string, at: int): Snapshot {
    Written(NotAuthorized, Clipped(Some(reason), 2000), Some("unauthorized_session"), at, None)
  }

  function MarkTemp(ttl: Ttl, reason: string, code: Option<string>, at: int): Snapshot {
    Written(TempConnect, Clipped(Some(reason), 2000), code, at, Some(at + ttl.temp * SECOND))
  }

  function MarkError(ttl: Ttl, reason: string, code: Option<string>, at: int): Snapshot {
    Written(Error, Clipped(Some(reason), 2000), code, at, Some(at + ttl.material * SECOND))
  }

  // A lock failure keeps a READY row, however old it is.
  predicate PreservesReady(s: Option<Snapshot>, code: string) {
    (code == "session_lock_timeout" || code == "session_db_locked") && s.Some? && s.value.status == Ready
  }

  /** The account_readiness_snapshots table: at most one row per account. */
  class Store {
    const ttl: Ttl
    var rows: map<int, Snapshot>

    constructor (ttl: Ttl, rows: map<int, Snapshot>)
      ensures this.ttl == ttl && this.rows == rows
    {
      this.ttl, this.rows := ttl, rows;
    }

    function Fetch(id: int): Option<Snapshot>
      reads this
    {
      if id in rows then Some(rows[id]) else None
    }

    method Upsert(id: int, status: Status, reason: Option<string>, code: Option<string>, at: int, expires: Option<int>)
      modifies this
      ensures rows == old(rows)[id := Written(status, reason, code, at, expires)]
    {
      var reasonTrim, codeTrim := Clipped(reason, 4000), Clipped(code, 64);
      if id in rows {
        var row := rows[id];
        row := row.(status := status);
        row := row.(reason := reasonTrim);
        row := row.(failureCode := codeTrim);
        row := row.(checkedAt := Some(at));
        row := row.(expiresAt := expires);
        rows := rows[id := row];
        return;
      }
      rows := rows[id := Snapshot(status, codeTrim, reasonTrim, Some(at), expires)];
    }

    method MarkReadyAfterSuccess(id: int, reason: string, now: int)
      modifies this
      ensures rows == old(rows)[id := MarkReady(ttl, reason, now)]
    {
      Upsert(id, Ready, Clipped(Some(reason), 500), None, now, Some(now + ttl.ready * SECOND));
    }

    method MarkUnauthorized(id: int, reason: string, now: int)
      modifies this
      ensures rows == old(rows)[id := MarkNotAuthorized(reason, now)]
    {
      Upsert(id, NotAuthorized, Clipped(Some(reason), 2000), Some("unauthorized_session"), now, None);
    }

    method MarkTempConnect(id: int, reason: string, code: Option<string>, now: int)
      modifies this
      ensures rows == old(rows)[id := MarkTemp(ttl, reason, code, now)]
    {
      Upsert(id, TempConnect, Clipped(Some(reason), 2000), code, now, Some(now + ttl.temp * SECOND));
    }

    method MarkReadinessError(id: int, reason: string, code: Option<string>, now: int)
      modifies this
      ensures rows == old(rows)[id := MarkError(ttl, reason, code, now)]
    {
      Upsert(id, Error, Clipped(Some(reason), 2000), code, now, Some(now + ttl.material * SECOND));
    }
  }

  // Only a successful probe makes an account trusted, and it stays trusted for exactly the shorter
  // of its lifetime and the trust window.
  lemma TrustAfterMark(ttl: Ttl, reason: string, code: Option<string>, at: int, now: int)
    ensures Trusted(ttl, Some(MarkReady(ttl, reason, at)), now)
       <==> now < at + ttl.ready * SECOND && now <= at + ttl.trust * SECOND
    ensures !Trusted(ttl, Some(MarkNotAuthorized(reason, at)), now)
    ensures !Trusted(ttl, Some(MarkTemp(ttl, reason, code, at)), now)
    ensures !Trusted(ttl, Some(MarkError(ttl, reason, code, at)), now)
  {
  }
}
