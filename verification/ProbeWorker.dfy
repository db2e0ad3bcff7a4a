/**
 * The control skeleton of one deep readiness check (src/clients/readiness_worker.py), and what it does
 * to the probe slot of its account.  How checks running side by side share the slots is ProbeSlots.
 */
module ProbeWorker {
  import opened Common
  import opened ReadinessStore
  import opened ReadinessPolicy

  datatype Outcome =
    SkippedInFlight | DryRun | SkippedActive | MissingAccount | SkippedNoSession | SessionError
    | ProbedReady | ProbedNotAuthorized | SkippedLocked | TempError | FailedException | Propagated

  datatype Connection = Connected | Refused(code: string) | ConnectRaised | ConnectCancelled

  // What one check meets: `acquireRaises` and `releaseRaises` are a slot lock that turns the caller away,
  // `loadRaises` is a failure before the connection block, `markRaises` a failure of the first snapshot
  // write inside it, `lastMarkRaises` one of the write in the handler, `cleanupCancelled` a cancellation
  // that arrives while the client is given back.
  datatype World = World(dryRun: bool, activeFirst: bool, loadRaises: bool, found: bool, kind: SessionKind,
                         resolverError: Option<string>, activeThen: bool, connection: Connection,
                         markRaises: bool, lastMarkRaises: bool, cleanupCancelled: bool,
                         acquireRaises: bool, releaseRaises: bool, at: int)

  predicate LockCode(code: string) { code == "session_lock_timeout" || code == "session_db_locked" }

  datatype Report = Report(outcome: Outcome, write: Option<Snapshot>)

  // The snapshot write a finished connection attempt calls for, before any failure of that write.
  function AfterConnection(ttl: Ttl, s: Option<Snapshot>, w: World): Report {
    match w.connection
    case Connected => Report(ProbedReady, Some(MarkReady(ttl, "readiness_worker_ok", w.at)))
    case ConnectRaised => Report(FailedException, None)
    case ConnectCancelled => Report(Propagated, None)
    case Refused(code) =>
      if code == "unauthorized_session" then
        Report(ProbedNotAuthorized, Some(MarkNotAuthorized("readiness_worker_not_authorized", w.at)))
      else if LockCode(code) then
        Report(SkippedLocked, if PreservesReady(s, code) then None else Some(MarkTemp(ttl, code, Some(code), w.at)))
      else if code == "failed_connect_network" then Report(TempError, Some(MarkTemp(ttl, code, Some(code), w.at)))
      else Report(SessionError, Some(MarkError(ttl, code, Some(code), w.at)))
  }

  function Handled(ttl: Ttl, w: World): Report {
    Report(FailedException,
           if w.lastMarkRaises then None
           else Some(MarkError(ttl, "readiness_worker_exception", Some("deep_check_exception"), w.at)))
  }

  // The report of a check that got the slot.
  function Check(ttl: Ttl, s: Option<Snapshot>, w: World): Report {
    if w.dryRun then Report(DryRun, None)
    else if w.activeFirst then Report(SkippedActive, None)
    else if w.loadRaises then Report(Propagated, None)
    else if !w.found then Report(MissingAccount, None)
    else if w.resolverError.Some? then
      Report(SessionError, Some(MarkError(ttl, w.resolverError.value, w.resolverError, w.at)))
    else if w.kind == Empty then Report(SkippedNoSession, None)
    else if w.activeThen then Report(SkippedActive, None)
    else
      var r := AfterConnection(ttl, s, w);
      if w.connection.ConnectRaised? || (r.write.Some? && w.markRaises) then Handled(ttl, w) else r
  }

  // A check moves the account to the back of the probe queue exactly when it wrote a snapshot: never
  // in a dry run, for an account in use, or when a lock failure met a READY row.
  lemma WhenACheckWrites(ttl: Ttl, s: Option<Snapshot>, w: World)
    ensures var r := Check(ttl, s, w);
            && (r.write.Some? ==> r.write.value.checkedAt == Some(w.at))
            && (r.write.None? <==>
                  r.outcome in {DryRun, SkippedActive, Propagated, MissingAccount, SkippedNoSession}
                  || (r.outcome == FailedException && w.lastMarkRaises)
                  || (r.outcome == SkippedLocked && s.Some? && s.value.status == Ready))
            && (r.outcome == ProbedReady <==> r.write.Some? && r.write.value.status == Ready)
  {
    hide Clipped;
  }

  // No early return stops the check.
  predicate ReachesConnection(w: World) {
    && !w.dryRun && !w.activeFirst && !w.loadRaises && w.found && w.resolverError.None? && w.kind != Empty
    && !w.activeThen
  }

  // A snapshot written at `at` with the given status, failure code and end of life.
  predicate Wrote(r: Report, status: Status, code: Option<string>, at: int, expires: Option<int>) {
    && r.write.Some? && r.write.value.status == status && r.write.value.checkedAt == Some(at)
    && r.write.value.expiresAt == expires
    && (code.Some? && 0 < |code.value| <= 64 ==> r.write.value.failureCode == code)
    && (code.None? ==> r.write.value.failureCode == None)
  }

  // Which write each end of a connection attempt calls for, as long as no write fails.
  lemma WritesByConnection(ttl: Ttl, s: Option<Snapshot>, w: World)
    requires ReachesConnection(w) && !w.markRaises && !w.lastMarkRaises
    ensures var r := Check(ttl, s, w);
            && (w.connection == Connected ==>
                  r.outcome == ProbedReady && Wrote(r, Ready, None, w.at, Some(w.at + ttl.ready * SECOND)))
            && (w.connection == ConnectRaised ==>
                  r.outcome == FailedException && Wrote(r, Error, Some("deep_check_exception"), w.at, Some(w.at + ttl.material * SECOND)))
            && (w.connection.Refused? ==> RefusalWrite(ttl, s, w.connection.code, w.at, r))
  {
    assert |"deep_check_exception"| == 20;
  }

  predicate RefusalWrite(ttl: Ttl, s: Option<Snapshot>, code: string, at: int, r: Report) {
    if code == "unauthorized_session" then
      r.outcome == ProbedNotAuthorized && Wrote(r, NotAuthorized, Some(code), at, None)
    else if code == "session_lock_timeout" || code == "session_db_locked" then
      && r.outcome == SkippedLocked
      && if s.Some? && s.value.status == Ready then r.write.None?
         else Wrote(r, TempConnect, Some(code), at, Some(at + ttl.temp * SECOND))
    else if code == "failed_connect_network" then
      r.outcome == TempError && Wrote(r, TempConnect, Some(code), at, Some(at + ttl.temp * SECOND))
    else
      r.outcome == SessionError && Wrote(r, Error, Some(code), at, Some(at + ttl.material * SECOND))
  }

  // One whole call: how it ends, what it writes, and whether it leaves its account's slot taken
  // although it had taken it itself.
  datatype Ending = Ending(outcome: Outcome, write: Option<Snapshot>, keepsSlot: bool)

  function Call(ttl: Ttl, taken: bool, s: Option<Snapshot>, w: World): Ending {
    if w.acquireRaises then Ending(Propagated, None, false)
    else if taken then Ending(SkippedInFlight, None, false)
    else
      var r := Check(ttl, s, w);
      var escapes := w.releaseRaises || (ReachesConnection(w) && w.cleanupCancelled);
      Ending(if escapes then Propagated else r.outcome, r.write, w.releaseRaises)
  }

  // A check is described as never raising.  It does exactly when the slot lock turns it away, loading
  // the account fails, or it is cancelled while it connects or gives the client back; only in the last
  // case, or when the release is turned away, can it have written a snapshot by then.
  lemma PropagatesIff(ttl: Ttl, taken: bool, s: Option<Snapshot>, w: World)
    ensures Call(ttl, taken, s, w).outcome == Propagated <==>
      w.acquireRaises
      || (!taken && (w.releaseRaises
                     || (!w.dryRun && !w.activeFirst && w.loadRaises)
                     || (ReachesConnection(w) && (w.cleanupCancelled || w.connection == ConnectCancelled))))
    ensures Call(ttl, taken, s, w).outcome == Propagated && Call(ttl, taken, s, w).write.Some? ==>
      w.releaseRaises || w.cleanupCancelled
  {
    hide Clipped;
  }

  /** The in-flight set of one process, as a single call finds it. */
  class Slots {
    var inFlight: set<int>

    constructor ()
      ensures inFlight == {}
    {
      inFlight := {};
    }

    // The section under the slot lock; None when the lock turns the caller away.
    method TryAcquire(id: int, raises: bool) returns (ok: Option<bool>)
      modifies this
      ensures ok == if raises then None else Some(id !in old(inFlight))
      ensures inFlight == if raises then old(inFlight) else old(inFlight) + {id}
    {
      if raises { return None; }
      ok := Some(false);
      if id !in inFlight {
        inFlight := inFlight + {id};
        ok := Some(true);
      }
    }

    method Release(id: int, raises: bool)
      modifies this
      ensures inFlight == if raises then old(inFlight) else old(inFlight) - {id}
    {
      if !raises { inFlight := inFlight - {id}; }
    }

    // The calls under the slot: early returns, the connection attempt, its handler.
    method Body(store: Store, id: int, w: World) returns (outcome: Outcome)
      requires !w.dryRun
      modifies store
      ensures outcome == Check(store.ttl, old(store.Fetch(id)), w).outcome
      ensures var r := Check(store.ttl, old(store.Fetch(id)), w);
              store.rows == if r.write.Some? then old(store.rows)[id := r.write.value] else old(store.rows)
    {
      if w.activeFirst {
        return SkippedActive;
      }
      if w.loadRaises {
        return Propagated;
      }
      if !w.found {
        return MissingAccount;
      }
      if w.resolverError.Some? {
        store.MarkReadinessError(id, w.resolverError.value, w.resolverError, w.at);
        return SessionError;
      }
      if w.kind == Empty {
        return SkippedNoSession;
      }
      if w.activeThen {
        return SkippedActive;
      }
      if w.connection.ConnectCancelled? {
        return Propagated;
      }
      var failed := w.connection.ConnectRaised?;
      if !failed {
        match w.connection {
          case ConnectRaised =>
          case ConnectCancelled =>
          case Connected =>
            if !w.markRaises {
              store.MarkReadyAfterSuccess(id, "readiness_worker_ok", w.at);
              return ProbedReady;
            }
          case Refused(code) =>
            if code == "unauthorized_session" {
              if !w.markRaises {
                store.MarkUnauthorized(id, "readiness_worker_not_authorized", w.at);
                return ProbedNotAuthorized;
              }
            } else if LockCode(code) {
              if PreservesReady(store.Fetch(id), code) {
                return SkippedLocked;
              }
              if !w.markRaises {
                store.MarkTempConnect(id, code, Some(code), w.at);
                return SkippedLocked;
              }
            } else if code == "failed_connect_network" {
              if !w.markRaises {
                store.MarkTempConnect(id, code, Some(code), w.at);
                return TempError;
              }
            } else {
              if !w.markRaises {
                store.MarkReadinessError(id, code, Some(code), w.at);
                return SessionError;
              }
            }
        }
      }
      if !w.lastMarkRaises {
        store.MarkReadinessError(id, "readiness_worker_exception", Some("deep_check_exception"), w.at);
      }
      return FailedException;
    }

    // Every way out gives the slot back unless the lock turns the release away; a call that found the
    // slot taken, or never got to look, touches nothing.
    method DeepCheckOne(store: Store, id: int, w: World) returns (outcome: Outcome)
      modifies this, store
      ensures var e := Call(store.ttl, id in old(inFlight), old(store.Fetch(id)), w);
              && outcome == e.outcome
              && inFlight == (if e.keepsSlot then old(inFlight) + {id} else old(inFlight))
              && store.rows == if e.write.Some? then old(store.rows)[id := e.write.value] else old(store.rows)
    {
      hide Check;
      var ok := TryAcquire(id, w.acquireRaises);
      if ok.None? {
        return Propagated;
      }
      if !ok.value {
        return SkippedInFlight;
      }
      if w.dryRun {
        DryRunWritesNothing(store.ttl, store.Fetch(id), w);
        Release(id, w.releaseRaises);
        return if w.releaseRaises then Propagated else DryRun;
      }
      outcome := Body(store, id, w);
      if ReachesConnection(w) && w.cleanupCancelled { outcome := Propagated; }
      Release(id, w.releaseRaises);
      if w.releaseRaises { outcome := Propagated; }
    }
  }

  lemma DryRunWritesNothing(ttl: Ttl, s: Option<Snapshot>, w: World)
    requires w.dryRun
    ensures Check(ttl, s, w) == Report(DryRun, None)
  {
  }
}
