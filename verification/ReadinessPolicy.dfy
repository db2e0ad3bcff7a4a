/**
 * Which accounts the readiness worker probes next (src/clients/readiness_worker_policy.py).
 */
module ReadinessPolicy {
  import opened Common
  import opened ReadinessStore

  datatype Reason =
    AllowFilter | ExcludedReserved | ExcludedPurpose | Disabled | Quarantined | NoSessionMaterial | ActiveRuntime
    | FreshReady | AuthBackoff | TransientBackoff | ErrorBackoff | TrustedRecent
    | ResolverErrorDue | MissingSnapshot | ExpiredSnapshot | StaleReady | AuthBackoffElapsed
    | TransientBackoffElapsed | ErrorBackoffElapsed | Due

  datatype Config = Config(allowIds: Option<set<int>>, authBackoff: int, transientBackoff: int, batchSize: nat)

  datatype SessionKind = File | Text | Empty

  // What the policy reads of an account besides its snapshot.
  datatype Account = Account(id: int, reserved: bool, purpose: string, active: bool, quarantined: bool,
                             kind: SessionKind, resolverError: bool, busy: bool)

  // The checks before the snapshot: Some reason when they decide on their own.
  function Screened(cfg: Config, a: Account): Option<(bool, Reason)> {
    if cfg.allowIds.Some? && a.id !in cfg.allowIds.value then Some((false, AllowFilter))
    else if a.reserved then Some((false, ExcludedReserved))
    else if a.purpose == "autostory" || a.purpose == "ai_agent" || a.purpose == "disabled" then Some((false, ExcludedPurpose))
    else if !a.active then Some((false, Disabled))
    else if a.quarantined then Some((false, Quarantined))
    else if a.resolverError then Some((true, ResolverErrorDue))
    else if a.kind == Empty then Some((false, NoSessionMaterial))
    else if a.busy then Some((false, ActiveRuntime))
    else None
  }

  function SnapshotDue(cfg: Config, ttl: Ttl, s: Option<Snapshot>, now: int): (bool, Reason) {
    if s.None? then (true, MissingSnapshot)
    else if Expired(ttl, s.value, now) then (true, ExpiredSnapshot)
    else if s.value.checkedAt.None? then (true, Due)
    else
      var age := now - s.value.checkedAt.value;
      match s.value.status
      case Ready => if age <= ttl.trust * SECOND then (false, FreshReady) else (true, StaleReady)
      case NotAuthorized => if age < cfg.authBackoff * SECOND then (false, AuthBackoff) else (true, AuthBackoffElapsed)
      case TempConnect =>
        if age < cfg.transientBackoff * SECOND then (false, TransientBackoff) else (true, TransientBackoffElapsed)
      case Error => if age < ttl.error * SECOND then (false, ErrorBackoff) else (true, ErrorBackoffElapsed)
      case Other(_) => if age <= ttl.trust * SECOND then (false, TrustedRecent) else (true, Due)
  }

  function ProbeDue(cfg: Config, ttl: Ttl, a: Account, s: Option<Snapshot>, now: int): (bool, Reason) {
    var screened := Screened(cfg, a);
    if screened.Some? then screened.value else SnapshotDue(cfg, ttl, s, now)
  }

  predicate Eligible(cfg: Config, a: Account) { Screened(cfg, a).None? }

  // Due time is a threshold

  // First instant past the expiry rule.
  function ExpiryInstant(ttl: Ttl, s: Snapshot): int
    requires s.checkedAt.Some?
  {
    if s.expiresAt.Some? then s.expiresAt.value
    else s.checkedAt.value + StatusTtl(ttl, s.status) * SECOND + 1
  }

  // First instant past the status back-off.
  function BackoffInstant(cfg: Config, ttl: Ttl, s: Snapshot): int
    requires s.checkedAt.Some?
  {
    match s.status
    case NotAuthorized => s.checkedAt.value + cfg.authBackoff * SECOND
    case TempConnect => s.checkedAt.value + cfg.transientBackoff * SECOND
    case Error => s.checkedAt.value + ttl.error * SECOND
    case _ => s.checkedAt.value + ttl.trust * SECOND + 1
  }

  // Who may be probed, and when

  // Nothing about the account itself forbids a probe.
  predicate Admitted(cfg: Config, a: Account) {
    && (cfg.allowIds.Some? ==> a.id in cfg.allowIds.value) && !a.reserved
    && a.purpose !in ["autostory", "ai_agent", "disabled"] && a.active && !a.quarantined
  }

  // It has a session, and nobody is using it.
  predicate Idle(a: Account) { !a.resolverError && (a.kind == File || a.kind == Text) && !a.busy }

  // The snapshot is over, or what it says is no longer to be waited for.
  predicate SnapshotOver(cfg: Config, ttl: Ttl, s: Option<Snapshot>, now: int) {
    s.None? || s.value.checkedAt.None? || now >= Min(ExpiryInstant(ttl, s.value), BackoffInstant(cfg, ttl, s.value))
  }

  predicate MustProbe(cfg: Config, ttl: Ttl, a: Account, s: Option<Snapshot>, now: int) {
    Admitted(cfg, a) && (a.resolverError || (Idle(a) && SnapshotOver(cfg, ttl, s, now)))
  }

  // An account is due only if admitted: at once when its session cannot be resolved, and otherwise
  // exactly when it has a session nobody uses and no snapshot holds it back.
  lemma DueIff(cfg: Config, ttl: Ttl, a: Account, s: Option<Snapshot>, now: int)
    ensures ProbeDue(cfg, ttl, a, s, now).0 <==> MustProbe(cfg, ttl, a, s, now)
    ensures Eligible(cfg, a) <==> Admitted(cfg, a) && Idle(a)
  {
    if Eligible(cfg, a) && s.Some? {
      DueIsThreshold(cfg, ttl, a, s.value, now);
    }
  }

  // When an account is skipped for each reason, in the order the reasons take precedence.
  predicate SkippedAs(cfg: Config, ttl: Ttl, a: Account, s: Option<Snapshot>, now: int, r: Reason) {
    var allowed := cfg.allowIds.None? || a.id in cfg.allowIds.value;
    var served := a.purpose !in ["autostory", "ai_agent", "disabled"];
    var held := Admitted(cfg, a) && Idle(a) && !SnapshotOver(cfg, ttl, s, now);
    match r
    case AllowFilter => !allowed
    case ExcludedReserved => allowed && a.reserved
    case ExcludedPurpose => allowed && !a.reserved && !served
    case Disabled => allowed && !a.reserved && served && !a.active
    case Quarantined => allowed && !a.reserved && served && a.active && a.quarantined
    case NoSessionMaterial => Admitted(cfg, a) && !a.resolverError && a.kind == Empty
    case ActiveRuntime => Admitted(cfg, a) && !a.resolverError && a.kind != Empty && a.busy
    case FreshReady => held && s.value.status == Ready
    case AuthBackoff => held && s.value.status == NotAuthorized
    case TransientBackoff => held && s.value.status == TempConnect
    case ErrorBackoff => held && s.value.status == Error
    case TrustedRecent => held && s.value.status.Other?
    case _ => false
  }

  lemma SkippedIff(cfg: Config, ttl: Ttl, a: Account, s: Option<Snapshot>, now: int, r: Reason)
    ensures ProbeDue(cfg, ttl, a, s, now) == (false, r) <==> SkippedAs(cfg, ttl, a, s, now, r)
  {
    DueIff(cfg, ttl, a, s, now);
  }

  // For a fixed snapshot an eligible account turns due once, at the earlier of the two instants.
  lemma DueIsThreshold(cfg: Config, ttl: Ttl, a: Account, s: Snapshot, now: int)
    requires Eligible(cfg, a)
    ensures ProbeDue(cfg, ttl, a, Some(s), now).0
       <==> s.checkedAt.None? || now >= Min(ExpiryInstant(ttl, s), BackoffInstant(cfg, ttl, s))
  {
  }

  lemma DueStaysDue(cfg: Config, ttl: Ttl, a: Account, s: Option<Snapshot>, now: int, later: int)
    requires now <= later && ProbeDue(cfg, ttl, a, s, now).0
    ensures ProbeDue(cfg, ttl, a, s, later).0
  {
    if Eligible(cfg, a) && s.Some? {
      DueIsThreshold(cfg, ttl, a, s.value, now);
      DueIsThreshold(cfg, ttl, a, s.value, later);
    }
  }

  lemma FreshReadyIffTrusted(cfg: Config, ttl: Ttl, a: Account, s: Option<Snapshot>, now: int)
    requires Eligible(cfg, a)
    ensures ProbeDue(cfg, ttl, a, s, now) == (false, FreshReady) <==> Trusted(ttl, s, now)
    ensures ProbeDue(cfg, ttl, a, s, now).1 == FreshReady <==> Trusted(ttl, s, now)
  {
  }

  // What the dashboard calls campaign ready is exactly what the worker leaves alone as fresh.
  lemma CampaignReadyIsNotProbed(cfg: Config, ttl: Ttl, a: Account, s: Option<Snapshot>, now: int)
    requires Eligible(cfg, a)
    requires s.Some? && s.value.status.Other? ==> s.value.status.name != "READY"
    ensures CampaignReady(a.purpose, "active", false, Overlaid(ttl, Overlay(None, None), s, now))
       <==> ProbeDue(cfg, ttl, a, s, now) == (false, FreshReady)
  {
    FreshReadyIffTrusted(cfg, ttl, a, s, now);
    CampaignReadyIffTrusted(ttl, s, now, a.purpose, "active", false);
  }

  // When each kind of written row becomes due again.
  lemma DueAfterMark(cfg: Config, ttl: Ttl, a: Account, reason: string, code: Option<string>, at: int, now: int)
    requires Eligible(cfg, a)
    ensures ProbeDue(cfg, ttl, a, Some(MarkReady(ttl, reason, at)), now).0
       <==> now >= at + Min(ttl.ready * SECOND, ttl.trust * SECOND + 1)
    ensures ProbeDue(cfg, ttl, a, Some(MarkNotAuthorized(reason, at)), now).0
       <==> now >= at + Min(ttl.error * SECOND + 1, cfg.authBackoff * SECOND)
    ensures ProbeDue(cfg, ttl, a, Some(MarkTemp(ttl, reason, code, at)), now).0
       <==> now >= at + Min(ttl.temp * SECOND, cfg.transientBackoff * SECOND)
    ensures ProbeDue(cfg, ttl, a, Some(MarkError(ttl, reason, code, at)), now).0
       <==> now >= at + Min(ttl.material * SECOND, ttl.error * SECOND)
  {
    DueIsThreshold(cfg, ttl, a, MarkReady(ttl, reason, at), now);
    DueIsThreshold(cfg, ttl, a, MarkNotAuthorized(reason, at), now);
    DueIsThreshold(cfg, ttl, a, MarkTemp(ttl, reason, code, at), now);
    DueIsThreshold(cfg, ttl, a, MarkError(ttl, reason, code, at), now);
  }

  // The configured back-off after an authorization failure is honoured exactly when it does not
  // exceed the error lifetime; with the defaults, 3600 s against 1800 s, it is cut short.
  lemma AuthBackoffHonouredIff(cfg: Config, ttl: Ttl, a: Account, reason: string, at: int)
    requires Eligible(cfg, a)
    ensures (forall now: int {:trigger ProbeDue(cfg, ttl, a, Some(MarkNotAuthorized(reason, at)), now)} ::
               now < at + cfg.authBackoff * SECOND ==> !ProbeDue(cfg, ttl, a, Some(MarkNotAuthorized(reason, at)), now).0)
       <==> cfg.authBackoff <= ttl.error
  {
    var s := MarkNotAuthorized(reason, at);
    forall now: int
      ensures ProbeDue(cfg, ttl, a, Some(s), now).0 <==> now >= at + Min(ttl.error * SECOND + 1, cfg.authBackoff * SECOND)
    {
      DueAfterMark(cfg, ttl, a, reason, None, at, now);
    }
    var early := at + ttl.error * SECOND + 1;
    assert ProbeDue(cfg, ttl, a, Some(s), early).0;
  }

  // Selection

  datatype Key = Key(at: int, id: int)

  predicate Before(a: Key, b: Key) { a.at < b.at || (a.at == b.at && a.id < b.id) }

  function KeyOf(a: Account, s: Option<Snapshot>): Key {
    Key(if s.Some? then s.value.checkedAt.GetOr(DATETIME_MIN) else DATETIME_MIN, a.id)
  }

  type Table = map<int, Snapshot>

  function Lookup(t: Table, id: int): Option<Snapshot> {
    if id in t then Some(t[id]) else None
  }

  predicate DueNow(cfg: Config, ttl: Ttl, t: Table, now: int, a: Account) {
    ProbeDue(cfg, ttl, a, Lookup(t, a.id), now).0
  }

  function DueKeys(cfg: Config, ttl: Ttl, accounts: seq<Account>, t: Table, now: int): (ks: seq<Key>)
    ensures forall k :: k in ks <==> exists a :: a in accounts && DueNow(cfg, ttl, t, now, a) && k == KeyOf(a, Lookup(t, a.id))
  {
    if accounts == [] then []
    else
      var last := accounts[|accounts| - 1];
      var front := DueKeys(cfg, ttl, accounts[..|accounts| - 1], t, now);
      assert accounts == accounts[..|accounts| - 1] + [last];
      if DueNow(cfg, ttl, t, now, last) then front + [KeyOf(last, Lookup(t, last.id))] else front
  }

  predicate Ascending(ks: seq<Key>) { forall i, j :: 0 <= i < j < |ks| ==> !Before(ks[j], ks[i]) }

  function InsertKey(k: Key, ks: seq<Key>): (r: seq<Key>)
    ensures |r| == |ks| + 1
  {
    if ks == [] || Before(k, ks[0]) then [k] + ks else [ks[0]] + InsertKey(k, ks[1..])
  }

  // The library sort; keys of distinct accounts are distinct, so stability does not matter.
  function SortKeys(ks: seq<Key>): (r: seq<Key>)
    ensures |r| == |ks|
  {
    if ks == [] then [] else InsertKey(ks[|ks| - 1], SortKeys(ks[..|ks| - 1]))
  }

  lemma {:induction false} InsertKeyKeepsAll(k: Key, ks: seq<Key>)
    ensures multiset(InsertKey(k, ks)) == multiset(ks) + multiset{k}
  {
    hide Before;
    if ks != [] && !Before(k, ks[0]) {
      InsertKeyKeepsAll(k, ks[1..]);
      assert ks == [ks[0]] + ks[1..];
    }
  }

  lemma {:induction false} InsertKeyPlaces(k: Key, ks: seq<Key>)
    requires Ascending(ks)
    ensures Ascending(InsertKey(k, ks))
  {
    if ks != [] && !Before(k, ks[0]) {
      var rest := InsertKey(k, ks[1..]);
      InsertKeyPlaces(k, ks[1..]);
      InsertKeyKeepsAll(k, ks[1..]);
      forall j | 0 <= j < |rest|
        ensures !Before(rest[j], ks[0])
      {
        assert rest[j] in multiset(rest);
        assert rest[j] == k || rest[j] in ks[1..];
      }
      assert InsertKey(k, ks) == [ks[0]] + rest;
    } else if ks != [] {
      forall j | 0 <= j < |ks|
        ensures !Before(ks[j], k)
      {
        assert j == 0 || !Before(ks[j], ks[0]);
      }
      assert InsertKey(k, ks) == [k] + ks;
    }
  }

  lemma {:induction false} SortKeysSorts(ks: seq<Key>)
    ensures Ascending(SortKeys(ks)) && multiset(SortKeys(ks)) == multiset(ks)
  {
    if ks != [] {
      assert ks == ks[..|ks| - 1] + [ks[|ks| - 1]];
      SortKeysSorts(ks[..|ks| - 1]);
      InsertKeyPlaces(ks[|ks| - 1], SortKeys(ks[..|ks| - 1]));
      InsertKeyKeepsAll(ks[|ks| - 1], SortKeys(ks[..|ks| - 1]));
    }
  }

  function Chosen(cfg: Config, ks: seq<Key>): seq<Key> { SortKeys(ks)[..Min(cfg.batchSize, |ks|)] }

  function Ids(ks: seq<Key>): (r: seq<int>)
    ensures |r| == |ks| && forall i :: 0 <= i < |ks| ==> r[i] == ks[i].id
  {
    seq(|ks|, i requires 0 <= i < |ks| => ks[i].id)
  }

  function Selected(cfg: Config, ttl: Ttl, accounts: seq<Account>, t: Table, now: int): seq<int> {
    Ids(Chosen(cfg, DueKeys(cfg, ttl, accounts, t, now)))
  }

  // Skip counters

  function At(skips: map<Reason, nat>, r: Reason): nat { if r in skips then skips[r] else 0 }

  // Every reason a skipped account can be counted under.
  function SkipReasons(): seq<Reason> {
    [AllowFilter, ExcludedReserved, ExcludedPurpose, Disabled, Quarantined, NoSessionMaterial, ActiveRuntime,
     FreshReady, AuthBackoff, TransientBackoff, ErrorBackoff, TrustedRecent]
  }

  function SumOver(skips: map<Reason, nat>, rs: seq<Reason>): nat {
    if rs == [] then 0 else At(skips, rs[0]) + SumOver(skips, rs[1..])
  }

  function SkipTotal(skips: map<Reason, nat>): nat { SumOver(skips, SkipReasons()) }

  function SkippedFor(cfg: Config, ttl: Ttl, t: Table, now: int, r: Reason): Account -> bool {
    (a: Account) => ProbeDue(cfg, ttl, a, Lookup(t, a.id), now) == (false, r)
  }

  lemma {:induction false} NothingSkipped(rs: seq<Reason>)
    ensures SumOver(map[], rs) == 0
  {
    if rs != [] {
      NothingSkipped(rs[1..]);
    }
  }

  lemma NotDueHasSkipReason(cfg: Config, ttl: Ttl, a: Account, s: Option<Snapshot>, now: int)
    requires !ProbeDue(cfg, ttl, a, s, now).0
    ensures ProbeDue(cfg, ttl, a, s, now).1 in SkipReasons()
  {
    hide Expired;
  }

  lemma {:induction false} CountedOnce(skips: map<Reason, nat>, r: Reason, rs: seq<Reason>)
    requires forall i, j :: 0 <= i < j < |rs| ==> rs[i] != rs[j]
    ensures SumOver(skips[r := At(skips, r) + 1], rs) == SumOver(skips, rs) + if r in rs then 1 else 0
  {
    if rs != [] {
      CountedOnce(skips, r, rs[1..]);
      assert rs == [rs[0]] + rs[1..];
    }
  }

  // The due accounts and the skipped ones, by the conditions above.

  function MustProbeNow(cfg: Config, ttl: Ttl, t: Table, now: int): Account -> bool {
    (a: Account) => MustProbe(cfg, ttl, a, Lookup(t, a.id), now)
  }

  function SkippedAsNow(cfg: Config, ttl: Ttl, t: Table, now: int, r: Reason): Account -> bool {
    (a: Account) => SkippedAs(cfg, ttl, a, Lookup(t, a.id), now, r)
  }

  // Some due account with this id that is no younger than `key`.
  ghost predicate DueWithId(cfg: Config, ttl: Ttl, accounts: seq<Account>, t: Table, now: int, id: int, key: Key) {
    exists a :: a in accounts && a.id == id && MustProbe(cfg, ttl, a, Lookup(t, id), now) && !Before(key, KeyOf(a, Lookup(t, id)))
  }

  // As many due accounts as the batch takes, and those passed over are no older than any of them.
  ghost predicate PicksOldest(cfg: Config, ttl: Ttl, accounts: seq<Account>, t: Table, now: int, ids: seq<int>) {
    && |ids| == Min(cfg.batchSize, Count(MustProbeNow(cfg, ttl, t, now), accounts))
    && (forall i :: 0 <= i < |ids| ==> exists a :: a in accounts && a.id == ids[i] && MustProbe(cfg, ttl, a, Lookup(t, a.id), now))
    && (forall a, i :: a in accounts && MustProbe(cfg, ttl, a, Lookup(t, a.id), now) && a.id !in ids && 0 <= i < |ids| ==>
          DueWithId(cfg, ttl, accounts, t, now, ids[i], KeyOf(a, Lookup(t, a.id))))
  }

  lemma {:induction false} DueKeysAreCounted(cfg: Config, ttl: Ttl, accounts: seq<Account>, t: Table, now: int)
    ensures |DueKeys(cfg, ttl, accounts, t, now)| == Count(MustProbeNow(cfg, ttl, t, now), accounts)
  {
    hide MustProbe, ProbeDue;
    if accounts != [] {
      var last := accounts[|accounts| - 1];
      DueKeysAreCounted(cfg, ttl, accounts[..|accounts| - 1], t, now);
      DueIff(cfg, ttl, last, Lookup(t, last.id), now);
    }
  }

  lemma PassedKeyIsNoOlder(sorted: seq<Key>, n: nat, key: Key, i: nat)
    requires Ascending(sorted) && i < n <= |sorted| && key in sorted
    requires forall j :: 0 <= j < n ==> sorted[j].id != key.id
    ensures !Before(key, sorted[i])
  {
    hide Before;
    var k :| 0 <= k < |sorted| && sorted[k] == key;
    assert k >= n;
  }

  // The key at a sorted position belongs to a due account.
  lemma SortedKeyIsDue(cfg: Config, ttl: Ttl, accounts: seq<Account>, t: Table, now: int, i: nat) returns (a: Account)
    requires i < |DueKeys(cfg, ttl, accounts, t, now)|
    ensures a in accounts && MustProbe(cfg, ttl, a, Lookup(t, a.id), now)
    ensures SortKeys(DueKeys(cfg, ttl, accounts, t, now))[i] == KeyOf(a, Lookup(t, a.id)) && KeyOf(a, Lookup(t, a.id)).id == a.id
  {
    hide MustProbe, ProbeDue, SortKeys, Ascending;
    var due := DueKeys(cfg, ttl, accounts, t, now);
    SortKeysSorts(due);
    var k := SortKeys(due)[i];
    assert k in multiset(SortKeys(due)) && k in multiset(due);
    assert k in due;
    a :| a in accounts && DueNow(cfg, ttl, t, now, a) && k == KeyOf(a, Lookup(t, a.id));
    DueIff(cfg, ttl, a, Lookup(t, a.id), now);
  }

  lemma DueKeyIsSorted(cfg: Config, ttl: Ttl, accounts: seq<Account>, t: Table, now: int, a: Account)
    requires a in accounts && MustProbe(cfg, ttl, a, Lookup(t, a.id), now)
    ensures KeyOf(a, Lookup(t, a.id)) in SortKeys(DueKeys(cfg, ttl, accounts, t, now)) && KeyOf(a, Lookup(t, a.id)).id == a.id
  {
    hide MustProbe, ProbeDue, SortKeys, Ascending;
    var due := DueKeys(cfg, ttl, accounts, t, now);
    DueIff(cfg, ttl, a, Lookup(t, a.id), now);
    SortKeysSorts(due);
    assert DueNow(cfg, ttl, t, now, a);
    var k := KeyOf(a, Lookup(t, a.id));
    assert k in due;
    assert k in multiset(due) && k in multiset(SortKeys(due));
  }

  lemma SelectedPicksOldest(cfg: Config, ttl: Ttl, accounts: seq<Account>, t: Table, now: int)
    ensures PicksOldest(cfg, ttl, accounts, t, now, Selected(cfg, ttl, accounts, t, now))
  {
    hide MustProbe, ProbeDue, SortKeys, Before, KeyOf, Ascending, DueKeys;
    var due := DueKeys(cfg, ttl, accounts, t, now);
    var sorted, ids := SortKeys(due), Selected(cfg, ttl, accounts, t, now);
    DueKeysAreCounted(cfg, ttl, accounts, t, now);
    SortKeysSorts(due);
    forall i | 0 <= i < |ids|
      ensures exists a :: a in accounts && a.id == ids[i] && MustProbe(cfg, ttl, a, Lookup(t, a.id), now)
    {
      var a := SortedKeyIsDue(cfg, ttl, accounts, t, now, i);
    }
    forall a, i | a in accounts && MustProbe(cfg, ttl, a, Lookup(t, a.id), now) && a.id !in ids && 0 <= i < |ids|
      ensures DueWithId(cfg, ttl, accounts, t, now, ids[i], KeyOf(a, Lookup(t, a.id)))
    {
      var b := SortedKeyIsDue(cfg, ttl, accounts, t, now, i);
      DueKeyIsSorted(cfg, ttl, accounts, t, now, a);
      assert forall j | 0 <= j < |ids| :: sorted[j].id == ids[j];
      PassedKeyIsNoOlder(sorted, |ids|, KeyOf(a, Lookup(t, a.id)), i);
    }
  }

  lemma SkipsByCondition(cfg: Config, ttl: Ttl, accounts: seq<Account>, t: Table, now: int, r: Reason)
    ensures Count(SkippedFor(cfg, ttl, t, now, r), accounts) == Count(SkippedAsNow(cfg, ttl, t, now, r), accounts)
  {
    hide ProbeDue, SkippedAs;
    if accounts != [] {
      var last := accounts[|accounts| - 1];
      SkippedIff(cfg, ttl, last, Lookup(t, last.id), now, r);
      SkipsByCondition(cfg, ttl, accounts[..|accounts| - 1], t, now, r);
    }
  }

  method SelectProbeCandidates(cfg: Config, ttl: Ttl, accounts: seq<Account>, t: Table, now: int)
      returns (ids: seq<int>, skips: map<Reason, nat>)
    ensures ids == Selected(cfg, ttl, accounts, t, now) && PicksOldest(cfg, ttl, accounts, t, now, ids)
    ensures forall r :: At(skips, r) == Count(SkippedAsNow(cfg, ttl, t, now, r), accounts)
    ensures Count(MustProbeNow(cfg, ttl, t, now), accounts) + SkipTotal(skips) == |accounts|
  {
    hide ProbeDue, SumOver, KeyOf, MustProbe, SkippedAs, PicksOldest;
    skips := map[];
    NothingSkipped(SkipReasons());
    var candidates: seq<Key> := [];
    for i := 0 to |accounts|
      invariant candidates == DueKeys(cfg, ttl, accounts[..i], t, now)
      invariant forall r :: At(skips, r) == Count(SkippedFor(cfg, ttl, t, now, r), accounts[..i])
      invariant |candidates| + SkipTotal(skips) == i
    {
      assert accounts[..i + 1][..i] == accounts[..i];
      var a := accounts[i];
      var (due, reason) := ProbeDue(cfg, ttl, a, Lookup(t, a.id), now);
      if !due {
        NotDueHasSkipReason(cfg, ttl, a, Lookup(t, a.id), now);
        CountedOnce(skips, reason, SkipReasons());
        skips := skips[reason := At(skips, reason) + 1];
        continue;
      }
      candidates := candidates + [KeyOf(a, Lookup(t, a.id))];
    }
    assert accounts[..|accounts|] == accounts;
    var sorted := SortKeys(candidates);
    ids := Ids(sorted[..Min(cfg.batchSize, |sorted|)]);
    SelectedPicksOldest(cfg, ttl, accounts, t, now);
    DueKeysAreCounted(cfg, ttl, accounts, t, now);
    forall r
      ensures Count(SkippedFor(cfg, ttl, t, now, r), accounts) == Count(SkippedAsNow(cfg, ttl, t, now, r), accounts)
    {
      SkipsByCondition(cfg, ttl, accounts, t, now, r);
    }
  }
}
