/**
 * Merging duplicate chat targets into one canonical row: planning and the multi-table rewrite
 * (src/clients/target_dedupe.py), and the route that commits or rolls back
 * (src/dashboard/scheduler_routes.py).
 */
module TargetMerge {
  import opened Common
  import opened RuleLists

  // Rows keep only what the merge reads or writes; `rest` stands for every other column but the time
  // stamps that any update bumps.
  datatype Target = Target(username: Option<string>, invite: Option<string>)
  datatype Binding = Binding(id: int, account: int, target: int, rest: string)
  datatype Owned = Owned(id: int, target: Option<int>, rest: string)
  datatype Delivery = Delivery(id: int, target: int, rest: string)
  datatype Probe = Probe(account: int, target: int)

  // JSON columns that name targets without a foreign key: the lists and pair maps of governed
  // campaigns, and the payloads of queued gateway jobs.
  datatype Campaign = Campaign(id: int, targets: seq<int>, pairs: map<int, int>)
  datatype GatewayJob = GatewayJob(id: int, target: Option<int>)

  datatype Tables = Tables(targets: map<int, Target>, bindings: seq<Binding>, templates: seq<Owned>,
                           jobs: seq<Owned>, deliveries: seq<Delivery>, probes: seq<Probe>, rules: seq<RuleJson>,
                           campaigns: seq<Campaign>, gateway: seq<GatewayJob>)

  // Mapping of ids

  function To(t: int, dups: set<int>, cid: int): int { if t in dups then cid else t }

  function MovedBindings(bs: seq<Binding>, dups: set<int>, cid: int): (r: seq<Binding>)
    ensures |r| == |bs| && forall i :: 0 <= i < |bs| ==> r[i] == bs[i].(target := To(bs[i].target, dups, cid))
  {
    seq(|bs|, i requires 0 <= i < |bs| => bs[i].(target := To(bs[i].target, dups, cid)))
  }

  function MovedOwned(o: Owned, dups: set<int>, cid: int): Owned {
    if o.target.Some? then o.(target := Some(To(o.target.value, dups, cid))) else o
  }

  function MovedRows(rows: seq<Owned>, dups: set<int>, cid: int): (r: seq<Owned>)
    ensures |r| == |rows| && forall i :: 0 <= i < |rows| ==> r[i] == MovedOwned(rows[i], dups, cid)
  {
    seq(|rows|, i requires 0 <= i < |rows| => MovedOwned(rows[i], dups, cid))
  }

  function MovedDeliveries(ds: seq<Delivery>, dups: set<int>, cid: int): (r: seq<Delivery>)
    ensures |r| == |ds| && forall i :: 0 <= i < |ds| ==> r[i] == ds[i].(target := To(ds[i].target, dups, cid))
  {
    seq(|ds|, i requires 0 <= i < |ds| => ds[i].(target := To(ds[i].target, dups, cid)))
  }

  function KeptProbes(ps: seq<Probe>, dups: set<int>): (r: seq<Probe>)
    ensures forall p :: p in r <==> p in ps && p.target !in dups
  {
    if ps == [] then []
    else
      assert ps == ps[..|ps| - 1] + [ps[|ps| - 1]];
      KeptProbes(ps[..|ps| - 1], dups) + if ps[|ps| - 1].target in dups then [] else [ps[|ps| - 1]]
  }

  function RewrittenRules(rules: seq<RuleJson>, dups: seq<int>, cid: int): (r: seq<RuleJson>)
    ensures |r| == |rules| && forall i :: 0 <= i < |rules| ==> r[i] == Passes(rules[i], dups, cid)
  {
    seq(|rules|, i requires 0 <= i < |rules| => Passes(rules[i], dups, cid))
  }

  // The tables after a successful merge of the duplicates into cid.
  function Merged(t: Tables, dups: seq<int>, cid: int): Tables {
    var ds := SetOf(dups);
    Tables(t.targets - ds, MovedBindings(t.bindings, ds, cid), MovedRows(t.templates, ds, cid),
           MovedRows(t.jobs, ds, cid), MovedDeliveries(t.deliveries, ds, cid), KeptProbes(t.probes, ds),
           RewrittenRules(t.rules, dups, cid), t.campaigns, t.gateway)
  }

  // The rules count a merge reports: the lists each pass rewrites, added up.
  function RewriteCount(rules: seq<RuleJson>, dups: seq<int>, cid: int): nat {
    if dups == [] then 0
    else
      var front, d := dups[..|dups| - 1], dups[|dups| - 1];
      RewriteCount(rules, front, cid) + Count((r: RuleJson) => Touches(r, d), RewrittenRules(rules, front, cid))
  }

  // The pairs of a list and a duplicate it names.
  function NamingPairs(rules: seq<RuleJson>, dups: seq<int>): nat {
    if dups == [] then 0
    else NamingPairs(rules, dups[..|dups| - 1]) + Count((r: RuleJson) => Touches(r, dups[|dups| - 1]), rules)
  }

  predicate UniquePairs(bs: seq<Binding>) {
    forall i, j :: 0 <= i < j < |bs| ==> !(bs[i].account == bs[j].account && bs[i].target == bs[j].target)
  }

  // No account is bound to two of the merged targets.
  predicate ConflictFree(bs: seq<Binding>, merged: set<int>) {
    forall i, j :: 0 <= i < j < |bs| && bs[i].account == bs[j].account
      ==> !(bs[i].target in merged && bs[j].target in merged)
  }

  // Planning

  function BindingCount(bs: seq<Binding>, t: int): nat { Count((b: Binding) => b.target == t, bs) }

  // (count, -id) order of _pick_canonical_id
  predicate Preferred(bs: seq<Binding>, a: int, b: int) {
    BindingCount(bs, a) > BindingCount(bs, b) || (BindingCount(bs, a) == BindingCount(bs, b) && a < b)
  }

  predicate BestOf(bs: seq<Binding>, ids: seq<int>, best: int) {
    best in ids && forall k :: 0 <= k < |ids| ==> ids[k] == best || Preferred(bs, best, ids[k])
  }

  method PickCanonicalId(bs: seq<Binding>, ids: seq<int>) returns (best: int)
    requires ids != []
    ensures BestOf(bs, ids, best)
  {
    best := ids[0];
    for k := 1 to |ids|
      invariant best in ids[..k]
      invariant forall j :: 0 <= j < k ==> ids[j] == best || Preferred(bs, best, ids[j])
    {
      assert ids[..k + 1] == ids[..k] + [ids[k]];
      if Preferred(bs, ids[k], best) {
        best := ids[k];
      }
    }
  }

  // Most bindings, lower id on a tie: the choice does not depend on the order of the ids.
  lemma CanonicalIsUnique(bs: seq<Binding>, ids: seq<int>, a: int, b: int)
    requires BestOf(bs, ids, a) && BestOf(bs, ids, b)
    ensures a == b
  {
    var i :| 0 <= i < |ids| && ids[i] == a;
    var j :| 0 <= j < |ids| && ids[j] == b;
    assert a == b || Preferred(bs, b, a);
    assert b == a || Preferred(bs, a, b);
  }

  // The planner looks for an account bound to the row it picked and to one of the others.
  predicate PlannedConflict(bs: seq<Binding>, ids: seq<int>, picked: int) {
    exists i, j :: 0 <= i < |bs| && 0 <= j < |bs| && bs[i].target == picked && bs[j].target in ids
      && bs[j].target != picked && bs[i].account == bs[j].account
  }

  // Two rows with different (already normalised) user names or invite links must not be merged.
  predicate Forked(targets: map<int, Target>, ids: seq<int>) {
    exists a, b :: a in ids && b in ids && a in targets && b in targets
      && ((targets[a].username.Some? && targets[b].username.Some? && targets[a].username != targets[b].username)
          || (targets[a].invite.Some? && targets[b].invite.Some? && targets[a].invite != targets[b].invite))
  }

  // Requests

  // dup_ids = sorted({...} - {cid})
  predicate SortedIds(ids: seq<int>) { forall i, j :: 0 <= i < j < |ids| ==> ids[i] < ids[j] }

  function InsertId(x: int, ids: seq<int>): (r: seq<int>)
    requires SortedIds(ids)
    ensures SortedIds(r) && forall y :: y in r <==> y == x || y in ids
  {
    if ids == [] || x < ids[0] then [x] + ids
    else if x == ids[0] then ids
    else
      var rest := InsertId(x, ids[1..]);
      assert ids == [ids[0]] + ids[1..];
      assert forall k :: 0 <= k < |rest| ==> rest[k] in rest && (rest[k] == x || rest[k] in ids[1..]);
      [ids[0]] + rest
  }

  function DuplicateIds(raw: seq<int>, cid: int): (r: seq<int>)
    ensures SortedIds(r) && forall y :: y in r <==> y in raw && y != cid
  {
    if raw == [] then []
    else
      var front := DuplicateIds(raw[..|raw| - 1], cid);
      assert raw == raw[..|raw| - 1] + [raw[|raw| - 1]];
      if raw[|raw| - 1] == cid then front else InsertId(raw[|raw| - 1], front)
  }

  datatype Refusal = NoDuplicates | CanonicalMissing | TargetMissing | Unsafe | ConflictDuringApply | IntegrityError

  datatype Result = Refused(code: int, why: Refusal) | Planned | Done(moved: nat, deleted: seq<int>, rulesUpdated: nat)

  // The HTTP status of a refusal.
  function StatusCode(why: Refusal): int {
    match why
    case CanonicalMissing => 404
    case NoDuplicates => 400
    case TargetMissing => 400
    case _ => 409
  }

  // What stops a request before any write.
  ghost predicate Stops(t: Tables, cid: int, dups: seq<int>, why: Refusal) {
    if dups == [] then why == NoDuplicates
    else if cid !in t.targets then why == CanonicalMissing
    else if exists d :: d in dups && d !in t.targets then why == TargetMissing
    else why == Unsafe && exists picked :: BestOf(t.bindings, [cid] + dups, picked)
                                           && (Forked(t.targets, [cid] + dups) || PlannedConflict(t.bindings, [cid] + dups, picked))
  }

  // Distinct, existing, compatible rows.
  predicate WellPosed(t: Tables, cid: int, dups: seq<int>) {
    && dups != [] && cid in t.targets && (forall d :: d in dups ==> d in t.targets)
    && !Forked(t.targets, [cid] + dups)
  }

  // The first i bindings moved, the others not yet.
  function HalfMoved(bs: seq<Binding>, dups: seq<int>, cid: int, i: nat): seq<Binding>
    requires i <= |bs|
  {
    seq(|bs|, k requires 0 <= k < |bs| => if k < i && bs[k].target in dups then bs[k].(target := cid) else bs[k])
  }

  lemma HalfMovedNone(bs: seq<Binding>, dups: seq<int>, cid: int)
    ensures HalfMoved(bs, dups, cid, 0) == bs
  {
  }

  lemma HalfMovedAll(bs: seq<Binding>, dups: seq<int>, cid: int)
    ensures HalfMoved(bs, dups, cid, |bs|) == MovedBindings(bs, SetOf(dups), cid)
  {
  }

  lemma HalfMovedStep(bs: seq<Binding>, dups: seq<int>, cid: int, i: nat)
    requires i < |bs|
    ensures |HalfMoved(bs, dups, cid, i)| == |bs| && HalfMoved(bs, dups, cid, i)[i] == bs[i]
    ensures HalfMoved(bs, dups, cid, i + 1)
         == if bs[i].target in dups then HalfMoved(bs, dups, cid, i)[i := bs[i].(target := cid)]
            else HalfMoved(bs, dups, cid, i)
  {
  }

  lemma MoveKeepsUnique(bs: seq<Binding>, i: nat, cid: int)
    requires UniquePairs(bs) && i < |bs|
    requires forall j :: 0 <= j < |bs| && bs[j].target == cid ==> bs[j].account != bs[i].account
    ensures UniquePairs(bs[i := bs[i].(target := cid)])
  {
  }

  // A binding found on cid, moved there or not, repeats the pair binding i is about to take.
  lemma ClashRepeatsPair(bs: seq<Binding>, dups: seq<int>, cid: int, flushed: bool, i: nat, j: nat)
    requires cid !in dups && i < |bs| && j < |bs| && bs[i].target in dups
    requires var seen := if flushed then HalfMoved(bs, dups, cid, i)[j] else bs[j];
             seen.target == cid && seen.account == bs[i].account
    ensures !UniquePairs(MovedBindings(bs, SetOf(dups), cid))
  {
    var all := MovedBindings(bs, SetOf(dups), cid);
    assert all[i].target == cid == all[j].target && i != j;
  }

  /** One database session over the scheduler tables. */
  class Session {
    const autoflush: bool
    const rules: RuleTable
    var targets: map<int, Target>
    var bindings: seq<Binding>
    var templates: seq<Owned>
    var jobs: seq<Owned>
    var deliveries: seq<Delivery>
    var probes: seq<Probe>
    var campaigns: seq<Campaign>
    var gateway: seq<GatewayJob>

    function View(): Tables
      reads this, rules
    {
      Tables(targets, bindings, templates, jobs, deliveries, probes, rules.rules, campaigns, gateway)
    }

    constructor (autoflush: bool, t: Tables)
      ensures View() == t && this.autoflush == autoflush && fresh(rules)
    {
      this.autoflush := autoflush;
      targets, bindings, templates, jobs := t.targets, t.bindings, t.templates, t.jobs;
      deliveries, probes, campaigns, gateway := t.deliveries, t.probes, t.campaigns, t.gateway;
      rules := new RuleTable(t.rules);
    }

    method Restore(t: Tables)
      modifies this, rules
      ensures View() == t
    {
      targets, bindings, templates, jobs := t.targets, t.bindings, t.templates, t.jobs;
      deliveries, probes, campaigns, gateway := t.deliveries, t.probes, t.campaigns, t.gateway;
      rules.rules := t.rules;
    }

    // Repoint the bindings one by one; the clash query sees earlier moves only under autoflush.
    method MoveBindings(cid: int, dups: seq<int>) returns (clash: bool, moved: nat)
      requires cid !in dups && UniquePairs(bindings)
      modifies this`bindings
      ensures clash ==> !UniquePairs(MovedBindings(old(bindings), SetOf(dups), cid))
      ensures !clash ==> bindings == MovedBindings(old(bindings), SetOf(dups), cid)
      ensures !clash ==> moved == Count((b: Binding) => b.target in dups, old(bindings))
      ensures !clash && autoflush ==> UniquePairs(bindings)
    {
      hide UniquePairs, HalfMoved, MovedBindings, Count;
      clash, moved := false, 0;
      var before := bindings;
      var isDup := (b: Binding) => b.target in dups;
      HalfMovedNone(before, dups, cid);
      CountNone(isDup, before);
      for i := 0 to |before|
        invariant bindings == HalfMoved(before, dups, cid, i)
        invariant moved == Count(isDup, before[..i])
        invariant autoflush ==> UniquePairs(bindings)
      {
        HalfMovedStep(before, dups, cid, i);
        CountStep(isDup, before, i);
        if before[i].target !in dups {
          continue;
        }
        var visible := if autoflush then bindings else before;
        if exists j :: 0 <= j < |visible| && visible[j].target == cid && visible[j].account == before[i].account {
          ghost var j :| 0 <= j < |visible| && visible[j].target == cid && visible[j].account == before[i].account;
          ClashRepeatsPair(before, dups, cid, autoflush, i, j);
          clash := true;
          return;
        }
        if autoflush {
          MoveKeepsUnique(bindings, i, cid);
        }
        bindings := bindings[i := before[i].(target := cid)];
        moved := moved + 1;
      }
      assert before[..|before|] == before;
      HalfMovedAll(before, dups, cid);
    }

    method RewriteRules(cid: int, dups: seq<int>) returns (updated: nat)
      modifies rules
      ensures rules.rules == RewrittenRules(old(rules.rules), dups, cid)
      ensures updated == RewriteCount(old(rules.rules), dups, cid)
    {
      updated := 0;
      ghost var before := rules.rules;
      for k := 0 to |dups|
        invariant rules.rules == RewrittenRules(before, dups[..k], cid)
        invariant updated == RewriteCount(before, dups[..k], cid)
      {
        assert dups[..k + 1][..k] == dups[..k];
        var n := rules.ReplaceTargetId(dups[k], cid);
        updated := updated + n;
      }
      assert dups[..|dups|] == dups;
    }

    method DeleteTargets(dups: seq<int>) returns (deleted: seq<int>)
      requires forall d :: d in dups ==> BindingCount(bindings, d) == 0 && d in targets
      requires SortedIds(dups)
      modifies this`targets
      ensures targets == old(targets) - SetOf(dups)
      ensures deleted == dups
    {
      deleted := [];
      for k := 0 to |dups|
        invariant targets == old(targets) - SetOf(dups[..k])
        invariant deleted == dups[..k]
      {
        assert SetOf(dups[..k + 1]) == SetOf(dups[..k]) + {dups[k]};
        if BindingCount(bindings, dups[k]) > 0 {
          continue;
        }
        if dups[k] in targets {
          targets := targets - {dups[k]};
          deleted := deleted + [dups[k]];
        }
      }
      assert dups[..|dups|] == dups;
    }

    method Plan(cid: int, dups: seq<int>) returns (stop: Option<Refusal>)
      requires cid !in dups && SortedIds(dups)
      ensures stop.Some? ==> Stops(View(), cid, dups, stop.value)
      ensures stop.None? ==> dups != [] && cid in targets && forall d :: d in dups ==> d in targets
      ensures stop.None? ==> !Forked(targets, [cid] + dups)
      ensures stop.None? ==> exists picked :: BestOf(bindings, [cid] + dups, picked) && !PlannedConflict(bindings, [cid] + dups, picked)
    {
      if dups == [] {
        return Some(NoDuplicates);
      }
      if cid !in targets {
        return Some(CanonicalMissing);
      }
      if exists d :: d in dups && d !in targets {
        return Some(TargetMissing);
      }
      var picked := PickCanonicalId(bindings, [cid] + dups);
      if Forked(targets, [cid] + dups) || PlannedConflict(bindings, [cid] + dups, picked) {
        return Some(Unsafe);
      }
      return None;
    }

    // apply_dedupe_merge
    method Apply(cid: int, raw: seq<int>, dryRun: bool) returns (r: Result)
      requires UniquePairs(bindings)
      modifies this, rules
      ensures r.Done? ==> View() == Merged(old(View()), DuplicateIds(raw, cid), cid)
                          && Conserved(old(View()), View(), SetOf(DuplicateIds(raw, cid)), cid)
                          && UniquePairs(MovedBindings(old(bindings), SetOf(DuplicateIds(raw, cid)), cid))
                          && WellPosed(old(View()), cid, DuplicateIds(raw, cid))
                          && r.deleted == DuplicateIds(raw, cid)
                          && r.moved == Count((b: Binding) => b.target in DuplicateIds(raw, cid), old(bindings))
                          && r.rulesUpdated == NamingPairs(old(rules.rules), DuplicateIds(raw, cid))
      ensures r.Planned? ==> dryRun && View() == old(View())
      ensures r.Refused? && r.why !in {ConflictDuringApply, IntegrityError} ==>
                View() == old(View()) && Stops(old(View()), cid, DuplicateIds(raw, cid), r.why)
      ensures r.Refused? && r.why in {ConflictDuringApply, IntegrityError} ==>
                !UniquePairs(MovedBindings(old(bindings), SetOf(DuplicateIds(raw, cid)), cid))
      ensures r.Refused? ==> r.code == StatusCode(r.why)
      ensures r.Refused? && r.why == IntegrityError ==> !autoflush && View() == old(View())
    {
      hide UniquePairs, Stops, BestOf, PlannedConflict, Forked, Count, MovedBindings, MovedRows, MovedDeliveries, KeptProbes,
           RewrittenRules, RewriteCount, Conserved, NamingPairs, StatusCode;
      var dups := DuplicateIds(raw, cid);
      var stop := Plan(cid, dups);
      if stop.Some? {
        return Refused(StatusCode(stop.value), stop.value);
      }
      if dryRun {
        return Planned;
      }
      var start := View();
      var clash, moved := MoveBindings(cid, dups);
      if clash {
        return Refused(StatusCode(ConflictDuringApply), ConflictDuringApply);
      }
      templates := MovedRows(templates, SetOf(dups), cid);
      jobs := MovedRows(jobs, SetOf(dups), cid);
      deliveries := MovedDeliveries(deliveries, SetOf(dups), cid);
      probes := KeptProbes(probes, SetOf(dups));
      var updated := RewriteRules(cid, dups);
      // the flush writes the moved bindings; the unique index rejects a repeated pair
      if !UniquePairs(bindings) {
        Restore(start);
        return Refused(StatusCode(IntegrityError), IntegrityError);
      }
      NoneLeftOnDuplicates(start.bindings, dups, cid);
      MergeConserves(start, dups, cid);
      RewritesAreNamingPairs(start.rules, dups, cid);
      var deleted := DeleteTargets(dups);
      return Done(moved, deleted, updated);
    }

    // The route: commit on success, roll back otherwise.
    method Route(cid: int, raw: seq<int>, dryRun: bool) returns (r: Result)
      requires UniquePairs(bindings)
      modifies this, rules
      ensures !r.Done? ==> View() == old(View())
      ensures r.Done? ==> View() == Merged(old(View()), DuplicateIds(raw, cid), cid)
                          && Conserved(old(View()), View(), SetOf(DuplicateIds(raw, cid)), cid)
      ensures !dryRun ==>
                (r.Done? <==> WellPosed(old(View()), cid, DuplicateIds(raw, cid))
                              && ConflictFree(old(bindings), SetOf(DuplicateIds(raw, cid)) + {cid}))
    {
      hide UniquePairs, ConflictFree, Forked, Merged, MovedBindings, Conserved;
      var start := View();
      r := Apply(cid, raw, dryRun);
      MovedUniqueIffConflictFree(start.bindings, DuplicateIds(raw, cid), cid);
      if r.Refused? {
        if Stops(start, cid, DuplicateIds(raw, cid), r.why) {
          StopsForAReason(start, cid, DuplicateIds(raw, cid), r.why);
        }
        Restore(start);
      }
    }
  }

  // What a merge keeps

  // A column holding a target id before and after.
  predicate Repointed(before: int, after: int, dups: set<int>, cid: int) {
    if before in dups then after == cid else after == before
  }

  ghost predicate OwnedConserved(rows: seq<Owned>, rows': seq<Owned>, dups: set<int>, cid: int) {
    && |rows'| == |rows|
    && forall i :: 0 <= i < |rows| ==>
         && rows'[i].id == rows[i].id && rows'[i].rest == rows[i].rest
         && (rows[i].target.None? ==> rows'[i].target.None?)
         && (rows[i].target.Some? ==> rows'[i].target.Some? && Repointed(rows[i].target.value, rows'[i].target.value, dups, cid))
  }

  ghost predicate BindingsConserved(bs: seq<Binding>, bs': seq<Binding>, dups: set<int>, cid: int) {
    && |bs'| == |bs|
    && forall i :: 0 <= i < |bs| ==>
         && bs'[i].id == bs[i].id && bs'[i].account == bs[i].account && bs'[i].rest == bs[i].rest
         && Repointed(bs[i].target, bs'[i].target, dups, cid)
  }

  ghost predicate DeliveriesConserved(ds: seq<Delivery>, ds': seq<Delivery>, dups: set<int>, cid: int) {
    && |ds'| == |ds|
    && forall i :: 0 <= i < |ds| ==>
         && ds'[i].id == ds[i].id && ds'[i].rest == ds[i].rest && Repointed(ds[i].target, ds'[i].target, dups, cid)
  }

  // Exactly the probes of duplicates go.
  ghost predicate ProbesConserved(ps: seq<Probe>, ps': seq<Probe>, dups: set<int>) {
    forall p :: multiset(ps')[p] == if p.target in dups then 0 else multiset(ps)[p]
  }

  ghost predicate TargetsConserved(ts: map<int, Target>, ts': map<int, Target>, dups: set<int>) {
    && (forall id :: id in ts' <==> id in ts && id !in dups)
    && forall id :: id in ts' ==> ts'[id] == ts[id]
  }

  ghost predicate RulesConserved(rules: seq<RuleJson>, rules': seq<RuleJson>, dups: set<int>, cid: int) {
    && |rules'| == |rules|
    && forall i :: 0 <= i < |rules| ==> ColumnConserved(rules[i], rules'[i], dups, cid)
  }

  // Every row of every table is still there with its id, account and other columns, and names the
  // canonical target exactly where it named a duplicate; only duplicates and their probes are gone.
  ghost predicate Conserved(t: Tables, u: Tables, dups: set<int>, cid: int) {
    && TargetsConserved(t.targets, u.targets, dups)
    && BindingsConserved(t.bindings, u.bindings, dups, cid)
    && OwnedConserved(t.templates, u.templates, dups, cid)
    && OwnedConserved(t.jobs, u.jobs, dups, cid)
    && DeliveriesConserved(t.deliveries, u.deliveries, dups, cid)
    && ProbesConserved(t.probes, u.probes, dups)
    && RulesConserved(t.rules, u.rules, dups, cid)
    && u.campaigns == t.campaigns && u.gateway == t.gateway
  }

  lemma {:induction false} KeptProbesConserved(ps: seq<Probe>, dups: set<int>)
    ensures ProbesConserved(ps, KeptProbes(ps, dups), dups)
  {
    if ps != [] {
      var front, last := ps[..|ps| - 1], ps[|ps| - 1];
      assert ps == front + [last];
      KeptProbesConserved(front, dups);
    }
  }

  lemma RewrittenRulesConserved(rules: seq<RuleJson>, dups: seq<int>, cid: int)
    requires cid !in dups && SortedIds(dups)
    ensures RulesConserved(rules, RewrittenRules(rules, dups, cid), SetOf(dups), cid)
  {
    hide ColumnConserved, Passes;
    forall i | 0 <= i < |rules|
      ensures ColumnConserved(rules[i], RewrittenRules(rules, dups, cid)[i], SetOf(dups), cid)
    {
      PassesConserveColumn(rules[i], dups, cid);
    }
  }

  lemma MergeConserves(t: Tables, dups: seq<int>, cid: int)
    requires cid !in dups && SortedIds(dups)
    ensures Conserved(t, Merged(t, dups, cid), SetOf(dups), cid)
  {
    hide RulesConserved, RewrittenRules, KeptProbes, ProbesConserved;
    RewrittenRulesConserved(t.rules, dups, cid);
    KeptProbesConserved(t.probes, SetOf(dups));
  }

  // The reported number of rewrites counts each list once per duplicate it named.
  lemma {:induction false} RewritesAreNamingPairs(rules: seq<RuleJson>, dups: seq<int>, cid: int)
    requires cid !in dups && SortedIds(dups)
    ensures RewriteCount(rules, dups, cid) == NamingPairs(rules, dups)
  {
    if dups != [] {
      var front, d := dups[..|dups| - 1], dups[|dups| - 1];
      RewritesAreNamingPairs(rules, front, cid);
      CountTouched(rules, RewrittenRules(rules, front, cid), front, cid, d);
    }
  }

  lemma {:induction false} CountTouched(rules: seq<RuleJson>, rules': seq<RuleJson>, front: seq<int>, cid: int, d: int)
    requires cid !in front && d !in front && d != cid && SortedIds(front)
    requires |rules'| == |rules| && forall i :: 0 <= i < |rules| ==> rules'[i] == Passes(rules[i], front, cid)
    ensures Count((r: RuleJson) => Touches(r, d), rules') == Count((r: RuleJson) => Touches(r, d), rules)
  {
    hide Passes, Touches;
    if rules != [] {
      var n := |rules| - 1;
      CountTouched(rules[..n], rules'[..n], front, cid, d);
      PassesKeepOtherIds(rules[n], front, cid, d);
    }
  }

  // The moved pairs stay unique exactly when no account was bound to two of the merged targets, so a
  // planned merge fails while applying exactly when two rows the planner did not compare collide.
  lemma MovedUniqueIffConflictFree(bs: seq<Binding>, dups: seq<int>, cid: int)
    requires UniquePairs(bs)
    ensures UniquePairs(MovedBindings(bs, SetOf(dups), cid)) <==> ConflictFree(bs, SetOf(dups) + {cid})
  {
    var all := MovedBindings(bs, SetOf(dups), cid);
    if UniquePairs(all) {
      forall i, j | 0 <= i < j < |bs| && bs[i].account == bs[j].account
        ensures !(bs[i].target in SetOf(dups) + {cid} && bs[j].target in SetOf(dups) + {cid})
      {
        assert !(all[i].account == all[j].account && all[i].target == all[j].target);
      }
    }
    if ConflictFree(bs, SetOf(dups) + {cid}) {
      forall i, j | 0 <= i < j < |bs|
        ensures !(all[i].account == all[j].account && all[i].target == all[j].target)
      {
      }
    }
  }

  lemma NoneLeftOnDuplicates(bs: seq<Binding>, dups: seq<int>, cid: int)
    requires cid !in dups
    ensures forall d :: d in dups ==> BindingCount(MovedBindings(bs, SetOf(dups), cid), d) == 0
  {
    forall d | d in dups
      ensures BindingCount(MovedBindings(bs, SetOf(dups), cid), d) == 0
    {
      assert d in SetOf(dups);
    }
  }

  // An unplanned conflict is always one the planner's star around the picked row cannot see.
  lemma ConflictFreeIsNeverRefused(bs: seq<Binding>, dups: seq<int>, cid: int, picked: int)
    requires ConflictFree(bs, SetOf(dups) + {cid}) && BestOf(bs, [cid] + dups, picked)
    ensures !PlannedConflict(bs, [cid] + dups, picked)
  {
    forall i, j | 0 <= i < |bs| && 0 <= j < |bs| && bs[i].target == picked && bs[j].target in [cid] + dups
                  && bs[j].target != picked
      ensures bs[i].account != bs[j].account
    {
      assert bs[i].target in SetOf(dups) + {cid} && bs[j].target in SetOf(dups) + {cid};
      assert i != j;
    }
  }

  // A request stopped before any write is not well posed or has a real conflict.
  lemma StopsForAReason(t: Tables, cid: int, dups: seq<int>, why: Refusal)
    requires Stops(t, cid, dups, why)
    ensures !(WellPosed(t, cid, dups) && ConflictFree(t.bindings, SetOf(dups) + {cid}))
  {
    if WellPosed(t, cid, dups) && ConflictFree(t.bindings, SetOf(dups) + {cid}) {
      var picked :| BestOf(t.bindings, [cid] + dups, picked) && PlannedConflict(t.bindings, [cid] + dups, picked);
      ConflictFreeIsNeverRefused(t.bindings, dups, cid, picked);
    }
  }

  // The conflicts that get past the planner are exactly those between two rows it did not pick.
  lemma EscapesPlanIff(bs: seq<Binding>, dups: seq<int>, cid: int, picked: int)
    requires UniquePairs(bs) && BestOf(bs, [cid] + dups, picked) && !PlannedConflict(bs, [cid] + dups, picked)
    ensures !ConflictFree(bs, SetOf(dups) + {cid}) <==> !ConflictFree(bs, SetOf(dups) + {cid} - {picked})
  {
    var merged := SetOf(dups) + {cid};
    assert forall x :: x in merged <==> x in [cid] + dups;
    if !ConflictFree(bs, merged) {
      var i, j :| 0 <= i < j < |bs| && bs[i].account == bs[j].account && bs[i].target in merged && bs[j].target in merged;
      assert bs[i].target != bs[j].target;
      assert bs[i].target != picked && bs[j].target != picked;
    }
  }

  // Two duplicates sharing an account get past the planner and stop the merge half way.
  lemma DuplicatePairEscapesPlan()
    ensures var bs := [Binding(1, 10, 1, ""), Binding(2, 11, 1, ""), Binding(3, 12, 2, ""), Binding(4, 12, 3, "")];
            && UniquePairs(bs) && BestOf(bs, [1, 2, 3], 1) && !PlannedConflict(bs, [1, 2, 3], 1)
            && !ConflictFree(bs, {1, 2, 3})
  {
    var bs := [Binding(1, 10, 1, ""), Binding(2, 11, 1, ""), Binding(3, 12, 2, ""), Binding(4, 12, 3, "")];
    forall t
      ensures BindingCount(bs, t) == if t == 1 then 2 else if t == 2 || t == 3 then 1 else 0
    {
      var p := (b: Binding) => b.target == t;
      assert bs[..3][..2] == bs[..2] && bs[..2][..1] == bs[..1] && bs[..1][..0] == [];
      assert Count(p, bs) == Count(p, bs[..3]) + if p(bs[3]) then 1 else 0;
      assert Count(p, bs[..3]) == Count(p, bs[..2]) + if p(bs[2]) then 1 else 0;
      assert Count(p, bs[..2]) == Count(p, bs[..1]) + if p(bs[1]) then 1 else 0;
      assert Count(p, bs[..1]) == Count(p, []) + if p(bs[0]) then 1 else 0;
    }
    assert bs[2].account == bs[3].account;
  }

  // Every reference of every table names an existing target.
  ghost predicate Closed(t: Tables) {
    && (forall b :: b in t.bindings ==> b.target in t.targets)
    && (forall o :: o in t.templates + t.jobs && o.target.Some? ==> o.target.value in t.targets)
    && (forall d :: d in t.deliveries ==> d.target in t.targets)
    && (forall p :: p in t.probes ==> p.target in t.targets)
  }

  ghost predicate Mentions(t: Tables, d: int) {
    || (exists b :: b in t.bindings && b.target == d)
    || (exists o :: o in t.templates + t.jobs && o.target == Some(d))
    || (exists x :: x in t.deliveries && x.target == d)
    || (exists p :: p in t.probes && p.target == d)
    || (exists i :: 0 <= i < |t.rules| && t.rules[i].Items? && d in Ints(t.rules[i].items))
  }

  // Named by a column the merge never touches.
  ghost predicate NamedElsewhere(t: Tables, d: int) {
    || (exists c :: c in t.campaigns && (d in c.targets || d in c.pairs.Values))
    || (exists g :: g in t.gateway && g.target == Some(d))
  }

  ghost predicate Named(t: Tables, d: int) { Mentions(t, d) || NamedElsewhere(t, d) }

  // After a merge no binding, template, job, delivery, probe or rule list names a deleted target, and
  // foreign keys that were closed stay closed.
  lemma MergeClosesReferences(t: Tables, dups: seq<int>, cid: int)
    requires cid !in dups && SortedIds(dups)
    ensures forall d :: d in dups ==> d !in Merged(t, dups, cid).targets && !Mentions(Merged(t, dups, cid), d)
    ensures Closed(t) && cid in t.targets ==> Closed(Merged(t, dups, cid))
  {
    var m, ds := Merged(t, dups, cid), SetOf(dups);
    assert forall d :: d in dups <==> d in ds;
    assert forall b :: b in m.bindings ==> b.target !in ds;
    assert forall o :: o in m.templates + m.jobs && o.target.Some? ==> o.target.value !in ds;
    assert forall x :: x in m.deliveries ==> x.target !in ds;
    forall i | 0 <= i < |m.rules| && m.rules[i].Items?
      ensures forall d :: d in dups ==> d !in Ints(m.rules[i].items)
    {
      PassesCloseReferences(t.rules[i], dups, cid);
    }
    if Closed(t) && cid in t.targets {
      MergedStaysClosed(t, dups, cid);
    }
  }

  // A merged target is still named afterwards exactly when some campaign or queued gateway job
  // named it before.
  lemma StillNamedIff(t: Tables, dups: seq<int>, cid: int, d: int)
    requires cid !in dups && SortedIds(dups) && d in dups
    ensures d !in Merged(t, dups, cid).targets
    ensures Named(Merged(t, dups, cid), d) <==> NamedElsewhere(t, d)
  {
    hide Mentions, NamedElsewhere, Closed;
    MergeClosesReferences(t, dups, cid);
    SameElsewhere(t, Merged(t, dups, cid), d);
  }

  lemma SameElsewhere(t: Tables, u: Tables, d: int)
    requires t.campaigns == u.campaigns && t.gateway == u.gateway
    ensures NamedElsewhere(t, d) == NamedElsewhere(u, d)
  {
  }

  // An armed campaign allowed to send to a target keeps naming it after a request that the route
  // carries out has deleted it.
  lemma CampaignNamesDeletedTarget() returns (t: Tables)
    ensures UniquePairs(t.bindings) && WellPosed(t, 1, DuplicateIds([2], 1))
    ensures ConflictFree(t.bindings, SetOf(DuplicateIds([2], 1)) + {1})
    ensures 2 in t.targets && NamedElsewhere(t, 2)
    ensures var m := Merged(t, DuplicateIds([2], 1), 1);
            2 !in m.targets && Named(m, 2)
  {
    var row := Target(Some("chat"), None);
    var campaign := Campaign(1, [2], map[10 := 2]);
    t := Tables(map[1 := row, 2 := row], [Binding(1, 10, 2, "")], [], [], [], [], [], [campaign], []);
    OnlyDuplicate();
    assert campaign in t.campaigns && 2 in campaign.targets;
    StillNamedIff(t, DuplicateIds([2], 1), 1, 2);
  }

  lemma OnlyDuplicate()
    ensures DuplicateIds([2], 1) == [2]
  {
    assert [2][..0] == [];
    assert DuplicateIds([], 1) == [];
  }

  lemma MergedStaysClosed(t: Tables, dups: seq<int>, cid: int)
    requires cid !in dups && Closed(t) && cid in t.targets
    ensures Closed(Merged(t, dups, cid))
  {
    var m, ds := Merged(t, dups, cid), SetOf(dups);
    assert cid in m.targets && forall x :: x in t.targets && x !in ds ==> x in m.targets;
    forall b | b in m.bindings
      ensures b.target in m.targets
    {
      var i :| 0 <= i < |m.bindings| && m.bindings[i] == b;
      assert t.bindings[i] in t.bindings;
    }
    forall d | d in m.deliveries
      ensures d.target in m.targets
    {
      var i :| 0 <= i < |m.deliveries| && m.deliveries[i] == d;
      assert t.deliveries[i] in t.deliveries;
    }
    forall o | o in m.templates + m.jobs && o.target.Some?
      ensures o.target.value in m.targets
    {
      var i :| 0 <= i < |m.templates + m.jobs| && (m.templates + m.jobs)[i] == o;
      assert (t.templates + t.jobs)[i] in t.templates + t.jobs;
      assert o == MovedOwned((t.templates + t.jobs)[i], ds, cid);
    }
  }
}
