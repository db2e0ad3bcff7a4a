/**
 * Fairness of the oldest-first batch selection over whole runs of the readiness worker
 * (src/clients/readiness_worker_policy.py, src/clients/readiness_worker.py).
 */
module ProbeFairness {
  import opened Common
  import opened ReadinessStore
  import opened ReadinessPolicy

  predicate DistinctIds(accounts: seq<Account>) {
    forall i, j :: 0 <= i < j < |accounts| ==> accounts[i].id != accounts[j].id
  }

  predicate DistinctKeys(ks: seq<Key>) {
    forall i, j :: 0 <= i < j < |ks| ==> ks[i].id != ks[j].id
  }

  function KeyIn(t: Table, a: Account): Key { KeyOf(a, Lookup(t, a.id)) }

  lemma {:induction false} DueKeysAreDistinct(cfg: Config, ttl: Ttl, accounts: seq<Account>, t: Table, now: int)
    requires DistinctIds(accounts)
    ensures DistinctKeys(DueKeys(cfg, ttl, accounts, t, now))
  {
    hide DueNow;
    if accounts != [] {
      var front := accounts[..|accounts| - 1];
      DueKeysAreDistinct(cfg, ttl, front, t, now);
      var ks := DueKeys(cfg, ttl, front, t, now);
      forall i | 0 <= i < |ks|
        ensures ks[i].id != accounts[|accounts| - 1].id
      {
        assert ks[i] in ks;
      }
      var last := accounts[|accounts| - 1];
      assert DueKeys(cfg, ttl, accounts, t, now)
          == if DueNow(cfg, ttl, t, now, last) then ks + [KeyIn(t, last)] else ks;
    } else {
      assert DueKeys(cfg, ttl, accounts, t, now) == [];
    }
  }

  // The selected ids are exactly the smallest keys among the due accounts, as many as fit the batch.
  lemma SelectionIsSmallest(cfg: Config, ttl: Ttl, accounts: seq<Account>, t: Table, now: int)
    requires DistinctIds(accounts)
    ensures var ids := Selected(cfg, ttl, accounts, t, now);
            && |ids| == Min(cfg.batchSize, |DueKeys(cfg, ttl, accounts, t, now)|)
            && (forall i, j :: 0 <= i < j < |ids| ==> ids[i] != ids[j])
            && (forall id :: id in ids ==> exists a :: a in accounts && a.id == id && DueNow(cfg, ttl, t, now, a))
            && (forall a, x :: a in accounts && x in accounts && DueNow(cfg, ttl, t, now, a) && a.id !in ids && x.id in ids
                  ==> Before(KeyIn(t, x), KeyIn(t, a)))
            && (forall a :: a in accounts && DueNow(cfg, ttl, t, now, a) && a.id !in ids ==> |ids| == cfg.batchSize)
  {
    hide DueNow, SortKeys;
    var ks := DueKeys(cfg, ttl, accounts, t, now);
    var sorted := SortKeys(ks);
    DueKeysAreDistinct(cfg, ttl, accounts, t, now);
    SortKeysSorts(ks);
    DistinctThroughSort(ks, sorted);
    var m := Min(cfg.batchSize, |ks|);
    var ids := Selected(cfg, ttl, accounts, t, now);
    forall id | id in ids
      ensures exists a :: a in accounts && a.id == id && DueNow(cfg, ttl, t, now, a)
    {
      var i :| 0 <= i < |ids| && ids[i] == id;
      assert sorted[i] in multiset(ks);
      assert sorted[i] in ks;
    }
    forall a | a in accounts && DueNow(cfg, ttl, t, now, a) && a.id !in ids
      ensures |ids| == cfg.batchSize
      ensures forall x :: x in accounts && x.id in ids ==> Before(KeyIn(t, x), KeyIn(t, a))
    {
      assert KeyIn(t, a) in ks;
      assert KeyIn(t, a) in multiset(sorted);
      var p :| 0 <= p < |sorted| && sorted[p] == KeyIn(t, a);
      assert forall i :: 0 <= i < m ==> ids[i] == sorted[i].id && ids[i] in ids;
      assert p >= m;
      forall x | x in accounts && x.id in ids
        ensures Before(KeyIn(t, x), KeyIn(t, a))
      {
        var q :| 0 <= q < |ids| && ids[q] == x.id;
        assert sorted[q] in multiset(ks);
        assert sorted[q] in ks;
        SameIdSameAccount(accounts, x, sorted[q], t);
        assert !Before(sorted[p], sorted[q]);
      }
    }
  }

  lemma SameIdSameAccount(accounts: seq<Account>, x: Account, k: Key, t: Table)
    requires DistinctIds(accounts) && x in accounts && k.id == x.id
    requires exists a :: a in accounts && k == KeyOf(a, Lookup(t, a.id))
    ensures k == KeyIn(t, x)
  {
  }

  lemma DistinctThroughSort(ks: seq<Key>, sorted: seq<Key>)
    requires DistinctKeys(ks)
    requires multiset(sorted) == multiset(ks)
    ensures DistinctKeys(sorted)
  {
    forall i, j | 0 <= i < j < |sorted|
      ensures sorted[i].id != sorted[j].id
    {
      assert sorted[i] in multiset(ks) && sorted[j] in multiset(ks);
      if sorted[i] == sorted[j] {
        assert sorted == sorted[..j] + [sorted[j]] + sorted[j + 1..];
        assert sorted[i] in sorted[..j];
        assert multiset(sorted[..j])[sorted[i]] >= 1;
        assert multiset(ks)[sorted[i]] >= 2;
        OccursOnce(ks, sorted[i]);
      }
    }
  }

  lemma {:induction false} OccursOnce(ks: seq<Key>, k: Key)
    requires DistinctKeys(ks)
    ensures multiset(ks)[k] <= 1
  {
    if ks != [] {
      var front := ks[..|ks| - 1];
      assert ks == front + [ks[|ks| - 1]];
      OccursOnce(front, k);
      if k == ks[|ks| - 1] {
        assert k !in front;
      }
    }
  }

  // Runs

  // `silent` holds the accounts whose probe leaves no snapshot behind in this cycle.
  datatype Cycle = Cycle(accounts: seq<Account>, table: Table, now: int, silent: set<int>)

  function SelectedIn(cfg: Config, ttl: Ttl, c: Cycle): seq<int> {
    Selected(cfg, ttl, c.accounts, c.table, c.now)
  }

  function IdSet(c: Cycle): set<int> { set a | a in c.accounts :: a.id }

  predicate MarkedSince(t: Table, id: int, at: int) {
    id in t && t[id].checkedAt.Some? && t[id].checkedAt.value >= at
  }

  // Between two cycles every selected account's probe, unless silent, wrote a snapshot stamped no
  // earlier than the cycle; anyone else may also have been rewritten, except that `w` is only ever
  // written by its own probe.
  ghost predicate Follows(cfg: Config, ttl: Ttl, c: Cycle, c': Cycle, w: Account) {
    && c.now <= c'.now && IdSet(c') == IdSet(c)
    && (forall id :: id in SelectedIn(cfg, ttl, c) && id !in c.silent ==> MarkedSince(c'.table, id, c.now))
    && (forall id :: id !in SelectedIn(cfg, ttl, c) || id in c.silent
          ==> Lookup(c'.table, id) == Lookup(c.table, id) || (id != w.id && MarkedSince(c'.table, id, c.now)))
  }

  // A run of cycles, each with at most `u` silent probes and fewer than a batch, in which `w` keeps
  // its account data and is due at the start, and its snapshot is older than the first cycle.
  ghost predicate WaitingRun(cfg: Config, ttl: Ttl, cycles: seq<Cycle>, w: Account, u: nat) {
    && |cycles| > 0 && u < cfg.batchSize
    && (forall k :: 0 <= k < |cycles| ==>
          DistinctIds(cycles[k].accounts) && w in cycles[k].accounts && |cycles[k].silent| <= u)
    && (forall k :: 0 <= k < |cycles| - 1 ==> Follows(cfg, ttl, cycles[k], cycles[k + 1], w))
    && DueNow(cfg, ttl, cycles[0].table, cycles[0].now, w)
    && KeyIn(cycles[0].table, w).at < cycles[0].now
  }

  function KeyFor(t: Table, id: int): Key {
    var s := Lookup(t, id);
    Key(if s.Some? then s.value.checkedAt.GetOr(DATETIME_MIN) else DATETIME_MIN, id)
  }

  // Accounts that would be probed before w.
  function Ahead(c: Cycle, w: Account): set<int> {
    set id | id in IdSet(c) && Before(KeyFor(c.table, id), KeyIn(c.table, w))
  }

  ghost predicate Unselected(cfg: Config, ttl: Ttl, cycles: seq<Cycle>, w: Account, k: nat)
    requires k <= |cycles|
  {
    forall j :: 0 <= j < k ==> w.id !in SelectedIn(cfg, ttl, cycles[j])
  }

  lemma {:induction false} StillWaiting(cfg: Config, ttl: Ttl, cycles: seq<Cycle>, w: Account, u: nat, k: nat)
    requires WaitingRun(cfg, ttl, cycles, w, u) && k < |cycles| && Unselected(cfg, ttl, cycles, w, k)
    ensures Lookup(cycles[k].table, w.id) == Lookup(cycles[0].table, w.id)
    ensures cycles[0].now <= cycles[k].now && IdSet(cycles[k]) == IdSet(cycles[0])
    ensures DueNow(cfg, ttl, cycles[k].table, cycles[k].now, w)
  {
    hide Selected, ProbeDue;
    if k > 0 {
      StillWaiting(cfg, ttl, cycles, w, u, k - 1);
      assert Follows(cfg, ttl, cycles[k - 1], cycles[k], w);
      assert w.id !in SelectedIn(cfg, ttl, cycles[k - 1]);
      DueStaysDue(cfg, ttl, w, Lookup(cycles[0].table, w.id), cycles[k - 1].now, cycles[k].now);
    }
  }

  function ToSet(ids: seq<int>): set<int> { set id | id in ids }

  lemma {:induction false} SetOfDistinct(ids: seq<int>)
    requires forall i, j :: 0 <= i < j < |ids| ==> ids[i] != ids[j]
    ensures |ToSet(ids)| == |ids|
  {
    if ids != [] {
      var front, last := ids[..|ids| - 1], ids[|ids| - 1];
      SetOfDistinct(front);
      assert ToSet(ids) == ToSet(front) + {last};
      assert last !in front;
    }
  }

  // A full batch of accounts ahead of w is selected in a cycle that passes w over.
  lemma PassedOver(cfg: Config, ttl: Ttl, c: Cycle, w: Account)
    requires DistinctIds(c.accounts) && w in c.accounts && DueNow(cfg, ttl, c.table, c.now, w)
    requires w.id !in SelectedIn(cfg, ttl, c)
    ensures var chosen := ToSet(SelectedIn(cfg, ttl, c));
            |chosen| == cfg.batchSize && chosen <= Ahead(c, w)
  {
    hide ProbeDue, Selected;
    SelectionIsSmallest(cfg, ttl, c.accounts, c.table, c.now);
    var ids := SelectedIn(cfg, ttl, c);
    SetOfDistinct(ids);
    forall id | id in ids
      ensures id in Ahead(c, w)
    {
      var a :| a in c.accounts && a.id == id && DueNow(cfg, ttl, c.table, c.now, a);
      assert KeyIn(c.table, a) == KeyFor(c.table, id);
    }
  }

  lemma OneBatchFewerAhead(cfg: Config, ttl: Ttl, c: Cycle, c': Cycle, w: Account)
    requires DistinctIds(c.accounts) && w in c.accounts && DueNow(cfg, ttl, c.table, c.now, w)
    requires w.id !in SelectedIn(cfg, ttl, c) && Follows(cfg, ttl, c, c', w) && KeyIn(c.table, w).at < c.now
    ensures |Ahead(c', w)| + cfg.batchSize <= |Ahead(c, w)| + |c.silent|
  {
    hide ProbeDue, Selected;
    PassedOver(cfg, ttl, c, w);
    var chosen := ToSet(SelectedIn(cfg, ttl, c));
    assert Lookup(c'.table, w.id) == Lookup(c.table, w.id);
    forall id | id in Ahead(c', w)
      ensures id in Ahead(c, w) && id !in chosen - c.silent
    {
      assert !MarkedSince(c'.table, id, c.now);
    }
    SubsetSize(Ahead(c', w), Ahead(c, w) - (chosen - c.silent));
    SubsetSize(chosen, (chosen - c.silent) + c.silent);
    SubsetSize(chosen - c.silent, Ahead(c, w));
  }

  // Every cycle that passes w over leaves at least a batch less its silent probes fewer ahead of it.
  lemma {:induction false} AheadShrinks(cfg: Config, ttl: Ttl, cycles: seq<Cycle>, w: Account, u: nat, k: nat)
    requires WaitingRun(cfg, ttl, cycles, w, u) && k < |cycles| && Unselected(cfg, ttl, cycles, w, k)
    ensures |Ahead(cycles[k], w)| + k * (cfg.batchSize - u) <= |IdSet(cycles[0])| - 1
  {
    hide ProbeDue, Selected, Follows, Before;
    StillWaiting(cfg, ttl, cycles, w, u, k);
    if k == 0 {
      NotAheadOfItself(cycles[0], w);
    } else {
      AheadShrinks(cfg, ttl, cycles, w, u, k - 1);
      StillWaiting(cfg, ttl, cycles, w, u, k - 1);
      OneBatchFewerAhead(cfg, ttl, cycles[k - 1], cycles[k], w);
      OneMoreStep(k, cfg.batchSize - u);
    }
  }

  lemma OneMoreStep(k: nat, step: int)
    requires k > 0
    ensures k * step == (k - 1) * step + step
  {
  }

  lemma NotAheadOfItself(c: Cycle, w: Account)
    requires w in c.accounts
    ensures |Ahead(c, w)| <= |IdSet(c)| - 1
  {
    assert w.id in IdSet(c);
    SubsetSize(Ahead(c, w), IdSet(c) - {w.id});
  }

  lemma SubsetSize(a: set<int>, b: set<int>)
    requires a <= b
    ensures |a| <= |b|
  {
    assert a + (b - a) == b;
  }

  // When at most u probes of a cycle leave no snapshot, fewer than a batch, an account that is due
  // waits at most floor((n - 1) / (b - u)) + 1 cycles, even though others with older keys may become
  // due meanwhile.
  lemma FairProbing(cfg: Config, ttl: Ttl, cycles: seq<Cycle>, w: Account, u: nat)
    requires WaitingRun(cfg, ttl, cycles, w, u)
    requires |cycles| == (|IdSet(cycles[0])| - 1) / (cfg.batchSize - u) + 1
    ensures exists k :: 0 <= k < |cycles| && w.id in SelectedIn(cfg, ttl, cycles[k])
  {
    hide ProbeDue, Selected;
    if Unselected(cfg, ttl, cycles, w, |cycles|) {
      var k, n, b := |cycles| - 1, |IdSet(cycles[0])|, cfg.batchSize - u;
      assert Unselected(cfg, ttl, cycles, w, k);
      AheadShrinks(cfg, ttl, cycles, w, u, k);
      StillWaiting(cfg, ttl, cycles, w, u, k);
      PassedOver(cfg, ttl, cycles[k], w);
      SubsetSize(ToSet(SelectedIn(cfg, ttl, cycles[k])), Ahead(cycles[k], w));
      DivisionRemainder(n - 1, b);
      assert false;
    }
  }

  lemma DivisionRemainder(n: int, b: nat)
    requires b >= 1
    ensures n - (n / b) * b < b
  {
  }

  // The threshold is sharp.  `blockers` are accounts ahead of w that are due and whose rows never
  // change; w's own row only changes when it is selected.
  ghost predicate BlockedRun(cfg: Config, ttl: Ttl, cycles: seq<Cycle>, w: Account, blockers: set<Account>) {
    && |cycles| > 0
    && (forall k :: 0 <= k < |cycles| ==> DistinctIds(cycles[k].accounts) && w in cycles[k].accounts
                                          && forall b :: b in blockers ==> b in cycles[k].accounts)
    && (forall k :: 0 <= k < |cycles| - 1 ==> Unmoved(cfg, ttl, cycles[k], cycles[k + 1], w, blockers))
    && (forall b :: b in blockers ==> DueNow(cfg, ttl, cycles[0].table, cycles[0].now, b)
                                      && Before(KeyIn(cycles[0].table, b), KeyIn(cycles[0].table, w)))
  }

  ghost predicate Unmoved(cfg: Config, ttl: Ttl, c: Cycle, c': Cycle, w: Account, blockers: set<Account>) {
    && c.now <= c'.now
    && (forall b :: b in blockers ==> Lookup(c'.table, b.id) == Lookup(c.table, b.id))
    && (w.id !in SelectedIn(cfg, ttl, c) ==> Lookup(c'.table, w.id) == Lookup(c.table, w.id))
  }

  // Whoever is selected has every due account of a smaller key selected with it.
  lemma BatchAheadExcludes(cfg: Config, ttl: Ttl, c: Cycle, w: Account, blockers: set<Account>)
    requires DistinctIds(c.accounts) && w in c.accounts && |blockers| >= cfg.batchSize
    requires forall b :: b in blockers ==> b in c.accounts && DueNow(cfg, ttl, c.table, c.now, b)
                                           && Before(KeyIn(c.table, b), KeyIn(c.table, w))
    ensures w.id !in SelectedIn(cfg, ttl, c)
  {
    hide ProbeDue, Selected;
    SelectionIsSmallest(cfg, ttl, c.accounts, c.table, c.now);
    var ids := SelectedIn(cfg, ttl, c);
    SetOfDistinct(ids);
    var names := set b | b in blockers :: b.id;
    IdsOfDistinct(c.accounts, blockers);
    assert w.id !in names;
    assert |names + {w.id}| == |names| + 1;
    if w.id in ids {
      SubsetSize(names + {w.id}, ToSet(ids));
      assert false;
    }
  }

  lemma {:induction false} IdsOfDistinct(accounts: seq<Account>, some: set<Account>)
    requires DistinctIds(accounts) && forall a :: a in some ==> a in accounts
    ensures |set a | a in some :: a.id| == |some|
    decreases some
  {
    if some != {} {
      var a :| a in some;
      var rest := some - {a};
      IdsOfDistinct(accounts, rest);
      assert (set x | x in some :: x.id) == (set x | x in rest :: x.id) + {a.id};
      assert a.id !in (set x | x in rest :: x.id);
    }
  }

  lemma {:induction false} BlockersStayAhead(cfg: Config, ttl: Ttl, cycles: seq<Cycle>, w: Account, blockers: set<Account>, k: nat)
    requires BlockedRun(cfg, ttl, cycles, w, blockers) && |blockers| >= cfg.batchSize && k < |cycles|
    ensures cycles[0].now <= cycles[k].now && Lookup(cycles[k].table, w.id) == Lookup(cycles[0].table, w.id)
    ensures forall b :: b in blockers ==> Lookup(cycles[k].table, b.id) == Lookup(cycles[0].table, b.id)
    ensures w.id !in SelectedIn(cfg, ttl, cycles[k])
  {
    hide ProbeDue, Selected, Before;
    if k > 0 {
      BlockersStayAhead(cfg, ttl, cycles, w, blockers, k - 1);
      assert Unmoved(cfg, ttl, cycles[k - 1], cycles[k], w, blockers);
      forall b | b in blockers
        ensures DueNow(cfg, ttl, cycles[k].table, cycles[k].now, b)
      {
        DueStaysDue(cfg, ttl, b, Lookup(cycles[0].table, b.id), cycles[0].now, cycles[k].now);
      }
    }
    BatchAheadExcludes(cfg, ttl, cycles[k], w, blockers);
  }

  // A batch of accounts ahead of w that are due and never leave a snapshot keeps it from ever being
  // selected, however long the run and whatever else happens.
  lemma SilentBatchStarves(cfg: Config, ttl: Ttl, cycles: seq<Cycle>, w: Account, blockers: set<Account>)
    requires BlockedRun(cfg, ttl, cycles, w, blockers) && |blockers| >= cfg.batchSize
    ensures forall k :: 0 <= k < |cycles| ==> w.id !in SelectedIn(cfg, ttl, cycles[k])
  {
    forall k | 0 <= k < |cycles|
      ensures w.id !in SelectedIn(cfg, ttl, cycles[k])
    {
      BlockersStayAhead(cfg, ttl, cycles, w, blockers, k);
    }
  }

  // The write is needed: when a cycle's probes leave no snapshot behind (dry run, per-account
  // timeout, a held session lock), whoever was passed over is passed over for ever.
  lemma UnmarkedProbesStarve(cfg: Config, ttl: Ttl, c: Cycle, later: int, w: Account)
    requires DistinctIds(c.accounts) && w in c.accounts && c.now <= later
    requires DueNow(cfg, ttl, c.table, c.now, w) && w.id !in SelectedIn(cfg, ttl, c)
    ensures w.id !in SelectedIn(cfg, ttl, c.(now := later))
  {
    hide ProbeDue, Selected;
    var c' := c.(now := later);
    PassedOver(cfg, ttl, c, w);
    var chosen, chosen' := ToSet(SelectedIn(cfg, ttl, c)), ToSet(SelectedIn(cfg, ttl, c'));
    SelectionIsSmallest(cfg, ttl, c.accounts, c.table, c.now);
    SelectionIsSmallest(cfg, ttl, c'.accounts, c'.table, c'.now);
    if w.id in SelectedIn(cfg, ttl, c') {
      forall id | id in chosen
        ensures id in chosen' - {w.id}
      {
        var a :| a in c.accounts && a.id == id && DueNow(cfg, ttl, c.table, c.now, a);
        DueStaysDue(cfg, ttl, a, Lookup(c.table, a.id), c.now, later);
        assert KeyIn(c.table, a) == KeyFor(c.table, id);
      }
      SetOfDistinct(SelectedIn(cfg, ttl, c'));
      SubsetSize(chosen, chosen' - {w.id});
      assert false;
    }
  }
}
