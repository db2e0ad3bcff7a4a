/**
 * Archiving and deleting orphan rows inside one transaction (scripts/db/rehearse_fk_repair.py).
 * A database is its rows, keyed by table and rowid; foreign keys are a relation on them.
 */
module FkRepair {
  import opened Common

  datatype Key = Key(table: string, rowid: int)
  datatype Row = Row(columns: map<string, Option<int>>, rest: string)
  datatype ForeignKey = ForeignKey(child: string, column: string, parent: string)

  type Rows = map<Key, Row>
  type Schema = seq<ForeignKey>

  // Tables the script may touch, in the order it deletes from them.
  const TABLES: seq<string> := [
    "account_risk_events", "account_target_membership_probes", "message_deliveries",
    "schedule_profiles", "schedule_rules", "scheduled_jobs"]

  // The parent row named by foreign key `fk` of row k, if any.
  function Reference(rows: Rows, k: Key, fk: ForeignKey): Option<Key> {
    if k in rows && k.table == fk.child && fk.column in rows[k].columns && rows[k].columns[fk.column].Some? then
      Some(Key(fk.parent, rows[k].columns[fk.column].value))
    else None
  }

  predicate Dangling(rows: Rows, k: Key, fk: ForeignKey) {
    var r := Reference(rows, k, fk);
    r.Some? && r.value !in rows
  }

  // PRAGMA foreign_key_check: one entry per broken key, so a row can appear several times.
  function Violations(schema: Schema, rows: Rows): set<(Key, int)> {
    set k, i | k in rows && 0 <= i < |schema| && Dangling(rows, k, schema[i]) :: (k, i)
  }

  function ViolatingRows(schema: Schema, rows: Rows): set<Key> {
    set k | k in rows && exists i :: 0 <= i < |schema| && Dangling(rows, k, schema[i])
  }

  function OfTable(keys: set<Key>, t: string): set<Key> { set k | k in keys && k.table == t }

  function OfTables(keys: set<Key>, ts: seq<string>): set<Key> { set k | k in keys && k.table in ts }

  // INSERT OR IGNORE under the unique index on (source table, source rowid): an older entry wins.
  function Archived(prior: Rows, rows: Rows, keys: set<Key>): (a: Rows)
    ensures a.Keys == prior.Keys + (keys * rows.Keys)
  {
    map k | k in prior.Keys + (keys * rows.Keys) :: if k in prior then prior[k] else rows[k]
  }

  // A surviving row still refers to a deleted one.
  predicate Referenced(schema: Schema, rows: Rows, gone: set<Key>) {
    exists k, i :: k in rows && k !in gone && 0 <= i < |schema| && Reference(rows, k, schema[i]).Some?
      && Reference(rows, k, schema[i]).value in gone
  }

  // The database's own test of a DELETE, as SQLite makes it: one counter for the statement.  Its rows go
  // in rowid order; a deleted row takes one off for each of its keys that is broken by then, as long as
  // the counter is positive, and adds one for each reference to it that is still there.

  function BrokenKeys(schema: Schema, rows: Rows, k: Key): set<(Key, int)> {
    set i | 0 <= i < |schema| && Dangling(rows, k, schema[i]) :: (k, i)
  }

  function References(schema: Schema, rows: Rows, k: Key): set<(Key, int)> {
    set j, i | j in rows && 0 <= i < |schema| && j != k && Reference(rows, j, schema[i]) == Some(k) :: (j, i)
  }

  function CounterStep(schema: Schema, rows: Rows, k: Key, counter: nat): nat {
    Max(0, counter - |BrokenKeys(schema, rows, k)|) + |References(schema, rows, k)|
  }

  function Counter(schema: Schema, rows: Rows, visit: seq<Key>, counter: nat): nat
    decreases |visit|
  {
    if visit == [] then counter
    else Counter(schema, rows - {visit[0]}, visit[1..], CounterStep(schema, rows, visit[0], counter))
  }

  ghost predicate Lists(visit: seq<Key>, keys: set<Key>) {
    && (forall i, j :: 0 <= i < j < |visit| ==> visit[i].rowid < visit[j].rowid)
    && forall k :: k in keys <==> k in visit
  }

  ghost predicate Admits(schema: Schema, rows: Rows, gone: set<Key>) {
    exists visit :: Lists(visit, gone) && Counter(schema, rows, visit, 0) == 0
  }

  datatype Failure = Protected | NotAcknowledged | UnexpectedCount | UnsupportedTable | DeleteRefused | StillViolating
  datatype Result = DryRun(violatingRows: nat) | Committed(archived: nat) | Failed(why: Failure)

  class Database {
    const schema: Schema
    var rows: Rows
    var archive: Option<Rows>

    constructor (schema: Schema, rows: Rows, archive: Option<Rows>)
      ensures this.schema == schema && this.rows == rows && this.archive == archive
    {
      this.schema, this.rows, this.archive := schema, rows, archive;
    }

    method ArchiveRows(bad: set<Key>)
      requires bad <= rows.Keys && archive.Some?
      modifies this`archive
      ensures archive == Some(Archived(old(archive).value, rows, bad))
    {
      hide Archived;
      var todo := bad;
      ghost var prior := archive.value;
      assert bad - todo == {};
      ArchivedNone(prior, rows);
      while todo != {}
        invariant todo <= bad && archive == Some(Archived(prior, rows, bad - todo))
        decreases |todo|
      {
        var k :| k in todo;
        ArchivedOne(prior, rows, bad - todo, k);
        assert bad - (todo - {k}) == bad - todo + {k};
        todo := todo - {k};
        if k !in archive.value {
          archive := Some(archive.value[k := rows[k]]);
        }
      }
      assert bad - todo == bad;
    }

    // DELETE FROM table WHERE rowid IN (...), with foreign keys enforced
    method DeleteFrom(gone: set<Key>) returns (ok: bool)
      requires gone <= rows.Keys && forall j, k :: j in gone && k in gone ==> j.table == k.table
      modifies this`rows
      ensures ok <==> Admits(schema, old(rows), gone)
      ensures rows == if ok then old(rows) - gone else old(rows)
    {
      hide CounterStep;
      var visit := InRowidOrder(gone);
      var counter, left := 0, rows;
      for n := 0 to |visit|
        invariant Counter(schema, left, visit[n..], counter) == Counter(schema, rows, visit, 0)
      {
        assert visit[n..][0] == visit[n] && visit[n..][1..] == visit[n + 1..];
        counter := CounterStep(schema, left, visit[n], counter);
        left := left - {visit[n]};
      }
      AdmitsByList(schema, rows, gone, visit);
      ok := counter == 0;
      if ok {
        rows := rows - gone;
      }
    }

    // The deletes table by table; stops at the first refused statement.
    method DeleteAll(bad: set<Key>) returns (ok: bool)
      requires OfTables(bad, TABLES) == bad && bad <= rows.Keys
      modifies this`rows
      ensures ok ==> rows == old(rows) - bad
      ensures ok <==> AllAdmitted(schema, old(rows), bad)
    {
      hide Admits;
      var n := 0;
      ok := true;
      while n < |TABLES|
        invariant 0 <= n <= |TABLES|
        invariant rows == old(rows) - OfTables(bad, TABLES[..n])
        invariant forall m :: 0 <= m < n ==> Admitted(schema, old(rows), bad, m)
      {
        var gone := OfTable(bad, TABLES[n]);
        assert OfTables(bad, TABLES[..n + 1]) == OfTables(bad, TABLES[..n]) + gone;
        TablesDiffer(n);
        if gone != {} {
          ok := DeleteFrom(gone);
          if !ok {
            assert !Admitted(schema, old(rows), bad, n);
            return;
          }
        } else {
          NothingAdmitted(schema, rows);
        }
        n := n + 1;
      }
      assert TABLES[..|TABLES|] == TABLES;
    }

    method Run(expected: nat, protectedTarget: bool, apply: bool, acknowledged: bool) returns (r: Result)
      modifies this
      ensures !r.Committed? ==> rows == old(rows) && archive == old(archive)
      ensures r.Committed? ==>
                var bad := ViolatingRows(schema, old(rows));
                && rows == old(rows) - bad && r.archived == |bad|
                && archive == Some(Archived(old(archive).GetOr(map[]), old(rows), bad))
                && Violations(schema, rows) == {}
      ensures protectedTarget ==> r == Failed(Protected)
      ensures !protectedTarget && apply && !acknowledged ==> r == Failed(NotAcknowledged)
      ensures !protectedTarget && (apply ==> acknowledged) ==>
                var bad := ViolatingRows(schema, old(rows));
                && (r == Failed(UnexpectedCount) <==> |Violations(schema, old(rows))| != expected)
                && (r == Failed(UnsupportedTable)
                    <==> |Violations(schema, old(rows))| == expected && !(bad <= OfTables(bad, TABLES)))
                && (|Violations(schema, old(rows))| == expected && bad <= OfTables(bad, TABLES) ==>
                      if !apply then r == DryRun(|bad|)
                      else if !AllAdmitted(schema, old(rows), bad) then r == Failed(DeleteRefused)
                      else if Referenced(schema, old(rows), bad) then r == Failed(StillViolating)
                      else r == Committed(|bad|))
    {
      hide Violations, ViolatingRows, AllAdmitted, Referenced, Archived;
      if protectedTarget {
        return Failed(Protected);
      }
      if apply && !acknowledged {
        return Failed(NotAcknowledged);
      }
      if |Violations(schema, rows)| != expected {
        return Failed(UnexpectedCount);
      }
      var bad := ViolatingRows(schema, rows);
      if exists k :: k in bad && k.table !in TABLES {
        assert !(bad <= OfTables(bad, TABLES));
        return Failed(UnsupportedTable);
      }
      assert bad == OfTables(bad, TABLES);
      if !apply {
        return DryRun(|bad|);
      }
      var savedRows, savedArchive := rows, archive;
      ViolatingRowsExist(schema, rows);
      FinalCheckFailsIff(schema, rows);
      if archive.None? {
        archive := Some(map[]);
      }
      ArchiveRows(bad);
      assert OfTables(bad, TABLES) == bad;
      var ok := DeleteAll(bad);
      if !ok {
        rows, archive := savedRows, savedArchive;
        return Failed(DeleteRefused);
      }
      if Violations(schema, rows) != {} {
        rows, archive := savedRows, savedArchive;
        return Failed(StillViolating);
      }
      return Committed(|bad|);
    }
  }

  lemma ArchivedNone(prior: Rows, rows: Rows)
    ensures Archived(prior, rows, {}) == prior
  {
  }

  lemma ArchivedOne(prior: Rows, rows: Rows, keys: set<Key>, k: Key)
    requires k in rows
    ensures var a := Archived(prior, rows, keys);
            Archived(prior, rows, keys + {k}) == if k in a then a else a[k := rows[k]]
  {
  }

  lemma ViolatingRowsExist(schema: Schema, rows: Rows)
    ensures ViolatingRows(schema, rows) <= rows.Keys
  {
  }

  lemma NothingAdmitted(schema: Schema, rows: Rows)
    ensures Admits(schema, rows, {})
  {
    assert Lists([], {}) && Counter(schema, rows, [], 0) == 0;
  }

  lemma TablesDiffer(n: nat)
    requires n < |TABLES|
    ensures forall m :: 0 <= m < n ==> TABLES[m] != TABLES[n]
  {
    assert |TABLES[0]| == 19 && |TABLES[1]| == 32 && |TABLES[2]| == 18 && |TABLES[3]| == 17 && |TABLES[4]| == 14;
    assert TABLES[4][2] == 'h' && TABLES[4][9] == 'r' && TABLES[5][9] == '_';
  }

  // The rowid order of a set of rows

  lemma {:induction false} LeastExists(keys: set<Key>) returns (least: Key)
    requires keys != {}
    ensures least in keys && forall k :: k in keys ==> least.rowid <= k.rowid
  {
    var some :| some in keys;
    if keys == {some} {
      least := some;
    } else {
      assert keys - {some} != {} by { assert keys - {some} + {some} == keys; }
      least := LeastExists(keys - {some});
      if some.rowid < least.rowid { least := some; }
    }
  }

  method InRowidOrder(keys: set<Key>) returns (visit: seq<Key>)
    requires forall j, k :: j in keys && k in keys ==> j.table == k.table
    ensures Lists(visit, keys)
  {
    visit := [];
    var todo := keys;
    while todo != {}
      invariant todo <= keys && Lists(visit, keys - todo)
      invariant forall j, k :: j in visit && k in todo ==> j.rowid < k.rowid
      decreases |todo|
    {
      ghost var least := LeastExists(todo);
      var k :| k in todo && forall j :: j in todo ==> k.rowid <= j.rowid;
      visit := visit + [k];
      todo := todo - {k};
    }
    assert keys - todo == keys;
  }

  lemma {:induction false} ListsUnique(a: seq<Key>, b: seq<Key>, keys: set<Key>)
    requires Lists(a, keys) && Lists(b, keys)
    ensures a == b
    decreases |a|
  {
    hide Lists;
    FirstOfLists(a, keys);
    FirstOfLists(b, keys);
    if a != [] {
      TailLists(a, keys);
      TailLists(b, keys);
      ListsUnique(a[1..], b[1..], keys - {a[0]});
      assert a == [a[0]] + a[1..] && b == [b[0]] + b[1..];
    }
  }

  lemma FirstOfLists(a: seq<Key>, keys: set<Key>)
    requires Lists(a, keys)
    ensures a == [] <==> keys == {}
    ensures a != [] ==> a[0] in keys && forall k :: k in keys && k != a[0] ==> a[0].rowid < k.rowid
  {
    assert a != [] ==> a[0] in a;
    forall k | k in keys && a != [] && k != a[0]
      ensures a[0].rowid < k.rowid
    {
      var i :| 0 <= i < |a| && a[i] == k;
    }
    if a == [] { assert forall k :: k !in keys; }
  }

  lemma TailLists(a: seq<Key>, keys: set<Key>)
    requires a != [] && Lists(a, keys)
    ensures Lists(a[1..], keys - {a[0]})
  {
    assert a == [a[0]] + a[1..];
    assert a[0] !in a[1..];
  }

  lemma AdmitsByList(schema: Schema, rows: Rows, gone: set<Key>, visit: seq<Key>)
    requires Lists(visit, gone)
    ensures Admits(schema, rows, gone) <==> Counter(schema, rows, visit, 0) == 0
  {
    hide Counter, Lists;
    forall other | Lists(other, gone)
      ensures other == visit
    {
      ListsUnique(other, visit, gone);
    }
  }

  // The counter never exceeds the references a statement has broken so far, so a statement that leaves
  // none behind is admitted.

  function Outstanding(schema: Schema, start: Rows, rows: Rows): set<(Key, int)> {
    set j, i | j in rows && 0 <= i < |schema| && !Dangling(start, j, schema[i]) && Dangling(rows, j, schema[i]) :: (j, i)
  }

  function OwnOutstanding(schema: Schema, start: Rows, rows: Rows, k: Key): set<(Key, int)> {
    set i | 0 <= i < |schema| && (k, i) in Outstanding(schema, start, rows) :: (k, i)
  }

  ghost predicate PartOf(rows: Rows, start: Rows) {
    rows.Keys <= start.Keys && forall k :: k in rows ==> rows[k] == start[k]
  }

  lemma OutstandingStep(schema: Schema, start: Rows, rows: Rows, k: Key)
    requires PartOf(rows, start) && k in rows
    ensures var before, after := Outstanding(schema, start, rows), Outstanding(schema, start, rows - {k});
            after == (before - OwnOutstanding(schema, start, rows, k)) + References(schema, rows, k)
    ensures Outstanding(schema, start, rows) !! References(schema, rows, k)
  {
    var left := rows - {k};
    forall j, i | j in left && 0 <= i < |schema|
      ensures Reference(left, j, schema[i]) == Reference(rows, j, schema[i]) == Reference(start, j, schema[i])
      ensures Dangling(left, j, schema[i]) <==> Dangling(rows, j, schema[i]) || Reference(rows, j, schema[i]) == Some(k)
    {
    }
  }

  lemma PairsSplit(all: set<(Key, int)>, part: set<(Key, int)>)
    requires part <= all
    ensures |all| == |all - part| + |part|
  {
    assert all == (all - part) + part;
  }

  lemma CounterStepBound(schema: Schema, start: Rows, rows: Rows, k: Key, counter: nat)
    requires PartOf(rows, start) && k in rows && counter <= |Outstanding(schema, start, rows)|
    ensures CounterStep(schema, rows, k, counter) <= |Outstanding(schema, start, rows - {k})|
  {
    hide Dangling;
    var before, own, refs := Outstanding(schema, start, rows), OwnOutstanding(schema, start, rows, k), References(schema, rows, k);
    OutstandingStep(schema, start, rows, k);
    PairsSplit(before, own);
    PairsSplit((before - own) + refs, refs);
    assert (before - own) + refs - refs == before - own;
    assert own <= BrokenKeys(schema, rows, k);
    PairsSplit(BrokenKeys(schema, rows, k), own);
  }

  lemma {:induction false} CounterBound(schema: Schema, start: Rows, rows: Rows, visit: seq<Key>, keys: set<Key>, counter: nat)
    requires PartOf(rows, start) && Lists(visit, keys) && keys <= rows.Keys
    requires counter <= |Outstanding(schema, start, rows)|
    ensures Counter(schema, rows, visit, counter) <= |Outstanding(schema, start, rows - keys)|
    decreases |visit|
  {
    hide Outstanding, CounterStep;
    if visit == [] {
      assert rows - keys == rows;
    } else {
      var k := visit[0];
      assert k in keys;
      CounterStepBound(schema, start, rows, k, counter);
      TailLists(visit, keys);
      CounterBound(schema, start, rows - {k}, visit[1..], keys - {k}, CounterStep(schema, rows, k, counter));
      assert rows - {k} - (keys - {k}) == rows - keys;
    }
  }

  lemma UnreferencedIsAdmitted(schema: Schema, rows: Rows, gone: set<Key>, visit: seq<Key>)
    requires gone <= rows.Keys && Lists(visit, gone) && !Referenced(schema, rows, gone)
    ensures Admits(schema, rows, gone)
  {
    hide Counter;
    CounterBound(schema, rows, rows, visit, gone, 0);
    assert Outstanding(schema, rows, rows - gone) == {} by {
      forall j, i | j in rows - gone && 0 <= i < |schema|
        ensures Dangling(rows, j, schema[i]) || !Dangling(rows - gone, j, schema[i])
      {
        assert Reference(rows - gone, j, schema[i]) == Reference(rows, j, schema[i]);
      }
    }
  }

  // The n-th DELETE leaves no reference behind once the earlier tables are done.
  predicate Passes(schema: Schema, rows: Rows, bad: set<Key>, n: nat)
    requires n < |TABLES|
  {
    !Referenced(schema, rows - OfTables(bad, TABLES[..n]), OfTable(bad, TABLES[n]))
  }

  ghost predicate Admitted(schema: Schema, rows: Rows, bad: set<Key>, n: nat)
    requires n < |TABLES|
  {
    Admits(schema, rows - OfTables(bad, TABLES[..n]), OfTable(bad, TABLES[n]))
  }

  // Every DELETE goes through.
  ghost predicate AllAdmitted(schema: Schema, rows: Rows, bad: set<Key>) {
    forall n :: 0 <= n < |TABLES| ==> Admitted(schema, rows, bad, n)
  }

  // Every DELETE leaves no reference behind: whoever refers to an orphan is an orphan of the same or
  // an earlier table.
  predicate Deletable(schema: Schema, rows: Rows, bad: set<Key>) {
    forall n :: 0 <= n < |TABLES| ==> Passes(schema, rows, bad, n)
  }

  // Conservation

  // Once the violating rows are gone, the final check fails exactly when a surviving row refers to one
  // of them.
  lemma FinalCheckFailsIff(schema: Schema, rows: Rows)
    ensures Violations(schema, rows - ViolatingRows(schema, rows)) != {}
       <==> Referenced(schema, rows, ViolatingRows(schema, rows))
  {
    var bad := ViolatingRows(schema, rows);
    var left := rows - bad;
    forall k, i | k in left && 0 <= i < |schema|
      ensures Dangling(left, k, schema[i]) <==>
                Reference(rows, k, schema[i]).Some? && Reference(rows, k, schema[i]).value in bad
    {
      assert Reference(left, k, schema[i]) == Reference(rows, k, schema[i]);
      assert !Dangling(rows, k, schema[i]);
    }
    if Referenced(schema, rows, bad) {
      var k, i :| k in rows && k !in bad && 0 <= i < |schema| && Reference(rows, k, schema[i]).Some?
        && Reference(rows, k, schema[i]).value in bad;
      assert (k, i) in Violations(schema, left);
    }
    if Violations(schema, left) != {} {
      var v :| v in Violations(schema, left);
      assert v.0 in left && Dangling(left, v.0, schema[v.1]);
    }
  }

  // When no statement leaves a reference behind, all deletes are admitted and the final check cannot
  // fail.
  lemma RepairLeavesNoViolation(schema: Schema, rows: Rows)
    requires Deletable(schema, rows, ViolatingRows(schema, rows))
    requires forall k :: k in ViolatingRows(schema, rows) ==> k.table in TABLES
    ensures AllAdmitted(schema, rows, ViolatingRows(schema, rows))
    ensures Violations(schema, rows - ViolatingRows(schema, rows)) == {}
  {
    hide Violations, Admits;
    var bad := ViolatingRows(schema, rows);
    forall n | 0 <= n < |TABLES|
      ensures Admitted(schema, rows, bad, n)
    {
      assert Passes(schema, rows, bad, n);
      TablesDiffer(n);
      var gone := OfTable(bad, TABLES[n]);
      var visit := Listing(gone);
      UnreferencedIsAdmitted(schema, rows - OfTables(bad, TABLES[..n]), gone, visit);
    }
    hide Passes;
    FinalCheckFailsIff(schema, rows);
    if Referenced(schema, rows, bad) {
      var k, i :| k in rows && k !in bad && 0 <= i < |schema| && Reference(rows, k, schema[i]).Some?
        && Reference(rows, k, schema[i]).value in bad;
      OrphanNotReferenced(schema, rows, bad, k, i);
    }
  }

  lemma {:induction false} Listing(keys: set<Key>) returns (visit: seq<Key>)
    requires forall j, k :: j in keys && k in keys ==> j.table == k.table
    ensures Lists(visit, keys)
    decreases |keys|
  {
    if keys == {} {
      visit := [];
    } else {
      var least := LeastExists(keys);
      var rest := Listing(keys - {least});
      visit := [least] + rest;
      assert forall k :: k in rest ==> k in keys && k != least && k.rowid > least.rowid;
    }
  }

  lemma OrphanNotReferenced(schema: Schema, rows: Rows, bad: set<Key>, k: Key, i: nat)
    requires Deletable(schema, rows, bad) && k in rows && k !in bad && i < |schema|
    requires Reference(rows, k, schema[i]).Some? && Reference(rows, k, schema[i]).value.table in TABLES
    ensures Reference(rows, k, schema[i]).value !in bad
  {
    var r := Reference(rows, k, schema[i]).value;
    var n :| 0 <= n < |TABLES| && TABLES[n] == r.table;
    var before := rows - OfTables(bad, TABLES[..n]);
    assert Passes(schema, rows, bad, n);
    assert k in before && Reference(before, k, schema[i]) == Some(r);
  }

  // Two orphan jobs and a healthy delivery of the first: deleting the first alone is refused, deleting
  // both is admitted, and then the final check finds the delivery.
  lemma SiblingHidesReference() returns (schema: Schema, rows: Rows)
    ensures var bad := {Key("scheduled_jobs", 10), Key("scheduled_jobs", 11)};
            && ViolatingRows(schema, rows) == bad && !Admits(schema, rows, {Key("scheduled_jobs", 10)})
            && AllAdmitted(schema, rows, bad)
            && (Key("message_deliveries", 5), 1) in Violations(schema, rows - bad)
  {
    schema := [ForeignKey("scheduled_jobs", "account_id", "accounts"),
               ForeignKey("message_deliveries", "job_id", "scheduled_jobs")];
    var j, k, d := Key("scheduled_jobs", 10), Key("scheduled_jobs", 11), Key("message_deliveries", 5);
    rows := map[j := Row(map["account_id" := Some(99)], ""), k := Row(map["account_id" := Some(99)], ""),
                d := Row(map["job_id" := Some(10)], "")];
    var bad := {j, k};
    DistinctNames();
    assert Reference(rows, j, schema[0]) == Reference(rows, k, schema[0]) == Some(Key("accounts", 99));
    assert Dangling(rows, j, schema[0]) && Dangling(rows, k, schema[0]);
    assert Reference(rows, d, schema[1]) == Some(j) && Reference(rows, d, schema[0]) == None;
    assert ViolatingRows(schema, rows) == bad;
    assert Dangling(rows - bad, d, schema[1]);
    assert (d, 1) in Violations(schema, rows - bad);
    hide Violations, ViolatingRows, Dangling, Reference, Admits;
    SiblingCounter(schema, rows, j, k, d);
    JobsOnly(schema, rows, bad);
  }

  lemma JobsOnly(schema: Schema, rows: Rows, bad: set<Key>)
    requires Admits(schema, rows, bad) && forall k :: k in bad ==> k.table == "scheduled_jobs"
    ensures AllAdmitted(schema, rows, bad)
  {
    hide Admits;
    forall n | 0 <= n < |TABLES|
      ensures Admitted(schema, rows, bad, n)
    {
      OnlyJobs(n);
      assert rows - OfTables(bad, TABLES[..n]) == rows;
      if n == 5 {
        assert OfTable(bad, TABLES[n]) == bad;
      } else {
        assert OfTable(bad, TABLES[n]) == {};
        NothingAdmitted(schema, rows);
      }
    }
  }

  lemma OnlyJobs(n: nat)
    requires n < |TABLES|
    ensures TABLES[n] == "scheduled_jobs" <==> n == 5
    ensures "scheduled_jobs" !in TABLES[..n]
  {
    TablesDiffer(5);
  }

  lemma SiblingCounter(schema: Schema, rows: Rows, j: Key, k: Key, d: Key)
    requires |schema| == 2 && rows.Keys == {j, k, d} && j.rowid < k.rowid && d.table != j.table
    requires Dangling(rows, j, schema[0]) && Dangling(rows, k, schema[0]) && Reference(rows, d, schema[1]) == Some(j)
    requires Reference(rows, j, schema[0]) == Reference(rows, k, schema[0])
    requires Reference(rows, j, schema[1]) == Reference(rows, k, schema[1]) == Reference(rows, d, schema[0]) == None
    ensures Admits(schema, rows, {j, k}) && !Admits(schema, rows, {j})
  {
    var left := rows - {j};
    assert BrokenKeys(schema, rows, j) == {(j, 0)} && References(schema, rows, j) == {(d, 1)};
    assert Reference(left, k, schema[0]) == Reference(rows, k, schema[0]);
    assert BrokenKeys(schema, left, k) == {(k, 0)} && References(schema, left, k) == {};
    assert CounterStep(schema, rows, j, 0) == 1 && CounterStep(schema, left, k, 1) == 0;
    assert [j, k][1..] == [k] && [k][1..] == [] && [j][1..] == [];
    assert Counter(schema, left, [k], 1) == Counter(schema, left - {k}, [], 0) == 0;
    assert Counter(schema, rows, [j, k], 0) == Counter(schema, left, [k], 1);
    assert Counter(schema, rows, [j], 0) == Counter(schema, left, [], 1) == 1;
    AdmitsByList(schema, rows, {j, k}, [j, k]);
    AdmitsByList(schema, rows, {j}, [j]);
  }

  lemma DistinctNames()
    ensures "accounts" != "scheduled_jobs" && "message_deliveries" != "scheduled_jobs"
    ensures "accounts" != "message_deliveries" && TABLES[5] == "scheduled_jobs"
  {
    assert |"accounts"| == 8 && |"scheduled_jobs"| == 14 && |"message_deliveries"| == 18;
  }

  lemma SetSplits(all: set<Key>, part: set<Key>)
    requires part <= all
    ensures |all| == |all - part| + |part|
  {
    assert all == (all - part) + part;
  }

  lemma SetsAdd(a: set<Key>, b: set<Key>)
    ensures |a + b| == |a| + |b - a|
  {
    assert a + b == a + (b - a);
  }

  lemma KeysSize(m: Rows)
    ensures |m| == |m.Keys|
  {
  }

  // Nothing is lost: rows left plus rows deleted are the rows before, and the archive gains exactly
  // one entry per deleted row it did not hold yet.
  lemma RepairConservesRows(rows: Rows, prior: Rows, bad: set<Key>)
    requires bad <= rows.Keys
    ensures |rows| == |rows - bad| + |bad|
    ensures |Archived(prior, rows, bad)| == |prior| + |bad - prior.Keys|
  {
    var left, a := rows - bad, Archived(prior, rows, bad);
    assert left.Keys == rows.Keys - bad;
    assert bad * rows.Keys == bad;
    KeysSize(rows);
    KeysSize(left);
    KeysSize(a);
    KeysSize(prior);
    SetSplits(rows.Keys, bad);
    SetsAdd(prior.Keys, bad);
  }

  // Every deleted row can be restored from the archive with its full content exactly when no older
  // archive entry with different content occupies its key.
  lemma RestorableIff(rows: Rows, prior: Rows, bad: set<Key>)
    requires bad <= rows.Keys
    ensures (forall k :: k in bad ==> Archived(prior, rows, bad)[k] == rows[k])
       <==> (forall k :: k in bad && k in prior ==> prior[k] == rows[k])
    ensures forall k :: k in prior ==> Archived(prior, rows, bad)[k] == prior[k]
  {
    var a := Archived(prior, rows, bad);
    assert forall k :: k in bad ==> a[k] == if k in prior then prior[k] else rows[k];
  }

  // With no older entry for any of the keys, totals match and the old table is rows plus archive.
  lemma CleanRepairTotals(rows: Rows, prior: Rows, bad: set<Key>)
    requires bad <= rows.Keys && bad !! prior.Keys
    ensures |rows| + |prior| == |rows - bad| + |Archived(prior, rows, bad)|
    ensures forall k :: k in rows ==>
              if k in bad then k !in rows - bad && Archived(prior, rows, bad)[k] == rows[k]
              else k in rows - bad && (rows - bad)[k] == rows[k]
  {
    RepairConservesRows(rows, prior, bad);
    assert bad - prior.Keys == bad;
  }

  // A reused rowid loses its row: the old entry is kept, the new content is deleted unarchived.
  lemma ReusedRowidIsLost()
    ensures var k := Key("scheduled_jobs", 7);
            var rows := map[k := Row(map["account_id" := Some(2)], "second job")];
            var prior := map[k := Row(map["account_id" := Some(1)], "first job")];
            var schema := [ForeignKey("scheduled_jobs", "account_id", "accounts")];
            && ViolatingRows(schema, rows) == {k}
            && k !in rows - {k} && Archived(prior, rows, {k})[k] != rows[k]
  {
    var k := Key("scheduled_jobs", 7);
    var rows := map[k := Row(map["account_id" := Some(2)], "second job")];
    var schema := [ForeignKey("scheduled_jobs", "account_id", "accounts")];
    assert Reference(rows, k, schema[0]) == Some(Key("accounts", 2));
    assert Key("accounts", 2) !in rows by {
      assert |"accounts"| != |"scheduled_jobs"|;
    }
    assert Dangling(rows, k, schema[0]);
  }
}
