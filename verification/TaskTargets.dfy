/**
 * One active negotiation task per Telegram target (src/ai_agent/task_target_dedupe.py) and the
 * supersession step of the auto loop.
 */
module TaskTargets {
  import opened Common
  import opened AutoLoop
  import AutoLoopRuns
  import opened TargetKeys

  datatype TaskRow = TaskRow(id: int, target: Option<string>, createdAt: Option<int>, status: TaskStatus)

  predicate Active(s: TaskStatus) {
    s == DraftTask || s == WaitingApproval || s == WaitingReply || s == ReadyForOperator || s == Risky
  }

  predicate Newer(a: TaskRow, b: TaskRow) {
    var ca, cb := a.createdAt.GetOr(DATETIME_MIN), b.createdAt.GetOr(DATETIME_MIN);
    ca > cb || (ca == cb && a.id > b.id)
  }

  lemma NewerIsStrictTotalOrder(a: TaskRow, b: TaskRow, c: TaskRow)
    ensures !Newer(a, a)
    ensures Newer(a, b) && Newer(b, c) ==> Newer(a, c)
    ensures a.id != b.id ==> (Newer(a, b) <==> !Newer(b, a))
    ensures a.createdAt.Some? && b.createdAt.Some? && a.createdAt.value > b.createdAt.value ==> Newer(a, b)
    ensures a.createdAt == b.createdAt ==> (Newer(a, b) <==> a.id > b.id)
    ensures a.createdAt.None? && b.createdAt.Some? && b.createdAt.value > DATETIME_MIN ==> Newer(b, a)
  {
  }

  // How targets are compared: the code uses NormalizeTarget; the order of processing below does not
  // depend on the choice.
  type KeyFunction = Option<string> -> string

  predicate Rival(key: KeyFunction, o: TaskRow, r: TaskRow) {
    o.id != r.id && Active(o.status) && key(o.target) == key(r.target) && Newer(o, r)
  }

  predicate DistinctIds(rows: seq<TaskRow>) {
    forall i, j :: 0 <= i < j < |rows| ==> rows[i].id != rows[j].id
  }

  predicate HasRival(key: KeyFunction, rows: seq<TaskRow>, r: TaskRow) {
    key(r.target) != "" && exists j :: 0 <= j < |rows| && Rival(key, rows[j], r)
  }

  // An open row of the same chat that is newer, whatever the spelling of the two targets.
  predicate Supersedes(o: TaskRow, r: TaskRow) {
    && o.id != r.id && Newer(o, r)
    && (o.status == DraftTask || o.status == WaitingApproval || o.status == WaitingReply
        || o.status == ReadyForOperator || o.status == Risky)
    && o.target.Some? && r.target.Some? && SameChat(o.target.value, r.target.value)
  }

  lemma RivalIffSupersedes(o: TaskRow, r: TaskRow)
    ensures NormalizeTarget(r.target) != "" && Rival(NormalizeTarget, o, r) <==> Supersedes(o, r)
  {
    hide NormalizeTarget, SameChat, Newer;
    NoTargetHasNoKey();
    if o.target.Some? && r.target.Some? {
      SameKeyIff(o.target.value, r.target.value);
    }
  }

  lemma NoTargetHasNoKey()
    ensures NormalizeTarget(None) == ""
  {
  }

  // The newest active duplicate that is newer than the given row, whatever order the rows come in.
  method FindNewerActiveDuplicate(rows: seq<TaskRow>, task: TaskRow) returns (best: Option<TaskRow>)
    requires DistinctIds(rows)
    ensures best.Some? <==> HasRival(NormalizeTarget, rows, task)
    ensures best.Some? <==> exists o :: o in rows && Supersedes(o, task)
    ensures best.Some? ==> best.value in rows && Supersedes(best.value, task)
    ensures best.Some? ==> forall o :: o in rows && Supersedes(o, task) && o != best.value ==> Newer(best.value, o)
  {
    hide NormalizeTarget, Supersedes;
    best := None;
    var norm := NormalizeTarget(task.target);
    forall o | o in rows
      ensures Supersedes(o, task) <==> norm != "" && Rival(NormalizeTarget, o, task)
    {
      RivalIffSupersedes(o, task);
    }
    if norm == "" {
      return;
    }
    for i := 0 to |rows|
      invariant best.None? ==> forall j :: 0 <= j < i ==> !Rival(NormalizeTarget, rows[j], task)
      invariant best.Some? ==> best.value in rows[..i] && Rival(NormalizeTarget, best.value, task)
      invariant best.Some? ==> forall o :: o in rows[..i] && Rival(NormalizeTarget, o, task) && o != best.value ==> Newer(best.value, o)
    {
      var o := rows[i];
      assert rows[..i + 1] == rows[..i] + [o];
      if o.id == task.id || !Active(o.status) {
        continue;
      }
      if NormalizeTarget(o.target) != norm {
        continue;
      }
      if !Newer(o, task) {
        continue;
      }
      if best.None? || Newer(o, best.value) {
        best := Some(o);
      }
    }
    assert rows[..|rows|] == rows;
  }

  // Row k went through one call of a permitted, auto-enabled loop: paused when a rival holds the
  // target, otherwise still open.
  ghost predicate Processed(key: KeyFunction, rows: seq<TaskRow>, k: nat, rows': seq<TaskRow>) {
    && k < |rows| && |rows'| == |rows|
    && (forall j :: 0 <= j < |rows| && j != k ==> rows'[j] == rows[j])
    && rows'[k] == rows[k].(status := rows'[k].status)
    && (if HasRival(key, rows, rows[k]) then rows'[k].status == Paused
        else rows'[k].status == rows[k].status || rows'[k].status == WaitingApproval)
  }

  ghost predicate ProcessedInOrder(key: KeyFunction, tables: seq<seq<TaskRow>>, order: seq<nat>) {
    && |tables| == |order| + 1
    && (forall i, j :: 0 <= i < j < |order| ==> order[i] != order[j])
    && (forall k :: 0 <= k < |order| ==> order[k] < |tables[0]| && Active(tables[0][order[k]].status))
    && (forall k :: 0 <= k < |order| ==> Processed(key, tables[k], order[k], tables[k + 1]))
  }

  // Rows keep identity, target and age; a row not processed yet is unchanged.
  lemma {:induction false} RowsOnlyChangeStatus(key: KeyFunction, tables: seq<seq<TaskRow>>, order: seq<nat>, k: nat, j: nat)
    requires ProcessedInOrder(key, tables, order) && k <= |order| && j < |tables[0]|
    ensures |tables[k]| == |tables[0]| && tables[k][j] == tables[0][j].(status := tables[k][j].status)
    ensures j !in order[..k] ==> tables[k][j] == tables[0][j]
  {
    if k > 0 {
      RowsOnlyChangeStatus(key, tables, order, k - 1, j);
      assert Processed(key, tables[k - 1], order[k - 1], tables[k]);
      assert order[..k] == order[..k - 1] + [order[k - 1]];
    }
  }

  ghost predicate NewestOf(key: KeyFunction, rows: seq<TaskRow>, i: nat) {
    i < |rows| && Active(rows[i].status) && key(rows[i].target) != "" && !HasRival(key, rows, rows[i])
  }

  lemma RivalFromStart(key: KeyFunction, tables: seq<seq<TaskRow>>, order: seq<nat>, k: nat, i: nat, j: nat)
    requires ProcessedInOrder(key, tables, order) && k <= |order| && i < |tables[0]| && j < |tables[0]|
    requires |tables[k]| == |tables[0]| && Rival(key, tables[k][j], tables[k][i])
    ensures Rival(key, tables[0][j], tables[0][i])
  {
    RowsOnlyChangeStatus(key, tables, order, k, i);
    RowsOnlyChangeStatus(key, tables, order, k, j);
    StatusOnlyCloses(key, tables, order, k, j);
  }

  lemma {:induction false} NewestStaysActive(key: KeyFunction, tables: seq<seq<TaskRow>>, order: seq<nat>, i: nat, k: nat)
    requires ProcessedInOrder(key, tables, order) && k <= |order| && DistinctIds(tables[0])
    requires NewestOf(key, tables[0], i)
    ensures |tables[k]| == |tables[0]| && Active(tables[k][i].status)
  {
    RowsOnlyChangeStatus(key, tables, order, k, i);
    if k > 0 {
      NewestStaysActive(key, tables, order, i, k - 1);
      assert Processed(key, tables[k - 1], order[k - 1], tables[k]);
      RowsOnlyChangeStatus(key, tables, order, k - 1, i);
      if HasRival(key, tables[k - 1], tables[k - 1][i]) {
        var j :| 0 <= j < |tables[k - 1]| && Rival(key, tables[k - 1][j], tables[k - 1][i]);
        RivalFromStart(key, tables, order, k - 1, i, j);
      }
    }
  }

  lemma {:induction false} StatusOnlyCloses(key: KeyFunction, tables: seq<seq<TaskRow>>, order: seq<nat>, k: nat, j: nat)
    requires ProcessedInOrder(key, tables, order) && k <= |order| && j < |tables[0]|
    ensures |tables[k]| == |tables[0]| && (Active(tables[k][j].status) ==> Active(tables[0][j].status))
  {
    RowsOnlyChangeStatus(key, tables, order, k, j);
    if j in order[..k] {
      assert exists m :: 0 <= m < k && order[m] == j;
    }
  }

  // Every active row with a rival has a newest one among its rivals.
  lemma {:induction false} NewestRivalExists(key: KeyFunction, rows: seq<TaskRow>, i: nat, upto: nat) returns (n: nat)
    requires i < |rows| && upto <= |rows| && DistinctIds(rows)
    requires key(rows[i].target) != "" && exists j :: 0 <= j < upto && Rival(key, rows[j], rows[i])
    ensures n < upto && Rival(key, rows[n], rows[i])
    ensures forall j :: 0 <= j < upto && Rival(key, rows[j], rows[i]) ==> j == n || Newer(rows[n], rows[j])
  {
    if exists j :: 0 <= j < upto - 1 && Rival(key, rows[j], rows[i]) {
      n := NewestRivalExists(key, rows, i, upto - 1);
      if Rival(key, rows[upto - 1], rows[i]) && !Newer(rows[n], rows[upto - 1]) {
        forall j | 0 <= j < upto - 1 && Rival(key, rows[j], rows[i])
          ensures Newer(rows[upto - 1], rows[j])
        {
          NewerIsStrictTotalOrder(rows[upto - 1], rows[n], rows[j]);
        }
        n := upto - 1;
      }
    } else {
      n := upto - 1;
    }
  }

  lemma NewestRivalHasNone(key: KeyFunction, rows: seq<TaskRow>, i: nat, n: nat)
    requires i < |rows| && n < |rows| && DistinctIds(rows) && Rival(key, rows[n], rows[i])
    requires forall j :: 0 <= j < |rows| && Rival(key, rows[j], rows[i]) ==> j == n || Newer(rows[n], rows[j])
    ensures !HasRival(key, rows, rows[n])
  {
    forall j | 0 <= j < |rows|
      ensures !Rival(key, rows[j], rows[n])
    {
      NewerIsStrictTotalOrder(rows[j], rows[n], rows[i]);
      NewerIsStrictTotalOrder(rows[n], rows[j], rows[n]);
    }
  }

  lemma {:induction false} StaysPaused(key: KeyFunction, tables: seq<seq<TaskRow>>, order: seq<nat>, from: nat, to: nat, i: nat)
    requires ProcessedInOrder(key, tables, order) && 0 < from <= to <= |order| && order[from - 1] == i
    ensures |tables[from]| == |tables[0]| == |tables[to]| && i < |tables[0]| && tables[to][i] == tables[from][i]
  {
    RowsOnlyChangeStatus(key, tables, order, from, i);
    RowsOnlyChangeStatus(key, tables, order, to, i);
    if from < to {
      StaysPaused(key, tables, order, from, to - 1, i);
      assert Processed(key, tables[to - 1], order[to - 1], tables[to]);
    }
  }

  // Every other processed row meets its newest rival, still open, and is paused for good.
  lemma OthersArePaused(key: KeyFunction, tables: seq<seq<TaskRow>>, order: seq<nat>, i: nat)
    requires ProcessedInOrder(key, tables, order) && DistinctIds(tables[0])
    requires i in order && key(tables[0][i].target) != "" && !NewestOf(key, tables[0], i)
    ensures |tables[|order|]| == |tables[0]| && tables[|order|][i].status == Paused
  {
    hide Newer;
    var rows := tables[0];
    var n := NewestRivalExists(key, rows, i, |rows|);
    NewestRivalHasNone(key, rows, i, n);
    var k :| 0 <= k < |order| && order[k] == i;
    NewestStaysActive(key, tables, order, n, k);
    RowsOnlyChangeStatus(key, tables, order, k, n);
    RowsOnlyChangeStatus(key, tables, order, k, i);
    SameRival(key, rows[n], rows[i], tables[k][n], tables[k][i]);
    assert Processed(key, tables[k], order[k], tables[k + 1]);
    StaysPaused(key, tables, order, k + 1, |order|, i);
  }

  lemma SameRival(key: KeyFunction, o: TaskRow, r: TaskRow, o': TaskRow, r': TaskRow)
    requires Rival(key, o, r) && o' == o.(status := o'.status) && r' == r.(status := r'.status) && Active(o'.status)
    ensures Rival(key, o', r')
  {
  }

  // Whatever the order, a processed row ends active exactly when it was the newest active row of its
  // target at the start; so at most one of them stays active, and the newest is never paused.
  lemma SupersessionConverges(key: KeyFunction, tables: seq<seq<TaskRow>>, order: seq<nat>, i: nat)
    requires ProcessedInOrder(key, tables, order) && DistinctIds(tables[0])
    requires i in order && key(tables[0][i].target) != ""
    ensures |tables[|order|]| == |tables[0]|
    ensures Active(tables[|order|][i].status) <==> NewestOf(key, tables[0], i)
  {
    hide NewestOf, Processed;
    if NewestOf(key, tables[0], i) {
      NewestStaysActive(key, tables, order, i, |order|);
    } else {
      OthersArePaused(key, tables, order, i);
    }
  }

  lemma AtMostOneActivePerTarget(key: KeyFunction, tables: seq<seq<TaskRow>>, order: seq<nat>, i: nat, j: nat)
    requires ProcessedInOrder(key, tables, order) && DistinctIds(tables[0])
    requires i in order && j in order && i != j && key(tables[0][i].target) == key(tables[0][j].target) != ""
    ensures |tables[|order|]| == |tables[0]|
    ensures !(Active(tables[|order|][i].status) && Active(tables[|order|][j].status))
  {
    SupersessionConverges(key, tables, order, i);
    SupersessionConverges(key, tables, order, j);
    NewerIsStrictTotalOrder(tables[0][i], tables[0][j], tables[0][i]);
    var a, b := tables[0][i], tables[0][j];
    if Active(a.status) && Active(b.status) {
      assert Rival(key, a, b) || Rival(key, b, a);
    }
  }

  // What one real call of the loop does to the status of an open task is such a processing step.
  lemma LoopCallProcesses(key: KeyFunction, rows: seq<TaskRow>, k: nat, c: AutoLoop.AgentService.Config, st: State, w: World, ignoreDelay: bool)
    requires k < |rows| && Active(rows[k].status) && st.task.status == rows[k].status
    requires w.permitted && st.task.mode != Off && w.newer == HasRival(key, rows, rows[k])
    ensures Processed(key, rows, k, rows[k := rows[k].(status := Step(c, st, w, ignoreDelay).st.task.status)])
  {
    hide Step;
    AutoLoopRuns.CallStatus(c, st, w, ignoreDelay);
  }

  // Over the real keys: two open rows of one chat never both stay active, and the older one is paused,
  // however differently the two targets are written.
  lemma OlderSpellingIsPaused(tables: seq<seq<TaskRow>>, order: seq<nat>, i: nat, j: nat)
    requires ProcessedInOrder(NormalizeTarget, tables, order) && DistinctIds(tables[0])
    requires i in order && j < |tables[0]| && Supersedes(tables[0][j], tables[0][i])
    ensures |tables[|order|]| == |tables[0]| && tables[|order|][i].status == Paused
  {
    hide NormalizeTarget, Supersedes, Newer;
    RivalIffSupersedes(tables[0][j], tables[0][i]);
    OthersArePaused(NormalizeTarget, tables, order, i);
  }

  // Say, one chat written with and without '@', in other case or padded, or one id with leading zeros.
  lemma SpellingsOfOneChat(v: string, w: string, a: string, b: string)
    requires !NamesNothing(v) && Lower(w) == Lower(v) && Blank(a) && Blank(b) && (Strip(v) == "" || Strip(v)[0] != '@')
    ensures SameChat(a + w + b, v) && SameChat("@" + v, v)
  {
    hide NormalizeTarget, SameChat, NamesNothing, Strip, Lower;
    CaseAndPaddingIgnored(v, w, a, b);
    AtSignIsOptional(v);
    EmptyKeyIff(v);
    SameKeyIff(a + w + b, v);
    SameKeyIff("@" + v, v);
  }

  lemma PaddedIdsAreOneChat(zeros: string, d: string, negative: bool)
    requires (forall k :: 0 <= k < |zeros| ==> zeros[k] == '0') && AllDigits(d) && d != "" && |zeros + d| <= DIGIT_LIMIT
    ensures SameChat(Signed(zeros + d, negative), Signed(d, negative))
  {
    hide NormalizeTarget, SameChat, NamesNothing, Signed;
    LeadingZerosIgnored(zeros, d, negative);
    NameOfSigned(d, negative);
    EmptyKeyIff(Signed(d, negative));
    SameKeyIff(Signed(zeros + d, negative), Signed(d, negative));
  }
}
