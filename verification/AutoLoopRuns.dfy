/**
 * Safety of whole runs of the auto loop: any sequence of calls, any answers from outside, and any
 * operator edits of its row between calls.
 */
module AutoLoopRuns {
  import opened Common
  import opened AgentService
  import opened AutoLoop

  // An operator may rewrite every task field except the loop's own clock.
  datatype Edit = Edit(mode: Mode, status: TaskStatus, stage: Stage, finalSummary: bool,
                       maxMessages: int, delaySec: Option<int>)

  datatype Turn = Turn(edit: Edit, ignoreDelay: bool, world: World)

  function Edited(st: State, e: Edit): State {
    st.(task := Task(e.mode, e.status, e.stage, e.finalSummary, e.maxMessages, e.delaySec, st.task.lastRun))
  }

  // A run: the states between calls and what each call returned.
  datatype Run = Run(turns: seq<Turn>, states: seq<State>, results: seq<StepResult>)

  predicate Linked(c: Config, run: Run, k: nat)
    requires k < |run.turns| == |run.results| && |run.states| == |run.turns| + 1
  {
    && run.results[k] == Step(c, Before(run, k), run.turns[k].world, run.turns[k].ignoreDelay)
    && run.states[k + 1] == run.results[k].st
  }

  ghost predicate IsRun(c: Config, run: Run) {
    && |run.results| == |run.turns| && |run.states| == |run.turns| + 1
    && forall k :: 0 <= k < |run.turns| ==> Linked(c, run, k)
  }

  // The state call k finds.
  function Before(run: Run, k: nat): State
    requires k < |run.turns| && k < |run.states|
  {
    Edited(run.states[k], run.turns[k].edit)
  }

  predicate SendsAt(run: Run, k: nat)
    requires k < |run.results|
  {
    run.results[k].sentAt.Some?
  }

  function Sends(run: Run, lo: nat, hi: nat): nat
    requires lo <= hi <= |run.results|
    decreases hi
  {
    if lo == hi then 0
    else Sends(run, lo, hi - 1) + if SendsAt(run, hi - 1) then 1 else 0
  }

  function InsertingSyncs(run: Run, lo: nat, hi: nat): nat
    requires lo <= hi <= |run.results|
    decreases hi
  {
    if lo == hi then 0
    else InsertingSyncs(run, lo, hi - 1) + if run.results[hi - 1].inserted > 0 then 1 else 0
  }

  function Extended(c: Config, run: Run, t: Turn): Run
    requires |run.states| > 0
  {
    var r := Step(c, Edited(run.states[|run.states| - 1], t.edit), t.world, t.ignoreDelay);
    Run(run.turns + [t], run.states + [r.st], run.results + [r])
  }

  lemma ExtendedIsRun(c: Config, run: Run, t: Turn)
    requires IsRun(c, run)
    ensures IsRun(c, Extended(c, run, t))
  {
    hide Step;
    var longer := Extended(c, run, t);
    forall k | 0 <= k < |longer.turns|
      ensures Linked(c, longer, k)
    {
      if k < |run.turns| {
        assert Linked(c, run, k);
        assert Before(longer, k) == Before(run, k);
      }
    }
  }

  // Every sequence of calls, from any state, makes a run.
  function RunOf(c: Config, st: State, turns: seq<Turn>): (run: Run)
    ensures IsRun(c, run) && run.turns == turns && run.states[0] == st
  {
    if turns == [] then Run([], [st], [])
    else
      var front := RunOf(c, st, turns[..|turns| - 1]);
      ExtendedIsRun(c, front, turns[|turns| - 1]);
      Extended(c, front, turns[|turns| - 1])
  }

  predicate Automatic(run: Run) {
    forall k :: 0 <= k < |run.turns| ==> !run.turns[k].ignoreDelay
  }

  // All readings of one call at the same instant, for the concrete runs below.
  function At(t: int): Clock { Clock(t, t, t, t, t, t, t, t, t, t) }

  // The clock never runs backwards, inside a call or between calls.
  predicate Timely(run: Run) {
    && (forall k :: 0 <= k < |run.turns| ==> run.turns[k].world.clock.Ordered())
    && (forall i, j :: 0 <= i < j < |run.turns| ==> run.turns[i].world.clock.end <= run.turns[j].world.clock.now)
  }

  // One call

  lemma LatestNoneIsZero(ms: seq<Message>)
    ensures Latest(IsDraft, ms).None? <==> DraftCount(ms) == 0
  {
  }

  lemma ApproveCounts(st: State, w: World, phase: Phase)
    ensures var r := Approve(st, w, phase);
            && (r.sentAt.Some? ==> SentCount(r.st.msgs) == SentCount(st.msgs) + 1
                                   && DraftCount(r.st.msgs) == DraftCount(st.msgs) - 1
                                   && AnyOutbound(r.st.msgs))
            && (r.sentAt.None? ==> r.st.msgs == st.msgs)
  {
    var k := ApprovedRow(w, st.msgs);
    if k.Some? {
      MarkSentCounts(st.msgs, k.value, w.send.tid);
    }
  }

  // What one call may do to the rows: the bookkeeping every run theorem below rests on.
  ghost predicate CallCounts(st: State, r: StepResult, ignoreDelay: bool) {
    && SentCount(r.st.msgs) == SentCount(st.msgs) + (if r.sentAt.Some? then 1 else 0)
    && (DraftCount(st.msgs) <= 1 ==> DraftCount(r.st.msgs) <= 1)
    && (AnyOutbound(st.msgs) ==> AnyOutbound(r.st.msgs))
    && (r.sentAt.Some? && DraftCount(st.msgs) <= 1 ==> DraftCount(r.st.msgs) == 0 && AnyOutbound(r.st.msgs))
    // a draft can only appear after new inbound rows, or when nothing was ever sent or drafted
    && (!ignoreDelay && DraftCount(st.msgs) == 0 && AnyOutbound(st.msgs) && DraftCount(r.st.msgs) > 0 ==> r.inserted > 0)
    && (!ignoreDelay && DraftCount(st.msgs) == 0 && AnyOutbound(st.msgs) && r.sentAt.Some? ==> r.inserted > 0)
  }

  lemma GuardedSendCounts(c: Config, st: State, body: string, w: World, ignoreDelay: bool, phase: Phase)
    ensures var r := GuardedSend(c, st, body, w, ignoreDelay, phase);
            && (r.sentAt.Some? ==> SentCount(r.st.msgs) == SentCount(st.msgs) + 1
                                   && DraftCount(r.st.msgs) == DraftCount(st.msgs) - 1
                                   && AnyOutbound(r.st.msgs))
            && (r.sentAt.None? ==> r.st.msgs == st.msgs)
  {
    ApproveCounts(st, w, phase);
  }

  lemma DraftStepCounts(c: Config, st: State, w: World, ignoreDelay: bool)
    ensures var r := DraftStep(c, st, w, ignoreDelay);
            && SentCount(r.st.msgs) == SentCount(st.msgs) + (if r.sentAt.Some? then 1 else 0)
            && (DraftCount(st.msgs) <= 1 ==> DraftCount(r.st.msgs) <= 1)
            && (r.sentAt.Some? ==> DraftCount(r.st.msgs) == 0)
            && (r.st.msgs == st.msgs || AnyOutbound(r.st.msgs))
  {
    if w.gen.GenBody? {
      WithDraftCounts(st.msgs, w.gen.body, w.gen.facts, w.clock.generated);
      var drafted := Logged(RanAt(Generated(st, w.gen.body, w.gen.facts, w.clock.generated), w.clock.ran), LoopRun);
      GuardedSendCounts(c, drafted, w.gen.body, w, ignoreDelay, AfterGenerate);
    }
  }

  lemma SyncStepCounts(c: Config, st: State, w: World, ignoreDelay: bool)
    ensures CallCounts(st, SyncStep(c, st, w, ignoreDelay), ignoreDelay)
  {
    if SyncStop(w).None? {
      var rows := SyncRows(c, st, w);
      AppendInboundCounts(st.msgs, rows);
      DraftStepCounts(c, st.(msgs := st.msgs + rows), w, ignoreDelay);
    }
  }

  lemma CallKeepsCounts(c: Config, st: State, w: World, ignoreDelay: bool)
    ensures CallCounts(st, Step(c, st, w, ignoreDelay), ignoreDelay)
  {
    hide SyncStep, GuardedSend, WithDraft, Count, Latest, EntryStop, Blank, EffectiveDelay;
    SyncStepCounts(c, st, w, ignoreDelay);
    LatestNoneIsZero(st.msgs);
    if w.gen.GenBody? {
      WithDraftCounts(st.msgs, w.gen.body, w.gen.facts, w.clock.generated);
      GuardedSendCounts(c, Generated(st, w.gen.body, w.gen.facts, w.clock.generated), w.gen.body, w, ignoreDelay, ColdStart);
    }
    var d := Latest(IsDraft, st.msgs);
    if d.Some? {
      GuardedSendCounts(c, st, st.msgs[d.value].body, w, ignoreDelay, ExistingDraft);
    }
  }

  lemma RunCallCounts(c: Config, run: Run, k: nat)
    requires IsRun(c, run) && k < |run.turns|
    ensures run.states[k + 1] == run.results[k].st
    ensures CallCounts(Before(run, k), run.results[k], run.turns[k].ignoreDelay)
  {
    hide Step, CallCounts;
    assert Linked(c, run, k);
    CallKeepsCounts(c, Before(run, k), run.turns[k].world, run.turns[k].ignoreDelay);
  }

  // Message cap and single draft

  lemma {:induction false} SingleDraft(c: Config, run: Run, k: nat)
    requires IsRun(c, run) && k <= |run.turns| && DraftCount(run.states[0].msgs) <= 1
    ensures DraftCount(run.states[k].msgs) <= 1
  {
    hide Step;
    if k > 0 {
      SingleDraft(c, run, k - 1);
      RunCallCounts(c, run, k - 1);
    }
  }

  // Every recorded send is one more sent row, and nothing else adds or removes sent rows.
  lemma {:induction false} SentRowsAreRecordedSends(c: Config, run: Run, k: nat)
    requires IsRun(c, run) && k <= |run.turns|
    ensures SentCount(run.states[k].msgs) == SentCount(run.states[0].msgs) + Sends(run, 0, k)
  {
    hide Step;
    if k > 0 {
      SentRowsAreRecordedSends(c, run, k - 1);
      RunCallCounts(c, run, k - 1);
    }
  }

  lemma CapStopsSends(c: Config, st: State, w: World, ignoreDelay: bool)
    requires CapReached(st)
    ensures Step(c, st, w, ignoreDelay).sentAt.None?
  {
    hide SyncStep, GuardedSend, ColdStep, Count, Latest, EffectiveDelay;
  }

  lemma {:induction false} MessageCap(c: Config, run: Run, cap: nat, k: nat)
    requires IsRun(c, run) && k <= |run.turns|
    requires forall i :: 0 <= i < |run.turns| ==> 1 <= run.turns[i].edit.maxMessages <= cap
    ensures SentCount(run.states[k].msgs) <= Max(SentCount(run.states[0].msgs), cap)
  {
    hide Step;
    if k > 0 {
      MessageCap(c, run, cap, k - 1);
      RunCallCounts(c, run, k - 1);
      if CapReached(Before(run, k - 1)) {
        assert Linked(c, run, k - 1);
        CapStopsSends(c, Before(run, k - 1), run.turns[k - 1].world, run.turns[k - 1].ignoreDelay);
      }
    }
  }

  // One reply per send

  // 1 when a send is possible without a new inbound row: a draft is waiting, or nothing went out yet.
  function Credit(ms: seq<Message>): nat {
    if DraftCount(ms) > 0 || !AnyOutbound(ms) then 1 else 0
  }

  lemma {:induction false} SendsWithinReplies(c: Config, run: Run, lo: nat, hi: nat)
    requires IsRun(c, run) && lo <= hi <= |run.turns|
    requires DraftCount(run.states[0].msgs) <= 1 && Automatic(run)
    ensures Sends(run, lo, hi) + Credit(run.states[hi].msgs) <= InsertingSyncs(run, lo, hi) + Credit(run.states[lo].msgs)
    decreases hi
  {
    hide Step;
    if lo < hi {
      SendsWithinReplies(c, run, lo, hi - 1);
      SingleDraft(c, run, hi - 1);
      RunCallCounts(c, run, hi - 1);
    }
  }

  // Over a whole automatic run: at most one send more than there were syncs that stored a reply.
  lemma OneReplyPerSend(c: Config, run: Run)
    requires IsRun(c, run) && DraftCount(run.states[0].msgs) <= 1 && Automatic(run)
    ensures Sends(run, 0, |run.turns|) <= 1 + InsertingSyncs(run, 0, |run.turns|)
  {
    SendsWithinReplies(c, run, 0, |run.turns|);
  }

  lemma {:induction false} InsertingSyncsWitness(run: Run, lo: nat, hi: nat) returns (k: nat)
    requires lo <= hi <= |run.results| && InsertingSyncs(run, lo, hi) > 0
    ensures lo <= k < hi && run.results[k].inserted > 0
    decreases hi
  {
    if run.results[hi - 1].inserted > 0 {
      k := hi - 1;
    } else {
      k := InsertingSyncsWitness(run, lo, hi - 1);
    }
  }

  // Between two recorded sends some call stored at least one new inbound row before sending.
  lemma ReplyBetweenSends(c: Config, run: Run, i: nat, j: nat)
    requires IsRun(c, run) && i < j < |run.turns|
    requires DraftCount(run.states[0].msgs) <= 1 && Automatic(run)
    requires SendsAt(run, i) && SendsAt(run, j)
    ensures exists k :: i < k <= j && run.results[k].inserted > 0
  {
    hide Step;
    SingleDraft(c, run, i);
    RunCallCounts(c, run, i);
    assert Credit(run.states[i + 1].msgs) == 0;
    SendsWithinReplies(c, run, i + 1, j + 1);
    assert Sends(run, i + 1, j + 1) >= 1;
    var k := InsertingSyncsWitness(run, i + 1, j + 1);
  }

  // What held at the moment of an automatic send

  lemma WithoutDraftsKeepsLatest(p: Message -> bool, ms: seq<Message>)
    requires forall m :: IsDraft(m) ==> !p(m)
    ensures Latest(p, ms).Some? == Latest(p, WithoutDrafts(ms)).Some?
    ensures Latest(p, ms).Some? ==> ms[Latest(p, ms).value] == WithoutDrafts(ms)[Latest(p, WithoutDrafts(ms)).value]
  {
    if ms != [] {
      var front, last := ms[..|ms| - 1], ms[|ms| - 1];
      assert ms == front + [last];
      WithoutDraftsKeepsLatest(p, front);
      if !IsDraft(last) {
        assert (WithoutDrafts(front) + [last])[..|WithoutDrafts(front)|] == WithoutDrafts(front);
      }
    }
  }

  // Drafting changes none of what the guards read.
  lemma DraftingKeepsLatest(p: Message -> bool, ms: seq<Message>, body: string, facts: Facts, at: int)
    requires forall m :: IsDraft(m) ==> !p(m)
    ensures var ds := WithDraft(ms, body, facts, at);
            && Latest(p, ms).Some? == Latest(p, ds).Some?
            && (Latest(p, ms).Some? ==> ms[Latest(p, ms).value] == ds[Latest(p, ds).value])
  {
    WithoutDraftsKeepsLatest(p, ms);
    var ds := WithDraft(ms, body, facts, at);
    assert ds[..|ds| - 1] == WithoutDrafts(ms);
    assert IsDraft(ds[|ds| - 1]);
  }

  lemma AppendInboundKeepsLatestSent(ms: seq<Message>, rows: seq<Message>)
    requires forall m :: m in rows ==> IsInbound(m)
    ensures Latest(IsSent, ms + rows) == Latest(IsSent, ms)
  {
    if rows == [] {
      assert ms + rows == ms;
    } else {
      var front := rows[..|rows| - 1];
      assert (ms + rows)[..|ms + rows| - 1] == ms + front;
      assert rows[|rows| - 1] in rows;
      AppendInboundKeepsLatestSent(ms, front);
    }
  }

  // The newest sent row of a state, if any.
  function LastSent(ms: seq<Message>): Option<Message> {
    var k := Latest(IsSent, ms);
    if k.Some? then Some(ms[k.value]) else None
  }

  predicate CooledSince(c: Config, last: Option<Message>, at: int) {
    last.Some? ==> at - last.value.createdAt >= CooldownSeconds(c, last.value.createdAt) * SECOND
  }

  // Everything an automatic send went through in its own call.
  ghost predicate SendEnvelope(c: Config, st: State, w: World, r: StepResult) {
    && st.task.mode == Autonomous && w.permitted && !w.newer && !Inactive(st.task.status) && w.guardAllows
    && EntryStop(st).None? && !DelayPending(st.task, w.clock.now)
    && r.sentAt == Some(w.clock.sent) && r.st.task.lastRun == Some(w.clock.end)
    && CooledSince(c, LastSent(st.msgs), w.clock.check)
    && |r.st.audit| > 0 && r.st.audit[|r.st.audit| - 1].SentBy?
  }

  lemma GuardedSendFacts(c: Config, st: State, body: string, w: World, phase: Phase)
    requires GuardedSend(c, st, body, w, false, phase).sentAt.Some?
    ensures var r := GuardedSend(c, st, body, w, false, phase);
            && CooledSince(c, LastSent(st.msgs), w.clock.check)
            && w.guardAllows && r.st.task.lastRun == Some(w.clock.end) && r.sentAt == Some(w.clock.sent)
            && |r.st.audit| > 0 && r.st.audit[|r.st.audit| - 1] == SentBy(phase)
  {
    hide Count, Latest, MarkSent, Blank;
  }

  lemma DraftStepFacts(c: Config, st: State, w: World)
    requires DraftStep(c, st, w, false).sentAt.Some?
    ensures var r := DraftStep(c, st, w, false);
            && st.task.mode != Supervised && CooledSince(c, LastSent(st.msgs), w.clock.check)
            && w.guardAllows && r.st.task.lastRun == Some(w.clock.end) && r.sentAt == Some(w.clock.sent)
            && |r.st.audit| > 0 && r.st.audit[|r.st.audit| - 1].SentBy?
  {
    hide GuardedSend, WithDraft, Count, Latest, CooledSince;
    DraftingKeepsLatest(IsSent, st.msgs, w.gen.body, w.gen.facts, w.clock.generated);
    var drafted := Logged(RanAt(Generated(st, w.gen.body, w.gen.facts, w.clock.generated), w.clock.ran), LoopRun);
    GuardedSendFacts(c, drafted, w.gen.body, w, AfterGenerate);
  }

  lemma SyncStepFacts(c: Config, st: State, w: World)
    requires SyncStep(c, st, w, false).sentAt.Some?
    ensures var r := SyncStep(c, st, w, false);
            && st.task.mode != Supervised && CooledSince(c, LastSent(st.msgs), w.clock.check)
            && w.guardAllows && r.st.task.lastRun == Some(w.clock.end) && r.sentAt == Some(w.clock.sent)
            && |r.st.audit| > 0 && r.st.audit[|r.st.audit| - 1].SentBy?
  {
    hide DraftStep, NewRows, Count, Latest, CooledSince;
    var rows := SyncRows(c, st, w);
    AppendInboundKeepsLatestSent(st.msgs, rows);
    assert LastSent(st.msgs + rows) == LastSent(st.msgs);
    DraftStepFacts(c, st.(msgs := st.msgs + rows), w);
  }

  lemma ColdStepFacts(c: Config, st: State, w: World)
    requires ColdStep(c, st, w, false).sentAt.Some?
    ensures var r := ColdStep(c, st, w, false);
            && CooledSince(c, LastSent(st.msgs), w.clock.check)
            && w.guardAllows && r.st.task.lastRun == Some(w.clock.end) && r.sentAt == Some(w.clock.sent)
            && |r.st.audit| > 0 && r.st.audit[|r.st.audit| - 1].SentBy?
  {
    hide GuardedSend, WithDraft, Count, Latest, CooledSince;
    DraftingKeepsLatest(IsSent, st.msgs, w.gen.body, w.gen.facts, w.clock.generated);
    GuardedSendFacts(c, Generated(st, w.gen.body, w.gen.facts, w.clock.generated), w.gen.body, w, ColdStart);
  }

  lemma AutomaticSendIsGuarded(c: Config, st: State, w: World)
    requires Step(c, st, w, false).sentAt.Some?
    ensures SendEnvelope(c, st, w, Step(c, st, w, false))
  {
    hide SyncStep, GuardedSend, ColdStep, Count, Latest, CooledSince, EntryStop, EffectiveDelay, LastSent;
    if st.task.mode == Autonomous && st.task.status == DraftTask && !AnyOutbound(st.msgs) {
      ColdStepFacts(c, st, w);
    } else if st.task.mode == Autonomous && st.task.status == WaitingApproval && Latest(IsDraft, st.msgs).Some? {
      GuardedSendFacts(c, st, st.msgs[Latest(IsDraft, st.msgs).value].body, w, ExistingDraft);
    } else {
      SyncStepFacts(c, st, w);
    }
  }

  // Send spacing

  // Any call that reaches the rows sets the loop's clock to one of its own readings.
  ghost predicate RanDuring(r: StepResult, w: World) {
    r.st.task.lastRun.Some? && w.clock.now <= r.st.task.lastRun.value <= w.clock.end
  }

  lemma GuardedSendRan(c: Config, st: State, body: string, w: World, ignoreDelay: bool, phase: Phase)
    requires w.clock.Ordered()
    ensures RanDuring(GuardedSend(c, st, body, w, ignoreDelay, phase), w)
  {
    hide Latest, ShouldWait, DuplicateOfLastSent, CooledDown, MarkSent, ApproveAudit, ApprovedRow;
  }

  lemma DraftStepRan(c: Config, st: State, w: World, ignoreDelay: bool)
    requires w.clock.Ordered()
    ensures RanDuring(DraftStep(c, st, w, ignoreDelay), w)
  {
    hide GuardedSend, ShouldWait, WithDraft;
    if w.gen.GenBody? {
      var drafted := Logged(RanAt(Generated(st, w.gen.body, w.gen.facts, w.clock.generated), w.clock.ran), LoopRun);
      GuardedSendRan(c, drafted, w.gen.body, w, ignoreDelay, AfterGenerate);
    }
  }

  lemma SyncStepRan(c: Config, st: State, w: World, ignoreDelay: bool)
    requires w.clock.Ordered()
    ensures RanDuring(SyncStep(c, st, w, ignoreDelay), w)
  {
    hide DraftStep, SyncRows, Count;
    if SyncStop(w).None? {
      DraftStepRan(c, st.(msgs := st.msgs + SyncRows(c, st, w)), w, ignoreDelay);
    }
  }

  lemma ColdStepRan(c: Config, st: State, w: World, ignoreDelay: bool)
    requires w.clock.Ordered()
    ensures RanDuring(ColdStep(c, st, w, ignoreDelay), w)
  {
    hide GuardedSend, WithDraft;
    if w.gen.GenBody? {
      GuardedSendRan(c, Generated(st, w.gen.body, w.gen.facts, w.clock.generated), w.gen.body, w, ignoreDelay, ColdStart);
    }
  }

  // A call never moves the loop's clock back, and leaves it between the old value and its own end.
  lemma LastRunMoves(c: Config, st: State, w: World, ignoreDelay: bool)
    requires w.clock.Ordered() && (st.task.lastRun.Some? ==> st.task.lastRun.value <= w.clock.now)
    ensures var after := Step(c, st, w, ignoreDelay).st.task.lastRun;
            && (st.task.lastRun.Some? ==> after.Some? && st.task.lastRun.value <= after.value)
            && (after.Some? ==> after.value <= w.clock.end)
  {
    hide GuardedSend, ColdStep, SyncStep, Count, Latest, EntryStop, EffectiveDelay;
    SyncStepRan(c, st, w, ignoreDelay);
    ColdStepRan(c, st, w, ignoreDelay);
    var d := Latest(IsDraft, st.msgs);
    if d.Some? {
      GuardedSendRan(c, st, st.msgs[d.value].body, w, ignoreDelay, ExistingDraft);
    }
  }

  // In any run, a send of an automatic call went through everything in its own call.
  lemma AutomaticSendsAreGuarded(c: Config, run: Run, k: nat)
    requires IsRun(c, run) && k < |run.turns| && !run.turns[k].ignoreDelay && SendsAt(run, k)
    ensures SendEnvelope(c, Before(run, k), run.turns[k].world, run.results[k])
  {
    hide Step, SendEnvelope;
    assert Linked(c, run, k);
    AutomaticSendIsGuarded(c, Before(run, k), run.turns[k].world);
  }

  lemma {:induction false} LastRunNeverBeforeSend(c: Config, run: Run, i: nat, k: nat)
    requires IsRun(c, run) && i < k <= |run.turns| && Timely(run) && Automatic(run)
    requires SendsAt(run, i)
    ensures var lastRun := run.states[k].task.lastRun;
            lastRun.Some? && run.results[i].sentAt.value <= lastRun.value <= run.turns[k - 1].world.clock.end
  {
    hide Step;
    assert Linked(c, run, k - 1);
    if k == i + 1 {
      AutomaticSendsAreGuarded(c, run, i);
    } else {
      LastRunNeverBeforeSend(c, run, i, k - 1);
      LastRunMoves(c, Before(run, k - 1), run.turns[k - 1].world, run.turns[k - 1].ignoreDelay);
    }
  }

  // Two automatic sends are at least the clamped delay of the later call apart, and the later one
  // comes at least a cooldown (60 to 300 seconds) after the creation of the newest sent row.
  lemma SendSpacing(c: Config, run: Run, i: nat, j: nat)
    requires IsRun(c, run) && i < j < |run.turns| && Timely(run) && Automatic(run)
    requires SendsAt(run, i) && SendsAt(run, j)
    ensures run.results[j].sentAt.value - run.results[i].sentAt.value
            >= EffectiveDelay(Before(run, j).task) * SECOND >= 10 * SECOND
    ensures var last := LastSent(run.states[j].msgs);
            && last.Some?
            && run.results[j].sentAt.value - last.value.createdAt
               >= CooldownSeconds(c, last.value.createdAt) * SECOND >= 60 * SECOND
  {
    hide Step, EntryStop;
    LastRunNeverBeforeSend(c, run, i, j);
    AutomaticSendsAreGuarded(c, run, j);
    SentRowsAreRecordedSends(c, run, j);
    SendsAccumulate(run, i, j);
    assert LastSent(Before(run, j).msgs).Some?;
  }

  lemma {:induction false} SendsAccumulate(run: Run, i: nat, k: nat)
    requires i < k <= |run.results| && SendsAt(run, i)
    ensures Sends(run, 0, k) > 0
  {
    if k > i + 1 {
      SendsAccumulate(run, i, k - 1);
    }
  }

  // No repeated message

  // Drafts are the newest outbound rows: what the service itself produces.
  ghost predicate WellFormed(ms: seq<Message>) {
    && DraftCount(ms) <= 1
    && forall i, j :: 0 <= i < j < |ms| && IsDraft(ms[i]) ==> !IsSent(ms[j])
  }

  // Writing x, a sent row at k with no sent row behind it, makes it the newest sent row.
  lemma {:induction false} LatestAfterUpdate(ms: seq<Message>, k: nat, x: Message)
    requires k < |ms| && IsSent(x)
    requires forall j :: k < j < |ms| ==> !IsSent(ms[j])
    ensures Latest(IsSent, ms[k := x]) == Some(k)
  {
    var r := Latest(IsSent, ms[k := x]);
    assert ms[k := x][k] == x;
    assert r.Some? && r.value >= k;
  }

  ghost predicate FreshBody(c: Config, before: Option<Message>, r: StepResult) {
    && LastSent(r.st.msgs).Some?
    && (before.Some? ==> c.norm(LastSent(r.st.msgs).value.body) != c.norm(before.value.body))
  }

  lemma GuardedSendFresh(c: Config, st: State, body: string, w: World, phase: Phase)
    requires GuardedSend(c, st, body, w, false, phase).sentAt.Some? && WellFormed(st.msgs)
    requires Latest(IsDraft, st.msgs).Some? ==> st.msgs[Latest(IsDraft, st.msgs).value].body == body
    ensures FreshBody(c, LastSent(st.msgs), GuardedSend(c, st, body, w, false, phase))
  {
    hide Count, CooledDown, ShouldWait;
    var k := Latest(IsDraft, st.msgs).value;
    LatestAfterUpdate(st.msgs, k, st.msgs[k].(status := Sent, telegramId := w.send.tid));
  }

  lemma DraftedFresh(c: Config, st: State, drafted: State, w: World, phase: Phase)
    requires w.gen.GenBody? && drafted.msgs == WithDraft(st.msgs, w.gen.body, w.gen.facts, w.clock.generated)
    requires GuardedSend(c, drafted, w.gen.body, w, false, phase).sentAt.Some?
    ensures FreshBody(c, LastSent(st.msgs), GuardedSend(c, drafted, w.gen.body, w, false, phase))
  {
    hide GuardedSend, WithoutDrafts;
    WithDraftCounts(st.msgs, w.gen.body, w.gen.facts, w.clock.generated);
    DraftingKeepsLatest(IsSent, st.msgs, w.gen.body, w.gen.facts, w.clock.generated);
    var ds := drafted.msgs;
    assert ds[..|ds| - 1] == WithoutDrafts(st.msgs);
    assert forall i :: 0 <= i < |ds| - 1 ==> ds[i] in WithoutDrafts(st.msgs);
    GuardedSendFresh(c, drafted, w.gen.body, w, phase);
  }

  // An automatic call never sends a body that equals the previous sent body up to normalisation.
  lemma NoRepeatedSend(c: Config, st: State, w: World)
    requires WellFormed(st.msgs) && Step(c, st, w, false).sentAt.Some?
    ensures FreshBody(c, LastSent(st.msgs), Step(c, st, w, false))
  {
    hide GuardedSend, WithDraft, FreshBody, LastSent, EntryStop, EffectiveDelay, Count, Latest, NewRows, ShouldWait;
    if st.task.mode == Autonomous && st.task.status == DraftTask && !AnyOutbound(st.msgs) {
      DraftedFresh(c, st, Generated(st, w.gen.body, w.gen.facts, w.clock.generated), w, ColdStart);
    } else if st.task.mode == Autonomous && st.task.status == WaitingApproval && Latest(IsDraft, st.msgs).Some? {
      GuardedSendFresh(c, st, st.msgs[Latest(IsDraft, st.msgs).value].body, w, ExistingDraft);
    } else {
      SyncedFresh(c, st, w);
    }
  }

  lemma SyncedFresh(c: Config, st: State, w: World)
    requires SyncStep(c, st, w, false).sentAt.Some?
    ensures FreshBody(c, LastSent(st.msgs), SyncStep(c, st, w, false))
  {
    hide GuardedSend, WithDraft, FreshBody, Count, Latest, NewRows, ShouldWait;
    var rows := SyncRows(c, st, w);
    AppendInboundKeepsLatestSent(st.msgs, rows);
    assert LastSent(st.msgs + rows) == LastSent(st.msgs);
    var synced := st.(msgs := st.msgs + rows);
    var drafted := Logged(RanAt(Generated(synced, w.gen.body, w.gen.facts, w.clock.generated), w.clock.ran), LoopRun);
    DraftedFresh(c, synced, drafted, w, AfterGenerate);
    assert SyncStep(c, st, w, false).st == GuardedSend(c, drafted, w.gen.body, w, false, AfterGenerate).st;
    FreshBodyOfState(c, LastSent(st.msgs), SyncStep(c, st, w, false), GuardedSend(c, drafted, w.gen.body, w, false, AfterGenerate));
  }

  lemma FreshBodyOfState(c: Config, before: Option<Message>, r: StepResult, q: StepResult)
    requires FreshBody(c, before, q) && r.st == q.st
    ensures FreshBody(c, before, r)
  {
  }

  // A call that sends nothing leaves the newest sent row as it was.

  lemma DraftedKeepsLastSent(st: State, w: World)
    requires w.gen.GenBody?
    ensures LastSent(Generated(st, w.gen.body, w.gen.facts, w.clock.generated).msgs) == LastSent(st.msgs)
  {
    hide Latest, WithDraft;
    DraftingKeepsLatest(IsSent, st.msgs, w.gen.body, w.gen.facts, w.clock.generated);
  }

  lemma ColdStepKeepsLastSent(c: Config, st: State, w: World, ignoreDelay: bool)
    requires ColdStep(c, st, w, ignoreDelay).sentAt.None?
    ensures LastSent(ColdStep(c, st, w, ignoreDelay).st.msgs) == LastSent(st.msgs)
  {
    hide GuardedSend, LastSent, Generated;
    if w.gen.GenBody? {
      DraftedKeepsLastSent(st, w);
      GuardedSendCounts(c, Generated(st, w.gen.body, w.gen.facts, w.clock.generated), w.gen.body, w, ignoreDelay, ColdStart);
    }
  }

  lemma DraftStepKeepsLastSent(c: Config, st: State, w: World, ignoreDelay: bool)
    requires DraftStep(c, st, w, ignoreDelay).sentAt.None?
    ensures LastSent(DraftStep(c, st, w, ignoreDelay).st.msgs) == LastSent(st.msgs)
  {
    hide GuardedSend, LastSent, Generated, ShouldWait;
    if w.gen.GenBody? {
      DraftedKeepsLastSent(st, w);
      var drafted := Logged(RanAt(Generated(st, w.gen.body, w.gen.facts, w.clock.generated), w.clock.ran), LoopRun);
      GuardedSendCounts(c, drafted, w.gen.body, w, ignoreDelay, AfterGenerate);
    }
  }

  lemma SyncStepKeepsLastSent(c: Config, st: State, w: World, ignoreDelay: bool)
    requires SyncStep(c, st, w, ignoreDelay).sentAt.None?
    ensures LastSent(SyncStep(c, st, w, ignoreDelay).st.msgs) == LastSent(st.msgs)
  {
    hide DraftStep, NewRows, Latest, Count;
    if SyncStop(w).None? {
      var rows := SyncRows(c, st, w);
      AppendInboundKeepsLatestSent(st.msgs, rows);
      assert LastSent(st.msgs + rows) == LastSent(st.msgs);
      var synced := st.(msgs := st.msgs + rows);
      if !(rows == [] && AnyOutbound(synced.msgs) && !ignoreDelay) {
        DraftStepKeepsLastSent(c, synced, w, ignoreDelay);
      }
    }
  }

  lemma QuietCallKeepsLastSent(c: Config, st: State, w: World, ignoreDelay: bool)
    requires Step(c, st, w, ignoreDelay).sentAt.None?
    ensures LastSent(Step(c, st, w, ignoreDelay).st.msgs) == LastSent(st.msgs)
  {
    hide GuardedSend, ColdStep, SyncStep, LastSent, EntryStop, EffectiveDelay, Count, Latest;
    if st.task.mode == Autonomous && st.task.status == DraftTask && !AnyOutbound(st.msgs) {
      if ColdStep(c, st, w, ignoreDelay).sentAt.None? { ColdStepKeepsLastSent(c, st, w, ignoreDelay); }
    } else if st.task.mode == Autonomous && st.task.status == WaitingApproval && Latest(IsDraft, st.msgs).Some? {
      GuardedSendCounts(c, st, st.msgs[Latest(IsDraft, st.msgs).value].body, w, ignoreDelay, ExistingDraft);
    } else if SyncStep(c, st, w, ignoreDelay).sentAt.None? {
      SyncStepKeepsLastSent(c, st, w, ignoreDelay);
    }
  }

  // No call puts a sent row behind a draft.

  lemma NoDraftsIsWellFormed(ms: seq<Message>)
    requires DraftCount(ms) == 0
    ensures WellFormed(ms)
  {
  }

  lemma DraftedIsWellFormed(ms: seq<Message>, body: string, facts: Facts, at: int)
    ensures WellFormed(WithDraft(ms, body, facts, at))
  {
    WithDraftCounts(ms, body, facts, at);
    var ds := WithDraft(ms, body, facts, at);
    assert forall i :: 0 <= i < |ds| - 1 ==> ds[i] in WithoutDrafts(ms);
  }

  lemma GuardedSendKeepsWellFormed(c: Config, st: State, body: string, w: World, ignoreDelay: bool, phase: Phase)
    requires WellFormed(st.msgs)
    ensures WellFormed(GuardedSend(c, st, body, w, ignoreDelay, phase).st.msgs)
  {
    hide GuardedSend, Count;
    GuardedSendCounts(c, st, body, w, ignoreDelay, phase);
    var r := GuardedSend(c, st, body, w, ignoreDelay, phase);
    if r.sentAt.Some? { NoDraftsIsWellFormed(r.st.msgs); }
  }

  lemma DraftStepKeepsWellFormed(c: Config, st: State, w: World, ignoreDelay: bool)
    requires WellFormed(st.msgs)
    ensures WellFormed(DraftStep(c, st, w, ignoreDelay).st.msgs)
  {
    hide GuardedSend, WellFormed, ShouldWait, WithDraft;
    if w.gen.GenBody? {
      DraftedIsWellFormed(st.msgs, w.gen.body, w.gen.facts, w.clock.generated);
      var drafted := Logged(RanAt(Generated(st, w.gen.body, w.gen.facts, w.clock.generated), w.clock.ran), LoopRun);
      GuardedSendKeepsWellFormed(c, drafted, w.gen.body, w, ignoreDelay, AfterGenerate);
    }
  }

  lemma SyncedIsWellFormed(ms: seq<Message>, rows: seq<Message>)
    requires WellFormed(ms) && forall m :: m in rows ==> IsInbound(m)
    ensures WellFormed(ms + rows)
  {
    AppendInboundCounts(ms, rows);
    var all := ms + rows;
    forall i, j | 0 <= i < j < |all| && IsDraft(all[i])
      ensures !IsSent(all[j])
    {
      if j >= |ms| { assert all[j] in rows; }
    }
  }

  lemma CallKeepsWellFormed(c: Config, st: State, w: World, ignoreDelay: bool)
    requires WellFormed(st.msgs)
    ensures WellFormed(Step(c, st, w, ignoreDelay).st.msgs)
  {
    hide GuardedSend, DraftStep, WellFormed, WithDraft, EntryStop, EffectiveDelay, Count, Latest, NewRows;
    DraftStepKeepsWellFormed(c, st, w, ignoreDelay);
    if w.gen.GenBody? {
      DraftedIsWellFormed(st.msgs, w.gen.body, w.gen.facts, w.clock.generated);
      GuardedSendKeepsWellFormed(c, Generated(st, w.gen.body, w.gen.facts, w.clock.generated), w.gen.body, w, ignoreDelay, ColdStart);
    }
    var d := Latest(IsDraft, st.msgs);
    if d.Some? { GuardedSendKeepsWellFormed(c, st, st.msgs[d.value].body, w, ignoreDelay, ExistingDraft); }
    if SyncStop(w).None? {
      var rows := SyncRows(c, st, w);
      SyncedIsWellFormed(st.msgs, rows);
      DraftStepKeepsWellFormed(c, st.(msgs := st.msgs + rows), w, ignoreDelay);
    }
  }

  lemma {:induction false} RunKeepsWellFormed(c: Config, run: Run, k: nat)
    requires IsRun(c, run) && k <= |run.turns| && WellFormed(run.states[0].msgs)
    ensures WellFormed(run.states[k].msgs)
  {
    hide Step, WellFormed;
    if k > 0 {
      RunKeepsWellFormed(c, run, k - 1);
      assert Linked(c, run, k - 1);
      CallKeepsWellFormed(c, Before(run, k - 1), run.turns[k - 1].world, run.turns[k - 1].ignoreDelay);
    }
  }

  lemma {:induction false} QuietStretchKeepsLastSent(c: Config, run: Run, i: nat, j: nat)
    requires IsRun(c, run) && i <= j <= |run.turns| && forall k :: i <= k < j ==> !SendsAt(run, k)
    ensures LastSent(run.states[j].msgs) == LastSent(run.states[i].msgs)
    decreases j
  {
    hide Step, LastSent;
    if i < j {
      QuietStretchKeepsLastSent(c, run, i, j - 1);
      assert Linked(c, run, j - 1) && !SendsAt(run, j - 1);
      QuietCallKeepsLastSent(c, Before(run, j - 1), run.turns[j - 1].world, run.turns[j - 1].ignoreDelay);
    }
  }

  // Over any run, an automatic send never repeats the send before it, whatever happened in between.
  lemma ConsecutiveSendsDiffer(c: Config, run: Run, i: nat, j: nat)
    requires IsRun(c, run) && i < j < |run.turns| && WellFormed(run.states[0].msgs)
    requires SendsAt(run, i) && SendsAt(run, j) && !run.turns[i].ignoreDelay && !run.turns[j].ignoreDelay
    requires forall k :: i < k < j ==> !SendsAt(run, k)
    ensures var first, second := LastSent(run.states[i + 1].msgs), LastSent(run.states[j + 1].msgs);
            first.Some? && second.Some? && c.norm(first.value.body) != c.norm(second.value.body)
  {
    hide Step, LastSent, WellFormed;
    RunKeepsWellFormed(c, run, i);
    RunKeepsWellFormed(c, run, j);
    assert Linked(c, run, i) && Linked(c, run, j);
    NoRepeatedSend(c, Before(run, i), run.turns[i].world);
    NoRepeatedSend(c, Before(run, j), run.turns[j].world);
    QuietStretchKeepsLastSent(c, run, i + 1, j);
  }

  // Stop conditions

  // A final summary or a risk flag in the newest facts freezes the rows for every later call,
  // operator-forced ones included.
  lemma {:induction false} StopFactsFreezeRows(c: Config, run: Run, k: nat)
    requires IsRun(c, run) && k <= |run.turns| && FactsStop(run.states[0].msgs)
    ensures run.states[k].msgs == run.states[0].msgs
    ensures k < |run.turns| ==> !SendsAt(run, k)
  {
    hide Step, FactsStop;
    if k > 0 {
      StopFactsFreezeRows(c, run, k - 1);
      assert Linked(c, run, k - 1);
      StopFactsStopCall(c, Before(run, k - 1), run.turns[k - 1].world, run.turns[k - 1].ignoreDelay);
    }
    if k < |run.turns| {
      assert Linked(c, run, k);
      StopFactsStopCall(c, Before(run, k), run.turns[k].world, run.turns[k].ignoreDelay);
    }
  }

  lemma StopFactsStopCall(c: Config, st: State, w: World, ignoreDelay: bool)
    requires FactsStop(st.msgs)
    ensures var r := Step(c, st, w, ignoreDelay); r.st.msgs == st.msgs && r.sentAt.None? && r.inserted == 0
  {
    hide GuardedSend, SyncStep, ColdStep, LatestFacts, Count, Latest;
  }

  // ... but only from the next call on: the call that drafts a flagged message still sends it.

  predicate Flagged(f: Facts) { f.finalSummary || f.riskFlags > 0 }

  // The call gets past every entry condition and may send.
  predicate ReachesBranches(st: State, w: World, ignoreDelay: bool) {
    && w.permitted && st.task.mode == Autonomous && !Inactive(st.task.status) && !w.newer && EntryStop(st).None?
    && (ignoreDelay || !DelayPending(st.task, w.clock.now))
  }

  predicate TakesColdStart(st: State) { st.task.status == DraftTask && !AnyOutbound(st.msgs) }

  predicate TakesExistingDraft(st: State) { st.task.status == WaitingApproval && Latest(IsDraft, st.msgs).Some? }

  // The after-sync branch goes on to draft.
  predicate SyncGoesOn(c: Config, st: State, w: World, ignoreDelay: bool) {
    && SyncStop(w).None?
    && (ignoreDelay || SyncRows(c, st, w) != [] || !AnyOutbound(st.msgs))
  }

  // The rows a drafting branch starts from.
  function DraftingRows(c: Config, st: State, w: World): seq<Message> {
    if TakesColdStart(st) then st.msgs else st.msgs + SyncRows(c, st, w)
  }

  // A drafted body passes the three guards and is sent.
  predicate PassesAndSends(c: Config, ms: seq<Message>, w: World, ignoreDelay: bool)
    requires w.gen.GenBody?
  {
    && (ignoreDelay || (!ShouldWait(ms) && !DuplicateOfLastSent(c, ms, w.gen.body) && CooledDown(c, ms, w.clock.check)))
    && !Blank(w.gen.body) && w.guardAllows && w.send.SendDone?
  }

  // The guards of the cold-start and after-sync branches, from entry to send, over the inputs alone.
  predicate DraftsAndSends(c: Config, st: State, w: World, ignoreDelay: bool) {
    && ReachesBranches(st, w, ignoreDelay) && !TakesExistingDraft(st)
    && (TakesColdStart(st) || SyncGoesOn(c, st, w, ignoreDelay))
    && w.gen.GenBody? && PassesAndSends(c, DraftingRows(c, st, w), w, ignoreDelay)
  }

  // The guards read the same from rows with a new draft as from the rows before it.
  lemma GuardsIgnoreDrafting(c: Config, ms: seq<Message>, body: string, facts: Facts, at: int, now: int)
    ensures var ds := WithDraft(ms, body, facts, at);
            && ShouldWait(ds) == ShouldWait(ms)
            && DuplicateOfLastSent(c, ds, body) == DuplicateOfLastSent(c, ms, body)
            && CooledDown(c, ds, now) == CooledDown(c, ms, now)
  {
    hide Latest, WithDraft, Blank;
    DraftingKeepsLatest(IsSent, ms, body, facts, at);
    DraftingKeepsLatest(IsInbound, ms, body, facts, at);
  }

  lemma NewDraftIsLatest(ms: seq<Message>, body: string, facts: Facts, at: int)
    ensures var ds := WithDraft(ms, body, facts, at);
            && |ds| > 0 && ds[|ds| - 1] == DraftRow(body, facts, at)
            && Latest(IsDraft, ds) == Some(|ds| - 1) && Latest(HasFacts, ds) == Some(|ds| - 1)
  {
    hide WithoutDrafts;
  }

  // Marking a row sent leaves everybody's facts where they were.
  lemma MarkSentKeepsFacts(ms: seq<Message>, k: nat, tid: Option<int>)
    requires k < |ms|
    ensures LatestFacts(MarkSent(ms, k, tid)) == LatestFacts(ms)
  {
    var after := MarkSent(ms, k, tid);
    assert forall i :: 0 <= i < |ms| ==> HasFacts(after[i]) == HasFacts(ms[i]) && after[i].facts == ms[i].facts;
    var x, y := Latest(HasFacts, after), Latest(HasFacts, ms);
    if x.Some? && y.Some? {
      assert x.value == y.value;
    }
  }

  lemma FreshDraftSendIff(c: Config, st: State, drafted: State, w: World, ignoreDelay: bool, phase: Phase)
    requires w.gen.GenBody? && drafted.msgs == WithDraft(st.msgs, w.gen.body, w.gen.facts, w.clock.generated)
    ensures var r := GuardedSend(c, drafted, w.gen.body, w, ignoreDelay, phase);
            && (r.sentAt.Some? <==> PassesAndSends(c, st.msgs, w, ignoreDelay))
            && (r.sentAt.Some? ==> r.sentAt == Some(w.clock.sent) && (FactsStop(r.st.msgs) <==> Flagged(w.gen.facts)))
  {
    hide Latest, WithDraft, Blank, ShouldWait, DuplicateOfLastSent, CooledDown, MarkSent, LatestFacts;
    GuardsIgnoreDrafting(c, st.msgs, w.gen.body, w.gen.facts, w.clock.generated, w.clock.check);
    NewDraftIsLatest(st.msgs, w.gen.body, w.gen.facts, w.clock.generated);
    if ApprovedRow(w, drafted.msgs).Some? {
      MarkSentKeepsFacts(drafted.msgs, |drafted.msgs| - 1, w.send.tid);
      NewDraftFacts(st.msgs, w.gen.body, w.gen.facts, w.clock.generated);
    }
  }

  lemma NewDraftFacts(ms: seq<Message>, body: string, facts: Facts, at: int)
    ensures LatestFacts(WithDraft(ms, body, facts, at)) == Some(facts)
  {
    hide Latest, WithDraft;
    NewDraftIsLatest(ms, body, facts, at);
  }

  // A draft that was there before the call carries no flag: the entry conditions read its facts.
  lemma ExistingDraftIsUnflagged(c: Config, st: State, body: string, w: World, ignoreDelay: bool)
    requires EntryStop(st).None? && GuardedSend(c, st, body, w, ignoreDelay, ExistingDraft).sentAt.Some?
    ensures !FactsStop(GuardedSend(c, st, body, w, ignoreDelay, ExistingDraft).st.msgs)
  {
    hide Latest, Blank, ShouldWait, DuplicateOfLastSent, CooledDown, MarkSent, LatestFacts, Count;
    MarkSentKeepsFacts(st.msgs, ApprovedRow(w, st.msgs).value, w.send.tid);
  }

  lemma DraftStepSendIff(c: Config, st: State, w: World, ignoreDelay: bool)
    requires st.task.mode == Autonomous
    ensures var r := DraftStep(c, st, w, ignoreDelay);
            && (r.sentAt.Some? <==> w.gen.GenBody? && PassesAndSends(c, st.msgs, w, ignoreDelay))
            && (r.sentAt.Some? ==> r.sentAt == Some(w.clock.sent) && (FactsStop(r.st.msgs) <==> Flagged(w.gen.facts)))
  {
    hide GuardedSend, WithDraft, ShouldWait, DuplicateOfLastSent, CooledDown, FactsStop, Blank;
    if w.gen.GenBody? {
      var drafted := Logged(RanAt(Generated(st, w.gen.body, w.gen.facts, w.clock.generated), w.clock.ran), LoopRun);
      FreshDraftSendIff(c, st, drafted, w, ignoreDelay, AfterGenerate);
    }
  }

  lemma ColdStepSendIff(c: Config, st: State, w: World, ignoreDelay: bool)
    ensures var r := ColdStep(c, st, w, ignoreDelay);
            && (r.sentAt.Some? <==> w.gen.GenBody? && PassesAndSends(c, st.msgs, w, ignoreDelay))
            && (r.sentAt.Some? ==> r.sentAt == Some(w.clock.sent) && (FactsStop(r.st.msgs) <==> Flagged(w.gen.facts)))
  {
    hide GuardedSend, WithDraft, PassesAndSends, FactsStop;
    if w.gen.GenBody? {
      FreshDraftSendIff(c, st, Generated(st, w.gen.body, w.gen.facts, w.clock.generated), w, ignoreDelay, ColdStart);
    }
  }

  lemma SyncStepSendIff(c: Config, st: State, w: World, ignoreDelay: bool)
    requires st.task.mode == Autonomous
    ensures var r := SyncStep(c, st, w, ignoreDelay);
            && (r.sentAt.Some? <==> SyncGoesOn(c, st, w, ignoreDelay) && w.gen.GenBody?
                                    && PassesAndSends(c, st.msgs + SyncRows(c, st, w), w, ignoreDelay))
            && (r.sentAt.Some? ==> r.sentAt == Some(w.clock.sent) && (FactsStop(r.st.msgs) <==> Flagged(w.gen.facts)))
  {
    hide DraftStep, NewRows, PassesAndSends, FactsStop;
    var rows := SyncRows(c, st, w);
    DraftStepSendIff(c, st.(msgs := st.msgs + rows), w, ignoreDelay);
    AppendInboundCounts(st.msgs, rows);
  }

  // Exactly which calls send a message they drafted themselves.
  lemma DraftedSendIff(c: Config, st: State, w: World, ignoreDelay: bool)
    ensures var r := Step(c, st, w, ignoreDelay);
            && (DraftsAndSends(c, st, w, ignoreDelay) ==> r.sentAt == Some(w.clock.sent))
            && (r.sentAt.Some? && !DraftsAndSends(c, st, w, ignoreDelay) ==> TakesExistingDraft(st))
            && (DraftsAndSends(c, st, w, ignoreDelay) ==> (FactsStop(r.st.msgs) <==> Flagged(w.gen.facts)))
  {
    hide GuardedSend, ColdStep, SyncStep, EntryStop, EffectiveDelay, Latest, Count, PassesAndSends, SyncGoesOn,
         FactsStop, SyncRows;
    ColdStepSendIff(c, st, w, ignoreDelay);
    if st.task.mode == Autonomous {
      SyncStepSendIff(c, st, w, ignoreDelay);
    } else if st.task.mode == Supervised {
      SupervisedNeverSends(c, st, w, ignoreDelay);
    }
  }

  lemma SupervisedNeverSends(c: Config, st: State, w: World, ignoreDelay: bool)
    requires st.task.mode == Supervised
    ensures SyncStep(c, st, w, ignoreDelay).sentAt.None?
  {
    hide GuardedSend, ShouldWait, WithDraft, SyncRows, Count;
  }

  // A call ends with a message sent and the stop conditions set exactly when it drafted that message
  // itself, every guard of its branch let it through, and the generated facts are flagged; a draft
  // that was there before never is.
  lemma FlaggedSendIff(c: Config, st: State, w: World, ignoreDelay: bool)
    ensures var r := Step(c, st, w, ignoreDelay);
            r.sentAt.Some? && FactsStop(r.st.msgs) <==> DraftsAndSends(c, st, w, ignoreDelay) && Flagged(w.gen.facts)
    ensures var r := Step(c, st, w, ignoreDelay);
            TakesExistingDraft(st) ==> !(r.sentAt.Some? && FactsStop(r.st.msgs))
  {
    hide GuardedSend, ColdStep, SyncStep, EntryStop, EffectiveDelay, Latest, Count, PassesAndSends, SyncGoesOn,
         FactsStop, DraftingRows;
    DraftedSendIff(c, st, w, ignoreDelay);
    var r := Step(c, st, w, ignoreDelay);
    if r.sentAt.Some? && TakesExistingDraft(st) {
      SupervisedOnlySyncs(c, st, w, ignoreDelay);
      ExistingDraftIsUnflagged(c, st, st.msgs[Latest(IsDraft, st.msgs).value].body, w, ignoreDelay);
    }
  }

  // The same at every call of every run, forced calls included.
  lemma FlaggedSendsOfRunIff(c: Config, run: Run, k: nat)
    requires IsRun(c, run) && k < |run.turns|
    ensures SendsAt(run, k) && FactsStop(run.states[k + 1].msgs)
       <==> DraftsAndSends(c, Before(run, k), run.turns[k].world, run.turns[k].ignoreDelay)
            && Flagged(run.turns[k].world.gen.facts)
  {
    hide Step, FactsStop, DraftsAndSends;
    assert Linked(c, run, k);
    FlaggedSendIff(c, Before(run, k), run.turns[k].world, run.turns[k].ignoreDelay);
    DraftingNeedsBody(c, Before(run, k), run.turns[k].world, run.turns[k].ignoreDelay);
  }

  lemma DraftingNeedsBody(c: Config, st: State, w: World, ignoreDelay: bool)
    ensures DraftsAndSends(c, st, w, ignoreDelay) ==> w.gen.GenBody?
  {
    hide ReachesBranches, PassesAndSends, SyncGoesOn;
  }

  lemma SupervisedOnlySyncs(c: Config, st: State, w: World, ignoreDelay: bool)
    requires Step(c, st, w, ignoreDelay).sentAt.Some?
    ensures st.task.mode == Autonomous && EntryStop(st).None?
  {
    hide GuardedSend, ColdStep, SyncStep, EntryStop, EffectiveDelay, Latest, Count;
    if st.task.mode == Supervised { SupervisedNeverSends(c, st, w, ignoreDelay); }
  }

  // Such a call, concretely.
  lemma FlaggedDraftIsSentByItsOwnCall(c: Config) returns (st: State, w: World)
    ensures var r := Step(c, st, w, false);
            r.sentAt.Some? && FactsStop(r.st.msgs) && !FactsStop(st.msgs)
  {
    hide Step;
    st := State(Task(Autonomous, DraftTask, Open, false, 10, None, None), [], []);
    w := World(true, false, GenBody("hi", Facts(true, 1, Some(NeedsOperator))), true, SendDone(None), FetchForbidden, At(0));
    assert "hi"[0] == 'h';
    assert DraftsAndSends(c, st, w, false);
    FlaggedSendIff(c, st, w, false);
  }

  // Status changes

  lemma GuardedSendStatus(c: Config, st: State, body: string, w: World, ignoreDelay: bool, phase: Phase)
    ensures GuardedSend(c, st, body, w, ignoreDelay, phase).st.task.status == st.task.status
  {
    hide Latest, ShouldWait, DuplicateOfLastSent, CooledDown, ApprovedRow, ApproveAudit, MarkSent;
  }

  lemma DraftStepStatus(c: Config, st: State, w: World, ignoreDelay: bool)
    ensures var after := DraftStep(c, st, w, ignoreDelay).st.task.status; after == st.task.status || after == WaitingApproval
  {
    hide GuardedSend, ShouldWait, WithDraft;
    if w.gen.GenBody? {
      var drafted := Logged(RanAt(Generated(st, w.gen.body, w.gen.facts, w.clock.generated), w.clock.ran), LoopRun);
      GuardedSendStatus(c, drafted, w.gen.body, w, ignoreDelay, AfterGenerate);
    }
  }

  // A call pauses an open row only when a newer one holds the target, and never reopens a closed one.
  lemma CallStatus(c: Config, st: State, w: World, ignoreDelay: bool)
    ensures var after := Step(c, st, w, ignoreDelay).st.task.status;
            && (Inactive(st.task.status) ==> after == st.task.status)
            && (!Inactive(st.task.status) && !(w.newer && w.permitted && st.task.mode != Off)
                ==> after == st.task.status || after == WaitingApproval)
            && (!Inactive(st.task.status) && w.newer && w.permitted && st.task.mode != Off ==> after == Paused)
  {
    hide GuardedSend, DraftStep, WithDraft, Count, Latest, EntryStop, EffectiveDelay, SyncRows;
    DraftStepStatus(c, st.(msgs := st.msgs + SyncRows(c, st, w)), w, ignoreDelay);
    if w.gen.GenBody? {
      GuardedSendStatus(c, Generated(st, w.gen.body, w.gen.facts, w.clock.generated), w.gen.body, w, ignoreDelay, ColdStart);
    }
    var d := Latest(IsDraft, st.msgs);
    if d.Some? { GuardedSendStatus(c, st, st.msgs[d.value].body, w, ignoreDelay, ExistingDraft); }
  }

  // The cooldown counts from the creation of the sent row, which is the creation of its draft.

  function Cool(c: Config, run: Run, k: nat): int
    requires k < |run.states| && LastSent(run.states[k].msgs).Some?
  {
    CooldownSeconds(c, LastSent(run.states[k].msgs).value.createdAt) * SECOND
  }

  lemma SendLeavesSentRow(c: Config, run: Run, i: nat)
    requires IsRun(c, run) && i < |run.turns| && SendsAt(run, i)
    ensures LastSent(run.states[i + 1].msgs).Some?
  {
    hide Step;
    SentRowsAreRecordedSends(c, run, i + 1);
    SendsAccumulate(run, i, i + 1);
  }

  // Consecutive automatic sends of any run are a cooldown apart, as documented, whenever the first row
  // was sent as it was created or the loop delay covers the cooldown.
  lemma DocumentedSpacing(c: Config, run: Run, i: nat, j: nat)
    requires IsRun(c, run) && i < j < |run.turns| && Timely(run) && Automatic(run)
    requires SendsAt(run, i) && SendsAt(run, j) && forall k :: i < k < j ==> !SendsAt(run, k)
    ensures LastSent(run.states[i + 1].msgs).Some?
    ensures var sentI, cool := run.results[i].sentAt.value, Cool(c, run, i + 1);
            (LastSent(run.states[i + 1].msgs).value.createdAt >= sentI
             || EffectiveDelay(Before(run, j).task) * SECOND >= cool)
            ==> run.results[j].sentAt.value - sentI >= cool
  {
    hide Step, LastSent, EffectiveDelay;
    SendLeavesSentRow(c, run, i);
    QuietStretchKeepsLastSent(c, run, i + 1, j);
    SendSpacing(c, run, i, j);
  }

  // The call after a run: automatic, timely, with the given loop delay, and it sends.
  ghost predicate NextSend(c: Config, run: Run, t: Turn, delay: int) {
    && |run.turns| > 0 && |run.states| == |run.turns| + 1
    && !t.ignoreDelay && t.world.clock.Ordered() && run.turns[|run.turns| - 1].world.clock.end <= t.world.clock.now
    && EffectiveDelay(Edited(run.states[|run.turns|], t.edit).task) == delay
    && NextResult(c, run, t).sentAt.Some?
  }

  function NextResult(c: Config, run: Run, t: Turn): StepResult
    requires |run.states| > 0
  {
    Step(c, Edited(run.states[|run.states| - 1], t.edit), t.world, t.ignoreDelay)
  }

  function FreshTid(ms: seq<Message>): (tid: int)
    ensures forall m :: m in ms && m.telegramId.Some? ==> m.telegramId.value < tid
  {
    if ms == [] then 0
    else
      var front, last := ms[..|ms| - 1], ms[|ms| - 1];
      assert ms == front + [last];
      Max(FreshTid(front), if last.telegramId.Some? then last.telegramId.value + 1 else 0)
  }

  lemma LatestSnoc(p: Message -> bool, ms: seq<Message>, x: Message)
    ensures Latest(p, ms + [x]) == if p(x) then Some(|ms|) else Latest(p, ms)
  {
    assert (ms + [x])[..|ms|] == ms;
  }

  // A reply arriving at `at` is stored, and with it the guards no longer hold a fresh body back.
  lemma ReplyOpensGuards(c: Config, ms: seq<Message>, f: Fetched, body: string)
    requires LastSent(ms).Some? && f.tid == Some(FreshTid(ms))
    requires f.at >= LastSent(ms).value.createdAt + CooldownSeconds(c, LastSent(ms).value.createdAt) * SECOND
    requires c.norm(body) != c.norm(LastSent(ms).value.body)
    ensures NewRows(c, ms, [f]) == [InboundRow(f)]
    ensures var ds := ms + [InboundRow(f)];
            !ShouldWait(ds) && !DuplicateOfLastSent(c, ds, body) && CooledDown(c, ds, f.at)
  {
    hide Latest, Blank;
    assert [f][..0] == [];
    assert NewRows(c, ms, []) == [] && ms + [] == ms;
    assert !Known(ms, f.tid);
    LatestSnoc(IsSent, ms, InboundRow(f));
    LatestSnoc(IsInbound, ms, InboundRow(f));
  }

  function EarliestTurn(run: Run, at: int, delay: int, body: string): Turn
    requires |run.states| > 0
  {
    var reply := Fetched(Some(FreshTid(run.states[|run.states| - 1].msgs)), "reply", at);
    Turn(Edit(Autonomous, WaitingReply, Open, false, 0, Some(delay)), false,
         World(true, false, GenBody(body, Facts(false, 0, None)), true, SendDone(None), FetchDone([reply]), At(at)))
  }

  lemma EarliestTurnEnters(c: Config, run: Run, at: int, delay: int, body: string)
    requires |run.turns| > 0 && |run.states| == |run.turns| + 1 && 10 <= delay <= 3600
    requires !FactsStop(run.states[|run.turns|].msgs)
    requires run.states[|run.turns|].task.lastRun.Some? ==> at >= run.states[|run.turns|].task.lastRun.value + delay * SECOND
    ensures var t := EarliestTurn(run, at, delay, body);
            var st := Edited(run.states[|run.turns|], t.edit);
            && ReachesBranches(st, t.world, false) && !TakesExistingDraft(st) && !TakesColdStart(st)
            && EffectiveDelay(st.task) == delay
  {
    hide Latest, Count, LatestFacts, FreshTid;
  }

  // After a send whose facts set no stop condition, a next send can come the moment both the cooldown
  // since the creation of the sent row and the loop delay are over.
  lemma NextSendAtEarliest(c: Config, run: Run, at: int, delay: int, body: string)
    requires IsRun(c, run) && |run.turns| > 0 && 10 <= delay <= 3600
    requires !FactsStop(run.states[|run.turns|].msgs) && LastSent(run.states[|run.turns|].msgs).Some?
    requires run.states[|run.turns|].task.lastRun.Some? ==> at >= run.states[|run.turns|].task.lastRun.value + delay * SECOND
    requires at >= LastSent(run.states[|run.turns|].msgs).value.createdAt + Cool(c, run, |run.turns|)
    requires at >= run.turns[|run.turns| - 1].world.clock.end
    requires !Blank(body) && c.norm(body) != c.norm(LastSent(run.states[|run.turns|].msgs).value.body)
    ensures var t := EarliestTurn(run, at, delay, body);
            NextSend(c, run, t, delay) && NextResult(c, run, t).sentAt == Some(at)
  {
    hide Step, LastSent, FreshTid, FactsStop, ShouldWait, DuplicateOfLastSent, CooledDown, EffectiveDelay,
         ReachesBranches, TakesExistingDraft, TakesColdStart, NewRows, Blank;
    var t := EarliestTurn(run, at, delay, body);
    var st := Edited(run.states[|run.turns|], t.edit);
    EarliestTurnEnters(c, run, at, delay, body);
    ReplyOpensGuards(c, st.msgs, t.world.fetch.items[0], body);
    DraftedSendIff(c, st, t.world, false);
  }

  // After an automatic send, every next send is a cooldown later, as documented, exactly when the row
  // was sent as it was created, or the loop delay from the end of the call already covers the
  // cooldown, or the rows stop all further sends.  `body` is any text that may be sent next.
  lemma DocumentedSpacingIff(c: Config, run: Run, delay: int, body: string)
    requires IsRun(c, run) && |run.turns| > 0 && 10 <= delay <= 3600
    requires SendsAt(run, |run.turns| - 1) && !run.turns[|run.turns| - 1].ignoreDelay
    requires LastSent(run.states[|run.turns|].msgs).Some? && !Blank(body)
    requires c.norm(body) != c.norm(LastSent(run.states[|run.turns|].msgs).value.body)
    ensures var n := |run.turns|;
            var created := LastSent(run.states[n].msgs).value.createdAt;
            var sentAt, cool := run.results[n - 1].sentAt.value, Cool(c, run, n);
            (forall t :: NextSend(c, run, t, delay) ==> NextResult(c, run, t).sentAt.value - sentAt >= cool)
            <==> (created >= sentAt
                  || run.turns[n - 1].world.clock.end + delay * SECOND >= sentAt + cool
                  || FactsStop(run.states[n].msgs))
  {
    hide Step, LastSent, FactsStop, EffectiveDelay, EntryStop, Blank;
    var n := |run.turns|;
    var rows, end := run.states[n].msgs, run.turns[n - 1].world.clock.end;
    var created, sentAt, cool := LastSent(rows).value.createdAt, run.results[n - 1].sentAt.value, Cool(c, run, n);
    AutomaticSendsAreGuarded(c, run, n - 1);
    assert Linked(c, run, n - 1);
    forall t | NextSend(c, run, t, delay)
      ensures !FactsStop(rows)
      ensures NextResult(c, run, t).sentAt.value >= Max(created + cool, end + delay * SECOND)
    {
      var st := Edited(run.states[n], t.edit);
      AutomaticSendIsGuarded(c, st, t.world);
      if FactsStop(rows) { StopFactsStopCall(c, st, t.world, false); }
    }
    var earliest := Max(created + cool, end + delay * SECOND);
    if !FactsStop(rows) && earliest < sentAt + cool {
      NextSendAtEarliest(c, run, earliest, delay, body);
    }
  }

  // Whatever the digest, two autonomous sends can be 10 seconds apart: a draft approved late, and a
  // reply right after it.

  function LateDraft(): Message { Message(Outbound, Draft, "offer", None, None, 0) }

  function LateDraftState(): State {
    State(Task(Autonomous, WaitingApproval, Open, false, 10, Some(10), None), [LateDraft()], [])
  }

  function LateDraftTurn(): Turn {
    Turn(Edit(Autonomous, WaitingApproval, Open, false, 10, Some(10)), false,
         World(true, false, GenRaised, true, SendDone(None), FetchForbidden, At(1000 * SECOND)))
  }

  lemma LateDraftFirst(c: Config)
    ensures var r := Step(c, LateDraftState(), LateDraftTurn().world, false);
            && r.sentAt == Some(1000 * SECOND) && r.st.task.lastRun == Some(1000 * SECOND)
            && r.st.msgs == [LateDraft().(status := Sent)]
  {
    var st, w := LateDraftState(), LateDraftTurn().world;
    assert st.msgs[..0] == [];
    assert st.msgs[0].body[0] == 'o';
    assert Step(c, st, w, false) == GuardedSend(c, st, "offer", w, false, ExistingDraft);
  }

  lemma CooldownDoesNotSpaceSends(c: Config) returns (run: Run)
    requires c.norm("other") != c.norm("offer")
    ensures IsRun(c, run) && Automatic(run) && Timely(run) && |run.turns| == 2 && SendsAt(run, 0) && SendsAt(run, 1)
    ensures run.results[1].sentAt.value - run.results[0].sentAt.value == 10 * SECOND
  {
    hide Step, FreshTid;
    LateDraftFirst(c);
    var first := RunOf(c, LateDraftState(), [LateDraftTurn()]);
    assert Linked(c, first, 0);
    assert Edited(LateDraftState(), LateDraftTurn().edit) == LateDraftState();
    var rows := first.states[1].msgs;
    assert rows[..0] == [] && LatestFacts(rows) == None && LastSent(rows) == Some(rows[0]);
    assert "other"[0] == 'o';
    NextSendAtEarliest(c, first, 1010 * SECOND, 10, "other");
    var t := EarliestTurn(first, 1010 * SECOND, 10, "other");
    ExtendedIsRun(c, first, t);
    run := Extended(c, first, t);
  }
}
