/**
 * What one call of the auto loop leaves behind, in either mode, as conditions on its inputs: which
 * calls draft, which send, which rows and which task fields change (src/ai_agent/auto_loop.py).
 */
module DraftingCalls {
  import opened Common
  import opened AgentService
  import opened AutoLoop
  import AutoLoopRuns

  // Replacing the drafts of a session: dropping drafts one at a time, in any order, ends in the same rows.

  lemma {:induction false} WithoutDraftsOfConcat(xs: seq<Message>, ys: seq<Message>)
    ensures WithoutDrafts(xs + ys) == WithoutDrafts(xs) + WithoutDrafts(ys)
  {
    if ys == [] {
      assert xs + ys == xs;
    } else {
      var front := ys[..|ys| - 1];
      assert (xs + ys)[..|xs + ys| - 1] == xs + front;
      WithoutDraftsOfConcat(xs, front);
    }
  }

  lemma {:induction false} NoDraftNoChange(ms: seq<Message>)
    requires forall k :: 0 <= k < |ms| ==> !IsDraft(ms[k])
    ensures WithoutDrafts(ms) == ms
  {
    hide IsDraft, IsSent, Count, DraftCount, SentCount;
    if ms != [] {
      var front, last := ms[..|ms| - 1], ms[|ms| - 1];
      NoDraftNoChange(front);
      assert !IsDraft(last);
      assert front + [last] == ms;
    }
  }

  lemma LoneDraft(m: Message)
    requires IsDraft(m)
    ensures WithoutDrafts([m]) == []
  {
    assert [m][..0] == [];
  }

  lemma DroppingADraft(ms: seq<Message>, k: nat)
    requires k < |ms| && IsDraft(ms[k])
    ensures WithoutDrafts(ms) == WithoutDrafts(ms[..k] + ms[k + 1..])
  {
    hide WithoutDrafts, IsDraft, IsSent, DraftCount, SentCount;
    var front, back := ms[..k], ms[k + 1..];
    LoneDraft(ms[k]);
    assert ms == front + ([ms[k]] + back);
    WithoutDraftsOfConcat(front, [ms[k]] + back);
    WithoutDraftsOfConcat([ms[k]], back);
    WithoutDraftsOfConcat(front, back);
  }

  // The inputs of a call

  // No early exit stops the call.
  predicate Enters(st: State, w: World, ignoreDelay: bool) {
    && w.permitted && st.task.mode != Off && !w.newer
    && st.task.status != Paused && st.task.status != Completed && st.task.status != Failed && st.task.status != Cancelled
    && st.task.stage == Open && !st.task.finalSummary && !FactsStop(st.msgs)
    && (st.task.maxMessages >= 1 ==> SentCount(st.msgs) < st.task.maxMessages)
    && (ignoreDelay || st.task.lastRun.None? || w.clock.now - st.task.lastRun.value >= EffectiveDelay(st.task) * SECOND)
  }

  // The facts that may stop a call are those of the newest row of ours that carries any.
  lemma StopFactsIff(ms: seq<Message>)
    ensures FactsStop(ms) <==> exists k: nat :: FlaggedRow(ms, k)
  {
    var d := Latest(HasFacts, ms);
    if FactsStop(ms) {
      assert FlaggedRow(ms, d.value);
    }
    if exists k: nat :: FlaggedRow(ms, k) {
      var k: nat :| FlaggedRow(ms, k);
      assert d == Some(k);
    }
  }

  predicate FlaggedRow(ms: seq<Message>, k: nat) {
    && k < |ms| && ms[k].direction == Outbound && ms[k].facts.Some?
    && (ms[k].facts.value.finalSummary || ms[k].facts.value.riskFlags > 0)
    && forall j :: k < j < |ms| ==> !(ms[j].direction == Outbound && ms[j].facts.Some?)
  }

  // An autonomous task that has not said anything yet.
  predicate OpensChat(st: State) {
    && st.task.mode == Autonomous && st.task.status == DraftTask
    && forall k :: 0 <= k < |st.msgs| ==> !IsOutbound(st.msgs[k])
  }

  // An autonomous task with a draft waiting for approval.
  predicate HasWaitingDraft(st: State) {
    && st.task.mode == Autonomous && st.task.status == WaitingApproval
    && exists k :: 0 <= k < |st.msgs| && IsDraft(st.msgs[k])
  }

  predicate ReadsChat(st: State, w: World, ignoreDelay: bool) {
    Enters(st, w, ignoreDelay) && !OpensChat(st) && !HasWaitingDraft(st)
  }

  // The rows after the sync of a call that reads the chat.
  function RowsRead(c: Config, st: State, w: World): seq<Message> {
    if OpensChat(st) then st.msgs
    else st.msgs + if w.fetch.FetchDone? then NewRows(c, st.msgs, w.fetch.items) else []
  }

  // The sync went through.
  predicate Synced(w: World) { w.fetch.FetchDone? || (w.fetch.FetchRefused? && !w.fetch.transient) }

  // It brought nothing, and something was said before.
  predicate NothingNew(c: Config, st: State, w: World) {
    RowsRead(c, st, w) == st.msgs && !(forall k :: 0 <= k < |st.msgs| ==> !IsOutbound(st.msgs[k]))
  }

  // The sync went through and there is something to answer.
  predicate ChatCallsForDraft(c: Config, st: State, w: World, ignoreDelay: bool) {
    Synced(w) && (ignoreDelay || (!NothingNew(c, st, w) && !ShouldWait(RowsRead(c, st, w))))
  }

  // The call stores a draft, in either mode.
  predicate Drafts(c: Config, st: State, w: World, ignoreDelay: bool) {
    && Enters(st, w, ignoreDelay) && !HasWaitingDraft(st) && w.gen.GenBody?
    && (OpensChat(st) || ChatCallsForDraft(c, st, w, ignoreDelay))
  }

  // The guards let the body out, and the sender takes it.
  predicate GoesOut(c: Config, ms: seq<Message>, body: string, w: World, ignoreDelay: bool) {
    && (ignoreDelay || (!ShouldWait(ms) && !DuplicateOfLastSent(c, ms, body) && CooledDown(c, ms, w.clock.check)))
    && !Blank(body) && w.guardAllows && w.send.SendDone?
  }

  predicate SendsOwnDraft(c: Config, st: State, w: World, ignoreDelay: bool) {
    && Drafts(c, st, w, ignoreDelay) && st.task.mode == Autonomous
    && GoesOut(c, RowsRead(c, st, w), w.gen.body, w, ignoreDelay)
  }

  predicate SendsWaitingDraft(c: Config, st: State, w: World, ignoreDelay: bool) {
    && Enters(st, w, ignoreDelay) && HasWaitingDraft(st)
    && exists k :: 0 <= k < |st.msgs| && IsNewestDraft(st.msgs, k) && GoesOut(c, st.msgs, st.msgs[k].body, w, ignoreDelay)
  }

  predicate IsNewestDraft(ms: seq<Message>, k: nat) {
    k < |ms| && IsDraft(ms[k]) && forall j :: k < j < |ms| ==> !IsDraft(ms[j])
  }

  // The row a drafting call adds: a draft, or the same row already sent.
  function AddedRow(w: World, sent: bool): Message
    requires w.gen.GenBody? && (sent ==> w.send.SendDone?)
  {
    Message(Outbound, if sent then Sent else Draft, w.gen.body, if sent then w.send.tid else None,
            Some(w.gen.facts), w.clock.generated)
  }

  lemma LatestIsNewestDraft(ms: seq<Message>, k: nat)
    requires IsNewestDraft(ms, k)
    ensures Latest(IsDraft, ms) == Some(k)
  {
  }

  lemma NoOutbound(ms: seq<Message>)
    ensures AnyOutbound(ms) <==> !(forall k :: 0 <= k < |ms| ==> !IsOutbound(ms[k]))
  {
  }

  // The named entry conditions are the early exits of the step, in any order.
  lemma EntersIsNoExit(st: State, w: World, ignoreDelay: bool)
    ensures Enters(st, w, ignoreDelay)
       <==> && w.permitted && st.task.mode != Off && !Inactive(st.task.status) && !w.newer && EntryStop(st).None?
            && !(DelayPending(st.task, w.clock.now) && !ignoreDelay)
  {
    hide Latest, Count, EffectiveDelay, LatestFacts;
  }

  // The guarded send of a draft stored by the same call.
  lemma FreshDraftRows(c: Config, base: seq<Message>, drafted: State, w: World, ignoreDelay: bool, phase: Phase)
    requires w.gen.GenBody? && drafted.msgs == WithDraft(base, w.gen.body, w.gen.facts, w.clock.generated)
    ensures var r := GuardedSend(c, drafted, w.gen.body, w, ignoreDelay, phase);
            && (r.sentAt.Some? <==> GoesOut(c, base, w.gen.body, w, ignoreDelay))
            && r.st.msgs == WithoutDrafts(base) + [AddedRow(w, GoesOut(c, base, w.gen.body, w, ignoreDelay))]
            && r.st.task == drafted.task.(lastRun := r.st.task.lastRun) && r.inserted == 0
  {
    hide Latest, WithoutDrafts, Blank, ShouldWait, DuplicateOfLastSent, CooledDown;
    AutoLoopRuns.GuardsIgnoreDrafting(c, base, w.gen.body, w.gen.facts, w.clock.generated, w.clock.check);
    AutoLoopRuns.NewDraftIsLatest(base, w.gen.body, w.gen.facts, w.clock.generated);
  }

  // The guarded send of the draft that was waiting.
  lemma WaitingDraftRows(c: Config, st: State, k: nat, w: World, ignoreDelay: bool)
    requires IsNewestDraft(st.msgs, k)
    ensures var r := GuardedSend(c, st, st.msgs[k].body, w, ignoreDelay, ExistingDraft);
            && (r.sentAt.Some? <==> GoesOut(c, st.msgs, st.msgs[k].body, w, ignoreDelay))
            && r.st.msgs == (if r.sentAt.Some? then st.msgs[k := st.msgs[k].(status := Sent, telegramId := w.send.tid)] else st.msgs)
            && r.st.task == st.task.(lastRun := r.st.task.lastRun) && r.inserted == 0
  {
    hide Latest, Blank, ShouldWait, DuplicateOfLastSent, CooledDown;
    LatestIsNewestDraft(st.msgs, k);
  }

  ghost predicate NewestDraftIsSent(before: seq<Message>, after: seq<Message>, w: World) {
    && w.send.SendDone?
    && exists k: nat :: IsNewestDraft(before, k) && after == before[k := before[k].(status := Sent, telegramId := w.send.tid)]
  }

  // The effect of a call on rows and task, all but the loop clock, in terms of its inputs.
  ghost predicate Effects(c: Config, st: State, w: World, ignoreDelay: bool, r: StepResult) {
    && (Drafts(c, st, w, ignoreDelay)
        ==> && r.st.msgs == WithoutDrafts(RowsRead(c, st, w)) + [AddedRow(w, SendsOwnDraft(c, st, w, ignoreDelay))]
            && r.st.task.status == WaitingApproval
            && r.st.task.stage == (if w.gen.facts.stage.Some? then w.gen.facts.stage.value else st.task.stage))
    && (SendsWaitingDraft(c, st, w, ignoreDelay) ==> NewestDraftIsSent(st.msgs, r.st.msgs, w))
    && (!Drafts(c, st, w, ignoreDelay) && !SendsWaitingDraft(c, st, w, ignoreDelay)
        ==> r.st.msgs == if ReadsChat(st, w, ignoreDelay) then RowsRead(c, st, w) else st.msgs)
    && (!Drafts(c, st, w, ignoreDelay) ==> r.st.task.stage == st.task.stage)
    && (!Drafts(c, st, w, ignoreDelay) && !w.newer ==> r.st.task.status == st.task.status)
    && (r.st.task.mode, r.st.task.finalSummary, r.st.task.maxMessages, r.st.task.delaySec)
       == (st.task.mode, st.task.finalSummary, st.task.maxMessages, st.task.delaySec)
    && (r.sentAt.Some? <==> SendsOwnDraft(c, st, w, ignoreDelay) || SendsWaitingDraft(c, st, w, ignoreDelay))
    && r.inserted == (if ReadsChat(st, w, ignoreDelay) then |RowsRead(c, st, w)| - |st.msgs| else 0)
  }

  lemma ColdEffects(c: Config, st: State, w: World, ignoreDelay: bool)
    requires Enters(st, w, ignoreDelay) && OpensChat(st) && !HasWaitingDraft(st)
    ensures Effects(c, st, w, ignoreDelay, ColdStep(c, st, w, ignoreDelay))
  {
    hide GuardedSend, GoesOut, WithDraft, WithoutDrafts, Enters, NewRows, ChatCallsForDraft;
    if w.gen.GenBody? {
      FreshDraftRows(c, st.msgs, Generated(st, w.gen.body, w.gen.facts, w.clock.generated), w, ignoreDelay, ColdStart);
    }
  }

  lemma NewestDraftIsUnique(ms: seq<Message>, k: nat)
    requires IsNewestDraft(ms, k)
    ensures forall j: nat :: IsNewestDraft(ms, j) ==> j == k
  {
  }

  lemma GoingOutIsSent(c: Config, ms: seq<Message>, body: string, w: World, ignoreDelay: bool)
    requires GoesOut(c, ms, body, w, ignoreDelay)
    ensures w.send.SendDone?
  {
    hide ShouldWait, DuplicateOfLastSent, CooledDown, Blank;
  }

  lemma WaitingEffects(c: Config, st: State, k: nat, w: World, ignoreDelay: bool)
    requires Enters(st, w, ignoreDelay) && HasWaitingDraft(st) && k < |st.msgs| && IsNewestDraft(st.msgs, k)
    ensures Effects(c, st, w, ignoreDelay, GuardedSend(c, st, st.msgs[k].body, w, ignoreDelay, ExistingDraft))
  {
    hide GuardedSend, GoesOut, Enters, NewRows, ChatCallsForDraft, IsNewestDraft, RowsRead;
    WaitingDraftRows(c, st, k, w, ignoreDelay);
    NewestDraftIsUnique(st.msgs, k);
    if GoesOut(c, st.msgs, st.msgs[k].body, w, ignoreDelay) {
      GoingOutIsSent(c, st.msgs, st.msgs[k].body, w, ignoreDelay);
    }
  }

  // After the sync: nothing more happens while the chat owes a reply or no body comes, else the draft.
  lemma DraftRows(c: Config, st: State, w: World, ignoreDelay: bool)
    requires st.task.mode != Off
    ensures var r := DraftStep(c, st, w, ignoreDelay);
            var drafts := (ignoreDelay || !ShouldWait(st.msgs)) && w.gen.GenBody?;
            var sends := drafts && st.task.mode == Autonomous && GoesOut(c, st.msgs, w.gen.body, w, ignoreDelay);
            && (drafts ==> r.st.task == st.task.(status := WaitingApproval, lastRun := r.st.task.lastRun,
                                                 stage := w.gen.facts.stage.GetOr(st.task.stage)))
            && (!drafts ==> r.st.task == st.task.(lastRun := r.st.task.lastRun) && r.st.msgs == st.msgs)
            && (r.sentAt.Some? <==> sends)
            && (drafts && !sends ==> r.st.msgs == WithoutDrafts(st.msgs) + [AddedRow(w, false)])
            && (sends ==> w.send.SendDone? && r.st.msgs == WithoutDrafts(st.msgs) + [AddedRow(w, true)])
  {
    hide GuardedSend, GoesOut, WithoutDrafts, ShouldWait;
    if w.gen.GenBody? {
      var drafted := Logged(RanAt(Generated(st, w.gen.body, w.gen.facts, w.clock.generated), w.clock.ran), LoopRun);
      FreshDraftRows(c, st.msgs, drafted, w, ignoreDelay, AfterGenerate);
      if GoesOut(c, st.msgs, w.gen.body, w, ignoreDelay) {
        GoingOutIsSent(c, st.msgs, w.gen.body, w, ignoreDelay);
      }
    }
  }

  // What a call that reads the chat finds, in the terms of the step function.
  lemma ReadingTerms(c: Config, st: State, w: World, ignoreDelay: bool)
    requires !OpensChat(st)
    ensures var rows := SyncRows(c, st, w);
            && RowsRead(c, st, w) == st.msgs + rows
            && (NothingNew(c, st, w) <==> rows == [] && AnyOutbound(st.msgs + rows))
            && (Synced(w) <==> SyncStop(w).None?)
  {
    hide OpensChat, NewRows, AnyOutbound;
    var rows := SyncRows(c, st, w);
    NoOutbound(st.msgs);
    AppendInboundCounts(st.msgs, rows);
    assert rows == [] <==> st.msgs + rows == st.msgs;
  }

  lemma SyncEffects(c: Config, st: State, w: World, ignoreDelay: bool)
    requires Enters(st, w, ignoreDelay) && !OpensChat(st) && !HasWaitingDraft(st) && st.task.mode != Off
    ensures Effects(c, st, w, ignoreDelay, SyncStep(c, st, w, ignoreDelay))
  {
    hide DraftStep, GoesOut, Enters, OpensChat, HasWaitingDraft, Synced, NothingNew, RowsRead, SyncRows, NewRows,
         WithoutDrafts, ShouldWait, AnyOutbound;
    ReadingTerms(c, st, w, ignoreDelay);
    DraftRows(c, st.(msgs := st.msgs + SyncRows(c, st, w)), w, ignoreDelay);
    NothingFetched(c, st, w);
  }

  lemma NothingFetched(c: Config, st: State, w: World)
    ensures SyncStop(w).Some? ==> SyncRows(c, st, w) == []
  {
  }

  lemma CallEffects(c: Config, st: State, w: World, ignoreDelay: bool)
    ensures Effects(c, st, w, ignoreDelay, Step(c, st, w, ignoreDelay))
  {
    hide Enters, ColdStep, SyncStep, GuardedSend, GoesOut, EntryStop, DelayPending, AnyOutbound, Latest, NewRows, ChatCallsForDraft;
    EntersIsNoExit(st, w, ignoreDelay);
    NoOutbound(st.msgs);
    if Enters(st, w, ignoreDelay) {
      assert st.task.mode != Off;
      var d := Latest(IsDraft, st.msgs);
      if OpensChat(st) {
        ColdEffects(c, st, w, ignoreDelay);
      } else if HasWaitingDraft(st) {
        WaitingEffects(c, st, d.value, w, ignoreDelay);
      } else {
        SyncEffects(c, st, w, ignoreDelay);
      }
    }
  }

  // Which calls leave a new draft behind

  ghost predicate LeavesNewDraft(before: seq<Message>, after: seq<Message>) {
    exists m :: m in after && IsDraft(m) && m !in before
  }

  // In either mode: exactly the calls that draft and do not send, unless that very row was there already.
  lemma NewDraftIff(c: Config, st: State, w: World, ignoreDelay: bool)
    ensures LeavesNewDraft(st.msgs, Step(c, st, w, ignoreDelay).st.msgs)
       <==> && Drafts(c, st, w, ignoreDelay) && !SendsOwnDraft(c, st, w, ignoreDelay)
            && AddedRow(w, false) !in st.msgs
  {
    hide Step, Drafts, SendsOwnDraft, SendsWaitingDraft, ReadsChat, NewRows, OpensChat;
    CallEffects(c, st, w, ignoreDelay);
    DraftsNeedBody(c, st, w, ignoreDelay);
    var before, after := st.msgs, Step(c, st, w, ignoreDelay).st.msgs;
    var read := RowsRead(c, st, w);
    assert forall m | m in read && IsDraft(m) :: m in before;
    if Drafts(c, st, w, ignoreDelay) {
      var added := AddedRow(w, SendsOwnDraft(c, st, w, ignoreDelay));
      assert after[|after| - 1] == added;
      assert forall m | m in after :: m == added || m in WithoutDrafts(read);
    }
  }

  lemma DraftsNeedBody(c: Config, st: State, w: World, ignoreDelay: bool)
    ensures Drafts(c, st, w, ignoreDelay) ==> w.gen.GenBody?
    ensures SendsOwnDraft(c, st, w, ignoreDelay) ==> Drafts(c, st, w, ignoreDelay) && w.send.SendDone?
  {
    hide Enters, HasWaitingDraft, OpensChat, ChatCallsForDraft, ShouldWait, DuplicateOfLastSent, CooledDown, Blank;
  }

  // The rows hold exactly one draft, the last row, and it carries what was generated in this call.
  ghost predicate OneFreshDraft(ms: seq<Message>, body: string, facts: Facts, at: int) {
    && |ms| > 0 && ms[|ms| - 1] == Message(Outbound, Draft, body, None, Some(facts), at)
    && forall k :: 0 <= k < |ms| - 1 ==> !IsDraft(ms[k])
  }

  // A supervised call that is let in, finds something to answer and gets a body stores it as the one
  // draft, asks for approval, takes over the stage, and sends nothing.
  lemma SupervisedCallDrafts(c: Config, st: State, w: World, ignoreDelay: bool)
    requires st.task.mode == Supervised && Enters(st, w, ignoreDelay)
    requires ChatCallsForDraft(c, st, w, ignoreDelay) && w.gen.GenBody?
    ensures var r := Step(c, st, w, ignoreDelay);
            && OneFreshDraft(r.st.msgs, w.gen.body, w.gen.facts, w.clock.generated)
            && r.st.task.status == WaitingApproval
            && r.st.task.stage == (if w.gen.facts.stage.Some? then w.gen.facts.stage.value else st.task.stage)
            && r.sentAt.None?
            && forall m :: m in r.st.msgs[..|r.st.msgs| - 1] <==> m in RowsRead(c, st, w) && !IsDraft(m)
  {
    hide Step, Enters, NewRows, ChatCallsForDraft;
    CallEffects(c, st, w, ignoreDelay);
    var read, after := RowsRead(c, st, w), Step(c, st, w, ignoreDelay).st.msgs;
    assert after[..|after| - 1] == WithoutDrafts(read);
    assert forall k | 0 <= k < |after| - 1 :: after[k] in WithoutDrafts(read);
  }

  // Any other supervised call only stores what it read, if it got that far.
  lemma SupervisedCallIsQuiet(c: Config, st: State, w: World, ignoreDelay: bool)
    requires st.task.mode == Supervised && !(Enters(st, w, ignoreDelay) && ChatCallsForDraft(c, st, w, ignoreDelay) && w.gen.GenBody?)
    ensures var r := Step(c, st, w, ignoreDelay);
            && r.sentAt.None? && r.st.task.stage == st.task.stage && (!w.newer ==> r.st.task.status == st.task.status)
            && r.st.msgs == if Enters(st, w, ignoreDelay) then RowsRead(c, st, w) else st.msgs
  {
    hide Step, Enters, NewRows, ChatCallsForDraft;
    CallEffects(c, st, w, ignoreDelay);
  }

  // The audit trail

  function NewAudit(st: State, r: StepResult): seq<Audit>
    requires |st.audit| <= |r.st.audit|
  {
    r.st.audit[|st.audit|..]
  }

  function BranchOf(st: State): Phase {
    if OpensChat(st) then ColdStart else if HasWaitingDraft(st) then ExistingDraft else AfterGenerate
  }

  // A call appends at most two audit rows; a send and its branch, a drafting, and a supersession each
  // show there exactly when they happened.
  ghost predicate Trail(c: Config, st: State, w: World, ignoreDelay: bool, r: StepResult) {
    && st.audit <= r.st.audit && |NewAudit(st, r)| <= 2
    && (forall p :: SentBy(p) in NewAudit(st, r) <==> r.sentAt.Some? && p == BranchOf(st))
    && (LoopRun in NewAudit(st, r) <==> Drafts(c, st, w, ignoreDelay) && !OpensChat(st))
    && (Superseded in NewAudit(st, r) <==> w.permitted && st.task.mode != Off && !Inactive(st.task.status) && w.newer)
  }

  ghost predicate GuardedAudit(before: State, r: StepResult, phase: Phase) {
    && before.audit <= r.st.audit && |NewAudit(before, r)| <= 1
    && LoopRun !in NewAudit(before, r) && Superseded !in NewAudit(before, r)
    && forall p :: SentBy(p) in NewAudit(before, r) <==> r.sentAt.Some? && p == phase
  }

  lemma OneMoreRow(before: State, r: StepResult, a: Audit, phase: Phase)
    requires r.st.audit == before.audit + [a] && a != LoopRun && a != Superseded
    requires forall p :: a == SentBy(p) <==> r.sentAt.Some? && p == phase
    ensures GuardedAudit(before, r, phase)
  {
    assert NewAudit(before, r) == [a];
  }

  lemma GuardedTrail(c: Config, st: State, body: string, w: World, ignoreDelay: bool, phase: Phase)
    ensures GuardedAudit(st, GuardedSend(c, st, body, w, ignoreDelay, phase), phase)
  {
    hide ShouldWait, DuplicateOfLastSent, CooledDown, ApprovedRow, ApproveTransient, MarkSent, GuardedAudit;
    var r := GuardedSend(c, st, body, w, ignoreDelay, phase);
    if !ignoreDelay && ShouldWait(st.msgs) {
      OneMoreRow(st, r, WaitingForReply(phase), phase);
    } else if !ignoreDelay && DuplicateOfLastSent(c, st.msgs, body) {
      OneMoreRow(st, r, DuplicateSkipped(phase), phase);
    } else if !ignoreDelay && !CooledDown(c, st.msgs, w.clock.check) {
      NoMoreRow(st, r, phase);
    } else {
      OneMoreRow(st, r, ApproveAudit(w, st.msgs, phase), phase);
    }
  }

  lemma NoMoreRow(before: State, r: StepResult, phase: Phase)
    requires r.st.audit == before.audit && r.sentAt.None?
    ensures GuardedAudit(before, r, phase)
  {
  }

  lemma DraftTrail(c: Config, st: State, w: World, ignoreDelay: bool)
    ensures var r := DraftStep(c, st, w, ignoreDelay);
            && st.audit <= r.st.audit && |NewAudit(st, r)| <= 2 && Superseded !in NewAudit(st, r)
            && (forall p :: SentBy(p) in NewAudit(st, r) <==> r.sentAt.Some? && p == AfterGenerate)
            && (LoopRun in NewAudit(st, r) <==> (ignoreDelay || !ShouldWait(st.msgs)) && w.gen.GenBody?)
  {
    hide GuardedSend, ShouldWait, WithDraft;
    if w.gen.GenBody? {
      var drafted := Logged(RanAt(Generated(st, w.gen.body, w.gen.facts, w.clock.generated), w.clock.ran), LoopRun);
      var r := GuardedSend(c, drafted, w.gen.body, w, ignoreDelay, AfterGenerate);
      GuardedTrail(c, drafted, w.gen.body, w, ignoreDelay, AfterGenerate);
      assert r.st.audit[|st.audit|..] == [LoopRun] + r.st.audit[|drafted.audit|..];
    }
  }

  lemma ColdTrail(c: Config, st: State, w: World, ignoreDelay: bool)
    ensures GuardedAudit(st, ColdStep(c, st, w, ignoreDelay), ColdStart)
  {
    hide GuardedSend, WithDraft;
    if w.gen.GenBody? {
      GuardedTrail(c, Generated(st, w.gen.body, w.gen.facts, w.clock.generated), w.gen.body, w, ignoreDelay, ColdStart);
    }
  }

  lemma SyncTrail(c: Config, st: State, w: World, ignoreDelay: bool)
    requires Enters(st, w, ignoreDelay) && !OpensChat(st) && !HasWaitingDraft(st)
    ensures var r := SyncStep(c, st, w, ignoreDelay);
            && st.audit <= r.st.audit && |NewAudit(st, r)| <= 2 && Superseded !in NewAudit(st, r)
            && (forall p :: SentBy(p) in NewAudit(st, r) <==> r.sentAt.Some? && p == AfterGenerate)
            && (LoopRun in NewAudit(st, r) <==> Drafts(c, st, w, ignoreDelay))
  {
    hide DraftStep, Enters, OpensChat, HasWaitingDraft, Synced, NothingNew, RowsRead, SyncRows, NewRows, ShouldWait, AnyOutbound;
    var rows := SyncRows(c, st, w);
    ReadingTerms(c, st, w, ignoreDelay);
    DraftTrail(c, st.(msgs := st.msgs + rows), w, ignoreDelay);
  }

  lemma CallTrail(c: Config, st: State, w: World, ignoreDelay: bool)
    ensures Trail(c, st, w, ignoreDelay, Step(c, st, w, ignoreDelay))
  {
    hide Enters, ColdStep, GuardedSend, SyncStep, EntryStop, DelayPending, AnyOutbound, Latest, ChatCallsForDraft;
    EntersIsNoExit(st, w, ignoreDelay);
    NoOutbound(st.msgs);
    if Enters(st, w, ignoreDelay) {
      var d := Latest(IsDraft, st.msgs);
      if OpensChat(st) {
        ColdTrail(c, st, w, ignoreDelay);
      } else if HasWaitingDraft(st) {
        GuardedTrail(c, st, st.msgs[d.value].body, w, ignoreDelay, ExistingDraft);
      } else {
        SyncTrail(c, st, w, ignoreDelay);
      }
    }
  }

  // How a call ends

  // The end of a send attempt for a body and the rows its guards look at: outcome, loop clock, audit row.
  ghost predicate AttemptEnds(c: Config, before: State, ms: seq<Message>, body: string, w: World, ignoreDelay: bool,
                              phase: Phase, r: StepResult) {
    var waits := !ignoreDelay && ShouldWait(ms);
    var repeats := !ignoreDelay && !waits && DuplicateOfLastSent(c, ms, body);
    var cools := !ignoreDelay && !waits && !repeats && !CooledDown(c, ms, w.clock.check);
    var busy := !Blank(body) && w.guardAllows && (w.send.SendRaised? || (w.send.SendRefused? && w.send.transient));
    && (r.outcome == Waited <==> waits) && (r.outcome == Repeated <==> repeats) && (r.outcome == CoolingDown <==> cools)
    && (!waits && !repeats && !cools <==> r.outcome == Executed(r.sentAt.Some?))
    && r.st.task.lastRun == Some(if waits then w.clock.waitB else if repeats then w.clock.dup
                                 else if cools then w.clock.check else w.clock.end)
    && r.st.audit == before.audit + (if waits then [WaitingForReply(phase)] else if repeats then [DuplicateSkipped(phase)]
                                     else if cools then [] else if r.sentAt.Some? then [SentBy(phase)]
                                     else if !busy then [Skipped(SendFailure)]
                                     else if phase == ColdStart then [ColdStartTransient] else [Skipped(TransientBusy)])
  }

  lemma AttemptOfDraft(c: Config, st: State, k: nat, w: World, ignoreDelay: bool, phase: Phase)
    requires IsNewestDraft(st.msgs, k)
    ensures AttemptEnds(c, st, st.msgs, st.msgs[k].body, w, ignoreDelay, phase,
                        GuardedSend(c, st, st.msgs[k].body, w, ignoreDelay, phase))
  {
    hide Latest, Blank, ShouldWait, DuplicateOfLastSent, CooledDown, MarkSent;
    LatestIsNewestDraft(st.msgs, k);
  }

  lemma AttemptOfFreshDraft(c: Config, base: seq<Message>, drafted: State, w: World, ignoreDelay: bool, phase: Phase)
    requires w.gen.GenBody? && drafted.msgs == WithDraft(base, w.gen.body, w.gen.facts, w.clock.generated)
    ensures AttemptEnds(c, drafted, base, w.gen.body, w, ignoreDelay, phase,
                        GuardedSend(c, drafted, w.gen.body, w, ignoreDelay, phase))
  {
    hide Latest, WithoutDrafts, Blank, ShouldWait, DuplicateOfLastSent, CooledDown, GuardedSend;
    AutoLoopRuns.GuardsIgnoreDrafting(c, base, w.gen.body, w.gen.facts, w.clock.generated, w.clock.check);
    AttemptOfDraft(c, drafted, |drafted.msgs| - 1, w, ignoreDelay, phase);
  }

  // A call that reads the chat and does not get to a draft: why, what it answers, when it says it ran.
  ghost predicate ReadingEnds(c: Config, st: State, w: World, ignoreDelay: bool, r: StepResult) {
    if w.fetch.FetchForbidden? then
      r.outcome == Stopped && r.st.audit == st.audit + [Skipped(FetchNotAllowed)] && r.st.task.lastRun == Some(w.clock.now)
    else if !Synced(w) then
      && r.outcome == Executed(false) && r.st.task.lastRun == Some(w.clock.now)
      && r.st.audit == st.audit + [Skipped(if w.fetch.FetchRaised? then SyncFailed else TransientBusy)]
    else if !ignoreDelay && NothingNew(c, st, w) then
      r.outcome == Stopped && r.st.audit == st.audit + [Skipped(NoNewInbound)] && r.st.task.lastRun == Some(w.clock.now)
    else if !ignoreDelay && ShouldWait(RowsRead(c, st, w)) then
      r.outcome == Waited && r.st.audit == st.audit + [WaitingForReply(Generate)] && r.st.task.lastRun == Some(w.clock.waitA)
    else
      w.gen.GenRaised? ==>
        r.outcome == Executed(false) && r.st.audit == st.audit + [Skipped(GenerateFailed)] && r.st.task.lastRun == Some(w.clock.now)
  }

  // The state after a draft was stored behind a sync, as far as the attempt to send it is concerned.
  ghost predicate DraftedEnds(c: Config, st: State, w: World, ignoreDelay: bool, r: StepResult)
    requires w.gen.GenBody?
  {
    var logged := st.(audit := st.audit + [LoopRun]);
    if st.task.mode == Supervised then
      r.outcome == Executed(false) && r.st.audit == logged.audit && r.st.task.lastRun == Some(w.clock.ran)
    else AttemptEnds(c, logged, RowsRead(c, st, w), w.gen.body, w, ignoreDelay, AfterGenerate, r)
  }

  // Every call ends in the way its inputs call for.
  ghost predicate Ends(c: Config, st: State, w: World, ignoreDelay: bool, r: StepResult) {
    && (!Enters(st, w, ignoreDelay) ==>
          && r.st.task.lastRun == st.task.lastRun
          && r.outcome == if Enters(st, w, true) then TooSoon else Stopped)
    && (Enters(st, w, ignoreDelay) && OpensChat(st) ==>
          if w.gen.GenBody? then AttemptEnds(c, st, st.msgs, w.gen.body, w, ignoreDelay, ColdStart, r)
          else r.outcome == Executed(false) && r.st.audit == st.audit + [Skipped(GenerateFailed)] && r.st.task.lastRun == Some(w.clock.now))
    && (Enters(st, w, ignoreDelay) && HasWaitingDraft(st) ==> WaitingEnds(c, st, w, ignoreDelay, r))
    && (ReadsChat(st, w, ignoreDelay) ==>
          if Drafts(c, st, w, ignoreDelay) then DraftedEnds(c, st, w, ignoreDelay, r) else ReadingEnds(c, st, w, ignoreDelay, r))
  }

  ghost predicate WaitingEnds(c: Config, st: State, w: World, ignoreDelay: bool, r: StepResult) {
    forall k: nat :: IsNewestDraft(st.msgs, k) ==> AttemptEnds(c, st, st.msgs, st.msgs[k].body, w, ignoreDelay, ExistingDraft, r)
  }

  lemma ColdEnds(c: Config, st: State, w: World, ignoreDelay: bool)
    requires w.gen.GenBody?
    ensures AttemptEnds(c, st, st.msgs, w.gen.body, w, ignoreDelay, ColdStart, ColdStep(c, st, w, ignoreDelay))
  {
    hide GuardedSend, ShouldWait, DuplicateOfLastSent, CooledDown, Blank, WithoutDrafts;
    var drafted := Generated(st, w.gen.body, w.gen.facts, w.clock.generated);
    AttemptOfFreshDraft(c, st.msgs, drafted, w, ignoreDelay, ColdStart);
  }

  lemma SameAttempt(c: Config, a: State, b: State, ms: seq<Message>, body: string, w: World, ignoreDelay: bool, phase: Phase,
                    r: StepResult, q: StepResult)
    requires AttemptEnds(c, a, ms, body, w, ignoreDelay, phase, r) && a.audit == b.audit
    requires q.outcome == r.outcome && q.st == r.st && q.sentAt == r.sentAt
    ensures AttemptEnds(c, b, ms, body, w, ignoreDelay, phase, q)
  {
    hide ShouldWait, DuplicateOfLastSent, CooledDown, Blank;
  }

  lemma DraftStepEnds(c: Config, st: State, w: World, ignoreDelay: bool)
    requires st.task.mode != Off
    ensures var r := DraftStep(c, st, w, ignoreDelay);
            if !ignoreDelay && ShouldWait(st.msgs) then
              r.outcome == Waited && r.st.audit == st.audit + [WaitingForReply(Generate)] && r.st.task.lastRun == Some(w.clock.waitA)
            else if w.gen.GenRaised? then
              r.outcome == Executed(false) && r.st.audit == st.audit + [Skipped(GenerateFailed)] && r.st.task.lastRun == Some(w.clock.now)
            else if st.task.mode == Supervised then
              r.outcome == Executed(false) && r.st.audit == st.audit + [LoopRun] && r.st.task.lastRun == Some(w.clock.ran)
            else AttemptEnds(c, st.(audit := st.audit + [LoopRun]), st.msgs, w.gen.body, w, ignoreDelay, AfterGenerate, r)
  {
    hide GuardedSend, ShouldWait, AttemptEnds, WithoutDrafts;
    if w.gen.GenBody? {
      var drafted := Logged(RanAt(Generated(st, w.gen.body, w.gen.facts, w.clock.generated), w.clock.ran), LoopRun);
      var sent := GuardedSend(c, drafted, w.gen.body, w, ignoreDelay, AfterGenerate);
      AttemptOfFreshDraft(c, st.msgs, drafted, w, ignoreDelay, AfterGenerate);
      SameAttempt(c, drafted, st.(audit := st.audit + [LoopRun]), st.msgs, w.gen.body, w, ignoreDelay, AfterGenerate, sent, sent);
    }
  }

  lemma SyncEnds(c: Config, st: State, w: World, ignoreDelay: bool)
    requires Enters(st, w, ignoreDelay) && !OpensChat(st) && !HasWaitingDraft(st) && st.task.mode != Off
    ensures var r := SyncStep(c, st, w, ignoreDelay);
            if Drafts(c, st, w, ignoreDelay) then DraftedEnds(c, st, w, ignoreDelay, r) else ReadingEnds(c, st, w, ignoreDelay, r)
  {
    hide Enters, OpensChat, HasWaitingDraft, DraftStep, Synced, NothingNew, RowsRead, SyncRows, NewRows, ShouldWait, AnyOutbound,
         AttemptEnds;
    ReadingTerms(c, st, w, ignoreDelay);
    var synced := st.(msgs := st.msgs + SyncRows(c, st, w));
    var r := DraftStep(c, synced, w, ignoreDelay);
    DraftStepEnds(c, synced, w, ignoreDelay);
    if Drafts(c, st, w, ignoreDelay) && st.task.mode == Autonomous {
      SameAttempt(c, synced.(audit := st.audit + [LoopRun]), st.(audit := st.audit + [LoopRun]), synced.msgs, w.gen.body, w,
                  ignoreDelay, AfterGenerate, r, SyncStep(c, st, w, ignoreDelay));
    }
  }

  lemma CallEnds(c: Config, st: State, w: World, ignoreDelay: bool)
    ensures Ends(c, st, w, ignoreDelay, Step(c, st, w, ignoreDelay))
  {
    hide Enters, ColdStep, GuardedSend, SyncStep, EntryStop, DelayPending, AnyOutbound, Latest, Drafts, AttemptEnds, DraftedEnds,
         ReadingEnds, IsNewestDraft;
    EntersIsNoExit(st, w, ignoreDelay);
    EntersIsNoExit(st, w, true);
    NoOutbound(st.msgs);
    if Enters(st, w, ignoreDelay) {
      assert st.task.mode != Off;
      var d := Latest(IsDraft, st.msgs);
      if OpensChat(st) {
        if w.gen.GenBody? { ColdEnds(c, st, w, ignoreDelay); } else { ColdFails(c, st, w, ignoreDelay); }
      } else if HasWaitingDraft(st) {
        WaitingDraftEnds(c, st, w, ignoreDelay);
      } else {
        SyncEnds(c, st, w, ignoreDelay);
      }
    }
  }

  lemma ColdFails(c: Config, st: State, w: World, ignoreDelay: bool)
    requires w.gen.GenRaised?
    ensures var r := ColdStep(c, st, w, ignoreDelay);
            r.outcome == Executed(false) && r.st.audit == st.audit + [Skipped(GenerateFailed)] && r.st.task.lastRun == Some(w.clock.now)
  {
  }

  lemma WaitingDraftEnds(c: Config, st: State, w: World, ignoreDelay: bool)
    requires HasWaitingDraft(st)
    ensures var d := Latest(IsDraft, st.msgs);
            d.Some? && WaitingEnds(c, st, w, ignoreDelay, GuardedSend(c, st, st.msgs[d.value].body, w, ignoreDelay, ExistingDraft))
  {
    hide AttemptEnds, GuardedSend;
    var d := Latest(IsDraft, st.msgs);
    AttemptOfDraft(c, st, d.value, w, ignoreDelay, ExistingDraft);
    NewestDraftIsUnique(st.msgs, d.value);
  }
}
