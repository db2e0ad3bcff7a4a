/**
 * One iteration of the AI-agent auto loop (src/ai_agent/auto_loop.py), as a function of a task row,
 * its message rows and everything the outside world answers, and as the step-by-step method.
 */
module AutoLoop {
  import opened Common
  import opened AgentService

  datatype Mode = Off | Supervised | Autonomous
  datatype TaskStatus =
    DraftTask | WaitingApproval | WaitingReply | ReadyForOperator | Risky
    | Paused | Completed | Failed | Cancelled | OtherStatus

  datatype Task = Task(mode: Mode, status: TaskStatus, stage: Stage, finalSummary: bool,
                       maxMessages: int, delaySec: Option<int>, lastRun: Option<int>)

  datatype Phase = ColdStart | ExistingDraft | AfterGenerate | Generate
  datatype Reason =
    TaskStatusStop | StageDone | StageNeedsOperator | SummarySet | FactsSummary | RiskFlags | MaxMessages
    | GenerateFailed | SendFailure | TransientBusy | FetchNotAllowed | SyncFailed | NoNewInbound
  datatype Audit =
    Skipped(reason: Reason) | Superseded | WaitingForReply(phase: Phase) | DuplicateSkipped(phase: Phase)
    | SentBy(phase: Phase) | ColdStartTransient | LoopRun

  datatype State = State(task: Task, msgs: seq<Message>, audit: seq<Audit>)

  // What the outside world answers during one call.

  datatype GenAnswer = GenRaised | GenBody(body: string, facts: Facts)
  datatype SendAnswer = SendRaised | SendRefused(transient: bool) | SendDone(tid: Option<int>)
  datatype FetchAnswer = FetchRaised | FetchForbidden | FetchRefused(transient: bool) | FetchDone(items: seq<Fetched>)

  // The clock readings of one call, in the order the code takes them.
  datatype Clock = Clock(now: int, synced: int, waitA: int, generated: int, ran: int,
                         waitB: int, dup: int, check: int, sent: int, end: int)
  {
    predicate Ordered() {
      now <= synced <= waitA <= generated <= ran <= waitB <= dup <= check <= sent <= end
    }
  }

  datatype World = World(permitted: bool, newer: bool, gen: GenAnswer, guardAllows: bool,
                         send: SendAnswer, fetch: FetchAnswer, clock: Clock)

  datatype Outcome = Stopped | TooSoon | Waited | Repeated | CoolingDown | Executed(sent: bool)

  // `sentAt` is the reading taken when a send is recorded; `inserted` counts the stored inbound rows.
  datatype StepResult = StepResult(st: State, outcome: Outcome, sentAt: Option<int>, inserted: nat)

  function EffectiveDelay(t: Task): (d: int)
    ensures 10 <= d <= 3600
  {
    var raw := if t.delaySec.None? || t.delaySec.value == 0 then 20 else t.delaySec.value;
    Max(10, Min(raw, 3600))
  }

  predicate CapReached(st: State) {
    st.task.maxMessages >= 1 && SentCount(st.msgs) >= st.task.maxMessages
  }

  predicate DelayPending(t: Task, now: int) {
    t.lastRun.Some? && now - t.lastRun.value < EffectiveDelay(t) * SECOND
  }

  predicate Inactive(s: TaskStatus) { s == Paused || s == Completed || s == Failed || s == Cancelled }

  predicate FactsStop(ms: seq<Message>) {
    var f := LatestFacts(ms);
    f.Some? && (f.value.finalSummary || f.value.riskFlags > 0)
  }

  function Logged(st: State, a: Audit): State { st.(audit := st.audit + [a]) }
  function RanAt(st: State, at: int): State { st.(task := st.task.(lastRun := Some(at))) }

  function Quiet(st: State, outcome: Outcome): StepResult { StepResult(st, outcome, None, 0) }

  // The entry checks in code order: the audit reason of the first that stops the call.
  function EntryStop(st: State): Option<Reason> {
    var f := LatestFacts(st.msgs);
    if st.task.stage == Done then Some(StageDone)
    else if st.task.stage == NeedsOperator then Some(StageNeedsOperator)
    else if st.task.finalSummary then Some(SummarySet)
    else if f.Some? && f.value.finalSummary then Some(FactsSummary)
    else if f.Some? && f.value.riskFlags > 0 then Some(RiskFlags)
    else if CapReached(st) then Some(MaxMessages)
    else None
  }

  // service.generate_draft on success
  function Generated(st: State, body: string, facts: Facts, at: int): State {
    State(st.task.(status := WaitingApproval, stage := facts.stage.GetOr(st.task.stage)),
          WithDraft(st.msgs, body, facts, at), st.audit)
  }

  // service.approve_send: the row it sends, if it gets as far as a successful send
  function ApprovedRow(w: World, ms: seq<Message>): Option<nat> {
    var d := Latest(IsDraft, ms);
    if d.Some? && !Blank(ms[d.value].body) && w.guardAllows && w.send.SendDone? then d else None
  }

  predicate ApproveTransient(w: World, ms: seq<Message>) {
    var d := Latest(IsDraft, ms);
    d.Some? && !Blank(ms[d.value].body) && w.guardAllows
    && (w.send.SendRaised? || (w.send.SendRefused? && w.send.transient))
  }

  function ApproveAudit(w: World, ms: seq<Message>, phase: Phase): Audit {
    if ApprovedRow(w, ms).Some? then SentBy(phase)
    else if ApproveTransient(w, ms) then (if phase == ColdStart then ColdStartTransient else Skipped(TransientBusy))
    else Skipped(SendFailure)
  }

  function Approve(st: State, w: World, phase: Phase): StepResult {
    var k := ApprovedRow(w, st.msgs);
    var logged := RanAt(Logged(st, ApproveAudit(w, st.msgs, phase)), w.clock.end);
    if k.Some? then
      StepResult(logged.(msgs := MarkSent(st.msgs, k.value, w.send.tid)), Executed(true), Some(w.clock.sent), 0)
    else Quiet(logged, Executed(false))
  }

  // The three guards every autonomous send passes, then the send.
  function GuardedSend(c: Config, st: State, body: string, w: World, ignoreDelay: bool, phase: Phase): StepResult {
    if !ignoreDelay && ShouldWait(st.msgs) then
      Quiet(RanAt(Logged(st, WaitingForReply(phase)), w.clock.waitB), Waited)
    else if !ignoreDelay && DuplicateOfLastSent(c, st.msgs, body) then
      Quiet(RanAt(Logged(st, DuplicateSkipped(phase)), w.clock.dup), Repeated)
    else if !ignoreDelay && !CooledDown(c, st.msgs, w.clock.check) then
      Quiet(RanAt(st, w.clock.check), CoolingDown)
    else Approve(st, w, phase)
  }

  function ColdStep(c: Config, st: State, w: World, ignoreDelay: bool): StepResult {
    match w.gen
    case GenRaised => Quiet(RanAt(Logged(st, Skipped(GenerateFailed)), w.clock.now), Executed(false))
    case GenBody(body, facts) =>
      GuardedSend(c, Generated(st, body, facts, w.clock.generated), body, w, ignoreDelay, ColdStart)
  }

  function SyncRows(c: Config, st: State, w: World): seq<Message> {
    if w.fetch.FetchDone? then NewRows(c, st.msgs, w.fetch.items) else []
  }

  function SyncStop(w: World): Option<Reason> {
    match w.fetch
    case FetchForbidden => Some(FetchNotAllowed)
    case FetchRefused(transient) => if transient then Some(TransientBusy) else None
    case FetchRaised => Some(SyncFailed)
    case FetchDone(_) => None
  }

  function SyncStopOutcome(w: World): Outcome {
    if w.fetch.FetchForbidden? then Stopped else Executed(false)
  }

  // After the sync: draft, and send when autonomous.
  function DraftStep(c: Config, st: State, w: World, ignoreDelay: bool): StepResult {
    if !ignoreDelay && ShouldWait(st.msgs) then
      Quiet(RanAt(Logged(st, WaitingForReply(Generate)), w.clock.waitA), Waited)
    else
      match w.gen
      case GenRaised => Quiet(RanAt(Logged(st, Skipped(GenerateFailed)), w.clock.now), Executed(false))
      case GenBody(body, facts) =>
        var drafted := Logged(RanAt(Generated(st, body, facts, w.clock.generated), w.clock.ran), LoopRun);
        if st.task.mode == Supervised then Quiet(drafted, Executed(false))
        else GuardedSend(c, drafted, body, w, ignoreDelay, AfterGenerate)
  }

  function SyncStep(c: Config, st: State, w: World, ignoreDelay: bool): StepResult {
    if SyncStop(w).Some? then
      Quiet(RanAt(Logged(st, Skipped(SyncStop(w).value)), w.clock.now), SyncStopOutcome(w))
    else
      var rows := SyncRows(c, st, w);
      var synced := st.(msgs := st.msgs + rows);
      var r :=
        if rows == [] && AnyOutbound(synced.msgs) && !ignoreDelay then
          Quiet(RanAt(Logged(synced, Skipped(NoNewInbound)), w.clock.now), Stopped)
        else DraftStep(c, synced, w, ignoreDelay);
      r.(inserted := |rows|)
  }

  function Step(c: Config, st: State, w: World, ignoreDelay: bool): StepResult {
    if !w.permitted || st.task.mode == Off then Quiet(st, Stopped)
    else if Inactive(st.task.status) then Quiet(Logged(st, Skipped(TaskStatusStop)), Stopped)
    else if w.newer then Quiet(Logged(st.(task := st.task.(status := Paused)), Superseded), Stopped)
    else if EntryStop(st).Some? then Quiet(Logged(st, Skipped(EntryStop(st).value)), Stopped)
    else if DelayPending(st.task, w.clock.now) && !ignoreDelay then Quiet(st, TooSoon)
    else if st.task.mode == Autonomous && st.task.status == DraftTask && !AnyOutbound(st.msgs) then
      ColdStep(c, st, w, ignoreDelay)
    else if st.task.mode == Autonomous && st.task.status == WaitingApproval && Latest(IsDraft, st.msgs).Some? then
      GuardedSend(c, st, st.msgs[Latest(IsDraft, st.msgs).value].body, w, ignoreDelay, ExistingDraft)
    else SyncStep(c, st, w, ignoreDelay)
  }

  /** The loop bound to one task row and the message rows of its session. */
  class TaskLoop {
    const c: Config
    var task: Task
    var msgs: seq<Message>
    var audit: seq<Audit>

    function View(): State
      reads this
    {
      State(task, msgs, audit)
    }

    constructor (c: Config, st: State)
      ensures this.c == c && View() == st
    {
      this.c := c;
      task, msgs, audit := st.task, st.msgs, st.audit;
    }

    method Audited(a: Audit)
      modifies this`audit
      ensures audit == old(audit) + [a]
    {
      audit := audit + [a];
    }

    // service.sync_inbound; the first result is None when the call reports a failure of its own
    method SyncInbound(w: World) returns (stop: Option<Reason>, inserted: nat)
      modifies this`msgs
      ensures stop == SyncStop(w)
      ensures stop.None? ==> msgs == old(msgs) + SyncRows(c, old(View()), w) && inserted == |SyncRows(c, old(View()), w)|
      ensures stop.Some? ==> msgs == old(msgs)
    {
      stop, inserted := SyncStop(w), 0;
      if !w.fetch.FetchDone? {
        return;
      }
      var items := w.fetch.items;
      var before := msgs;
      for i := 0 to |items|
        invariant msgs == before + NewRows(c, before, items[..i])
        invariant inserted == |NewRows(c, before, items[..i])|
      {
        assert items[..i + 1][..i] == items[..i];
        var visible := if c.autoflush then msgs else before;
        if items[i].tid.Some? && !Known(visible, items[i].tid) {
          msgs := msgs + [InboundRow(items[i])];
          inserted := inserted + 1;
        }
      }
      assert items[..|items|] == items;
    }

    // service.generate_draft
    method GenerateDraft(w: World) returns (body: Option<string>)
      modifies this`msgs, this`task
      ensures body.None? <==> w.gen.GenRaised?
      ensures body.None? ==> View() == old(View())
      ensures body.Some? ==> body.value == w.gen.body
                             && View() == Generated(old(View()), w.gen.body, w.gen.facts, w.clock.generated)
    {
      if w.gen.GenRaised? {
        return None;
      }
      msgs := WithoutDrafts(msgs);
      msgs := msgs + [DraftRow(w.gen.body, w.gen.facts, w.clock.generated)];
      task := task.(status := WaitingApproval);
      if w.gen.facts.stage.Some? {
        task := task.(stage := w.gen.facts.stage.value);
      }
      return Some(w.gen.body);
    }

    // service.approve_send
    method ApproveSend(w: World) returns (ok: bool, transient: bool)
      modifies this`msgs
      ensures ok == ApprovedRow(w, old(msgs)).Some?
      ensures transient == ApproveTransient(w, old(msgs))
      ensures ok ==> msgs == MarkSent(old(msgs), ApprovedRow(w, old(msgs)).value, w.send.tid)
      ensures !ok ==> msgs == old(msgs)
    {
      ok, transient := false, false;
      var d := Latest(IsDraft, msgs);
      if d.None? || Blank(msgs[d.value].body) || !w.guardAllows {
        return;
      }
      match w.send {
        case SendRaised => transient := true;
        case SendRefused(t) => transient := t;
        case SendDone(tid) =>
          msgs := msgs[d.value := msgs[d.value].(status := Sent, telegramId := tid)];
          ok := true;
      }
    }

    method SkipWaiting(ignoreDelay: bool, phase: Phase, at: int) returns (skip: bool)
      modifies this`task, this`audit
      ensures skip == (!ignoreDelay && ShouldWait(msgs))
      ensures View() == if skip then RanAt(Logged(old(View()), WaitingForReply(phase)), at) else old(View())
    {
      skip := false;
      if ignoreDelay {
        return;
      }
      if !ShouldWait(msgs) {
        return;
      }
      Audited(WaitingForReply(phase));
      task := task.(lastRun := Some(at));
      skip := true;
    }

    method SkipDuplicate(body: string, ignoreDelay: bool, phase: Phase, at: int) returns (skip: bool)
      modifies this`task, this`audit
      ensures skip == (!ignoreDelay && DuplicateOfLastSent(c, msgs, body))
      ensures View() == if skip then RanAt(Logged(old(View()), DuplicateSkipped(phase)), at) else old(View())
    {
      skip := false;
      if ignoreDelay || !DuplicateOfLastSent(c, msgs, body) {
        return;
      }
      Audited(DuplicateSkipped(phase));
      task := task.(lastRun := Some(at));
      skip := true;
    }

    method SkipCooldown(ignoreDelay: bool, checkAt: int) returns (skip: bool)
      modifies this`task
      ensures skip == (task.mode == Autonomous && !ignoreDelay && !CooledDown(c, msgs, checkAt))
      ensures View() == if skip then RanAt(old(View()), checkAt) else old(View())
    {
      skip := false;
      if task.mode != Autonomous || ignoreDelay {
        return;
      }
      var last := Latest(IsSent, msgs);
      if last.None? {
        return;
      }
      var lastAt := msgs[last.value].createdAt;
      var remaining := Max(0, CooldownSeconds(c, lastAt) * SECOND - (checkAt - lastAt));
      if remaining <= 0 {
        return;
      }
      task := task.(lastRun := Some(checkAt));
      skip := true;
    }

    // The first outbound message goes out without reading the chat.
    method ColdStartCall(w: World, ignoreDelay: bool) returns (outcome: Outcome)
      requires task.mode == Autonomous
      modifies this
      ensures StepResult(View(), outcome, if outcome == Executed(true) then Some(w.clock.sent) else None, 0)
           == ColdStep(c, old(View()), w, ignoreDelay)
    {
      hide ShouldWait, DuplicateOfLastSent, CooledDown, ApprovedRow, ApproveTransient, MarkSent, WithDraft;
      var body := GenerateDraft(w);
      if body.None? {
        Audited(Skipped(GenerateFailed));
        task := task.(lastRun := Some(w.clock.now));
        return Executed(false);
      }
      var skip := SkipWaiting(ignoreDelay, ColdStart, w.clock.waitB);
      if skip {
        return Waited;
      }
      skip := SkipDuplicate(body.value, ignoreDelay, ColdStart, w.clock.dup);
      if skip {
        return Repeated;
      }
      skip := SkipCooldown(ignoreDelay, w.clock.check);
      if skip {
        return CoolingDown;
      }
      var ok, transient := ApproveSend(w);
      if ok {
        Audited(SentBy(ColdStart));
      } else if transient {
        Audited(ColdStartTransient);
      } else {
        Audited(Skipped(SendFailure));
      }
      task := task.(lastRun := Some(w.clock.end));
      return Executed(ok);
    }

    // Send the draft that is already waiting for approval.
    method ExistingDraftCall(body: string, w: World, ignoreDelay: bool) returns (outcome: Outcome)
      requires task.mode == Autonomous
      modifies this
      ensures StepResult(View(), outcome, if outcome == Executed(true) then Some(w.clock.sent) else None, 0)
           == GuardedSend(c, old(View()), body, w, ignoreDelay, ExistingDraft)
    {
      hide ShouldWait, DuplicateOfLastSent, CooledDown, ApprovedRow, ApproveTransient, MarkSent, WithDraft;
      var skip := SkipWaiting(ignoreDelay, ExistingDraft, w.clock.waitB);
      if skip {
        return Waited;
      }
      skip := SkipDuplicate(body, ignoreDelay, ExistingDraft, w.clock.dup);
      if skip {
        return Repeated;
      }
      skip := SkipCooldown(ignoreDelay, w.clock.check);
      if skip {
        return CoolingDown;
      }
      var ok, transient := ApproveSend(w);
      if ok {
        Audited(SentBy(ExistingDraft));
      } else if transient {
        Audited(Skipped(TransientBusy));
      } else {
        Audited(Skipped(SendFailure));
      }
      task := task.(lastRun := Some(w.clock.end));
      return Executed(ok);
    }

    // The part after a successful sync: wait, draft, and send when autonomous.
    method DraftCall(w: World, ignoreDelay: bool) returns (outcome: Outcome)
      requires task.mode != Off
      modifies this
      ensures StepResult(View(), outcome, if outcome == Executed(true) then Some(w.clock.sent) else None, 0)
           == DraftStep(c, old(View()), w, ignoreDelay)
    {
      hide ShouldWait, DuplicateOfLastSent, CooledDown, ApprovedRow, ApproveTransient, MarkSent, WithDraft;
      var skip := SkipWaiting(ignoreDelay, Generate, w.clock.waitA);
      if skip {
        return Waited;
      }
      var body := GenerateDraft(w);
      if body.None? {
        Audited(Skipped(GenerateFailed));
        task := task.(lastRun := Some(w.clock.now));
        return Executed(false);
      }
      task := task.(lastRun := Some(w.clock.ran));
      Audited(LoopRun);
      if task.mode == Supervised {
        return Executed(false);
      }
      skip := SkipWaiting(ignoreDelay, AfterGenerate, w.clock.waitB);
      if skip {
        return Waited;
      }
      skip := SkipDuplicate(body.value, ignoreDelay, AfterGenerate, w.clock.dup);
      if skip {
        return Repeated;
      }
      skip := SkipCooldown(ignoreDelay, w.clock.check);
      if skip {
        return CoolingDown;
      }
      var ok, transient := ApproveSend(w);
      if ok {
        Audited(SentBy(AfterGenerate));
      } else if transient {
        Audited(Skipped(TransientBusy));
      } else {
        Audited(Skipped(SendFailure));
      }
      task := task.(lastRun := Some(w.clock.end));
      return Executed(ok);
    }

    method SyncCall(w: World, ignoreDelay: bool) returns (outcome: Outcome, inserted: nat)
      requires task.mode != Off
      modifies this
      ensures StepResult(View(), outcome, if outcome == Executed(true) then Some(w.clock.sent) else None, inserted)
           == SyncStep(c, old(View()), w, ignoreDelay)
    {
      var stop;
      stop, inserted := SyncInbound(w);
      if stop.Some? {
        Audited(Skipped(stop.value));
        task := task.(lastRun := Some(w.clock.now));
        return SyncStopOutcome(w), 0;
      }
      if inserted == 0 && AnyOutbound(msgs) && !ignoreDelay {
        Audited(Skipped(NoNewInbound));
        task := task.(lastRun := Some(w.clock.now));
        return Stopped, inserted;
      }
      outcome := DraftCall(w, ignoreDelay);
    }

    method ProcessTask(w: World, ignoreDelay: bool) returns (outcome: Outcome, sentAt: Option<int>, inserted: nat)
      modifies this
      ensures StepResult(View(), outcome, sentAt, inserted) == Step(c, old(View()), w, ignoreDelay)
    {
      sentAt, inserted := None, 0;
      if !w.permitted || task.mode == Off {
        return Stopped, None, 0;
      }
      if Inactive(task.status) {
        Audited(Skipped(TaskStatusStop));
        return Stopped, None, 0;
      }
      if w.newer {
        task := task.(status := Paused);
        Audited(Superseded);
        return Stopped, None, 0;
      }
      var stop := EntryStop(View());
      if stop.Some? {
        Audited(Skipped(stop.value));
        return Stopped, None, 0;
      }
      if DelayPending(task, w.clock.now) && !ignoreDelay {
        return TooSoon, None, 0;
      }
      var draft := Latest(IsDraft, msgs);
      if task.mode == Autonomous && task.status == DraftTask && !AnyOutbound(msgs) {
        outcome := ColdStartCall(w, ignoreDelay);
      } else if task.mode == Autonomous && task.status == WaitingApproval && draft.Some? {
        outcome := ExistingDraftCall(msgs[draft.value].body, w, ignoreDelay);
      } else {
        outcome, inserted := SyncCall(w, ignoreDelay);
      }
      sentAt := if outcome == Executed(true) then Some(w.clock.sent) else None;
    }
  }
}
