/**
 * Checks running side by side (src/clients/readiness_worker.py:38-73).  Every process has its own set of
 * accounts in flight and its own lock; the callers of a process may run on different event loops, each on
 * its own thread.  The lock is an asyncio lock: a caller that finds it busy queues, which binds the lock
 * to that caller's loop, and a caller of any other loop that finds it busy from then on is turned away
 * with an error.
 */
module ProbeSlots {
  import opened Common

  // The two sections under the lock: taking the slot and giving it back.
  datatype Section = Claim | Free

  datatype Phase =
    | Trying                          // outside the lock, before the slot is taken
    | Queued(what: Section)           // waiting for the lock
    | Entering(what: Section)         // saw the lock free, has not marked it taken yet
    | Inside(what: Section)           // under the lock
    | Cleared                         // under the lock, found the slot free
    | Probing                         // past acquire
    | Done(acquired: bool)            // returned
    | Raised(kept: bool)              // ended by an error; `kept`: with its slot still taken

  datatype Caller = Caller(process: int, loop: int, account: int, phase: Phase)

  datatype Lock = Lock(locked: bool, queue: seq<nat>, bound: Option<int>)
  datatype Process = Process(inFlight: set<int>, lock: Lock)
  datatype Shared = Shared(processes: int -> Process, callers: seq<Caller>)

  const IDLE := Process({}, Lock(false, [], None))
  const START := Shared(p => IDLE, [])

  // Someone is under the lock, or a queued caller has been promised it.
  predicate Busy(l: Lock) { l.locked || l.queue != [] }

  predicate TurnsAway(l: Lock, loop: int) { Busy(l) && l.bound.Some? && l.bound.value != loop }

  // Code without a suspension point; no other caller of the same loop moves meanwhile.
  predicate Runs(p: Phase) { p.Entering? || p.Inside? || p.Cleared? }

  predicate SameLoop(a: Caller, b: Caller) { a.process == b.process && a.loop == b.loop }

  predicate AloneOnLoop(s: Shared, c: nat)
    requires c < |s.callers|
  {
    forall d :: 0 <= d < |s.callers| && d != c && SameLoop(s.callers[d], s.callers[c]) ==> !Runs(s.callers[d].phase)
  }

  predicate CanRun(s: Shared, c: nat) { c < |s.callers| && AloneOnLoop(s, c) }

  // Enter: try for the lock, its own test and mark in one step.  Look: only the test, so that the
  // interpreter can switch threads before the mark.  Proceed: the next step from where the caller is.
  datatype Move =
    | Arrive(process: int, loop: int, account: int)
    | Enter(c: nat)
    | Look(c: nat)
    | Proceed(c: nat, giveUp: bool)
    | Cancel(c: nat)

  function Of(s: Shared, c: nat): Process
    requires c < |s.callers|
  {
    s.processes(s.callers[c].process)
  }

  function With(s: Shared, c: nat, phase: Phase, proc: Process): (r: Shared)
    requires c < |s.callers|
    ensures |r.callers| == |s.callers|
  {
    var p := s.callers[c].process;
    Shared(q => if q == p then proc else s.processes(q), s.callers[c := s.callers[c].(phase := phase)])
  }

  // The section a caller is about to enter.
  function Wanted(p: Phase): Option<Section> {
    match p
    case Trying => Some(Claim)
    case Probing => Some(Free)
    case _ => None
  }

  function Entered(s: Shared, c: nat, what: Section): Shared
    requires c < |s.callers|
  {
    var me, proc := s.callers[c], Of(s, c);
    if !Busy(proc.lock) then With(s, c, Inside(what), proc.(lock := proc.lock.(locked := true)))
    else if TurnsAway(proc.lock, me.loop) then With(s, c, Raised(what == Free), proc)
    else With(s, c, Queued(what), proc.(lock := proc.lock.(queue := proc.lock.queue + [c], bound := Some(me.loop))))
  }

  // Leaving the section releases the lock, which is an error when it is not taken.
  function Exited(s: Shared, c: nat, phase: Phase, inFlight: set<int>, kept: bool): Shared
    requires c < |s.callers|
  {
    var lock := Of(s, c).lock;
    With(s, c, if lock.locked then phase else Raised(kept), Process(inFlight, lock.(locked := false)))
  }

  function Proceeded(s: Shared, c: nat, giveUp: bool): Shared
    requires c < |s.callers|
  {
    var me, proc := s.callers[c], Of(s, c);
    match me.phase
    case Entering(what) => With(s, c, Inside(what), proc.(lock := proc.lock.(locked := true)))
    case Queued(what) =>
      if proc.lock.locked || proc.lock.queue == [] || proc.lock.queue[0] != c then s
      else With(s, c, Inside(what), proc.(lock := proc.lock.(locked := true, queue := proc.lock.queue[1..])))
    case Inside(Claim) =>
      if me.account !in proc.inFlight then With(s, c, Cleared, proc)
      else Exited(s, c, if giveUp then Done(false) else Trying, proc.inFlight, false)
    case Cleared => Exited(s, c, Probing, proc.inFlight + {me.account}, true)
    case Inside(Free) => Exited(s, c, Done(true), proc.inFlight - {me.account}, false)
    case _ => s
  }

  function Without(q: seq<nat>, c: nat): (r: seq<nat>)
    ensures forall d :: d in r <==> d in q && d != c
  {
    if q == [] then []
    else
      assert q == [q[0]] + q[1..];
      if q[0] == c then Without(q[1..], c) else [q[0]] + Without(q[1..], c)
  }

  // A caller can be cancelled where it is suspended; while it probes, cancelling only makes it release.
  function Cancelled(s: Shared, c: nat): Shared
    requires c < |s.callers|
  {
    var proc := Of(s, c);
    match s.callers[c].phase
    case Trying => With(s, c, Raised(false), proc)
    case Queued(what) =>
      With(s, c, Raised(what == Free), proc.(lock := proc.lock.(queue := Without(proc.lock.queue, c))))
    case _ => s
  }

  function Moved(s: Shared, m: Move): Shared {
    match m
    case Arrive(process, loop, account) => s.(callers := s.callers + [Caller(process, loop, account, Trying)])
    case Enter(c) =>
      if !CanRun(s, c) || Wanted(s.callers[c].phase).None? then s
      else Entered(s, c, Wanted(s.callers[c].phase).value)
    case Look(c) =>
      if !CanRun(s, c) || Wanted(s.callers[c].phase).None? || Busy(Of(s, c).lock) then s
      else With(s, c, Entering(Wanted(s.callers[c].phase).value), Of(s, c))
    case Proceed(c, giveUp) => if !CanRun(s, c) then s else Proceeded(s, c, giveUp)
    case Cancel(c) => if !CanRun(s, c) then s else Cancelled(s, c)
  }

  function After(moves: seq<Move>): Shared {
    if moves == [] then START else Moved(After(moves[..|moves| - 1]), moves[|moves| - 1])
  }

  // Who has an account's slot: from acquire to release, or for ever when the release was turned away.
  predicate Owns(x: Caller) {
    x.phase == Probing || x.phase == Queued(Free) || x.phase == Entering(Free) || x.phase == Inside(Free)
    || x.phase == Raised(true)
  }

  predicate Owner(s: Shared, c: nat, p: int, a: int) {
    c < |s.callers| && s.callers[c].process == p && s.callers[c].account == a && Owns(s.callers[c])
  }

  predicate In(s: Shared, c: nat, p: int) { c < |s.callers| && s.callers[c].process == p }

  // No thread switch falls between a lock's test and its mark.
  predicate Unswitched(moves: seq<Move>) { forall k :: 0 <= k < |moves| ==> !moves[k].Look? }

  ghost predicate OneLoop(s: Shared, p: int) {
    forall c: nat, d: nat :: In(s, c, p) && In(s, d, p) ==> s.callers[c].loop == s.callers[d].loop
  }

  ghost predicate NoneEntering(s: Shared, p: int) {
    forall c: nat :: In(s, c, p) ==> !s.callers[c].phase.Entering?
  }

  predicate Runner(s: Shared, c: nat, p: int) { In(s, c, p) && Runs(s.callers[c].phase) }

  predicate UnderLock(s: Shared, c: nat, p: int) {
    In(s, c, p) && (s.callers[c].phase.Inside? || s.callers[c].phase.Cleared?)
  }

  // One caller at a time under the lock of a process, which is marked taken exactly then.
  ghost predicate Serial(s: Shared, p: int) {
    && (forall c: nat, d: nat :: Runner(s, c, p) && Runner(s, d, p) ==> c == d)
    && (s.processes(p).lock.locked <==> exists c: nat :: UnderLock(s, c, p))
  }

  // The set is exactly the accounts whose slot somebody has, each by one caller.
  ghost predicate Owned(s: Shared, p: int) {
    && (forall c: nat, d: nat, a :: Owner(s, c, p, a) && Owner(s, d, p, a) ==> c == d)
    && (forall a :: a in s.processes(p).inFlight <==> exists c: nat :: Owner(s, c, p, a))
    && (forall c: nat :: In(s, c, p) && s.callers[c].phase.Cleared? ==> s.callers[c].account !in s.processes(p).inFlight)
  }

  ghost predicate Exclusive(s: Shared, p: int) { Serial(s, p) && Owned(s, p) }

  // One caller changes phase, and its process with it; everybody else stays.
  lemma WithView(s: Shared, c: nat, phase: Phase, proc: Process, p: int)
    requires c < |s.callers|
    ensures var r := With(s, c, phase, proc);
            && r.processes(p) == (if s.callers[c].process == p then proc else s.processes(p))
            && (forall d: nat :: In(r, d, p) <==> In(s, d, p))
            && (forall d: nat :: d != c ==> (Runner(r, d, p) <==> Runner(s, d, p)) && (UnderLock(r, d, p) <==> UnderLock(s, d, p)))
            && (forall d: nat, a :: d != c ==> (Owner(r, d, p, a) <==> Owner(s, d, p, a)))
            && (Runner(r, c, p) <==> s.callers[c].process == p && Runs(phase))
            && (UnderLock(r, c, p) <==> s.callers[c].process == p && (phase.Inside? || phase.Cleared?))
            && (forall a :: Owner(r, c, p, a) <==> s.callers[c].process == p && s.callers[c].account == a
                                                   && Owns(s.callers[c].(phase := phase)))
  {
  }

  // A change of one caller that keeps the section serial: it enters when nobody runs, leaves, or
  // stays where it was.
  lemma WithKeepsSerial(s: Shared, c: nat, phase: Phase, proc: Process, p: int)
    requires Serial(s, p) && c < |s.callers|
    requires s.callers[c].process == p ==>
      && (Runs(phase) ==> forall d: nat :: d != c ==> !Runner(s, d, p))
      && (proc.lock.locked <==> phase.Inside? || phase.Cleared? || exists d: nat :: d != c && UnderLock(s, d, p))
    ensures Serial(With(s, c, phase, proc), p)
  {
    hide With, Runner, UnderLock, In;
    WithView(s, c, phase, proc, p);
    var r := With(s, c, phase, proc);
    if s.callers[c].process == p {
      if phase.Inside? || phase.Cleared? {
        assert UnderLock(r, c, p);
      }
      if exists d: nat :: d != c && UnderLock(s, d, p) {
        var d: nat :| d != c && UnderLock(s, d, p);
        assert UnderLock(r, d, p);
      }
    } else {
      NotIn(s, c, p);
      assert forall d: nat :: (UnderLock(r, d, p) <==> UnderLock(s, d, p)) && (Runner(r, d, p) <==> Runner(s, d, p));
    }
  }

  lemma NotIn(s: Shared, c: nat, p: int)
    requires c < |s.callers| && s.callers[c].process != p
    ensures !UnderLock(s, c, p) && !Runner(s, c, p) && forall a :: !Owner(s, c, p, a)
  {
  }

  // What a change of phase may do to the set: nothing, the caller's account in, or out.
  ghost predicate Accounted(s: Shared, c: nat, phase: Phase, inFlight: set<int>)
    requires c < |s.callers|
  {
    var me := s.callers[c];
    var before := Of(s, c).inFlight;
    if Owns(me) == Owns(me.(phase := phase)) then
      inFlight == before && (phase.Cleared? ==> me.account !in before)
    else if Owns(me) then inFlight == before - {me.account} && !phase.Cleared?
    else me.account !in before && inFlight == before + {me.account}
         && forall d: nat :: d != c && In(s, d, me.process) ==> !s.callers[d].phase.Cleared?
  }

  ghost predicate OwnedAt(s: Shared, p: int, a: int) {
    && (forall c: nat, d: nat :: Owner(s, c, p, a) && Owner(s, d, p, a) ==> c == d)
    && (a in s.processes(p).inFlight <==> exists c: nat :: Owner(s, c, p, a))
  }

  lemma WithKeepsOwnedAt(s: Shared, c: nat, phase: Phase, proc: Process, p: int, a: int)
    requires OwnedAt(s, p, a) && c < |s.callers|
    requires s.callers[c].process == p ==> Accounted(s, c, phase, proc.inFlight)
    ensures OwnedAt(With(s, c, phase, proc), p, a)
  {
    hide With, Owner, Owns, Runner, UnderLock, In;
    WithView(s, c, phase, proc, p);
    OwnerIs(s, c, p);
    var r, me := With(s, c, phase, proc), s.callers[c];
    if me.process != p || me.account != a || Owns(me) == Owns(me.(phase := phase)) {
      assert forall d: nat :: Owner(r, d, p, a) <==> Owner(s, d, p, a);
    } else if Owns(me) {
      assert Owner(s, c, p, a);
      assert forall d: nat :: !Owner(r, d, p, a);
    } else {
      assert forall d: nat :: !Owner(s, d, p, a);
      assert Owner(r, c, p, a);
    }
  }

  lemma WithKeepsOwned(s: Shared, c: nat, phase: Phase, proc: Process, p: int)
    requires Owned(s, p) && c < |s.callers|
    requires s.callers[c].process == p ==> Accounted(s, c, phase, proc.inFlight)
    ensures Owned(With(s, c, phase, proc), p)
  {
    hide With, Owner;
    var r := With(s, c, phase, proc);
    forall a
      ensures OwnedAt(r, p, a)
    {
      assert OwnedAt(s, p, a);
      WithKeepsOwnedAt(s, c, phase, proc, p, a);
    }
    WithView(s, c, phase, proc, p);
    WithPhases(s, c, phase, proc);
    forall d: nat | In(r, d, p) && r.callers[d].phase.Cleared?
      ensures r.callers[d].account !in r.processes(p).inFlight
    {
      assert In(s, d, p);
    }
    OwnedEverywhere(r, p);
  }

  lemma OwnedEverywhere(s: Shared, p: int)
    requires forall a :: OwnedAt(s, p, a)
    requires forall c: nat :: In(s, c, p) && s.callers[c].phase.Cleared? ==> s.callers[c].account !in s.processes(p).inFlight
    ensures Owned(s, p)
  {
    hide Owner;
    forall c: nat, d: nat, a | Owner(s, c, p, a) && Owner(s, d, p, a)
      ensures c == d
    {
      assert OwnedAt(s, p, a);
    }
    forall a
      ensures a in s.processes(p).inFlight <==> exists c: nat :: Owner(s, c, p, a)
    {
      assert OwnedAt(s, p, a);
    }
  }

  lemma OwnerIs(s: Shared, c: nat, p: int)
    requires c < |s.callers|
    ensures forall a :: Owner(s, c, p, a) <==> s.callers[c].process == p && s.callers[c].account == a && Owns(s.callers[c])
  {
  }

  lemma WithPhases(s: Shared, c: nat, phase: Phase, proc: Process)
    requires c < |s.callers|
    ensures var r := With(s, c, phase, proc);
            r.callers[c] == s.callers[c].(phase := phase) && forall d: nat :: d < |s.callers| && d != c ==> r.callers[d] == s.callers[d]
  {
  }

  // Every move keeps the process exclusive, as long as no thread switch falls between a lock's test and
  // its mark, or the process has one loop only.

  ghost predicate Ordered(s: Shared, p: int) { NoneEntering(s, p) || OneLoop(s, p) }

  lemma NobodyElseRuns(s: Shared, c: nat, p: int)
    requires Serial(s, p) && Ordered(s, p) && CanRun(s, c) && s.callers[c].process == p
    requires Runs(s.callers[c].phase) || !s.processes(p).lock.locked
    ensures forall d: nat :: d != c ==> !Runner(s, d, p)
  {
    forall d: nat | d != c
      ensures !Runner(s, d, p)
    {
      if Runs(s.callers[c].phase) {
        assert Runner(s, c, p);
      } else if NoneEntering(s, p) {
        assert Runner(s, d, p) ==> UnderLock(s, d, p);
      } else {
        assert In(s, d, p) ==> SameLoop(s.callers[d], s.callers[c]);
      }
    }
  }

  lemma OthersUnderLock(s: Shared, c: nat, p: int)
    requires Serial(s, p) && In(s, c, p)
    ensures !UnderLock(s, c, p) ==> (s.processes(p).lock.locked <==> exists d: nat :: d != c && UnderLock(s, d, p))
    ensures Runner(s, c, p) ==> forall d: nat :: d != c ==> !UnderLock(s, d, p) && !Runner(s, d, p)
    ensures UnderLock(s, c, p) ==> s.processes(p).lock.locked
  {
    assert forall d: nat :: UnderLock(s, d, p) ==> Runner(s, d, p);
  }

  lemma WithKeepsExclusive(s: Shared, c: nat, phase: Phase, proc: Process, p: int)
    requires Exclusive(s, p) && c < |s.callers|
    requires s.callers[c].process == p ==>
      && (Runs(phase) ==> forall d: nat :: d != c ==> !Runner(s, d, p))
      && (proc.lock.locked <==> phase.Inside? || phase.Cleared? || exists d: nat :: d != c && UnderLock(s, d, p))
      && Accounted(s, c, phase, proc.inFlight)
    ensures Exclusive(With(s, c, phase, proc), p)
  {
    hide With, Serial, Owned, Runner, UnderLock, Accounted;
    WithKeepsSerial(s, c, phase, proc, p);
    WithKeepsOwned(s, c, phase, proc, p);
  }

  lemma EnteredKeepsExclusive(s: Shared, c: nat, what: Section, p: int)
    requires Exclusive(s, p) && Ordered(s, p) && CanRun(s, c) && Wanted(s.callers[c].phase) == Some(what)
    ensures Exclusive(Entered(s, c, what), p)
  {
    hide With, Serial, Owned, Runner, AloneOnLoop, Ordered;
    var me, proc := s.callers[c], Of(s, c);
    if me.process == p {
      OthersUnderLock(s, c, p);
      if !Busy(proc.lock) { NobodyElseRuns(s, c, p); }
    }
    if !Busy(proc.lock) {
      WithKeepsExclusive(s, c, Inside(what), proc.(lock := proc.lock.(locked := true)), p);
    } else if TurnsAway(proc.lock, me.loop) {
      WithKeepsExclusive(s, c, Raised(what == Free), proc, p);
    } else {
      WithKeepsExclusive(s, c, Queued(what),
        proc.(lock := proc.lock.(queue := proc.lock.queue + [c], bound := Some(me.loop))), p);
    }
  }

  lemma LookedKeepsExclusive(s: Shared, c: nat, what: Section, p: int)
    requires Exclusive(s, p) && Ordered(s, p) && CanRun(s, c) && Wanted(s.callers[c].phase) == Some(what)
    requires !Busy(Of(s, c).lock)
    ensures Exclusive(With(s, c, Entering(what), Of(s, c)), p)
  {
    hide With, Serial, Owned, Runner, AloneOnLoop, Ordered;
    if s.callers[c].process == p {
      OthersUnderLock(s, c, p);
      NobodyElseRuns(s, c, p);
    }
    WithKeepsExclusive(s, c, Entering(what), Of(s, c), p);
  }

  // Nobody else is cleared while somebody runs.
  lemma NobodyElseCleared(s: Shared, c: nat, p: int)
    requires Serial(s, p) && Runner(s, c, p)
    ensures forall d: nat :: d != c && In(s, d, p) ==> !s.callers[d].phase.Cleared?
  {
    forall d: nat | d != c && In(s, d, p)
      ensures !s.callers[d].phase.Cleared?
    {
      assert Runner(s, d, p) <==> Runs(s.callers[d].phase);
    }
  }

  lemma ExitedKeepsExclusive(s: Shared, c: nat, phase: Phase, inFlight: set<int>, kept: bool, p: int)
    requires Exclusive(s, p) && c < |s.callers| && UnderLock(s, c, s.callers[c].process) && !Runs(phase)
    requires s.callers[c].process == p ==> Accounted(s, c, phase, inFlight)
    requires s.callers[c].process != p || s.processes(p).lock.locked
    ensures Exclusive(Exited(s, c, phase, inFlight, kept), p)
  {
    hide With, Serial, Owned, Accounted, Runner;
    var lock := Of(s, c).lock;
    if s.callers[c].process == p {
      RunsUnderLock(s, c, p);
      OthersUnderLock(s, c, p);
    }
    WithKeepsExclusive(s, c, if lock.locked then phase else Raised(kept), Process(inFlight, lock.(locked := false)), p);
  }

  lemma RunsUnderLock(s: Shared, c: nat, p: int)
    requires UnderLock(s, c, p)
    ensures Runner(s, c, p)
  {
  }

  lemma ProceededKeepsExclusive(s: Shared, c: nat, giveUp: bool, p: int)
    requires Exclusive(s, p) && Ordered(s, p) && CanRun(s, c)
    ensures Exclusive(Proceeded(s, c, giveUp), p)
  {
    hide With, Serial, Owned, Runner, AloneOnLoop, Ordered, Exited;
    var me, proc := s.callers[c], Of(s, c);
    if me.process == p {
      OthersUnderLock(s, c, p);
      if Runs(me.phase) {
        RunnerIs(s, c, p);
        NobodyElseCleared(s, c, p);
      }
    }
    match me.phase
    case Entering(what) =>
      WithKeepsExclusive(s, c, Inside(what), proc.(lock := proc.lock.(locked := true)), p);
    case Queued(what) =>
      if !proc.lock.locked && proc.lock.queue != [] && proc.lock.queue[0] == c {
        if me.process == p { NobodyElseRuns(s, c, p); }
        WithKeepsExclusive(s, c, Inside(what), proc.(lock := proc.lock.(locked := true, queue := proc.lock.queue[1..])), p);
      }
    case Inside(Claim) =>
      if me.account !in proc.inFlight {
        WithKeepsExclusive(s, c, Cleared, proc, p);
      } else {
        ExitedKeepsExclusive(s, c, if giveUp then Done(false) else Trying, proc.inFlight, false, p);
      }
    case Cleared =>
      if me.process == p { ClearedIsFree(s, c, p); }
      ExitedKeepsExclusive(s, c, Probing, proc.inFlight + {me.account}, true, p);
    case Inside(Free) => ExitedKeepsExclusive(s, c, Done(true), proc.inFlight - {me.account}, false, p);
    case _ =>
  }

  lemma RunnerIs(s: Shared, c: nat, p: int)
    requires In(s, c, p)
    ensures Runner(s, c, p) <==> Runs(s.callers[c].phase)
  {
  }

  lemma ClearedIsFree(s: Shared, c: nat, p: int)
    requires Owned(s, p) && In(s, c, p) && s.callers[c].phase.Cleared?
    ensures s.callers[c].account !in s.processes(p).inFlight
  {
  }

  lemma CancelledKeepsExclusive(s: Shared, c: nat, p: int)
    requires Exclusive(s, p) && c < |s.callers|
    ensures Exclusive(Cancelled(s, c), p)
  {
    hide With, Serial, Owned, Runner;
    var proc := Of(s, c);
    if s.callers[c].process == p { OthersUnderLock(s, c, p); }
    match s.callers[c].phase
    case Trying => WithKeepsExclusive(s, c, Raised(false), proc, p);
    case Queued(what) =>
      WithKeepsExclusive(s, c, Raised(what == Free), proc.(lock := proc.lock.(queue := Without(proc.lock.queue, c))), p);
    case _ =>
  }

  lemma ArrivedKeepsExclusive(s: Shared, x: Caller, p: int)
    requires Exclusive(s, p) && x.phase == Trying
    ensures Exclusive(s.(callers := s.callers + [x]), p)
  {
    var r := s.(callers := s.callers + [x]);
    assert forall c: nat :: (UnderLock(r, c, p) <==> UnderLock(s, c, p)) && (Runner(r, c, p) <==> Runner(s, c, p));
    assert forall c: nat, a :: Owner(r, c, p, a) <==> Owner(s, c, p, a);
  }

  lemma MoveKeepsExclusive(s: Shared, m: Move, p: int)
    requires Exclusive(s, p) && Ordered(s, p)
    ensures Exclusive(Moved(s, m), p)
  {
    hide With, Exclusive, Ordered, AloneOnLoop, Entered, Proceeded, Cancelled, Busy;
    match m
    case Arrive(process, loop, account) => ArrivedKeepsExclusive(s, Caller(process, loop, account, Trying), p);
    case Enter(c) =>
      if CanRun(s, c) && Wanted(s.callers[c].phase).Some? {
        EnteredKeepsExclusive(s, c, Wanted(s.callers[c].phase).value, p);
      }
    case Look(c) =>
      if CanRun(s, c) && Wanted(s.callers[c].phase).Some? && !Busy(Of(s, c).lock) {
        LookedKeepsExclusive(s, c, Wanted(s.callers[c].phase).value, p);
      }
    case Proceed(c, giveUp) => if CanRun(s, c) { ProceededKeepsExclusive(s, c, giveUp, p); }
    case Cancel(c) => if CanRun(s, c) { CancelledKeepsExclusive(s, c, p); }
  }

  // Whole interleavings

  // Callers keep who they are, and one that ended stays as it ended.
  lemma MoveKeepsCallers(s: Shared, m: Move)
    ensures |s.callers| <= |Moved(s, m).callers|
    ensures forall c: nat :: c < |s.callers| ==>
      && Moved(s, m).callers[c] == s.callers[c].(phase := Moved(s, m).callers[c].phase)
      && (s.callers[c].phase.Raised? || s.callers[c].phase.Done? ==> Moved(s, m).callers[c] == s.callers[c])
  {
    hide AloneOnLoop, Busy, TurnsAway, Without;
  }

  lemma MoveKeepsNoneEntering(s: Shared, m: Move, p: int)
    requires NoneEntering(s, p) && !m.Look?
    ensures NoneEntering(Moved(s, m), p)
  {
    hide AloneOnLoop, Busy, TurnsAway, Without;
  }

  ghost predicate Quiet(moves: seq<Move>, p: int) { Unswitched(moves) || OneLoop(After(moves), p) }

  lemma {:induction false} QuietIsOrdered(moves: seq<Move>, p: int)
    requires Quiet(moves, p)
    ensures Ordered(After(moves), p)
    ensures moves != [] ==> Quiet(moves[..|moves| - 1], p)
  {
    hide Moved, NoneEntering, OneLoop;
    if moves == [] {
      NothingEnters(p);
    } else {
      var front, m := moves[..|moves| - 1], moves[|moves| - 1];
      if Unswitched(moves) {
        QuietIsOrdered(front, p);
        NoneEnteringAfter(moves, p);
      } else {
        OneLoopBefore(After(front), m, p);
      }
    }
  }

  lemma NothingEnters(p: int)
    ensures NoneEntering(START, p) && Exclusive(START, p)
  {
  }

  lemma {:induction false} NoneEnteringAfter(moves: seq<Move>, p: int)
    requires Unswitched(moves)
    ensures NoneEntering(After(moves), p)
  {
    hide Moved, NoneEntering;
    if moves == [] {
      NothingEnters(p);
    } else {
      NoneEnteringAfter(moves[..|moves| - 1], p);
      MoveKeepsNoneEntering(After(moves[..|moves| - 1]), moves[|moves| - 1], p);
    }
  }

  lemma OneLoopBefore(s: Shared, m: Move, p: int)
    requires OneLoop(Moved(s, m), p)
    ensures OneLoop(s, p)
  {
    hide Moved;
    MoveKeepsCallers(s, m);
    var r := Moved(s, m);
    forall c: nat, d: nat | In(s, c, p) && In(s, d, p)
      ensures s.callers[c].loop == s.callers[d].loop
    {
      assert In(r, c, p) && In(r, d, p);
    }
  }

  lemma {:induction false} ProcessIsExclusive(moves: seq<Move>, p: int)
    requires Quiet(moves, p)
    ensures Exclusive(After(moves), p) && Ordered(After(moves), p)
  {
    hide Moved, Exclusive, Ordered, Quiet;
    QuietIsOrdered(moves, p);
    if moves == [] {
      NothingEnters(p);
    } else {
      var front := moves[..|moves| - 1];
      ProcessIsExclusive(front, p);
      MoveKeepsExclusive(After(front), moves[|moves| - 1], p);
    }
  }

  // Two callers have the slot of one account at once only if they belong to different processes, or
  // their process runs several loops and a thread switch fell inside the lock's test.
  lemma ProbeSlotExclusion(moves: seq<Move>, c: nat, d: nat, p: int, q: int, a: int)
    requires c != d && Owner(After(moves), c, p, a) && Owner(After(moves), d, q, a)
    ensures p != q || (!OneLoop(After(moves), p) && !Unswitched(moves))
  {
    hide After, OneLoop, Unswitched, Owner;
    if p == q && Quiet(moves, p) {
      ProcessIsExclusive(moves, p);
      assert false;
    }
  }

  lemma {:induction false} Played(moves: seq<Move>, more: seq<Move>)
    ensures After(moves + more) == Play(After(moves), more)
    decreases |more|
  {
    hide Moved;
    if more == [] {
      assert moves + more == moves;
    } else {
      Played(moves + [more[0]], more[1..]);
      assert moves + [more[0]] + more[1..] == moves + more;
      assert (moves + [more[0]])[..|moves|] == moves;
    }
  }

  function Play(s: Shared, moves: seq<Move>): Shared
    decreases |moves|
  {
    if moves == [] then s else Play(Moved(s, moves[0]), moves[1..])
  }

  // A caller that meets the lock free takes the slot of a free account in three moves.
  lemma TakesSlot(s: Shared, c: nat)
    requires CanRun(s, c) && s.callers[c].phase == Trying && !Busy(Of(s, c).lock)
    requires s.callers[c].account !in Of(s, c).inFlight
    ensures var r := Play(s, [Enter(c), Proceed(c, false), Proceed(c, false)]);
            && |r.callers| == |s.callers| && r.callers[c] == s.callers[c].(phase := Probing)
            && (forall d: nat :: d < |s.callers| && d != c ==> r.callers[d] == s.callers[d])
            && (forall q: int :: q != s.callers[c].process ==> r.processes(q) == s.processes(q))
            && Of(r, c) == Process(Of(s, c).inFlight + {s.callers[c].account}, Of(s, c).lock)
  {
    var s1 := Moved(s, Enter(c));
    var s2 := Moved(s1, Proceed(c, false));
    var s3 := Moved(s2, Proceed(c, false));
    assert s1 == With(s, c, Inside(Claim), Of(s, c).(lock := Of(s, c).lock.(locked := true)));
    assert CanRun(s1, c);
    assert s2 == With(s1, c, Cleared, Of(s1, c));
    assert CanRun(s2, c);
    assert s3.callers[c] == s.callers[c].(phase := Probing);
    var ms := [Enter(c), Proceed(c, false), Proceed(c, false)];
    assert ms[1..] == [Proceed(c, false), Proceed(c, false)] && ms[1..][1..] == [Proceed(c, false)] && ms[1..][1..][1..] == [];
    assert Play(s, ms) == Play(s1, ms[1..]) == Play(s2, ms[1..][1..]) == Play(s3, []) == s3;
  }

  // Between two processes it happens: neither sees the other's set.
  lemma TwoProcessesProbeTogether() returns (moves: seq<Move>)
    ensures Unswitched(moves)
    ensures var s := After(moves);
            Owner(s, 0, 1, 7) && Owner(s, 1, 2, 7) && s.callers[0].phase == Probing == s.callers[1].phase
  {
    hide Moved;
    var both := [Arrive(1, 1, 7), Arrive(2, 2, 7)];
    var first := [Enter(0), Proceed(0, false), Proceed(0, false)];
    var second := [Enter(1), Proceed(1, false), Proceed(1, false)];
    TwoArrive(1, 1, 7, 2, 2, 7);
    Played(both, first);
    TakesSlot(After(both), 0);
    Played(both + first, second);
    TakesSlot(After(both + first), 1);
    moves := both + first + second;
  }

  lemma TwoArrive(p: int, l: int, a: int, p': int, l': int, a': int)
    ensures After([Arrive(p, l, a), Arrive(p', l', a')])
         == Shared(START.processes, [Caller(p, l, a, Trying), Caller(p', l', a', Trying)])
  {
    var ms := [Arrive(p, l, a), Arrive(p', l', a')];
    assert ms[..1][..0] == [] && ms[..1] == [Arrive(p, l, a)];
    assert After(ms[..1]) == Moved(After([]), Arrive(p, l, a));
  }

  // Within one process it happens when a thread switch falls inside the lock's test: both callers see
  // it free, and a third, on its way to another account, has it marked taken when the second one leaves.
  lemma ThreadSwitchSharesSlot() returns (moves: seq<Move>)
    ensures var s := After(moves);
            Owner(s, 0, 1, 7) && Owner(s, 1, 1, 7) && s.callers[0].phase == Probing == s.callers[1].phase
  {
    hide Moved;
    var both := [Arrive(1, 1, 7), Arrive(1, 2, 7)];
    var first := [Arrive(1, 3, 9), Look(0), Enter(1)];
    var second := [Proceed(1, false), Proceed(0, false), Proceed(0, false)];
    var third := [Proceed(1, false), Enter(2), Proceed(0, false)];
    TwoArrive(1, 1, 7, 1, 2, 7);
    Played(both, first);
    PlayThree(After(both), first);
    SwitchInTest(After(both));
    Played(both + first, second);
    PlayThree(After(both + first), second);
    SwitchBothCleared(After(both + first));
    Played(both + first + second, third);
    PlayThree(After(both + first + second), third);
    SwitchBothLeave(After(both + first + second));
    moves := both + first + second + third;
  }

  predicate At(s: Shared, x: Phase, y: Phase, z: Phase, proc: Process) {
    s.callers == [Caller(1, 1, 7, x), Caller(1, 2, 7, y), Caller(1, 3, 9, z)] && s.processes(1) == proc
  }

  lemma SwitchInTest(s: Shared)
    requires s == Shared(START.processes, [Caller(1, 1, 7, Trying), Caller(1, 2, 7, Trying)])
    ensures At(Moved(Moved(Moved(s, Arrive(1, 3, 9)), Look(0)), Enter(1)),
               Entering(Claim), Inside(Claim), Trying, Process({}, Lock(true, [], None)))
  {
    var s1 := Moved(s, Arrive(1, 3, 9));
    assert At(s1, Trying, Trying, Trying, IDLE);
    var s2 := Moved(s1, Look(0));
    assert At(s2, Entering(Claim), Trying, Trying, IDLE);
  }

  lemma SwitchBothCleared(s: Shared)
    requires At(s, Entering(Claim), Inside(Claim), Trying, Process({}, Lock(true, [], None)))
    ensures At(Moved(Moved(Moved(s, Proceed(1, false)), Proceed(0, false)), Proceed(0, false)),
               Cleared, Cleared, Trying, Process({}, Lock(true, [], None)))
  {
    var s1 := Moved(s, Proceed(1, false));
    assert At(s1, Entering(Claim), Cleared, Trying, Process({}, Lock(true, [], None)));
    var s2 := Moved(s1, Proceed(0, false));
    assert At(s2, Inside(Claim), Cleared, Trying, Process({}, Lock(true, [], None)));
  }

  lemma SwitchBothLeave(s: Shared)
    requires At(s, Cleared, Cleared, Trying, Process({}, Lock(true, [], None)))
    ensures At(Moved(Moved(Moved(s, Proceed(1, false)), Enter(2)), Proceed(0, false)),
               Probing, Probing, Inside(Claim), Process({7}, Lock(false, [], None)))
  {
    var s1 := Moved(s, Proceed(1, false));
    assert At(s1, Cleared, Probing, Trying, Process({7}, Lock(false, [], None)));
    var s2 := Moved(s1, Enter(2));
    assert At(s2, Cleared, Probing, Inside(Claim), Process({7}, Lock(true, [], None)));
  }

  lemma PlayStep(s: Shared, moves: seq<Move>)
    requires moves != []
    ensures Play(s, moves) == Play(Moved(s, moves[0]), moves[1..])
  {
  }

  lemma PlayThree(s: Shared, ms: seq<Move>)
    requires |ms| == 3
    ensures Play(s, ms) == Moved(Moved(Moved(s, ms[0]), ms[1]), ms[2])
  {
    hide Moved;
    PlayStep(s, ms);
    PlayStep(Moved(s, ms[0]), ms[1..]);
    PlayStep(Moved(Moved(s, ms[0]), ms[1]), ms[1..][1..]);
  }

  // Callers of one loop

  predicate HasSlotInHand(x: Caller) { x.phase == Probing || x.phase == Entering(Free) || x.phase == Inside(Free) }

  // Nobody of the process waits for its lock, and nobody lost a release.
  ghost predicate Undisturbed(s: Shared, p: int) {
    && s.processes(p).lock.queue == []
    && forall c: nat :: In(s, c, p) ==> !s.callers[c].phase.Queued? && s.callers[c].phase != Raised(true)
  }

  lemma FreeForOneLoop(s: Shared, c: nat, p: int)
    requires Serial(s, p) && OneLoop(s, p) && Undisturbed(s, p) && CanRun(s, c) && In(s, c, p)
    requires !Runs(s.callers[c].phase)
    ensures !Busy(s.processes(p).lock)
  {
    forall d: nat
      ensures !UnderLock(s, d, p)
    {
      if In(s, d, p) { assert SameLoop(s.callers[d], s.callers[c]); }
    }
  }

  lemma MoveKeepsUndisturbed(s: Shared, m: Move, p: int)
    requires Exclusive(s, p) && OneLoop(s, p) && Undisturbed(s, p)
    ensures Undisturbed(Moved(s, m), p)
  {
    hide AloneOnLoop, Owned, TurnsAway, Without, Serial, OneLoop;
    if !m.Arrive? && m.c < |s.callers| && s.callers[m.c].process == p && CanRun(s, m.c) {
      if Runs(s.callers[m.c].phase) {
        RunnerIs(s, m.c, p);
        OthersUnderLock(s, m.c, p);
      } else {
        FreeForOneLoop(s, m.c, p);
      }
    }
  }

  lemma {:induction false} OneLoopIsUndisturbed(moves: seq<Move>, p: int)
    requires OneLoop(After(moves), p)
    ensures Undisturbed(After(moves), p)
  {
    hide Moved, Exclusive, OneLoop, Undisturbed, Ordered;
    if moves == [] {
      NothingWaits(p);
    } else {
      var front, m := moves[..|moves| - 1], moves[|moves| - 1];
      OneLoopBefore(After(front), m, p);
      OneLoopIsUndisturbed(front, p);
      ProcessIsExclusive(front, p);
      MoveKeepsUndisturbed(After(front), m, p);
    }
  }

  lemma NothingWaits(p: int)
    ensures Undisturbed(START, p)
  {
  }

  // When all callers of a process share a loop, whatever they do and wherever they are cancelled, its
  // slots are exactly those of the callers past acquire that have not released yet, one each.
  lemma OneLoopSlots(moves: seq<Move>, p: int, a: int)
    requires OneLoop(After(moves), p)
    ensures a in After(moves).processes(p).inFlight
       <==> exists c: nat :: In(After(moves), c, p) && After(moves).callers[c].account == a && HasSlotInHand(After(moves).callers[c])
    ensures forall c: nat, d: nat :: Owner(After(moves), c, p, a) && Owner(After(moves), d, p, a) ==> c == d
  {
    hide After;
    var s := After(moves);
    OneLoopIsUndisturbed(moves, p);
    ProcessIsExclusive(moves, p);
    forall c: nat
      ensures Owner(s, c, p, a) <==> In(s, c, p) && s.callers[c].account == a && HasSlotInHand(s.callers[c])
    {
    }
  }

  // A call that ended leaves its account's slot free, unless a caller past acquire has it.
  lemma FinishedCallsLeaveSlotFree(moves: seq<Move>, p: int, a: int)
    requires OneLoop(After(moves), p)
    requires forall c: nat :: In(After(moves), c, p) && After(moves).callers[c].account == a ==>
               After(moves).callers[c].phase.Done? || After(moves).callers[c].phase.Raised?
    ensures a !in After(moves).processes(p).inFlight
  {
    hide After;
    OneLoopSlots(moves, p, a);
  }

  // A slot leaves a set only by its own owner's move, whatever the loops and wherever threads switch.
  lemma OnlyTheHolderFrees(s: Shared, m: Move, p: int, a: int)
    requires a in s.processes(p).inFlight && a !in Moved(s, m).processes(p).inFlight
    ensures m.Proceed? && Owner(s, m.c, p, a) && s.callers[m.c].phase == Inside(Free)
  {
    hide AloneOnLoop, Without;
  }

  // Who turns a caller away: somebody of its process on another loop, under the lock or promised it.

  ghost predicate QueueOk(s: Shared, p: int) {
    var l := s.processes(p).lock;
    && (forall i, j :: 0 <= i < j < |l.queue| ==> l.queue[i] != l.queue[j])
    && forall c :: c in l.queue ==> In(s, c, p) && s.callers[c].phase.Queued? && l.bound == Some(s.callers[c].loop)
  }

  lemma WithoutKeepsDistinct(q: seq<nat>, c: nat)
    requires forall i, j :: 0 <= i < j < |q| ==> q[i] != q[j]
    ensures forall i, j :: 0 <= i < j < |Without(q, c)| ==> Without(q, c)[i] != Without(q, c)[j]
  {
    if q != [] {
      WithoutKeepsDistinct(q[1..], c);
      assert q[0] !in Without(q[1..], c);
      if q[0] != c { assert Without(q, c) == [q[0]] + Without(q[1..], c); }
    }
  }

  lemma WithKeepsQueueOk(s: Shared, c: nat, phase: Phase, proc: Process, p: int)
    requires QueueOk(s, p) && c < |s.callers|
    requires s.callers[c].process == p ==>
      var q, q' := s.processes(p).lock.queue, proc.lock.queue;
      && (forall i, j :: 0 <= i < j < |q'| ==> q'[i] != q'[j])
      && (forall d :: d in q' ==> d == c || d in q)
      && (c in q' ==> phase.Queued? && proc.lock.bound == Some(s.callers[c].loop))
      && (proc.lock.bound == s.processes(p).lock.bound || q == [])
    ensures QueueOk(With(s, c, phase, proc), p)
  {
    hide Without;
    WithPhases(s, c, phase, proc);
    if s.callers[c].process != p {
      assert c !in s.processes(p).lock.queue;
    }
  }

  lemma MoveKeepsQueueOk(s: Shared, m: Move, p: int)
    requires QueueOk(s, p)
    ensures QueueOk(Moved(s, m), p)
  {
    hide With, AloneOnLoop, Without, QueueOk;
    if m.Arrive? {
      ArrivalKeepsQueueOk(s, m, p);
    } else if CanRun(s, m.c) && Moved(s, m) != s {
      ChangeKeepsQueueOk(s, m, p);
    }
  }

  lemma ArrivalKeepsQueueOk(s: Shared, m: Move, p: int)
    requires QueueOk(s, p) && m.Arrive?
    ensures QueueOk(Moved(s, m), p)
  {
  }

  lemma ChangeKeepsQueueOk(s: Shared, m: Move, p: int)
    requires QueueOk(s, p) && !m.Arrive? && CanRun(s, m.c)
    ensures QueueOk(Moved(s, m), p)
  {
    hide With, AloneOnLoop, Without;
    var c, me, proc := m.c, s.callers[m.c], Of(s, m.c);
    var q := proc.lock.queue;
    if me.process == p {
      assert c in q ==> me.phase.Queued?;
      WithoutKeepsDistinct(q, c);
    }
    match m
    case Enter(_) =>
      if Wanted(me.phase).Some? {
        var what := Wanted(me.phase).value;
        if !Busy(proc.lock) {
          WithKeepsQueueOk(s, c, Inside(what), proc.(lock := proc.lock.(locked := true)), p);
        } else if TurnsAway(proc.lock, me.loop) {
          WithKeepsQueueOk(s, c, Raised(what == Free), proc, p);
        } else {
          if me.process == p { assert q != [] ==> q[0] in q; }
          WithKeepsQueueOk(s, c, Queued(what), proc.(lock := proc.lock.(queue := q + [c], bound := Some(me.loop))), p);
        }
      }
    case Look(_) =>
      if Wanted(me.phase).Some? && !Busy(proc.lock) {
        WithKeepsQueueOk(s, c, Entering(Wanted(me.phase).value), proc, p);
      }
    case Proceed(_, giveUp) => ProceedKeepsQueueOk(s, c, giveUp, p);
    case Cancel(_) =>
      if me.phase == Trying {
        WithKeepsQueueOk(s, c, Raised(false), proc, p);
      } else if me.phase.Queued? {
        WithKeepsQueueOk(s, c, Raised(me.phase.what == Free), proc.(lock := proc.lock.(queue := Without(q, c))), p);
      }
  }

  lemma ProceedKeepsQueueOk(s: Shared, c: nat, giveUp: bool, p: int)
    requires QueueOk(s, p) && c < |s.callers|
    ensures QueueOk(Proceeded(s, c, giveUp), p)
  {
    hide With, Without;
    var me, proc := s.callers[c], Of(s, c);
    var lock := proc.lock;
    if me.process == p {
      assert c in lock.queue ==> me.phase.Queued?;
    }
    match me.phase
    case Entering(what) => WithKeepsQueueOk(s, c, Inside(what), proc.(lock := lock.(locked := true)), p);
    case Queued(what) =>
      if !lock.locked && lock.queue != [] && lock.queue[0] == c {
        WithKeepsQueueOk(s, c, Inside(what), proc.(lock := lock.(locked := true, queue := lock.queue[1..])), p);
      }
    case Inside(Claim) =>
      if me.account !in proc.inFlight {
        WithKeepsQueueOk(s, c, Cleared, proc, p);
      } else {
        WithKeepsQueueOk(s, c, if !lock.locked then Raised(false) else if giveUp then Done(false) else Trying,
                         Process(proc.inFlight, lock.(locked := false)), p);
      }
    case Cleared =>
      WithKeepsQueueOk(s, c, if lock.locked then Probing else Raised(true),
                       Process(proc.inFlight + {me.account}, lock.(locked := false)), p);
    case Inside(Free) =>
      WithKeepsQueueOk(s, c, if lock.locked then Done(true) else Raised(false),
                       Process(proc.inFlight - {me.account}, lock.(locked := false)), p);
    case _ =>
  }

  lemma {:induction false} QueueIsOk(moves: seq<Move>, p: int)
    ensures QueueOk(After(moves), p)
  {
    hide Moved;
    if moves != [] {
      QueueIsOk(moves[..|moves| - 1], p);
      MoveKeepsQueueOk(After(moves[..|moves| - 1]), moves[|moves| - 1], p);
    }
  }

  lemma TurnedAwayByOtherLoop(moves: seq<Move>, c: nat)
    requires Unswitched(moves) && CanRun(After(moves), c) && !Runs(After(moves).callers[c].phase)
    requires TurnsAway(Of(After(moves), c).lock, After(moves).callers[c].loop)
    ensures var s := After(moves);
            exists d: nat :: In(s, d, s.callers[c].process) && s.callers[d].loop != s.callers[c].loop
                             && (UnderLock(s, d, s.callers[c].process) || s.callers[d].phase.Queued?)
  {
    hide After, Owned, Unswitched;
    var s, p := After(moves), After(moves).callers[c].process;
    QueueIsOk(moves, p);
    ProcessIsExclusive(moves, p);
    var l := s.processes(p).lock;
    if l.queue != [] {
      var d := l.queue[0];
      assert d in l.queue;
    } else {
      var d: nat :| UnderLock(s, d, p);
      assert !SameLoop(s.callers[d], s.callers[c]);
    }
  }

  // Slots left taken

  // A release that is turned away by a lock bound to another loop, or cancelled while it waits for one.
  predicate Abandons(s: Shared, m: Move, c: nat) {
    && CanRun(s, c)
    && ((m == Enter(c) && s.callers[c].phase == Probing && TurnsAway(Of(s, c).lock, s.callers[c].loop))
        || (m == Cancel(c) && s.callers[c].phase == Queued(Free)))
  }

  ghost predicate AbandonsAt(moves: seq<Move>, k: nat, c: nat) {
    k < |moves| && Abandons(After(moves[..k]), moves[k], c)
  }

  ghost predicate Abandoned(moves: seq<Move>, c: nat) { exists k: nat :: AbandonsAt(moves, k, c) }

  lemma AbandonedSnoc(moves: seq<Move>, c: nat)
    requires moves != []
    ensures var front := moves[..|moves| - 1];
            Abandoned(moves, c) <==> Abandoned(front, c) || Abandons(After(front), moves[|moves| - 1], c)
  {
    hide After, Abandons;
    var front := moves[..|moves| - 1];
    forall k: nat
      ensures k < |front| ==> (AbandonsAt(moves, k, c) <==> AbandonsAt(front, k, c))
    {
      if k < |front| { assert moves[..k] == front[..k]; }
    }
    assert AbandonsAt(moves, |front|, c) <==> Abandons(After(front), moves[|moves| - 1], c);
    if Abandoned(front, c) {
      var k: nat :| AbandonsAt(front, k, c);
      assert AbandonsAt(moves, k, c);
    }
    if Abandoned(moves, c) {
      var k: nat :| AbandonsAt(moves, k, c);
      assert k < |front| || k == |front|;
    }
  }

  lemma MoveAbandonsIff(s: Shared, m: Move, c: nat)
    requires c < |s.callers| && Exclusive(s, s.callers[c].process) && !s.callers[c].phase.Entering?
    ensures Moved(s, m).callers[c].phase == Raised(true) <==> s.callers[c].phase == Raised(true) || Abandons(s, m, c)
  {
    hide AloneOnLoop, Owned, Without;
    var p := s.callers[c].process;
    assert UnderLock(s, c, p) ==> s.processes(p).lock.locked;
  }

  // Without a thread switch inside the lock's test, a call ends with its slot still taken exactly when
  // its release was turned away or cancelled in the queue.
  lemma {:induction false} AbandonedIff(moves: seq<Move>, c: nat)
    requires Unswitched(moves) && c < |After(moves).callers|
    ensures After(moves).callers[c].phase == Raised(true) <==> Abandoned(moves, c)
  {
    hide Moved, Exclusive, Abandons, Ordered, Abandoned, NoneEntering;
    if moves != [] {
      var front, m := moves[..|moves| - 1], moves[|moves| - 1];
      var s := After(front);
      AbandonedSnoc(moves, c);
      if c < |s.callers| {
        AbandonedIff(front, c);
        ProcessIsExclusive(front, s.callers[c].process);
        NoneEnteringAfter(front, s.callers[c].process);
        NotEntering(s, c);
        MoveAbandonsIff(s, m, c);
      } else {
        NewCallersTry(s, m, c);
        NotAbandonedYet(front, c);
      }
    }
  }

  lemma NotEntering(s: Shared, c: nat)
    requires c < |s.callers| && NoneEntering(s, s.callers[c].process)
    ensures !s.callers[c].phase.Entering?
  {
    assert In(s, c, s.callers[c].process);
  }

  lemma NewCallersTry(s: Shared, m: Move, c: nat)
    requires |s.callers| <= c < |Moved(s, m).callers|
    ensures Moved(s, m).callers[c].phase == Trying && !Abandons(s, m, c)
  {
    hide AloneOnLoop, Busy, TurnsAway, Without;
  }

  lemma NotAbandonedYet(moves: seq<Move>, c: nat)
    requires |After(moves).callers| <= c
    ensures !Abandoned(moves, c)
  {
    hide After;
    forall k: nat
      ensures !AbandonsAt(moves, k, c)
    {
      if k < |moves| { CallersGrow(moves, k); }
    }
  }

  lemma {:induction false} CallersGrow(moves: seq<Move>, k: nat)
    requires k <= |moves|
    ensures |After(moves[..k]).callers| <= |After(moves).callers|
  {
    hide Moved;
    if k == |moves| {
      assert moves[..k] == moves;
    } else {
      var front := moves[..|moves| - 1];
      CallersGrow(front, k);
      assert front[..k] == moves[..k];
      MoveKeepsCallers(After(front), moves[|moves| - 1]);
    }
  }

  // So a call that ended leaves its account's slot taken, when nobody else has it, exactly then.
  lemma FinishedCallKeepsSlotIff(moves: seq<Move>, c: nat)
    requires Unswitched(moves) && c < |After(moves).callers|
    requires After(moves).callers[c].phase.Done? || After(moves).callers[c].phase.Raised?
    requires var x := After(moves).callers[c];
             forall d: nat :: d != c ==> !Owner(After(moves), d, x.process, x.account)
    ensures After(moves).callers[c].account in Of(After(moves), c).inFlight
       <==> Abandoned(moves, c)
  {
    hide After, Abandoned, Unswitched;
    var s, x := After(moves), After(moves).callers[c];
    AbandonedIff(moves, c);
    ProcessIsExclusive(moves, x.process);
    assert Owner(s, c, x.process, x.account) <==> x.phase == Raised(true);
  }

  // Nothing ever frees such a slot, and nobody of the process takes it again.
  lemma AbandonedForGood(moves: seq<Move>, more: seq<Move>, c: nat)
    requires Unswitched(moves + more) && c < |After(moves).callers| && After(moves).callers[c].phase == Raised(true)
    ensures var s, x := After(moves + more), After(moves).callers[c];
            && c < |s.callers| && s.callers[c] == x && x.account in s.processes(x.process).inFlight
            && forall d: nat :: d != c ==> !Owner(s, d, x.process, x.account)
  {
    hide After, Unswitched;
    var s, x := After(moves + more), After(moves).callers[c];
    EndedStays(moves, more, c);
    ProcessIsExclusive(moves + more, x.process);
    assert Owner(s, c, x.process, x.account);
  }

  lemma {:induction false} EndedStays(moves: seq<Move>, more: seq<Move>, c: nat)
    requires c < |After(moves).callers| && After(moves).callers[c].phase.Raised?
    ensures c < |After(moves + more).callers| && After(moves + more).callers[c] == After(moves).callers[c]
  {
    hide Moved;
    if more == [] {
      assert moves + more == moves;
    } else {
      var front := more[..|more| - 1];
      EndedStays(moves, front, c);
      assert (moves + more)[..|moves + more| - 1] == moves + front;
      MoveKeepsCallers(After(moves + front), more[|more| - 1]);
    }
  }

  // Two checks in flight on two loops of one process: the first meets the lock while the second is
  // under it and an earlier meeting has bound it to the second's loop.
  lemma ForeignLockAbandonsSlot() returns (moves: seq<Move>)
    ensures Unswitched(moves)
    ensures var s := After(moves);
            |s.callers| == 2 && s.callers[0] == Caller(1, 1, 7, Raised(true)) && s.processes(1).inFlight == {7}
  {
    hide Moved;
    var both := [Arrive(1, 1, 7), Arrive(1, 2, 8)];
    var first, second := [Enter(0), Enter(1), Proceed(0, false)], [Proceed(0, false), Proceed(1, false), Enter(0)];
    TwoArrive(1, 1, 7, 1, 2, 8);
    Played(both, first);
    Played(both + first, second);
    PlayThree(After(both), first);
    PlayThree(After(both + first), second);
    ForeignSteps(After(both));
    moves := both + first + second;
  }

  lemma ForeignSteps(s: Shared)
    requires s == Shared(START.processes, [Caller(1, 1, 7, Trying), Caller(1, 2, 8, Trying)])
    ensures var r := Moved(Moved(Moved(Moved(Moved(Moved(s, Enter(0)), Enter(1)), Proceed(0, false)), Proceed(0, false)),
                                 Proceed(1, false)), Enter(0));
            |r.callers| == 2 && r.callers[0] == Caller(1, 1, 7, Raised(true)) && r.processes(1).inFlight == {7}
  {
    var x, y := Caller(1, 1, 7, Trying), Caller(1, 2, 8, Trying);
    var s1 := Moved(s, Enter(0));
    assert s1.callers == [x.(phase := Inside(Claim)), y] && s1.processes(1) == Process({}, Lock(true, [], None));
    var s2 := Moved(s1, Enter(1));
    assert s2.callers == [x.(phase := Inside(Claim)), y.(phase := Queued(Claim))]
        && s2.processes(1) == Process({}, Lock(true, [1], Some(2)));
    var s3 := Moved(s2, Proceed(0, false));
    assert s3.callers == [x.(phase := Cleared), y.(phase := Queued(Claim))] && s3.processes(1) == s2.processes(1);
    var s4 := Moved(s3, Proceed(0, false));
    assert s4.callers == [x.(phase := Probing), y.(phase := Queued(Claim))]
        && s4.processes(1) == Process({7}, Lock(false, [1], Some(2)));
    var s5 := Moved(s4, Proceed(1, false));
    assert s5.callers == [x.(phase := Probing), y.(phase := Inside(Claim))]
        && s5.processes(1) == Process({7}, Lock(true, [], Some(2)));
  }
}
