/**
 * Per-account pacing (src/clients/rate_limiter.py).  Times are real seconds.  A wait holds the
 * account's lock, the record calls do not: they may run while a wait sleeps.
 */
module RateLimiter {
  import opened Common

  datatype Limits = Limits(minDelay: real, maxDelay: real, randomize: bool)

  predicate ValidLimits(l: Limits) { 0.0 < l.minDelay <= l.maxDelay }

  // The fields of an account's state, as a value.
  datatype Rate = Rate(
    lastAction: Option<real>,
    actionCount: int,
    errorCount: int,
    floodUntil: Option<real>,
    dailyReset: Option<real>)

  const NEW_RATE := Rate(None, 0, 0, None, None)

  datatype Record = Success | Error | FloodWait(now: real, seconds: int)

  function Recorded(s: Rate, e: Record): Rate {
    match e
    case Success => s.(errorCount := Max(0, s.errorCount - 1))
    case Error => s.(errorCount := s.errorCount + 1)
    case FloodWait(now, seconds) => s.(floodUntil := Some(now + seconds as real), errorCount := s.errorCount + 2)
  }

  function RecordedAll(s: Rate, events: seq<Record>): Rate
    decreases |events|
  {
    if events == [] then s else RecordedAll(Recorded(s, events[0]), events[1..])
  }

  // Everything a wait does not decide itself: its clock readings, its random draws and the record
  // calls that run during its two sleeps.
  datatype Surroundings = Surroundings(
    enter: real,        // flood check
    measured: real,     // length of the flood sleep computed
    awake: real,        // daily check, after the flood sleep if there was one
    resetAt: real,      // daily counters reset
    since: real,        // time since the last action measured
    done: real,         // action time recorded
    base: real,
    variance: real,
    duringFlood: seq<Record>,
    duringDelay: seq<Record>)

  const DAY := 86400.0

  predicate InFlood(s: Rate, now: real) { s.floodUntil.Some? && now < s.floodUntil.value }

  function AfterFlood(s: Rate, o: Surroundings): Rate {
    if InFlood(s, o.enter) then RecordedAll(s, o.duringFlood).(floodUntil := None) else s
  }

  function AfterDaily(s: Rate, o: Surroundings): Rate {
    if s.dailyReset.None? || o.awake - s.dailyReset.value >= DAY
    then s.(actionCount := 0, errorCount := 0, dailyReset := Some(o.resetAt))
    else s
  }

  function ErrorFactor(s: Rate): real {
    if s.errorCount > 0 then MinReal(3.0, 1.0 + s.errorCount as real * 0.5) else 1.0
  }

  function ActionFactor(s: Rate): real {
    if s.actionCount > 50 then MinReal(2.0, 1.0 + s.actionCount as real / 100.0) else 1.0
  }

  function MinReal(a: real, b: real): real { if b < a then b else a }

  function Times(a: real, b: real): real { a * b }

  function BaseDelay(s: Rate, base: real): real { Times(Times(base, ErrorFactor(s)), ActionFactor(s)) }

  // The wait computed for a state past its flood and daily steps; a first action counts as if
  // maxDelay had already passed.
  function Missing(l: Limits, s: Rate, o: Surroundings): real {
    BaseDelay(s, o.base) - (if s.lastAction.Some? then o.since - s.lastAction.value else l.maxDelay)
  }

  function Delay(l: Limits, s: Rate, o: Surroundings): real {
    var missing := Missing(l, s, o);
    if missing <= 0.0 then 0.0
    else if l.randomize then Times(missing, 1.0 + o.variance)
    else missing
  }

  function Prepared(s: Rate, o: Surroundings): Rate { AfterDaily(AfterFlood(s, o), o) }

  // The state a wait leaves behind.
  function Waited(l: Limits, s: Rate, o: Surroundings): Rate {
    var p := Prepared(s, o);
    var q := if Missing(l, p, o) > 0.0 then RecordedAll(p, o.duringDelay) else p;
    q.(lastAction := Some(o.done), actionCount := q.actionCount + 1)
  }

  // Clocks do not run backwards, sleeps last at least as long as asked for, draws stay in range.
  predicate Plausible(l: Limits, s: Rate, o: Surroundings) {
    && o.enter <= o.measured <= o.awake <= o.resetAt <= o.since <= o.done
    && (InFlood(s, o.enter) ==> s.floodUntil.value <= o.awake)
    && o.since + Delay(l, Prepared(s, o), o) <= o.done
    && l.minDelay <= o.base <= l.maxDelay
    && -0.2 <= o.variance <= 0.3
    && (s.lastAction.Some? ==> s.lastAction.value <= o.enter)
  }

  class AccountRateState {
    var lastAction: Option<real>
    var actionCount: int
    var errorCount: int
    var floodUntil: Option<real>
    var dailyReset: Option<real>

    function Value(): Rate reads this { Rate(lastAction, actionCount, errorCount, floodUntil, dailyReset) }

    constructor ()
      ensures Value() == NEW_RATE
    { lastAction, actionCount, errorCount, floodUntil, dailyReset := None, 0, 0, None, None; }

    method Record(e: Record)
      modifies this
      ensures Value() == Recorded(old(Value()), e)
    {
      match e
      case Success => errorCount := Max(0, errorCount - 1);
      case Error => errorCount := errorCount + 1;
      case FloodWait(now, seconds) =>
        floodUntil := Some(now + seconds as real);
        errorCount := errorCount + 2;
    }

    // The record calls that run while a wait is asleep.
    method Asleep(events: seq<Record>)
      modifies this
      ensures Value() == RecordedAll(old(Value()), events)
    {
      for k := 0 to |events|
        invariant RecordedAll(Value(), events[k..]) == RecordedAll(old(Value()), events)
      {
        Record(events[k]);
        assert events[k..][1..] == events[k + 1..];
      }
    }

    method ResetDaily(now: real)
      modifies this
      ensures Value() == old(Value()).(actionCount := 0, errorCount := 0, dailyReset := Some(now))
    { actionCount, errorCount, dailyReset := 0, 0, Some(now); }

    method CalculateDelay(draw: real) returns (base: real)
      ensures base == BaseDelay(Value(), draw)
    {
      base := draw;
      if errorCount > 0 { base := base * MinReal(3.0, 1.0 + errorCount as real * 0.5); }
      if actionCount > 50 { base := base * MinReal(2.0, 1.0 + actionCount as real / 100.0); }
    }

    method Wait(l: Limits, o: Surroundings) returns (actual: real)
      modifies this
      ensures Value() == Waited(l, old(Value()), o)
      ensures actual == Delay(l, Prepared(old(Value()), o), o)
    {
      hide BaseDelay, RecordedAll;
      if floodUntil.Some? && o.enter < floodUntil.value {
        Asleep(o.duringFlood);
        floodUntil := None;
      }
      if dailyReset.None? || o.awake - dailyReset.value >= DAY { ResetDaily(o.resetAt); }
      var elapsed := if lastAction.Some? then o.since - lastAction.value else l.maxDelay;
      var base := CalculateDelay(o.base);
      actual := if base - elapsed > 0.0 then base - elapsed else 0.0;
      if actual > 0.0 {
        if l.randomize { actual := actual * (1.0 + o.variance); }
        Asleep(o.duringDelay);
      }
      lastAction := Some(o.done);
      actionCount := actionCount + 1;
    }
  }

  // Bounds on one wait

  lemma Scale(a: real, b: real, f: real, g: real)
    requires 0.0 <= a <= b && 0.0 <= f <= g
    ensures 0.0 <= a * f <= b * g
  {
    assert a * f <= b * f;
    assert b * f <= b * g;
  }

  lemma ScaleWithin(least: real, value: real, most: real, factor: real, limit: real)
    requires 0.0 <= least <= value <= most && 1.0 <= factor <= limit
    ensures least <= Times(least, factor) <= Times(value, factor) <= Times(most, limit)
  {
    Scale(least, least, 1.0, factor);
    Scale(least, value, factor, factor);
    Scale(value, most, factor, limit);
  }

  lemma TwoFactors(least: real, value: real, most: real, e: real, f: real)
    requires 0.0 <= least <= value <= most && 1.0 <= e <= 3.0 && 1.0 <= f <= 2.0
    ensures least <= Times(Times(least, e), f) <= Times(Times(value, e), f) <= Times(Times(most, 3.0), 2.0)
  {
    hide Times;
    ScaleWithin(least, value, most, e, 3.0);
    ScaleWithin(Times(least, e), Times(value, e), Times(most, 3.0), f, 2.0);
  }

  lemma SixTimes(x: real)
    ensures Times(Times(x, 3.0), 2.0) == 6.0 * x
  {
  }

  // What a drawn delay is stretched by: half again for each error, up to three times; by one percent an
  // action beyond fifty actions, up to twice.
  lemma StretchTable(s: Rate, base: real)
    ensures var e := if s.errorCount <= 0 then 1.0 else if s.errorCount >= 4 then 3.0
                     else if s.errorCount == 1 then 1.5 else if s.errorCount == 2 then 2.0 else 2.5;
            var a := if s.actionCount <= 50 then 1.0 else if s.actionCount >= 100 then 2.0
                     else 1.0 + s.actionCount as real / 100.0;
            BaseDelay(s, base) == base * e * a
  {
  }

  // The least delay a state can be given.
  function LeastDelay(l: Limits, s: Rate): real { BaseDelay(s, l.minDelay) }

  lemma FactorBounds(s: Rate)
    ensures 1.0 <= ErrorFactor(s) <= 3.0 && 1.0 <= ActionFactor(s) <= 2.0
  {
  }

  lemma BaseDelayBounds(l: Limits, s: Rate, base: real)
    requires ValidLimits(l) && l.minDelay <= base <= l.maxDelay
    ensures l.minDelay <= LeastDelay(l, s) <= BaseDelay(s, base) <= 6.0 * l.maxDelay
  {
    hide ErrorFactor, ActionFactor, Times;
    FactorBounds(s);
    TwoFactors(l.minDelay, base, l.maxDelay, ErrorFactor(s), ActionFactor(s));
    SixTimes(l.maxDelay);
  }

  lemma {:induction false} RecordsKeep(s: Rate, events: seq<Record>)
    ensures RecordedAll(s, events).lastAction == s.lastAction
    ensures RecordedAll(s, events).actionCount == s.actionCount
    ensures RecordedAll(s, events).dailyReset == s.dailyReset
    ensures s.errorCount >= 0 ==> RecordedAll(s, events).errorCount >= 0
    ensures (forall e :: e in events ==> !e.FloodWait?) ==> RecordedAll(s, events).floodUntil == s.floodUntil
    decreases |events|
  {
    if events != [] { RecordsKeep(Recorded(s, events[0]), events[1..]); }
  }

  lemma PreparedKeeps(s: Rate, o: Surroundings)
    ensures Prepared(s, o).lastAction == s.lastAction
    ensures Prepared(s, o).floodUntil == if InFlood(s, o.enter) then None else s.floodUntil
    ensures s.errorCount >= 0 ==> Prepared(s, o).errorCount >= 0
  {
    RecordsKeep(s, o.duringFlood);
  }

  // Jitter takes at most a fifth off what is missing and adds at most three tenths.
  lemma JitterBounds(l: Limits, s: Rate, o: Surroundings)
    requires -0.2 <= o.variance <= 0.3 && Missing(l, s, o) > 0.0
    ensures 0.0 < Lowered(l, Missing(l, s, o)) <= Delay(l, s, o) <= 1.3 * Missing(l, s, o)
  {
    hide Missing, Times;
    if l.randomize { Jittered(Missing(l, s, o), o.variance); }
  }

  lemma Jittered(missing: real, variance: real)
    requires 0.0 < missing && -0.2 <= variance <= 0.3
    ensures 0.8 * missing <= Times(missing, 1.0 + variance) <= 1.3 * missing
  {
    hide Times;
    ScaleTimes(missing, missing, 0.8, 1.0 + variance);
    ScaleTimes(missing, missing, 1.0 + variance, 1.3);
    TimesTenths(missing);
  }

  lemma ScaleTimes(a: real, b: real, f: real, g: real)
    requires 0.0 <= a <= b && 0.0 <= f <= g
    ensures 0.0 <= Times(a, f) <= Times(b, g)
  {
    Scale(a, b, f, g);
  }

  lemma TimesTenths(x: real)
    ensures Times(x, 0.8) == 0.8 * x && Times(x, 1.3) == 1.3 * x
  {
  }

  function Lowered(l: Limits, delay: real): real { if l.randomize then 0.8 * delay else delay }

  // Two consecutive actions are at least min_delay apart, stretched by the error and activity
  // factors, less what the jitter can take away.
  lemma ActionSpacing(l: Limits, s: Rate, o: Surroundings)
    requires ValidLimits(l) && Plausible(l, s, o) && s.lastAction.Some?
    ensures o.done - s.lastAction.value >= Lowered(l, LeastDelay(l, Prepared(s, o))) >= Lowered(l, l.minDelay)
  {
    hide Prepared, BaseDelay, LeastDelay, Delay;
    PreparedKeeps(s, o);
    var p := Prepared(s, o);
    BaseDelayBounds(l, p, o.base);
    if Missing(l, p, o) > 0.0 { JitterBounds(l, p, o); }
  }

  // No computed wait exceeds 7.8 times max_delay, nor 6.5 times for a first action.
  lemma DelayBounds(l: Limits, s: Rate, o: Surroundings)
    requires ValidLimits(l) && Plausible(l, s, o)
    ensures var d := Delay(l, Prepared(s, o), o);
            0.0 <= d <= 7.8 * l.maxDelay && (s.lastAction.None? ==> d <= 6.5 * l.maxDelay)
  {
    hide Prepared, BaseDelay, LeastDelay;
    PreparedKeeps(s, o);
    var p := Prepared(s, o);
    BaseDelayBounds(l, p, o.base);
    if Missing(l, p, o) > 0.0 { JitterBounds(l, p, o); }
  }

  // The comment promises no wait before a first action.  It holds exactly when the factors do not
  // lift the drawn delay above max_delay.
  lemma FirstActionWaitsIff(l: Limits, s: Rate, o: Surroundings)
    requires ValidLimits(l) && Plausible(l, s, o) && s.lastAction.None?
    ensures Delay(l, Prepared(s, o), o) > 0.0 <==> BaseDelay(Prepared(s, o), o.base) > l.maxDelay
  {
    hide Prepared, BaseDelay;
    PreparedKeeps(s, o);
    var p := Prepared(s, o);
    if Missing(l, p, o) > 0.0 { JitterBounds(l, p, o); }
  }

  // Flood windows

  function LastFlood(events: seq<Record>): Option<real> {
    if events == [] then None
    else
      var later := LastFlood(events[1..]);
      if later.Some? then later
      else if events[0].FloodWait? then Some(events[0].now + events[0].seconds as real)
      else None
  }

  lemma {:induction false} RecordsSetFlood(s: Rate, events: seq<Record>)
    ensures RecordedAll(s, events).floodUntil == if LastFlood(events).Some? then LastFlood(events) else s.floodUntil
    decreases |events|
  {
    if events != [] { RecordsSetFlood(Recorded(s, events[0]), events[1..]); }
  }

  // A wait that starts inside the recorded window ends after it.  What it leaves recorded is the last
  // window reported during its second sleep, or an older one already over: windows reported during
  // its first sleep are erased.
  lemma FloodWindows(l: Limits, s: Rate, o: Surroundings)
    requires ValidLimits(l) && Plausible(l, s, o)
    ensures InFlood(s, o.enter) ==> s.floodUntil.value <= o.done
    ensures var late := if Missing(l, Prepared(s, o), o) > 0.0 then LastFlood(o.duringDelay) else None;
            var left := Waited(l, s, o).floodUntil;
            && (late.Some? ==> left == late)
            && (late.None? && InFlood(s, o.enter) ==> left == None)
            && (late.None? && !InFlood(s, o.enter) ==> left == s.floodUntil)
            && (late.None? ==> !InFlood(Waited(l, s, o), o.done))
  {
    hide Prepared, BaseDelay;
    PreparedKeeps(s, o);
    RecordsSetFlood(Prepared(s, o), o.duringDelay);
  }

  // The number a wait returns leaves out what it slept in a flood window: the call takes at least the
  // rest of the window longer.
  lemma ReturnedWaitOmitsFlood(l: Limits, s: Rate, o: Surroundings)
    requires ValidLimits(l) && Plausible(l, s, o)
    ensures var returned := Delay(l, Prepared(s, o), o);
            o.done - o.enter >= returned + (if InFlood(s, o.enter) then s.floodUntil.value - o.enter else 0.0)
    ensures InFlood(s, o.enter) ==> o.done - o.enter > Delay(l, Prepared(s, o), o)
  {
    hide Delay, Prepared;
  }

  // A window reported while a wait sleeps out an earlier one is lost: the wait acts inside it.
  lemma ReportedWindowIsErased(l: Limits) returns (s: Rate, o: Surroundings)
    requires ValidLimits(l)
    ensures Plausible(l, s, o) && InFlood(s, o.enter) && |o.duringFlood| == 1
    ensures InFlood(RecordedAll(s, o.duringFlood), o.done)
    ensures !InFlood(Waited(l, s, o), o.done)
  {
    var end := 10.0 + 2.0 * l.minDelay;
    var report := FloodWait(5.0, end.Floor + 1);
    s := Rate(Some(0.0), 0, 0, Some(10.0), Some(0.0));
    o := Surroundings(1.0, 1.0, end, end, end, end, l.minDelay, 0.0, [report], []);
    assert RecordedAll(s, o.duringFlood) == Recorded(s, report) by { assert o.duringFlood[1..] == []; }
    var p := Prepared(s, o);
    assert ActionFactor(p) == 1.0 && ErrorFactor(p) <= 2.0;
    Scale(l.minDelay, l.minDelay, ErrorFactor(p), 2.0);
    assert BaseDelay(p, o.base) <= end;
  }

  // Runs: waits one after another, record calls anywhere.

  datatype Step = Act(o: Surroundings) | Report(e: Record)

  function After(l: Limits, s: Rate, step: Step): Rate {
    match step case Act(o) => Waited(l, s, o) case Report(e) => Recorded(s, e)
  }

  function Run(l: Limits, s: Rate, steps: seq<Step>): Rate
    decreases |steps|
  {
    if steps == [] then s else Run(l, After(l, s, steps[0]), steps[1..])
  }

  predicate Possible(l: Limits, s: Rate, steps: seq<Step>)
    decreases |steps|
  {
    steps == [] ||
    ((steps[0].Act? ==> Plausible(l, s, steps[0].o)) && Possible(l, After(l, s, steps[0]), steps[1..]))
  }

  function Actions(steps: seq<Step>): nat {
    if steps == [] then 0 else (if steps[0].Act? then 1 else 0) + Actions(steps[1..])
  }

  lemma WaitedKeeps(l: Limits, s: Rate, o: Surroundings)
    ensures Waited(l, s, o).lastAction == Some(o.done)
    ensures s.errorCount >= 0 ==> Waited(l, s, o).errorCount >= 0
  {
    hide Prepared, BaseDelay;
    PreparedKeeps(s, o);
    RecordsKeep(Prepared(s, o), o.duringDelay);
  }

  lemma NextMultiple(n: nat, gap: real)
    ensures (1 + n) as real * gap == gap + n as real * gap
  {
    assert (1 + n) as real == 1.0 + n as real;
  }

  // Whatever is reported in between and whatever the jitter draws, n further actions take at least
  // n times the least spacing, and the error count never goes negative.
  lemma {:induction false} ActionRate(l: Limits, s: Rate, steps: seq<Step>)
    requires ValidLimits(l) && Possible(l, s, steps) && s.lastAction.Some?
    ensures var r := Run(l, s, steps);
            r.lastAction.Some? && r.lastAction.value - s.lastAction.value >= Actions(steps) as real * Lowered(l, l.minDelay)
    ensures s.errorCount >= 0 ==> Run(l, s, steps).errorCount >= 0
    decreases |steps|
  {
    hide Waited, Plausible, Lowered, LeastDelay;
    if steps != [] {
      var t := After(l, s, steps[0]);
      if steps[0].Act? {
        WaitedKeeps(l, s, steps[0].o);
        ActionSpacing(l, s, steps[0].o);
      }
      ActionRate(l, t, steps[1..]);
      NextMultiple(Actions(steps[1..]), Lowered(l, l.minDelay));
    }
  }

  // A block that is not a flood window.

  predicate IsBlocked(s: Rate, now: real) { InFlood(s, now) || s.errorCount >= 5 }

  // A finished wait leaves the account blocked only for its errors, unless a window was reported
  // while it slept.
  lemma BlockedAfterWaitIff(l: Limits, s: Rate, o: Surroundings)
    requires ValidLimits(l) && Plausible(l, s, o) && LastFlood(o.duringDelay).None?
    ensures IsBlocked(Waited(l, s, o), o.done) <==> Waited(l, s, o).errorCount >= 5
  {
    hide Waited, Plausible, InFlood;
    FloodWindows(l, s, o);
  }

  // What is counted

  predicate IsError(e: Record) { e == Error }
  predicate IsFlood(e: Record) { e.FloodWait? }

  // Reports without a success raise the error count by one an error and by two a flood wait.
  lemma {:induction false} ErrorsAddUp(s: Rate, events: seq<Record>)
    requires Success !in events
    ensures RecordedAll(s, events).errorCount == s.errorCount + Count(IsError, events) + 2 * Count(IsFlood, events)
    decreases |events|
  {
    hide Count;
    if events == [] {
      CountNone(IsError, events);
      CountNone(IsFlood, events);
      assert events[..0] == events;
    } else {
      var e, rest := events[0], events[1..];
      assert events == [e] + rest;
      ErrorsAddUp(Recorded(s, e), rest);
      CountConcat(IsError, [e], rest);
      CountConcat(IsFlood, [e], rest);
      CountOfOne(IsError, e);
      CountOfOne(IsFlood, e);
    }
  }

  lemma CountOfOne(p: Record -> bool, e: Record)
    ensures Count(p, [e]) == if p(e) then 1 else 0
  {
    assert [e][..0] == [];
    assert Count(p, []) == 0;
  }

  // Each success takes one off, and no amount of them goes below zero.
  lemma {:induction false} SuccessesForgive(s: Rate, events: seq<Record>)
    requires events != [] && forall k :: 0 <= k < |events| ==> events[k] == Success
    ensures RecordedAll(s, events) == s.(errorCount := Max(0, s.errorCount - |events|))
    decreases |events|
  {
    if |events| > 1 {
      SuccessesForgive(Recorded(s, events[0]), events[1..]);
    } else {
      assert events[1..] == [];
    }
  }

  // A wait counts one action; a day after the last reset the counters start over first.
  lemma WaitCounts(l: Limits, s: Rate, o: Surroundings)
    ensures var w := Waited(l, s, o);
            var startsOver := s.dailyReset.None? || o.awake - s.dailyReset.value >= 86400.0;
            && w.actionCount == (if startsOver then 1 else s.actionCount + 1)
            && w.dailyReset == (if startsOver then Some(o.resetAt) else s.dailyReset)
            && (startsOver && o.duringDelay == [] ==> w.errorCount == 0)
            && (!startsOver && !InFlood(s, o.enter) && o.duringDelay == [] ==> w.errorCount == s.errorCount)
  {
    hide BaseDelay;
    RecordsKeep(s, o.duringFlood);
    RecordsKeep(Prepared(s, o), o.duringDelay);
  }

  // The delay computed is what the stretched draw exceeds the time since the last action by, jittered if
  // so configured, and nothing when that time is enough.
  lemma WaitLength(l: Limits, s: Rate, o: Surroundings, last: real)
    requires s.lastAction == Some(last)
    ensures var missing := BaseDelay(s, o.base) - (o.since - last);
            && (missing <= 0.0 ==> Delay(l, s, o) == 0.0)
            && (missing > 0.0 && l.randomize ==> Delay(l, s, o) == missing * (1.0 + o.variance))
            && (missing > 0.0 && !l.randomize ==> Delay(l, s, o) == missing)
  {
    hide BaseDelay;
  }
}
