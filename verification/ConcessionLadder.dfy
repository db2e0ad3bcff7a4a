/**
 * The two-step price concession ladder: counter rates and facts merging (src/ai_agent/strategy.py),
 * premium tiers (src/ai_agent/otc_profit.py), the bump after a counter is worded
 * (src/ai_agent/ai_client.py) and the negotiation gate (src/ai_agent/goal_modes.py).
 * The ladder's state travels through printed rate texts.
 */
module ConcessionLadder {
  import opened Common
  import opened RateText

  datatype Side = Buy | Sell | NoSide
  datatype Evaluation = Excellent | Acceptable | Negotiable | Bad | OperatorReview | NotEvaluated
  datatype Action = Accept | SoftNegotiate | NegotiateUp | Counter | StrongCounter | HandOver | CollectProcess | NoAction

  // Policy rates in hundredths of a percent.
  datatype Policy = Policy(targetBuy: int, maxBuy: int, targetSell: int, minSell: int)

  function Pct(k: int): real { k as real / 100.0 }

  predicate Sound(pol: Policy) {
    && -50000 <= pol.targetBuy <= pol.maxBuy <= 50000
    && -50000 <= pol.minSell <= pol.targetSell <= 50000
  }

  datatype Facts = Facts(side: Side, concessions: int, lastCounter: Option<string>, nextCounter: Option<string>,
                         counterOffer: Option<string>, finalBest: bool, evaluation: Evaluation, action: Action)

  // Tiers

  function BuyTier(premium: real, target: real, max: real): (Evaluation, Action) {
    if premium <= target then (Excellent, Accept)
    else if premium <= max then (Acceptable, SoftNegotiate)
    else if premium <= max + 1.0 then (Negotiable, Counter)
    else if premium <= max + 2.0 then (Bad, StrongCounter)
    else (OperatorReview, HandOver)
  }

  function SellTier(premium: real, target: real, min: real): (Evaluation, Action) {
    if premium >= target then (Excellent, Accept)
    else if premium >= min then (Acceptable, NegotiateUp)
    else if premium >= min - 1.0 then (Negotiable, Counter)
    else if premium >= min - 2.0 then (Bad, StrongCounter)
    else (OperatorReview, HandOver)
  }

  function Evaluate(pol: Policy, side: Side, sp: Option<real>): (Evaluation, Action) {
    if sp.None? then (NotEvaluated, NoAction)
    else match side
      case Buy => BuyTier(sp.value, Pct(pol.targetBuy), Pct(pol.maxBuy))
      case Sell => SellTier(sp.value, Pct(pol.targetSell), Pct(pol.minSell))
      case NoSide => (Negotiable, SoftNegotiate)
  }

  // Counter rates

  function Clamp(x: real, lo: real, hi: real): real {
    var capped := if hi <= x then hi else x;
    if lo >= capped then lo else capped
  }

  function NextBuy(sp: real, pol: Policy, count: int, last: Option<real>): Option<real> {
    var target, max := Pct(pol.targetBuy), Pct(pol.maxBuy);
    if count <= 0 then Some(Clamp((target + sp) / 2.0, target, max))
    else if count == 1 then Some(Clamp((last.GetOr((target + sp) / 2.0) + max) / 2.0, target, max))
    else None
  }

  function NextSell(sp: real, pol: Policy, count: int, last: Option<real>): Option<real> {
    var target, min := Pct(pol.targetSell), Pct(pol.minSell);
    if count <= 0 then Some(Clamp((sp + target) / 2.0, sp, target))
    else if count == 1 then Some(Clamp((last.GetOr((sp + target) / 2.0) + target) / 2.0, min, target))
    else None
  }

  function NextRate(sp: real, pol: Policy, side: Side, count: int, last: Option<real>): Option<real> {
    match side
    case Buy => NextBuy(sp, pol, count, last)
    case Sell => NextSell(sp, pol, count, last)
    case NoSide => None
  }

  // The quotes the ladder answers with a counter.
  predicate Counterable(pol: Policy, side: Side, sp: Option<real>) {
    var (ev, act) := Evaluate(pol, side, sp);
    sp.Some? && match side
                case Buy => ev != Excellent && ev != Acceptable
                case Sell => ev == Negotiable || ev == Bad || ev == OperatorReview || (ev == Acceptable && act == NegotiateUp)
                case NoSide => false
  }

  function Read(h: Phrases, text: Option<string>): Option<real> {
    if text.Some? then ParsePremium(h, text.value) else None
  }

  // merge_profit_strategy on the ladder's fields, then the negotiation gate.  `sp` is the quoted
  // premium of this turn, `gateOpen` whether counters are allowed in the current goal mode.
  function Merge(h: Phrases, pol: Policy, f: Facts, sp: Option<real>, gateOpen: bool): Facts {
    var (ev, act) := Evaluate(pol, f.side, sp);
    var climbing := Counterable(pol, f.side, sp);
    var next := if climbing && f.concessions < 2 then NextRate(sp.value, pol, f.side, f.concessions, Read(h, f.lastCounter))
                else None;
    var final := if climbing then f.concessions >= 2 else f.finalBest;
    var out := f.(evaluation := ev, action := act, finalBest := final,
                  nextCounter := if next.Some? then Some(FmtRate(next.value)) else None,
                  counterOffer := if next.Some? then Some(FmtRate(next.value)) else f.counterOffer);
    if gateOpen then out
    else out.(action := if act == Counter || act == StrongCounter then CollectProcess else act,
              nextCounter := None, counterOffer := None, finalBest := false)
  }

  function Bump(f: Facts, sent: real): Facts {
    f.(lastCounter := Some(FmtRate(sent)), concessions := if f.concessions < 2 then f.concessions + 1 else f.concessions)
  }

  // One reply of ours: the quote, the gate, and whether the text words a counter.
  datatype Turn = Turn(sp: Option<real>, gateOpen: bool, worded: bool)

  predicate Bumps(h: Phrases, pol: Policy, f: Facts, t: Turn) {
    var offered := Read(h, Merge(h, pol, f, t.sp, t.gateOpen).nextCounter);
    var stored := Read(h, f.nextCounter);
    offered.Some? && t.worded && (stored.None? || Abs(stored.value - offered.value) > 0.000001)
  }

  function After(h: Phrases, pol: Policy, f: Facts, t: Turn): Facts {
    var eff := Merge(h, pol, f, t.sp, t.gateOpen);
    if Bumps(h, pol, f, t) then Merge(h, pol, Bump(eff, Read(h, eff.nextCounter).value), t.sp, t.gateOpen) else eff
  }

  function Run(h: Phrases, pol: Policy, f: Facts, turns: seq<Turn>): Facts {
    if turns == [] then f else After(h, pol, Run(h, pol, f, turns[..|turns| - 1]), turns[|turns| - 1])
  }

  // Facts of a task nobody has answered yet.
  predicate Fresh(f: Facts) { f.concessions == 0 && f.lastCounter.None? && f.nextCounter.None? && f.side != NoSide }

  // Tiers are monotone in the quote

  function Rank(e: Evaluation): int {
    match e
    case Excellent => 0
    case Acceptable => 1
    case Negotiable => 2
    case Bad => 3
    case _ => 4
  }

  lemma WorseQuotesNeverRankBetter(pol: Policy, a: real, b: real)
    requires Sound(pol) && a <= b
    ensures Rank(Evaluate(pol, Buy, Some(a)).0) <= Rank(Evaluate(pol, Buy, Some(b)).0)
    ensures Rank(Evaluate(pol, Sell, Some(b)).0) <= Rank(Evaluate(pol, Sell, Some(a)).0)
    ensures Counterable(pol, Buy, Some(a)) <==> a > Pct(pol.maxBuy)
    ensures Counterable(pol, Sell, Some(a)) <==> a < Pct(pol.targetSell)
  {
  }

  // Bounds of every counter

  lemma RoundedWithin(x: real, lo: int, hi: int)
    requires Pct(lo) <= x <= Pct(hi)
    ensures Pct(lo) <= Rounded(x) <= Pct(hi)
  {
    hide Rounded;
    RoundedMonotone(Pct(lo), x);
    RoundedMonotone(x, Pct(hi));
    RoundedHundredths(lo);
    RoundedHundredths(hi);
  }

  // A quoted premium is one the reader accepted.
  predicate Quoted(sp: Option<real>) { sp.Some? ==> Abs(sp.value) <= 500.0 }

  // The best counter the policy allows: what a buyer may pay, what a seller hopes for.
  function Top(pol: Policy, side: Side): real {
    if side == Sell then Pct(pol.targetSell) else Pct(pol.maxBuy)
  }

  lemma NextRateBounds(pol: Policy, side: Side, sp: real, count: int, last: Option<real>)
    requires Sound(pol) && Abs(sp) <= 500.0 && Counterable(pol, side, Some(sp)) && count < 2
    ensures var x := NextRate(sp, pol, side, count, last);
            && x.Some? && Rounded(x.value) <= Top(pol, side) && Abs(Rounded(x.value)) <= 500.0
            && (side == Buy ==> Pct(pol.targetBuy) <= Rounded(x.value) < sp)
            && (side == Sell && count == 1 ==> Pct(pol.minSell) <= Rounded(x.value))
            && (side == Sell && count <= 0 ==> Rounded(sp) <= Rounded(x.value))
            && (side == Sell && count <= 0 ==> sp <= x.value)
  {
    hide Rounded;
    WorseQuotesNeverRankBetter(pol, sp, sp);
    var x := NextRate(sp, pol, side, count, last).value;
    if side == Buy {
      RoundedWithin(x, pol.targetBuy, pol.maxBuy);
    } else if count == 1 {
      RoundedWithin(x, pol.minSell, pol.targetSell);
    } else {
      RoundedMonotone(sp, x);
      RoundedMonotone(x, Pct(pol.targetSell));
      RoundedHundredths(pol.targetSell);
      RoundedMonotone(Pct(-50000), sp);
      RoundedHundredths(-50000);
    }
  }

  // Every numeric counter a merge stores: on the buy side within [target, max] and below the
  // seller's quote; on the sell side never above target, at the second step never below the
  // minimum, at the first never below the (printed) offer; after two concessions there is none.
  lemma CounterBounds(h: Phrases, pol: Policy, f: Facts, sp: Option<real>, gateOpen: bool)
    requires NeedWords(h) && Sound(pol) && Quoted(sp)
    ensures var m := Merge(h, pol, f, sp, gateOpen);
            && (f.concessions >= 2 || !gateOpen || !Counterable(pol, f.side, sp) ==> m.nextCounter.None?)
            && (m.nextCounter.Some? ==> Read(h, m.nextCounter).Some? && sp.Some? && m.counterOffer == m.nextCounter)
            && (m.nextCounter.Some? ==>
                  var x := Read(h, m.nextCounter).value;
                  && Rounded(x) == x && x <= Top(pol, f.side)
                  && (f.side == Buy ==> Pct(pol.targetBuy) <= x < sp.value)
                  && (f.side == Sell && f.concessions == 1 ==> Pct(pol.minSell) <= x)
                  && (f.side == Sell && f.concessions <= 0 ==> Rounded(sp.value) <= x))
  {
    hide Rounded, FmtRate, ParsePremium, NextRate;
    if gateOpen && Counterable(pol, f.side, sp) && f.concessions < 2 {
      var last := Read(h, f.lastCounter);
      NextRateBounds(pol, f.side, sp.value, f.concessions, last);
      var x := NextRate(sp.value, pol, f.side, f.concessions, last).value;
      ParseOfPrintedRate(h, x);
      RoundedTwice(x);
    }
  }

  // The second counter is at least the first, whatever is quoted in between.
  lemma SecondCounterNotBelowFirst(h: Phrases, pol: Policy, f: Facts, sp: Option<real>, gateOpen: bool)
    requires NeedWords(h) && Sound(pol) && Quoted(sp) && f.concessions == 1 && f.side != NoSide
    requires Climbing(h, pol, f)
    ensures var m := Merge(h, pol, f, sp, gateOpen);
            m.nextCounter.Some? ==> Read(h, m.nextCounter).Some?
                                    && Read(h, m.nextCounter).value >= Read(h, f.lastCounter).value
  {
    hide Rounded, FmtRate, ParsePremium, Sound;
    if gateOpen && Counterable(pol, f.side, sp) {
      var last := Read(h, f.lastCounter);
      var x := NextRate(sp.value, pol, f.side, 1, last).value;
      assert last.value <= x;
      RoundedMonotone(last.value, x);
      NextRateBounds(pol, f.side, sp.value, 1, last);
      ParseOfPrintedRate(h, x);
    }
  }

  // Whole runs

  // At most two concessions, and a recorded counter that reads back as a rate within the policy.
  ghost predicate Climbing(h: Phrases, pol: Policy, f: Facts) {
    && 0 <= f.concessions <= 2
    && (f.concessions >= 1 ==>
          var last := Read(h, f.lastCounter);
          && last.Some? && Rounded(last.value) == last.value && last.value <= Top(pol, f.side)
          && (f.side == Buy ==> Pct(pol.targetBuy) <= last.value))
  }

  lemma BumpKeepsClimbing(h: Phrases, pol: Policy, f: Facts, sent: real)
    requires NeedWords(h) && Climbing(h, pol, f)
    requires Rounded(sent) == sent && sent <= Top(pol, f.side) && Abs(sent) <= 500.0
    requires f.side == Buy ==> Pct(pol.targetBuy) <= sent
    ensures Climbing(h, pol, Bump(f, sent)) && Read(h, Bump(f, sent).lastCounter) == Some(sent)
  {
    hide Rounded, FmtRate, ParsePremium;
    ParseOfPrintedRate(h, sent);
  }

  lemma ReadIsInRange(h: Phrases, pol: Policy, f: Facts, sp: Option<real>, gateOpen: bool)
    requires NeedWords(h) && Sound(pol) && Quoted(sp) && Merge(h, pol, f, sp, gateOpen).nextCounter.Some?
    ensures var x := Read(h, Merge(h, pol, f, sp, gateOpen).nextCounter); x.Some? && Abs(x.value) <= 500.0
  {
    hide Rounded, FmtRate, ParsePremium, NextRate;
    var last := Read(h, f.lastCounter);
    NextRateBounds(pol, f.side, sp.value, f.concessions, last);
    ParseOfPrintedRate(h, NextRate(sp.value, pol, f.side, f.concessions, last).value);
  }

  lemma TurnKeepsClimbing(h: Phrases, pol: Policy, f: Facts, t: Turn)
    requires NeedWords(h) && Sound(pol) && Quoted(t.sp) && Climbing(h, pol, f)
    ensures Climbing(h, pol, After(h, pol, f, t)) && After(h, pol, f, t).side == f.side
    ensures After(h, pol, f, t).concessions == if Bumps(h, pol, f, t) && f.concessions < 2 then f.concessions + 1 else f.concessions
    ensures Bumps(h, pol, f, t) ==> Read(h, After(h, pol, f, t).lastCounter)
                                    == Read(h, Merge(h, pol, f, t.sp, t.gateOpen).nextCounter)
    ensures !Bumps(h, pol, f, t) ==> After(h, pol, f, t).lastCounter == f.lastCounter
  {
    hide Rounded, FmtRate, ParsePremium, NextRate, Counterable, Sound, Top;
    var eff := Merge(h, pol, f, t.sp, t.gateOpen);
    if Bumps(h, pol, f, t) {
      CounterBounds(h, pol, f, t.sp, t.gateOpen);
      ReadIsInRange(h, pol, f, t.sp, t.gateOpen);
      BumpKeepsClimbing(h, pol, eff, Read(h, eff.nextCounter).value);
    }
  }

  ghost predicate AllQuoted(turns: seq<Turn>) { forall k :: 0 <= k < |turns| ==> Quoted(turns[k].sp) }

  // Over any run the ladder never counts past two and the recorded counter stays in bounds, so
  // CounterBounds and SecondCounterNotBelowFirst apply at every turn.
  lemma {:induction false} LadderOverRuns(h: Phrases, pol: Policy, f: Facts, turns: seq<Turn>)
    requires NeedWords(h) && Sound(pol) && AllQuoted(turns) && Climbing(h, pol, f)
    ensures Climbing(h, pol, Run(h, pol, f, turns)) && Run(h, pol, f, turns).side == f.side
  {
    hide Climbing, After;
    if turns != [] {
      var front := turns[..|turns| - 1];
      LadderOverRuns(h, pol, f, front);
      TurnKeepsClimbing(h, pol, Run(h, pol, f, front), turns[|turns| - 1]);
    }
  }

  // The count stalls at one

  // The text of the second counter after a recorded first one.
  function SecondText(h: Phrases, pol: Policy, f: Facts): Option<string> {
    var next := NextRate(0.0, pol, f.side, 1, Read(h, f.lastCounter));
    if next.Some? then Some(FmtRate(next.value)) else None
  }

  // Once recorded, the first counter alone determines the second: quotes no longer matter.
  lemma SecondCounterIgnoresQuotes(h: Phrases, pol: Policy, f: Facts, sp: Option<real>)
    requires Climbing(h, pol, f) && f.concessions == 1 && Counterable(pol, f.side, sp)
    ensures Merge(h, pol, f, sp, true).nextCounter == SecondText(h, pol, f) && SecondText(h, pol, f).Some?
  {
    hide Rounded, FmtRate, ParsePremium, Top;
  }

  // An uninterrupted turn: a quote that is countered, with the gate open.
  predicate Uninterrupted(pol: Policy, side: Side, t: Turn) {
    t.gateOpen && Counterable(pol, side, t.sp) && Quoted(t.sp)
  }

  // One uninterrupted turn counts a second concession exactly when the stored facts carry no second
  // counter any more.
  lemma SecondConcessionIff(h: Phrases, pol: Policy, f: Facts, t: Turn)
    requires NeedWords(h) && Sound(pol) && Climbing(h, pol, f) && f.concessions == 1
    requires Uninterrupted(pol, f.side, t) && (f.nextCounter.None? || f.nextCounter == SecondText(h, pol, f))
    ensures After(h, pol, f, t).concessions == 2 <==> t.worded && f.nextCounter.None?
    ensures f.nextCounter.Some? ==> After(h, pol, f, t).concessions == 1
                                    && After(h, pol, f, t).nextCounter == f.nextCounter
                                    && After(h, pol, f, t).lastCounter == f.lastCounter
  {
    hide Rounded, FmtRate, ParsePremium, NextRate, Climbing, Sound, SecondText;
    TurnKeepsClimbing(h, pol, f, t);
    SecondCounterIgnoresQuotes(h, pol, f, t.sp);
    CounterBounds(h, pol, f, t.sp, t.gateOpen);
  }

  // Over runs: once one concession is counted, the stored counter is the second one or has been dropped
  // by the turn just taken, ...
  ghost predicate HoldsSecondOrNone(h: Phrases, pol: Policy, f: Facts) {
    f.concessions == 1 ==> f.nextCounter.None? || f.nextCounter == SecondText(h, pol, f)
  }

  lemma MergeHoldsSecondOrNone(h: Phrases, pol: Policy, f: Facts, sp: Option<real>, gateOpen: bool)
    requires Climbing(h, pol, f) && f.concessions == 1
    ensures var m := Merge(h, pol, f, sp, gateOpen);
            && HoldsSecondOrNone(h, pol, m)
            && (m.nextCounter.None? <==> !gateOpen || !Counterable(pol, f.side, sp))
  {
    hide Rounded, FmtRate, ParsePremium, NextRate, Top, SecondText, Counterable;
    if gateOpen && Counterable(pol, f.side, sp) {
      SecondCounterIgnoresQuotes(h, pol, f, sp);
    }
    MergeDrops(h, pol, f, sp, gateOpen);
    SameSecondText(h, pol, f, Merge(h, pol, f, sp, gateOpen));
  }

  lemma MergeDrops(h: Phrases, pol: Policy, f: Facts, sp: Option<real>, gateOpen: bool)
    ensures !gateOpen || !Counterable(pol, f.side, sp) ==> Merge(h, pol, f, sp, gateOpen).nextCounter.None?
  {
    hide FmtRate, ParsePremium, NextRate;
  }

  // The facts after a turn come out of a merge of facts with the same count and the same last counter.
  lemma AfterIsMerge(h: Phrases, pol: Policy, f: Facts, t: Turn)
    requires NeedWords(h) && Sound(pol) && Quoted(t.sp) && Climbing(h, pol, f)
    ensures After(h, pol, f, t).concessions == 1 ==>
      && HoldsSecondOrNone(h, pol, After(h, pol, f, t))
      && (After(h, pol, f, t).nextCounter.None? <==> !t.gateOpen || !Counterable(pol, f.side, t.sp))
  {
    hide Rounded, FmtRate, ParsePremium, NextRate, Counterable, Sound, Top, SecondText, HoldsSecondOrNone;
    var eff := Merge(h, pol, f, t.sp, t.gateOpen);
    if Bumps(h, pol, f, t) {
      CounterBounds(h, pol, f, t.sp, t.gateOpen);
      ReadIsInRange(h, pol, f, t.sp, t.gateOpen);
      var bumped := Bump(eff, Read(h, eff.nextCounter).value);
      BumpKeepsClimbing(h, pol, eff, Read(h, eff.nextCounter).value);
      if bumped.concessions == 1 { MergeHoldsSecondOrNone(h, pol, bumped, t.sp, t.gateOpen); }
    } else if f.concessions == 1 {
      MergeHoldsSecondOrNone(h, pol, f, t.sp, t.gateOpen);
    }
  }

  // ... so from fresh facts, after any quoted turns, the next turn counts a second concession exactly
  // when it words a countered quote with the gate open and the turn before it had dropped the stored
  // counter, by a closed gate or a quote that is not countered.
  lemma SecondConcessionOverRunsIff(h: Phrases, pol: Policy, f: Facts, turns: seq<Turn>, t: Turn)
    requires NeedWords(h) && Sound(pol) && Fresh(f) && AllQuoted(turns) && Quoted(t.sp)
    requires Run(h, pol, f, turns).concessions == 1
    ensures var r := Run(h, pol, f, turns);
            && turns != [] && r.side == f.side && HoldsSecondOrNone(h, pol, r)
            && (After(h, pol, r, t).concessions == 2 <==>
                  t.worded && Uninterrupted(pol, f.side, t) && r.nextCounter.None?)
            && (r.nextCounter.None? <==> !Uninterrupted(pol, f.side, turns[|turns| - 1]))
  {
    hide Rounded, FmtRate, ParsePremium, NextRate, Counterable, Sound, SecondText, After, Climbing, Merge;
    FreshClimbs(h, pol, f);
    LadderOverRuns(h, pol, f, turns);
    var r := Run(h, pol, f, turns);
    var front, last := turns[..|turns| - 1], turns[|turns| - 1];
    LadderOverRuns(h, pol, f, front);
    AfterIsMerge(h, pol, Run(h, pol, f, front), last);
    if Uninterrupted(pol, f.side, t) {
      SecondConcessionIff(h, pol, r, t);
    } else {
      InterruptedCountsNothing(h, pol, r, t);
    }
  }

  lemma FreshClimbs(h: Phrases, pol: Policy, f: Facts)
    requires Fresh(f)
    ensures Climbing(h, pol, f)
  {
  }

  lemma InterruptedCountsNothing(h: Phrases, pol: Policy, f: Facts, t: Turn)
    requires NeedWords(h) && Sound(pol) && Quoted(t.sp) && Climbing(h, pol, f)
    requires !t.gateOpen || !Counterable(pol, f.side, t.sp)
    ensures After(h, pol, f, t).concessions == f.concessions
  {
    hide Rounded, FmtRate, ParsePremium, NextRate, Counterable, Sound, Climbing;
    TurnKeepsClimbing(h, pol, f, t);
    MergeDrops(h, pol, f, t.sp, t.gateOpen);
  }

  // After the first recorded counter the facts already hold the second one, not yet worded.
  ghost predicate Stalled(h: Phrases, pol: Policy, f: Facts) {
    f.concessions == 1 && Climbing(h, pol, f) && f.nextCounter.Some? && f.nextCounter == SecondText(h, pol, f)
  }

  lemma FirstConcessionStalls(h: Phrases, pol: Policy, f: Facts, t: Turn)
    requires NeedWords(h) && Sound(pol) && Climbing(h, pol, f) && f.concessions == 0 && Uninterrupted(pol, f.side, t)
    ensures After(h, pol, f, t).concessions == 0 || Stalled(h, pol, After(h, pol, f, t))
  {
    hide Rounded, FmtRate, ParsePremium, NextRate, Sound, SecondText;
    TurnKeepsClimbing(h, pol, f, t);
    if Bumps(h, pol, f, t) {
      var eff := Merge(h, pol, f, t.sp, t.gateOpen);
      var bumped := Bump(eff, Read(h, eff.nextCounter).value);
      assert After(h, pol, f, t) == Merge(h, pol, bumped, t.sp, true);
      assert Read(h, bumped.lastCounter) == Read(h, After(h, pol, f, t).lastCounter);
      assert Climbing(h, pol, bumped);
      SecondCounterIgnoresQuotes(h, pol, bumped, t.sp);
      SameSecondText(h, pol, bumped, After(h, pol, f, t));
    }
  }

  lemma SameSecondText(h: Phrases, pol: Policy, f: Facts, g: Facts)
    requires f.side == g.side && f.lastCounter == g.lastCounter
    ensures SecondText(h, pol, f) == SecondText(h, pol, g)
  {
  }

  // So over an uninterrupted negotiation the count never reaches two: the same second counter is
  // repeated for ever, although the ladder documents at most two concessions before a final best.
  lemma {:induction false} UninterruptedLadderStalls(h: Phrases, pol: Policy, f: Facts, turns: seq<Turn>)
    requires NeedWords(h) && Sound(pol) && Fresh(f)
    requires forall k :: 0 <= k < |turns| ==> Uninterrupted(pol, f.side, turns[k])
    ensures var r := Run(h, pol, f, turns);
            && r.side == f.side && Climbing(h, pol, r)
            && (r.concessions == 0 || Stalled(h, pol, r))
  {
    hide Rounded, FmtRate, ParsePremium, NextRate, Sound, SecondText, After;
    if turns != [] {
      var front, t := turns[..|turns| - 1], turns[|turns| - 1];
      UninterruptedLadderStalls(h, pol, f, front);
      var r := Run(h, pol, f, front);
      TurnKeepsClimbing(h, pol, r, t);
      if r.concessions == 0 {
        FirstConcessionStalls(h, pol, r, t);
      } else {
        SecondConcessionIff(h, pol, r, t);
        SameSecondText(h, pol, r, After(h, pol, r, t));
      }
    }
  }

  // After the last concession the next counter is dropped but the worded offer of before stays.
  lemma OfferOutlivesLadder(h: Phrases, pol: Policy, f: Facts, sp: Option<real>)
    requires f.concessions >= 2
    ensures var m := Merge(h, pol, f, sp, true);
            m.nextCounter.None? && m.counterOffer == f.counterOffer && (Counterable(pol, f.side, sp) ==> m.finalBest)
  {
  }

  // Where the sell side leaves its own bounds

  // The first sell counter, as stored and worded, is below the configured minimum exactly when the
  // midpoint of offer and target rounds below it.
  lemma FirstSellCounterBelowMinimumIff(h: Phrases, pol: Policy, f: Facts, sp: real)
    requires NeedWords(h) && Sound(pol) && Quoted(Some(sp)) && Counterable(pol, Sell, Some(sp))
    requires f.side == Sell && f.concessions <= 0
    ensures var counter := Read(h, Merge(h, pol, f, Some(sp), true).nextCounter);
            && counter.Some?
            && (counter.value < Pct(pol.minSell) <==> RoundsBelow((sp + Pct(pol.targetSell)) / 2.0, pol.minSell))
  {
    hide Rounded, FmtRate, ParsePremium, RoundsBelow, Sound;
    StoredCounter(h, pol, f, sp);
    FirstSellIsMidpoint(pol, sp);
    RoundedBelowIff((sp + Pct(pol.targetSell)) / 2.0, pol.minSell);
  }

  // What a countered turn stores is the rounded rate of the ladder.
  lemma StoredCounter(h: Phrases, pol: Policy, f: Facts, sp: real)
    requires NeedWords(h) && Sound(pol) && Quoted(Some(sp)) && Counterable(pol, f.side, Some(sp)) && f.concessions < 2
    ensures var next := NextRate(sp, pol, f.side, f.concessions, Read(h, f.lastCounter));
            next.Some? && Read(h, Merge(h, pol, f, Some(sp), true).nextCounter) == Some(Rounded(next.value))
  {
    hide Rounded, FmtRate, ParsePremium, NextRate;
    var last := Read(h, f.lastCounter);
    NextRateBounds(pol, f.side, sp, f.concessions, last);
    ParseOfPrintedRate(h, NextRate(sp, pol, f.side, f.concessions, last).value);
  }

  lemma FirstSellIsMidpoint(pol: Policy, sp: real)
    requires Sound(pol) && Counterable(pol, Sell, Some(sp))
    ensures forall last, count: int :: count <= 0 ==>
              NextSell(sp, pol, count, last) == Some((sp + Pct(pol.targetSell)) / 2.0)
  {
    WorseQuotesNeverRankBetter(pol, sp, sp);
  }

  // The second sell counter, as stored and worded, asks for less than the buyer already offers exactly
  // when the offer is above the minimum and above the rounded midpoint of first counter and target.
  lemma SecondSellCounterBelowOfferIff(h: Phrases, pol: Policy, f: Facts, sp: real)
    requires NeedWords(h) && Sound(pol) && Quoted(Some(sp)) && Counterable(pol, Sell, Some(sp))
    requires f.side == Sell && f.concessions == 1 && Climbing(h, pol, f)
    ensures var mid := (Read(h, f.lastCounter).value + Pct(pol.targetSell)) / 2.0;
            var counter := Read(h, Merge(h, pol, f, Some(sp), true).nextCounter);
            && counter.Some?
            && (counter.value < sp <==> Pct(pol.minSell) < sp && Rounded(mid) < sp)
            && (forall k :: sp == Pct(k) ==> (counter.value < sp <==> pol.minSell < k && RoundsBelow(mid, k)))
  {
    hide Rounded, FmtRate, ParsePremium, RoundsBelow;
    StoredCounter(h, pol, f, sp);
    var mid := (Read(h, f.lastCounter).value + Pct(pol.targetSell)) / 2.0;
    RoundedHundredths(pol.minSell);
    if mid <= Pct(pol.minSell) {
      RoundedMonotone(mid, Pct(pol.minSell));
    } else {
      RoundedMonotone(Pct(pol.minSell), mid);
    }
    forall k | sp == Pct(k)
      ensures Rounded(mid) < sp <==> RoundsBelow(mid, k)
    {
      RoundedBelowIff(mid, k);
    }
  }

  // What each stored counter reads back as

  // x moved into [lo, hi], then rounded, when the ends are hundredths.
  lemma RoundedInto(x: real, lo: int, hi: int)
    requires lo <= hi
    ensures Rounded(Clamp(x, Pct(lo), Pct(hi)))
         == if x <= Pct(lo) then Pct(lo) else if x >= Pct(hi) then Pct(hi) else Rounded(x)
  {
    hide Rounded;
    RoundedHundredths(lo);
    RoundedHundredths(hi);
  }

  // First buy counter: the midpoint of target and quote, but never more than the maximum, which it
  // reaches, before rounding, exactly for quotes at least as far above the maximum as the target is below.
  lemma FirstBuyCounter(h: Phrases, pol: Policy, f: Facts, sp: real)
    requires NeedWords(h) && Sound(pol) && Abs(sp) <= 500.0 && f.side == Buy && f.concessions <= 0 && sp > Pct(pol.maxBuy)
    ensures var mid := (Pct(pol.targetBuy) + sp) / 2.0;
            && Read(h, Merge(h, pol, f, Some(sp), true).nextCounter)
               == Some(if mid < Pct(pol.maxBuy) then Rounded(mid) else Pct(pol.maxBuy))
            && (mid >= Pct(pol.maxBuy) <==> sp >= 2.0 * Pct(pol.maxBuy) - Pct(pol.targetBuy))
  {
    hide Rounded, FmtRate, ParsePremium;
    WorseQuotesNeverRankBetter(pol, sp, sp);
    StoredCounter(h, pol, f, sp);
    RoundedInto((Pct(pol.targetBuy) + sp) / 2.0, pol.targetBuy, pol.maxBuy);
  }

  // Second buy counter: the midpoint of the recorded counter and the maximum, limited to the policy's
  // range; within a run it needs no limiting.
  lemma SecondBuyCounter(h: Phrases, pol: Policy, f: Facts, sp: real)
    requires NeedWords(h) && Sound(pol) && Abs(sp) <= 500.0 && f.side == Buy && f.concessions == 1 && sp > Pct(pol.maxBuy)
    ensures var recorded := Read(h, f.lastCounter);
            var base := if recorded.Some? then recorded.value else (Pct(pol.targetBuy) + sp) / 2.0;
            var mid := (base + Pct(pol.maxBuy)) / 2.0;
            var counter := Read(h, Merge(h, pol, f, Some(sp), true).nextCounter);
            && counter == Some(if mid <= Pct(pol.targetBuy) then Pct(pol.targetBuy)
                               else if mid >= Pct(pol.maxBuy) then Pct(pol.maxBuy) else Rounded(mid))
            && (Climbing(h, pol, f) ==> recorded.Some? && counter == Some(Rounded(mid)))
  {
    hide Rounded, FmtRate, ParsePremium;
    WorseQuotesNeverRankBetter(pol, sp, sp);
    StoredCounter(h, pol, f, sp);
    var base := Read(h, f.lastCounter).GetOr((Pct(pol.targetBuy) + sp) / 2.0);
    RoundedInto((base + Pct(pol.maxBuy)) / 2.0, pol.targetBuy, pol.maxBuy);
    RoundedHundredths(pol.maxBuy);
    RoundedHundredths(pol.targetBuy);
  }

  // First sell counter: the midpoint of offer and target.
  lemma FirstSellCounter(h: Phrases, pol: Policy, f: Facts, sp: real)
    requires NeedWords(h) && Sound(pol) && Abs(sp) <= 500.0 && f.side == Sell && f.concessions <= 0 && sp < Pct(pol.targetSell)
    ensures Read(h, Merge(h, pol, f, Some(sp), true).nextCounter) == Some(Rounded((sp + Pct(pol.targetSell)) / 2.0))
  {
    hide Rounded, FmtRate, ParsePremium;
    WorseQuotesNeverRankBetter(pol, sp, sp);
    StoredCounter(h, pol, f, sp);
    FirstSellIsMidpoint(pol, sp);
  }

  // Second sell counter: the midpoint of the recorded counter and the target, limited to the policy's
  // range; within a run it is never above the target.
  lemma SecondSellCounter(h: Phrases, pol: Policy, f: Facts, sp: real)
    requires NeedWords(h) && Sound(pol) && Abs(sp) <= 500.0 && f.side == Sell && f.concessions == 1 && sp < Pct(pol.targetSell)
    ensures var recorded := Read(h, f.lastCounter);
            var base := if recorded.Some? then recorded.value else (sp + Pct(pol.targetSell)) / 2.0;
            var mid := (base + Pct(pol.targetSell)) / 2.0;
            && Read(h, Merge(h, pol, f, Some(sp), true).nextCounter)
               == Some(if mid <= Pct(pol.minSell) then Pct(pol.minSell)
                       else if mid >= Pct(pol.targetSell) then Pct(pol.targetSell) else Rounded(mid))
            && (Climbing(h, pol, f) ==> recorded.Some? && mid <= Pct(pol.targetSell))
  {
    hide Rounded, FmtRate, ParsePremium;
    WorseQuotesNeverRankBetter(pol, sp, sp);
    StoredCounter(h, pol, f, sp);
    var base := Read(h, f.lastCounter).GetOr((sp + Pct(pol.targetSell)) / 2.0);
    RoundedInto((base + Pct(pol.targetSell)) / 2.0, pol.minSell, pol.targetSell);
    RoundedHundredths(pol.targetSell);
  }

  // And there is a counter exactly when the gate is open, the quote is worse than the limit of the side,
  // and fewer than two concessions were made; with two, such a quote asks for the final best instead.
  lemma CounterIff(h: Phrases, pol: Policy, f: Facts, sp: Option<real>, gateOpen: bool)
    requires Sound(pol)
    ensures var m := Merge(h, pol, f, sp, gateOpen);
            var beyond := sp.Some? && ((f.side == Buy && sp.value > Pct(pol.maxBuy)) || (f.side == Sell && sp.value < Pct(pol.targetSell)));
            && (m.nextCounter.Some? <==> gateOpen && beyond && f.concessions < 2)
            && (m.finalBest <==> gateOpen && if beyond then f.concessions >= 2 else f.finalBest)
            && (m.counterOffer == if m.nextCounter.Some? then m.nextCounter else if gateOpen then f.counterOffer else None)
            && m.concessions == f.concessions && m.lastCounter == f.lastCounter && m.side == f.side
  {
    hide Rounded, FmtRate, ParsePremium;
    if sp.Some? {
      WorseQuotesNeverRankBetter(pol, sp.value, sp.value);
    }
  }

  // The tier a merge records, and what it proposes to do: bands of one percent above the maximum or below
  // the minimum.  With the gate closed a counter becomes collecting the process.
  lemma MergedTier(h: Phrases, pol: Policy, f: Facts, sp: real, gateOpen: bool)
    requires Sound(pol)
    ensures var m := Merge(h, pol, f, Some(sp), gateOpen);
            && (f.side == Buy ==> BuyBands(pol, sp, m.evaluation)) && (f.side == Sell ==> SellBands(pol, sp, m.evaluation))
            && (f.side == NoSide ==> m.evaluation == Negotiable && m.action == SoftNegotiate)
            && (f.side != NoSide ==>
                  && (m.evaluation == Excellent <==> m.action == Accept)
                  && (m.evaluation == Acceptable <==> m.action == if f.side == Buy then SoftNegotiate else NegotiateUp)
                  && (m.evaluation == OperatorReview <==> m.action == HandOver)
                  && (m.evaluation == Negotiable ==> m.action == if gateOpen then Counter else CollectProcess)
                  && (m.evaluation == Bad ==> m.action == if gateOpen then StrongCounter else CollectProcess))
  {
    hide FmtRate, ParsePremium, NextRate;
  }

  ghost predicate BuyBands(pol: Policy, sp: real, e: Evaluation) {
    var target, max := Pct(pol.targetBuy), Pct(pol.maxBuy);
    && (e == Excellent <==> sp <= target) && (e == Acceptable <==> target < sp <= max)
    && (e == Negotiable <==> max < sp <= max + 1.0) && (e == Bad <==> max + 1.0 < sp <= max + 2.0)
    && (e == OperatorReview <==> max + 2.0 < sp)
  }

  ghost predicate SellBands(pol: Policy, sp: real, e: Evaluation) {
    var target, min := Pct(pol.targetSell), Pct(pol.minSell);
    && (e == Excellent <==> sp >= target) && (e == Acceptable <==> min <= sp < target)
    && (e == Negotiable <==> min - 1.0 <= sp < min) && (e == Bad <==> min - 2.0 <= sp < min - 1.0)
    && (e == OperatorReview <==> sp < min - 2.0)
  }

  // The first concession does happen: one worded turn from fresh facts counts it and records the counter.
  lemma OneTurnConcedes(h: Phrases, pol: Policy, f: Facts, t: Turn)
    requires NeedWords(h) && Sound(pol) && Fresh(f) && Uninterrupted(pol, f.side, t) && t.worded
    ensures var r := Run(h, pol, f, [t]);
            && r.concessions == 1
            && Read(h, r.lastCounter).Some? && Read(h, r.lastCounter) == Read(h, Merge(h, pol, f, t.sp, true).nextCounter)
  {
    hide Rounded, FmtRate, ParsePremium, NextRate, Evaluate, Sound, Merge;
    assert [t][..0] == [] && Run(h, pol, f, []) == f;
    StoredCounter(h, pol, f, t.sp.value);
    TurnKeepsClimbing(h, pol, f, t);
  }
}
