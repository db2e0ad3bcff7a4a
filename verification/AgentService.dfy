/**
 * The message rows of one negotiation task and the service operations on them
 * (src/ai_agent/service.py).  Rows are kept in id order, so "latest by id" is "last in the sequence".
 */
module AgentService {
  import opened Common

  datatype Direction = Outbound | Inbound
  datatype RowStatus = Draft | Sent | Stored | OtherRow
  datatype Stage = Open | Done | NeedsOperator

  // What the step machine reads of the facts stored with an outbound row.
  datatype Facts = Facts(finalSummary: bool, riskFlags: nat, stage: Option<Stage>)

  datatype Message = Message(direction: Direction, status: RowStatus, body: string,
                             telegramId: Option<int>, facts: Option<Facts>, createdAt: int)

  // Normalisation of bodies and the digest behind the cooldown are parameters; `autoflush`
  // says whether a query sees rows added earlier in the same session.
  datatype Config = Config(norm: string -> string, digest: int -> nat, autoflush: bool)

  predicate IsSent(m: Message) { m.direction == Outbound && m.status == Sent }
  predicate IsDraft(m: Message) { m.direction == Outbound && m.status == Draft }
  predicate IsOutbound(m: Message) { m.direction == Outbound }
  predicate IsInbound(m: Message) { m.direction == Inbound }

  function SentCount(ms: seq<Message>): nat { Count(IsSent, ms) }
  function DraftCount(ms: seq<Message>): nat { Count(IsDraft, ms) }
  predicate AnyOutbound(ms: seq<Message>) { Count(IsOutbound, ms) > 0 }

  // The row with the greatest id that satisfies p.
  function Latest(p: Message -> bool, ms: seq<Message>): (r: Option<nat>)
    ensures r.Some? ==> r.value < |ms| && p(ms[r.value])
    ensures r.Some? ==> forall k :: r.value < k < |ms| ==> !p(ms[k])
    ensures r.None? ==> forall k :: 0 <= k < |ms| ==> !p(ms[k])
  {
    if ms == [] then None
    else if p(ms[|ms| - 1]) then Some(|ms| - 1)
    else Latest(p, ms[..|ms| - 1])
  }

  // Guards

  function CooldownSeconds(c: Config, lastAt: int): (r: int)
    ensures 60 <= r <= 300
  {
    60 + c.digest(lastAt) % 241
  }

  predicate CooledDown(c: Config, ms: seq<Message>, at: int) {
    var last := Latest(IsSent, ms);
    last.Some? ==> at - ms[last.value].createdAt >= CooldownSeconds(c, ms[last.value].createdAt) * SECOND
  }

  predicate ShouldWait(ms: seq<Message>) {
    var out := Latest(IsSent, ms);
    var inb := Latest(IsInbound, ms);
    out.Some? && (inb.None? || ms[out.value].createdAt > ms[inb.value].createdAt)
  }

  predicate DuplicateOfLastSent(c: Config, ms: seq<Message>, body: string) {
    var last := Latest(IsSent, ms);
    !Blank(body) && last.Some? && c.norm(ms[last.value].body) == c.norm(body)
  }

  predicate HasFacts(m: Message) { IsOutbound(m) && m.facts.Some? }

  // Facts of the newest outbound row that carries any, drafts included.
  function LatestFacts(ms: seq<Message>): Option<Facts> {
    var k := Latest(HasFacts, ms);
    if k.Some? then ms[k.value].facts else None
  }

  // Row changes

  function WithoutDrafts(ms: seq<Message>): (r: seq<Message>)
    ensures DraftCount(r) == 0
    ensures SentCount(r) == SentCount(ms)
    ensures forall m :: m in r <==> m in ms && !IsDraft(m)
  {
    if ms == [] then []
    else
      var front := WithoutDrafts(ms[..|ms| - 1]);
      var last := ms[|ms| - 1];
      assert ms == ms[..|ms| - 1] + [last];
      if IsDraft(last) then front
      else
        CountConcat(IsDraft, front, [last]);
        CountConcat(IsSent, front, [last]);
        front + [last]
  }

  function DraftRow(body: string, facts: Facts, at: int): Message {
    Message(Outbound, Draft, body, None, Some(facts), at)
  }

  function WithDraft(ms: seq<Message>, body: string, facts: Facts, at: int): seq<Message> {
    WithoutDrafts(ms) + [DraftRow(body, facts, at)]
  }

  function MarkSent(ms: seq<Message>, k: nat, tid: Option<int>): seq<Message>
    requires k < |ms|
  {
    ms[k := ms[k].(status := Sent, telegramId := tid)]
  }

  // One fetched Telegram message; `at` is the clock reading taken if it is stored.
  datatype Fetched = Fetched(tid: Option<int>, text: string, at: int)

  function InboundRow(f: Fetched): Message
    requires f.tid.Some?
  {
    Message(Inbound, Stored, f.text, f.tid, None, f.at)
  }

  predicate Known(ms: seq<Message>, tid: Option<int>) {
    exists k :: 0 <= k < |ms| && ms[k].telegramId == tid
  }

  lemma KnownInPrefix(seen: seq<Message>, rows: seq<Message>, tid: Option<int>)
    requires Known(seen, tid)
    ensures Known(seen + rows, tid)
  {
    var k :| 0 <= k < |seen| && seen[k].telegramId == tid;
    assert (seen + rows)[k] == seen[k];
  }

  // Rows added for `items`, looking for known ids in `seen` (and, with autoflush, in the rows
  // added so far).
  function NewRows(c: Config, seen: seq<Message>, items: seq<Fetched>): (rows: seq<Message>)
    ensures forall m :: m in rows ==> IsInbound(m) && m.status == Stored && m.telegramId.Some? && !Known(seen, m.telegramId)
  {
    if items == [] then []
    else
      var rows := NewRows(c, seen, items[..|items| - 1]);
      var f := items[|items| - 1];
      assert Known(seen, f.tid) ==> Known(seen + rows, f.tid) by {
        if Known(seen, f.tid) { KnownInPrefix(seen, rows, f.tid); }
      }
      if f.tid.None? || Known(if c.autoflush then seen + rows else seen, f.tid) then rows
      else rows + [InboundRow(f)]
  }

  // Lemmas on the row changes

  lemma CountOne<T>(p: T -> bool, x: T)
    ensures Count(p, [x]) == if p(x) then 1 else 0
  {
    assert [x][..0] == [];
    assert Count(p, []) == 0;
  }

  lemma {:induction false} CountUpdate<T>(p: T -> bool, xs: seq<T>, k: nat, x: T)
    requires k < |xs|
    ensures Count(p, xs[k := x]) == Count(p, xs) - (if p(xs[k]) then 1 else 0) + (if p(x) then 1 else 0)
  {
    assert xs == xs[..k] + ([xs[k]] + xs[k + 1..]);
    assert xs[k := x] == xs[..k] + ([x] + xs[k + 1..]);
    CountConcat(p, xs[..k], [xs[k]] + xs[k + 1..]);
    CountConcat(p, xs[..k], [x] + xs[k + 1..]);
    CountConcat(p, [xs[k]], xs[k + 1..]);
    CountConcat(p, [x], xs[k + 1..]);
    CountOne(p, xs[k]);
    CountOne(p, x);
  }

  // Generating leaves exactly one draft and touches no sent row.
  lemma WithDraftCounts(ms: seq<Message>, body: string, facts: Facts, at: int)
    ensures DraftCount(WithDraft(ms, body, facts, at)) == 1
    ensures SentCount(WithDraft(ms, body, facts, at)) == SentCount(ms)
    ensures AnyOutbound(WithDraft(ms, body, facts, at))
  {
    var kept, row := WithoutDrafts(ms), DraftRow(body, facts, at);
    CountConcat(IsDraft, kept, [row]);
    CountConcat(IsSent, kept, [row]);
    CountConcat(IsOutbound, kept, [row]);
    CountOne(IsDraft, row);
    CountOne(IsSent, row);
    CountOne(IsOutbound, row);
  }

  lemma MarkSentCounts(ms: seq<Message>, k: nat, tid: Option<int>)
    requires k < |ms| && IsDraft(ms[k])
    ensures DraftCount(MarkSent(ms, k, tid)) == DraftCount(ms) - 1
    ensures SentCount(MarkSent(ms, k, tid)) == SentCount(ms) + 1
    ensures AnyOutbound(MarkSent(ms, k, tid))
  {
    var row := ms[k].(status := Sent, telegramId := tid);
    CountUpdate(IsDraft, ms, k, row);
    CountUpdate(IsSent, ms, k, row);
    CountUpdate(IsOutbound, ms, k, row);
    assert IsOutbound(MarkSent(ms, k, tid)[k]);
  }

  lemma AppendInboundCounts(ms: seq<Message>, rows: seq<Message>)
    requires forall m :: m in rows ==> IsInbound(m)
    ensures DraftCount(ms + rows) == DraftCount(ms)
    ensures SentCount(ms + rows) == SentCount(ms)
    ensures AnyOutbound(ms + rows) == AnyOutbound(ms)
  {
    CountConcat(IsDraft, ms, rows);
    CountConcat(IsSent, ms, rows);
    CountConcat(IsOutbound, ms, rows);
    assert forall k :: 0 <= k < |rows| ==> rows[k] in rows;
  }

  lemma {:induction false} NewRowsCoverItems(c: Config, seen: seq<Message>, items: seq<Fetched>, i: nat)
    requires i < |items| && items[i].tid.Some?
    ensures Known(seen + NewRows(c, seen, items), items[i].tid)
  {
    var front := items[..|items| - 1];
    var rows, all := NewRows(c, seen, front), NewRows(c, seen, items);
    assert rows <= all && seen + all == seen + rows + all[|rows|..];
    if i < |items| - 1 {
      NewRowsCoverItems(c, seen, front, i);
      KnownInPrefix(seen + rows, all[|rows|..], items[i].tid);
    } else if all == rows + [InboundRow(items[i])] {
      assert (seen + all)[|seen + rows|].telegramId == items[i].tid;
    } else {
      if Known(seen, items[i].tid) {
        KnownInPrefix(seen, rows, items[i].tid);
      }
      KnownInPrefix(seen + rows, all[|rows|..], items[i].tid);
    }
  }

  // Fetching the same messages again stores nothing: an inserting sync brought an unseen id.
  lemma {:induction false} ResyncInsertsNothing(c: Config, seen: seq<Message>, items: seq<Fetched>, upto: nat)
    requires upto <= |items|
    ensures NewRows(c, seen + NewRows(c, seen, items), items[..upto]) == []
  {
    if upto > 0 {
      assert items[..upto][..upto - 1] == items[..upto - 1];
      ResyncInsertsNothing(c, seen, items, upto - 1);
      var all := seen + NewRows(c, seen, items);
      if items[upto - 1].tid.Some? {
        NewRowsCoverItems(c, seen, items, upto - 1);
      }
      assert all + [] == all;
    }
  }
}
