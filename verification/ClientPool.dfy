/**
 * Who owns the per-account session locks and the temporary copies of session files
 * (src/clients/manager.py).  A lock is exclusive: while one handle on an account is held, no second
 * one is granted, not even to the same process.
 */
module ClientPool {
  import opened Common
  import opened SessionResolve

  // What a pooled wrapper holds: the account whose lock it has, and its temporary directory.
  datatype Slot = Slot(lock: Option<int>, dir: Option<int>)

  // The pool, with every lock this process holds and every temporary directory it has left on disk.
  datatype Pool = Pool(slots: map<int, Slot>, held: set<int>, dirs: set<int>)

  datatype Reply = Given | Refused | Threw

  datatype Connecting = Connected | NotConnected | ConnectFailed | ConnectCancelled

  // What one add_account call meets.
  datatype AddWorld = AddWorld(known: bool, found: Report, granted: bool, constructs: bool, connecting: Connecting)

  datatype Copying = NoSource | CopyFailed | Copied(dir: int)
  datatype Attempt = AttemptFailed | Authorized | Unauthorized | Cancelled

  // What one connect_account call meets; attempts are numbered from 1.
  datatype ConnectWorld = ConnectWorld(
    known: bool, found: Report, disposable: bool, copying: Copying, granted: bool, constructs: bool,
    attempt: int -> Attempt)

  const CONNECT_ATTEMPTS := 4

  function Of(o: Option<int>): set<int> { if o.Some? then {o.value} else {} }

  // _release_wrapper_session_lock
  function Released(p: Pool, s: Slot): Pool {
    p.(held := p.held - Of(s.lock), dirs := p.dirs - Of(s.dir))
  }

  function Claimed(p: Pool, s: Slot): Pool {
    p.(held := p.held + Of(s.lock), dirs := p.dirs + Of(s.dir))
  }

  // The pool with a new wrapper for an account in place of the old one, which is released.
  function Replaced(p: Pool, id: int, s: Slot): Pool {
    var r := if id in p.slots then Released(p, p.slots[id]) else p;
    r.(slots := r.slots[id := s])
  }

  // Every held lock and every directory belongs to exactly one pooled wrapper, and to none else.
  ghost predicate Sound(p: Pool) {
    && (forall a :: a in p.slots && p.slots[a].lock.Some? ==> p.slots[a].lock == Some(a) && a in p.held)
    && (forall h :: h in p.held ==> h in p.slots && p.slots[h].lock == Some(h))
    && (forall a :: a in p.slots && p.slots[a].dir.Some? ==> p.slots[a].dir.value in p.dirs)
    && (forall d :: d in p.dirs ==> OwnsDir(p, d))
    && (forall a, b :: a in p.slots && b in p.slots && a != b && p.slots[a].dir.Some? ==> p.slots[a].dir != p.slots[b].dir)
  }

  ghost predicate OwnsDir(p: Pool, d: int) { exists a :: a in p.slots && p.slots[a].dir == Some(d) }

  function AddStep(p: Pool, id: int, e: AddWorld): (Pool, Reply) {
    if !e.known then (p, Refused)
    else if id in p.slots then (p, Given)
    else if e.found == Raises || e.found.error.Some? then (p, Refused)
    else if id in p.held || !e.granted || !e.constructs then (p, Refused)
    else
      match e.connecting
      case Connected => (p.(slots := p.slots[id := Slot(Some(id), None)], held := p.held + {id}), Given)
      case ConnectCancelled => (p, Threw)
      case NotConnected => (p, Refused)
      case ConnectFailed => (p, Refused)
  }

  // The answer of the first attempt that does not fail, from the given one on.
  function Answer(e: ConnectWorld, from: int): Attempt
    requires 1 <= from <= CONNECT_ATTEMPTS + 1
    decreases CONNECT_ATTEMPTS - from
  {
    if from > CONNECT_ATTEMPTS then AttemptFailed
    else if e.attempt(from) == AttemptFailed then Answer(e, from + 1)
    else e.attempt(from)
  }

  // What the call takes hold of before it builds a client; None when it gives up first.
  function Claim(p: Pool, id: int, e: ConnectWorld): Option<Slot>
    requires e.found.Report?
  {
    if e.found.kind != FileKind then Some(Slot(None, None))
    else if e.disposable then (if e.copying.Copied? then Some(Slot(None, Some(e.copying.dir))) else None)
    else if id in p.held || !e.granted then None
    else Some(Slot(Some(id), None))
  }

  function ConnectStep(p: Pool, id: int, e: ConnectWorld): (Pool, Reply) {
    if !e.known then (p, Refused)
    else if e.found == Raises then (p, Threw)
    else if e.found.error.Some? then (p, Refused)
    else if Claim(p, id, e).None? then (p, Refused)
    else
      var claim := Claim(p, id, e).value;
      var q := Claimed(p, claim);
      if !e.constructs then (q, Threw)
      else
        match Answer(e, 1)
        case Authorized =>
          (Replaced(q, id, claim), Given)
        case Cancelled => (Released(q, claim), Threw)
        case AttemptFailed => (Released(q, claim), Refused)
        case Unauthorized => (Released(q, claim), Refused)
  }

  function RemoveStep(p: Pool, id: int, disconnects: bool): (Pool, Reply) {
    if id !in p.slots then (p, Refused)
    else if !disconnects then (p, Threw)
    else (Released(p, p.slots[id]).(slots := p.slots - {id}), Given)
  }

  // How a connect call ends

  // The call gets as far as building a client.
  predicate TakesMaterial(p: Pool, id: int, e: ConnectWorld) {
    && e.known && e.found.Report? && e.found.error.None?
    && (e.found.kind == FileKind ==> if e.disposable then e.copying.Copied? else id !in p.held && e.granted)
  }

  // Attempt k gives the answer and every one before it failed.
  predicate AnsweredAt(e: ConnectWorld, answer: Attempt, k: int) {
    1 <= k <= 4 && e.attempt(k) == answer && forall j :: 1 <= j < k ==> e.attempt(j) == AttemptFailed
  }

  lemma {:induction false} AnswerIff(e: ConnectWorld, answer: Attempt, from: int)
    requires answer != AttemptFailed && 1 <= from <= CONNECT_ATTEMPTS + 1
    requires forall j :: 1 <= j < from ==> e.attempt(j) == AttemptFailed
    ensures Answer(e, from) == answer <==> exists k :: AnsweredAt(e, answer, k)
    decreases CONNECT_ATTEMPTS - from
  {
    if from <= CONNECT_ATTEMPTS {
      if e.attempt(from) == AttemptFailed {
        AnswerIff(e, answer, from + 1);
      } else {
        assert e.attempt(from) == answer ==> AnsweredAt(e, answer, from);
      }
    }
  }

  // A client is handed out exactly when one was built and the first attempt that did not fail found it
  // authorized.  Only then does the pool change its wrappers, and only for this account, whose new
  // wrapper has its lock exactly for its own session file and a directory exactly for a copied one.
  lemma ConnectEnds(p: Pool, id: int, e: ConnectWorld)
    ensures var (q, reply) := ConnectStep(p, id, e);
            var given := TakesMaterial(p, id, e) && e.constructs && exists k :: AnsweredAt(e, Authorized, k);
            && (reply == Given <==> given)
            && (reply == Threw <==> (e.known && e.found == Raises)
                                    || (TakesMaterial(p, id, e) && (!e.constructs || exists k :: AnsweredAt(e, Cancelled, k))))
            && (!given ==> q.slots == p.slots)
            && (given ==> id in q.slots && q.slots == p.slots[id := q.slots[id]]
                          && q.slots[id].lock == (if e.found.kind == FileKind && !e.disposable then Some(id) else None)
                          && q.slots[id].dir == (if e.found.kind == FileKind && e.disposable then Some(e.copying.dir) else None))
  {
    hide Answer;
    AnswerIff(e, Authorized, 1);
    AnswerIff(e, Cancelled, 1);
  }

  // Adding: a wrapper comes back exactly when the account is pooled already, or is built under its lock
  // and connects; nothing else changes the wrappers.
  lemma AddEnds(p: Pool, id: int, e: AddWorld)
    ensures var (q, reply) := AddStep(p, id, e);
            var builds := e.known && id !in p.slots && e.found.Report? && e.found.error.None? && id !in p.held && e.granted && e.constructs;
            && (reply == Given <==> e.known && (id in p.slots || (builds && e.connecting == Connected)))
            && (reply == Threw <==> builds && e.connecting == ConnectCancelled)
            && (builds && e.connecting == Connected ==> q.slots == p.slots[id := Slot(Some(id), None)] && q.held == p.held + {id})
            && (!(builds && e.connecting == Connected) ==> q == p)
  {
  }

  // Removing: the wrapper goes with its lock and directory exactly when it disconnects; a failing
  // disconnect is raised and changes nothing.
  lemma RemoveEnds(p: Pool, id: int, disconnects: bool)
    ensures var (q, reply) := RemoveStep(p, id, disconnects);
            && (reply == Given <==> id in p.slots && disconnects)
            && (reply == Threw <==> id in p.slots && !disconnects)
            && (reply != Given ==> q == p)
            && (reply == Given ==>
                  && q.slots == p.slots - {id}
                  && (forall h :: h in q.held <==> h in p.held && p.slots[id].lock != Some(h))
                  && (forall d :: d in q.dirs <==> d in p.dirs && p.slots[id].dir != Some(d)))
  {
  }

  class Wrapper {
    const account: int
    var lock: Option<int>
    var dir: Option<int>

    constructor (account: int, lock: Option<int>, dir: Option<int>)
      ensures this.account == account && this.lock == lock && this.dir == dir
    { this.account, this.lock, this.dir := account, lock, dir; }

    function Holding(): Slot reads this { Slot(lock, dir) }
  }

  class ClientManager {
    var clients: map<int, Wrapper>
    var held: set<int>
    var dirs: set<int>

    constructor ()
      ensures Valid() && View() == Pool(map[], {}, {})
    { clients, held, dirs := map[], {}, {}; }

    ghost function Pooled(): set<object> reads this { set a | a in clients :: clients[a] }

    // Each account's wrapper is its own object.
    ghost predicate Valid() reads this {
      forall a :: a in clients ==> clients[a].account == a
    }

    ghost function View(): Pool reads this, Pooled() {
      Pool(map a | a in clients :: clients[a].Holding(), held, dirs)
    }

    method ReleaseWrapper(w: Wrapper)
      modifies this`held, this`dirs, w
      ensures w.lock == None && w.dir == None
      ensures held == old(held - Of(w.lock)) && dirs == old(dirs - Of(w.dir))
    {
      if w.lock.Some? {
        held := held - {w.lock.value};
        w.lock := None;
      }
      if w.dir.Some? {
        dirs := dirs - {w.dir.value};
        w.dir := None;
      }
    }

    method AddAccount(id: int, e: AddWorld) returns (w: Wrapper?, reply: Reply)
      requires Valid()
      modifies this
      ensures Valid() && (View(), reply) == AddStep(old(View()), id, e)
      ensures w != null <==> reply == Given
      ensures w != null ==> id in clients && clients[id] == w && (id in old(clients) ==> w == old(clients[id]))
    {
      if !e.known { return null, Refused; }
      if id in clients { return clients[id], Given; }
      if e.found == Raises || e.found.error.Some? { return null, Refused; }
      if id in held || !e.granted { return null, Refused; }
      held := held + {id};
      if !e.constructs {
        held := held - {id};
        return null, Refused;
      }
      var added := new Wrapper(id, Some(id), None);
      if e.connecting != Connected {
        ReleaseWrapper(added);
        assert held == old(held) && dirs == old(dirs);
        assert View().slots == old(View().slots);
        return null, if e.connecting == ConnectCancelled then Threw else Refused;
      }
      clients := clients[id := added];
      assert View().slots == old(View().slots)[id := Slot(Some(id), None)];
      return added, Given;
    }

    method RemoveAccount(id: int, disconnects: bool) returns (reply: Reply)
      requires Valid()
      modifies this, Pooled()
      ensures Valid() && (View(), reply) == RemoveStep(old(View()), id, disconnects)
      ensures reply == Given ==> old(clients[id]).Holding() == Slot(None, None)
    {
      if id !in clients { return Refused; }
      var w := clients[id];
      if !disconnects { return Threw; }
      assert forall a :: a in clients && a != id ==> clients[a] != w;
      ReleaseWrapper(w);
      clients := clients - {id};
      assert View().slots == old(View().slots) - {id};
      reply := Given;
    }

    // Up to four attempts; None when the loop ends without an answer.
    method TryToConnect(e: ConnectWorld) returns (answer: Attempt)
      ensures answer == Answer(e, 1)
    {
      var attempt := 1;
      while attempt <= CONNECT_ATTEMPTS
        invariant 1 <= attempt <= CONNECT_ATTEMPTS + 1
        invariant Answer(e, 1) == Answer(e, attempt)
      {
        if e.attempt(attempt) != AttemptFailed { return e.attempt(attempt); }
        attempt := attempt + 1;
      }
      answer := AttemptFailed;
    }

    // The session material taken hold of before a client is built.
    method TakeHold(id: int, e: ConnectWorld) returns (claim: Option<Slot>)
      requires e.found.Report?
      modifies this`held, this`dirs
      ensures claim == Claim(old(View()), id, e)
      ensures held == (if claim.Some? then old(held) + Of(claim.value.lock) else old(held))
      ensures dirs == (if claim.Some? then old(dirs) + Of(claim.value.dir) else old(dirs))
    {
      if e.found.kind == FileKind && e.disposable {
        if !e.copying.Copied? { return None; }
        dirs := dirs + {e.copying.dir};
        return Some(Slot(None, Some(e.copying.dir)));
      }
      if e.found.kind == FileKind {
        if id in held || !e.granted { return None; }
        held := held + {id};
        return Some(Slot(Some(id), None));
      }
      claim := Some(Slot(None, None));
    }

    // The old wrapper leaves the pool, is released, and the new one takes its place.
    method SwapIn(id: int, w: Wrapper)
      requires Valid() && w.account == id && w !in Pooled()
      modifies this, Pooled()
      ensures Valid() && View() == Replaced(old(View()), id, old(w.Holding()))
      ensures id in clients && clients[id] == w && w.Holding() == old(w.Holding())
      ensures id in old(clients) ==> old(clients[id]).Holding() == Slot(None, None)
    {
      if id in clients {
        var replaced := clients[id];
        assert forall a :: a in clients && a != id ==> clients[a] != replaced;
        clients := clients - {id};
        ReleaseWrapper(replaced);
      }
      clients := clients[id := w];
      assert View().slots == old(View().slots)[id := old(w.Holding())];
    }

    method ConnectAccount(id: int, e: ConnectWorld) returns (w: Wrapper?, reply: Reply)
      requires Valid()
      modifies this, Pooled()
      ensures Valid() && (View(), reply) == ConnectStep(old(View()), id, e)
      ensures w != null <==> reply == Given
      ensures w != null ==> id in clients && clients[id] == w && fresh(w)
      ensures w != null && id in old(clients) ==> old(clients[id]).Holding() == Slot(None, None)
    {
      hide Answer, Claim, Replaced;
      if !e.known { return null, Refused; }
      if e.found == Raises { return null, Threw; }
      if e.found.error.Some? { return null, Refused; }
      var claim := TakeHold(id, e);
      if claim.None? { return null, Refused; }
      var lock, dir := claim.value.lock, claim.value.dir;
      assert View() == Claimed(old(View()), claim.value);
      if !e.constructs { return null, Threw; }
      var answer := TryToConnect(e);
      if answer != Authorized {
        held := held - Of(lock);
        dirs := dirs - Of(dir);
        assert View() == Released(Claimed(old(View()), claim.value), claim.value);
        return null, if answer == Cancelled then Threw else Refused;
      }
      w := new Wrapper(id, lock, dir);
      SwapIn(id, w);
      reply := Given;
    }
  }

  // Histories

  datatype Call = Add(e: AddWorld) | Connect(c: ConnectWorld) | Remove(disconnects: bool)
  datatype Event = Event(id: int, call: Call)

  function Step(p: Pool, ev: Event): (Pool, Reply) {
    match ev.call
    case Add(e) => AddStep(p, ev.id, e)
    case Connect(c) => ConnectStep(p, ev.id, c)
    case Remove(disconnects) => RemoveStep(p, ev.id, disconnects)
  }

  function After(p: Pool, history: seq<Event>): Pool {
    if history == [] then p else Step(After(p, history[..|history| - 1]), history[|history| - 1]).0
  }

  // A temporary directory is created under a name not yet on disk.
  predicate FreshDir(p: Pool, ev: Event) {
    ev.call.Connect? && ev.call.c.copying.Copied? ==> ev.call.c.copying.dir !in p.dirs
  }

  // connect_account builds its client outside its cleanup block, holding what it has claimed.
  predicate Leaks(p: Pool, ev: Event) {
    ev.call.Connect? &&
    var c := ev.call.c;
    c.known && c.found.Report? && c.found.error.None? && !c.constructs
    && Claim(p, ev.id, c).Some? && Claim(p, ev.id, c).value != Slot(None, None)
  }

  lemma ReplaceKeepsSound(p: Pool, id: int, claim: Slot)
    requires Sound(p) && (claim.lock.Some? ==> claim.lock == Some(id) && id !in p.held)
    requires claim.dir.Some? ==> claim.dir.value !in p.dirs
    ensures Sound(Replaced(Claimed(p, claim), id, claim))
  {
    var s := Replaced(Claimed(p, claim), id, claim);
    forall d | d in s.dirs ensures OwnsDir(s, d) {
      if claim.dir == Some(d) {
        assert s.slots[id].dir == Some(d);
      } else {
        var a :| a in p.slots && p.slots[a].dir == Some(d);
        assert s.slots[a].dir == Some(d);
      }
    }
  }

  lemma ForgetKeepsSound(p: Pool, id: int)
    requires Sound(p) && id in p.slots
    ensures Sound(Released(p, p.slots[id]).(slots := p.slots - {id}))
  {
    var s := Released(p, p.slots[id]).(slots := p.slots - {id});
    forall d | d in s.dirs ensures OwnsDir(s, d) {
      var a :| a in p.slots && p.slots[a].dir == Some(d);
      assert s.slots[a].dir == Some(d);
    }
  }

  // From a sound pool every call but a leaking one ends in a sound pool, and gives back all it took
  // when it returns no wrapper.  A leaking call never ends in a sound pool.
  lemma StepKeepsSoundIff(p: Pool, ev: Event)
    requires Sound(p) && FreshDir(p, ev)
    ensures Sound(Step(p, ev).0) <==> !Leaks(p, ev)
    ensures Step(p, ev).1 != Given && !Leaks(p, ev) ==> Step(p, ev).0 == p
  {
    hide Sound, Answer, Replaced;
    match ev.call
    case Add(e) => ReplaceKeepsSoundForAdd(p, ev.id, e);
    case Remove(disconnects) => if ev.id in p.slots { ForgetKeepsSound(p, ev.id); }
    case Connect(c) =>
      if c.known && c.found.Report? && c.found.error.None? && Claim(p, ev.id, c).Some? {
        var claim := Claim(p, ev.id, c).value;
        if !c.constructs {
          UnownedClaim(p, claim);
        } else {
          ReplaceKeepsSound(p, ev.id, claim);
          assert Released(Claimed(p, claim), claim) == p;
        }
      }
  }

  lemma ReplaceKeepsSoundForAdd(p: Pool, id: int, e: AddWorld)
    requires Sound(p)
    ensures Sound(AddStep(p, id, e).0)
    ensures AddStep(p, id, e).1 != Given ==> AddStep(p, id, e).0 == p
  {
    hide Sound;
    if id !in p.held && id !in p.slots {
      var s := Slot(Some(id), None);
      ReplaceKeepsSound(p, id, s);
      assert Replaced(Claimed(p, s), id, s) == p.(slots := p.slots[id := s], held := p.held + {id});
    }
  }

  lemma UnownedClaim(p: Pool, claim: Slot)
    requires Sound(p)
    requires claim.lock.Some? ==> claim.lock.value !in p.held
    requires claim.dir.Some? ==> claim.dir.value !in p.dirs
    ensures Sound(Claimed(p, claim)) <==> claim == Slot(None, None)
  {
    if claim == Slot(None, None) {
      assert Claimed(p, claim) == p;
    } else if claim.lock.Some? {
      var h := claim.lock.value;
      assert h in Claimed(p, claim).held && !(h in p.slots && p.slots[h].lock == Some(h));
    } else {
      assert claim.dir.value in Claimed(p, claim).dirs && !OwnsDir(Claimed(p, claim), claim.dir.value);
    }
  }

  // Ownership over whole histories.
  lemma {:induction false} LocksHaveOwners(p: Pool, history: seq<Event>)
    requires Sound(p)
    requires forall k :: 0 <= k < |history| ==>
      FreshDir(After(p, history[..k]), history[k]) && !Leaks(After(p, history[..k]), history[k])
    ensures Sound(After(p, history))
  {
    hide Sound, Step, Leaks, FreshDir;
    if history != [] {
      var front := history[..|history| - 1];
      forall k | 0 <= k < |front|
        ensures FreshDir(After(p, front[..k]), front[k]) && !Leaks(After(p, front[..k]), front[k])
      {
        assert front[..k] == history[..k] && front[k] == history[k];
      }
      LocksHaveOwners(p, front);
      StepKeepsSoundIff(After(p, front), history[|history| - 1]);
    }
  }

  // A held lock that no pooled wrapper has.
  ghost predicate Orphaned(p: Pool, id: int) {
    id in p.held && forall a :: a in p.slots ==> p.slots[a].lock != Some(id)
  }

  // Nothing in the manager ever frees an orphaned lock: the account cannot be added afresh, nor
  // connected from its own session file, for the rest of the history.
  lemma {:induction false} OrphanedForGood(p: Pool, id: int, history: seq<Event>)
    requires Orphaned(p, id)
    ensures Orphaned(After(p, history), id)
  {
    if history != [] {
      OrphanedForGood(p, id, history[..|history| - 1]);
      OrphanStays(After(p, history[..|history| - 1]), id, history[|history| - 1]);
    }
  }

  lemma OrphanStays(p: Pool, id: int, ev: Event)
    requires Orphaned(p, id)
    ensures Orphaned(Step(p, ev).0, id)
  {
    hide Answer;
  }

  lemma OrphanBlocksTheAccount(p: Pool, id: int, e: AddWorld, c: ConnectWorld)
    requires Orphaned(p, id)
    ensures id !in p.slots ==> AddStep(p, id, e) == (p, Refused)
    ensures c.found.Report? && c.found.kind == FileKind && !c.disposable ==> ConnectStep(p, id, c) == (p, Refused)
  {
  }

  // The same rule meets a healthy pool: an account pooled with its lock cannot be connected again
  // from its session file.
  lemma PooledLockRefusesReconnect(p: Pool, id: int, c: ConnectWorld)
    requires Sound(p) && id in p.slots && p.slots[id].lock.Some?
    requires c.found.Report? && c.found.kind == FileKind && !c.disposable
    ensures ConnectStep(p, id, c) == (p, Refused)
  {
  }

  // What adding takes, removing gives back: the two calls leave any pool as it was.
  lemma AddThenRemove(p: Pool, id: int, e: AddWorld)
    requires id !in p.slots && AddStep(p, id, e).1 == Given
    ensures var r := After(p, [Event(id, Add(e)), Event(id, Remove(true))]);
            r == p && After(p, [Event(id, Add(e))]) != p
  {
    var add, remove := Event(id, Add(e)), Event(id, Remove(true));
    assert [add, remove][..1] == [add] && [add][..0] == [];
    assert After(p, []) == p;
    var q := After(p, [add]);
    assert q == AddStep(p, id, e).0 && id in q.slots;
    assert After(p, [add, remove]) == RemoveStep(q, id, true).0;
    assert q.slots - {id} == p.slots;
  }
}
