/**
 * Encrypting, and re-keying, the session column of the accounts table
 * (scripts/db/migrate_telegram_session_encryption.py).  The table maps account ids to the stored text
 * (None for NULL); the order in which a cursor visits the ids is arbitrary.
 */
module SessionMigration {
  import opened Common
  import opened SessionMaterial

  type Table = map<int, Option<string>>

  // The settings of one run: what it opens and seals with, and whether envelopes are bound to ids.
  // The random nonces are drawn per account; a digest
  // stands in for each session that is checked afterwards.
  datatype Run = Run(cipher: Cipher, service: Service, bind: bool, nonce: int -> string, digest: string -> string)

  ghost predicate Sound(r: Run) {
    Lawful(r.cipher) && Valid(r.service) && forall id :: ColonFree(r.nonce(id))
  }

  function Account(r: Run, id: int): Option<int> { if r.bind then Some(id) else None }

  function Open(r: Run, id: int, stored: string): Option<string> {
    Decrypt(r.cipher, r.service, stored, Account(r, id))
  }

  function Seal(r: Run, id: int, plain: string): Option<string> {
    Encrypt(r.cipher, r.service, plain, r.nonce(id), Account(r, id))
  }

  function Rekey(r: Run, target: string, id: int, stored: string): Option<string> {
    Reencrypt(r.cipher, r.service, stored, target, r.nonce(id), Account(r, id))
  }

  // What an account's row reads as: nothing stored, an error, or a session.
  datatype Reading = Absent | Unreadable | Session(text: string)

  function Read(r: Run, id: int, stored: Option<string>): Reading {
    if stored.None? then Absent
    else match Open(r, id, stored.value) case None => Unreadable case Some(text) => Session(text)
  }

  ghost predicate Visits(order: seq<int>, t: Table) {
    && (forall i :: 0 <= i < |order| ==> order[i] in t)
    && (forall id :: id in t ==> id in order)
    && (forall i, j :: 0 <= i < j < |order| ==> order[i] != order[j])
  }

  // Row classes

  predicate Stored(t: Table, id: int) { id in t && t[id].Some? && t[id].value != "" }
  predicate IsPlaintext(t: Table, id: int) { Stored(t, id) && InspectFormat(t[id].value) == Legacy }
  predicate IsV1(t: Table, id: int) { Stored(t, id) && IsEncrypted(t[id].value) }
  predicate IsOpenable(r: Run, t: Table, id: int) { IsV1(t, id) && Open(r, id, t[id].value).Some? }

  function Plaintexts(t: Table): set<int> { set id | id in t && IsPlaintext(t, id) }
  function Envelopes(t: Table): set<int> { set id | id in t && IsV1(t, id) }
  function Openable(r: Run, t: Table): set<int> { set id | id in t && IsOpenable(r, t, id) }
  function StoredIds(t: Table): set<int> { set id | id in t && Stored(t, id) }

  // The three lists of the classification, in cursor order, each row in exactly one of them.
  method ClassifyRows(r: Run, t: Table, order: seq<int>)
      returns (plaintext: seq<int>, encrypted: seq<int>, unknown: seq<int>)
    requires Visits(order, t)
    ensures Distinct(plaintext) && forall id :: id in plaintext <==> id in t && IsPlaintext(t, id)
    ensures Distinct(encrypted) && forall id :: id in encrypted <==> id in t && IsOpenable(r, t, id)
    ensures forall id :: id in unknown <==> id in t && Stored(t, id) && !IsPlaintext(t, id) && !IsOpenable(r, t, id)
  {
    hide Open;
    plaintext, encrypted, unknown := [], [], [];
    for k := 0 to |order|
      invariant Distinct(plaintext) && forall id :: id in plaintext <==> id in order[..k] && IsPlaintext(t, id)
      invariant Distinct(encrypted) && forall id :: id in encrypted <==> id in order[..k] && IsOpenable(r, t, id)
      invariant forall id :: id in unknown <==> id in order[..k] && Stored(t, id) && !IsPlaintext(t, id) && !IsOpenable(r, t, id)
    {
      var id := order[k];
      assert order[..k + 1] == order[..k] + [id];
      assert id !in order[..k];
      if Stored(t, id) {
        var stored := t[id].value;
        var format := InspectFormat(stored);
        if format == EncV1 {
          if Open(r, id, stored).Some? { encrypted := encrypted + [id]; } else { unknown := unknown + [id]; }
        } else if format == Legacy {
          plaintext := plaintext + [id];
        } else {
          unknown := unknown + [id];
        }
      }
    }
    assert order[..|order|] == order;
  }

  predicate Distinct(s: seq<int>) { forall i, j :: 0 <= i < j < |s| ==> s[i] != s[j] }

  // The table a successful migration leaves behind.

  function Migrated(r: Run, t: Table): (m: Table)
    ensures m.Keys == t.Keys
  {
    map id | id in t :: if IsPlaintext(t, id) then Seal(r, id, t[id].value) else t[id]
  }

  lemma SealedPlaintext(r: Run, t: Table, id: int)
    requires Sound(r) && r.service.mode == Transition && IsPlaintext(t, id)
    ensures var e := Seal(r, id, t[id].value);
            && e.Some? && e.value != "" && IsEncrypted(e.value) && InspectFormat(e.value) == EncV1
            && KeyOf(e.value) == r.service.activeKey
            && Open(r, id, e.value) == Some(t[id].value) && Open(r, id, t[id].value) == Some(t[id].value)
  {
    hide KeyOf, Envelope, Encrypt, Split;
    EncryptRoundTrip(r.cipher, r.service, r.service, t[id].value, r.nonce(id), Account(r, id));
  }

  // Migration changes how rows are stored and nothing that can be read from them.
  lemma MigrationPreservesReading(r: Run, t: Table, id: int)
    requires Sound(r) && r.service.mode == Transition && id in t
    ensures Read(r, id, Migrated(r, t)[id]) == Read(r, id, t[id])
    ensures !IsPlaintext(t, id) ==> Migrated(r, t)[id] == t[id]
    ensures IsPlaintext(t, id) ==> IsV1(Migrated(r, t), id) && KeyOf(Migrated(r, t)[id].value) == r.service.activeKey
  {
    hide Open, Seal, KeyOf;
    if IsPlaintext(t, id) { SealedPlaintext(r, t, id); }
  }

  // What a reader with its own account binding makes of the rows: the application reads without one.
  lemma ReadersSeeMigrationIff(r: Run, reader: bool, t: Table, id: int)
    requires Sound(r) && Authentic(r.cipher) && r.service.mode == Transition && id in t
    ensures var own := r.(bind := reader);
            Read(own, id, Migrated(r, t)[id]) == Read(own, id, t[id]) <==> reader == r.bind || !IsPlaintext(t, id)
  {
    hide Split, Join, Envelope, KeyOf;
    var own := r.(bind := reader);
    if reader == r.bind {
      assert own == r;
      MigrationPreservesReading(r, t, id);
    } else if IsPlaintext(t, id) {
      OtherBindingIsRejected(r.cipher, r.service, r.service.activeKey.value, r.nonce(id), t[id].value,
                             Account(r, id), Account(own, id));
    }
  }

  // It leaves no plaintext row, makes exactly the plaintext rows newly openable, and a second
  // migration changes nothing.
  lemma MigrationConverges(r: Run, t: Table)
    requires Sound(r) && r.service.mode == Transition
    ensures Plaintexts(Migrated(r, t)) == {}
    ensures Openable(r, Migrated(r, t)) == Openable(r, t) + Plaintexts(t)
    ensures Migrated(r, Migrated(r, t)) == Migrated(r, t)
  {
    hide Open, Seal, KeyOf;
    var m := Migrated(r, t);
    forall id | id in t
      ensures !IsPlaintext(m, id) && (IsOpenable(r, m, id) <==> IsOpenable(r, t, id) || IsPlaintext(t, id))
    {
      if IsPlaintext(t, id) { SealedPlaintext(r, t, id); }
    }
  }

  datatype Outcome =
    | Refused
    | RolledBack
    | RaisedAfterCommit
    | Done(migrated: nat, verified: nat, plaintextAfter: nat)

  // The value a row presents to the transaction; a NULL column prints as None.
  function Text(stored: Option<string>): string { if stored.Some? then stored.value else "None" }

  predicate RowMigrates(r: Run, t: Table, id: int) {
    id in t ==> t[id].Some? && Seal(r, id, t[id].value).Some?
  }

  function Present(t: Table, ids: seq<int>): set<int> { set id | id in t && id in ids }

  // The table, and the digests taken, once the listed rows have been sealed.

  function Sealed(r: Run, t: Table, ids: seq<int>): Table {
    map id | id in t :: if id in ids then Seal(r, id, Text(t[id])) else t[id]
  }

  function Digests(r: Run, t: Table, ids: seq<int>): map<int, string> {
    map id | id in Present(t, ids) :: r.digest(Text(t[id]))
  }

  ghost predicate AllMigrate(r: Run, t: Table, ids: seq<int>) { forall id :: id in ids ==> RowMigrates(r, t, id) }

  lemma SealedStep(r: Run, t: Table, ids: seq<int>, next: int)
    requires next !in ids
    ensures Sealed(r, t, ids).Keys == t.Keys
    ensures next !in t ==>
      && Sealed(r, t, ids + [next]) == Sealed(r, t, ids)
      && Digests(r, t, ids + [next]) == Digests(r, t, ids)
      && |Present(t, ids + [next])| == |Present(t, ids)|
    ensures next in t ==>
      && Sealed(r, t, ids)[next] == t[next]
      && Sealed(r, t, ids + [next]) == Sealed(r, t, ids)[next := Seal(r, next, Text(t[next]))]
      && Digests(r, t, ids + [next]) == Digests(r, t, ids)[next := r.digest(Text(t[next]))]
      && |Present(t, ids + [next])| == |Present(t, ids)| + 1
  {
    hide Seal, Text;
    if next in t {
      assert Present(t, ids + [next]) == Present(t, ids) + {next};
    } else {
      assert Present(t, ids + [next]) == Present(t, ids);
    }
  }

  lemma NothingSealed(r: Run, t: Table)
    ensures Sealed(r, t, []) == t && Digests(r, t, []) == map[] && Present(t, []) == {}
  {
    assert Present(t, []) == {};
    assert Digests(r, t, []).Keys == {};
    assert Sealed(r, t, []).Keys == t.Keys;
  }

  lemma DistinctNext(ids: seq<int>, k: nat)
    requires Distinct(ids) && k < |ids|
    ensures ids[k] !in ids[..k]
  {
  }

  lemma RefusedRow(r: Run, t: Table, id: int)
    requires id in t && (Seal(r, id, Text(t[id])).None? || t[id] != Some(Text(t[id])))
    ensures !RowMigrates(r, t, id)
  {
    hide Seal;
  }

  // The loop after the commit.  It raises exactly when some envelope does not open, or one that was
  // just sealed reads back differently.
  method VerifyRows(r: Run, t: Table, order: seq<int>, originals: map<int, string>)
      returns (passed: bool, verified: nat, remaining: nat)
    requires Visits(order, t)
    ensures passed <==> forall id :: id in Envelopes(t) ==> Verifies(r, t, originals, id)
    ensures passed ==> verified == |Envelopes(t) * originals.Keys| && remaining == |StoredIds(t) - Envelopes(t)|
  {
    hide Open;
    verified, remaining := 0, 0;
    for k := 0 to |order|
      invariant forall id :: id in Envelopes(t) && id in order[..k] ==> Verifies(r, t, originals, id)
      invariant verified == |Seen(Envelopes(t) * originals.Keys, order[..k])|
      invariant remaining == |Seen(StoredIds(t) - Envelopes(t), order[..k])|
    {
      var id := order[k];
      assert order[..k + 1] == order[..k] + [id];
      SeenStep(Envelopes(t) * originals.Keys, order[..k], id);
      SeenStep(StoredIds(t) - Envelopes(t), order[..k], id);
      if Stored(t, id) {
        if !IsEncrypted(t[id].value) {
          remaining := remaining + 1;
        } else {
          var opened' := Open(r, id, t[id].value);
          if opened'.None? || (id in originals && r.digest(opened'.value) != originals[id]) {
            assert id in Envelopes(t) && !Verifies(r, t, originals, id);
            return false, 0, 0;
          }
          if id in originals { verified := verified + 1; }
        }
      }
    }
    assert order[..|order|] == order;
    assert Seen(Envelopes(t) * originals.Keys, order) == Envelopes(t) * originals.Keys;
    assert Seen(StoredIds(t) - Envelopes(t), order) == StoredIds(t) - Envelopes(t);
    passed := true;
  }

  predicate Verifies(r: Run, t: Table, originals: map<int, string>, id: int)
    requires IsV1(t, id)
  {
    var text := Open(r, id, t[id].value);
    text.Some? && (id in originals ==> r.digest(text.value) == originals[id])
  }

  function Seen(ids: set<int>, order: seq<int>): set<int> { set id | id in ids && id in order }

  lemma SeenStep(ids: set<int>, order: seq<int>, next: int)
    requires next !in order
    ensures |Seen(ids, order + [next])| == |Seen(ids, order)| + (if next in ids then 1 else 0)
  {
    if next in ids {
      assert Seen(ids, order + [next]) == Seen(ids, order) + {next};
    } else {
      assert Seen(ids, order + [next]) == Seen(ids, order);
    }
  }

  // Sealing the classified rows is the migration, and its own verification fails only on envelopes
  // that could not be opened before it started.
  lemma SealingPlaintexts(r: Run, t: Table, ids: seq<int>)
    requires Sound(r) && r.service.mode == Transition
    requires Distinct(ids) && forall id :: id in ids <==> id in t && IsPlaintext(t, id)
    ensures AllMigrate(r, t, ids) && Sealed(r, t, ids) == Migrated(r, t)
    ensures Present(t, ids) == Plaintexts(t)
    ensures Digests(r, t, ids).Keys == Plaintexts(t)
    ensures forall id :: id in Plaintexts(t) ==> Digests(r, t, ids)[id] == r.digest(t[id].value)
  {
    hide Seal;
    forall id | id in ids ensures RowMigrates(r, t, id) { SealedPlaintext(r, t, id); }
    assert Present(t, ids) == Plaintexts(t);
  }

  lemma MigratedEnvelopes(r: Run, t: Table)
    requires Sound(r) && r.service.mode == Transition
    ensures StoredIds(Migrated(r, t)) == StoredIds(t)
    ensures Envelopes(Migrated(r, t)) == Envelopes(t) + Plaintexts(t)
    ensures Envelopes(t) * Plaintexts(t) == {}
    ensures forall id :: id in Envelopes(t) ==> Migrated(r, t)[id] == t[id]
    ensures forall id :: id in Plaintexts(t) ==> Open(r, id, Migrated(r, t)[id].value) == Some(t[id].value)
  {
    hide Open, Seal, KeyOf;
    var m := Migrated(r, t);
    forall id | id in t
      ensures Stored(m, id) == Stored(t, id) && (IsV1(m, id) <==> IsV1(t, id) || IsPlaintext(t, id))
      ensures IsPlaintext(t, id) ==> Open(r, id, m[id].value) == Some(t[id].value)
    {
      if IsPlaintext(t, id) { SealedPlaintext(r, t, id); }
    }
    assert StoredIds(m) == StoredIds(t);
    assert Envelopes(m) == Envelopes(t) + Plaintexts(t);
  }

  lemma VerificationPassesIff(r: Run, t: Table, originals: map<int, string>)
    requires Sound(r) && r.service.mode == Transition
    requires originals.Keys == Plaintexts(t)
    requires forall id :: id in Plaintexts(t) ==> originals[id] == r.digest(t[id].value)
    ensures (forall id :: id in Envelopes(Migrated(r, t)) ==> Verifies(r, Migrated(r, t), originals, id))
            <==> Envelopes(t) <= Openable(r, t)
    ensures Envelopes(Migrated(r, t)) * originals.Keys == Plaintexts(t)
    ensures StoredIds(Migrated(r, t)) - Envelopes(Migrated(r, t)) == StoredIds(t) - Envelopes(t) - Plaintexts(t)
  {
    hide Open, Migrated, Stored, IsPlaintext;
    MigratedEnvelopes(r, t);
    var m := Migrated(r, t);
    forall id | id in Envelopes(m)
      ensures Verifies(r, m, originals, id) <==> id in Plaintexts(t) || id in Openable(r, t)
    {
    }
  }

  // Re-keying

  predicate RowRekeys(r: Run, target: string, t: Table, id: int) {
    IsV1(t, id) ==> Rekey(r, target, id, t[id].value).Some?
  }

  function Rekeyed(r: Run, target: string, t: Table, ids: seq<int>): Table {
    map id | id in t :: if id in ids && IsV1(t, id) then Rekey(r, target, id, t[id].value) else t[id]
  }

  lemma RekeyedStep(r: Run, target: string, t: Table, ids: seq<int>, next: int)
    requires next !in ids && next in t
    ensures Rekeyed(r, target, t, ids).Keys == t.Keys && Rekeyed(r, target, t, ids)[next] == t[next]
    ensures Rekeyed(r, target, t, ids + [next]) == if IsV1(t, next)
      then Rekeyed(r, target, t, ids)[next := Rekey(r, target, next, t[next].value)]
      else Rekeyed(r, target, t, ids)
    ensures |Seen(Envelopes(t), ids + [next])| == |Seen(Envelopes(t), ids)| + (if IsV1(t, next) then 1 else 0)
  {
    hide Rekey, Seen, IsV1;
    SeenStep(Envelopes(t), ids, next);
  }

  // An envelope whose plaintext is itself an envelope that reads as something else.
  predicate Nested(r: Run, t: Table, id: int) {
    IsOpenable(r, t, id) &&
    var inner := Open(r, id, t[id].value).value;
    IsEncrypted(inner) && Open(r, id, inner) != Some(inner)
  }

  // Re-keying keeps what a row reads as exactly when the row is not a nested envelope, and puts every
  // other envelope with content under the target key.
  lemma RekeyPreservesReadingsIff(r: Run, target: string, t: Table, ids: seq<int>, id: int)
    requires Sound(r) && id in t && id in ids && RowRekeys(r, target, t, id)
    ensures Read(r, id, Rekeyed(r, target, t, ids)[id]) == Read(r, id, t[id]) <==> !Nested(r, t, id)
    ensures IsOpenable(r, t, id) && Open(r, id, t[id].value).value != "" && !IsEncrypted(Open(r, id, t[id].value).value) ==>
      var written := Rekeyed(r, target, t, ids)[id];
      written.Some? && IsEncrypted(written.value) && KeyOf(written.value) == Some(target)
    ensures !IsV1(t, id) ==> Rekeyed(r, target, t, ids)[id] == t[id]
  {
    hide Decrypt, Reencrypt, KeyOf, IsEncrypted;
    if IsV1(t, id) {
      ReencryptKeepsReadingIff(r.cipher, r.service, t[id].value, target, r.nonce(id), Account(r, id));
    }
  }

  class Accounts {
    var rows: Table

    constructor (initial: Table)
      ensures rows == initial
    { rows := initial; }

    // The transaction of the migrate branch, for any list of ids however old it is: it commits
    // exactly when every listed row can be sealed, and otherwise nothing has happened.
    method SealRows(r: Run, ids: seq<int>) returns (ok: bool, migrated: nat, originals: map<int, string>)
      requires Distinct(ids)
      modifies this
      ensures ok <==> AllMigrate(r, old(rows), ids)
      ensures !ok ==> rows == old(rows)
      ensures ok ==>
        && rows == Sealed(r, old(rows), ids)
        && originals == Digests(r, old(rows), ids)
        && migrated == |Present(old(rows), ids)|
    {
      hide Seal, Text, Sealed, Digests, Present, Distinct;
      var saved := rows;
      migrated, originals := 0, map[];
      NothingSealed(r, rows);
      for k := 0 to |ids|
        invariant AllMigrate(r, saved, ids[..k])
        invariant rows == Sealed(r, saved, ids[..k])
        invariant originals == Digests(r, saved, ids[..k])
        invariant migrated == |Present(saved, ids[..k])|
      {
        var id := ids[k];
        assert ids[..k + 1] == ids[..k] + [id];
        DistinctNext(ids, k);
        SealedStep(r, saved, ids[..k], id);
        if id in rows {
          var value := Text(rows[id]);
          originals := originals[id := r.digest(value)];
          var sealed := Seal(r, id, value);
          if sealed.None? || rows[id] != Some(value) {
            RefusedRow(r, saved, id);
            rows := saved;
            return false, 0, map[];
          }
          rows := rows[id := sealed];
          migrated := migrated + 1;
        }
      }
      assert ids[..|ids|] == ids;
      ok := true;
    }

    // The migrate branch.  The table it leaves is the migrated one whatever the outcome, so an error
    // raised by the verification is raised about work already committed; that happens exactly when
    // some envelope in the table did not open to begin with.
    method Migrate(r: Run, order: seq<int>, orderAfter: seq<int>) returns (out: Outcome)
      requires Sound(r) && Visits(order, rows) && Visits(orderAfter, rows)
      modifies this
      ensures r.service.mode != Transition ==> out == Refused && rows == old(rows)
      ensures r.service.mode == Transition ==> rows == Migrated(r, old(rows))
      ensures r.service.mode == Transition ==>
        var plain := Plaintexts(old(rows));
        out == if Envelopes(old(rows)) <= Openable(r, old(rows))
               then Done(|plain|, |plain|, |StoredIds(old(rows)) - Envelopes(old(rows)) - plain|)
               else RaisedAfterCommit
    {
      hide Open, Seal, Migrated, Sealed, Digests, Present, Verifies, Envelopes, Openable, StoredIds, Plaintexts;
      ghost var before := rows;
      var plaintext, encrypted, unknown := ClassifyRows(r, rows, order);
      if r.service.mode != Transition { return Refused; }
      SealingPlaintexts(r, before, plaintext);
      var ok, migrated, originals := SealRows(r, plaintext);
      if !ok { return RolledBack; }
      VerificationPassesIff(r, before, originals);
      var passed, verified, remaining := VerifyRows(r, rows, orderAfter, originals);
      out := if passed then Done(migrated, verified, remaining) else RaisedAfterCommit;
    }

    // The reencrypt branch: all envelopes are re-keyed, or none is.
    method Reencrypt(r: Run, target: string, order: seq<int>) returns (out: Outcome)
      requires Visits(order, rows)
      modifies this
      ensures r.service.mode == Disabled || target == "" ==> out == Refused && rows == old(rows)
      ensures r.service.mode != Disabled && target != "" ==>
        if forall id :: id in order ==> RowRekeys(r, target, old(rows), id)
        then out == Done(|Envelopes(old(rows))|, 0, 0) && rows == Rekeyed(r, target, old(rows), order)
        else out == RolledBack && rows == old(rows)
    {
      hide Rekey, IsEncrypted, Rekeyed, Seen;
      if r.service.mode == Disabled || target == "" { return Refused; }
      var saved := rows;
      var count := 0;
      NothingRekeyed(r, target, rows);
      for k := 0 to |order|
        invariant forall id :: id in order[..k] ==> RowRekeys(r, target, saved, id)
        invariant rows == Rekeyed(r, target, saved, order[..k])
        invariant count == |Seen(Envelopes(saved), order[..k])|
      {
        var id := order[k];
        assert order[..k + 1] == order[..k] + [id];
        RekeyedStep(r, target, saved, order[..k], id);
        if IsV1(rows, id) {
          var written := Rekey(r, target, id, rows[id].value);
          if written.None? {
            assert !RowRekeys(r, target, saved, id);
            rows := saved;
            return RolledBack;
          }
          rows := rows[id := written];
          count := count + 1;
        }
      }
      assert order[..|order|] == order;
      AllSeen(Envelopes(saved), order);
      out := Done(count, 0, 0);
    }
  }

  lemma NothingRekeyed(r: Run, target: string, t: Table)
    ensures Rekeyed(r, target, t, []) == t && Seen(Envelopes(t), []) == {}
  {
    assert Rekeyed(r, target, t, []).Keys == t.Keys;
    assert Seen(Envelopes(t), []) == {};
  }

  lemma AllSeen(ids: set<int>, order: seq<int>)
    requires forall id :: id in ids ==> id in order
    ensures Seen(ids, order) == ids
  {
    assert forall id :: id in Seen(ids, order) <==> id in ids;
  }

  // A lawful cipher and a table with one envelope inside another: re-keying succeeds and peels a
  // layer off, so the row reads as something else.

  function Spell(plain: string): string {
    if plain == "" then "" else (if plain[0] == ':' then "c1" else [plain[0], '0']) + Spell(plain[1..])
  }

  function Unspell(sealed: string): string {
    if |sealed| < 2 then ""
    else [if sealed[1] == '1' then ':' else sealed[0]] + Unspell(sealed[2..])
  }

  lemma {:induction false} SpellingIsLawful(plain: string)
    ensures ColonFree(Spell(plain)) && Unspell(Spell(plain)) == plain
  {
    if plain != "" {
      SpellingIsLawful(plain[1..]);
      assert Spell(plain)[2..] == Spell(plain[1..]);
    }
  }

  // A self-delimiting spelling of the associated data, put in front of what is sealed.

  function Unary(n: nat): string { if n == 0 then "n" else "y" + Unary(n - 1) }

  function AccountNumber(account: Option<int>): nat {
    match account
    case None => 0
    case Some(id) => if id >= 0 then 2 * id + 1 else -2 * id
  }

  function Mark(a: Aad): string { Unary(|a.keyId|) + (a.keyId + Unary(AccountNumber(a.account))) }

  lemma {:induction false} UnaryDelimits(m: nat, n: nat, x: string, y: string)
    requires Unary(m) + x == Unary(n) + y
    ensures m == n && x == y
  {
    var s := Unary(m) + x;
    if m == 0 || n == 0 {
      assert s[0] == (if m == 0 then 'n' else 'y') == (if n == 0 then 'n' else 'y');
      assert s[1..] == x && (Unary(n) + y)[1..] == y;
    } else {
      assert s[1..] == Unary(m - 1) + x && (Unary(n) + y)[1..] == Unary(n - 1) + y;
      UnaryDelimits(m - 1, n - 1, x, y);
    }
  }

  lemma MarkDelimits(a: Aad, b: Aad, x: string, y: string)
    requires Mark(a) + x == Mark(b) + y
    ensures a == b && x == y
  {
    var atail, btail := Unary(AccountNumber(a.account)), Unary(AccountNumber(b.account));
    assert Mark(a) + x == Unary(|a.keyId|) + (a.keyId + (atail + x));
    assert Mark(b) + y == Unary(|b.keyId|) + (b.keyId + (btail + y));
    UnaryDelimits(|a.keyId|, |b.keyId|, a.keyId + (atail + x), b.keyId + (btail + y));
    var rest := a.keyId + (atail + x);
    assert rest[..|a.keyId|] == a.keyId && (b.keyId + (btail + y))[..|a.keyId|] == b.keyId;
    assert rest[|a.keyId|..] == atail + x && (b.keyId + (btail + y))[|a.keyId|..] == btail + y;
    UnaryDelimits(AccountNumber(a.account), AccountNumber(b.account), x, y);
  }

  function Unseal(a: Aad, sealed: string): Option<string> {
    var text := Unspell(sealed);
    if Mark(a) <= text then Some(text[|Mark(a)|..]) else None
  }

  const TOY := Cipher((k: int, n: string, a: Aad, p: string) => Spell(Mark(a) + p),
                      (k: int, n: string, a: Aad, s: string) => Unseal(a, s))

  lemma ToyIsLawful()
    ensures Lawful(TOY) && Authentic(TOY)
  {
    hide Mark, Spell, Unspell;
    forall key, nonce, aad, plain
      ensures Opens(TOY, key, nonce, aad, plain)
    {
      SpellingIsLawful(Mark(aad) + plain);
    }
    forall key, nonce, aad, other, plain | aad != other
      ensures TOY.open(key, nonce, other, TOY.seal(key, nonce, aad, plain)) == None
    {
      SpellingIsLawful(Mark(aad) + plain);
      var text := Mark(aad) + plain;
      if Mark(other) <= text {
        MarkDelimits(other, aad, text[|Mark(other)|..], plain);
      }
    }
  }

  lemma NestedEnvelopeChangesReading(text: string) returns (r: Run, t: Table)
    requires text != "" && InspectFormat(text) == Legacy
    ensures Sound(r) && r.service.mode == Transition && 7 in t && Nested(r, t, 7)
    ensures RowRekeys(r, "k", t, 7)
    ensures Read(r, 7, Rekeyed(r, "k", t, [7])[7]) == Session(text)
    ensures Read(r, 7, t[7]) != Session(text)
  {
    hide Split, Join, Envelope, KeyOf, Spell, Unspell, Mark;
    ToyIsLawful();
    r := Run(TOY, Service(Transition, Some("k"), map["k" := 1]), false, id => "n", x => x);
    var inner := Envelope("k", "n", TOY.seal(1, "n", Aad("k", None), text));
    DecryptOfEnvelope(TOY, r.service, "k", "n", text, None);
    var outer := Envelope("k", "n", TOY.seal(1, "n", Aad("k", None), inner));
    DecryptOfEnvelope(TOY, r.service, "k", "n", inner, None);
    t := map[7 := Some(outer)];
  }
}
