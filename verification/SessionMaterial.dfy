/**
 * The versioned envelope around Telegram session strings (src/security/session_material.py).  The
 * authenticated cipher itself is abstract; the envelope text, its prefix tests and its fields are not.
 */
module SessionMaterial {
  import opened Common

  // Associated data: record type and version are fixed, the account binding is optional.
  datatype Aad = Aad(keyId: string, account: Option<int>)

  datatype Cipher = Cipher(seal: (int, string, Aad, string) -> string, open: (int, string, Aad, string) -> Option<string>)

  predicate ColonFree(s: string) { forall k :: 0 <= k < |s| ==> s[k] != ':' }

  // Opening what was sealed gives the plaintext back; encoded ciphertext has no colon.
  predicate Opens(c: Cipher, key: int, nonce: string, aad: Aad, plain: string) {
    var sealed := c.seal(key, nonce, aad, plain);
    ColonFree(sealed) && c.open(key, nonce, aad, sealed) == Some(plain)
  }

  ghost predicate Lawful(c: Cipher) {
    forall key, nonce, aad, plain :: Opens(c, key, nonce, aad, plain)
  }

  // Opening under other associated data fails.
  ghost predicate Authentic(c: Cipher) {
    forall key, nonce, aad, other, plain :: aad != other ==> c.open(key, nonce, other, c.seal(key, nonce, aad, plain)) == None
  }

  datatype Mode = Disabled | Transition | EncryptedOnly

  datatype Service = Service(mode: Mode, activeKey: Option<string>, keys: map<string, int>)

  // Key identifiers match a pattern without colons; the writing modes need their active key.
  predicate Valid(s: Service) {
    && (forall k :: k in s.keys ==> ColonFree(k))
    && (s.mode != Disabled ==> s.activeKey.Some? && s.activeKey.value in s.keys)
  }

  const PREFIX := "enc:v1:aes256gcm:"

  predicate IsEncrypted(s: string) { PREFIX <= s }
  predicate LooksLikeEnvelope(s: string) { "enc:" <= s }

  // ":".join and split(":")

  function Join(parts: seq<string>): string
    requires parts != []
  {
    if |parts| == 1 then parts[0] else parts[0] + ":" + Join(parts[1..])
  }

  function Split(s: string): (r: seq<string>)
    ensures r != []
  {
    if s == "" then [""]
    else
      var rest := Split(s[1..]);
      if s[0] == ':' then [""] + rest else [[s[0]] + rest[0]] + rest[1..]
  }

  lemma {:induction false} SplitAtColon(a: string, b: string)
    requires ColonFree(a)
    ensures Split(a + ":" + b) == [a] + Split(b)
  {
    var s := a + ":" + b;
    if a == "" {
      assert s[1..] == b;
    } else {
      assert s[1..] == a[1..] + ":" + b;
      SplitAtColon(a[1..], b);
      assert s[0] == a[0];
      assert [a[0]] + a[1..] == a;
    }
  }

  lemma {:induction false} SplitColonFree(a: string)
    requires ColonFree(a)
    ensures Split(a) == [a]
  {
    if a != "" {
      SplitColonFree(a[1..]);
      assert [a[0]] + a[1..] == a;
    }
  }

  lemma {:induction false} SplitOfJoin(parts: seq<string>)
    requires parts != [] && forall k :: 0 <= k < |parts| ==> ColonFree(parts[k])
    ensures Split(Join(parts)) == parts
  {
    if |parts| == 1 {
      SplitColonFree(parts[0]);
    } else {
      SplitOfJoin(parts[1..]);
      SplitAtColon(parts[0], Join(parts[1..]));
    }
  }

  function Envelope(keyId: string, nonce: string, sealed: string): string {
    Join(["enc", "v1", "aes256gcm", keyId, nonce, sealed])
  }

  lemma JoinStep(first: string, rest: seq<string>)
    requires rest != []
    ensures Join([first] + rest) == first + ":" + Join(rest)
  {
    assert ([first] + rest)[1..] == rest;
  }

  lemma EnvelopeText(keyId: string, nonce: string, sealed: string)
    ensures IsEncrypted(Envelope(keyId, nonce, sealed))
  {
    var tail := [keyId, nonce, sealed];
    var t3 := ["aes256gcm"] + tail;
    var t2 := ["v1"] + t3;
    JoinStep("aes256gcm", tail);
    JoinStep("v1", t3);
    JoinStep("enc", t2);
    assert ["enc"] + t2 == ["enc", "v1", "aes256gcm", keyId, nonce, sealed];
    assert Envelope(keyId, nonce, sealed) == PREFIX + Join(tail);
  }

  // The key identifier an envelope names.
  function KeyOf(stored: string): Option<string> {
    var parts := Split(stored);
    if |parts| >= 4 then Some(parts[3]) else None
  }

  // None stands for a raised error.

  function Decrypt(c: Cipher, s: Service, stored: string, account: Option<int>): Option<string> {
    if stored == "" then Some(stored)
    else if LooksLikeEnvelope(stored) && !IsEncrypted(stored) then None
    else if !IsEncrypted(stored) then (if s.mode == EncryptedOnly then None else Some(stored))
    else
      var parts := Split(stored);
      if |parts| != 6 || parts[..3] != ["enc", "v1", "aes256gcm"] || parts[3] !in s.keys then None
      else c.open(s.keys[parts[3]], parts[4], Aad(parts[3], account), parts[5])
  }

  function Encrypt(c: Cipher, s: Service, plain: string, nonce: string, account: Option<int>): Option<string> {
    if plain == "" then Some(plain)
    else if IsEncrypted(plain) then (if Decrypt(c, s, plain, account).Some? then Some(plain) else None)
    else if s.mode == Disabled then Some(plain)
    else if s.activeKey.None? || s.activeKey.value !in s.keys then None
    else
      var id := s.activeKey.value;
      Some(Envelope(id, nonce, c.seal(s.keys[id], nonce, Aad(id, account), plain)))
  }

  function Writer(s: Service, target: string): Service {
    Service(if s.mode == Disabled then Transition else s.mode, Some(target), s.keys)
  }

  function Reencrypt(c: Cipher, s: Service, stored: string, target: string, nonce: string, account: Option<int>): Option<string> {
    var plain := Decrypt(c, s, stored, account);
    if plain.None? || target == "" || target !in s.keys then None
    else Encrypt(c, Writer(s, target), plain.value, nonce, account)
  }

  datatype Format = NullOrEmpty | UnknownEnvelope | EncV1 | Legacy

  function InspectFormat(stored: string): Format {
    if stored == "" then NullOrEmpty
    else if IsEncrypted(stored) then EncV1
    else if LooksLikeEnvelope(stored) then UnknownEnvelope
    else Legacy
  }

  // The envelope round trip, through its own text: what a writing service stores for plaintext is an
  // envelope, and any service with that key reads the plaintext back under the same binding.
  lemma DecryptOfEnvelope(c: Cipher, s: Service, keyId: string, nonce: string, plain: string, account: Option<int>)
    requires Lawful(c) && keyId in s.keys && ColonFree(keyId) && ColonFree(nonce)
    ensures var e := Envelope(keyId, nonce, c.seal(s.keys[keyId], nonce, Aad(keyId, account), plain));
            IsEncrypted(e) && KeyOf(e) == Some(keyId) && Decrypt(c, s, e, account) == Some(plain)
  {
    assert Opens(c, s.keys[keyId], nonce, Aad(keyId, account), plain);
    var sealed := c.seal(s.keys[keyId], nonce, Aad(keyId, account), plain);
    var parts := ["enc", "v1", "aes256gcm", keyId, nonce, sealed];
    EnvelopeText(keyId, nonce, sealed);
    SplitOfJoin(parts);
    assert parts[..3] == ["enc", "v1", "aes256gcm"];
  }

  // A service that writes ciphertext seals anything but an envelope of its own version, under its
  // active key, and what it stored reads back, whatever mode the reader runs in.
  lemma EncryptRoundTrip(c: Cipher, s: Service, reader: Service, plain: string, nonce: string, account: Option<int>)
    requires Lawful(c) && Valid(s) && s.mode != Disabled && reader.keys == s.keys
    requires ColonFree(nonce) && plain != "" && !IsEncrypted(plain)
    ensures var e := Encrypt(c, s, plain, nonce, account);
            && e.Some? && InspectFormat(e.value) == EncV1 && KeyOf(e.value) == s.activeKey
            && Decrypt(c, reader, e.value, account) == Some(plain)
  {
    hide Split, Join, Envelope;
    DecryptOfEnvelope(c, reader, s.activeKey.value, nonce, plain, account);
  }

  // Moving an envelope to another key keeps what it reads as, exactly when its plaintext is not
  // itself an envelope that reads as something else: a nested envelope is passed through unwrapped,
  // keeping its old key.  Everything else that is not empty ends up under the target key.
  lemma ReencryptKeepsReadingIff(c: Cipher, s: Service, stored: string, target: string, nonce: string, account: Option<int>)
    requires Lawful(c) && Valid(s) && IsEncrypted(stored) && ColonFree(nonce)
    requires Reencrypt(c, s, stored, target, nonce, account).Some?
    ensures var before := Decrypt(c, s, stored, account);
            var written := Reencrypt(c, s, stored, target, nonce, account).value;
            var after := Decrypt(c, s, written, account);
            && before.Some? && after.Some?
            && (after == before <==> !IsEncrypted(before.value) || Decrypt(c, s, before.value, account) == before)
            && (!IsEncrypted(before.value) && before.value != "" ==> IsEncrypted(written) && KeyOf(written) == Some(target))
            && (IsEncrypted(before.value) ==> written == before.value)
  {
    hide Split, Join, Envelope;
    var plain := Decrypt(c, s, stored, account).value;
    if IsEncrypted(plain) {
      DecryptIgnoresWriter(c, s, target, plain, account);
    } else if plain != "" {
      DecryptOfEnvelope(c, s, target, nonce, plain, account);
    }
  }

  lemma DecryptIgnoresWriter(c: Cipher, s: Service, target: string, stored: string, account: Option<int>)
    requires IsEncrypted(stored)
    ensures Decrypt(c, Writer(s, target), stored, account) == Decrypt(c, s, stored, account)
  {
  }

  // A reader with another account binding cannot open the envelope.
  lemma OtherBindingIsRejected(c: Cipher, s: Service, keyId: string, nonce: string, plain: string,
                               account: Option<int>, reader: Option<int>)
    requires Lawful(c) && Authentic(c) && keyId in s.keys && ColonFree(keyId) && ColonFree(nonce) && account != reader
    ensures var e := Envelope(keyId, nonce, c.seal(s.keys[keyId], nonce, Aad(keyId, account), plain));
            Decrypt(c, s, e, reader) == None
  {
    assert Opens(c, s.keys[keyId], nonce, Aad(keyId, account), plain);
    var sealed := c.seal(s.keys[keyId], nonce, Aad(keyId, account), plain);
    var parts := ["enc", "v1", "aes256gcm", keyId, nonce, sealed];
    EnvelopeText(keyId, nonce, sealed);
    SplitOfJoin(parts);
    assert c.open(s.keys[keyId], nonce, Aad(keyId, reader), sealed) == None;
  }

  // What is stored without an envelope reads as itself unless only ciphertext is allowed; text that
  // claims an unknown envelope never reads, and nothing stored is nothing read.
  lemma ReadingOfPlaintext(c: Cipher, s: Service, stored: string, account: Option<int>)
    requires !IsEncrypted(stored)
    ensures var r := Decrypt(c, s, stored, account);
            && (stored == "" ==> r == Some(""))
            && (stored != "" && stored[..Min(4, |stored|)] == "enc:" ==> r == None)
            && (stored != "" && stored[..Min(4, |stored|)] != "enc:" ==>
                  r == if s.mode == EncryptedOnly then None else Some(stored))
  {
  }

  // In the mode that does not write ciphertext, and for nothing at all, plaintext is stored as it is; a
  // writing service never stores it.
  lemma WritingOfPlaintext(c: Cipher, s: Service, plain: string, nonce: string, account: Option<int>)
    requires Valid(s) && !IsEncrypted(plain)
    ensures var w := Encrypt(c, s, plain, nonce, account);
            w.Some? && (w == Some(plain) <==> plain == "" || s.mode == Disabled)
  {
    hide Join;
    if plain != "" && s.mode != Disabled {
      EnvelopeText(s.activeKey.value, nonce, c.seal(s.keys[s.activeKey.value], nonce, Aad(s.activeKey.value, account), plain));
    }
  }

  // An envelope with any other number of fields, the bare prefix included, neither reads nor passes for
  // ciphertext that need not be sealed.
  lemma MalformedEnvelopeIsRefused(c: Cipher, s: Service, tail: seq<string>, nonce: string, account: Option<int>)
    requires tail != [] && |tail| != 3 && forall k :: 0 <= k < |tail| ==> ColonFree(tail[k])
    ensures var e := Join(["enc", "v1", "aes256gcm"] + tail);
            IsEncrypted(e) && Decrypt(c, s, e, account) == None && Encrypt(c, s, e, nonce, account) == None
  {
    hide Split, Join, Decrypt, Encrypt, IsEncrypted, ColonFree;
    var parts := ["enc", "v1", "aes256gcm"] + tail;
    EnvelopeHead(tail);
    StartsEncrypted(Join(tail));
    FixedFieldsAreColonFree();
    SplitOfJoin(parts);
    WrongFieldCount(c, s, Join(parts), nonce, account);
  }

  lemma FixedFieldsAreColonFree()
    ensures ColonFree("enc") && ColonFree("v1") && ColonFree("aes256gcm")
  {
  }

  lemma StartsEncrypted(rest: string)
    ensures IsEncrypted(PREFIX + rest)
  {
  }

  lemma WrongFieldCount(c: Cipher, s: Service, stored: string, nonce: string, account: Option<int>)
    requires IsEncrypted(stored) && |Split(stored)| != 6
    ensures Decrypt(c, s, stored, account) == None && Encrypt(c, s, stored, nonce, account) == None
  {
    hide Split;
  }

  lemma EnvelopeHead(tail: seq<string>)
    requires tail != []
    ensures Join(["enc", "v1", "aes256gcm"] + tail) == PREFIX + Join(tail)
  {
    hide Join;
    var t3 := ["aes256gcm"] + tail;
    var t2 := ["v1"] + t3;
    JoinStep("aes256gcm", tail);
    JoinStep("v1", t3);
    JoinStep("enc", t2);
    assert ["enc"] + t2 == ["enc", "v1", "aes256gcm"] + tail;
  }
}
