/**
 Composing a message: SyncEngine.sendMessage (packages/sync-engine/src/SyncEngine.ts:22-50) over the
 room's cipher (apps/mobile/src/crypto/LibsodiumContentCipher.ts).  The id, the time and the nonce are
 parameters; the AEAD is any pair of functions, and each theorem says what it asks of them.
 */
module Composer {
  import opened Common
  import opened JsonText
  import opened Encodings
  import Envelope
  import opened EnvelopeGate
  import opened Engine
  import opened Replica

  const MAX_MESSAGE_LENGTH := 4000
  const NONCE_BYTES := 24
  const TAG_BYTES := 16

  type Key = seq<Byte>

  /** The fields a message's ciphertext is bound to. */
  datatype MessageAad = MessageAad(id: string, roomId: string, userId: string, username: string, createdAt: nat)

  datatype Attempt = Done(text: string) | Threw

  // ---------------------------------------------------------------- additional data

  function AdFromCreatedAt(ad: MessageAad): string { Envelope.Member("createdAt", WriteNat(ad.createdAt)) + "}" }

  function AdFromUsername(ad: MessageAad): string
  {
    Envelope.Member("username", WriteString(ad.username)) + ("," + AdFromCreatedAt(ad))
  }

  function AdFromUserId(ad: MessageAad): string
  {
    Envelope.Member("userId", WriteString(ad.userId)) + ("," + AdFromUsername(ad))
  }

  function AdFromRoomId(ad: MessageAad): string
  {
    Envelope.Member("roomId", WriteString(ad.roomId)) + ("," + AdFromUserId(ad))
  }

  function AdFromId(ad: MessageAad): string
  {
    Envelope.Member("id", WriteString(ad.id)) + ("," + AdFromRoomId(ad))
  }

  function AdToJson(ad: MessageAad): string { "{" + AdFromId(ad) }

  function AdFields(ad: MessageAad): map<string, Json>
  {
    map["id" := Str(ad.id)]["roomId" := Str(ad.roomId)]["userId" := Str(ad.userId)]
      ["username" := Str(ad.username)]["createdAt" := Num(ad.createdAt as real)]
  }

  lemma CreatedAtRead(ad: MessageAad, fields: map<string, Json>)
    ensures ReadMembers(AdFromCreatedAt(ad), fields) == Got(Obj(fields["createdAt" := Num(ad.createdAt as real)]), [])
  {
    Envelope.NatValue(ad.createdAt, "}");
    Envelope.MemberRead("createdAt", WriteNat(ad.createdAt), Num(ad.createdAt as real), "}", fields);
  }

  /** One string member, with more members behind it. */
  lemma StringMemberRead(key: string, s: string, more: string, fields: map<string, Json>)
    ensures ReadMembers(Envelope.Member(key, WriteString(s)) + ("," + more), fields)
            == ReadMembers(more, fields[key := Str(s)])
  {
    Envelope.StringValue(s, "," + more);
    Envelope.MemberRead(key, WriteString(s), Str(s), "," + more, fields);
    assert ("," + more)[1..] == more;
  }

  lemma UserIdRead(ad: MessageAad, f: map<string, Json>)
    ensures ReadMembers(AdFromUserId(ad), f) ==
            Got(Obj(f["userId" := Str(ad.userId)]["username" := Str(ad.username)]
                     ["createdAt" := Num(ad.createdAt as real)]), [])
  {
    var g := f["userId" := Str(ad.userId)];
    StringMemberRead("userId", ad.userId, AdFromUsername(ad), f);
    StringMemberRead("username", ad.username, AdFromCreatedAt(ad), g);
    CreatedAtRead(ad, g["username" := Str(ad.username)]);
  }

  lemma RoomIdRead(ad: MessageAad, f: map<string, Json>)
    ensures ReadMembers(AdFromRoomId(ad), f) ==
            Got(Obj(f["roomId" := Str(ad.roomId)]["userId" := Str(ad.userId)]["username" := Str(ad.username)]
                     ["createdAt" := Num(ad.createdAt as real)]), [])
  {
    StringMemberRead("roomId", ad.roomId, AdFromUserId(ad), f);
    UserIdRead(ad, f["roomId" := Str(ad.roomId)]);
  }

  lemma AdValueRead(ad: MessageAad)
    ensures ReadValue(AdToJson(ad)) == Got(Obj(AdFields(ad)), [])
  {
    Envelope.ObjectRead(AdFromId(ad));
    StringMemberRead("id", ad.id, AdFromRoomId(ad), map[]);
    RoomIdRead(ad, map["id" := Str(ad.id)]);
  }

  /** The additional data reads back as the fields it was made from. */
  lemma AdRead(ad: MessageAad)
    ensures Parse(AdToJson(ad)) == Text(Obj(AdFields(ad)))
  {
    AdValueRead(ad);
    WholeText(AdToJson(ad), Obj(AdFields(ad)));
  }

  lemma WholeText(text: string, v: Json)
    requires ReadValue(text) == Got(v, [])
    ensures Parse(text) == Text(v)
  {}

  lemma AdFieldsFound(ad: MessageAad)
    ensures var f := AdFields(ad);
            && f.Keys == {"id", "roomId", "userId", "username", "createdAt"}
            && f["id"] == Str(ad.id) && f["roomId"] == Str(ad.roomId) && f["userId"] == Str(ad.userId)
            && f["username"] == Str(ad.username) && f["createdAt"] == Num(ad.createdAt as real)
  {}

  lemma FieldsTellAll(a: MessageAad, b: MessageAad)
    requires AdFields(a) == AdFields(b)
    ensures a == b
  {
    AdFieldsFound(a);
    AdFieldsFound(b);
  }

  /** Two messages with different fields never share their additional data. */
  lemma AdIsUnambiguous(a: MessageAad, b: MessageAad)
    requires AdToJson(a) == AdToJson(b)
    ensures a == b
  {
    AdRead(a);
    AdRead(b);
    FieldsTellAll(a, b);
  }

  // ---------------------------------------------------------------- the cipher

  /** Authenticated encryption: (text bytes, additional data, nonce, key) to ciphertext and back. */
  datatype Aead = Aead(seal: (seq<Byte>, string, seq<Byte>, Key) -> seq<Byte>,
                       open: (seq<Byte>, string, seq<Byte>, Key) -> Option<seq<Byte>>)
  {
    /** A ciphertext is a tag longer than its text, and opens as its text. */
    ghost predicate Correct()
    {
      && (forall p, ad, n, k :: |seal(p, ad, n, k)| == |p| + 16)
      && (forall p, ad, n, k :: open(seal(p, ad, n, k), ad, n, k) == Some(p))
    }

    /** Of what was sealed, these are the texts: no other ciphertext opens with this key, nonce and additional data. */
    predicate NoForgery(log: seq<Sealing>, ciphertext: seq<Byte>, ad: string, nonce: seq<Byte>, key: Key)
    {
      open(ciphertext, ad, nonce, key).Some? ==>
        exists s :: s in log && s.key == key && s.nonce == nonce && AdToJson(s.ad) == ad
                    && seal(Utf8(s.plaintext), ad, nonce, key) == ciphertext
    }
  }

  /** A message that some holder of the key has encrypted. */
  datatype Sealing = Sealing(key: Key, nonce: seq<Byte>, ad: MessageAad, plaintext: string)

  function SealingOf(a: Aead, s: Sealing): seq<Byte> { a.seal(Utf8(s.plaintext), AdToJson(s.ad), s.nonce, s.key) }

  /** Text and sixteen bytes that tell one string of additional data from all others. */
  function Tag(special: string, ad: string): (tag: seq<Byte>)
    ensures |tag| == TAG_BYTES
  {
    seq(TAG_BYTES, _ => if ad == special then 1 else 0)
  }

  function Unsealed(special: string, c: seq<Byte>, ad: string): Option<seq<Byte>>
  {
    if |c| >= TAG_BYTES && c[|c| - TAG_BYTES..] == Tag(special, ad) then Some(c[..|c| - TAG_BYTES]) else None
  }

  function Tagging(special: string): Aead
  {
    Aead((p, ad, n, k) => p + Tag(special, ad), (c, ad, n, k) => Unsealed(special, c, ad))
  }

  lemma TagTells(special: string, p: seq<Byte>, ad: string)
    ensures Unsealed(special, p + Tag(special, ad), ad) == Some(p)
    ensures ad != special ==> Unsealed(special, p + Tag(special, ad), special) == None
  {
    var c := p + Tag(special, ad);
    assert c[|p|..] == Tag(special, ad) && c[..|p|] == p;
    assert ad != special ==> Tag(special, ad)[0] != Tag(special, special)[0];
  }

  /**
   What the theorems below ask of the AEAD can be had: one that is correct and under which nothing that was
   sealed opens as this message but what was sealed as this message.
   */
  lemma AuthenticityIsPossible(log: seq<Sealing>, other: MessageAad)
    ensures exists a: Aead :: a.Correct() && forall s | s in log ::
              a.NoForgery(log, SealingOf(a, s), AdToJson(other), s.nonce, s.key)
  {
    TaggingIsCorrect(AdToJson(other));
    forall s | s in log { TaggingUnforged(log, other, s); }
  }

  lemma TaggingIsCorrect(special: string)
    ensures Tagging(special).Correct()
  {
    var a := Tagging(special);
    forall p, ad, n, k ensures |a.seal(p, ad, n, k)| == |p| + TAG_BYTES && a.open(a.seal(p, ad, n, k), ad, n, k) == Some(p) {
      TagTells(special, p, ad);
    }
  }

  lemma TaggingUnforged(log: seq<Sealing>, other: MessageAad, s: Sealing)
    requires s in log
    ensures var a := Tagging(AdToJson(other)); a.NoForgery(log, SealingOf(a, s), AdToJson(other), s.nonce, s.key)
  {
    TagTells(AdToJson(other), Utf8(s.plaintext), AdToJson(s.ad));
  }

  datatype Cipher = Cipher(keysByEpoch: map<nat, Key>, currentKeyId: Option<nat>, expectedCurrentEpoch: Option<nat>)
  {
    /** currentKeyId is the highest epoch a key is held for. */
    ghost predicate Ok()
    {
      match currentKeyId
      case None => keysByEpoch == map[]
      case Some(top) => top in keysByEpoch && forall k | k in keysByEpoch :: k <= top
    }

    /** The condition under which encrypt() does not throw. */
    predicate Ready() { currentKeyId.Some? && (expectedCurrentEpoch.None? || expectedCurrentEpoch == currentKeyId) }
  }

  function WithKey(c: Cipher, keyId: nat, key: Key): Cipher
  {
    c.(keysByEpoch := c.keysByEpoch[keyId := key],
       currentKeyId := if c.currentKeyId.None? || keyId > c.currentKeyId.value then Some(keyId) else c.currentKeyId)
  }

  function Encrypted(a: Aead, c: Cipher, plaintext: string, ad: MessageAad, nonce: seq<Byte>): Attempt
  {
    if !c.Ready() || c.currentKeyId.value !in c.keysByEpoch then Threw
    else
      var keyId := c.currentKeyId.value;
      Done(SealedText(a, keyId, c.keysByEpoch[keyId], plaintext, ad, nonce))
  }

  /** The envelope of this text under this key. */
  function SealedText(a: Aead, keyId: nat, key: Key, plaintext: string, ad: MessageAad, nonce: seq<Byte>): string
  {
    Envelope.Build(keyId, ToUrl(nonce), ToUrl(a.seal(Utf8(plaintext), AdToJson(ad), nonce, key)))
  }

  function Decrypted(a: Aead, c: Cipher, content: string, ad: MessageAad): Attempt
  {
    match Envelope.ParseEnvelope(content)
    case Plaintext => Done(content)
    case Threw => Attempt.Threw
    case Sealed(keyId, nonce, ciphertext) =>
      if keyId < 0.0 || keyId.Floor as real != keyId || keyId.Floor !in c.keysByEpoch then Attempt.Threw
      else Opened(a, c.keysByEpoch[keyId.Floor], nonce, ciphertext, ad)
  }

  function Opened(a: Aead, key: Key, nonceText: string, ciphertextText: string, ad: MessageAad): Attempt
  {
    match (FromUrl(nonceText), FromUrl(ciphertextText))
    case (Some(nonce), Some(ciphertext)) =>
      (match a.open(ciphertext, AdToJson(ad), nonce, key)
       case None => Threw
       case Some(bytes) => match FromUtf8(bytes) case None => Threw case Some(text) => Done(text))
    case _ => Threw
  }

  /** Content from before encryption reads as itself, whatever keys are held. */
  lemma PlaintextReadsAsItself(a: Aead, c: Cipher, content: string, ad: MessageAad)
    requires !("E2E1" <= content)
    ensures Decrypted(a, c, content, ad) == Done(content)
  {
    Envelope.ReadsExactly(content, 0.0, "", "");
  }

  /** An envelope of an epoch whose key is held, that opens with it under these fields as UTF-8 of this text. */
  ghost predicate OpensAs(a: Aead, c: Cipher, content: string, ad: MessageAad, text: string, epoch: nat,
                          nonceText: string, ciphertextText: string)
  {
    && Envelope.ParseEnvelope(content) == Envelope.Sealed(epoch as real, nonceText, ciphertextText)
    && epoch in c.keysByEpoch && PartsOpen(a, c.keysByEpoch[epoch], nonceText, ciphertextText, AdToJson(ad), text)
  }

  /** Both parts are base64url, and open with this key and additional data as the UTF-8 of this text. */
  ghost predicate PartsOpen(a: Aead, key: Key, nonceText: string, ciphertextText: string, ad: string, text: string)
  {
    && FromUrl(nonceText).Some? && FromUrl(ciphertextText).Some?
    && var bytes := a.open(FromUrl(ciphertextText).value, ad, FromUrl(nonceText).value, key);
       bytes.Some? && FromUtf8(bytes.value) == Some(text)
  }

  lemma OpenedExactly(a: Aead, key: Key, nonceText: string, ciphertextText: string, ad: MessageAad, text: string)
    ensures Opened(a, key, nonceText, ciphertextText, ad) == Done(text)
       <==> PartsOpen(a, key, nonceText, ciphertextText, AdToJson(ad), text)
  {}

  /** Decrypting gives a text exactly when the content is that plaintext or opens as it; in every other case it throws. */
  lemma DecryptsExactly(a: Aead, c: Cipher, content: string, ad: MessageAad, text: string)
    ensures Decrypted(a, c, content, ad) == Done(text) <==>
            || (!("E2E1" <= content) && text == content)
            || exists epoch, nonceText, ciphertextText :: OpensAs(a, c, content, ad, text, epoch, nonceText, ciphertextText)
  {
    Envelope.ReadsExactly(content, 0.0, "", "");
    if "E2E1" <= content && Decrypted(a, c, content, ad) == Done(text) { DecryptedOpens(a, c, content, ad, text); }
    forall epoch, nonceText, ciphertextText | OpensAs(a, c, content, ad, text, epoch, nonceText, ciphertextText)
      ensures Decrypted(a, c, content, ad) == Done(text)
    {
      OpensDecrypts(a, c, content, ad, text, epoch, nonceText, ciphertextText);
    }
  }

  lemma DecryptedOpens(a: Aead, c: Cipher, content: string, ad: MessageAad, text: string)
    requires !Envelope.ParseEnvelope(content).Plaintext? && Decrypted(a, c, content, ad) == Done(text)
    ensures exists epoch, nonceText, ciphertextText :: OpensAs(a, c, content, ad, text, epoch, nonceText, ciphertextText)
  {
    var e := Envelope.ParseEnvelope(content);
    var epoch: nat := e.keyId.Floor;
    OpenedExactly(a, c.keysByEpoch[epoch], e.nonce, e.ciphertext, ad, text);
    assert OpensAs(a, c, content, ad, text, epoch, e.nonce, e.ciphertext);
  }

  lemma OpensDecrypts(a: Aead, c: Cipher, content: string, ad: MessageAad, text: string, epoch: nat,
                      nonceText: string, ciphertextText: string)
    requires OpensAs(a, c, content, ad, text, epoch, nonceText, ciphertextText)
    ensures Decrypted(a, c, content, ad) == Done(text)
  {
    OpenedExactly(a, c.keysByEpoch[epoch], nonceText, ciphertextText, ad, text);
  }

  class LibsodiumContentCipher {
    const aead: Aead
    var keysByEpoch: map<nat, Key>
    var currentKeyId: Option<nat>
    var expectedCurrentEpoch: Option<nat>

    function State(): Cipher
      reads this
    {
      Cipher(keysByEpoch, currentKeyId, expectedCurrentEpoch)
    }

    constructor (aead: Aead)
      ensures State() == Cipher(map[], None, None) && State().Ok() && this.aead == aead
    {
      this.aead, keysByEpoch, currentKeyId, expectedCurrentEpoch := aead, map[], None, None;
    }

    method SetKey(keyId: nat, key: Key)
      requires State().Ok()
      modifies this
      ensures State().Ok() && State() == WithKey(old(State()), keyId, key)
      ensures keysByEpoch == old(keysByEpoch)[keyId := key] && expectedCurrentEpoch == old(expectedCurrentEpoch)
    {
      keysByEpoch := keysByEpoch[keyId := key];
      if currentKeyId.None? || keyId > currentKeyId.value {
        currentKeyId := Some(keyId);
      }
    }

    method SetExpectedCurrentEpoch(keyId: nat)
      requires State().Ok()
      modifies this
      ensures State().Ok() && State() == old(State()).(expectedCurrentEpoch := Some(keyId))
    {
      expectedCurrentEpoch := Some(keyId);
    }

    method HasKey(keyId: nat) returns (held: bool)
      ensures held <==> keyId in keysByEpoch
    {
      held := keyId in keysByEpoch;
    }

    method Encrypt(plaintext: string, ad: MessageAad, nonce: seq<Byte>) returns (r: Attempt)
      ensures r == Encrypted(aead, State(), plaintext, ad, nonce)
    {
      if currentKeyId.None? { return Threw; }
      if expectedCurrentEpoch.Some? && currentKeyId != expectedCurrentEpoch { return Threw; }
      if currentKeyId.value !in keysByEpoch { return Threw; }
      var key := keysByEpoch[currentKeyId.value];
      var ciphertext := aead.seal(Utf8(plaintext), AdToJson(ad), nonce, key);
      var text := Envelope.Build(currentKeyId.value, ToUrl(nonce), ToUrl(ciphertext));
      assert text == SealedText(aead, currentKeyId.value, key, plaintext, ad, nonce);
      return Done(text);
    }

    method Decrypt(content: string, ad: MessageAad) returns (r: Attempt)
      ensures r == Decrypted(aead, State(), content, ad)
      ensures !("E2E1" <= content) ==> r == Done(content)
    {
      Envelope.ReadsExactly(content, 0.0, "", "");
      var envelope := Envelope.ParseEnvelope(content);
      if envelope.Plaintext? { return Done(content); }
      if envelope.Threw? { return Attempt.Threw; }
      if envelope.keyId < 0.0 || envelope.keyId.Floor as real != envelope.keyId
         || envelope.keyId.Floor !in keysByEpoch { return Attempt.Threw; }
      r := Open(keysByEpoch[envelope.keyId.Floor], envelope.nonce, envelope.ciphertext, ad);
    }

    method Open(key: Key, nonceText: string, ciphertextText: string, ad: MessageAad) returns (r: Attempt)
      ensures r == Opened(aead, key, nonceText, ciphertextText, ad)
    {
      var nonce, ciphertext := FromUrl(nonceText), FromUrl(ciphertextText);
      if nonce.None? || ciphertext.None? { return Attempt.Threw; }
      var plaintextBytes := aead.open(ciphertext.value, AdToJson(ad), nonce.value, key);
      if plaintextBytes.None? { return Attempt.Threw; }
      var text := FromUtf8(plaintextBytes.value);
      return if text.None? then Attempt.Threw else Done(text.value);
    }
  }

  /** In a state setKey() has led to, encrypt() works exactly when the highest held epoch is the expected one. */
  lemma EncryptsExactlyWhen(a: Aead, c: Cipher, plaintext: string, ad: MessageAad, nonce: seq<Byte>)
    requires c.Ok()
    ensures Encrypted(a, c, plaintext, ad, nonce).Done? <==>
            c.keysByEpoch != map[] && (c.expectedCurrentEpoch.None? || IsHighest(c, c.expectedCurrentEpoch.value))
  {
    if c.currentKeyId.Some? && c.expectedCurrentEpoch.Some? {
      HighestIsUnique(c, c.currentKeyId.value, c.expectedCurrentEpoch.value);
    }
  }

  ghost predicate IsHighest(c: Cipher, epoch: nat)
  {
    epoch in c.keysByEpoch && forall k | k in c.keysByEpoch :: k <= epoch
  }

  lemma HighestIsUnique(c: Cipher, m: nat, n: nat)
    requires IsHighest(c, m)
    ensures IsHighest(c, n) <==> n == m
  {}

  /** What one device encrypts, every device that holds that epoch's key reads, whatever else it holds. */
  lemma DecryptUndoesEncrypt(a: Aead, c: Cipher, reader: Cipher, plaintext: string, ad: MessageAad, nonce: seq<Byte>)
    requires a.Correct() && c.Ok() && c.Ready()
    requires var top := c.currentKeyId.value; top in reader.keysByEpoch && reader.keysByEpoch[top] == c.keysByEpoch[top]
    ensures var r := Encrypted(a, c, plaintext, ad, nonce);
            r.Done? && Decrypted(a, reader, r.text, ad) == Done(plaintext)
  {
    SealedTextOpens(a, reader, c.currentKeyId.value, plaintext, ad, nonce);
  }

  lemma SealedTextOpens(a: Aead, reader: Cipher, keyId: nat, plaintext: string, ad: MessageAad, nonce: seq<Byte>)
    requires a.Correct() && keyId in reader.keysByEpoch
    ensures Decrypted(a, reader, SealedText(a, keyId, reader.keysByEpoch[keyId], plaintext, ad, nonce), ad) == Done(plaintext)
  {
    var key := reader.keysByEpoch[keyId];
    Envelope.RoundTrip(keyId, ToUrl(nonce), ToUrl(a.seal(Utf8(plaintext), AdToJson(ad), nonce, key)));
    OpenUndoesSeal(a, key, plaintext, ad, nonce);
  }

  lemma OpenUndoesSeal(a: Aead, key: Key, plaintext: string, ad: MessageAad, nonce: seq<Byte>)
    requires a.Correct()
    ensures Opened(a, key, ToUrl(nonce), ToUrl(a.seal(Utf8(plaintext), AdToJson(ad), nonce, key)), ad) == Done(plaintext)
  {
    UrlReadsBack(nonce);
    UrlReadsBack(a.seal(Utf8(plaintext), AdToJson(ad), nonce, key));
    Utf8RoundTrip(plaintext);
  }

  predicate SealedUnder(content: string, keyId: nat)
  {
    var e := Envelope.ParseEnvelope(content);
    e.Sealed? && e.keyId == keyId as real
  }

  /** The ciphertext and nonce of an envelope are real, and opening them would not be a forgery. */
  predicate Unforged(a: Aead, log: seq<Sealing>, key: Key, nonceText: string, ciphertextText: string, ad: MessageAad)
  {
    FromUrl(nonceText).Some? && FromUrl(ciphertextText).Some? ==>
      a.NoForgery(log, FromUrl(ciphertextText).value, AdToJson(ad), FromUrl(nonceText).value, key)
  }

  /** What opens was sealed with the same key and nonce, for the same five fields, as the same text. */
  lemma OpenedWasSealed(a: Aead, log: seq<Sealing>, key: Key, nonceText: string, ciphertextText: string, ad: MessageAad)
    requires a.Correct() && Unforged(a, log, key, nonceText, ciphertextText, ad)
    ensures var r := Opened(a, key, nonceText, ciphertextText, ad);
            r.Done? ==> exists s :: s in log && s.key == key && s.ad == ad && s.plaintext == r.text
                                    && FromUrl(nonceText) == Some(s.nonce)
                                    && FromUrl(ciphertextText) == Some(SealingOf(a, s))
  {
    if Opened(a, key, nonceText, ciphertextText, ad).Done? {
      var nonce, ciphertext := FromUrl(nonceText).value, FromUrl(ciphertextText).value;
      var s := LoggedAs(a, log, ciphertext, ad, nonce, key);
      Utf8RoundTrip(s.plaintext);
    }
  }

  lemma LoggedAs(a: Aead, log: seq<Sealing>, ciphertext: seq<Byte>, ad: MessageAad, nonce: seq<Byte>, key: Key)
    returns (s: Sealing)
    requires a.Correct() && a.NoForgery(log, ciphertext, AdToJson(ad), nonce, key)
    requires a.open(ciphertext, AdToJson(ad), nonce, key).Some?
    ensures s in log && s.key == key && s.nonce == nonce && s.ad == ad && SealingOf(a, s) == ciphertext
    ensures a.open(ciphertext, AdToJson(ad), nonce, key) == Some(Utf8(s.plaintext))
  {
    s :| s in log && s.key == key && s.nonce == nonce && AdToJson(s.ad) == AdToJson(ad)
         && a.seal(Utf8(s.plaintext), AdToJson(ad), nonce, key) == ciphertext;
    AdIsUnambiguous(s.ad, ad);
  }

  /**
   And so for a whole message: a sealed content that decrypts was encrypted, under the key of its epoch, by
   someone who meant this id, room, author, name and time, and as the text that comes out.
   */
  lemma DecryptedWasEncrypted(a: Aead, log: seq<Sealing>, reader: Cipher, content: string, ad: MessageAad)
    requires a.Correct() && Envelope.ParseEnvelope(content).Sealed? && Decrypted(a, reader, content, ad).Done?
    requires forall epoch | epoch in reader.keysByEpoch ::
               Unforged(a, log, reader.keysByEpoch[epoch], Envelope.ParseEnvelope(content).nonce,
                        Envelope.ParseEnvelope(content).ciphertext, ad)
    ensures exists epoch, s :: epoch in reader.keysByEpoch && s in log && SealedUnder(content, epoch)
              && s.key == reader.keysByEpoch[epoch] && s.ad == ad && Decrypted(a, reader, content, ad) == Done(s.plaintext)
  {
    var e := Envelope.ParseEnvelope(content);
    var epoch: nat := e.keyId.Floor;
    OpenedWasSealed(a, log, reader.keysByEpoch[epoch], e.nonce, e.ciphertext, ad);
    assert SealedUnder(content, epoch);
  }

  /**
   Moved to another message, room or author, or given another time, the content no longer opens, unless its
   key and nonce were used for that other message too.
   */
  lemma MovedContentDoesNotOpen(a: Aead, log: seq<Sealing>, c: Cipher, reader: Cipher, plaintext: string,
                                ad: MessageAad, other: MessageAad, nonce: seq<Byte>)
    requires a.Correct() && c.Ok() && c.Ready()
    requires var top := c.currentKeyId.value; top in reader.keysByEpoch && reader.keysByEpoch[top] == c.keysByEpoch[top]
    requires var key := c.keysByEpoch[c.currentKeyId.value];
             && a.NoForgery(log, SealingOf(a, Sealing(key, nonce, ad, plaintext)), AdToJson(other), nonce, key)
             && forall s | s in log && s.key == key && s.nonce == nonce :: s.ad != other
    ensures var r := Encrypted(a, c, plaintext, ad, nonce);
            r.Done? && Decrypted(a, reader, r.text, other) == Threw
  {
    var top := c.currentKeyId.value;
    var key, ciphertext := c.keysByEpoch[top], SealingOf(a, Sealing(c.keysByEpoch[top], nonce, ad, plaintext));
    Envelope.RoundTrip(top, ToUrl(nonce), ToUrl(ciphertext));
    UrlReadsBack(nonce);
    UrlReadsBack(ciphertext);
    OpenedWasSealed(a, log, key, ToUrl(nonce), ToUrl(ciphertext), other);
  }

  // ---------------------------------------------------------------- sendMessage

  /** The white space and line terminators that trim() removes. */
  predicate IsWhite(c: char)
  {
    var x := c as int;
    || 9 <= x <= 13 || x == 0x20 || x == 0xa0 || x == 0x1680 || 0x2000 <= x <= 0x200a || x == 0x2028 || x == 0x2029
    || x == 0x202f || x == 0x205f || x == 0x3000 || x == 0xfeff
  }

  function TrimStart(s: string): string
    decreases |s|
  {
    if s != "" && IsWhite(s[0]) then TrimStart(s[1..]) else s
  }

  function TrimEnd(s: string): string
    decreases |s|
  {
    if s != "" && IsWhite(s[|s| - 1]) then TrimEnd(s[..|s| - 1]) else s
  }

  function Trim(s: string): string { TrimEnd(TrimStart(s)) }

  datatype Refusal = Empty | TooLong | CipherThrew

  datatype Sending = Sent(message: Json) | Refused(why: Refusal)

  function MessageOf(ad: MessageAad, content: string): Json
  {
    Obj(map["id" := Str(ad.id)]["roomId" := Str(ad.roomId)]["userId" := Str(ad.userId)]
          ["username" := Str(ad.username)]["content" := Str(content)]["createdAt" := Num(ad.createdAt as real)])
  }

  /** What sendMessage pushes, or why it throws; no cipher in a room that is not end-to-end encrypted. */
  function Composed(a: Aead, c: Option<Cipher>, content: string, ad: MessageAad, nonce: seq<Byte>): Sending
  {
    var trimmed := Trim(content);
    if trimmed == "" then Refused(Empty)
    else if Units(trimmed) > MAX_MESSAGE_LENGTH then Refused(TooLong)
    else if c.None? then Sent(MessageOf(ad, trimmed))
    else
      match Encrypted(a, c.value, trimmed, ad, nonce)
      case Threw => Refused(CipherThrew)
      case Done(text) => Sent(MessageOf(ad, text))
  }

  /** Nothing is pushed unless the message could be composed. */
  method SendMessage(engine: SyncEngine, cipher: LibsodiumContentCipher?, a: Aead,
                     content: string, ad: MessageAad, nonce: seq<Byte>) returns (r: Sending)
    requires engine.View().Ok() && (cipher != null ==> cipher.aead == a)
    modifies engine
    ensures r == Composed(a, if cipher == null then None else Some(old(cipher.State())), content, ad, nonce)
    ensures r == Refused(Empty) <==> Trim(content) == ""
    ensures r == Refused(TooLong) <==> Trim(content) != "" && Units(Trim(content)) > 4000
    ensures cipher == null && r.Sent? ==> r.message == Obj(map["id" := Str(ad.id), "roomId" := Str(ad.roomId),
              "userId" := Str(ad.userId), "username" := Str(ad.username), "content" := Str(Trim(content)),
              "createdAt" := Num(ad.createdAt as real)])
    ensures engine.View().Ok()
    ensures engine.View() ==
            if r.Sent? then Appended(old(engine.View()), engine.clientId, [r.message]) else old(engine.View())
  {
    var trimmed := Trim(content);
    if trimmed == "" { return Refused(Empty); }
    if Units(trimmed) > MAX_MESSAGE_LENGTH { return Refused(TooLong); }
    var storedContent := trimmed;
    if cipher != null {
      var encrypted := cipher.Encrypt(trimmed, ad, nonce);
      if encrypted.Threw? { return Refused(CipherThrew); }
      storedContent := encrypted.text;
    }
    var message := MessageOf(ad, storedContent);
    engine.Push([message]);
    return Sent(message);
  }

  // ---------------------------------------------------------------- honest messages pass the gate

  /** 17 to 12016 bytes of ciphertext: 23 to 16022 characters, well within what the gate allows. */
  lemma CiphertextSize(plaintext: string, ciphertext: seq<Byte>)
    requires 1 <= Units(plaintext) <= 4000 && |ciphertext| == |Utf8(plaintext)| + 16
    ensures 23 <= |ToUrl(ciphertext)| <= 16022 && |ToUrl(ciphertext)| % 4 != 1
    ensures IsBase64Url(Str(ToUrl(ciphertext)), MIN_CIPHERTEXT_CHARS, MAX_CIPHERTEXT_CHARS)
  {
    Utf8Length(plaintext);
    UrlRoundTrip(ciphertext);
    UrlIsBase64Url(ciphertext, MIN_CIPHERTEXT_CHARS, MAX_CIPHERTEXT_CHARS);
  }

  lemma UrlIsBase64Url(b: seq<Byte>, minChars: nat, maxChars: nat)
    requires 0 < minChars <= (4 * |b| + 2) / 3 <= maxChars
    ensures IsBase64Url(Str(ToUrl(b)), minChars, maxChars)
  {
    UrlRoundTrip(b);
    forall i | 0 <= i < |ToUrl(b)| ensures IsBase64UrlChar(ToUrl(b)[i]) {
      assert ToUrl(b)[i] in ToUrl(b);
    }
  }

  /** A message passes the gate exactly when its content is a well-formed envelope. */
  lemma MessagePassesExactlyWhen(ad: MessageAad, content: string)
    ensures IsEnvelopedMessage(MessageOf(ad, content)) <==> IsWellFormedEnvelope(content)
    ensures MessageOf(ad, content) == Obj(map["id" := Str(ad.id), "roomId" := Str(ad.roomId), "userId" := Str(ad.userId),
              "username" := Str(ad.username), "content" := Str(content), "createdAt" := Num(ad.createdAt as real)])
  {
    assert MessageOf(ad, content).fields.Keys == MESSAGE_KEYS;
  }

  /** The content an honest client seals is a well-formed envelope of the epoch it seals under. */
  lemma SealedTextPasses(a: Aead, keyId: nat, key: Key, plaintext: string, ad: MessageAad, nonce: seq<Byte>)
    requires a.Correct() && keyId > 0 && |nonce| == 24 && 1 <= Units(plaintext) <= 4000
    ensures var text := SealedText(a, keyId, key, plaintext, ad, nonce);
            IsWellFormedEnvelope(text) && SealedUnder(text, keyId)
  {
    var ciphertext := a.seal(Utf8(plaintext), AdToJson(ad), nonce, key);
    CiphertextSize(plaintext, ciphertext);
    PartsPass(keyId, nonce, ToUrl(ciphertext));
    Envelope.RoundTrip(keyId, ToUrl(nonce), ToUrl(ciphertext));
  }

  lemma PartsPass(keyId: nat, nonce: seq<Byte>, ciphertext: string)
    requires keyId > 0 && |nonce| == NONCE_BYTES
    requires IsBase64Url(Str(ciphertext), MIN_CIPHERTEXT_CHARS, MAX_CIPHERTEXT_CHARS)
    ensures IsWellFormedEnvelope(Envelope.Build(keyId, ToUrl(nonce), ciphertext))
  {
    UrlIsBase64Url(nonce, NONCE_CHARS, NONCE_CHARS);
    BuiltEnvelopePasses(keyId, ToUrl(nonce), ciphertext);
  }

  /** The gate lets the message through; it is sealed under this epoch, and opens as this text. */
  predicate Honest(a: Aead, c: Cipher, ad: MessageAad, content: string, keyId: nat, plaintext: string)
  {
    && IsEnvelopedMessage(MessageOf(ad, content)) && SealedUnder(content, keyId)
    && Decrypted(a, c, content, ad) == Done(plaintext)
  }

  /**
   In an encrypted room a message is sent, and never in the clear, exactly when its text is not blank
   and not too long and the cipher is ready; what is sent is the text sealed under the highest epoch.
   */
  lemma SendsSealedExactlyWhen(a: Aead, c: Cipher, content: string, ad: MessageAad, nonce: seq<Byte>)
    requires c.Ok()
    ensures Composed(a, Some(c), content, ad, nonce).Sent? <==>
            Trim(content) != "" && Units(Trim(content)) <= 4000 && c.Ready()
    ensures Composed(a, Some(c), content, ad, nonce).Sent? ==>
              var top := c.currentKeyId.value;
              && IsHighest(c, top) && 1 <= Units(Trim(content))
              && Composed(a, Some(c), content, ad, nonce)
                 == Sent(MessageOf(ad, SealedText(a, top, c.keysByEpoch[top], Trim(content), ad, nonce)))
  {
    Utf8Length(Trim(content));
  }

  /** And what is sent so passes the server's gate and opens as the text, for every text of 1 to 4000 units. */
  lemma HonestMessagesPass(a: Aead, c: Cipher, keyId: nat, plaintext: string, ad: MessageAad, nonce: seq<Byte>)
    requires a.Correct() && keyId > 0 && keyId in c.keysByEpoch && |nonce| == 24
    requires 1 <= Units(plaintext) <= 4000
    ensures Honest(a, c, ad, SealedText(a, keyId, c.keysByEpoch[keyId], plaintext, ad, nonce), keyId, plaintext)
  {
    SealedTextPasses(a, keyId, c.keysByEpoch[keyId], plaintext, ad, nonce);
    SealedTextOpens(a, c, keyId, plaintext, ad, nonce);
    MessagePassesExactlyWhen(ad, SealedText(a, keyId, c.keysByEpoch[keyId], plaintext, ad, nonce));
  }

  /** trim() leaves neither end white, and takes away nothing but white space. */
  lemma {:induction false} TrimIsExact(s: string)
    ensures Trim(s) != "" ==> !IsWhite(Trim(s)[0]) && !IsWhite(Trim(s)[|Trim(s)| - 1])
    ensures exists i, j :: 0 <= i <= j <= |s| && Trim(s) == s[i..j]
              && (forall k | 0 <= k < i || j <= k < |s| :: IsWhite(s[k]))
  {
    var i := StartTrimmed(s);
    var j := EndTrimmed(s[i..]);
    assert Trim(s) == s[i..i + j];
    forall k | i + j <= k < |s| ensures IsWhite(s[k]) { assert s[k] == s[i..][k - i]; }
  }

  lemma {:induction false} StartTrimmed(s: string) returns (i: nat)
    ensures i <= |s| && TrimStart(s) == s[i..] && (forall k | 0 <= k < i :: IsWhite(s[k]))
    ensures i < |s| ==> !IsWhite(s[i])
    decreases |s|
  {
    i := 0;
    if s != "" && IsWhite(s[0]) {
      var n := StartTrimmed(s[1..]);
      i := n + 1;
      assert s[1..][n..] == s[i..];
      forall k | 0 < k < i ensures IsWhite(s[k]) { assert s[k] == s[1..][k - 1]; }
    }
  }

  lemma {:induction false} EndTrimmed(s: string) returns (j: nat)
    ensures j <= |s| && TrimEnd(s) == s[..j] && (forall k | j <= k < |s| :: IsWhite(s[k]))
    ensures j > 0 ==> !IsWhite(s[j - 1])
    decreases |s|
  {
    j := |s|;
    if s != "" && IsWhite(s[|s| - 1]) {
      j := EndTrimmed(s[..|s| - 1]);
      assert s[..|s| - 1][..j] == s[..j];
      forall k | j <= k < |s| - 1 ensures IsWhite(s[k]) { assert s[k] == s[..|s| - 1][k]; }
    }
  }
}
