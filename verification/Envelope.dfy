/** The client's envelope format: apps/mobile/src/crypto/e2eeEnvelope.ts. */
module Envelope {
  import opened JsonText

  const PREFIX := "E2E1"

  datatype Reading =
    | Plaintext                                                   // no prefix: shown as it is
    | Threw                                                       // a prefix, but no envelope behind it
    | Sealed(keyId: real, nonce: string, ciphertext: string)

  function Member(key: string, valueText: string): string { WriteString(key) + ":" + valueText }

  // The members of an envelope, each function from its own member on.
  function FromCiphertext(ciphertext: string): string { Member("ciphertext", WriteString(ciphertext)) + "}" }

  function FromNonce(nonce: string, ciphertext: string): string
  {
    Member("nonce", WriteString(nonce)) + ("," + FromCiphertext(ciphertext))
  }

  function FromKeyId(keyId: nat, nonce: string, ciphertext: string): string
  {
    Member("keyId", WriteNat(keyId)) + ("," + FromNonce(nonce, ciphertext))
  }

  function FromVersion(keyId: nat, nonce: string, ciphertext: string): string
  {
    Member("v", WriteNat(1)) + ("," + FromKeyId(keyId, nonce, ciphertext))
  }

  function Build(keyId: nat, nonce: string, ciphertext: string): string
  {
    PREFIX + ("{" + FromVersion(keyId, nonce, ciphertext))
  }

  function ParseEnvelope(content: string): Reading
  {
    if !StartsWith(content, PREFIX) then Plaintext
    else match Parse(content[|PREFIX|..])
      case Malformed => Threw
      case Text(json) => if IsEnvelopeShape(json) then OfShape(json) else Threw
  }

  predicate IsEnvelopeShape(json: Json)
  {
    && json.Obj?
    && "v" in json.fields && json.fields["v"] == Num(1.0)
    && "keyId" in json.fields && json.fields["keyId"].Num?
    && "nonce" in json.fields && json.fields["nonce"].Str?
    && "ciphertext" in json.fields && json.fields["ciphertext"].Str?
  }

  function OfShape(json: Json): Reading
    requires IsEnvelopeShape(json)
  {
    Sealed(json.fields["keyId"].n, json.fields["nonce"].s, json.fields["ciphertext"].s)
  }

  /** The object that Build writes. */
  function Fields(keyId: nat, nonce: string, ciphertext: string): map<string, Json>
  {
    map["v" := Num(1.0)]["keyId" := Num(keyId as real)]["nonce" := Str(nonce)]["ciphertext" := Str(ciphertext)]
  }

  /** Reads one member whose value is already known to read as v. */
  lemma MemberRead(key: string, valueText: string, v: Json, tail: string, fields: map<string, Json>)
    requires tail != [] && (tail[0] == ',' || tail[0] == '}')
    requires ReadValue(valueText + tail) == Got(v, tail)
    ensures ReadMembers(Member(key, valueText) + tail, fields)
         == if tail[0] == '}' then Got(Obj(fields[key := v]), tail[1..])
            else ReadMembers(tail[1..], fields[key := v])
  {
    var s := Member(key, valueText) + tail;
    var u := ":" + (valueText + tail);
    assert s[0] == '\"';
    assert s[1..] == WriteChars(key) + u;
    ReadCharsWritten(key, u);
    assert u[1..] == valueText + tail;
  }

  lemma StringValue(s: string, tail: string)
    ensures ReadValue(WriteString(s) + tail) == Got(Str(s), tail)
  {
    assert (WriteString(s) + tail)[1..] == WriteChars(s) + tail;
    ReadCharsWritten(s, tail);
  }

  lemma OtherStart(t: string, word: string)
    requires t != [] && word != [] && t[0] != word[0]
    ensures !StartsWith(t, word)
  {
  }

  lemma DigitStartsNumber(t: string)
    requires t != [] && IsDigit(t[0])
    ensures ReadValue(t) == ReadNumber(t)
  {
    OtherStart(t, "true");
    OtherStart(t, "false");
    OtherStart(t, "null");
  }

  lemma NatValue(n: nat, tail: string)
    requires tail != [] && (tail[0] == ',' || tail[0] == '}')
    ensures ReadValue(WriteNat(n) + tail) == Got(Num(n as real), tail)
  {
    WriteNatDigits(n);
    DigitStartsNumber(WriteNat(n) + tail);
    ReadNumberWritten(n, tail);
  }

  lemma CiphertextRead(ciphertext: string, fields: map<string, Json>)
    ensures ReadMembers(FromCiphertext(ciphertext), fields) == Got(Obj(fields["ciphertext" := Str(ciphertext)]), [])
  {
    StringValue(ciphertext, "}");
    MemberRead("ciphertext", WriteString(ciphertext), Str(ciphertext), "}", fields);
  }

  lemma NonceRead(nonce: string, ciphertext: string, fields: map<string, Json>)
    ensures ReadMembers(FromNonce(nonce, ciphertext), fields)
         == Got(Obj(fields["nonce" := Str(nonce)]["ciphertext" := Str(ciphertext)]), [])
  {
    var tail := "," + FromCiphertext(ciphertext);
    StringValue(nonce, tail);
    MemberRead("nonce", WriteString(nonce), Str(nonce), tail, fields);
    assert tail[1..] == FromCiphertext(ciphertext);
    CiphertextRead(ciphertext, fields["nonce" := Str(nonce)]);
  }

  lemma KeyIdRead(keyId: nat, nonce: string, ciphertext: string, fields: map<string, Json>)
    ensures ReadMembers(FromKeyId(keyId, nonce, ciphertext), fields)
         == Got(Obj(fields["keyId" := Num(keyId as real)]["nonce" := Str(nonce)]["ciphertext" := Str(ciphertext)]), [])
  {
    var tail := "," + FromNonce(nonce, ciphertext);
    NatValue(keyId, tail);
    MemberRead("keyId", WriteNat(keyId), Num(keyId as real), tail, fields);
    assert tail[1..] == FromNonce(nonce, ciphertext);
    NonceRead(nonce, ciphertext, fields["keyId" := Num(keyId as real)]);
  }

  lemma VersionRead(keyId: nat, nonce: string, ciphertext: string)
    ensures ReadMembers(FromVersion(keyId, nonce, ciphertext), map[]) == Got(Obj(Fields(keyId, nonce, ciphertext)), [])
  {
    var tail := "," + FromKeyId(keyId, nonce, ciphertext);
    NatValue(1, tail);
    MemberRead("v", WriteNat(1), Num(1.0), tail, map[]);
    assert tail[1..] == FromKeyId(keyId, nonce, ciphertext);
    KeyIdRead(keyId, nonce, ciphertext, map["v" := Num(1.0)]);
  }

  lemma ObjectRead(members: string)
    requires members != [] && members[0] == '\"'
    ensures ReadValue("{" + members) == ReadMembers(members, map[])
  {
    assert ("{" + members)[1..] == members;
  }

  /** The text behind the prefix of a built envelope is exactly the four-member object. */
  lemma BuiltText(keyId: nat, nonce: string, ciphertext: string)
    ensures StartsWith(Build(keyId, nonce, ciphertext), PREFIX)
    ensures Parse(Build(keyId, nonce, ciphertext)[|PREFIX|..]) == Text(Obj(Fields(keyId, nonce, ciphertext)))
  {
    var members := FromVersion(keyId, nonce, ciphertext);
    assert Build(keyId, nonce, ciphertext)[|PREFIX|..] == "{" + members;
    ObjectRead(members);
    VersionRead(keyId, nonce, ciphertext);
  }

  lemma FieldsHaveShape(keyId: nat, nonce: string, ciphertext: string)
    ensures var json := Obj(Fields(keyId, nonce, ciphertext));
            IsEnvelopeShape(json) && OfShape(json) == Sealed(keyId as real, nonce, ciphertext)
  {
  }

  /** Reading undoes building, for every epoch and every nonce and ciphertext text. */
  lemma RoundTrip(keyId: nat, nonce: string, ciphertext: string)
    ensures ParseEnvelope(Build(keyId, nonce, ciphertext)) == Sealed(keyId as real, nonce, ciphertext)
  {
    BuiltText(keyId, nonce, ciphertext);
    FieldsHaveShape(keyId, nonce, ciphertext);
  }

  predicate Has(fields: map<string, Json>, name: string, value: Json) { name in fields && fields[name] == value }

  /**
   Without the prefix a content is plaintext; with it, it is sealed when JSON text of an object with the four
   members of version 1 follows, whatever other members there are, and nothing else.
   */
  lemma ReadsExactly(content: string, keyId: real, nonce: string, ciphertext: string)
    ensures ParseEnvelope(content) == Plaintext <==> !("E2E1" <= content)
    ensures ParseEnvelope(content) == Sealed(keyId, nonce, ciphertext) <==>
            "E2E1" <= content && exists fields ::
              && Parse(content[4..]) == Text(Obj(fields)) && Has(fields, "v", Num(1.0)) && Has(fields, "keyId", Num(keyId))
              && Has(fields, "nonce", Str(nonce)) && Has(fields, "ciphertext", Str(ciphertext))
  {
    assert StartsWith(content, PREFIX) <==> "E2E1" <= content;
  }
}
