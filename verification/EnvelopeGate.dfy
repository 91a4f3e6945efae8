/** The server's check on what a client update inserts: apps/server/src/sync/e2ee-update-gate.ts. */
module EnvelopeGate {
  import opened JsonText
  import Envelope

  const NONCE_CHARS := 32
  const MIN_CIPHERTEXT_CHARS := 23
  const MAX_CIPHERTEXT_CHARS := 21355
  const ENVELOPE_KEYS := {"ciphertext", "keyId", "nonce", "v"}
  const MESSAGE_KEYS := {"content", "createdAt", "id", "roomId", "userId", "username"}

  /** What a struct of a decoded update carries. */
  datatype Content =
    | Values(values: seq<Json>)   // plain values, one per array element
    | Foreign                     // text, nested types, binary, embeds, ...

  datatype WireStruct = Gone | Item(content: Content)

  datatype Verdict = Accept | Reject(ids: seq<string>)

  predicate IsBase64UrlChar(c: char)
  {
    'A' <= c <= 'Z' || 'a' <= c <= 'z' || '0' <= c <= '9' || c == '_' || c == '-'
  }

  predicate IsBase64Url(value: Json, minChars: nat, maxChars: nat)
  {
    && value.Str?
    && minChars <= |value.s| <= maxChars
    && |value.s| % 4 != 1
    && value.s != []
    && forall i | 0 <= i < |value.s| :: IsBase64UrlChar(value.s[i])
  }

  predicate IsEnvelopeObject(json: Json)
  {
    && json.Obj?
    && json.fields.Keys == ENVELOPE_KEYS
    && json.fields["v"] == Num(1.0)
    && json.fields["keyId"].Num?
    && json.fields["keyId"].n.Floor as real == json.fields["keyId"].n
    && json.fields["keyId"].n > 0.0
    && IsBase64Url(json.fields["nonce"], NONCE_CHARS, NONCE_CHARS)
    && IsBase64Url(json.fields["ciphertext"], MIN_CIPHERTEXT_CHARS, MAX_CIPHERTEXT_CHARS)
  }

  predicate IsWellFormedEnvelope(content: string)
  {
    && StartsWith(content, Envelope.PREFIX)
    && Parse(content[|Envelope.PREFIX|..]).Text?
    && IsEnvelopeObject(Parse(content[|Envelope.PREFIX|..]).json)
  }

  predicate IsEnvelopedMessage(value: Json)
  {
    && value.Obj?
    && value.fields.Keys == MESSAGE_KEYS
    && value.fields["content"].Str?
    && IsWellFormedEnvelope(value.fields["content"].s)
  }

  predicate HasId(value: Json) { value.Obj? && "id" in value.fields && value.fields["id"].Str? }

  /** What f gives for each of a list, in order. */
  function Flat<T>(f: T -> seq<string>, xs: seq<T>): seq<string>
  {
    if xs == [] then [] else Flat(f, xs[..|xs| - 1]) + f(xs[|xs| - 1])
  }

  /** The id named for a value: that of an offending one that has a string id. */
  function Offender(v: Json): seq<string>
  {
    if !IsEnvelopedMessage(v) && HasId(v) then [v.fields["id"].s] else []
  }

  function OffendingIds(values: seq<Json>): seq<string> { Flat(Offender, values) }

  function StructIds(s: WireStruct): seq<string>
  {
    if s.Item? && s.content.Values? then OffendingIds(s.content.values) else []
  }

  function NamedIds(structs: seq<WireStruct>): seq<string> { Flat(StructIds, structs) }

  predicate CleanContent(content: Content)
  {
    content.Values? && forall v | v in content.values :: IsEnvelopedMessage(v)
  }

  predicate CleanStruct(s: WireStruct) { s.Gone? || CleanContent(s.content) }

  predicate AllClean(structs: seq<WireStruct>) { forall s | s in structs :: CleanStruct(s) }

  /** The inner loop, over the values of one struct. */
  method CheckValues(values: seq<Json>) returns (ok: bool, ids: seq<string>)
    ensures ok <==> forall v | v in values :: IsEnvelopedMessage(v)
    ensures ids == OffendingIds(values)
  {
    ok, ids := true, [];
    for j := 0 to |values|
      invariant ok <==> forall v | v in values[..j] :: IsEnvelopedMessage(v)
      invariant ids == OffendingIds(values[..j])
    {
      var value := values[j];
      assert values[..j + 1][..j] == values[..j];
      assert values[..j + 1] == values[..j] + [value];
      if IsEnvelopedMessage(value) {
        continue;
      }
      ok := false;
      if HasId(value) {
        ids := ids + [value.fields["id"].s];
      }
    }
    assert values[..|values|] == values;
  }

  /** What the outer loop makes of one struct. */
  method CheckStruct(struct: WireStruct) returns (clean: bool, ids: seq<string>)
    ensures clean <==> CleanStruct(struct)
    ensures ids == StructIds(struct)
  {
    if struct.Gone? {
      return true, [];
    }
    if struct.content.Foreign? {
      return false, [];
    }
    clean, ids := CheckValues(struct.content.values);
  }

  /** The loop's flag and list after n structs. */
  predicate CleanSoFar(structs: seq<WireStruct>, n: nat)
    requires n <= |structs|
  {
    n == 0 || (CleanSoFar(structs, n - 1) && CleanStruct(structs[n - 1]))
  }

  function NamedSoFar(structs: seq<WireStruct>, n: nat): seq<string>
    requires n <= |structs|
  {
    if n == 0 then [] else NamedSoFar(structs, n - 1) + StructIds(structs[n - 1])
  }

  lemma {:induction false} SoFarIsPrefix(structs: seq<WireStruct>, n: nat)
    requires n <= |structs|
    ensures CleanSoFar(structs, n) <==> AllClean(structs[..n])
    ensures NamedSoFar(structs, n) == NamedIds(structs[..n])
  {
    if n > 0 {
      SoFarIsPrefix(structs, n - 1);
      var front, last := structs[..n - 1], structs[n - 1];
      assert structs[..n] == front + [last];
      FlatSnoc(StructIds, front, last);
      assert AllClean(front + [last]) <==> AllClean(front) && CleanStruct(last);
    }
  }

  /**
   The gate's loop over a decoded update; bytes that do not decode are rejected without ids.  It accepts exactly the
   updates that insert nothing but enveloped messages, and names exactly the offending string ids.
   */
  method CheckEnvelopedUpdate(decoded: seq<WireStruct>, decodes: bool) returns (verdict: Verdict)
    ensures verdict.Accept? <==> decodes && AllClean(decoded)
    ensures verdict.Accept? <==> decodes && OnlySealed(decoded)
    ensures verdict.Reject? ==> verdict.ids == if decodes then NamedIds(decoded) else []
  {
    if !decodes {
      return Reject([]);
    }
    var ok := true;
    var rejectedMessageIds := [];
    for i := 0 to |decoded|
      invariant ok == CleanSoFar(decoded, i)
      invariant rejectedMessageIds == NamedSoFar(decoded, i)
    {
      var clean, ids := CheckStruct(decoded[i]);
      ok := ok && clean;
      rejectedMessageIds := rejectedMessageIds + ids;
    }
    SoFarIsPrefix(decoded, |decoded|);
    PassesExactly(decoded);
    assert decoded[..|decoded|] == decoded;
    verdict := if ok then Accept else Reject(rejectedMessageIds);
  }

  /** Whatever the gate accepts, the reading client opens as an envelope and never throws on. */
  lemma AcceptedContentIsReadable(content: string)
    requires IsWellFormedEnvelope(content)
    ensures var r := Envelope.ParseEnvelope(content);
            && r.Sealed? && r.keyId >= 1.0 && r.keyId.Floor as real == r.keyId
            && |r.nonce| == NONCE_CHARS && |r.ciphertext| <= MAX_CIPHERTEXT_CHARS
  {
    var fields := Parse(content[|Envelope.PREFIX|..]).json.fields;
    assert "v" in fields.Keys && "keyId" in fields.Keys && "nonce" in fields.Keys && "ciphertext" in fields.Keys;
  }

  /** A built envelope passes exactly when its parts have the sizes and alphabet the gate asks for. */
  lemma BuiltEnvelopePasses(keyId: nat, nonce: string, ciphertext: string)
    ensures IsWellFormedEnvelope(Envelope.Build(keyId, nonce, ciphertext))
       <==> && keyId > 0
            && IsBase64Url(Str(nonce), NONCE_CHARS, NONCE_CHARS)
            && IsBase64Url(Str(ciphertext), MIN_CIPHERTEXT_CHARS, MAX_CIPHERTEXT_CHARS)
  {
    Envelope.BuiltText(keyId, nonce, ciphertext);
    BuiltObjectPasses(keyId, nonce, ciphertext);
  }

  lemma BuiltObjectPasses(keyId: nat, nonce: string, ciphertext: string)
    ensures IsEnvelopeObject(Obj(Envelope.Fields(keyId, nonce, ciphertext)))
       <==> && keyId > 0
            && IsBase64Url(Str(nonce), NONCE_CHARS, NONCE_CHARS)
            && IsBase64Url(Str(ciphertext), MIN_CIPHERTEXT_CHARS, MAX_CIPHERTEXT_CHARS)
  {
    assert Envelope.Fields(keyId, nonce, ciphertext).Keys == ENVELOPE_KEYS;
  }

  // ---------------------------------------------------------------- what passes, written out

  const UPPER := "ABCDEFGHIJKLMNOPQRSTUVWXYZ"
  const LOWER := "abcdefghijklmnopqrstuvwxyz"
  const DIGITS := "0123456789"

  ghost predicate InAlphabet(c: char) { c in UPPER || c in LOWER || c in DIGITS || c == '-' || c == '_' }

  lemma AlphabetIsExact(c: char)
    ensures IsBase64UrlChar(c) <==> InAlphabet(c)
  {
    UpperIsExact(c);
    LowerIsExact(c);
    DigitsAreExact(c);
  }

  lemma UpperIsExact(c: char)
    ensures c in UPPER <==> 'A' <= c <= 'Z'
  {
    if 'A' <= c <= 'Z' { assert UPPER[c as int - 'A' as int] == c; }
  }

  lemma LowerIsExact(c: char)
    ensures c in LOWER <==> 'a' <= c <= 'z'
  {
    if 'a' <= c <= 'z' { assert LOWER[c as int - 'a' as int] == c; }
  }

  lemma DigitsAreExact(c: char)
    ensures c in DIGITS <==> '0' <= c <= '9'
  {
    if '0' <= c <= '9' { assert DIGITS[c as int - '0' as int] == c; }
  }

  /** Text that can be the unpadded base64url encoding of some bytes. */
  ghost predicate EncodesBytes(text: Json, shortest: nat, longest: nat)
  {
    text.Str? && shortest <= |text.s| <= longest && |text.s| % 4 != 1 && forall c | c in text.s :: InAlphabet(c)
  }

  ghost predicate IsEpoch(json: Json, epoch: nat) { epoch > 0 && json == Num(epoch as real) }

  /** The members of an envelope and what each may hold. */
  ghost predicate EnvelopeMembers(fields: map<string, Json>)
  {
    && fields.Keys == {"v", "keyId", "nonce", "ciphertext"}
    && fields["v"] == Num(1.0)
    && (exists epoch :: IsEpoch(fields["keyId"], epoch))
    && EncodesBytes(fields["nonce"], 32, 32) && EncodesBytes(fields["ciphertext"], 23, 21355)
  }

  /** Four characters and the JSON text of such an object, however it is written. */
  ghost predicate EnvelopeText(content: string)
  {
    && |content| >= 4 && content[..4] == "E2E1"
    && exists fields :: Parse(content[4..]) == Text(Obj(fields)) && EnvelopeMembers(fields)
  }

  /** A message with its six members and an envelope for its content. */
  ghost predicate SealedMessage(value: Json)
  {
    && value.Obj? && value.fields.Keys == {"id", "roomId", "userId", "username", "content", "createdAt"}
    && value.fields["content"].Str? && EnvelopeText(value.fields["content"].s)
  }

  /** Every struct is gone, or holds plain values that are all such messages. */
  ghost predicate OnlySealed(structs: seq<WireStruct>)
  {
    forall s | s in structs :: s == Gone || (exists vs :: s == Item(Values(vs)) && forall v | v in vs :: SealedMessage(v))
  }

  lemma EncodesExactly(text: Json, shortest: nat, longest: nat)
    requires shortest > 0
    ensures IsBase64Url(text, shortest, longest) <==> EncodesBytes(text, shortest, longest)
  {
    if text.Str? {
      forall c ensures IsBase64UrlChar(c) <==> InAlphabet(c) { AlphabetIsExact(c); }
      assert (forall i | 0 <= i < |text.s| :: IsBase64UrlChar(text.s[i])) <==> (forall c | c in text.s :: InAlphabet(c));
    }
  }

  lemma WholeNumbers(n: real)
    ensures n.Floor as real == n && n > 0.0 <==> exists epoch :: IsEpoch(Num(n), epoch)
  {
    if n.Floor as real == n && n > 0.0 {
      assert IsEpoch(Num(n), n.Floor);
    }
  }

  lemma EnvelopeMembersExactly(fields: map<string, Json>)
    ensures IsEnvelopeObject(Obj(fields)) <==> EnvelopeMembers(fields)
  {
    if fields.Keys == {"v", "keyId", "nonce", "ciphertext"} {
      assert "v" in fields.Keys && "keyId" in fields.Keys && "nonce" in fields.Keys && "ciphertext" in fields.Keys;
      EncodesExactly(fields["nonce"], 32, 32);
      EncodesExactly(fields["ciphertext"], 23, 21355);
      if fields["keyId"].Num? { WholeNumbers(fields["keyId"].n); }
    }
  }

  lemma EnvelopeTextExactly(content: string)
    ensures IsWellFormedEnvelope(content) <==> EnvelopeText(content)
  {
    if |content| >= 4 && content[..4] == "E2E1" {
      assert StartsWith(content, Envelope.PREFIX);
      match Parse(content[4..])
      case Text(Obj(fields)) => EnvelopeMembersExactly(fields);
      case _ =>
    }
  }

  lemma SealedMessageExactly(value: Json)
    ensures IsEnvelopedMessage(value) <==> SealedMessage(value)
  {
    if value.Obj? && value.fields.Keys == {"id", "roomId", "userId", "username", "content", "createdAt"} {
      assert "content" in value.fields.Keys;
      if value.fields["content"].Str? { EnvelopeTextExactly(value.fields["content"].s); }
    }
  }

  /**
   An update passes if and only if each of its structs is gone or holds plain values, each an object with
   exactly the six members of a message, whose content is four characters and the JSON text of an object
   with exactly the four members of an envelope: version 1, a positive whole epoch, 32 base64url characters
   and 23 to 21355 of them.
   */
  lemma PassesExactly(structs: seq<WireStruct>)
    ensures AllClean(structs) <==> OnlySealed(structs)
  {
    forall v ensures IsEnvelopedMessage(v) <==> SealedMessage(v) { SealedMessageExactly(v); }
    forall s
      ensures CleanStruct(s)
         <==> s == Gone || (exists vs :: s == Item(Values(vs)) && forall v | v in vs :: SealedMessage(v))
    {
      if s.Item? && s.content.Values? { assert s == Item(Values(s.content.values)); }
    }
  }

  /** This value is inserted somewhere in the update. */
  ghost predicate Inserts(structs: seq<WireStruct>, v: Json) { exists vs :: Item(Values(vs)) in structs && v in vs }

  /** Nothing may ride beside a message's members, and none may be missing. */
  lemma NothingRidesBeside(v: Json, name: string, extra: Json, structs: seq<WireStruct>)
    requires AllClean([Item(Values([v]))])
    ensures v.Obj?
    ensures name !in v.fields && Inserts(structs, Obj(v.fields[name := extra])) ==> !AllClean(structs)
    ensures name in v.fields && Inserts(structs, Obj(v.fields - {name})) ==> !AllClean(structs)
  {
    PassesExactly([Item(Values([v]))]);
    PassesExactly(structs);
    assert Item(Values([v])) in [Item(Values([v]))] && v in [v];
    assert name !in v.fields ==> name in Obj(v.fields[name := extra]).fields.Keys;
    assert name in v.fields ==> name !in Obj(v.fields - {name}).fields.Keys;
  }

  /** Nor beside an envelope's, in whatever text its object is written. */
  lemma NothingRidesInside(content: string, fields: map<string, Json>, name: string, extra: Json, other: string)
    requires IsWellFormedEnvelope(content) && Parse(content[4..]) == Text(Obj(fields)) && |other| >= 4
    ensures name !in fields && Parse(other[4..]) == Text(Obj(fields[name := extra])) ==> !IsWellFormedEnvelope(other)
    ensures name in fields && Parse(other[4..]) == Text(Obj(fields - {name})) ==> !IsWellFormedEnvelope(other)
  {
    EnvelopeTextExactly(content);
    EnvelopeTextExactly(other);
    assert name !in fields ==> name in fields[name := extra].Keys;
    assert name in fields ==> name !in (fields - {name}).Keys;
  }

  // ---------------------------------------------------------------- what a rejection names

  lemma {:induction false} OffendersExactly(values: seq<Json>, name: string)
    ensures name in OffendingIds(values) <==>
            exists v :: v in values && !SealedMessage(v) && v.Obj? && "id" in v.fields && v.fields["id"] == Str(name)
  {
    if values != [] {
      var front, last := values[..|values| - 1], values[|values| - 1];
      OffendersExactly(front, name);
      SealedMessageExactly(last);
      assert values == front + [last];
    }
  }

  lemma NamesOne(v: Json)
    ensures NamedIds([Item(Values([v]))])
         == if !SealedMessage(v) && v.Obj? && "id" in v.fields && v.fields["id"].Str? then [v.fields["id"].s] else []
  {
    SealedMessageExactly(v);
    NamesOfOne([v]);
    FlatSnoc(Offender, [], v);
  }

  /** They stand in the order of the update, value by value. */
  lemma NamesInOrder(a: seq<WireStruct>, b: seq<WireStruct>, u: seq<Json>, v: seq<Json>)
    ensures NamedIds(a + b) == NamedIds(a) + NamedIds(b)
    ensures NamedIds([Item(Values(u + v))]) == NamedIds([Item(Values(u))]) + NamedIds([Item(Values(v))])
  {
    FlatAppends(StructIds, a, b);
    FlatAppends(Offender, u, v);
    NamesOfOne(u + v);
    NamesOfOne(u);
    NamesOfOne(v);
  }

  lemma NamesOfOne(values: seq<Json>)
    ensures NamedIds([Item(Values(values))]) == OffendingIds(values)
  {
    FlatSnoc(StructIds, [], Item(Values(values)));
  }

  lemma FlatSnoc<T>(f: T -> seq<string>, xs: seq<T>, last: T)
    ensures Flat(f, xs + [last]) == Flat(f, xs) + f(last)
  {
    assert (xs + [last])[..|xs|] == xs;
  }

  lemma {:induction false} FlatAppends<T>(f: T -> seq<string>, a: seq<T>, b: seq<T>)
    ensures Flat(f, a + b) == Flat(f, a) + Flat(f, b)
  {
    if b == [] {
      assert a + b == a;
    } else {
      var front, last := b[..|b| - 1], b[|b| - 1];
      FlatAppends(f, a, front);
      FlatSnoc(f, a + front, last);
      assert a + b == (a + front) + [last];
    }
  }

  /** The ids that a rejection carries are the string ids of the values that do not pass, and no others. */
  lemma {:induction false} NamesExactly(structs: seq<WireStruct>, name: string)
    ensures name in NamedIds(structs) <==>
            exists v :: Inserts(structs, v) && !SealedMessage(v) && v.Obj? && "id" in v.fields && v.fields["id"] == Str(name)
  {
    if structs != [] {
      var front, last := structs[..|structs| - 1], structs[|structs| - 1];
      NamesExactly(front, name);
      assert structs == front + [last];
      if last.Item? && last.content.Values? { OffendersExactly(last.content.values, name); }
      forall v
        ensures Inserts(structs, v) <==> Inserts(front, v) || (last.Item? && last.content.Values? && v in last.content.values)
      {
        InsertsSnoc(front, last, v);
      }
    }
  }

  lemma InsertsSnoc(front: seq<WireStruct>, last: WireStruct, v: Json)
    ensures Inserts(front + [last], v) <==> Inserts(front, v) || (last.Item? && last.content.Values? && v in last.content.values)
  {
    if Inserts(front, v) {
      var vs :| Item(Values(vs)) in front && v in vs;
      assert Item(Values(vs)) in front + [last];
    }
    if last.Item? && last.content.Values? { assert Item(Values(last.content.values)) in front + [last]; }
  }
}
