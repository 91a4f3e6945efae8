/**
 The base64 polyfill and the byte loops around it: apps/mobile/src/polyfills/base64.ts:6-44 and
 packages/sync-engine/src/SQLitePersistence.ts:45-61 (section 4 of RFC 4648).

 Strings are sequences of 16-bit code units; the shifts and masks are those of the source.
 */
module Base64 {
  import opened Common

  type CodeUnit = bv16
  type Text = seq<CodeUnit>

  datatype Result = Ok(output: Text) | Threw

  // ---------------------------------------------------------------- the alphabet

  const PAD: CodeUnit := 61   // '='

  /** CHARS[x]: A-Z, a-z, 0-9, + and /. */
  function Symbol(x: bv32): (ch: CodeUnit)
    requires x < 64
    ensures Lookup(ch) == Some(x)
  {
    var i := x as bv16;
    if i < 26 then i + 65 else if i < 52 then i + 71 else if i < 62 then i - 4 else if i == 62 then 43 else 47
  }

  /** LOOKUP[ch], undefined outside the alphabet. */
  function Lookup(ch: CodeUnit): (r: Option<bv32>)
    ensures r.Some? ==> r.value < 64
  {
    if 65 <= ch <= 90 then Some((ch - 65) as bv32)
    else if 97 <= ch <= 122 then Some((ch - 71) as bv32)
    else if 48 <= ch <= 57 then Some((ch + 4) as bv32)
    else if ch == 43 then Some(62) else if ch == 47 then Some(63) else None
  }

  predicate InAlphabet(ch: CodeUnit) { Lookup(ch).Some? }

  /** No two places of the alphabet hold the same character, and no other character is found. */
  lemma LookupInverts(ch: CodeUnit)
    ensures InAlphabet(ch) ==> Symbol(Lookup(ch).value) == ch
  {}

  /** Fills the table, keyed by one-character strings, by walking the alphabet. */
  method BuildLookup() returns (table: map<Text, bv32>)
    ensures IsLookup(table)
  {
    table := map[];
    var i: bv32 := 0;
    while i < 64
      invariant i <= 64
      invariant forall ch :: [ch] in table <==> InAlphabet(ch) && Lookup(ch).value < i
      invariant forall ch :: [ch] in table ==> table[[ch]] == Lookup(ch).value
      decreases 64 - i
    {
      forall ch | InAlphabet(ch) && Lookup(ch).value == i ensures ch == Symbol(i) { LookupInverts(ch); }
      ghost var before := table;
      table := table[[Symbol(i)] := i];
      forall ch ensures [ch] in table <==> ch == Symbol(i) || [ch] in before {
        assert [ch] == [Symbol(i)] <==> [ch][0] == [Symbol(i)][0];
      }
      i := i + 1;
    }
  }

  // ---------------------------------------------------------------- groups of three and of four

  lemma CodesOfTriplet(c0: bv32, c1: bv32, c2: bv32)
    requires c0 < 256 && c1 < 256 && c2 < 256
    ensures ((c0 << 16) | (c1 << 8) | c2) < 0x100_0000
    ensures (((c0 << 16) | (c1 << 8) | c2) >> 16) & 0xff == c0
    ensures (((c0 << 16) | (c1 << 8) | c2) >> 8) & 0xff == c1
    ensures ((c0 << 16) | (c1 << 8) | c2) & 0xff == c2
  {}

  lemma PlacesOfTriplet(t: bv32)
    requires t < 0x100_0000
    ensures (((t >> 18) & 0x3f) << 18) | (((t >> 12) & 0x3f) << 12) | (((t >> 6) & 0x3f) << 6) | (t & 0x3f) == t
  {}

  /** The places that padding stands for are 0. */
  lemma PaddingIsZero(c0: bv32, c1: bv32, c2: bv32)
    requires c0 < 256 && c1 < 256 && c2 < 256
    ensures c2 == 0 ==> ((c0 << 16) | (c1 << 8) | c2) & 0x3f == 0
    ensures c1 == 0 && c2 == 0 ==> (((c0 << 16) | (c1 << 8) | c2) >> 6) & 0x3f == 0
  {}

  // ---------------------------------------------------------------- encoding

  predicate Latin1(s: Text) { forall i | 0 <= i < |s| :: s[i] <= 0xff }

  /** The code at this place, 0 past the end. */
  function Code(s: Text, i: nat): (c: bv32)
    ensures Latin1(s) ==> c < 256
  {
    if i < |s| then s[i] as bv32 else 0
  }

  function Triplet(s: Text): bv32 { Packed3(Code(s, 0), Code(s, 1), Code(s, 2)) }

  function Packed3(c0: bv32, c1: bv32, c2: bv32): bv32 { (c0 << 16) | (c1 << 8) | c2 }

  /** Six bits of a triplet, from the top. */
  function Part(t: bv32, i: nat): (x: bv32)
    requires i < 4
    ensures x < 64
  {
    if i == 0 then (t >> 18) & 0x3f else if i == 1 then (t >> 12) & 0x3f else if i == 2 then (t >> 6) & 0x3f else t & 0x3f
  }

  /** The four characters of a triplet that was packed from n codes. */
  function Symbols(t: bv32, n: nat): (g: Text)
    ensures |g| == 4
  {
    [Symbol(Part(t, 0)), Symbol(Part(t, 1)),
     if n < 2 then PAD else Symbol(Part(t, 2)), if n < 3 then PAD else Symbol(Part(t, 3))]
  }

  /** The alphabet is that of table 1 of RFC 4648. */
  lemma SymbolExactly(x: bv32)
    requires x < 64
    ensures Symbol(x) == if x < 26 then 'A' as CodeUnit + x as bv16
                         else if x < 52 then 'a' as CodeUnit + (x - 26) as bv16
                         else if x < 62 then '0' as CodeUnit + (x - 52) as bv16
                         else if x == 62 then '+' as CodeUnit else '/' as CodeUnit
  {}

  /** The eight bits of each code, the highest first, six at a time. */
  lemma PartsExactly(c0: bv32, c1: bv32, c2: bv32)
    requires c0 < 256 && c1 < 256 && c2 < 256
    ensures Part(Packed3(c0, c1, c2), 0) == c0 >> 2
    ensures Part(Packed3(c0, c1, c2), 1) == ((c0 & 3) << 4) | (c1 >> 4)
    ensures Part(Packed3(c0, c1, c2), 2) == ((c1 & 15) << 2) | (c2 >> 6)
    ensures Part(Packed3(c0, c1, c2), 3) == c2 & 63
  {}

  /** The four characters for the first one to three codes. */
  function Group(s: Text): (g: Text)
    ensures |g| == 4
  {
    Symbols(Triplet(s), |s|)
  }

  /** What follows the first group. */
  function Rest(s: Text, n: nat): Text { if |s| <= n then [] else s[n..] }

  function Btoa(s: Text): Text
    decreases |s|
  {
    if s == [] then [] else Group(s) + Btoa(Rest(s, 3))
  }

  lemma {:induction false} OutputLength(s: Text)
    ensures |Btoa(s)| == 4 * ((|s| + 2) / 3)
    decreases |s|
  {
    if s != [] { OutputLength(Rest(s, 3)); }
  }

  // ---------------------------------------------------------------- decoding

  /** The characters of the alphabet; everything else is dropped. */
  function Kept(s: Text): Text
    decreases |s|
  {
    if s == [] then [] else (if InAlphabet(s[0]) then [s[0]] else []) + Kept(s[1..])
  }

  /** The place of this character, 0 past the end. */
  function Place(str: Text, i: nat): bv32
  {
    if i < |str| && InAlphabet(str[i]) then Lookup(str[i]).value else 0
  }

  function Quad(str: Text): bv32 { Packed4(Place(str, 0), Place(str, 1), Place(str, 2), Place(str, 3)) }

  function Packed4(e0: bv32, e1: bv32, e2: bv32, e3: bv32): bv32 { (e0 << 18) | (e1 << 12) | (e2 << 6) | e3 }

  function Octet(t: bv32): CodeUnit { (t & 0xff) as bv16 }

  /** The codes that the first one to four characters stand for; a lone character still gives one. */
  function Unit(str: Text): Text
  {
    Octets(Quad(str), |str|)
  }

  /** The codes of a triplet that was packed from n characters. */
  function Octets(t: bv32, n: nat): Text
  {
    [Octet(t >> 16)] + (if n > 2 then [Octet(t >> 8)] else []) + (if n > 3 then [Octet(t)] else [])
  }

  function Decoded(str: Text): Text
    decreases |str|
  {
    if str == [] then [] else Unit(str) + Decoded(Rest(str, 4))
  }

  function Atob(s: Text): Text { Decoded(Kept(s)) }

  // ---------------------------------------------------------------- round trip

  lemma {:induction false} KeptAdds(a: Text, b: Text)
    ensures Kept(a + b) == Kept(a) + Kept(b)
    decreases |a|
  {
    if a == [] {
      assert a + b == b;
    } else {
      KeptAdds(a[1..], b);
      assert (a + b)[1..] == a[1..] + b;
    }
  }

  lemma {:induction false} KeptAll(s: Text)
    requires forall i | 0 <= i < |s| :: InAlphabet(s[i])
    ensures Kept(s) == s
    decreases |s|
  {
    if s != [] { KeptAll(s[1..]); }
  }

  lemma {:induction false} KeptNone(s: Text)
    requires forall i | 0 <= i < |s| :: !InAlphabet(s[i])
    ensures Kept(s) == []
    decreases |s|
  {
    if s != [] { KeptNone(s[1..]); }
  }

  /** How many characters of a group are not padding. */
  function Width(s: Text): nat { if |s| >= 3 then 4 else |s| + 1 }

  /** A group keeps two, three or four characters. */
  lemma GroupKept(s: Text)
    requires s != []
    ensures Kept(Group(s)) == Group(s)[..Width(s)]
  {
    var g := Group(s);
    KeptAll(g[..Width(s)]);
    KeptNone(g[Width(s)..]);
    KeptAdds(g[..Width(s)], g[Width(s)..]);
    assert g[..Width(s)] + g[Width(s)..] == g;
  }

  lemma PlaceOfSymbol(g: Text, i: nat, x: bv32)
    requires i < |g| && x < 64 && g[i] == Symbol(x)
    ensures Place(g, i) == x
  {}

  /** The places that padding stands for are 0 in the triplet. */
  lemma PaddedParts(s: Text)
    requires Latin1(s)
    ensures |s| < 3 ==> Part(Triplet(s), 3) == 0
    ensures |s| < 2 ==> Part(Triplet(s), 2) == 0
  {
    PaddingIsZero(Code(s, 0), Code(s, 1), Code(s, 2));
  }

  /** The places of a group are the four parts of its triplet: those of the padding too. */
  lemma PlacesOfGroup(s: Text)
    requires Latin1(s) && s != []
    ensures forall i | 0 <= i < 4 :: Place(Group(s)[..Width(s)], i) == Part(Triplet(s), i)
  {
    var t, g := Triplet(s), Group(s)[..Width(s)];
    PaddedParts(s);
    PlaceOfSymbol(g, 0, Part(t, 0));
    PlaceOfSymbol(g, 1, Part(t, 1));
    if |s| > 1 { PlaceOfSymbol(g, 2, Part(t, 2)); }
    if |s| > 2 { PlaceOfSymbol(g, 3, Part(t, 3)); }
  }

  lemma PackedParts(t: bv32)
    requires t < 0x100_0000
    ensures Packed4(Part(t, 0), Part(t, 1), Part(t, 2), Part(t, 3)) == t
  {
    PlacesOfTriplet(t);
  }

  lemma QuadOfGroup(s: Text)
    requires Latin1(s) && s != []
    ensures Quad(Group(s)[..Width(s)]) == Triplet(s)
  {
    CodesOfTriplet(Code(s, 0), Code(s, 1), Code(s, 2));
    PlacesOfGroup(s);
    PackedParts(Triplet(s));
  }

  lemma OctetsOfTriplet(s: Text)
    requires Latin1(s)
    ensures Triplet(s) < 0x100_0000
    ensures |s| > 0 ==> Octet(Triplet(s) >> 16) == s[0]
    ensures |s| > 1 ==> Octet(Triplet(s) >> 8) == s[1]
    ensures |s| > 2 ==> Octet(Triplet(s)) == s[2]
  {
    CodesOfTriplet(Code(s, 0), Code(s, 1), Code(s, 2));
  }

  lemma UnitOfGroup(s: Text)
    requires Latin1(s) && s != []
    ensures Unit(Group(s)[..Width(s)]) == s[..if |s| >= 3 then 3 else |s|]
  {
    OctetsOfTriplet(s);
    QuadOfGroup(s);
  }

  lemma UnitIsLocal(str: Text)
    requires |str| >= 4
    ensures Unit(str) == Unit(str[..4])
  {}

  lemma DecodedAdds(g: Text, more: Text)
    requires |g| == 4
    ensures Decoded(g + more) == Unit(g) + Decoded(more)
  {
    UnitIsLocal(g + more);
    assert (g + more)[..4] == g && Rest(g + more, 4) == more;
  }

  lemma DecodedAlone(g: Text)
    requires 0 < |g| <= 4
    ensures Decoded(g) == Unit(g)
  {
    assert Decoded([]) == [];
  }

  lemma KeptOfEncoded(s: Text)
    requires s != []
    ensures Kept(Btoa(s)) == Group(s)[..Width(s)] + Kept(Btoa(Rest(s, 3)))
  {
    GroupKept(s);
    KeptAdds(Group(s), Btoa(Rest(s, 3)));
  }

  lemma ShortRoundTrip(s: Text)
    requires Latin1(s) && 0 < |s| <= 3
    ensures Atob(Btoa(s)) == s
  {
    var g := Group(s)[..Width(s)];
    KeptOfEncoded(s);
    UnitOfGroup(s);
    assert Kept(Btoa(Rest(s, 3))) == [] && g + [] == g;
    DecodedAlone(g);
  }

  lemma LongRoundTrip(s: Text)
    requires Latin1(s) && |s| > 3 && Atob(Btoa(s[3..])) == s[3..]
    ensures Atob(Btoa(s)) == s
  {
    KeptOfEncoded(s);
    UnitOfGroup(s);
    DecodedAdds(Group(s)[..Width(s)], Kept(Btoa(s[3..])));
    assert s == s[..3] + s[3..];
  }

  /** Decoding what was encoded gives the string back, for every string of codes 0 to 255. */
  lemma {:induction false} RoundTrip(s: Text)
    requires Latin1(s)
    ensures Atob(Btoa(s)) == s
    decreases |s|
  {
    if 0 < |s| <= 3 {
      ShortRoundTrip(s);
    } else if |s| > 3 {
      RoundTrip(s[3..]);
      LongRoundTrip(s);
    }
  }

  // ---------------------------------------------------------------- the loops

  lemma CodesFrom(s: Text, i: nat)
    requires i < |s|
    ensures Code(s[i..], 0) == Code(s, i) && Code(s[i..], 1) == Code(s, i + 1) && Code(s[i..], 2) == Code(s, i + 2)
  {}

  /** The body of polyBtoa's loop, past its check. */
  method EncodeGroup(input: Text, i: nat) returns (four: Text)
    requires i < |input|
    ensures four == Group(input[i..])
  {
    CodesFrom(input, i);
    var c0 := input[i] as bv32;
    var c1 := if i + 1 < |input| then input[i + 1] as bv32 else 0;
    var c2 := if i + 2 < |input| then input[i + 2] as bv32 else 0;
    four := Symbols(Packed3(c0, c1, c2), |input| - i);
  }

  lemma BtoaFrom(s: Text, i: nat)
    requires i < |s|
    ensures Btoa(Rest(s, i)) == Group(s[i..]) + Btoa(Rest(s, i + 3))
  {
    assert Rest(Rest(s, i), 3) == Rest(s, i + 3);
  }

  /** `output +=` the four characters: what is still to be encoded gets shorter by a group. */
  method AddGroup(output: Text, input: Text, i: nat) returns (longer: Text)
    requires i < |input|
    ensures longer + Btoa(Rest(input, i + 3)) == output + Btoa(Rest(input, i))
  {
    var four := EncodeGroup(input, i);
    BtoaFrom(input, i);
    longer := output + four;
    Associates(output, four, Btoa(Rest(input, i + 3)));
  }

  /** The check of polyBtoa's loop: does the group at i hold a code above 0xff? */
  predicate WideGroup(input: Text, i: nat)
  {
    || (i < |input| && input[i] > 0xff)
    || (i + 1 < |input| && input[i + 1] > 0xff)
    || (i + 2 < |input| && input[i + 2] > 0xff)
  }

  /** The codes before i are at most 0xff. */
  predicate Latin1Before(input: Text, i: nat) { forall j | 0 <= j < i && j < |input| :: input[j] <= 0xff }

  lemma NarrowGroup(input: Text, i: nat)
    requires i < |input| && Latin1Before(input, i)
    ensures WideGroup(input, i) ==> !Latin1(input)
    ensures !WideGroup(input, i) ==> Latin1Before(input, i + 3)
  {}

  lemma NarrowThroughout(input: Text, i: nat)
    requires i >= |input| && Latin1Before(input, i)
    ensures Latin1(input)
  {}

  /** polyBtoa; a code above 0xff throws. */
  method PolyBtoa(input: Text) returns (r: Result)
    ensures r == if Latin1(input) then Ok(Btoa(input)) else Threw
  {
    var output: Text := [];
    var i: nat := 0;
    assert Rest(input, 0) == input;
    while i < |input|
      invariant Latin1Before(input, i)
      invariant output + Btoa(Rest(input, i)) == Btoa(input)
    {
      NarrowGroup(input, i);
      if WideGroup(input, i) {
        return Threw;
      }
      output := AddGroup(output, input, i);
      i := i + 3;
    }
    NarrowThroughout(input, i);
    return Ok(output);
  }

  lemma PlacesFrom(s: Text, i: nat)
    requires i < |s|
    ensures forall k | 0 <= k < 4 :: Place(s[i..], k) == Place(s, i + k)
  {}

  /** `table` is LOOKUP. */
  ghost predicate IsLookup(table: map<Text, bv32>)
  {
    forall ch :: Lookup(ch) == if [ch] in table then Some(table[[ch]]) else None
  }

  /** LOOKUP[str[i]] with 0 for undefined; past the end there is no character to look up. */
  method PlaceAt(str: Text, i: nat, table: map<Text, bv32>) returns (e: bv32)
    requires IsLookup(table)
    ensures e == Place(str, i)
  {
    e := if i < |str| && [str[i]] in table then table[[str[i]]] else 0;
    assert i < |str| ==> Lookup(str[i]) == if [str[i]] in table then Some(table[[str[i]]]) else None;
  }

  /** The body of polyAtob's loop. */
  method DecodeGroup(str: Text, i: nat, table: map<Text, bv32>) returns (out: Text)
    requires i < |str| && IsLookup(table)
    ensures out == Unit(str[i..])
  {
    PlacesFrom(str, i);
    var e0 := PlaceAt(str, i, table);
    var e1 := PlaceAt(str, i + 1, table);
    var e2 := PlaceAt(str, i + 2, table);
    var e3 := PlaceAt(str, i + 3, table);
    out := Octets(Packed4(e0, e1, e2, e3), |str| - i);
  }

  lemma DecodedFrom(s: Text, i: nat)
    requires i < |s|
    ensures Decoded(Rest(s, i)) == Unit(s[i..]) + Decoded(Rest(s, i + 4))
  {
    assert Rest(Rest(s, i), 4) == Rest(s, i + 4);
  }

  /** `output +=` the characters of one group of four. */
  method AddUnit(output: Text, str: Text, i: nat, table: map<Text, bv32>) returns (longer: Text)
    requires i < |str| && IsLookup(table)
    ensures longer + Decoded(Rest(str, i + 4)) == output + Decoded(Rest(str, i))
  {
    var codes := DecodeGroup(str, i, table);
    DecodedFrom(str, i);
    longer := output + codes;
    Associates(output, codes, Decoded(Rest(str, i + 4)));
  }

  method PolyAtob(input: Text, table: map<Text, bv32>) returns (output: Text)
    requires IsLookup(table)
    ensures output == Atob(input)
  {
    var str := Kept(input);
    output := [];
    var i: nat := 0;
    assert Rest(str, 0) == str;
    while i < |str|
      invariant output + Decoded(Rest(str, i)) == Decoded(str)
    {
      output := AddUnit(output, str, i, table);
      i := i + 4;
    }
  }

  // ---------------------------------------------------------------- bytes

  function FromByte(b: bv8): CodeUnit { b as bv16 }

  /** A byte array element keeps the low eight bits of what is assigned to it. */
  function ToByte(u: CodeUnit): bv8 { (u & 0xff) as bv8 }

  function Binary(bytes: seq<bv8>): (s: Text)
    ensures Latin1(s) && |s| == |bytes|
  {
    seq(|bytes|, i requires 0 <= i < |bytes| => FromByte(bytes[i]))
  }

  function Bytes(s: Text): seq<bv8> { seq(|s|, i requires 0 <= i < |s| => ToByte(s[i])) }

  method Uint8ToBase64(bytes: seq<bv8>) returns (b64: Text)
    ensures b64 == Btoa(Binary(bytes))
  {
    var binary: Text := [];
    for i := 0 to |bytes|
      invariant binary == Binary(bytes[..i])
    {
      binary := binary + [FromByte(bytes[i])];
    }
    assert bytes[..|bytes|] == bytes;
    var r := PolyBtoa(binary);
    b64 := r.output;
  }

  method Base64ToUint8(b64: Text) returns (bytes: array<bv8>)
    ensures bytes[..] == Bytes(Atob(b64))
  {
    var table := BuildLookup();
    var binary := PolyAtob(b64, table);
    bytes := new bv8[|binary|];
    for i := 0 to |binary|
      invariant forall j | 0 <= j < i :: bytes[j] == ToByte(binary[j])
    {
      bytes[i] := ToByte(binary[i]);
    }
  }

  /** Every document stored is read back byte for byte. */
  lemma BytesRoundTrip(bytes: seq<bv8>)
    ensures Bytes(Atob(Btoa(Binary(bytes)))) == bytes
  {
    RoundTrip(Binary(bytes));
    forall i | 0 <= i < |bytes| ensures ToByte(FromByte(bytes[i])) == bytes[i] {}
  }
}
