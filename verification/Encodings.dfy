/**
 The text encodings libsodium applies around the cipher: UTF-8, and base64url without padding
 (section 5 of RFC 4648).  Text is a sequence of Unicode scalar values.
 */
module Encodings {
  import opened Common

  type Byte = x: nat | x < 256

  // ---------------------------------------------------------------- lengths in UTF-16 units and UTF-8 bytes

  function UnitsOf(c: char): nat { if c as int < 0x10000 then 1 else 2 }

  /** `length` of the string: its number of UTF-16 units. */
  function Units(s: string): nat
    decreases |s|
  {
    if s == "" then 0 else Units(s[..|s| - 1]) + UnitsOf(s[|s| - 1])
  }

  function Utf8Char(c: char): (b: seq<Byte>)
    ensures 1 <= |b| <= 3 * UnitsOf(c)
  {
    var x := c as int;
    if x < 0x80 then [x]
    else if x < 0x800 then [0xc0 + x / 64, 0x80 + x % 64]
    else if x < 0x10000 then [0xe0 + x / 4096, 0x80 + x / 64 % 64, 0x80 + x % 64]
    else [0xf0 + x / 262144, 0x80 + x / 4096 % 64, 0x80 + x / 64 % 64, 0x80 + x % 64]
  }

  function Utf8(s: string): seq<Byte>
    decreases |s|
  {
    if s == "" then [] else Utf8(s[..|s| - 1]) + Utf8Char(s[|s| - 1])
  }

  /** A text of n units has at most 3 n bytes, and at least one if it is not empty. */
  lemma {:induction false} Utf8Length(s: string)
    ensures |Utf8(s)| <= 3 * Units(s) && (s != "" ==> |Utf8(s)| >= 1 && Units(s) >= 1)
    decreases |s|
  {
    if s != "" { Utf8Length(s[..|s| - 1]); }
  }

  predicate Continues(b: Byte) { 0x80 <= b < 0xc0 }

  /** The bytes of a scalar value are those of section 3 of RFC 3629: its bits, the highest first, behind their marks. */
  lemma Utf8CharExactly(c: char)
    ensures var b := Utf8Char(c);
            var x := c as int;
            && |b| == (if x < 0x80 then 1 else if x < 0x800 then 2 else if x < 0x10000 then 3 else 4)
            && (|b| == 1 ==> b[0] == x)
            && (|b| == 2 ==> Continues(b[1]) && x == (b[0] as int - 0xc0) * 64 + (b[1] as int - 0x80))
            && (|b| == 3 ==> Continues(b[1]) && Continues(b[2])
                             && x == (b[0] as int - 0xe0) * 4096 + (b[1] as int - 0x80) * 64 + (b[2] as int - 0x80))
            && (|b| == 4 ==> Continues(b[1]) && Continues(b[2]) && Continues(b[3])
                             && x == (b[0] as int - 0xf0) * 262144 + (b[1] as int - 0x80) * 4096
                                     + (b[2] as int - 0x80) * 64 + (b[3] as int - 0x80))
  {
    Base64Digits(c as int);
  }

  /** And those of a text are those of its characters, in order. */
  lemma Utf8Adds(s: string, c: char)
    ensures Utf8(s + [c]) == Utf8(s) + Utf8Char(c)
  {
    assert (s + [c])[..|s|] == s;
  }

  predicate IsScalar(x: int) { 0 <= x < 0xd800 || 0xe000 <= x < 0x110000 }

  /** The k-th byte from the end, less what its leading bits stand for. */
  function Bits(b: seq<Byte>, k: nat, lead: int): int
    requires 0 < k <= |b|
  {
    b[|b| - k] as int - lead
  }

  /** The scalar value whose last byte ends b, and how many bytes it takes. */
  function LastChar(b: seq<Byte>): Option<(char, nat)>
  {
    var n := |b|;
    if n >= 1 && b[n - 1] < 0x80 then Scalar(Bits(b, 1, 0), 1)
    else if n >= 2 && 0xc0 <= b[n - 2] < 0xe0 then Scalar(Bits(b, 2, 0xc0) * 64 + Bits(b, 1, 0x80), 2)
    else if n >= 3 && 0xe0 <= b[n - 3] < 0xf0 then
      Scalar(Bits(b, 3, 0xe0) * 4096 + Bits(b, 2, 0x80) * 64 + Bits(b, 1, 0x80), 3)
    else if n >= 4 && 0xf0 <= b[n - 4] then
      Scalar(Bits(b, 4, 0xf0) * 262144 + Bits(b, 3, 0x80) * 4096 + Bits(b, 2, 0x80) * 64 + Bits(b, 1, 0x80), 4)
    else None
  }

  function Scalar(x: int, n: nat): Option<(char, nat)> { if IsScalar(x) then Some((x as char, n)) else None }

  /** Reads UTF-8 back from the end; None if it is malformed. */
  function FromUtf8(b: seq<Byte>): Option<string>
    decreases |b|
  {
    if b == [] then Some("")
    else match LastChar(b)
      case None => None
      case Some((c, n)) =>
        if n == 0 || n > |b| then None
        else match FromUtf8(b[..|b| - n])
          case None => None
          case Some(s) => Some(s + [c])
  }

  lemma DivDiv(x: nat, a: nat)
    requires a == 64 || a == 4096
    ensures x / 64 / a == x / (64 * a)
  {}

  /** A number from its digits in base 64. */
  lemma Base64Digits(x: nat)
    ensures x == x / 64 * 64 + x % 64
    ensures x == x / 4096 * 4096 + x / 64 % 64 * 64 + x % 64
    ensures x == x / 262144 * 262144 + x / 4096 % 64 * 4096 + x / 64 % 64 * 64 + x % 64
  {
    DivDiv(x, 64);
    DivDiv(x, 4096);
    DivDiv(x / 64, 64);
    assert x / 64 == x / 4096 * 64 + x / 64 % 64;
    assert x / 4096 == x / 262144 * 64 + x / 4096 % 64;
  }

  lemma LastCharRead(front: seq<Byte>, c: char)
    ensures LastChar(front + Utf8Char(c)) == Some((c, |Utf8Char(c)|))
  {
    var b := front + Utf8Char(c);
    var x := c as int;
    var n := |b|;
    Base64Digits(x);
    if x < 0x80 {
      assert b[n - 1] == x;
    } else if x < 0x800 {
      assert b[n - 2] == 0xc0 + x / 64 && b[n - 1] == 0x80 + x % 64;
    } else if x >= 0x10000 {
      assert b[n - 4] == 0xf0 + x / 262144 && b[n - 3] == 0x80 + x / 4096 % 64;
      assert b[n - 2] == 0x80 + x / 64 % 64 && b[n - 1] == 0x80 + x % 64;
    } else {
      assert b[n - 3] == 0xe0 + x / 4096 && b[n - 2] == 0x80 + x / 64 % 64 && b[n - 1] == 0x80 + x % 64;
    }
  }

  lemma FromUtf8Adds(front: seq<Byte>, last: seq<Byte>, c: char)
    requires last != [] && LastChar(front + last) == Some((c, |last|)) && FromUtf8(front).Some?
    ensures FromUtf8(front + last) == Some(FromUtf8(front).value + [c])
  {
    assert (front + last)[..|front + last| - |last|] == front;
  }

  lemma ReadsBackStep(front: string, c: char)
    requires FromUtf8(Utf8(front)) == Some(front)
    ensures FromUtf8(Utf8(front + [c])) == Some(front + [c])
  {
    assert (front + [c])[..|front|] == front;
    assert Utf8(front + [c]) == Utf8(front) + Utf8Char(c);
    LastCharRead(Utf8(front), c);
    FromUtf8Adds(Utf8(front), Utf8Char(c), c);
  }

  /** Every text comes back from UTF-8. */
  lemma {:induction false} Utf8RoundTrip(s: string)
    ensures FromUtf8(Utf8(s)) == Some(s)
    decreases |s|
  {
    if s != "" {
      var front := s[..|s| - 1];
      assert s == front + [s[|s| - 1]];
      Utf8RoundTrip(front);
      ReadsBackStep(front, s[|s| - 1]);
    }
  }

  // ---------------------------------------------------------------- base64url without padding

  type Index = x: nat | x < 64

  function UrlSymbol(x: Index): char
  {
    if x < 26 then (x + 'A' as int) as char
    else if x < 52 then (x - 26 + 'a' as int) as char
    else if x < 62 then (x - 52 + '0' as int) as char
    else if x == 62 then '-' else '_'
  }

  function UrlPlace(c: char): (r: Option<Index>)
  {
    if 'A' <= c <= 'Z' then Some(c as int - 'A' as int)
    else if 'a' <= c <= 'z' then Some(c as int - 'a' as int + 26)
    else if '0' <= c <= '9' then Some(c as int - '0' as int + 52)
    else if c == '-' then Some(62) else if c == '_' then Some(63) else None
  }

  /** Two, three or four characters for one, two or three bytes. */
  function UrlGroup(b: seq<Byte>): (s: string)
    requires 0 < |b| <= 3
    ensures |s| == |b| + 1
  {
    var b0 := b[0] as int;
    var b1 := if |b| > 1 then b[1] as int else 0;
    var b2 := if |b| > 2 then b[2] as int else 0;
    [UrlSymbol(b0 / 4), UrlSymbol(b0 % 4 * 16 + b1 / 16)]
    + (if |b| > 1 then [UrlSymbol(b1 % 16 * 4 + b2 / 64)] else [])
    + (if |b| > 2 then [UrlSymbol(b2 % 64)] else [])
  }

  function ToUrl(b: seq<Byte>): string
    decreases |b|
  {
    if b == [] then "" else if |b| <= 3 then UrlGroup(b) else UrlGroup(b[..3]) + ToUrl(b[3..])
  }

  /** None for a lone character, a character outside the alphabet, or stray bits in the last one. */
  function FromUrlGroup(s: string): (r: Option<seq<Byte>>)
    requires 0 < |s| <= 4
  {
    if |s| == 1 || UrlPlace(s[0]).None? || UrlPlace(s[1]).None?
       || (|s| > 2 && UrlPlace(s[2]).None?) || (|s| > 3 && UrlPlace(s[3]).None?) then None
    else
      var e0, e1: nat := UrlPlace(s[0]).value, UrlPlace(s[1]).value;
      var e2: nat := if |s| > 2 then UrlPlace(s[2]).value else 0;
      var e3: nat := if |s| > 3 then UrlPlace(s[3]).value else 0;
      if (|s| == 2 && e1 % 16 != 0) || (|s| == 3 && e2 % 4 != 0) then None
      else
        Some([e0 * 4 + e1 / 16] + (if |s| > 2 then [e1 % 16 * 16 + e2 / 4] else [])
             + (if |s| > 3 then [e2 % 4 * 64 + e3] else []))
  }

  function FromUrl(s: string): Option<seq<Byte>>
    decreases |s|
  {
    if s == "" then Some([])
    else if |s| <= 4 then FromUrlGroup(s)
    else match (FromUrlGroup(s[..4]), FromUrl(s[4..]))
      case (Some(a), Some(b)) => Some(a + b)
      case _ => None
  }

  predicate IsUrlChar(c: char) { 'A' <= c <= 'Z' || 'a' <= c <= 'z' || '0' <= c <= '9' || c == '_' || c == '-' }

  lemma SymbolFound(x: Index)
    ensures UrlPlace(UrlSymbol(x)) == Some(x) && IsUrlChar(UrlSymbol(x))
  {}

  lemma GroupInAlphabet(b: seq<Byte>)
    requires 0 < |b| <= 3
    ensures forall c | c in UrlGroup(b) :: IsUrlChar(c)
  {}

  lemma Parts(b0: Byte, b1: Byte, b2: Byte)
    ensures var e1, e2 := b0 % 4 * 16 + b1 / 16, b1 % 16 * 4 + b2 / 64;
            && e1 < 64 && e2 < 64 && b0 / 4 * 4 + e1 / 16 == b0 && e1 % 16 * 16 + e2 / 4 == b1
            && e2 % 4 * 64 + b2 % 64 == b2 && (b1 == 0 ==> e1 % 16 == 0) && (b2 == 0 ==> e2 % 4 == 0)
  {}

  /** The characters of a group stand for the parts of its bytes. */
  lemma GroupPlaces(b: seq<Byte>)
    requires 0 < |b| <= 3
    ensures var s := UrlGroup(b);
            var b0 := b[0] as int;
            var b1 := if |b| > 1 then b[1] as int else 0;
            var b2 := if |b| > 2 then b[2] as int else 0;
            && UrlPlace(s[0]) == Some(b0 / 4) && UrlPlace(s[1]) == Some(b0 % 4 * 16 + b1 / 16)
            && (|b| > 1 ==> UrlPlace(s[2]) == Some(b1 % 16 * 4 + b2 / 64))
            && (|b| > 2 ==> UrlPlace(s[3]) == Some(b2 % 64))
  {
    var b0 := b[0] as int;
    var b1 := if |b| > 1 then b[1] as int else 0;
    var b2 := if |b| > 2 then b[2] as int else 0;
    SymbolFound(b0 / 4);
    SymbolFound(b0 % 4 * 16 + b1 / 16);
    SymbolFound(b1 % 16 * 4 + b2 / 64);
    SymbolFound(b2 % 64);
  }

  lemma GroupRoundTrip(b: seq<Byte>)
    requires 0 < |b| <= 3
    ensures FromUrlGroup(UrlGroup(b)) == Some(b)
  {
    GroupPlaces(b);
    Parts(b[0], if |b| > 1 then b[1] else 0, if |b| > 2 then b[2] else 0);
    var r := FromUrlGroup(UrlGroup(b));
    assert r.Some? && |r.value| == |b|;
    assert forall i | 0 <= i < |b| :: r.value[i] == b[i];
    assert r.value == b;
  }

  /** The alphabet is that of table 2 of RFC 4648. */
  lemma UrlSymbolExactly(x: Index)
    ensures UrlSymbol(x) == if x < 26 then "ABCDEFGHIJKLMNOPQRSTUVWXYZ"[x]
                            else if x < 52 then "abcdefghijklmnopqrstuvwxyz"[x - 26]
                            else if x < 62 then "0123456789"[x - 52]
                            else if x == 62 then '-' else '_'
  {}

  function ByteAt(b: seq<Byte>, i: nat): nat { if i < |b| then b[i] else 0 }

  function PlaceAt(s: string, i: nat): nat { if i < |s| && UrlPlace(s[i]).Some? then UrlPlace(s[i]).value else 0 }

  /** A group is the number that its bytes make, the first the highest, in digits of 64, the first the highest. */
  lemma GroupIsNumber(b: seq<Byte>)
    requires 0 < |b| <= 3
    ensures var s := UrlGroup(b);
            PlaceAt(s, 0) * 262144 + PlaceAt(s, 1) * 4096 + PlaceAt(s, 2) * 64 + PlaceAt(s, 3)
            == ByteAt(b, 0) * 65536 + ByteAt(b, 1) * 256 + ByteAt(b, 2)
  {
    GroupPlaces(b);
  }

  lemma FromUrlAdds(group: string, more: string)
    requires |group| == 4 && FromUrlGroup(group).Some? && FromUrl(more).Some?
    ensures FromUrl(group + more) == Some(FromUrlGroup(group).value + FromUrl(more).value)
  {
    assert (group + more)[..4] == group && (group + more)[4..] == more;
    if more == "" { assert group + more == group && FromUrlGroup(group).value + [] == FromUrlGroup(group).value; }
  }

  lemma {:induction false} UrlReadsBack(b: seq<Byte>)
    ensures FromUrl(ToUrl(b)) == Some(b)
    decreases |b|
  {
    if 0 < |b| <= 3 {
      GroupRoundTrip(b);
    } else if |b| > 3 {
      GroupRoundTrip(b[..3]);
      UrlReadsBack(b[3..]);
      FromUrlAdds(UrlGroup(b[..3]), ToUrl(b[3..]));
      assert b == b[..3] + b[3..];
    }
  }

  /** The length, counted group by group. */
  function UrlChars(n: nat): nat { if n == 0 then 0 else if n <= 3 then n + 1 else 4 + UrlChars(n - 3) }

  lemma {:induction false} UrlCounts(b: seq<Byte>)
    ensures |ToUrl(b)| == UrlChars(|b|)
    decreases |b|
  {
    if |b| > 3 { UrlCounts(b[3..]); }
  }

  lemma {:induction false} UrlCharsIs(n: nat)
    ensures UrlChars(n) == (4 * n + 2) / 3 && UrlChars(n) % 4 != 1
  {
    if n > 3 {
      UrlCharsIs(n - 3);
      ThreeMore(n - 3);
    }
  }

  lemma UrlLength(b: seq<Byte>)
    ensures |ToUrl(b)| == (4 * |b| + 2) / 3 && |ToUrl(b)| % 4 != 1
  {
    UrlCounts(b);
    UrlCharsIs(|b|);
  }

  lemma ThreeMore(n: nat)
    ensures (4 * (n + 3) + 2) / 3 == 4 + (4 * n + 2) / 3
  {}

  lemma {:induction false} UrlInAlphabet(b: seq<Byte>)
    ensures forall c | c in ToUrl(b) :: IsUrlChar(c)
    decreases |b|
  {
    if 0 < |b| <= 3 {
      GroupInAlphabet(b);
    } else if |b| > 3 {
      GroupInAlphabet(b[..3]);
      UrlInAlphabet(b[3..]);
    }
  }

  /** n bytes take ceil(4 n / 3) characters of the alphabet, never 1 more than a multiple of 4, and read back. */
  lemma UrlRoundTrip(b: seq<Byte>)
    ensures FromUrl(ToUrl(b)) == Some(b)
    ensures |ToUrl(b)| == (4 * |b| + 2) / 3 && |ToUrl(b)| % 4 != 1
    ensures forall c | c in ToUrl(b) :: IsUrlChar(c)
  {
    UrlReadsBack(b);
    UrlLength(b);
    UrlInAlphabet(b);
  }
}
