/**
 The JSON text format that envelopes are written in (ECMA-404): a recursive-descent reader that
 accepts any JSON text, and a writer for strings and natural numbers.

 Numbers are exact reals.  Text is a sequence of Unicode scalar values; an escape that names a lone
 surrogate reads as U+FFFD, a character that occurs neither in an envelope's keys nor in base64url.
 */
module JsonText {

  datatype Json =
    | Null
    | Bool(b: bool)
    | Num(n: real)
    | Str(s: string)
    | Arr(elems: seq<Json>)
    | Obj(fields: map<string, Json>)

  /** What a reader found at the front of its input, and the text left after it. */
  datatype Read<T> = Fail | Got(value: T, rest: string)

  datatype Parsed = Malformed | Text(json: Json)

  // ---------------------------------------------------------------- reading

  predicate IsSpace(c: char) { c == ' ' || c == '\t' || c == '\n' || c == '\r' }

  predicate IsDigit(c: char) { '0' <= c <= '9' }

  function SkipSpace(s: string): (r: string)
    ensures |r| <= |s|
  {
    if s != [] && IsSpace(s[0]) then SkipSpace(s[1..]) else s
  }

  /** The longest run of digits in front of s. */
  function Digits(s: string): (n: nat)
    ensures n <= |s|
  {
    if s != [] && IsDigit(s[0]) then 1 + Digits(s[1..]) else 0
  }

  function DigitValue(c: char): nat
    requires IsDigit(c)
  {
    c as int - '0' as int
  }

  function Decimal(ds: string): nat
  {
    if ds == [] then 0
    else 10 * Decimal(ds[..|ds| - 1]) + (if IsDigit(ds[|ds| - 1]) then DigitValue(ds[|ds| - 1]) else 0)
  }

  function PowerOfTen(e: nat): (r: real)
    ensures r > 0.0
  {
    if e == 0 then 1.0 else 10.0 * PowerOfTen(e - 1)
  }

  function ReadNumber(s: string): (r: Read<Json>)
    ensures r.Got? ==> |r.rest| < |s|
  {
    var negative := s != [] && s[0] == '-';
    var t := if negative then s[1..] else s;
    var n := Digits(t);
    if n == 0 || (n > 1 && t[0] == '0') then Fail
    else
      var whole := Decimal(t[..n]) as real;
      match ReadFraction(t[n..])
      case Fail => Fail
      case Got(fraction, afterFraction) =>
        match ReadExponent(afterFraction)
        case Fail => Fail
        case Got(scale, rest) =>
          var magnitude := (whole + fraction) * scale;
          Got(Num(if negative then -magnitude else magnitude), rest)
  }

  function ReadFraction(s: string): (r: Read<real>)
    ensures r.Got? ==> |r.rest| <= |s|
  {
    if s == [] || s[0] != '.' then Got(0.0, s)
    else
      var n := Digits(s[1..]);
      if n == 0 then Fail
      else Got(Decimal(s[1..][..n]) as real / PowerOfTen(n), s[1..][n..])
  }

  function ReadExponent(s: string): (r: Read<real>)
    ensures r.Got? ==> |r.rest| <= |s|
  {
    if s == [] || (s[0] != 'e' && s[0] != 'E') then Got(1.0, s)
    else
      var signed := |s| > 1 && (s[1] == '+' || s[1] == '-');
      var t := if signed then s[2..] else s[1..];
      var n := Digits(t);
      if n == 0 then Fail
      else
        var power := PowerOfTen(Decimal(t[..n]));
        Got(if signed && s[1] == '-' then 1.0 / power else power, t[n..])
  }

  function HexValue(c: char): (v: int)
    ensures -1 <= v < 16
  {
    if '0' <= c <= '9' then c as int - '0' as int
    else if 'a' <= c <= 'f' then c as int - 'a' as int + 10
    else if 'A' <= c <= 'F' then c as int - 'A' as int + 10
    else -1
  }

  /** The character behind four hexadecimal digits. */
  function FromHex(a: char, b: char, c: char, d: char): char
    requires HexValue(a) >= 0 && HexValue(b) >= 0 && HexValue(c) >= 0 && HexValue(d) >= 0
  {
    var code := ((HexValue(a) * 16 + HexValue(b)) * 16 + HexValue(c)) * 16 + HexValue(d);
    if 0xD800 <= code < 0xE000 then '\U{FFFD}' else code as char
  }

  /** One character of a string body: a plain character or an escape. */
  function ReadChar(s: string): (r: Read<char>)
    ensures r.Got? ==> |r.rest| < |s|
  {
    if s == [] || s[0] == '\"' || s[0] < ' ' then Fail
    else if s[0] != '\\' then Got(s[0], s[1..])
    else if |s| < 2 then Fail
    else match s[1]
      case '\"' => Got('\"', s[2..])
      case '\\' => Got('\\', s[2..])
      case '/' => Got('/', s[2..])
      case 'b' => Got('\U{0008}', s[2..])
      case 'f' => Got('\U{000C}', s[2..])
      case 'n' => Got('\n', s[2..])
      case 'r' => Got('\r', s[2..])
      case 't' => Got('\t', s[2..])
      case 'u' =>
        if |s| >= 6 && HexValue(s[2]) >= 0 && HexValue(s[3]) >= 0 && HexValue(s[4]) >= 0 && HexValue(s[5]) >= 0
        then Got(FromHex(s[2], s[3], s[4], s[5]), s[6..])
        else Fail
      case _ => Fail
  }

  /** The rest of a string whose opening quote has been read. */
  function ReadChars(s: string): (r: Read<string>)
    ensures r.Got? ==> |r.rest| < |s|
  {
    if s != [] && s[0] == '\"' then Got("", s[1..])
    else match ReadChar(s)
      case Fail => Fail
      case Got(c, afterChar) =>
        match ReadChars(afterChar)
        case Fail => Fail
        case Got(cs, rest) => Got([c] + cs, rest)
  }

  predicate StartsWith(s: string, prefix: string)
  {
    |prefix| <= |s| && s[..|prefix|] == prefix
  }

  function ReadValue(s: string): (r: Read<Json>)
    ensures r.Got? ==> |r.rest| < |s|
    decreases |s|, 1
  {
    var t := SkipSpace(s);
    if t == [] then Fail
    else if t[0] == '{' then
      var u := SkipSpace(t[1..]);
      if u != [] && u[0] == '}' then Got(Obj(map[]), u[1..]) else ReadMembers(t[1..], map[])
    else if t[0] == '[' then
      var u := SkipSpace(t[1..]);
      if u != [] && u[0] == ']' then Got(Arr([]), u[1..]) else ReadElements(t[1..], [])
    else if t[0] == '\"' then
      match ReadChars(t[1..])
      case Fail => Fail
      case Got(cs, rest) => Got(Str(cs), rest)
    else if StartsWith(t, "true") then Got(Bool(true), t[4..])
    else if StartsWith(t, "false") then Got(Bool(false), t[5..])
    else if StartsWith(t, "null") then Got(Null, t[4..])
    else ReadNumber(t)
  }

  /** The members of an object from the next key on; a repeated key keeps its last value. */
  function ReadMembers(s: string, fields: map<string, Json>): (r: Read<Json>)
    ensures r.Got? ==> |r.rest| < |s|
    decreases |s|, 0
  {
    var t := SkipSpace(s);
    if t == [] || t[0] != '\"' then Fail
    else match ReadChars(t[1..])
      case Fail => Fail
      case Got(key, afterKey) =>
        var u := SkipSpace(afterKey);
        if u == [] || u[0] != ':' then Fail
        else match ReadValue(u[1..])
          case Fail => Fail
          case Got(v, afterValue) =>
            var w := SkipSpace(afterValue);
            if w == [] then Fail
            else if w[0] == '}' then Got(Obj(fields[key := v]), w[1..])
            else if w[0] == ',' then ReadMembers(w[1..], fields[key := v])
            else Fail
  }

  function ReadElements(s: string, elems: seq<Json>): (r: Read<Json>)
    ensures r.Got? ==> |r.rest| < |s|
    decreases |s|, 2
  {
    match ReadValue(s)
    case Fail => Fail
    case Got(v, afterValue) =>
      var w := SkipSpace(afterValue);
      if w == [] then Fail
      else if w[0] == ']' then Got(Arr(elems + [v]), w[1..])
      else if w[0] == ',' then ReadElements(w[1..], elems + [v])
      else Fail
  }

  /** The whole text as one JSON value. */
  function Parse(text: string): Parsed
  {
    match ReadValue(text)
    case Fail => Malformed
    case Got(v, rest) => if SkipSpace(rest) == [] then Text(v) else Malformed
  }

  // ---------------------------------------------------------------- writing

  function HexDigit(v: nat): char
    requires v < 16
  {
    if v < 10 then (v + '0' as int) as char else (v - 10 + 'a' as int) as char
  }

  /** One character as it is written inside a JSON string. */
  function WriteChar(c: char): string
  {
    if c == '\"' then "\\\""
    else if c == '\\' then "\\\\"
    else if c == '\U{0008}' then "\\b"
    else if c == '\U{000C}' then "\\f"
    else if c == '\n' then "\\n"
    else if c == '\r' then "\\r"
    else if c == '\t' then "\\t"
    else if c < ' ' then "\\u00" + [HexDigit(c as int / 16), HexDigit(c as int % 16)]
    else [c]
  }

  function WriteChars(s: string): string
  {
    if s == [] then "\"" else WriteChar(s[0]) + WriteChars(s[1..])
  }

  function WriteString(s: string): string { "\"" + WriteChars(s) }

  function WriteNat(n: nat): (ds: string)
    ensures ds != []
  {
    var last := [((n % 10) + '0' as int) as char];
    if n < 10 then last else WriteNat(n / 10) + last
  }

  // ---------------------------------------------------------------- reading back what was written

  lemma ReadCharWritten(c: char, rest: string)
    ensures ReadChar(WriteChar(c) + rest) == Got(c, rest)
  {
    var w := WriteChar(c);
    assert (w + rest)[|w|..] == rest;
    if c < ' ' && |w| == 6 {
      assert HexValue(w[4]) == c as int / 16 && HexValue(w[5]) == c as int % 16;
      assert FromHex(w[2], w[3], w[4], w[5]) == c;
    }
  }

  lemma {:induction false} ReadCharsWritten(s: string, rest: string)
    ensures ReadChars(WriteChars(s) + rest) == Got(s, rest)
  {
    if s == [] {
      assert ("\"" + rest)[1..] == rest;
    } else {
      var tail := WriteChars(s[1..]) + rest;
      assert WriteChars(s) + rest == WriteChar(s[0]) + tail;
      ReadCharWritten(s[0], tail);
      ReadCharsWritten(s[1..], rest);
      assert WriteChar(s[0])[0] != '\"';
      assert (WriteChar(s[0]) + tail)[0] == WriteChar(s[0])[0];
      assert [s[0]] + s[1..] == s;
    }
  }

  predicate AllDigits(s: string) { forall i | 0 <= i < |s| :: IsDigit(s[i]) }

  lemma {:induction false} WriteNatDigits(n: nat)
    ensures AllDigits(WriteNat(n)) && Decimal(WriteNat(n)) == n
    ensures |WriteNat(n)| > 1 ==> WriteNat(n)[0] != '0'
  {
    if n >= 10 {
      WriteNatDigits(n / 10);
      assert WriteNat(n)[..|WriteNat(n)| - 1] == WriteNat(n / 10);
      if n / 10 < 10 {
        assert WriteNat(n / 10)[0] != '0';
      }
    } else {
      assert WriteNat(n)[..0] == [];
      assert Decimal([]) == 0;
    }
  }

  lemma {:induction false} DigitsOfRun(ds: string, rest: string)
    requires AllDigits(ds) && (rest == [] || !IsDigit(rest[0]))
    ensures Digits(ds + rest) == |ds|
  {
    if ds == [] {
      assert ds + rest == rest;
    } else {
      assert (ds + rest)[1..] == ds[1..] + rest;
      DigitsOfRun(ds[1..], rest);
    }
  }

  /** A written natural number reads back as that number, up to any text that cannot continue it. */
  lemma ReadNumberWritten(n: nat, rest: string)
    requires rest == [] || rest[0] == ',' || rest[0] == '}'
    ensures ReadNumber(WriteNat(n) + rest) == Got(Num(n as real), rest)
  {
    var ds := WriteNat(n);
    WriteNatDigits(n);
    DigitsOfRun(ds, rest);
    var t := ds + rest;
    assert t[0] == ds[0];
    assert t[..|ds|] == ds && t[|ds|..] == rest;
  }
}
