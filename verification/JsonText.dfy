/** JSON texts as RFC 8259 defines them: a decoder, and the encoder whose output is put into the page.

    Strings decode to UTF-16 code units, as a script sees them; numbers are kept as written. */
module JsonText {
  import opened Common

  datatype Json<S> =
    | JNull
    | JBool(truth: bool)
    | JNumber(lexeme: string)
    | JString(text: S)
    | JArray(elems: seq<Json<S>>)
    | JObject(members: seq<Member<S>>)

  datatype Member<S> = Member(name: S, value: Json<S>)

  type Units = seq<int>

  datatype Parsed<T> = Fail | Got(value: T, rest: string)

  // ---- Characters ----

  /** ws (section 2). */
  predicate IsWs(c: char) {
    c == ' ' || c == '\t' || c == '\n' || c == '\r'
  }

  predicate IsHex(c: char) {
    IsDigit(c) || 'a' <= c <= 'f' || 'A' <= c <= 'F'
  }

  function HexValue(c: char): int
    requires IsHex(c)
  {
    if IsDigit(c) then c as int - '0' as int
    else if 'a' <= c <= 'f' then c as int - 'a' as int + 10
    else c as int - 'A' as int + 10
  }

  /** The code units of a character. */
  function UnitsOf(c: char): Units {
    var p := c as int;
    if p < 0x10000 then [p] else [0xD800 + (p - 0x10000) / 0x400, 0xDC00 + (p - 0x10000) % 0x400]
  }

  function Decoded(s: string): Units {
    if s == "" then [] else UnitsOf(s[0]) + Decoded(s[1..])
  }

  // ---- Decoding ----

  function SkipWs(s: string): (r: string)
    ensures |r| <= |s|
  {
    if s != "" && IsWs(s[0]) then SkipWs(s[1..]) else s
  }

  /** Two-character escapes (section 7). */
  function ShortEscape(c: char): (u: int) {
    if c == '"' then 0x22
    else if c == '\\' then 0x5C
    else if c == '/' then 0x2F
    else if c == 'b' then 0x08
    else if c == 'f' then 0x0C
    else if c == 'n' then 0x0A
    else if c == 'r' then 0x0D
    else if c == 't' then 0x09
    else -1
  }

  predicate IsUnicodeEscape(s: string) {
    |s| >= 6 && s[0] == '\\' && s[1] == 'u' && IsHex(s[2]) && IsHex(s[3]) && IsHex(s[4]) && IsHex(s[5])
  }

  function UnicodeEscape(s: string): int
    requires IsUnicodeEscape(s)
  {
    HexValue(s[2]) * 0x1000 + HexValue(s[3]) * 0x100 + HexValue(s[4]) * 0x10 + HexValue(s[5])
  }

  /** One character or escape of a string: its code units and how many characters it takes; none on failure. */
  datatype Unit = NoUnit | Unit(units: Units, length: nat)

  function NextUnit(s: string): (u: Unit)
    ensures u.Unit? ==> 0 < u.length <= |s|
  {
    if s == "" || s[0] == '"' || s[0] < ' ' then NoUnit
    else if s[0] != '\\' then Unit(UnitsOf(s[0]), 1)
    else if IsUnicodeEscape(s) then Unit([UnicodeEscape(s)], 6)
    else if |s| >= 2 && ShortEscape(s[1]) != -1 then Unit([ShortEscape(s[1])], 2)
    else NoUnit
  }

  /** The rest of a string after its opening quotation mark. */
  function ParseString(s: string): (p: Parsed<Units>)
    ensures p.Got? ==> |p.rest| < |s|
  {
    if s != "" && s[0] == '"' then Got([], s[1..])
    else
      var u := NextUnit(s);
      if u.NoUnit? then Fail
      else
        match ParseString(s[u.length..])
        case Fail => Fail
        case Got(more, rest) => Got(u.units + more, rest)
  }

  function DigitsIn(s: string): (n: nat)
    ensures n <= |s|
  {
    if s != "" && IsDigit(s[0]) then 1 + DigitsIn(s[1..]) else 0
  }

  /** Length of the integer part (section 6), or 0. */
  function IntLength(s: string): (n: nat)
    ensures n <= |s|
  {
    if s == "" || !IsDigit(s[0]) then 0 else if s[0] == '0' then 1 else DigitsIn(s)
  }

  function FracLength(s: string): (n: nat)
    ensures n <= |s|
  {
    if s != "" && s[0] == '.' && DigitsIn(s[1..]) > 0 then 1 + DigitsIn(s[1..]) else 0
  }

  function SignLength(s: string): (n: nat)
    ensures n <= |s|
  {
    if s != "" && (s[0] == '+' || s[0] == '-') then 1 else 0
  }

  function ExpLength(s: string): (n: nat)
    ensures n <= |s|
  {
    if s == "" || (s[0] != 'e' && s[0] != 'E') then 0
    else
      var sign := SignLength(s[1..]);
      var digits := DigitsIn(s[1 + sign..]);
      if digits > 0 then 1 + sign + digits else 0
  }

  function MinusLength(s: string): (n: nat)
    ensures n <= |s|
  {
    if s != "" && s[0] == '-' then 1 else 0
  }

  /** Fraction and exponent. */
  function TailLength(s: string): (n: nat)
    ensures n <= |s|
  {
    FracLength(s) + ExpLength(s[FracLength(s)..])
  }

  function MagnitudeLength(s: string): (n: nat)
    ensures n <= |s|
  {
    if IntLength(s) == 0 then 0 else IntLength(s) + TailLength(s[IntLength(s)..])
  }

  /** Length of the number a text starts with, or 0. */
  function NumberLength(s: string): (n: nat)
    ensures n <= |s|
  {
    var m := MagnitudeLength(s[MinusLength(s)..]);
    if m == 0 then 0 else MinusLength(s) + m
  }

  function ParseNumber(s: string): (p: Parsed<Json<Units>>)
    ensures p.Got? ==> |p.rest| < |s|
  {
    var n := NumberLength(s);
    if n == 0 then Fail else Got(JNumber(s[..n]), s[n..])
  }

  function ParseLiteral(s: string): (p: Parsed<Json<Units>>)
    ensures p.Got? ==> |p.rest| < |s|
  {
    if "null" <= s then Got(JNull, s[4..])
    else if "true" <= s then Got(JBool(true), s[4..])
    else if "false" <= s then Got(JBool(false), s[5..])
    else Fail
  }

  function ParseValue(s: string): (p: Parsed<Json<Units>>)
    ensures p.Got? ==> |p.rest| < |s|
    decreases |s|, 0
  {
    if s == "" then Fail
    else if s[0] == '"' then
      match ParseString(s[1..])
      case Fail => Fail
      case Got(text, rest) => Got(JString(text), rest)
    else if s[0] == '[' then
      var t := SkipWs(s[1..]);
      if t != "" && t[0] == ']' then Got(JArray([]), t[1..])
      else
        match ParseElements(t)
        case Fail => Fail
        case Got(elems, rest) => Got(JArray(elems), rest)
    else if s[0] == '{' then
      var t := SkipWs(s[1..]);
      if t != "" && t[0] == '}' then Got(JObject([]), t[1..])
      else
        match ParseMembers(t)
        case Fail => Fail
        case Got(members, rest) => Got(JObject(members), rest)
    else if s[0] == '-' || IsDigit(s[0]) then ParseNumber(s)
    else ParseLiteral(s)
  }

  /** The elements of an array up to its closing bracket; there is at least one. */
  function ParseElements(s: string): (p: Parsed<seq<Json<Units>>>)
    ensures p.Got? ==> |p.rest| < |s|
    decreases |s|, 1
  {
    match ParseValue(s)
    case Fail => Fail
    case Got(v, r) =>
      var t := SkipWs(r);
      if t != "" && t[0] == ']' then Got([v], t[1..])
      else if t != "" && t[0] == ',' then
        match ParseElements(SkipWs(t[1..]))
        case Fail => Fail
        case Got(more, rest) => Got([v] + more, rest)
      else Fail
  }

  /** A member: name, colon, value. */
  function ParseMember(s: string): (p: Parsed<Member<Units>>)
    ensures p.Got? ==> |p.rest| < |s|
    decreases |s|, 1
  {
    if s == "" || s[0] != '"' then Fail
    else
      match ParseString(s[1..])
      case Fail => Fail
      case Got(name, r) =>
        var t := SkipWs(r);
        if t == "" || t[0] != ':' then Fail
        else
          match ParseValue(SkipWs(t[1..]))
          case Fail => Fail
          case Got(v, rest) => Got(Member(name, v), rest)
  }

  /** The members of an object up to its closing brace; there is at least one. */
  function ParseMembers(s: string): (p: Parsed<seq<Member<Units>>>)
    ensures p.Got? ==> |p.rest| < |s|
    decreases |s|, 2
  {
    match ParseMember(s)
    case Fail => Fail
    case Got(m, r) =>
      var t := SkipWs(r);
      if t != "" && t[0] == '}' then Got([m], t[1..])
      else if t != "" && t[0] == ',' then
        match ParseMembers(SkipWs(t[1..]))
        case Fail => Fail
        case Got(more, rest) => Got([m] + more, rest)
      else Fail
  }

  /** A whole JSON text. */
  function Parse(s: string): Parsed<Json<Units>> {
    match ParseValue(SkipWs(s))
    case Fail => Fail
    case Got(v, r) => if SkipWs(r) == "" then Got(v, "") else Fail
  }
}
