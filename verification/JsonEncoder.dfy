/** json.dumps(..., ensure_ascii=False), and what the page's script reads back
    (epiproc/web/dashboard_html.py). */
module JsonEncoder {
  import opened Common
  import opened JsonText
  import ScriptSafe

  function HexDigit(n: nat): char
    requires n < 16
  {
    if n < 10 then '0' + n as char else 'a' + (n - 10) as char
  }

  /** Quotation mark, backslash and control characters are escaped; everything else stays raw. */
  function EncodeChar(c: char): string {
    if c == '"' then "\\\""
    else if c == '\\' then "\\\\"
    else if c as int == 0x0A then "\\n"
    else if c as int == 0x0D then "\\r"
    else if c as int == 0x09 then "\\t"
    else if c as int == 0x0C then "\\f"
    else if c as int == 0x08 then "\\b"
    else if c < ' ' then "\\u00" + [HexDigit(c as int / 16), HexDigit(c as int % 16)]
    else [c]
  }

  function Quoted(s: string): string {
    if s == "" then "" else EncodeChar(s[0]) + Quoted(s[1..])
  }

  function EncodeString(s: string): string {
    "\"" + Quoted(s) + "\""
  }

  function Encode(v: Json<string>): string
    decreases v, 0
  {
    match v
    case JNull => "null"
    case JBool(b) => if b then "true" else "false"
    case JNumber(lexeme) => lexeme
    case JString(s) => EncodeString(s)
    case JArray(vs) => "[" + EncodeElems(vs) + "]"
    case JObject(ms) => "{" + EncodeMembers(ms) + "}"
  }

  function EncodeElems(vs: seq<Json<string>>): string
    decreases vs, 1
  {
    if vs == [] then ""
    else Encode(vs[0]) + if |vs| == 1 then "" else ", " + EncodeElems(vs[1..])
  }

  function EncodeMember(m: Member<string>): string
    decreases m, 1
  {
    EncodeString(m.name) + ": " + Encode(m.value)
  }

  function EncodeMembers(ms: seq<Member<string>>): string
    decreases ms, 2
  {
    if ms == [] then ""
    else EncodeMember(ms[0]) + if |ms| == 1 then "" else ", " + EncodeMembers(ms[1..])
  }

  /** The value with its strings as code units. */
  function InUnits(v: Json<string>): Json<Units>
    decreases v, 0
  {
    match v
    case JNull => JNull
    case JBool(b) => JBool(b)
    case JNumber(lexeme) => JNumber(lexeme)
    case JString(s) => JString(Decoded(s))
    case JArray(vs) => JArray(ElemsInUnits(vs))
    case JObject(ms) => JObject(MembersInUnits(ms))
  }

  function ElemsInUnits(vs: seq<Json<string>>): seq<Json<Units>>
    decreases vs, 1
  {
    if vs == [] then [] else [InUnits(vs[0])] + ElemsInUnits(vs[1..])
  }

  function MembersInUnits(ms: seq<Member<string>>): seq<Member<Units>>
    decreases ms, 2
  {
    if ms == [] then [] else [MemberInUnits(ms[0])] + MembersInUnits(ms[1..])
  }

  function MemberInUnits(m: Member<string>): Member<Units>
    decreases m, 1
  {
    Member(Decoded(m.name), InUnits(m.value))
  }

  predicate IsNumber(lexeme: string) {
    lexeme != "" && NumberLength(lexeme) == |lexeme|
  }

  /** Every number is written as section 6 allows: no NaN and no infinity. */
  predicate Finite(v: Json<string>)
    decreases v, 0
  {
    match v
    case JNumber(lexeme) => IsNumber(lexeme)
    case JArray(vs) => AllFinite(vs)
    case JObject(ms) => MembersFinite(ms)
    case _ => true
  }

  predicate AllFinite(vs: seq<Json<string>>)
    decreases vs, 1
  {
    vs == [] || (Finite(vs[0]) && AllFinite(vs[1..]))
  }

  predicate MembersFinite(ms: seq<Member<string>>)
    decreases ms, 2
  {
    ms == [] || (MemberFinite(ms[0]) && MembersFinite(ms[1..]))
  }

  predicate MemberFinite(m: Member<string>)
    decreases m, 1
  {
    Finite(m.value)
  }

  // ---- Strings ----

  lemma HexRoundTrip(n: nat)
    requires n < 16
    ensures IsHex(HexDigit(n)) && HexValue(HexDigit(n)) == n
  {
  }

  lemma EncodedCharDecodes(c: char, t: string)
    ensures var s := EncodeChar(c) + t;
      NextUnit(s) == Unit(UnitsOf(c), |EncodeChar(c)|) && s[0] != '"' && s[|EncodeChar(c)|..] == t
  {
    var e := EncodeChar(c);
    var s := e + t;
    assert s[0] == e[0];
    if e[0] == '\\' {
      assert s[1] == e[1];
      if |e| == 6 {
        HexRoundTrip(c as int / 16);
        HexRoundTrip(c as int % 16);
        assert s[2] == e[2] && s[3] == e[3] && s[4] == e[4] && s[5] == e[5];
      }
    }
  }

  lemma {:induction false} StringDecodes(s: string, rest: string)
    ensures ParseString(Quoted(s) + ("\"" + rest)) == Got(Decoded(s), rest)
  {
    var t := "\"" + rest;
    if s == "" {
      assert Quoted(s) + t == t;
    } else {
      var more := Quoted(s[1..]) + t;
      assert Quoted(s) + t == EncodeChar(s[0]) + more;
      EncodedCharDecodes(s[0], more);
      StringDecodes(s[1..], rest);
    }
  }

  lemma QuotedStringDecodes(s: string, rest: string)
    ensures var t := EncodeString(s) + rest;
      t[0] == '"' && ParseString(t[1..]) == Got(Decoded(s), rest)
  {
    StringDecodes(s, rest);
    assert (EncodeString(s) + rest)[1..] == Quoted(s) + ("\"" + rest);
  }

  // ---- Numbers ----

  /** What follows a value in an encoded text. */
  predicate Follows(rest: string) {
    rest == "" || rest[0] == ',' || rest[0] == ']' || rest[0] == '}'
  }

  lemma {:induction false} DigitsStop(s: string, rest: string)
    requires Follows(rest)
    ensures DigitsIn(s + rest) == DigitsIn(s)
  {
    if s == "" {
      assert s + rest == rest;
    } else {
      assert (s + rest)[1..] == s[1..] + rest;
      DigitsStop(s[1..], rest);
    }
  }

  lemma FracStops(s: string, rest: string)
    requires Follows(rest)
    ensures FracLength(s + rest) == FracLength(s)
  {
    if s == "" {
      assert s + rest == rest;
    } else {
      assert (s + rest)[1..] == s[1..] + rest;
      DigitsStop(s[1..], rest);
    }
  }

  lemma ExpStops(s: string, rest: string)
    requires Follows(rest)
    ensures ExpLength(s + rest) == ExpLength(s)
  {
    if s == "" {
      assert s + rest == rest;
    } else {
      assert (s + rest)[1..] == s[1..] + rest;
      var n := SignLength(s[1..]);
      assert SignLength(s[1..] + rest) == n by {
        if |s| == 1 {
          assert s[1..] + rest == rest;
        }
      }
      assert (s + rest)[1 + n..] == s[1 + n..] + rest;
      DigitsStop(s[1 + n..], rest);
    }
  }

  lemma TailStops(s: string, rest: string)
    requires Follows(rest)
    ensures TailLength(s + rest) == TailLength(s)
  {
    var f := FracLength(s);
    FracStops(s, rest);
    assert (s + rest)[f..] == s[f..] + rest;
    ExpStops(s[f..], rest);
  }

  lemma IntStops(s: string, rest: string)
    requires Follows(rest)
    ensures IntLength(s + rest) == IntLength(s)
  {
    DigitsStop(s, rest);
    if s == "" {
      assert s + rest == rest;
    }
  }

  lemma MagnitudeStops(s: string, rest: string)
    requires Follows(rest)
    ensures MagnitudeLength(s + rest) == MagnitudeLength(s)
  {
    var n := IntLength(s);
    IntStops(s, rest);
    assert (s + rest)[n..] == s[n..] + rest;
    TailStops(s[n..], rest);
  }

  lemma NumberStops(s: string, rest: string)
    requires s != "" && Follows(rest)
    ensures NumberLength(s + rest) == NumberLength(s)
  {
    var a := MinusLength(s);
    assert (s + rest)[0] == s[0] && (s + rest)[a..] == s[a..] + rest;
    MagnitudeStops(s[a..], rest);
  }

  lemma NumberHead(s: string)
    requires NumberLength(s) > 0
    ensures s != "" && (s[0] == '-' || IsDigit(s[0]))
  {
    assert s[0..] == s;
  }

  // ---- Values ----

  lemma EncodedHead(v: Json<string>)
    requires Finite(v)
    ensures Encode(v) != "" && !IsWs(Encode(v)[0]) && Encode(v)[0] != ']' && Encode(v)[0] != '}'
  {
    if v.JNumber? {
      NumberHead(v.lexeme);
    }
  }

  lemma NumberParses(s: string, n: nat)
    requires n == NumberLength(s) && n > 0
    ensures ParseValue(s) == Got(JNumber(s[..n]), s[n..])
  {
    NumberHead(s);
  }

  lemma NumberDecodes(lexeme: string, rest: string)
    requires IsNumber(lexeme) && Follows(rest)
    ensures ParseValue(lexeme + rest) == Got(JNumber(lexeme), rest)
  {
    NumberStops(lexeme, rest);
    NumberParses(lexeme + rest, |lexeme|);
  }

  // Steps of the decoder on texts of known shape.

  lemma ArrayParses(t: string, vs: seq<Json<Units>>, rest: string)
    requires t != "" && !IsWs(t[0]) && t[0] != ']' && ParseElements(t) == Got(vs, rest)
    ensures ParseValue("[" + t) == Got(JArray(vs), rest)
  {
    assert ("[" + t)[1..] == t;
  }

  lemma LastElementParses(s: string, v: Json<Units>, rest: string)
    requires ParseValue(s) == Got(v, "]" + rest)
    ensures ParseElements(s) == Got([v], rest)
  {
    assert ("]" + rest)[1..] == rest;
  }

  lemma NextElementParses(s: string, v: Json<Units>, more: string, vs: seq<Json<Units>>, rest: string)
    requires more != "" && !IsWs(more[0])
    ensures ParseValue(s) == Got(v, ", " + more) && ParseElements(more) == Got(vs, rest)
      ==> ParseElements(s) == Got([v] + vs, rest)
  {
    AfterSeparator(more);
  }

  lemma AfterSeparator(more: string)
    requires more != "" && !IsWs(more[0])
    ensures SkipWs((", " + more)[1..]) == more && SkipWs((": " + more)[1..]) == more
    ensures SkipWs(", " + more) == ", " + more && SkipWs(": " + more) == ": " + more
  {
    assert (", " + more)[1..] == " " + more && (": " + more)[1..] == " " + more && (" " + more)[1..] == more;
  }

  lemma ObjectParses(t: string, ms: seq<Member<Units>>, rest: string)
    requires t != "" && t[0] == '"' && ParseMembers(t) == Got(ms, rest)
    ensures ParseValue("{" + t) == Got(JObject(ms), rest)
  {
    assert ("{" + t)[1..] == t;
  }

  lemma MemberParses(s: string, name: Units, value: string, v: Json<Units>, rest: string)
    requires s != "" && s[0] == '"' && ParseString(s[1..]) == Got(name, ": " + value)
    requires value != "" && !IsWs(value[0]) && ParseValue(value) == Got(v, rest)
    ensures ParseMember(s) == Got(Member(name, v), rest)
  {
    AfterSeparator(value);
  }

  lemma LastMemberParses(s: string, m: Member<Units>, rest: string)
    requires ParseMember(s) == Got(m, "}" + rest)
    ensures ParseMembers(s) == Got([m], rest)
  {
    assert ("}" + rest)[1..] == rest;
  }

  lemma NextMemberParses(s: string, m: Member<Units>, more: string, ms: seq<Member<Units>>, rest: string)
    requires more != "" && !IsWs(more[0])
    ensures ParseMember(s) == Got(m, ", " + more) && ParseMembers(more) == Got(ms, rest)
      ==> ParseMembers(s) == Got([m] + ms, rest)
  {
    AfterSeparator(more);
  }

  lemma LiteralParses(rest: string)
    ensures ParseValue("null" + rest) == Got(JNull, rest)
    ensures ParseValue("true" + rest) == Got(JBool(true), rest)
    ensures ParseValue("false" + rest) == Got(JBool(false), rest)
  {
    assert ("null" + rest)[4..] == rest && ("true" + rest)[4..] == rest && ("false" + rest)[5..] == rest;
    assert ("null" + rest)[0] == 'n' && ("true" + rest)[0] == 't' && ("false" + rest)[0] == 'f';
  }

  lemma EmptyParses(rest: string)
    ensures ParseValue("[" + "]" + rest) == Got(JArray([]), rest)
    ensures ParseValue("{" + "}" + rest) == Got(JObject([]), rest)
  {
    assert ("[" + "]" + rest)[1..] == "]" + rest && ("]" + rest)[1..] == rest;
    assert ("{" + "}" + rest)[1..] == "}" + rest && ("}" + rest)[1..] == rest;
  }

  lemma {:induction false} ValueDecodes(v: Json<string>, rest: string)
    requires Finite(v) && Follows(rest)
    ensures ParseValue(Encode(v) + rest) == Got(InUnits(v), rest)
    decreases v, 0
  {
    match v {
      case JNull => LiteralParses(rest);
      case JBool(b) => LiteralParses(rest);
      case JNumber(lexeme) => NumberDecodes(lexeme, rest);
      case JString(text) => QuotedStringDecodes(text, rest);
      case JArray(vs) => ArrayDecodes(vs, rest);
      case JObject(ms) => ObjectDecodes(ms, rest);
    }
  }

  lemma {:induction false} ArrayDecodes(vs: seq<Json<string>>, rest: string)
    requires AllFinite(vs)
    ensures ParseValue("[" + EncodeElems(vs) + "]" + rest) == Got(JArray(ElemsInUnits(vs)), rest)
    decreases vs, 2
  {
    if vs == [] {
      EmptyParses(rest);
      assert "[" + EncodeElems(vs) + "]" + rest == "[" + "]" + rest;
    } else {
      var t := EncodeElems(vs) + ("]" + rest);
      assert "[" + EncodeElems(vs) + "]" + rest == "[" + t;
      EncodedHead(vs[0]);
      ElemsDecode(vs, rest);
      ArrayParses(t, ElemsInUnits(vs), rest);
    }
  }

  lemma {:induction false} ElemsDecode(vs: seq<Json<string>>, rest: string)
    requires vs != [] && AllFinite(vs)
    ensures ParseElements(EncodeElems(vs) + ("]" + rest)) == Got(ElemsInUnits(vs), rest)
    decreases vs, 1
  {
    var close := "]" + rest;
    var s := EncodeElems(vs) + close;
    if |vs| == 1 {
      ValueDecodes(vs[0], close);
      assert s == Encode(vs[0]) + close && vs[1..] == [] && ElemsInUnits(vs) == [InUnits(vs[0])];
      LastElementParses(s, InUnits(vs[0]), rest);
    } else {
      var more := EncodeElems(vs[1..]) + close;
      assert s == Encode(vs[0]) + (", " + more);
      ValueDecodes(vs[0], ", " + more);
      ElemsDecode(vs[1..], rest);
      EncodedHead(vs[1..][0]);
      NextElementParses(s, InUnits(vs[0]), more, ElemsInUnits(vs[1..]), rest);
    }
  }

  lemma {:induction false} ObjectDecodes(ms: seq<Member<string>>, rest: string)
    requires MembersFinite(ms)
    ensures ParseValue("{" + EncodeMembers(ms) + "}" + rest) == Got(JObject(MembersInUnits(ms)), rest)
    decreases ms, 4
  {
    if ms == [] {
      EmptyParses(rest);
      assert "{" + EncodeMembers(ms) + "}" + rest == "{" + "}" + rest;
    } else {
      var t := EncodeMembers(ms) + ("}" + rest);
      assert "{" + EncodeMembers(ms) + "}" + rest == "{" + t;
      MembersSplit(ms, "}" + rest);
      MembersDecode(ms, rest);
      ObjectParses(t, MembersInUnits(ms), rest);
    }
  }

  lemma {:induction false} MemberDecodes(m: Member<string>, rest: string)
    requires MemberFinite(m) && Follows(rest)
    ensures ParseMember(EncodeMember(m) + rest) == Got(MemberInUnits(m), rest)
    decreases m, 1
  {
    var value := Encode(m.value) + rest;
    var s := EncodeMember(m) + rest;
    assert s == EncodeString(m.name) + (": " + value);
    QuotedStringDecodes(m.name, ": " + value);
    EncodedHead(m.value);
    ValueDecodes(m.value, rest);
    MemberParses(s, Decoded(m.name), value, InUnits(m.value), rest);
  }

  lemma MembersSplit(ms: seq<Member<string>>, close: string)
    requires ms != []
    ensures var s := EncodeMembers(ms) + close;
      s != "" && s[0] == '"'
      && s == EncodeMember(ms[0]) + if |ms| == 1 then close else ", " + (EncodeMembers(ms[1..]) + close)
  {
    MemberHead(ms[0]);
    Regroup(EncodeMember(ms[0]), EncodeMembers(ms[1..]), close);
  }

  lemma MemberHead(m: Member<string>)
    ensures EncodeMember(m) != "" && EncodeMember(m)[0] == '"'
  {
  }

  lemma Regroup(a: string, b: string, close: string)
    ensures (a + (", " + b)) + close == a + (", " + (b + close))
    ensures (a + "") + close == a + close
  {
  }

  lemma {:induction false} MembersDecode(ms: seq<Member<string>>, rest: string)
    requires ms != [] && MembersFinite(ms)
    ensures ParseMembers(EncodeMembers(ms) + ("}" + rest)) == Got(MembersInUnits(ms), rest)
    decreases ms, 3
  {
    var close := "}" + rest;
    var s := EncodeMembers(ms) + close;
    if |ms| == 1 {
      MemberDecodes(ms[0], close);
      MembersSplit(ms, close);
      assert ms[1..] == [] && MembersInUnits(ms) == [MemberInUnits(ms[0])];
      LastMemberParses(s, MemberInUnits(ms[0]), rest);
    } else {
      var more := EncodeMembers(ms[1..]) + close;
      MembersSplit(ms, close);
      MembersSplit(ms[1..], close);
      MemberDecodes(ms[0], ", " + more);
      MembersDecode(ms[1..], rest);
      NextMemberParses(s, MemberInUnits(ms[0]), more, MembersInUnits(ms[1..]), rest);
    }
  }

  /** What the script reads back from the embedded text is the value that was embedded. */
  lemma EmbeddedValueIsReadBack(v: Json<string>)
    requires Finite(v)
    ensures Parse(ScriptSafe.ScriptSafe(Encode(v))) == Got(InUnits(v), "")
  {
    ValueDecodes(v, "");
    EncodedHead(v);
    assert Encode(v) + "" == Encode(v);
    ScriptSafe.EscapingIsTransparent(Encode(v));
  }

  /** The promise is for JSON texts only: after a stray backslash an escape turns an invalid text into a valid one. */
  lemma InvalidTextMayBecomeValid()
    ensures Parse("\"\\<\"").Fail?
    ensures Parse(ScriptSafe.ScriptSafe("\"\\<\"")) == Got(JString(Decoded("\\u003c")), "")
  {
    StrayFails();
    EscapedStray();
    StrayEncoded();
    StringTextParses("\\u003c");
  }

  lemma StrayEncoded()
    ensures EncodeString("\\u003c") == "\"\\\\u003c\""
  {
    assert "\\u003c"[1..] == "u003c";
    PlainQuoted("u003c");
  }

  lemma StringTextParses(s: string)
    ensures Parse(EncodeString(s)) == Got(JString(Decoded(s)), "")
  {
    QuotedStringDecodes(s, "");
    assert EncodeString(s) + "" == EncodeString(s);
  }

  lemma StrayFails()
    ensures Parse("\"\\<\"").Fail?
  {
    var s := "\"\\<\"";
    assert s[1..] == "\\<\"";
    assert NextUnit("\\<\"").NoUnit?;
  }

  lemma EscapedStray()
    ensures ScriptSafe.ScriptSafe("\"\\<\"") == "\"\\\\u003c\""
  {
    var s := "\"\\<\"";
    ScriptSafe.ScriptSafeIsOnePass(s);
    assert s[1..] == "\\<\"" && s[1..][1..] == "<\"" && s[1..][1..][1..] == "\"";
  }

  lemma {:induction false} PlainQuoted(s: string)
    requires forall i | 0 <= i < |s| :: s[i] >= ' ' && s[i] != '"' && s[i] != '\\'
    ensures Quoted(s) == s
  {
    if s != "" {
      PlainQuoted(s[1..]);
    }
  }
}
