/** Script-safe escaping of a JSON text (epiproc/web/dashboard_html.py). */
module ScriptSafe {
  import opened Common
  import opened JsonText

  const SPECIAL := ['<', '>', '&', '\U{2028}', '\U{2029}']

  function EscapeOf(c: char): string {
    if c == '<' then "\\u003c"
    else if c == '>' then "\\u003e"
    else if c == '&' then "\\u0026"
    else if c == '\U{2028}' then "\\u2028"
    else "\\u2029"
  }

  /** Python's `s.replace(c, with)` for a single character. */
  function Replace(s: string, c: char, with: string): string {
    if s == "" then "" else (if s[0] == c then with else [s[0]]) + Replace(s[1..], c, with)
  }

  /** Replacements one after the other. */
  function ReplaceEach(s: string, chars: seq<char>): string {
    if chars == [] then s
    else Replace(ReplaceEach(s, chars[..|chars| - 1]), chars[|chars| - 1], EscapeOf(chars[|chars| - 1]))
  }

  /** `_js_json` on the text that json.dumps produced. */
  function ScriptSafe(s: string): string {
    ReplaceEach(s, SPECIAL)
  }

  // ---- One pass ----

  /** All of these characters replaced in one pass. */
  function EscapeAll(s: string, chars: seq<char>): string {
    if s == "" then "" else (if s[0] in chars then EscapeOf(s[0]) else [s[0]]) + EscapeAll(s[1..], chars)
  }

  lemma {:induction false} ReplaceConcat(a: string, b: string, c: char, with: string)
    ensures Replace(a + b, c, with) == Replace(a, c, with) + Replace(b, c, with)
  {
    if a == "" {
      assert a + b == b;
    } else {
      assert (a + b)[1..] == a[1..] + b;
      ReplaceConcat(a[1..], b, c, with);
    }
  }

  lemma {:induction false} ReplaceAbsent(s: string, c: char, with: string)
    requires c !in s
    ensures Replace(s, c, with) == s
  {
    if s != "" {
      ReplaceAbsent(s[1..], c, with);
    }
  }

  /** No escape holds one of the characters that are escaped. */
  lemma EscapesAreSafe(c: char, d: char)
    requires d in SPECIAL
    ensures d !in EscapeOf(c)
  {
  }

  lemma {:induction false} ReplaceAfterEscape(s: string, chars: seq<char>, c: char)
    requires c in SPECIAL && c !in chars
    ensures Replace(EscapeAll(s, chars), c, EscapeOf(c)) == EscapeAll(s, chars + [c])
  {
    if s != "" {
      var head := if s[0] in chars then EscapeOf(s[0]) else [s[0]];
      ReplaceConcat(head, EscapeAll(s[1..], chars), c, EscapeOf(c));
      ReplaceAfterEscape(s[1..], chars, c);
      if s[0] in chars {
        EscapesAreSafe(s[0], c);
        ReplaceAbsent(head, c, EscapeOf(c));
      } else {
        assert head[1..] == "";
        assert Replace(head, c, EscapeOf(c))
          == (if s[0] == c then EscapeOf(c) else [s[0]]) + Replace(head[1..], c, EscapeOf(c));
      }
    }
  }

  lemma {:induction false} EscapeNone(s: string)
    ensures EscapeAll(s, []) == s
  {
    if s != "" {
      EscapeNone(s[1..]);
    }
  }

  predicate Distinct(chars: seq<char>) {
    forall i, j | 0 <= i < j < |chars| :: chars[i] != chars[j]
  }

  lemma {:induction false} ReplaceEachIsOnePass(s: string, chars: seq<char>)
    requires Distinct(chars) && forall c | c in chars :: c in SPECIAL
    ensures ReplaceEach(s, chars) == EscapeAll(s, chars)
  {
    if chars == [] {
      EscapeNone(s);
    } else {
      var n := |chars| - 1;
      assert forall c | c in chars[..n] :: c in chars;
      ReplaceEachIsOnePass(s, chars[..n]);
      ReplaceAfterEscape(s, chars[..n], chars[n]);
      assert chars[..n] + [chars[n]] == chars;
    }
  }

  lemma {:induction false} OnePassIgnoresOrder(s: string, a: seq<char>, b: seq<char>)
    requires forall c :: c in a <==> c in b
    ensures EscapeAll(s, a) == EscapeAll(s, b)
  {
    if s != "" {
      OnePassIgnoresOrder(s[1..], a, b);
    }
  }

  /** The five replacements give the same text in every order. */
  lemma OrderDoesNotMatter(s: string, order: seq<char>)
    requires Distinct(order) && forall c :: c in order <==> c in SPECIAL
    ensures ReplaceEach(s, order) == ScriptSafe(s)
  {
    ReplaceEachIsOnePass(s, order);
    ReplaceEachIsOnePass(s, SPECIAL);
    OnePassIgnoresOrder(s, order, SPECIAL);
  }

  /** No raw <, >, &, U+2028 or U+2029 is left. */
  lemma {:induction false} NothingSpecialRemains(s: string, c: char)
    requires c in {'<', '>', '&', '\U{2028}', '\U{2029}'}
    ensures c !in ScriptSafe(s)
  {
    ReplaceEachIsOnePass(s, SPECIAL);
    if s != "" {
      ReplaceEachIsOnePass(s[1..], SPECIAL);
      NothingSpecialRemains(s[1..], c);
      EscapesAreSafe(s[0], c);
    }
  }

  lemma {:induction false} SafeTextIsUnchanged(s: string)
    requires forall c | c in SPECIAL :: c !in s
    ensures EscapeAll(s, SPECIAL) == s
  {
    if s != "" {
      assert s[0] in s && forall c | c in s[1..] :: c in s;
      SafeTextIsUnchanged(s[1..]);
    }
  }

  /** Escaping a safe text again changes nothing. */
  lemma EscapingIsIdempotent(s: string)
    ensures ScriptSafe(ScriptSafe(s)) == ScriptSafe(s)
  {
    forall c | c in SPECIAL ensures c !in ScriptSafe(s) {
      NothingSpecialRemains(s, c);
    }
    SafeTextIsUnchanged(ScriptSafe(s));
    ReplaceEachIsOnePass(ScriptSafe(s), SPECIAL);
  }

  // ---- Decoding the escaped text ----

  function Esc(s: string): string {
    EscapeAll(s, SPECIAL)
  }

  /** A character that is not escaped stays where it is. */
  lemma PlainHead(s: string)
    requires s != "" && s[0] !in SPECIAL
    ensures Esc(s) != "" && Esc(s)[0] == s[0] && Esc(s)[1..] == Esc(s[1..])
  {
  }

  /** An escaped character turns into six. */
  lemma EscapedHead(s: string)
    requires s != "" && s[0] in SPECIAL
    ensures |Esc(s)| >= 6 && Esc(s)[..6] == EscapeOf(s[0]) && Esc(s)[6..] == Esc(s[1..]) && Esc(s)[0] == '\\'
  {
  }

  /** What the escaped text starts with, when the original starts with no such character. */
  lemma HeadStays(s: string)
    ensures Esc(s) == "" <==> s == ""
    ensures s != "" ==> Esc(s)[0] == if s[0] in SPECIAL then '\\' else s[0]
  {
    if s != "" {
      if s[0] in SPECIAL {
        EscapedHead(s);
      } else {
        PlainHead(s);
      }
    }
  }

  lemma {:induction false} SkipWsEscaped(s: string)
    ensures SkipWs(Esc(s)) == Esc(SkipWs(s))
  {
    HeadStays(s);
    if s != "" && IsWs(s[0]) {
      PlainHead(s);
      SkipWsEscaped(s[1..]);
    }
  }

  /** Up to n characters that are never escaped stay as they are. */
  lemma {:induction false} PlainPrefix(s: string, n: nat)
    requires n <= |s| && forall i | 0 <= i < n :: s[i] !in SPECIAL
    ensures n <= |Esc(s)| && Esc(s)[..n] == s[..n] && Esc(s)[n..] == Esc(s[n..])
  {
    if n == 0 {
      assert s[0..] == s;
    } else {
      PlainHead(s);
      PlainPrefix(s[1..], n - 1);
      assert s[1..][n - 1..] == s[n..] && Esc(s)[1..][n - 1..] == Esc(s)[n..];
      assert s[..n] == [s[0]] + s[1..][..n - 1] && Esc(s)[..n] == [s[0]] + Esc(s)[1..][..n - 1];
    }
  }

  lemma EscapeDecodes(c: char, rest: string)
    requires c in SPECIAL
    ensures IsUnicodeEscape(EscapeOf(c) + rest) && [UnicodeEscape(EscapeOf(c) + rest)] == UnitsOf(c)
    ensures NextUnit(EscapeOf(c) + rest) == Unit(UnitsOf(c), 6)
  {
    var t := EscapeOf(c) + rest;
    assert t[..6] == EscapeOf(c);
    assert t[0] == EscapeOf(c)[0] && t[1] == EscapeOf(c)[1] && t[2] == EscapeOf(c)[2];
    assert t[3] == EscapeOf(c)[3] && t[4] == EscapeOf(c)[4] && t[5] == EscapeOf(c)[5];
  }

  /** The next unit of a string survives escaping, and so does what follows it. */
  lemma NextUnitEscaped(s: string)
    requires NextUnit(s).Unit?
    ensures NextUnit(Esc(s)).Unit? && NextUnit(Esc(s)).units == NextUnit(s).units
    ensures Esc(s)[NextUnit(Esc(s)).length..] == Esc(s[NextUnit(s).length..])
    ensures Esc(s)[0] != '"'
  {
    if s[0] in SPECIAL {
      EscapedHead(s);
      EscapeDecodes(s[0], Esc(s[1..]));
      assert Esc(s) == EscapeOf(s[0]) + Esc(s[1..]);
    } else if s[0] != '\\' {
      PlainHead(s);
    } else if IsUnicodeEscape(s) {
      PlainPrefix(s, 6);
      assert forall i | 0 <= i < 6 :: Esc(s)[i] == Esc(s)[..6][i] == s[i];
    } else {
      PlainPrefix(s, 2);
      assert forall i | 0 <= i < 2 :: Esc(s)[i] == Esc(s)[..2][i] == s[i];
      assert s[1] != 'u' && Esc(s)[1] == s[1];
    }
  }

  lemma {:induction false} StringEscaped(s: string)
    requires ParseString(s).Got?
    ensures ParseString(Esc(s)) == Got(ParseString(s).value, Esc(ParseString(s).rest))
    decreases |s|
  {
    if s[0] == '"' {
      PlainHead(s);
    } else {
      NextUnitEscaped(s);
      StringEscaped(s[NextUnit(s).length..]);
    }
  }

  // ---- Numbers ----

  predicate Plain(s: string, n: nat)
    requires n <= |s|
  {
    forall i | 0 <= i < n :: s[i] !in SPECIAL
  }

  lemma {:induction false} DigitsEscaped(s: string)
    ensures DigitsIn(Esc(s)) == DigitsIn(s) && Plain(s, DigitsIn(s))
  {
    HeadStays(s);
    if s != "" && IsDigit(s[0]) {
      PlainHead(s);
      DigitsEscaped(s[1..]);
      assert forall i | 1 <= i < DigitsIn(s) :: s[i] == s[1..][i - 1];
    }
  }

  lemma IntEscaped(s: string)
    ensures IntLength(Esc(s)) == IntLength(s) && Plain(s, IntLength(s))
  {
    HeadStays(s);
    DigitsEscaped(s);
  }

  lemma FracEscaped(s: string)
    ensures FracLength(Esc(s)) == FracLength(s) && Plain(s, FracLength(s))
  {
    HeadStays(s);
    if s != "" && s[0] == '.' {
      PlainHead(s);
      DigitsEscaped(s[1..]);
      assert forall i | 1 <= i < |s| :: s[i] == s[1..][i - 1];
    }
  }

  lemma ExpEscaped(s: string)
    ensures ExpLength(Esc(s)) == ExpLength(s) && Plain(s, ExpLength(s))
  {
    HeadStays(s);
    if s != "" && (s[0] == 'e' || s[0] == 'E') {
      PlainHead(s);
      HeadStays(s[1..]);
      var n := 1 + SignLength(s[1..]);
      assert SignLength(Esc(s)[1..]) == SignLength(s[1..]);
      assert Plain(s, n);
      PlainPrefix(s, n);
      DigitsEscaped(s[n..]);
      assert forall i | n <= i < |s| :: s[i] == s[n..][i - n];
    }
  }

  lemma PlainSum(s: string, a: nat, b: nat)
    requires a + b <= |s| && Plain(s, a) && Plain(s[a..], b)
    ensures Plain(s, a + b)
    ensures a + b <= |Esc(s)| && Esc(s)[a + b..] == Esc(s[a + b..])
  {
    forall i | 0 <= i < a + b ensures s[i] !in SPECIAL {
      if i >= a {
        assert s[i] == s[a..][i - a];
      }
    }
    PlainPrefix(s, a + b);
  }

  lemma TailEscaped(s: string)
    ensures TailLength(Esc(s)) == TailLength(s) && Plain(s, TailLength(s))
  {
    var f := FracLength(s);
    FracEscaped(s);
    PlainPrefix(s, f);
    ExpEscaped(s[f..]);
    PlainSum(s, f, ExpLength(s[f..]));
  }

  lemma MagnitudeEscaped(s: string)
    ensures MagnitudeLength(Esc(s)) == MagnitudeLength(s) && Plain(s, MagnitudeLength(s))
  {
    var n := IntLength(s);
    IntEscaped(s);
    PlainPrefix(s, n);
    TailEscaped(s[n..]);
    PlainSum(s, n, TailLength(s[n..]));
  }

  lemma NumberEscaped(s: string)
    ensures NumberLength(Esc(s)) == NumberLength(s) && Plain(s, NumberLength(s))
  {
    var a := MinusLength(s);
    HeadStays(s);
    PlainPrefix(s, a);
    MagnitudeEscaped(s[a..]);
    PlainSum(s, a, MagnitudeLength(s[a..]));
  }

  // ---- Values ----

  lemma LiteralEscaped(s: string, literal: string)
    requires forall i | 0 <= i < |literal| :: literal[i] !in SPECIAL && literal[i] != '\\'
    ensures literal <= Esc(s) <==> literal <= s
    ensures literal <= s ==> Esc(s)[|literal|..] == Esc(s[|literal|..])
  {
    if literal <= s {
      PlainPrefix(s, |literal|);
    } else if literal <= Esc(s) {
      LiteralUnescaped(s, literal);
    }
  }

  lemma {:induction false} LiteralUnescaped(s: string, literal: string)
    requires forall i | 0 <= i < |literal| :: literal[i] !in SPECIAL && literal[i] != '\\'
    requires literal <= Esc(s)
    ensures literal <= s
  {
    HeadStays(s);
    if literal != "" {
      assert Esc(s)[0] == literal[0];
      PlainHead(s);
      LiteralUnescaped(s[1..], literal[1..]);
    }
  }

  lemma {:induction false} ValueEscaped(s: string)
    requires ParseValue(s).Got?
    ensures ParseValue(Esc(s)) == Got(ParseValue(s).value, Esc(ParseValue(s).rest))
    decreases |s|, 0
  {
    HeadStays(s);
    if s[0] == '"' {
      PlainHead(s);
      StringEscaped(s[1..]);
    } else if s[0] == '[' || s[0] == '{' {
      PlainHead(s);
      BracketEscaped(s);
    } else {
      if s[0] == '-' || IsDigit(s[0]) {
        NumberTextEscaped(s);
      } else {
        LiteralTextEscaped(s);
      }
    }
  }

  lemma NumberTextEscaped(s: string)
    ensures ParseNumber(s).Got? ==> ParseNumber(Esc(s)) == Got(ParseNumber(s).value, Esc(ParseNumber(s).rest))
  {
    if ParseNumber(s).Got? {
      NumberEscaped(s);
      PlainPrefix(s, NumberLength(s));
    }
  }

  lemma LiteralTextEscaped(s: string)
    requires ParseLiteral(s).Got?
    ensures ParseLiteral(Esc(s)) == Got(ParseLiteral(s).value, Esc(ParseLiteral(s).rest))
  {
    LiteralEscaped(s, "null");
    LiteralEscaped(s, "true");
    LiteralEscaped(s, "false");
  }

  lemma {:induction false} BracketEscaped(s: string)
    requires ParseValue(s).Got? && (s[0] == '[' || s[0] == '{')
    ensures ParseValue(Esc(s)) == Got(ParseValue(s).value, Esc(ParseValue(s).rest))
    decreases |s|, 0, 0
  {
    PlainHead(s);
    var t := SkipWs(s[1..]);
    SkipWsEscaped(s[1..]);
    HeadStays(t);
    if t[0] == ']' || t[0] == '}' {
      PlainHead(t);
    }
    if s[0] == '[' && t[0] != ']' {
      ElementsEscaped(t);
    }
    if s[0] == '{' && t[0] != '}' {
      MembersEscaped(t);
    }
  }

  lemma {:induction false} ElementsEscaped(s: string)
    requires ParseElements(s).Got?
    ensures ParseElements(Esc(s)) == Got(ParseElements(s).value, Esc(ParseElements(s).rest))
    decreases |s|, 1
  {
    ValueEscaped(s);
    var t := SkipWs(ParseValue(s).rest);
    SkipWsEscaped(ParseValue(s).rest);
    PlainHead(t);
    if t[0] == ',' {
      SkipWsEscaped(t[1..]);
      ElementsEscaped(SkipWs(t[1..]));
    }
  }

  lemma {:induction false} MemberEscaped(s: string)
    requires ParseMember(s).Got?
    ensures ParseMember(Esc(s)) == Got(ParseMember(s).value, Esc(ParseMember(s).rest))
    decreases |s|, 1
  {
    PlainHead(s);
    StringEscaped(s[1..]);
    var r := ParseString(s[1..]).rest;
    var t := SkipWs(r);
    SkipWsEscaped(r);
    PlainHead(t);
    SkipWsEscaped(t[1..]);
    ValueEscaped(SkipWs(t[1..]));
  }

  lemma {:induction false} MembersEscaped(s: string)
    requires ParseMembers(s).Got?
    ensures ParseMembers(Esc(s)) == Got(ParseMembers(s).value, Esc(ParseMembers(s).rest))
    decreases |s|, 2
  {
    MemberEscaped(s);
    var t := SkipWs(ParseMember(s).rest);
    SkipWsEscaped(ParseMember(s).rest);
    PlainHead(t);
    if t[0] == ',' {
      SkipWsEscaped(t[1..]);
      MembersEscaped(SkipWs(t[1..]));
    }
  }

  lemma ParseEscaped(s: string)
    requires Parse(s).Got?
    ensures Parse(Esc(s)) == Parse(s)
  {
    SkipWsEscaped(s);
    ValueEscaped(SkipWs(s));
    SkipWsEscaped(ParseValue(SkipWs(s)).rest);
  }

  lemma ScriptSafeIsOnePass(s: string)
    ensures ScriptSafe(s) == Esc(s)
  {
    ReplaceEachIsOnePass(s, SPECIAL);
  }

  /** Escaping is transparent: every JSON text still is one, and decodes to the same value. */
  lemma EscapingIsTransparent(s: string)
    requires Parse(s).Got?
    ensures Parse(ScriptSafe(s)) == Parse(s)
  {
    ScriptSafeIsOnePass(s);
    ParseEscaped(s);
  }
}
