/** Option and Result, as used by every module for nullable columns and raised errors. */
module Common {

  datatype Option<+T> = None | Some(value: T) {
    /** The value, or `default` where the source writes `x or default` / COALESCE. */
    function GetOr(default: T): T {
      match this
      case Some(v) => v
      case None => default
    }
  }

  datatype Result<+T> = Ok(value: T) | Err(message: string)

  /** First position that is hit, or |xs|: `SELECT ... LIMIT 1` on rows in id order. */
  function Search<T>(xs: seq<T>, hit: T -> bool): (k: nat)
    ensures k <= |xs|
    ensures k < |xs| ==> hit(xs[k])
    ensures forall i | 0 <= i < k :: !hit(xs[i])
  {
    if xs == [] || hit(xs[0]) then 0 else 1 + Search(xs[1..], hit)
  }

  /** The whitespace that Python's `str.strip()` and `\s` recognise. */
  predicate IsSpace(c: char) {
    || '\U{0009}' <= c <= '\U{000D}'
    || '\U{001C}' <= c <= '\U{0020}'
    || c in {'\U{0085}', '\U{00A0}', '\U{1680}', '\U{2028}', '\U{2029}', '\U{202F}', '\U{205F}', '\U{3000}'}
    || '\U{2000}' <= c <= '\U{200A}'
  }

  /** They are the 29 characters that Python calls white space. */
  lemma WhiteSpaceIs(c: char)
    ensures IsSpace(c) <==>
      || c as int in {0x09, 0x0A, 0x0B, 0x0C, 0x0D, 0x1C, 0x1D, 0x1E, 0x1F, 0x20, 0x85, 0xA0, 0x1680}
      || c as int in {0x2000, 0x2001, 0x2002, 0x2003, 0x2004, 0x2005, 0x2006, 0x2007, 0x2008, 0x2009, 0x200A}
      || c as int in {0x2028, 0x2029, 0x202F, 0x205F, 0x3000}
  {
  }

  function StripLeft(s: string): string {
    if s != "" && IsSpace(s[0]) then StripLeft(s[1..]) else s
  }

  function StripRight(s: string): string {
    if s != "" && IsSpace(s[|s| - 1]) then StripRight(s[..|s| - 1]) else s
  }

  /** Python's `str.strip()`. */
  function Strip(s: string): string {
    StripRight(StripLeft(s))
  }

  lemma {:induction false} StripLeftEnd(s: string)
    ensures StripLeft(s) == "" || !IsSpace(StripLeft(s)[0])
  {
    if s != "" && IsSpace(s[0]) {
      StripLeftEnd(s[1..]);
    }
  }

  lemma {:induction false} StripRightEnds(s: string)
    ensures StripRight(s) <= s
    ensures StripRight(s) == "" || !IsSpace(StripRight(s)[|StripRight(s)| - 1])
  {
    if s != "" && IsSpace(s[|s| - 1]) {
      StripRightEnds(s[..|s| - 1]);
    }
  }

  /** `strip` is idempotent: a stored name is found again under the same key. */
  lemma StripIdempotent(s: string)
    ensures Strip(Strip(s)) == Strip(s)
  {
    StripLeftEnd(s);
    StripRightEnds(StripLeft(s));
  }

  predicate AllSpace(s: string) {
    forall i | 0 <= i < |s| :: IsSpace(s[i])
  }

  /** `s` is `core` between white space. */
  predicate Framed(s: string, before: string, core: string, after: string) {
    s == before + core + after && AllSpace(before) && AllSpace(after)
  }

  predicate BareEnds(s: string) {
    s == "" || (!IsSpace(s[0]) && !IsSpace(s[|s| - 1]))
  }

  lemma {:induction false} StripLeftSkips(before: string, s: string)
    requires AllSpace(before) && (s == "" || !IsSpace(s[0]))
    ensures StripLeft(before + s) == s
  {
    if before == "" {
      assert before + s == s;
    } else {
      assert (before + s)[1..] == before[1..] + s;
      StripLeftSkips(before[1..], s);
    }
  }

  lemma {:induction false} StripRightSkips(s: string, after: string)
    requires AllSpace(after) && (s == "" || !IsSpace(s[|s| - 1]))
    ensures StripRight(s + after) == s
  {
    if after == "" {
      assert s + after == s;
    } else {
      var n := |after| - 1;
      assert (s + after)[..|s + after| - 1] == s + after[..n];
      StripRightSkips(s, after[..n]);
    }
  }

  lemma {:induction false} StripLeftSplits(s: string) returns (before: string)
    ensures AllSpace(before) && s == before + StripLeft(s)
  {
    if s != "" && IsSpace(s[0]) {
      var rest := StripLeftSplits(s[1..]);
      before := [s[0]] + rest;
      assert s == [s[0]] + (rest + StripLeft(s[1..]));
    } else {
      before := "";
    }
  }

  lemma {:induction false} StripRightSplits(s: string) returns (after: string)
    ensures AllSpace(after) && s == StripRight(s) + after
  {
    if s != "" && IsSpace(s[|s| - 1]) {
      var n := |s| - 1;
      var rest := StripRightSplits(s[..n]);
      after := rest + [s[n]];
      assert s == StripRight(s[..n]) + (rest + [s[n]]);
    } else {
      after := "";
    }
  }

  lemma StripLosesTheFrame(s: string, before: string, core: string, after: string)
    requires Framed(s, before, core, after) && BareEnds(core)
    ensures Strip(s) == core
  {
    if core == "" {
      assert AllSpace(s);
      StripLeftSkips(s, "");
      assert s + "" == s;
    } else {
      assert s == before + (core + after);
      StripLeftSkips(before, core + after);
      StripRightSkips(core, after);
    }
  }

  /** `strip` leaves the one text with bare ends that the original frames in white space. */
  lemma StripIsTheCore(s: string, core: string)
    ensures Strip(s) == core <==> BareEnds(core) && exists before, after :: Framed(s, before, core, after)
  {
    if Strip(s) == core {
      var before := StripLeftSplits(s);
      var after := StripRightSplits(StripLeft(s));
      StripLeftEnd(s);
      StripRightEnds(StripLeft(s));
      assert s == before + (core + after) == before + core + after;
      assert Framed(s, before, core, after);
    }
    if BareEnds(core) && exists before, after :: Framed(s, before, core, after) {
      var before, after :| Framed(s, before, core, after);
      StripLosesTheFrame(s, before, core, after);
    }
  }

  /** `lower()` / `casefold()` on ASCII letters; every other character is left alone. */
  function LowerChar(c: char): char {
    if 'A' <= c <= 'Z' then c - 'A' + 'a' else c
  }

  function Lower(s: string): string {
    seq(|s|, i requires 0 <= i < |s| => LowerChar(s[i]))
  }

  /** Capital letters move to their small ones; every other character stays. */
  lemma LowerMovesCapitals(s: string, i: nat)
    requires i < |s|
    ensures |Lower(s)| == |s|
    ensures Lower(s)[i] as int == s[i] as int + if 0x41 <= s[i] as int <= 0x5A then 0x20 else 0
  {
  }

  /** Python's `t in s` on texts. */
  predicate Contains(s: string, t: string) {
    t <= s || (s != "" && Contains(s[1..], t))
  }

  predicate Occurs(s: string, before: string, t: string, after: string) {
    s == before + t + after
  }

  lemma {:induction false} ContainsWhereItOccurs(s: string, t: string)
    ensures Contains(s, t) <==> exists before, after :: Occurs(s, before, t, after)
  {
    if t <= s {
      assert Occurs(s, "", t, s[|t|..]);
    } else if s != "" {
      ContainsWhereItOccurs(s[1..], t);
      if Contains(s[1..], t) {
        var before, after :| Occurs(s[1..], before, t, after);
        assert s == [s[0]] + (before + t + after);
        assert Occurs(s, [s[0]] + before, t, after);
      }
      if exists before, after :: Occurs(s, before, t, after) {
        var before, after :| Occurs(s, before, t, after);
        assert before != "" by {
          assert before == "" ==> s == t + after;
        }
        assert s[1..] == before[1..] + t + after;
        assert Occurs(s[1..], before[1..], t, after);
      }
    }
  }

  predicate IsDigit(c: char) {
    '0' <= c <= '9'
  }

  predicate AllDigits(s: string) {
    forall i | 0 <= i < |s| :: IsDigit(s[i])
  }

  function Decimal(s: string): nat
    requires AllDigits(s)
  {
    if s == "" then 0 else Decimal(s[..|s| - 1]) * 10 + (s[|s| - 1] - '0') as nat
  }
}
