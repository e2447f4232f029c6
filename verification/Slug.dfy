/** `slug_supplier` (epiproc/ingest/pipeline.py): the supplier key derived from a seller name,
    against an independent definition on words. */
module Slug {
  import opened Common

  predicate IsAlnum(c: char) {
    'a' <= c <= 'z' || '0' <= c <= '9'
  }

  function SkipJunk(s: string): (r: string)
    ensures |r| <= |s| && (s != "" && !IsAlnum(s[0]) ==> |r| < |s|)
    ensures r != "" ==> IsAlnum(r[0])
  {
    if s != "" && !IsAlnum(s[0]) then SkipJunk(s[1..]) else s
  }

  /** Every run of other characters becomes one underscore. */
  function Collapse(s: string): string
    decreases |s|
  {
    if s == "" then ""
    else if IsAlnum(s[0]) then [s[0]] + Collapse(s[1..])
    else "_" + Collapse(SkipJunk(s))
  }

  function TrimLeft(s: string): string {
    if s != "" && s[0] == '_' then TrimLeft(s[1..]) else s
  }

  function TrimRight(s: string): string {
    if s != "" && s[|s| - 1] == '_' then TrimRight(s[..|s| - 1]) else s
  }

  function Base(name: string): string {
    TrimRight(TrimLeft(Collapse(Lower(name))))
  }

  /** Legal forms of one word; "b_v" is the only one of two. */
  const FORMS :=
    ["bv", "ltd", "limited", "plc", "llc", "inc", "co", "gmbh", "ag", "sa", "nv", "srl", "oy", "as", "kg", "spa"]

  const SUFFIXES := ["b_v"] + FORMS

  predicate EndsWith(s: string, t: string) {
    |t| <= |s| && s[|s| - |t|..] == t
  }

  /** One pass of the suffix pattern: the first alternative that ends the string goes, underscore included. */
  function DropFirst(s: string, suffixes: seq<string>): (r: string)
    ensures |r| <= |s|
  {
    if suffixes == [] then s
    else if EndsWith(s, "_" + suffixes[0]) then s[..|s| - |suffixes[0]| - 1]
    else DropFirst(s, suffixes[1..])
  }

  function DropSuffix(s: string): (r: string)
    ensures |r| <= |s|
  {
    DropFirst(s, SUFFIXES)
  }

  lemma DropShrinks(s: string, suffixes: seq<string>)
    ensures DropFirst(s, suffixes) == s || |DropFirst(s, suffixes)| < |s|
  {
  }

  /** The suffix loop. */
  function StripSuffixes(s: string): string
    decreases |s|
  {
    DropShrinks(s, SUFFIXES);
    if s == "" || DropSuffix(s) == s then s else StripSuffixes(DropSuffix(s))
  }

  function NonEmpty(s: string): Option<string> {
    if s == "" then None else Some(s)
  }

  function SlugOf(name: Option<string>): Option<string> {
    if name.None? then None else NonEmpty(StripSuffixes(Base(name.value)))
  }

  /** `slug_supplier`, with its loop: it ends, because a pass that changes the string shortens it. */
  method SlugSupplier(name: Option<string>) returns (r: Option<string>)
    ensures r == SlugOf(name)
  {
    if name.None? || name.value == "" {
      return None;
    }
    var s := Base(name.value);
    var prev: Option<string> := None;
    while s != "" && Some(s) != prev
      invariant StripSuffixes(s) == StripSuffixes(Base(name.value))
      invariant Some(s) == prev ==> DropSuffix(s) == s
      decreases |s|, if Some(s) == prev then 0 else 1
    {
      prev := Some(s);
      DropShrinks(s, SUFFIXES);
      s := DropSuffix(s);
      if Some(s) != prev {
        assert |s| < |prev.value|;
      }
    }
    r := NonEmpty(s);
  }

  // ---- The independent definition: words ----

  predicate IsWord(w: string) {
    w != "" && forall i | 0 <= i < |w| :: IsAlnum(w[i])
  }

  predicate AllWords(ws: seq<string>) {
    forall i | 0 <= i < |ws| :: IsWord(ws[i])
  }

  function RunLength(s: string): (n: nat)
    ensures n <= |s| && (forall i | 0 <= i < n :: IsAlnum(s[i])) && (n < |s| ==> !IsAlnum(s[n]))
  {
    if s != "" && IsAlnum(s[0]) then 1 + RunLength(s[1..]) else 0
  }

  /** The maximal runs of letters and digits, in order. */
  function Words(s: string): (ws: seq<string>)
    ensures AllWords(ws)
    decreases |s|
  {
    if s == "" then []
    else if !IsAlnum(s[0]) then Words(s[1..])
    else
      var n := RunLength(s);
      [s[..n]] + Words(s[n..])
  }

  /** A word that is a legal form by itself. */
  predicate IsFormWord(w: string) {
    || w in {"bv", "ltd", "limited", "plc", "llc", "inc", "co", "gmbh"}
    || w in {"ag", "sa", "nv", "srl", "oy", "as", "kg", "spa"}
  }

  lemma FormsAreFormWords(w: string)
    ensures w in FORMS <==> IsFormWord(w)
  {
  }

  function Join(ws: seq<string>): string {
    if ws == [] then "" else if |ws| == 1 then ws[0] else Join(ws[..|ws| - 1]) + "_" + ws[|ws| - 1]
  }

  /** One legal form at the end goes, unless it is the whole name. */
  function DropForm(ws: seq<string>): (r: seq<string>)
    ensures r <= ws
    ensures ws != [] ==> r != []
  {
    var n := |ws|;
    if n >= 3 && ws[n - 2] == "b" && ws[n - 1] == "v" then ws[..n - 2]
    else if n >= 2 && IsFormWord(ws[n - 1]) then ws[..n - 1]
    else ws
  }

  function DropForms(ws: seq<string>): seq<string> {
    if DropForm(ws) == ws then ws else DropForms(DropForm(ws))
  }

  lemma {:induction false} DropFormsIsPrefix(ws: seq<string>)
    ensures DropForms(ws) <= ws
    ensures ws != [] ==> DropForms(ws) != []
    ensures DropForm(DropForms(ws)) == DropForms(ws)
    decreases |ws|
  {
    if DropForm(ws) != ws {
      DropFormsIsPrefix(DropForm(ws));
    }
  }

  // ---- The base of a slug is its words, joined ----

  /** Joining from the left. */
  lemma {:induction false} JoinCons(w: string, ws: seq<string>)
    requires ws != []
    ensures Join([w] + ws) == w + "_" + Join(ws)
  {
    var all, n := [w] + ws, |ws|;
    assert all[..|all| - 1] == [w] + ws[..n - 1];
    if n > 1 {
      JoinCons(w, ws[..n - 1]);
    }
  }

  lemma {:induction false} JoinEnds(ws: seq<string>)
    requires ws != [] && AllWords(ws)
    ensures Join(ws) != "" && IsAlnum(Join(ws)[0]) && IsAlnum(Join(ws)[|Join(ws)| - 1])
  {
    if |ws| > 1 {
      JoinEnds(ws[..|ws| - 1]);
    }
  }

  lemma {:induction false} CollapseRun(s: string, n: nat)
    requires n <= RunLength(s)
    ensures Collapse(s) == s[..n] + Collapse(s[n..])
  {
    if n > 0 {
      CollapseRun(s[1..], n - 1);
      assert s[1..][..n - 1] == s[1..n] && s[1..][n - 1..] == s[n..];
      assert s[..n] == [s[0]] + s[1..n];
    } else {
      assert s[0..] == s;
    }
  }

  lemma {:induction false} WordsSkip(s: string)
    ensures Words(SkipJunk(s)) == Words(s)
    decreases |s|
  {
    if s != "" && !IsAlnum(s[0]) {
      WordsSkip(s[1..]);
    }
  }

  /** `c` is `j`, or `j` with an underscore left over. */
  predicate Trails(c: string, j: string) {
    c == j || c == j + "_"
  }

  lemma TrailsAfterRun(w: string, c: string, ws: seq<string>)
    requires ws != [] && Trails(c, Join(ws))
    ensures Trails(w + ("_" + c), Join([w] + ws))
  {
    JoinCons(w, ws);
    assert w + ("_" + Join(ws)) == w + "_" + Join(ws);
    assert w + ("_" + (Join(ws) + "_")) == (w + "_" + Join(ws)) + "_";
  }

  /** A name that starts with a letter or digit collapses to its words, with an underscore
      left over when it ends in something else. */
  lemma {:induction false} CollapseFromWord(s: string)
    requires s != "" && IsAlnum(s[0])
    ensures Words(s) != []
    ensures Trails(Collapse(s), Join(Words(s)))
    decreases |s|
  {
    var n := RunLength(s);
    var w, rest := s[..n], s[n..];
    CollapseRun(s, n);
    var next := SkipJunk(rest);
    WordsSkip(rest);
    if rest == "" {
      assert w + "" == w;
    } else if next == "" {
      assert Collapse(rest) == "_" + "";
    } else {
      CollapseFromWord(next);
      TrailsAfterRun(w, Collapse(next), Words(next));
    }
  }

  lemma TrimJoined(j: string, left: string, right: string)
    requires j == "" || (IsAlnum(j[0]) && IsAlnum(j[|j| - 1]))
    requires left in {"", "_"} && right in {"", "_"}
    requires j == "" ==> right == ""
    ensures TrimRight(TrimLeft(left + j + right)) == j
  {
    assert left + j + right == left + (j + right);
    assert j != "" ==> (j + right)[0] == j[0];
    TrimLeftOf(left, j + right);
    TrimRightOf(j, right);
  }

  lemma TrimLeftOf(left: string, r: string)
    requires left in {"", "_"} && (r == "" || r[0] != '_')
    ensures TrimLeft(left + r) == r
  {
    if left == "_" {
      assert (left + r)[1..] == r;
    } else {
      assert left + r == r;
    }
  }

  lemma TrimRightOf(j: string, right: string)
    requires right in {"", "_"} && (j == "" || j[|j| - 1] != '_')
    ensures TrimRight(j + right) == j
  {
    if right == "_" {
      assert (j + right)[..|j|] == j;
    } else {
      assert j + right == j;
    }
  }

  lemma BaseIsJoinedWords(name: string)
    ensures Base(name) == Join(Words(Lower(name)))
  {
    var s := Lower(name);
    if s != "" {
      var from := SkipJunk(s);
      WordsSkip(s);
      var left := if IsAlnum(s[0]) then "" else "_";
      assert Collapse(s) == left + Collapse(from);
      if from != "" {
        CollapseFromWord(from);
        var j := Join(Words(from));
        JoinEnds(Words(from));
        var right := if Collapse(from) == j then "" else "_";
        assert Collapse(s) == left + j + right;
        TrimJoined(j, left, right);
      } else {
        assert left + "" + "" == "_";
        TrimJoined("", left, "");
      }
    }
  }

  // ---- One pass of the suffix pattern drops one legal form ----

  lemma EndsWithSplits(s: string, t: string)
    ensures EndsWith(s, t) ==> s == s[..|s| - |t|] + t
  {
  }

  lemma ConcatEndsWith(q: string, t: string)
    ensures EndsWith(q + t, t)
  {
  }

  /** After the last underscore there are letters and digits only. */
  lemma NoUnderscoreAfter(p: string, q: string, l: string, w: string)
    requires IsWord(w) && p + ("_" + l) == q + ("_" + w)
    ensures |p| <= |q|
  {
    var s := q + ("_" + w);
    forall k | |q| < k < |s| ensures IsAlnum(s[k]) {
      assert s[k] == w[k - |q| - 1];
    }
    assert (p + ("_" + l))[|p|] == '_';
  }

  /** The last underscore splits a name in one way only. */
  lemma SplitAtLastUnderscore(p: string, l: string, q: string, w: string)
    requires IsWord(l) && IsWord(w) && p + ("_" + l) == q + ("_" + w)
    ensures p == q && l == w
  {
    NoUnderscoreAfter(p, q, l, w);
    NoUnderscoreAfter(q, p, w, l);
    var s := p + ("_" + l);
    assert s[..|p|] == p && s[..|q|] == q;
    assert s[|p| + 1..] == l && s[|q| + 1..] == w;
  }

  lemma WordHasNoUnderscore(l: string, q: string, w: string)
    requires IsWord(l)
    ensures l != q + ("_" + w)
  {
    if |l| > |q| {
      assert IsAlnum(l[|q|]);
      assert (q + ("_" + w))[|q|] == '_';
    }
  }

  lemma LoneWordEndsInNoForm(l: string, w: string)
    requires IsWord(l)
    ensures !EndsWith(l, "_" + w)
  {
    EndsWithSplits(l, "_" + w);
    if |"_" + w| <= |l| {
      WordHasNoUnderscore(l, l[..|l| - |"_" + w|], w);
    }
  }

  lemma EndsInItsLastWord(p: string, l: string, w: string)
    requires IsWord(l) && IsWord(w)
    ensures EndsWith(p + ("_" + l), "_" + w) <==> l == w
  {
    var s := p + ("_" + l);
    ConcatEndsWith(p, "_" + l);
    EndsWithSplits(s, "_" + w);
    if EndsWith(s, "_" + w) {
      SplitAtLastUnderscore(p, l, s[..|s| - |"_" + w|], w);
    }
  }

  lemma JoinSnoc(ws: seq<string>)
    requires |ws| >= 2
    ensures Join(ws) == Join(ws[..|ws| - 1]) + ("_" + ws[|ws| - 1])
  {
  }

  /** A joined name ends in "_" and a word exactly when that is its last word, and not its only one. */
  lemma EndsInWord(ws: seq<string>, w: string)
    requires ws != [] && AllWords(ws) && IsWord(w)
    ensures EndsWith(Join(ws), "_" + w) <==> |ws| >= 2 && ws[|ws| - 1] == w
  {
    var n := |ws|;
    if n >= 2 {
      JoinSnoc(ws);
      EndsInItsLastWord(Join(ws[..n - 1]), ws[n - 1], w);
    } else {
      LoneWordEndsInNoForm(ws[0], w);
    }
  }

  /** Taking the same end off both strings. */
  lemma EndsWithSuffix(p: string, t: string, u: string)
    ensures EndsWith(p + u, t + u) <==> EndsWith(p, t)
  {
    if EndsWith(p + u, t + u) {
      var q := (p + u)[..|p + u| - |t + u|];
      assert p + u == q + (t + u) == (q + t) + u;
      assert p == (p + u)[..|p|] == q + t;
    }
    if EndsWith(p, t) {
      var q := p[..|p| - |t|];
      assert p + u == q + (t + u);
    }
  }

  lemma EndsWithTail(s: string, t: string, u: string)
    ensures EndsWith(s, t + u) ==> EndsWith(s, u)
  {
    if EndsWith(s, t + u) {
      assert s[|s| - |u|..] == s[|s| - |t + u|..][|t|..] == u;
    }
  }

  /** Two words at the end, one after the other. */
  lemma EndsInBoth(before: string, last: string, v: string, w: string, endsInV: bool)
    requires EndsWith(before + ("_" + last), "_" + w) <==> last == w
    requires EndsWith(before, "_" + v) <==> endsInV
    ensures EndsWith(before + ("_" + last), ("_" + v) + ("_" + w)) <==> endsInV && last == w
  {
    EndsWithTail(before + ("_" + last), "_" + v, "_" + w);
    if last == w {
      EndsWithSuffix(before, "_" + v, "_" + w);
    }
  }

  lemma LoneWordEndsInNoPair(l: string, v: string, w: string)
    requires IsWord(l)
    ensures !EndsWith(l, ("_" + v) + ("_" + w))
  {
    LoneWordEndsInNoForm(l, w);
    EndsWithTail(l, "_" + v, "_" + w);
  }

  lemma SeveralWordsEndInPair(ws: seq<string>, v: string, w: string)
    requires |ws| >= 2 && AllWords(ws) && IsWord(v) && IsWord(w)
    ensures EndsWith(Join(ws[..|ws| - 1]) + ("_" + ws[|ws| - 1]), ("_" + v) + ("_" + w))
      <==> |ws| >= 3 && ws[|ws| - 2] == v && ws[|ws| - 1] == w
  {
    var before, last := ws[..|ws| - 1], ws[|ws| - 1];
    EndsInItsLastWord(Join(before), last, w);
    EndsInWord(before, v);
    EndsInBoth(Join(before), last, v, w, |ws| >= 3 && ws[|ws| - 2] == v);
  }

  /** A joined name ends in two words exactly when they are its last two, and not its only ones. */
  lemma EndsInPair(ws: seq<string>, v: string, w: string)
    requires ws != [] && AllWords(ws) && IsWord(v) && IsWord(w)
    ensures EndsWith(Join(ws), ("_" + v) + ("_" + w)) <==> |ws| >= 3 && ws[|ws| - 2] == v && ws[|ws| - 1] == w
  {
    if |ws| == 1 {
      LoneWordEndsInNoPair(ws[0], v, w);
    } else {
      JoinSnoc(ws);
      SeveralWordsEndInPair(ws, v, w);
    }
  }

  lemma EndsInTwoWords(ws: seq<string>)
    requires ws != [] && AllWords(ws)
    ensures EndsWith(Join(ws), "_b_v") <==> |ws| >= 3 && ws[|ws| - 2] == "b" && ws[|ws| - 1] == "v"
  {
    LettersOfBV();
    EndsInPair(ws, "b", "v");
  }

  lemma LettersOfBV()
    ensures ("_" + "b") + ("_" + "v") == "_b_v" && IsWord("b") && IsWord("v")
  {
  }

  lemma {:induction false} DropFirstDropsAForm(ws: seq<string>, forms: seq<string>)
    requires ws != [] && AllWords(ws) && AllWords(forms)
    ensures DropFirst(Join(ws), forms)
      == if |ws| >= 2 && ws[|ws| - 1] in forms then Join(ws[..|ws| - 1]) else Join(ws)
  {
    if forms != [] {
      EndsInWord(ws, forms[0]);
      DropFirstDropsAForm(ws, forms[1..]);
      if |ws| >= 2 && ws[|ws| - 1] == forms[0] {
        JoinSnoc(ws);
      }
    }
  }

  lemma FormsAreWords()
    ensures AllWords(FORMS)
  {
  }

  lemma JoinWithoutBV(ws: seq<string>)
    requires |ws| >= 3 && ws[|ws| - 2] == "b" && ws[|ws| - 1] == "v"
    ensures Join(ws) == Join(ws[..|ws| - 2]) + "_b_v"
  {
    var n := |ws|;
    assert ws[..n - 1][..n - 2] == ws[..n - 2];
    assert Join(ws) == Join(ws[..n - 2]) + "_" + "b" + "_" + "v";
  }

  /** "b_v" is tried first. */
  lemma SuffixesStartWithBV(s: string)
    ensures DropSuffix(s) == if EndsWith(s, "_b_v") then s[..|s| - 4] else DropFirst(s, FORMS)
  {
    BVIsTriedFirst(s, FORMS);
  }

  lemma BVIsTriedFirst(s: string, forms: seq<string>)
    ensures DropFirst(s, ["b_v"] + forms) == if EndsWith(s, "_b_v") then s[..|s| - 4] else DropFirst(s, forms)
  {
    assert (["b_v"] + forms)[1..] == forms && "_" + "b_v" == "_b_v";
  }

  lemma DropsBV(ws: seq<string>)
    requires |ws| >= 3 && ws[|ws| - 2] == "b" && ws[|ws| - 1] == "v"
    ensures |Join(ws)| == |Join(ws[..|ws| - 2])| + 4 && Join(ws)[..|Join(ws)| - 4] == Join(ws[..|ws| - 2])
  {
    JoinWithoutBV(ws);
  }

  lemma DropsOneWord(ws: seq<string>)
    requires ws != [] && AllWords(ws)
    ensures var n := |ws|;
      if n >= 2 && IsFormWord(ws[n - 1]) then
        DropFirst(Join(ws), FORMS) == Join(ws[..n - 1]) && |Join(ws[..n - 1])| < |Join(ws)|
      else DropFirst(Join(ws), FORMS) == Join(ws)
  {
    FormsAreWords();
    DropFirstDropsAForm(ws, FORMS);
    if |ws| >= 2 {
      FormsAreFormWords(ws[|ws| - 1]);
      JoinSnoc(ws);
    }
  }

  lemma DropSuffixDropsAForm(ws: seq<string>)
    requires ws != [] && AllWords(ws)
    ensures DropSuffix(Join(ws)) == Join(DropForm(ws))
    ensures DropForm(ws) != ws ==> |Join(DropForm(ws))| < |Join(ws)|
  {
    EndsInTwoWords(ws);
    SuffixesStartWithBV(Join(ws));
    if EndsWith(Join(ws), "_b_v") {
      DropsBV(ws);
    } else {
      DropsOneWord(ws);
    }
  }

  lemma {:induction false} StripSuffixesDropsForms(ws: seq<string>)
    requires ws != [] && AllWords(ws)
    ensures StripSuffixes(Join(ws)) == Join(DropForms(ws))
    decreases |ws|
  {
    DropSuffixDropsAForm(ws);
    JoinEnds(ws);
    if DropForm(ws) != ws {
      StripSuffixesDropsForms(DropForm(ws));
    }
  }

  /** MAIN RESULT. The slug is the words of the lower-cased name, less the legal forms at the end,
      joined by single underscores; there is none exactly when the name has no word. */
  lemma SlugIsJoinedWords(name: string)
    ensures var ws := Words(Lower(name));
      SlugOf(Some(name)) == if ws == [] then None else Some(Join(DropForms(ws)))
  {
    BaseIsJoinedWords(name);
    var ws := Words(Lower(name));
    if ws != [] {
      StripSuffixesDropsForms(ws);
      DropFormsIsPrefix(ws);
      JoinEnds(DropForms(ws));
    }
  }

  // ---- The words hold every letter and digit ----

  function LettersAndDigits(s: string): string {
    if s == "" then ""
    else (if 'a' <= s[0] <= 'z' || '0' <= s[0] <= '9' then [s[0]] else "") + LettersAndDigits(s[1..])
  }

  function Concatenated(ws: seq<string>): string {
    if ws == [] then "" else ws[0] + Concatenated(ws[1..])
  }

  lemma {:induction false} RunIsKept(w: string, rest: string)
    requires IsWord(w) || w == ""
    ensures LettersAndDigits(w + rest) == w + LettersAndDigits(rest)
  {
    if w == "" {
      assert w + rest == rest;
    } else {
      assert (w + rest)[1..] == w[1..] + rest;
      RunIsKept(w[1..], rest);
      assert w == [w[0]] + w[1..];
    }
  }

  /** The words of a lower-cased name are its letters and digits, none lost and in order. */
  lemma {:induction false} WordsHoldAllLetters(s: string)
    ensures Concatenated(Words(s)) == LettersAndDigits(s)
    decreases |s|
  {
    if s != "" {
      if IsAlnum(s[0]) {
        var n := RunLength(s);
        RunIsKept(s[..n], s[n..]);
        assert s == s[..n] + s[n..];
        WordsHoldAllLetters(s[n..]);
      } else {
        WordsHoldAllLetters(s[1..]);
      }
    }
  }

  // ---- The slug is a canonical form ----

  lemma {:induction false} RunOfWord(w: string, rest: string)
    requires IsWord(w) && (rest == "" || !IsAlnum(rest[0]))
    ensures RunLength(w + rest) == |w|
  {
    assert (w + rest)[1..] == w[1..] + rest;
    if |w| > 1 {
      RunOfWord(w[1..], rest);
    } else {
      assert w[1..] + rest == rest;
    }
  }

  lemma WordsOfWordThen(w: string, rest: string)
    requires IsWord(w) && (rest == "" || !IsAlnum(rest[0]))
    ensures Words(w + rest) == [w] + Words(rest)
  {
    RunOfWord(w, rest);
    assert (w + rest)[..|w|] == w && (w + rest)[|w|..] == rest;
  }

  lemma {:induction false} WordsOfJoin(ws: seq<string>)
    requires AllWords(ws)
    ensures Words(Join(ws)) == ws
  {
    if |ws| == 1 {
      WordsOfWordThen(ws[0], "");
      assert ws[0] + "" == ws[0];
    } else if |ws| > 1 {
      var tail := ws[1..];
      assert ws == [ws[0]] + tail;
      JoinCons(ws[0], tail);
      WordsOfJoin(tail);
      var rest := "_" + Join(tail);
      assert Join(ws) == ws[0] + rest;
      WordsOfWordThen(ws[0], rest);
      assert rest[1..] == Join(tail);
    }
  }

  predicate SlugChars(s: string) {
    forall i | 0 <= i < |s| :: 'a' <= s[i] <= 'z' || '0' <= s[i] <= '9' || s[i] == '_'
  }

  lemma {:induction false} JoinChars(ws: seq<string>)
    requires AllWords(ws)
    ensures SlugChars(Join(ws))
    ensures ws != [] ==> forall i | 0 <= i < |Join(ws)| - 1 :: Join(ws)[i] == '_' ==> Join(ws)[i + 1] != '_'
  {
    if |ws| > 1 {
      var n := |ws| - 1;
      JoinChars(ws[..n]);
      JoinEnds(ws[..n]);
    }
  }

  lemma LowerOfSlugChars(s: string)
    requires SlugChars(s)
    ensures Lower(s) == s
  {
    forall i | 0 <= i < |s| ensures LowerChar(s[i]) == s[i] {
    }
  }

  /** A slug has only a-z, 0-9 and single inner underscores, and no legal form can be removed. */
  predicate Canonical(s: string) {
    && s != "" && SlugChars(s)
    && s[0] != '_' && s[|s| - 1] != '_'
    && (forall i | 0 <= i < |s| - 1 :: s[i] == '_' ==> s[i + 1] != '_')
    && DropSuffix(s) == s
  }

  lemma SlugIsCanonical(name: string)
    requires SlugOf(Some(name)).Some?
    ensures Canonical(SlugOf(Some(name)).value)
  {
    SlugIsJoinedWords(name);
    var ws := Words(Lower(name));
    DropFormsIsPrefix(ws);
    var kept := DropForms(ws);
    JoinChars(kept);
    JoinEnds(kept);
    DropSuffixDropsAForm(kept);
  }

  /** MAIN RESULT. A slug is its own slug. */
  lemma SlugIsIdempotent(name: string)
    requires SlugOf(Some(name)).Some?
    ensures SlugOf(SlugOf(Some(name))) == SlugOf(Some(name))
  {
    SlugIsJoinedWords(name);
    var ws := Words(Lower(name));
    DropFormsIsPrefix(ws);
    var kept := DropForms(ws);
    JoinChars(kept);
    LowerOfSlugChars(Join(kept));
    WordsOfJoin(kept);
    SlugIsJoinedWords(Join(kept));
  }

  /** A separator holds no letter or digit. */
  predicate IsSeparator(sep: string) {
    sep != "" && forall i | 0 <= i < |sep| :: !IsAlnum(LowerChar(sep[i]))
  }

  /** A legal form as written: "Ltd", "B.V.", "(GmbH)". */
  predicate IsLegalForm(form: string) {
    var ws := Words(Lower(form));
    ws == ["b", "v"] || (|ws| == 1 && IsFormWord(ws[0]))
  }

  lemma {:induction false} WordsOfConcat(a: string, b: string)
    requires b == "" || !IsAlnum(b[0])
    ensures Words(a + b) == Words(a) + Words(b)
    decreases |a|
  {
    if a == "" {
      assert a + b == b;
    } else if !IsAlnum(a[0]) {
      assert (a + b)[1..] == a[1..] + b;
      WordsOfConcat(a[1..], b);
    } else {
      WordsOfConcat(a[RunLength(a)..], b);
      WordsOfRunThen(a, b);
    }
  }

  lemma WordsOfRunThen(a: string, b: string)
    requires a != "" && IsAlnum(a[0]) && (b == "" || !IsAlnum(b[0]))
    ensures Words(a + b) == [a[..RunLength(a)]] + Words(a[RunLength(a)..] + b)
    ensures Words(a) == [a[..RunLength(a)]] + Words(a[RunLength(a)..])
  {
    var n := RunLength(a);
    SplitConcat(a, b, n);
    assert IsWord(a[..n]);
    WordsOfWordThen(a[..n], a[n..] + b);
  }

  lemma SplitConcat(a: string, b: string, n: nat)
    requires n <= |a| && (n < |a| ==> !IsAlnum(a[n])) && (b == "" || !IsAlnum(b[0]))
    ensures a + b == a[..n] + (a[n..] + b)
    ensures a[n..] + b == "" || !IsAlnum((a[n..] + b)[0])
  {
    if n == |a| {
      assert a[n..] + b == b;
    }
  }

  lemma {:induction false} WordsAfterJunk(junk: string, b: string)
    requires forall i | 0 <= i < |junk| :: !IsAlnum(junk[i])
    ensures Words(junk + b) == Words(b)
  {
    if junk == "" {
      assert junk + b == b;
    } else {
      assert (junk + b)[1..] == junk[1..] + b;
      WordsAfterJunk(junk[1..], b);
    }
  }

  lemma LowerOfConcat(a: string, b: string)
    ensures Lower(a + b) == Lower(a) + Lower(b)
  {
  }

  /** MAIN RESULT. "Acme" and "Acme B.V." are one supplier: appending any legal form to a name that
      has a slug leaves the slug as it is. */
  lemma LegalFormsCollapse(name: string, sep: string, form: string)
    requires SlugOf(Some(name)).Some? && IsSeparator(sep) && IsLegalForm(form)
    ensures SlugOf(Some(name + sep + form)) == SlugOf(Some(name))
  {
    SlugIsJoinedWords(name);
    SlugIsJoinedWords(name + sep + form);
    AppendedWords(name, sep, form);
    FormIsDropped(Words(Lower(name)), Words(Lower(form)));
  }

  lemma AppendedWords(name: string, sep: string, form: string)
    requires IsSeparator(sep)
    ensures Words(Lower(name + sep + form)) == Words(Lower(name)) + Words(Lower(form))
  {
    var n, j, f := Lower(name), Lower(sep), Lower(form);
    LowerOfConcat(name + sep, form);
    LowerOfConcat(name, sep);
    assert n + j + f == n + (j + f);
    WordsOfConcat(n, j + f);
    WordsAfterJunk(j, f);
  }

  lemma FormIsDropped(ws: seq<string>, form: seq<string>)
    requires ws != []
    requires form == ["b", "v"] || (|form| == 1 && IsFormWord(form[0]))
    ensures DropForms(ws + form) == DropForms(ws)
  {
    assert DropForm(ws + form) == ws;
  }
}
